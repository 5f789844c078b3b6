/** MongoDB's `sort` on one field, as the handlers use it. Values of different
    BSON types compare by type first (null or missing, numbers, strings,
    ObjectIds, booleans, dates); strings compare by code point. The model's sort
    is stable: documents whose keys tie keep their natural order. */
module Ordering {
  import opened Common

  /** The value a document holds in the sort field, as the sort sees it. */
  datatype SortKey =
    | Missing
    | Number(n: int)
    | Text(t: string)
    | ObjectId(id: Id)
    | Flag(b: bool)
    | Date(at: Time)

  /** The BSON comparison order of the types above. */
  function Rank(k: SortKey): nat
  {
    match k
    case Missing => 0
    case Number(_) => 1
    case Text(_) => 2
    case ObjectId(_) => 3
    case Flag(_) => 4
    case Date(_) => 5
  }

  /** Lexicographic order on code points (binary string comparison). */
  predicate TextLe(a: string, b: string)
  {
    if |a| == 0 then true
    else if |b| == 0 then false
    else if a[0] != b[0] then a[0] < b[0]
    else TextLe(a[1..], b[1..])
  }

  lemma {:induction false} TextLeTotal(a: string, b: string)
    ensures TextLe(a, b) || TextLe(b, a)
  {
    if |a| > 0 && |b| > 0 && a[0] == b[0] {
      TextLeTotal(a[1..], b[1..]);
    }
  }

  lemma {:induction false} TextLeReflexive(a: string)
    ensures TextLe(a, a)
  {
    if |a| > 0 {
      TextLeReflexive(a[1..]);
    }
  }

  /** `a` may come before `b` in an ascending sort. */
  predicate KeyLe(a: SortKey, b: SortKey)
  {
    if Rank(a) != Rank(b) then Rank(a) < Rank(b)
    else
      match a
      case Missing => true
      case Number(x) => x <= b.n
      case Text(x) => TextLe(x, b.t)
      case ObjectId(x) => x <= b.id
      case Flag(x) => !x || b.b
      case Date(x) => x <= b.at
  }

  lemma KeyLeTotal(a: SortKey, b: SortKey)
    ensures KeyLe(a, b) || KeyLe(b, a)
  {
    if a.Text? && b.Text? {
      TextLeTotal(a.t, b.t);
    }
  }

  lemma KeyLeReflexive(a: SortKey)
    ensures KeyLe(a, a)
  {
    if a.Text? {
      TextLeReflexive(a.t);
    }
  }

  /** A key that may come before `b` in the sort direction (`desc` for -1). */
  predicate Precedes(a: SortKey, b: SortKey, desc: bool)
  {
    if desc then KeyLe(b, a) else KeyLe(a, b)
  }

  /** Each element may come before the next one in the sort direction. */
  predicate SortedBy<T>(s: seq<T>, key: T -> SortKey, desc: bool)
  {
    forall i :: 0 <= i && i + 1 < |s| ==> Precedes(key(s[i]), key(s[i + 1]), desc)
  }

  /** Puts `x` before the first element of the sorted `r` that it may precede. */
  function Insert<T(==)>(x: T, r: seq<T>, key: T -> SortKey, desc: bool): (r': seq<T>)
    ensures |r'| == |r| + 1
    ensures multiset(r') == multiset(r) + multiset{x}
    ensures r'[0] == x || (|r| > 0 && r'[0] == r[0])
  {
    if |r| == 0 || Precedes(key(x), key(r[0]), desc) then
      [x] + r
    else
      var tail := Insert(x, r[1..], key, desc);
      assert r == [r[0]] + r[1..];
      [r[0]] + tail
  }

  /** Inserting into a sorted sequence keeps it sorted. */
  lemma {:induction false} InsertSorted<T>(x: T, r: seq<T>, key: T -> SortKey, desc: bool)
    requires SortedBy(r, key, desc)
    ensures SortedBy(Insert(x, r, key, desc), key, desc)
  {
    var r' := Insert(x, r, key, desc);
    if |r| == 0 || Precedes(key(x), key(r[0]), desc) {
      forall i | 0 <= i && i + 1 < |r'|
        ensures Precedes(key(r'[i]), key(r'[i + 1]), desc)
      {
        if i > 0 {
          assert r'[i] == r[i - 1] && r'[i + 1] == r[i];
        }
      }
    } else {
      KeyLeTotal(key(x), key(r[0]));
      var rest := r[1..];
      assert SortedBy(rest, key, desc) by {
        forall i | 0 <= i && i + 1 < |rest|
          ensures Precedes(key(rest[i]), key(rest[i + 1]), desc)
        {
          assert rest[i] == r[i + 1] && rest[i + 1] == r[i + 2];
        }
      }
      InsertSorted(x, rest, key, desc);
      var tail := Insert(x, rest, key, desc);
      assert r' == [r[0]] + tail;
      assert Precedes(key(r[0]), key(tail[0]), desc) by {
        if tail[0] != x {
          assert tail[0] == r[1];
        }
      }
      forall i | 0 <= i && i + 1 < |r'|
        ensures Precedes(key(r'[i]), key(r'[i + 1]), desc)
      {
        if i > 0 {
          assert r'[i] == tail[i - 1] && r'[i + 1] == tail[i];
        }
      }
    }
  }

  /** The `sort({ field: direction })` stage: a stable insertion sort. */
  function SortBy<T(==)>(s: seq<T>, key: T -> SortKey, desc: bool): (r: seq<T>)
    ensures |r| == |s|
    ensures multiset(r) == multiset(s)
    ensures SortedBy(r, key, desc)
  {
    if |s| == 0 then []
    else
      assert s == [s[0]] + s[1..];
      InsertSorted(s[0], SortBy(s[1..], key, desc), key, desc);
      Insert(s[0], SortBy(s[1..], key, desc), key, desc)
  }

  /** When every key ties (e.g. the sort field is missing from every
      document) the sort leaves the order as it was. */
  lemma {:induction false} SortAllTied<T>(s: seq<T>, key: T -> SortKey, desc: bool, k: SortKey)
    requires forall i :: 0 <= i < |s| ==> key(s[i]) == k
    ensures SortBy(s, key, desc) == s
  {
    if |s| > 0 {
      SortAllTied(s[1..], key, desc, k);
      KeyLeReflexive(k);
      assert s == [s[0]] + s[1..];
    }
  }

  /** ...and then every order of the documents counts as sorted, so the
      stage imposes no order at all. */
  lemma AllTiedAnyOrderSorted<T>(s: seq<T>, key: T -> SortKey, desc: bool, k: SortKey)
    requires forall i :: 0 <= i < |s| ==> key(s[i]) == k
    ensures SortedBy(s, key, desc)
  {
    KeyLeReflexive(k);
  }

  /** The `createdAt` timestamp as a sort key. */
  function ByCreatedAt<T>(): Doc<T> -> SortKey
  {
    (d: Doc<T>) => Date(d.createdAt)
  }

  /** Each document is at least as new as the next one. */
  predicate NewestFirstOrder<T>(s: seq<Doc<T>>)
  {
    forall i :: 0 <= i && i + 1 < |s| ==> s[i].createdAt >= s[i + 1].createdAt
  }

  /** `sort({ createdAt: -1 })`. */
  function NewestFirst<T(==)>(s: seq<Doc<T>>): (r: seq<Doc<T>>)
    ensures |r| == |s|
    ensures multiset(r) == multiset(s)
    ensures NewestFirstOrder(r)
  {
    var r := SortBy(s, ByCreatedAt(), true);
    assert forall i :: 0 <= i && i + 1 < |r| ==>
      Precedes(ByCreatedAt()(r[i]), ByCreatedAt()(r[i + 1]), true);
    r
  }

  /** `find(filter).sort({ createdAt: -1 })`: exactly the documents the
      filter accepts, newest first. */
  function FindNewestFirst<T(==)>(s: seq<Doc<T>>, p: Doc<T> -> bool): (r: seq<Doc<T>>)
    ensures NewestFirstOrder(r)
    ensures |r| == |Select(s, p)|
    ensures multiset(r) == multiset(Select(s, p))
    ensures forall i :: 0 <= i < |r| ==> r[i] in s && p(r[i])
    ensures forall i :: 0 <= i < |s| && p(s[i]) ==> s[i] in r
  {
    var r := NewestFirst(Select(s, p));
    assert forall i :: 0 <= i < |r| ==> r[i] in Select(s, p) by {
      forall i | 0 <= i < |r| ensures r[i] in Select(s, p) {
        assert r[i] in multiset(r);
      }
    }
    assert forall i :: 0 <= i < |s| && p(s[i]) ==> s[i] in r by {
      forall i | 0 <= i < |s| && p(s[i]) ensures s[i] in r {
        assert s[i] in multiset(Select(s, p));
      }
    }
    r
  }
}
