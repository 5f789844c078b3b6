/** Values shared by every part of the model: optional request fields, document
    ids and timestamps, and the few sequence operations the handlers are built from
    (find the first match, drop one position, keep the matching documents). */
module Common {

  datatype Option<T> = None | Some(value: T)

  /** A MongoDB ObjectId, kept opaque: only equality and order are used. */
  type Id = nat

  /** A point in time (the clock is a parameter of every handler that writes). */
  type Time = int

  /** JavaScript truthiness of a request field that is either absent or a string:
      `undefined` and `""` are falsy, every other string is truthy. */
  predicate Truthy(field: Option<string>)
  {
    field.Some? && field.value != ""
  }

  /** A stored document: its data plus the `_id` MongoDB gives it and the
      `createdAt` / `updatedAt` pair that `{ timestamps: true }` maintains. */
  datatype Doc<T> = Doc(id: Id, createdAt: Time, updatedAt: Time, data: T)

  /** The collection invariant: every id was handed out before `next`, and ids
      grow along the natural (insertion) order, so no id occurs twice. */
  ghost predicate WellKeyed<T>(s: seq<Doc<T>>, next: Id)
  {
    && (forall i :: 0 <= i < |s| ==> s[i].id < next)
    && (forall i, j :: 0 <= i < j < |s| ==> s[i].id < s[j].id)
  }

  /** The position of the first element satisfying `p` (a `findOne`). */
  function FindFirst<T>(s: seq<T>, p: T -> bool): (r: Option<nat>)
    ensures r.Some? ==> r.value < |s| && p(s[r.value])
    ensures r.Some? ==> forall j :: 0 <= j < r.value ==> !p(s[j])
    ensures r.None? ==> forall j :: 0 <= j < |s| ==> !p(s[j])
  {
    if |s| == 0 then None
    else if p(s[0]) then Some(0)
    else
      match FindFirst(s[1..], p)
      case None => None
      case Some(k) => Some(k + 1)
  }

  /** The filter "this document has id `id`". */
  function IdIs<T>(id: Id): Doc<T> -> bool
  {
    (d: Doc<T>) => d.id == id
  }

  /** The filter that accepts what `p` rejects. */
  function Not<T>(p: T -> bool): T -> bool
  {
    (x: T) => !p(x)
  }

  /** `findById`: the position of the document with the given id, if any. */
  function FindById<T>(s: seq<Doc<T>>, id: Id): Option<nat>
  {
    FindFirst(s, IdIs(id))
  }

  predicate HasId<T>(s: seq<Doc<T>>, id: Id)
  {
    exists i :: 0 <= i < |s| && s[i].id == id
  }

  /** The sequence without position `i`; the rest keep their order. */
  function RemoveAt<T>(s: seq<T>, i: nat): (r: seq<T>)
    requires i < |s|
    ensures |r| == |s| - 1
    ensures forall j :: 0 <= j < i ==> r[j] == s[j]
    ensures forall j :: i <= j < |r| ==> r[j] == s[j + 1]
    ensures multiset(r) + multiset{s[i]} == multiset(s)
  {
    assert s == s[..i] + [s[i]] + s[i + 1..];
    s[..i] + s[i + 1..]
  }

  /** The elements of `s` that satisfy `p`, in their original order (a `find`). */
  function Select<T>(s: seq<T>, p: T -> bool): (r: seq<T>)
    ensures |r| <= |s|
    ensures forall i :: 0 <= i < |r| ==> r[i] in s && p(r[i])
    ensures forall i :: 0 <= i < |s| && p(s[i]) ==> s[i] in r
  {
    if |s| == 0 then []
    else if p(s[0]) then [s[0]] + Select(s[1..], p)
    else Select(s[1..], p)
  }

  /** Two filters that agree on every element of `s` find and select the same. */
  lemma {:induction false} SameFilterOn<T>(s: seq<T>, p: T -> bool, q: T -> bool)
    requires forall i :: 0 <= i < |s| ==> p(s[i]) == q(s[i])
    ensures FindFirst(s, p) == FindFirst(s, q)
    ensures Select(s, p) == Select(s, q)
  {
    if |s| > 0 {
      SameFilterOn(s[1..], p, q);
    }
  }

  lemma {:induction false} SelectAppend<T>(s: seq<T>, t: seq<T>, p: T -> bool)
    ensures Select(s + t, p) == Select(s, p) + Select(t, p)
  {
    if |s| == 0 {
      assert s + t == t;
    } else {
      assert (s + t)[1..] == s[1..] + t;
      SelectAppend(s[1..], t, p);
    }
  }

  /** Dropping an element that `p` rejects does not change what `p` selects. */
  lemma {:induction false} SelectRemoveRejected<T>(s: seq<T>, i: nat, p: T -> bool)
    requires i < |s| && !p(s[i])
    ensures Select(RemoveAt(s, i), p) == Select(s, p)
  {
    var before, x, after := s[..i], s[i], s[i + 1..];
    assert s == (before + [x]) + after;
    assert RemoveAt(s, i) == before + after;
    assert [x][1..] == [];
    assert Select([x], p) == [];
    calc {
      Select(s, p);
      { SelectAppend(before + [x], after, p); }
      Select(before + [x], p) + Select(after, p);
      { SelectAppend(before, [x], p); }
      (Select(before, p) + []) + Select(after, p);
      { assert Select(before, p) + [] == Select(before, p); }
      Select(before, p) + Select(after, p);
      { SelectAppend(before, after, p); }
      Select(RemoveAt(s, i), p);
    }
  }

  /** Dropping an element that `p` accepts removes exactly one from what `p` selects. */
  lemma {:induction false} SelectRemoveAccepted<T>(s: seq<T>, i: nat, p: T -> bool)
    requires i < |s| && p(s[i])
    ensures |Select(RemoveAt(s, i), p)| + 1 == |Select(s, p)|
  {
    var before, x, after := s[..i], s[i], s[i + 1..];
    assert s == (before + [x]) + after;
    SelectAppend(before + [x], after, p);
    SelectAppend(before, [x], p);
    SelectAppend(before, after, p);
    assert [x][1..] == [];
    assert Select([x], p) == [x] + Select([x][1..], p) == [x];
  }

  /** With well-keyed documents, `findById` finds every id that is present. */
  lemma FindByIdPresent<T>(s: seq<Doc<T>>, id: Id)
    ensures FindById(s, id).Some? <==> HasId(s, id)
  {
  }

  /** Appending a document with the next id keeps a collection well keyed. */
  lemma WellKeyedAppend<T>(s: seq<Doc<T>>, next: Id, d: Doc<T>)
    requires WellKeyed(s, next) && d.id == next
    ensures WellKeyed(s + [d], next + 1)
  {
  }

  /** Handing out an id elsewhere keeps a collection well keyed. */
  lemma WellKeyedGrow<T>(s: seq<Doc<T>>, next: Id, next': Id)
    requires WellKeyed(s, next) && next <= next'
    ensures WellKeyed(s, next')
  {
  }

  /** Deleting a document keeps a collection well keyed, and its id is then gone. */
  lemma WellKeyedRemove<T>(s: seq<Doc<T>>, next: Id, i: nat)
    requires WellKeyed(s, next) && i < |s|
    ensures WellKeyed(RemoveAt(s, i), next)
    ensures !HasId(RemoveAt(s, i), s[i].id)
  {
    var r := RemoveAt(s, i);
    forall a, b | 0 <= a < b < |r| ensures r[a].id < r[b].id {
      var a' := if a < i then a else a + 1;
      var b' := if b < i then b else b + 1;
      assert r[a] == s[a'] && r[b] == s[b'] && a' < b';
    }
    forall j | 0 <= j < |r| ensures r[j].id != s[i].id {
      var j' := if j < i then j else j + 1;
      assert r[j] == s[j'] && j' != i;
    }
  }

  /** Replacing a document by one with the same id keeps a collection well keyed. */
  lemma WellKeyedReplace<T>(s: seq<Doc<T>>, next: Id, i: nat, d: Doc<T>)
    requires WellKeyed(s, next) && i < |s| && d.id == s[i].id
    ensures WellKeyed(s[i := d], next)
  {
  }
}
