/** The toggle both the like and the subscription handlers perform: find the
    first document the key accepts; delete it if there is one, otherwise
    append a new one. */
module Toggles {
  import opened Common

  /** The collection after a toggle, and whether a document was created. */
  function Toggle<T>(s: seq<Doc<T>>, key: Doc<T> -> bool, made: Doc<T>): (r: (seq<Doc<T>>, bool))
    ensures r.1 <==> FindFirst(s, key).None?
    ensures r.1 ==> r.0 == s + [made]
    ensures !r.1 ==> r.0 == RemoveAt(s, FindFirst(s, key).value)
  {
    match FindFirst(s, key)
    case Some(i) => (RemoveAt(s, i), false)
    case None => (s + [made], true)
  }

  /** At most one document is accepted by `key`. */
  predicate AtMostOne<T>(s: seq<Doc<T>>, key: Doc<T> -> bool)
  {
    forall i, j :: 0 <= i < j < |s| && key(s[i]) ==> !key(s[j])
  }

  /** The data of each document, in order. */
  function Contents<T>(s: seq<Doc<T>>): (r: seq<T>)
    ensures |r| == |s| && forall i :: 0 <= i < |s| ==> r[i] == s[i].data
  {
    seq(|s|, i requires 0 <= i < |s| => s[i].data)
  }

  lemma ContentsAppend<T>(s: seq<Doc<T>>, t: seq<Doc<T>>)
    ensures Contents(s + t) == Contents(s) + Contents(t)
  {
  }

  /** A toggle keeps "at most one match": the match is removed, or the new
      document is the only one. */
  lemma ToggleKeepsAtMostOne<T>(s: seq<Doc<T>>, key: Doc<T> -> bool, made: Doc<T>)
    requires AtMostOne(s, key)
    ensures AtMostOne(Toggle(s, key, made).0, key)
  {
    var r := Toggle(s, key, made).0;
    match FindFirst(s, key)
    case None =>
      assert forall i :: 0 <= i < |s| ==> r[i] == s[i] && !key(r[i]);
    case Some(k) =>
      forall i, j | 0 <= i < j < |r| && key(r[i]) ensures !key(r[j]) {
        var i' := if i < k then i else i + 1;
        var j' := if j < k then j else j + 1;
        assert r[i] == s[i'] && r[j] == s[j'] && i' < j';
      }
  }

  /** A toggle also keeps "at most one match" for any other filter that the
      new document does not satisfy. */
  lemma ToggleKeepsAtMostOneOther<T>(s: seq<Doc<T>>, key: Doc<T> -> bool, made: Doc<T>, other: Doc<T> -> bool)
    requires AtMostOne(s, other) && !other(made)
    ensures AtMostOne(Toggle(s, key, made).0, other)
  {
    var r := Toggle(s, key, made).0;
    match FindFirst(s, key)
    case None =>
      assert forall i :: 0 <= i < |s| ==> r[i] == s[i];
    case Some(k) =>
      forall i, j | 0 <= i < j < |r| && other(r[i]) ensures !other(r[j]) {
        var i' := if i < k then i else i + 1;
        var j' := if j < k then j else j + 1;
        assert r[i] == s[i'] && r[j] == s[j'] && i' < j';
      }
  }

  /** Every document the key rejects is untouched, in the same order. */
  lemma OthersUnchanged<T>(s: seq<Doc<T>>, key: Doc<T> -> bool, made: Doc<T>)
    requires key(made)
    ensures Select(Toggle(s, key, made).0, Not(key)) == Select(s, Not(key))
  {
    match FindFirst(s, key)
    case None =>
      SelectAppend(s, [made], Not(key));
      assert [made][1..] == [];
    case Some(k) =>
      SelectRemoveRejected(s, k, Not(key));
  }

  /** Nothing is selected when nothing matches. */
  lemma {:induction false} SelectNone<T>(s: seq<T>, p: T -> bool)
    requires forall j :: 0 <= j < |s| ==> !p(s[j])
    ensures Select(s, p) == []
  {
    if |s| > 0 {
      SelectNone(s[1..], p);
    }
  }

  /** A toggle changes the number of matches by exactly one. */
  lemma MatchCountChangesByOne<T>(s: seq<Doc<T>>, key: Doc<T> -> bool, made: Doc<T>)
    requires key(made)
    ensures var n := |Select(s, key)|;
      var n' := |Select(Toggle(s, key, made).0, key)|;
      (FindFirst(s, key).None? ==> n == 0 && n' == 1) && (FindFirst(s, key).Some? ==> n' == n - 1)
  {
    match FindFirst(s, key)
    case None =>
      SelectAppend(s, [made], key);
      assert [made][1..] == [];
      assert Select([made], key) == [made];
      SelectNone(s, key);
    case Some(k) =>
      SelectRemoveAccepted(s, k, key);
  }

  /** Toggling twice when there is no match gives back the very same
      collection: the document created is the one deleted. */
  lemma ToggleTwiceFromAbsent<T>(s: seq<Doc<T>>, key: Doc<T> -> bool, made: Doc<T>, remade: Doc<T>)
    requires FindFirst(s, key).None? && key(made)
    ensures Toggle(Toggle(s, key, made).0, key, remade) == (s, false)
  {
    var t := s + [made];
    assert forall j :: 0 <= j < |s| ==> t[j] == s[j] && !key(t[j]);
    assert key(t[|s|]);
    assert FindFirst(t, key) == Some(|s|);
    assert RemoveAt(t, |s|) == s;
  }

  /** Toggling twice when there is a match (and at most one) deletes it and
      creates it again: the same data, now last and under a new id. */
  lemma ToggleTwiceFromPresent<T>(s: seq<Doc<T>>, key: Doc<T> -> bool, made: Doc<T>, remade: Doc<T>)
    requires AtMostOne(s, key) && FindFirst(s, key).Some? && key(remade)
    ensures var k := FindFirst(s, key).value;
      Toggle(Toggle(s, key, made).0, key, remade) == (RemoveAt(s, k) + [remade], true)
    ensures var k := FindFirst(s, key).value;
      remade.data == s[k].data ==>
        multiset(Contents(Toggle(Toggle(s, key, made).0, key, remade).0)) == multiset(Contents(s))
  {
    var k := FindFirst(s, key).value;
    var t := RemoveAt(s, k);
    forall j | 0 <= j < |t| ensures !key(t[j]) {
      if j < k {
        assert t[j] == s[j];
      } else {
        assert t[j] == s[j + 1];
      }
    }
    assert FindFirst(t, key).None?;
    if remade.data == s[k].data {
      ReplacedLastKeepsContents(s, k, remade);
    }
  }

  /** Deleting a document and appending one with the same data keeps the
      contents, up to order. */
  lemma ReplacedLastKeepsContents<T>(s: seq<Doc<T>>, k: nat, remade: Doc<T>)
    requires k < |s| && remade.data == s[k].data
    ensures multiset(Contents(RemoveAt(s, k) + [remade])) == multiset(Contents(s))
  {
    var a, b := Contents(s[..k]), Contents(s[k + 1..]);
    ContentsAround(s, k);
    ContentsAppend(RemoveAt(s, k), [remade]);
    assert Contents([remade]) == [s[k].data];
    MultisetMoveToEnd(a, s[k].data, b);
  }

  /** The contents on either side of position `k`, with and without it. */
  lemma ContentsAround<T>(s: seq<Doc<T>>, k: nat)
    requires k < |s|
    ensures Contents(s) == Contents(s[..k]) + [s[k].data] + Contents(s[k + 1..])
    ensures Contents(RemoveAt(s, k)) == Contents(s[..k]) + Contents(s[k + 1..])
  {
    var a, b := Contents(s[..k]), Contents(s[k + 1..]);
    var with := a + [s[k].data] + b;
    forall i | 0 <= i < |s| ensures with[i] == s[i].data {
      if i < k {
        assert with[i] == a[i] && s[..k][i] == s[i];
      } else if i == k {
        assert with[i] == s[k].data;
      } else {
        assert with[i] == b[i - k - 1] && s[k + 1..][i - k - 1] == s[i];
      }
    }
    var without := a + b;
    var r := RemoveAt(s, k);
    forall i | 0 <= i < |r| ensures without[i] == r[i].data {
      if i < k {
        assert without[i] == a[i] && s[..k][i] == s[i] && r[i] == s[i];
      } else {
        assert without[i] == b[i - k] && s[k + 1..][i - k] == s[i + 1] && r[i] == s[i + 1];
      }
    }
  }

  lemma MultisetMoveToEnd<T>(a: seq<T>, d: T, b: seq<T>)
    ensures multiset(a + [d] + b) == multiset(a + b + [d])
  {
  }
}
