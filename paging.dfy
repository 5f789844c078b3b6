/** Cursor paging as the list handlers use it: `skip((page - 1) * limit)` then
    `limit(limit)`, and the page count `Math.ceil(total / limit)`. */
module Paging {
  import opened Common
  import opened JsStrings

  /** A query parameter read with `parseInt`, or its numeric default when the
      parameter is absent; `None` is NaN. */
  function QueryInt(q: Option<string>, default: int): (r: Option<int>)
    ensures q.None? ==> r == Some(default)
    ensures q.Some? ==> r == ParseInt(q.value)
  {
    if q.None? then Some(default) else ParseInt(q.value)
  }

  /** A query parameter used in arithmetic, which converts it with `Number`,
      or its numeric default when the parameter is absent; `None` is NaN. */
  function QueryNumber(q: Option<string>, default: int): (r: Option<int>)
    ensures q.None? ==> r == Some(default)
    ensures q.Some? ==> r == ToNumber(q.value)
  {
    if q.None? then Some(default) else ToNumber(q.value)
  }

  function Abs(n: int): nat
  {
    if n < 0 then -n else n
  }

  /** `skip(n)`: drops the first `n` documents. */
  function Skip<T>(s: seq<T>, n: nat): (r: seq<T>)
    ensures |r| == if n <= |s| then |s| - n else 0
    ensures forall i :: 0 <= i < |r| ==> r[i] == s[n + i]
  {
    if n <= |s| then s[n..] else []
  }

  /** `limit(n)`: keeps at most `|n|` documents from the front (a negative
      limit asks for a single batch of `-n`); `limit(0)` means no limit. */
  function Limit<T>(s: seq<T>, n: int): (r: seq<T>)
    ensures |r| <= |s| && r == s[..|r|]
    ensures |r| == if n == 0 || Abs(n) >= |s| then |s| else Abs(n)
  {
    if n == 0 || Abs(n) >= |s| then s else s[..Abs(n)]
  }

  /** `Math.ceil(a / b)` for a count `a` and a non-zero integer `b`. */
  function CeilDiv(a: nat, b: int): (q: int)
    requires b != 0
    ensures b > 0 ==> (q - 1) * b < a <= q * b
    ensures b < 0 ==> q * b <= a < (q - 1) * b
  {
    if b > 0 then
      var q := (a + b - 1) / b;
      assert a + b - 1 == q * b + (a + b - 1) % b;
      assert (q - 1) * b == q * b - b;
      q
    else
      var q := a / -b;
      assert a == q * -b + a % -b;
      assert (-q - 1) * b == q * -b - b;
      -q
  }

  /** `Math.ceil(total / limit)` as it reaches the JSON body: a division by a
      zero limit gives Infinity or NaN, both of which serialize as `null`. */
  function TotalPages(total: nat, limit: int): (r: Option<int>)
    ensures r.None? <==> limit == 0
    ensures r.Some? && limit > 0 ==> (r.value - 1) * limit < total <= r.value * limit
  {
    if limit == 0 then None else Some(CeilDiv(total, limit))
  }

  /** One page of `s`: `skip((page - 1) * limit).limit(limit)`. The database
      refuses a negative skip, which is `None` here. */
  function Page<T>(s: seq<T>, page: int, limit: int): (r: Option<seq<T>>)
    ensures r.None? <==> (page - 1) * limit < 0
  {
    var skip := (page - 1) * limit;
    if skip < 0 then None else Some(Limit(Skip(s, skip), limit))
  }

  /** A page is a run of consecutive documents of `s`, from the skip on. */
  lemma PageSlice<T>(s: seq<T>, page: int, limit: int)
    requires Page(s, page, limit).Some?
    ensures var p := Page(s, page, limit).value;
      var skip := (page - 1) * limit;
      && 0 <= skip
      && (|p| > 0 ==> skip + |p| <= |s|)
      && forall i :: 0 <= i < |p| ==> p[i] == s[skip + i]
  {
  }

  lemma MulStrictMono(x: int, y: int, l: int)
    requires l > 0 && x < y
    ensures x * l < y * l
  {
    assert y * l - x * l == (y - x) * l;
  }

  /** With a positive limit and a page from 1 on, the page holds the
      documents from position `(page - 1) * limit` on, at most `limit` of them. */
  lemma {:induction false} PageContents<T>(s: seq<T>, page: int, limit: int)
    requires limit > 0 && page >= 1
    ensures Page(s, page, limit).Some?
    ensures var p := Page(s, page, limit).value;
      && |p| <= limit
      && forall i :: 0 <= i < |p| ==> (page - 1) * limit + i < |s| && p[i] == s[(page - 1) * limit + i]
  {
    MulStrictMono(-1, page - 1, limit);
  }

  /** A page is non-empty exactly when its number is at most the page count. */
  lemma {:induction false} PageNonEmptyIff<T>(s: seq<T>, page: int, limit: int)
    requires limit > 0 && page >= 1
    ensures Page(s, page, limit).Some?
    ensures |Page(s, page, limit).value| > 0 <==> page <= CeilDiv(|s|, limit)
  {
    PageContents(s, page, limit);
    var c := CeilDiv(|s|, limit);
    var skip := (page - 1) * limit;
    if page <= c {
      if page < c {
        MulStrictMono(page - 1, c - 1, limit);
      }
      assert skip <= (c - 1) * limit < |s|;
    } else {
      if c < page - 1 {
        MulStrictMono(c, page - 1, limit);
      }
      assert |s| <= c * limit <= skip;
    }
  }

  /** Every document lands on page `j / limit + 1`, at position `j % limit`,
      and that page is within the page count. */
  lemma {:induction false} EveryDocumentOnSomePage<T>(s: seq<T>, j: nat, limit: int) returns (page: nat, pos: nat)
    requires limit > 0 && j < |s|
    ensures page == j / limit + 1 && pos == j % limit
    ensures 1 <= page <= CeilDiv(|s|, limit)
    ensures Page(s, page, limit).Some?
    ensures pos < |Page(s, page, limit).value| && Page(s, page, limit).value[pos] == s[j]
  {
    page, pos := j / limit + 1, j % limit;
    assert j == (j / limit) * limit + j % limit;
    PageContents(s, page, limit);
    assert (page - 1) * limit + j % limit == j;
    PageNonEmptyIff(s, page, limit);
  }
}
