/** The JavaScript string and number conversions the handlers rely on:
    `trim`, `toLowerCase`, `split(" ")`, `String(n)` for a whole number,
    `parseInt`, `Number(s)` and the UTF-16 `length` of a string. */
module JsStrings {
  import opened Common

  /** ECMAScript WhiteSpace and LineTerminator code points: what `trim`
      removes and what `parseInt` skips. */
  predicate IsJsSpace(c: char)
  {
    var n := c as int;
    || n == 0x09 || n == 0x0A || n == 0x0B || n == 0x0C || n == 0x0D
    || n == 0x20 || n == 0xA0 || n == 0x1680 || 0x2000 <= n <= 0x200A
    || n == 0x2028 || n == 0x2029 || n == 0x202F || n == 0x205F
    || n == 0x3000 || n == 0xFEFF
  }

  /** Every character of `s` is white space. */
  predicate IsBlank(s: string)
  {
    forall i :: 0 <= i < |s| ==> IsJsSpace(s[i])
  }

  /** `s.trimStart()`. */
  function TrimStart(s: string): (r: string)
    ensures |r| <= |s| && r == s[|s| - |r|..]
    ensures r == [] || !IsJsSpace(r[0])
    ensures IsBlank(s[..|s| - |r|])
  {
    if |s| == 0 || !IsJsSpace(s[0]) then s
    else
      var r := TrimStart(s[1..]);
      assert s[1..][..|s| - 1 - |r|] == s[1..|s| - |r|];
      r
  }

  /** `s.trimEnd()`. */
  function TrimEnd(s: string): (r: string)
    ensures |r| <= |s| && r == s[..|r|]
    ensures r == [] || !IsJsSpace(r[|r| - 1])
    ensures IsBlank(s[|r|..])
  {
    if |s| == 0 || !IsJsSpace(s[|s| - 1]) then s
    else
      var r := TrimEnd(s[..|s| - 1]);
      assert s[..|s| - 1][|r|..] == s[|r|..|s| - 1];
      r
  }

  /** `s.trim()`. */
  function Trim(s: string): string
  {
    TrimEnd(TrimStart(s))
  }

  /** `s.trim() === ""` holds exactly when `s` is made of white space only. */
  lemma TrimEmptyIffBlank(s: string)
    ensures Trim(s) == "" <==> IsBlank(s)
  {
    var t := TrimStart(s);
    var p := s[..|s| - |t|];
    if Trim(s) == "" {
      assert IsBlank(t) by {
        assert t[|TrimEnd(t)|..] == t;
      }
      assert s == p + t;
      BlankConcat(p, t);
    }
    if IsBlank(s) {
      assert t == [];
    }
  }

  lemma BlankConcat(a: string, b: string)
    requires IsBlank(a) && IsBlank(b)
    ensures IsBlank(a + b)
  {
    forall i | 0 <= i < |a + b| ensures IsJsSpace((a + b)[i]) {
      if i >= |a| {
        assert (a + b)[i] == b[i - |a|];
      }
    }
  }

  /** Trimming a trimmed string changes nothing. */
  lemma TrimIdempotent(s: string)
    ensures Trim(Trim(s)) == Trim(s)
  {
    var t := TrimStart(s);
    var a := TrimEnd(t);
    assert a == [] || a[0] == t[0];
    assert TrimStart(a) == a;
    assert TrimEnd(a) == a;
  }

  /** `toLowerCase` on one character; only A-Z are mapped (see README). */
  function LowerChar(c: char): char
  {
    if 'A' <= c <= 'Z' then (c as int + 32) as char else c
  }

  /** `s.toLowerCase()`, character by character. */
  function Lower(s: string): (r: string)
    ensures |r| == |s|
    ensures forall i :: 0 <= i < |s| ==> r[i] == LowerChar(s[i])
  {
    if |s| == 0 then [] else [LowerChar(s[0])] + Lower(s[1..])
  }

  /** Lower-casing twice is lower-casing once. */
  lemma LowerIdempotent(s: string)
    ensures Lower(Lower(s)) == Lower(s)
  {
  }

  lemma LowerKeepsSpace(c: char)
    ensures IsJsSpace(LowerChar(c)) <==> IsJsSpace(c)
  {
  }

  lemma {:induction false} TrimStartLower(s: string)
    ensures TrimStart(Lower(s)) == Lower(TrimStart(s))
  {
    if |s| > 0 {
      LowerKeepsSpace(s[0]);
      assert Lower(s)[1..] == Lower(s[1..]);
      TrimStartLower(s[1..]);
    }
  }

  lemma {:induction false} TrimEndLower(s: string)
    ensures TrimEnd(Lower(s)) == Lower(TrimEnd(s))
  {
    if |s| > 0 {
      LowerKeepsSpace(s[|s| - 1]);
      assert Lower(s)[..|s| - 1] == Lower(s[..|s| - 1]);
      TrimEndLower(s[..|s| - 1]);
    }
  }

  /** The `trim` and `lowercase` setters give the same value in either order. */
  lemma TrimLowerCommute(s: string)
    ensures Trim(Lower(s)) == Lower(Trim(s))
  {
    TrimStartLower(s);
    TrimEndLower(TrimStart(s));
  }

  /** `s.split(sep)` for a one-character separator: the pieces between separators. */
  function SplitOn(s: string, sep: char): (r: seq<string>)
    ensures |r| >= 1
    ensures forall k :: 0 <= k < |r| ==> sep !in r[k]
  {
    if |s| == 0 then [""]
    else
      var rest := SplitOn(s[1..], sep);
      if s[0] == sep then [""] + rest
      else [[s[0]] + rest[0]] + rest[1..]
  }

  /** `parts.join(sep)`. */
  function Join(parts: seq<string>, sep: char): string
    requires |parts| >= 1
  {
    if |parts| == 1 then parts[0] else parts[0] + [sep] + Join(parts[1..], sep)
  }

  /** Splitting loses nothing: joining the pieces back gives the string. */
  lemma {:induction false} SplitJoin(s: string, sep: char)
    ensures Join(SplitOn(s, sep), sep) == s
  {
    if |s| > 0 {
      SplitJoin(s[1..], sep);
      var rest := SplitOn(s[1..], sep);
      if s[0] == sep {
        assert ([""] + rest)[1..] == rest;
      } else {
        var parts := [[s[0]] + rest[0]] + rest[1..];
        if |rest| > 1 {
          assert parts[1..] == rest[1..];
          assert Join(rest, sep) == rest[0] + [sep] + Join(rest[1..], sep);
        }
        assert s == [s[0]] + s[1..];
      }
    }
  }

  /** A string without the separator is one piece. */
  lemma {:induction false} SplitNoSep(s: string, sep: char)
    requires sep !in s
    ensures SplitOn(s, sep) == [s]
  {
    if |s| > 0 {
      SplitNoSep(s[1..], sep);
      assert s == [s[0]] + s[1..];
    }
  }

  /** The piece before the first separator comes first. */
  lemma {:induction false} SplitFirst(w: string, sep: char, rest: string)
    requires sep !in w
    ensures SplitOn(w + [sep] + rest, sep) == [w] + SplitOn(rest, sep)
  {
    var s := w + [sep] + rest;
    if |w| == 0 {
      assert s[1..] == rest;
    } else {
      assert s[1..] == w[1..] + [sep] + rest;
      SplitFirst(w[1..], sep, rest);
      assert w == [w[0]] + w[1..];
    }
  }

  /** `h.split(" ")[1]`: the second space-separated piece, if there is one. */
  function SecondWord(h: string): (r: Option<string>)
    ensures r.Some? ==> ' ' !in r.value
    ensures r.None? <==> ' ' !in h
  {
    var parts := SplitOn(h, ' ');
    if ' ' !in h then
      SplitNoSep(h, ' ');
      None
    else
      SplitTwoPieces(h);
      Some(parts[1])
  }

  lemma {:induction false} SplitTwoPieces(h: string)
    requires ' ' in h
    ensures |SplitOn(h, ' ')| >= 2
  {
    SplitJoin(h, ' ');
    SepInJoin(SplitOn(h, ' '), ' ');
  }

  /** A separator in the joined string comes from a piece or from joining two. */
  lemma SepInJoin(parts: seq<string>, sep: char)
    requires |parts| >= 1
    ensures sep in Join(parts, sep) ==> |parts| >= 2 || sep in parts[0]
  {
  }

  /** The second word is the text between the first space and the next one
      (or the end): any header that reads `a + " " + w + b`, with no space in
      `a` or `w` and `b` empty or starting with a space, has second word `w`. */
  lemma SecondWordBetweenSpaces(a: string, w: string, b: string)
    requires ' ' !in a && ' ' !in w && (b == [] || b[0] == ' ')
    ensures SecondWord(a + " " + w + b) == Some(w)
  {
    var h := a + " " + w + b;
    assert h == a + [' '] + (w + b);
    assert h[|a|] == ' ';
    SplitFirst(a, ' ', w + b);
    if b == [] {
      assert w + b == w;
      SplitNoSep(w, ' ');
    } else {
      assert w + b == w + [' '] + b[1..];
      SplitFirst(w, ' ', b[1..]);
    }
  }

  /** And every header with a space has that shape around its second word. */
  lemma SecondWordShape(h: string) returns (a: string, b: string)
    requires ' ' in h
    ensures SecondWord(h).Some?
    ensures h == a + " " + SecondWord(h).value + b
    ensures ' ' !in a && (b == [] || b[0] == ' ')
  {
    var parts := SplitOn(h, ' ');
    SplitTwoPieces(h);
    SplitJoin(h, ' ');
    a := parts[0];
    var tail := parts[1..];
    assert Join(parts, ' ') == a + [' '] + Join(tail, ' ');
    if |tail| == 1 {
      b := [];
    } else {
      b := [' '] + Join(tail[1..], ' ');
      assert Join(tail, ' ') == tail[0] + [' '] + Join(tail[1..], ' ');
    }
  }

  /** A `Bearer <token>` header gives back exactly the token. */
  lemma BearerSecondWord(scheme: string, token: string)
    requires ' ' !in scheme && ' ' !in token
    ensures SecondWord(scheme + " " + token) == Some(token)
  {
    assert scheme + " " + token == scheme + [' '] + token;
    SplitFirst(scheme, ' ', token);
    SplitNoSep(token, ' ');
    assert ' ' in scheme + " " + token by {
      assert (scheme + " " + token)[|scheme|] == ' ';
    }
  }

  // ---------------------------------------------------------------------------
  // Whole numbers written in decimal, and the two JavaScript number parsers.

  predicate IsDecimalDigit(c: char)
  {
    '0' <= c <= '9'
  }

  function Digit(d: nat): (c: char)
    requires d < 10
    ensures IsDecimalDigit(c)
  {
    ('0' as int + d) as char
  }

  /** `String(n)` for a whole number `n`. */
  function DecimalString(n: nat): (r: string)
    ensures |r| >= 1
    ensures forall i :: 0 <= i < |r| ==> IsDecimalDigit(r[i])
    ensures r[0] == '0' ==> n == 0 && |r| == 1
  {
    if n < 10 then [Digit(n)] else DecimalString(n / 10) + [Digit(n % 10)]
  }

  /** The value of a character as a digit in base `radix` (2..36), if it is one. */
  function DigitValue(c: char, radix: nat): (r: Option<nat>)
    ensures r.Some? ==> r.value < radix
  {
    var v: int :=
      if '0' <= c <= '9' then c as int - '0' as int
      else if 'a' <= c <= 'z' then c as int - 'a' as int + 10
      else if 'A' <= c <= 'Z' then c as int - 'A' as int + 10
      else radix;
    if 0 <= v < radix then Some(v) else None
  }

  /** The longest prefix of `s` made of digits of base `radix`. */
  function DigitPrefix(s: string, radix: nat): (r: string)
    ensures |r| <= |s| && r == s[..|r|]
    ensures forall i :: 0 <= i < |r| ==> DigitValue(r[i], radix).Some?
  {
    if |s| == 0 || DigitValue(s[0], radix).None? then []
    else [s[0]] + DigitPrefix(s[1..], radix)
  }

  /** The value of a digit; callers only pass digits, so 0 is never used. */
  function DigitOrZero(c: char, radix: nat): nat
  {
    match DigitValue(c, radix)
    case Some(v) => v
    case None => 0
  }

  /** The number that a string of base-`radix` digits denotes. */
  function Value(d: string, radix: nat): nat
  {
    if |d| == 0 then 0
    else Value(d[..|d| - 1], radix) * radix + DigitOrZero(d[|d| - 1], radix)
  }

  /** The sign and the rest of a numeric string: a leading `-` or `+` is consumed. */
  function SignOf(t: string): (r: (int, string))
    ensures r.0 == 1 || r.0 == -1
  {
    if |t| > 0 && t[0] == '-' then (-1, t[1..])
    else if |t| > 0 && t[0] == '+' then (1, t[1..])
    else (1, t)
  }

  predicate HasHexPrefix(u: string)
  {
    |u| >= 2 && u[0] == '0' && (u[1] == 'x' || u[1] == 'X')
  }

  /** `parseInt(s)` with no radix: skip leading white space, take a sign, read
      hexadecimal after `0x`/`0X` and decimal otherwise, stop at the first
      character that is not a digit; `None` stands for NaN (no digit at all). */
  function ParseInt(s: string): Option<int>
  {
    var (sign, u) := SignOf(TrimStart(s));
    var radix := if HasHexPrefix(u) then 16 else 10;
    var body := if HasHexPrefix(u) then u[2..] else u;
    var d := DigitPrefix(body, radix);
    if d == [] then None else Some(sign * Value(d, radix))
  }

  lemma {:induction false} DecimalDigitsArePrefix(s: string)
    requires forall i :: 0 <= i < |s| ==> IsDecimalDigit(s[i])
    ensures DigitPrefix(s, 10) == s
  {
    if |s| > 0 {
      DecimalDigitsArePrefix(s[1..]);
      assert s == [s[0]] + s[1..];
    }
  }

  lemma {:induction false} DecimalStringValue(n: nat)
    ensures Value(DecimalString(n), 10) == n
  {
    var r := DecimalString(n);
    if n >= 10 {
      DecimalStringValue(n / 10);
      assert r[..|r| - 1] == DecimalString(n / 10);
      assert DigitOrZero(r[|r| - 1], 10) == n % 10;
    } else {
      assert r[..0] == [];
    }
  }

  /** `parseInt(String(n)) === n`: the error message of an ApiError built
      from a status code gives the code back. */
  lemma ParseIntDecimalString(n: nat)
    ensures ParseInt(DecimalString(n)) == Some(n)
  {
    ParseIntOfDigits(DecimalString(n));
    DecimalStringValue(n);
  }

  /** `parseInt` of a non-empty string of decimal digits is their value. */
  lemma ParseIntOfDigits(r: string)
    requires |r| >= 1 && forall i :: 0 <= i < |r| ==> IsDecimalDigit(r[i])
    ensures ParseInt(r) == Some(Value(r, 10))
  {
    DigitsAreBare(r);
    DecimalDigitsArePrefix(r);
  }

  /** A string of decimal digits has no leading space, no sign and no `0x`. */
  lemma DigitsAreBare(r: string)
    requires |r| >= 1 && forall i :: 0 <= i < |r| ==> IsDecimalDigit(r[i])
    ensures TrimStart(r) == r && SignOf(r) == (1, r) && !HasHexPrefix(r)
  {
    DigitIsNoSpace(r[0]);
    if |r| >= 2 {
      assert IsDecimalDigit(r[1]);
    }
  }

  lemma DigitIsNoSpace(c: char)
    requires IsDecimalDigit(c)
    ensures !IsJsSpace(c) && c != '-' && c != '+'
  {
  }

  /** `Number(s)` for the forms the model covers: white space around an
      optionally signed decimal integer, or around a `0x` hexadecimal integer;
      an empty or blank string is 0; anything else is `None` (NaN). */
  function ToNumber(s: string): Option<int>
  {
    var t := Trim(s);
    if t == "" then Some(0)
    else if HasHexPrefix(t) then
      (if |t| > 2 && DigitPrefix(t[2..], 16) == t[2..] then Some(Value(t[2..], 16)) else None)
    else
      var (sign, u) := SignOf(t);
      if |u| > 0 && DigitPrefix(u, 10) == u then Some(sign * Value(u, 10)) else None
  }

  /** `Number(String(n)) === n`. */
  lemma ToNumberDecimalString(n: nat)
    ensures ToNumber(DecimalString(n)) == Some(n)
  {
    var r := DecimalString(n);
    assert TrimStart(r) == r by {
      assert !IsJsSpace(r[0]);
    }
    assert TrimEnd(r) == r by {
      assert !IsJsSpace(r[|r| - 1]);
    }
    assert !HasHexPrefix(r);
    assert SignOf(r) == (1, r);
    DecimalDigitsArePrefix(r);
    DecimalStringValue(n);
  }

  /** JavaScript's `length`: code points above U+FFFF take two UTF-16 units. */
  function Utf16Length(s: string): (n: nat)
    ensures |s| <= n <= 2 * |s|
  {
    if |s| == 0 then 0
    else (if s[0] as int > 0xFFFF then 2 else 1) + Utf16Length(s[1..])
  }
}
