/** The Python `str` operations the pipeline relies on, over `seq<char>`:
    splitting at a separator, stripping and removing substrings, zero-filling,
    upper-casing, and the `str(int)` / `int(str)` conversions. */
module Strings {
  import opened Wrappers

  predicate StartsWith(s: string, p: string) {
    |p| <= |s| && s[..|p|] == p
  }

  /** A character in neither part is not in their concatenation. */
  lemma NotInConcat(c: char, a: string, b: string)
    requires c !in a && c !in b
    ensures c !in a + b
  {
  }

  predicate EndsWith(s: string, p: string) {
    |p| <= |s| && s[|s| - |p|..] == p
  }

  /** `s.find(c)` for a single character, as an Option. */
  function FindChar(s: string, c: char): (r: Option<nat>)
    ensures r.Some? ==> r.value < |s| && s[r.value] == c && c !in s[..r.value]
    ensures r.None? <==> c !in s
  {
    if |s| == 0 then None
    else if s[0] == c then Some(0)
    else match FindChar(s[1..], c)
      case None => None
      case Some(i) => Some(i + 1)
  }

  /** `s.split(c)` with an explicit one-character separator: never empty, and
      "a//b" gives ["a", "", "b"]. */
  function Split(s: string, c: char): (parts: seq<string>)
    ensures |parts| >= 1
    ensures forall i :: 0 <= i < |parts| ==> c !in parts[i]
    decreases |s|
  {
    match FindChar(s, c)
    case None => [s]
    case Some(i) => [s[..i]] + Split(s[i + 1..], c)
  }

  /** `c.join(parts)`. */
  function Join(parts: seq<string>, c: char): string {
    if |parts| == 0 then ""
    else if |parts| == 1 then parts[0]
    else parts[0] + [c] + Join(parts[1..], c)
  }

  /** Splitting and joining again gives the original string back. */
  lemma {:induction false} JoinSplit(s: string, c: char)
    ensures Join(Split(s, c), c) == s
    decreases |s|
  {
    match FindChar(s, c)
    case None =>
    case Some(i) =>
      var rest := Split(s[i + 1..], c);
      assert Split(s, c) == [s[..i]] + rest;
      JoinSplit(s[i + 1..], c);
      JoinCons(s[..i], rest, c);
      assert s == s[..i] + [c] + s[i + 1..];
  }

  lemma JoinCons(p: string, rest: seq<string>, c: char)
    requires |rest| >= 1
    ensures Join([p] + rest, c) == p + [c] + Join(rest, c)
  {
    assert ([p] + rest)[1..] == rest;
  }

  /** Joining parts that do not contain the separator and splitting again
      gives the parts back. */
  lemma {:induction false} SplitJoin(parts: seq<string>, c: char)
    requires |parts| >= 1
    requires forall i :: 0 <= i < |parts| ==> c !in parts[i]
    ensures Split(Join(parts, c), c) == parts
  {
    if |parts| == 1 {
      assert FindChar(parts[0], c).None?;
    } else {
      var rest := Join(parts[1..], c);
      var s := parts[0] + [c] + rest;
      FindCharAfterFree(parts[0], c, rest);
      assert s[..|parts[0]|] == parts[0];
      assert s[|parts[0]| + 1..] == rest;
      SplitJoin(parts[1..], c);
    }
  }

  /** The first `c` in `a + [c] + b` is the one just after `a` when `a` has none. */
  lemma {:induction false} FindCharAfterFree(a: string, c: char, b: string)
    requires c !in a
    ensures FindChar(a + [c] + b, c) == Some(|a|)
  {
    if |a| > 0 {
      assert (a + [c] + b)[1..] == a[1..] + [c] + b;
      FindCharAfterFree(a[1..], c, b);
    }
  }

  /** Joining with one more part appends the separator and the part. */
  lemma {:induction false} JoinSnoc(parts: seq<string>, b: string, c: char)
    requires |parts| >= 1
    ensures Join(parts + [b], c) == Join(parts, c) + [c] + b
  {
    if |parts| > 1 {
      assert (parts + [b])[1..] == parts[1..] + [b];
      JoinSnoc(parts[1..], b, c);
    }
  }

  /** `s.rsplit(c, 1)[-1]`: the text after the last `c`, or all of `s`. */
  function AfterLast(s: string, c: char): (r: string)
    ensures c !in r
  {
    var parts := Split(s, c);
    parts[|parts| - 1]
  }

  /** The text after the last `c` of `a + [c] + b` is `b` when `b` has none. */
  lemma AfterLastFree(a: string, c: char, b: string)
    requires c !in b
    ensures AfterLast(a + [c] + b, c) == b
  {
    var parts := Split(a, c);
    JoinSplit(a, c);
    JoinSnoc(parts, b, c);
    SplitJoin(parts + [b], c);
  }

  /** `s.partition(c)` / `s.split(c, 1)`: the text before the first `c`, whether
      there was one, and the text after it. */
  function Partition(s: string, c: char): (r: (string, bool, string))
    ensures c !in r.0
    ensures r.1 ==> s == r.0 + [c] + r.2
    ensures !r.1 ==> s == r.0 && r.2 == ""
  {
    match FindChar(s, c)
    case None => (s, false, "")
    case Some(i) =>
      assert s == s[..i] + [c] + s[i + 1..];
      (s[..i], true, s[i + 1..])
  }

  /** `s.rstrip(c)` for one character `c`. */
  function RStrip(s: string, c: char): (r: string)
    ensures |r| <= |s| && r == s[..|r|]
    ensures |r| == 0 || r[|r| - 1] != c
    ensures forall i :: |r| <= i < |s| ==> s[i] == c
  {
    if |s| > 0 && s[|s| - 1] == c then RStrip(s[..|s| - 1], c) else s
  }

  /** `s.replace(pat, "")`: every non-overlapping occurrence, scanned left to right. */
  function RemoveAll(s: string, pat: string): (r: string)
    requires |pat| > 0
    ensures |r| <= |s|
    ensures |pat| == 1 ==> pat[0] !in r
    decreases |s|
  {
    if |s| == 0 then ""
    else if StartsWith(s, pat) then RemoveAll(s[|pat|..], pat)
    else [s[0]] + RemoveAll(s[1..], pat)
  }

  /** `s.replace(pat, "", 1)`: only the first occurrence. */
  function RemoveFirst(s: string, pat: string): (r: string)
    requires |pat| > 0
    ensures |r| == |s| || |r| == |s| - |pat|
    decreases |s|
  {
    if |s| == 0 then ""
    else if StartsWith(s, pat) then s[|pat|..]
    else [s[0]] + RemoveFirst(s[1..], pat)
  }

  predicate IsDigit(c: char) {
    '0' <= c <= '9'
  }

  predicate AllDigits(s: string) {
    forall i :: 0 <= i < |s| ==> IsDigit(s[i])
  }

  function DigitChar(d: nat): (c: char)
    requires d < 10
    ensures IsDigit(c)
  {
    (d + '0' as int) as char
  }

  function DigitValue(c: char): (d: nat)
    requires IsDigit(c)
    ensures d < 10 && DigitChar(d) == c
  {
    (c as int - '0' as int)
  }

  /** `str(n)` for a natural number: decimal digits, most significant first. */
  function NatToString(n: nat): (r: string)
    ensures |r| >= 1 && AllDigits(r)
  {
    if n < 10 then [DigitChar(n)] else NatToString(n / 10) + [DigitChar(n % 10)]
  }

  /** `str(i)` for any Python int. */
  function IntToString(i: int): (r: string)
    ensures |r| >= 1
    ensures forall k :: 0 <= k < |r| ==> IsDigit(r[k]) || r[k] == '-'
  {
    if i < 0 then "-" + NatToString(-i) else NatToString(i)
  }

  /** The value of a run of decimal digits (leading zeros allowed). */
  function DigitsValue(s: string): nat
    requires AllDigits(s)
  {
    if |s| == 0 then 0 else DigitsValue(s[..|s| - 1]) * 10 + DigitValue(s[|s| - 1])
  }

  /** `int(s)` on an optionally signed run of ASCII digits; anything else is a
      ValueError, given here as None. */
  function ParseInt(s: string): (r: Option<int>)
    ensures r.Some? ==> |s| >= 1
  {
    if |s| >= 2 && (s[0] == '-' || s[0] == '+') && AllDigits(s[1..]) then
      var v: int := DigitsValue(s[1..]);
      Some(if s[0] == '-' then -v else v)
    else if |s| >= 1 && AllDigits(s) then Some(DigitsValue(s))
    else None
  }

  lemma {:induction false} DigitsOfNat(n: nat)
    ensures DigitsValue(NatToString(n)) == n
  {
    if n >= 10 {
      var a := NatToString(n / 10);
      var s := a + [DigitChar(n % 10)];
      assert s[..|s| - 1] == a;
      DigitsOfNat(n / 10);
    }
  }

  /** `int(str(i)) == i`. */
  lemma ParseIntToString(i: int)
    ensures ParseInt(IntToString(i)) == Some(i)
  {
    if i < 0 {
      var s := "-" + NatToString(-i);
      assert s[1..] == NatToString(-i);
      DigitsOfNat(-i);
    } else {
      DigitsOfNat(i);
    }
  }

  /** `int(parts[0]), ..., int(parts[n-1])`, evaluated left to right: the
      first field that is missing is an IndexError, the first that does not
      parse a ValueError. */
  function ParseFields(parts: seq<string>, n: nat): (r: Result<seq<int>>)
    ensures r.Ok? ==> |r.value| == n <= |parts|
    ensures r.Ok? ==> forall k :: 0 <= k < n ==> ParseInt(parts[k]) == Some(r.value[k])
    ensures r.Err? ==> r.error == IndexError || r.error == ValueError
  {
    if n == 0 then Ok([])
    else
      match ParseFields(parts, n - 1)
      case Err(e) => Err(e)
      case Ok(vs) =>
        if n - 1 >= |parts| then Err(IndexError)
        else
          match ParseInt(parts[n - 1])
          case None => Err(ValueError)
          case Some(v) => Ok(vs + [v])
  }

  /** Where the fields fail: an IndexError means fewer than `n` parts and
      every part before the end parses; a ValueError means some field that
      exists does not parse. */
  lemma {:induction false} ParseFieldsErr(parts: seq<string>, n: nat)
    requires ParseFields(parts, n).Err?
    ensures ParseFields(parts, n).error == IndexError ==>
      |parts| < n && forall k :: 0 <= k < |parts| ==> ParseInt(parts[k]).Some?
    ensures ParseFields(parts, n).error == ValueError ==>
      exists k :: 0 <= k < n && k < |parts| && ParseInt(parts[k]).None?
  {
    if ParseFields(parts, n - 1).Err? {
      ParseFieldsErr(parts, n - 1);
    }
  }

  /** Fields written with `str` parse back. */
  lemma ParseFieldsOfStrings(parts: seq<string>, vs: seq<int>)
    requires |parts| >= |vs| && forall k :: 0 <= k < |vs| ==> parts[k] == IntToString(vs[k])
    ensures ParseFields(parts, |vs|) == Ok(vs)
  {
    forall k | 0 <= k < |vs|
      ensures ParseInt(parts[k]) == Some(vs[k])
    {
      ParseIntToString(vs[k]);
    }
    ParseFieldsOfValues(parts, vs);
  }

  /** Fields that each parse to their value parse together to the values. */
  lemma {:induction false} ParseFieldsOfValues(parts: seq<string>, vs: seq<int>)
    requires |parts| >= |vs| && forall k :: 0 <= k < |vs| ==> ParseInt(parts[k]) == Some(vs[k])
    ensures ParseFields(parts, |vs|) == Ok(vs)
  {
    if |vs| > 0 {
      var n := |vs| - 1;
      var init := vs[..n];
      assert forall k :: 0 <= k < |init| ==> init[k] == vs[k];
      ParseFieldsOfValues(parts, init);
      ParseFieldsSnoc(parts, init, vs[n]);
      assert init + [vs[n]] == vs;
    }
  }

  lemma ParseFieldsSnoc(parts: seq<string>, vs: seq<int>, v: int)
    requires |vs| < |parts| && ParseFields(parts, |vs|) == Ok(vs)
    requires ParseInt(parts[|vs|]) == Some(v)
    ensures ParseFields(parts, |vs| + 1) == Ok(vs + [v])
  {
  }

  /** `str(i)` contains no separator used by the pipeline's names. */
  lemma IntToStringFree(i: int, c: char)
    requires c == '_' || c == '/' || c == '.'
    ensures c !in IntToString(i)
  {
  }

  function Repeat(c: char, n: nat): (r: string)
    ensures |r| == n && forall i :: 0 <= i < n ==> r[i] == c
  {
    if n == 0 then "" else [c] + Repeat(c, n - 1)
  }

  /** `s.zfill(width)`: pad with '0' on the left to `width`, after a leading sign. */
  function ZFill(s: string, width: int): (r: string)
    ensures |r| == if width > |s| then width else |s|
    ensures |s| >= width ==> r == s
    ensures |s| < width && (|s| == 0 || (s[0] != '+' && s[0] != '-')) ==> r == Repeat('0', width - |s|) + s
    ensures |s| < width && |s| > 0 && (s[0] == '+' || s[0] == '-') ==> r == [s[0]] + Repeat('0', width - |s|) + s[1..]
  {
    if |s| >= width then s
    else if |s| > 0 && (s[0] == '+' || s[0] == '-') then [s[0]] + Repeat('0', width - |s|) + s[1..]
    else Repeat('0', width - |s|) + s
  }

  /** ASCII `c.upper()`. */
  function UpperChar(c: char): (u: char)
    ensures !('a' <= u <= 'z')
    ensures 'a' <= c <= 'z' ==> 'A' <= u <= 'Z' && u as int == c as int - 32
  {
    if 'a' <= c <= 'z' then (c as int - 32) as char else c
  }

  /** ASCII `s.upper()`: every lower-case letter becomes its capital, 32
      code points lower, and every other character is kept. */
  function Upper(s: string): (r: string)
    ensures |r| == |s|
    ensures forall i :: 0 <= i < |s| ==> !('a' <= r[i] <= 'z') && (!('a' <= s[i] <= 'z') ==> r[i] == s[i])
    ensures forall i :: 0 <= i < |s| && 'a' <= s[i] <= 'z' ==> 'A' <= r[i] <= 'Z' && r[i] as int == s[i] as int - 32
  {
    seq(|s|, i requires 0 <= i < |s| => UpperChar(s[i]))
  }
}
