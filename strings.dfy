/**
 * The handful of Python `str` operations the graph builder relies on,
 * written out over `seq<char>`.
 */
module Strings {
  import opened Wrappers

  /** `s.startswith(p)` */
  predicate StartsWith(s: string, p: string) {
    |p| <= |s| && s[..|p|] == p
  }

  /** `s.endswith(p)` */
  predicate EndsWith(s: string, p: string) {
    |p| <= |s| && s[|s| - |p|..] == p
  }

  /** `s.find(sub) != -1`: `sub` occurs somewhere in `s`. */
  predicate Contains(s: string, sub: string)
    decreases |s|
  {
    StartsWith(s, sub) || (|s| > 0 && Contains(s[1..], sub))
  }

  /** `s.rstrip(cs)`: drop every trailing character that belongs to `cs`. */
  function RStrip(s: string, cs: set<char>): (r: string)
    ensures |r| <= |s| && r == s[..|r|]
    ensures r == [] || r[|r| - 1] !in cs
    decreases |s|
  {
    if |s| > 0 && s[|s| - 1] in cs then RStrip(s[..|s| - 1], cs) else s
  }

  /** A character outside `cs` survives the strip: only characters of `cs` are dropped. */
  lemma {:induction false} RStripKeeps(s: string, cs: set<char>, k: nat)
    requires k < |s| && s[k] !in cs
    ensures k < |RStrip(s, cs)|
    decreases |s|
  {
    if s[|s| - 1] in cs {
      RStripKeeps(s[..|s| - 1], cs, k);
    }
  }

  /** Stripping twice strips nothing more. */
  lemma {:induction false} RStripIdempotent(s: string, cs: set<char>)
    ensures RStrip(RStrip(s, cs), cs) == RStrip(s, cs)
  {
  }

  /** Trailing characters of `cs` appended to `s` are stripped again. */
  lemma {:induction false} RStripAppend(s: string, t: string, cs: set<char>)
    requires forall i :: 0 <= i < |t| ==> t[i] in cs
    ensures RStrip(s + t, cs) == RStrip(s, cs)
    decreases |t|
  {
    if |t| > 0 {
      assert (s + t)[..|s + t| - 1] == s + t[..|t| - 1];
      RStripAppend(s, t[..|t| - 1], cs);
    } else {
      assert s + t == s;
    }
  }

  /** `' '.join(xs)` */
  function JoinSpace(xs: seq<string>): string
    decreases |xs|
  {
    if |xs| == 0 then ""
    else if |xs| == 1 then xs[0]
    else xs[0] + " " + JoinSpace(xs[1..])
  }

  /** `s.split(' ')`: the pieces between single spaces (never empty). */
  function SplitSpace(s: string): (r: seq<string>)
    ensures |r| >= 1
    decreases |s|
  {
    if s == [] then [""]
    else
      var rest := SplitSpace(s[1..]);
      if s[0] == ' ' then [""] + rest else [[s[0]] + rest[0]] + rest[1..]
  }

  /** A piece without a space followed by a space splits off as one piece. */
  lemma {:induction false} SplitSpaceFirst(a: string, b: string)
    requires ' ' !in a
    ensures SplitSpace(a + " " + b) == [a] + SplitSpace(b)
    decreases |a|
  {
    if a == [] {
      assert (a + " " + b)[1..] == b;
    } else {
      assert (a + " " + b)[1..] == a[1..] + " " + b;
      SplitSpaceFirst(a[1..], b);
      assert [a[0]] + a[1..] == a;
    }
  }

  /** A piece without a space splits into itself. */
  lemma {:induction false} SplitSpaceWord(a: string)
    requires ' ' !in a
    ensures SplitSpace(a) == [a]
    decreases |a|
  {
    if a != [] {
      SplitSpaceWord(a[1..]);
      assert [a[0]] + a[1..] == a;
    }
  }

  /** Splitting a space-joined list of space-free words gives the words back. */
  lemma {:induction false} SplitJoin(xs: seq<string>)
    requires |xs| >= 1
    requires forall i :: 0 <= i < |xs| ==> ' ' !in xs[i]
    ensures SplitSpace(JoinSpace(xs)) == xs
    decreases |xs|
  {
    if |xs| == 1 {
      SplitSpaceWord(xs[0]);
    } else {
      SplitSpaceFirst(xs[0], JoinSpace(xs[1..]));
      SplitJoin(xs[1..]);
    }
  }

  /** `s.rfind(c)`: the last index holding `c`, or -1. */
  function RFind(s: string, c: char): (r: int)
    ensures -1 <= r < |s|
    ensures r >= 0 ==> s[r] == c
    ensures forall j :: r < j < |s| ==> s[j] != c
    decreases |s|
  {
    if |s| == 0 then -1
    else if s[|s| - 1] == c then |s| - 1
    else RFind(s[..|s| - 1], c)
  }

  predicate IsHexDigit(c: char) {
    '0' <= c <= '9' || 'a' <= c <= 'f' || 'A' <= c <= 'F'
  }

  function HexDigitValue(c: char): (r: nat)
    requires IsHexDigit(c)
    ensures r < 16
  {
    if '0' <= c <= '9' then c as int - '0' as int
    else if 'a' <= c <= 'f' then c as int - 'a' as int + 10
    else c as int - 'A' as int + 10
  }

  /** Every character of `s` is a hexadecimal digit. */
  predicate AllHexDigits(s: string)
    decreases |s|
  {
    s == [] || (AllHexDigits(s[..|s| - 1]) && IsHexDigit(s[|s| - 1]))
  }

  lemma {:induction false} AllHexDigitsAt(s: string)
    ensures AllHexDigits(s) <==> forall i :: 0 <= i < |s| ==> IsHexDigit(s[i])
    decreases |s|
  {
    if s != [] {
      AllHexDigitsAt(s[..|s| - 1]);
    }
  }

  function HexValue(s: string): nat
    requires AllHexDigits(s)
    decreases |s|
  {
    if |s| == 0 then 0 else 16 * HexValue(s[..|s| - 1]) + HexDigitValue(s[|s| - 1])
  }

  /** `int(s, 16)` on a string of hexadecimal digits; `None` where Python raises. */
  function ParseHex(s: string): (r: Option<nat>)
    ensures r.Some? <==> |s| > 0 && AllHexDigits(s)
  {
    if |s| > 0 && AllHexDigits(s) then Some(HexValue(s)) else None
  }

  function UpperHexDigit(d: nat): (c: char)
    requires d < 16
    ensures IsHexDigit(c) && HexDigitValue(c) == d
  {
    if d < 10 then ('0' as int + d) as char else ('A' as int + d - 10) as char
  }

  /** `'%X' % n`: upper-case hexadecimal without leading zeros. */
  function UpperHex(n: nat): (r: string)
    ensures |r| > 0
    ensures forall i :: 0 <= i < |r| ==> IsHexDigit(r[i])
    decreases n
  {
    if n < 16 then [UpperHexDigit(n)] else UpperHex(n / 16) + [UpperHexDigit(n % 16)]
  }

  /** Formatting with `%X` and parsing with `int(., 16)` are inverse. */
  lemma {:induction false} ParseUpperHex(n: nat)
    ensures ParseHex(UpperHex(n)) == Some(n)
    decreases n
  {
    var s := UpperHex(n);
    if n < 16 {
      assert s[..|s| - 1] == [];
      assert AllHexDigits(s);
      assert HexValue(s) == HexDigitValue(s[0]);
    } else {
      ParseUpperHex(n / 16);
      assert s[..|s| - 1] == UpperHex(n / 16);
      assert HexValue(s) == 16 * (n / 16) + n % 16;
    }
  }
}
