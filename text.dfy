/** The string operations the backend and the client rely on: Python's
    `strip`/`lstrip`/`rstrip`, `lower`/`upper`, `startswith`, `in`,
    `split`, `replace` and `int`, and JavaScript's `trim`, `toLowerCase`,
    `includes` and `split`. Case mapping and whitespace are ASCII. */
module Text {
  import opened Wrappers

  /** The ASCII characters both Python's `strip()` and JavaScript's `trim()` remove: space, tab,
      line feed, carriage return, vertical tab and form feed. Python also removes `\x1c`-`\x1f`,
      which JavaScript keeps; those separators are not modelled. */
  const Whitespace: set<char> := {' ', '\t', '\n', '\r', '\U{0B}', '\U{0C}'}

  predicate IsSpace(c: char) { c in Whitespace }

  function Lower(c: char): (r: char)
    ensures 'A' <= c <= 'Z' ==> 'a' <= r <= 'z'
    ensures !('A' <= c <= 'Z') ==> r == c
  {
    if 'A' <= c <= 'Z' then (c as int + 32) as char else c
  }

  function Upper(c: char): (r: char)
    ensures 'a' <= c <= 'z' ==> 'A' <= r <= 'Z'
    ensures !('a' <= c <= 'z') ==> r == c
  {
    if 'a' <= c <= 'z' then (c as int - 32) as char else c
  }

  /** `s.lower()` / `s.toLowerCase()`. */
  function LowerStr(s: string): (r: string)
    ensures |r| == |s|
    ensures forall i :: 0 <= i < |s| ==> r[i] == Lower(s[i])
  {
    seq(|s|, i requires 0 <= i < |s| => Lower(s[i]))
  }

  /** `s.upper()` / `s.toUpperCase()`. */
  function UpperStr(s: string): (r: string)
    ensures |r| == |s|
    ensures forall i :: 0 <= i < |s| ==> r[i] == Upper(s[i])
  {
    seq(|s|, i requires 0 <= i < |s| => Upper(s[i]))
  }

  /** `a.lower() == b.lower()`. */
  predicate EqualsIgnoreCase(a: string, b: string)
  {
    LowerStr(a) == LowerStr(b)
  }

  /** `s.lstrip(chars)`: drops the longest prefix made of characters of `cs`. */
  function StripLeft(s: string, cs: set<char>): (r: string)
    ensures |r| <= |s| && r == s[|s| - |r|..]
    ensures forall i :: 0 <= i < |s| - |r| ==> s[i] in cs
    ensures |r| > 0 ==> r[0] !in cs
  {
    if |s| > 0 && s[0] in cs then StripLeft(s[1..], cs) else s
  }

  /** `s.rstrip(chars)`: drops the longest suffix made of characters of `cs`. */
  function StripRight(s: string, cs: set<char>): (r: string)
    ensures |r| <= |s| && r == s[..|r|]
    ensures forall i :: |r| <= i < |s| ==> s[i] in cs
    ensures |r| > 0 ==> r[|r| - 1] !in cs
  {
    if |s| > 0 && s[|s| - 1] in cs then StripRight(s[..|s| - 1], cs) else s
  }

  /** `s.strip()` / `s.trim()`. */
  function Strip(s: string): (r: string)
    ensures |r| <= |s|
    ensures |r| > 0 ==> !IsSpace(r[0]) && !IsSpace(r[|r| - 1])
  {
    StripRight(StripLeft(s, Whitespace), Whitespace)
  }

  /** `s.rstrip()`. */
  function RStrip(s: string): string
  {
    StripRight(s, Whitespace)
  }

  /** `s.startswith(p)`. */
  predicate StartsWith(s: string, p: string)
  {
    |p| <= |s| && s[..|p|] == p
  }

  /** `p` occurs in `s` at position `i`. */
  predicate OccursAt(s: string, p: string, i: int)
  {
    0 <= i && i + |p| <= |s| && s[i..i + |p|] == p
  }

  /** The first position at or after `from` where `p` occurs in `s`. */
  function IndexFrom(s: string, p: string, from: nat): (r: Option<nat>)
    ensures r.Some? ==> from <= r.value && OccursAt(s, p, r.value)
    ensures r.Some? ==> forall j :: from <= j < r.value ==> !OccursAt(s, p, j)
    ensures r.None? ==> forall j :: from <= j ==> !OccursAt(s, p, j)
    decreases |s| - from
  {
    if from + |p| > |s| then None
    else if s[from..from + |p|] == p then Some(from)
    else IndexFrom(s, p, from + 1)
  }

  /** `s.find(p)`, as an option: the first position where `p` occurs. */
  function IndexOf(s: string, p: string): (r: Option<nat>)
    ensures r.Some? ==> OccursAt(s, p, r.value) && forall j :: 0 <= j < r.value ==> !OccursAt(s, p, j)
    ensures r.None? ==> forall j :: !OccursAt(s, p, j)
  {
    IndexFrom(s, p, 0)
  }

  /** `p in s` (Python) and `s.includes(p)` (JavaScript). */
  predicate Contains(s: string, p: string)
  {
    IndexOf(s, p).Some?
  }

  lemma ContainsIff(s: string, p: string)
    ensures Contains(s, p) <==> exists j :: OccursAt(s, p, j)
  {
  }

  /** `s.split(p, 1)[1]`: the text after the first occurrence of `p`. */
  function After(s: string, p: string): (r: string)
    requires Contains(s, p)
    ensures |r| <= |s| && r == s[|s| - |r|..]
  {
    s[IndexOf(s, p).value + |p|..]
  }

  /** `s.split(p, 1)[0]`: the text before the first occurrence of `p`, or all of `s`. */
  function Before(s: string, p: string): (r: string)
    ensures StartsWith(s, r)
  {
    match IndexOf(s, p)
    case Some(i) => s[..i]
    case None => s
  }

  /** `s.split(c)` with a one-character separator (Python and JavaScript agree). */
  function SplitOn(s: string, c: char): (parts: seq<string>)
    ensures |parts| >= 1
    ensures forall k :: 0 <= k < |parts| ==> c !in parts[k]
    decreases |s|
  {
    match IndexOf(s, [c])
    case None =>
      NoOccurrenceBefore(s, c, |s|);
      [s]
    case Some(i) =>
      NoOccurrenceBefore(s, c, i);
      [s[..i]] + SplitOn(s[i + 1..], c)
  }

  lemma NoOccurrenceBefore(s: string, c: char, n: nat)
    requires n <= |s|
    requires forall j :: 0 <= j < n ==> !OccursAt(s, [c], j)
    ensures c !in s[..n]
  {
    forall j | 0 <= j < n
      ensures s[j] != c
    {
      assert !OccursAt(s, [c], j);
      assert s[j..j + 1] == [s[j]];
    }
  }

  /** The first occurrence of a separator is the first separator character. */
  lemma FirstSeparator(a: string, rest: string, sep: char)
    requires sep !in a
    ensures IndexOf(a + [sep] + rest, [sep]) == Some(|a|)
  {
    var s := a + [sep] + rest;
    assert OccursAt(s, [sep], |a|) by { assert s[|a|..|a| + 1] == [sep]; }
    forall j | 0 <= j < |a|
      ensures !OccursAt(s, [sep], j)
    {
      assert s[j..j + 1] == [a[j]];
    }
  }

  /** Text without the separator does not split. */
  lemma NoSeparator(c: string, sep: char)
    requires sep !in c
    ensures IndexOf(c, [sep]).None?
    ensures SplitOn(c, sep) == [c]
  {
    forall j | 0 <= j
      ensures !OccursAt(c, [sep], j)
    {
      if j + 1 <= |c| { assert c[j..j + 1] == [c[j]]; }
    }
  }

  lemma DigitsHaveNoSeparator(s: string, sep: char)
    requires AllDigits(s) && !IsDigit(sep)
    ensures sep !in s
  {
  }

  /** `c.join(parts)`. */
  function JoinWith(parts: seq<string>, c: char): string
  {
    if |parts| == 0 then ""
    else if |parts| == 1 then parts[0]
    else parts[0] + [c] + JoinWith(parts[1..], c)
  }

  /** Splitting and joining on the same separator are inverse. */
  lemma {:induction false} JoinSplit(s: string, c: char)
    ensures JoinWith(SplitOn(s, c), c) == s
    decreases |s|
  {
    match IndexOf(s, [c])
    case None =>
    case Some(i) =>
      JoinSplit(s[i + 1..], c);
      assert s[i..i + 1] == [c];
      assert s == s[..i] + [c] + s[i + 1..];
  }

  /** Searching for one character finds it exactly when it is there. */
  lemma ContainsChar(s: string, c: char)
    ensures Contains(s, [c]) <==> c in s
  {
    if c in s {
      var i :| 0 <= i < |s| && s[i] == c;
      assert OccursAt(s, [c], i);
    }
    if Contains(s, [c]) {
      var i := IndexOf(s, [c]).value;
      assert s[i..i + 1][0] == c;
    }
  }

  /** Text already free of surrounding white space is left alone by `strip`. */
  lemma StripSelf(s: string)
    requires |s| > 0 ==> !IsSpace(s[0]) && !IsSpace(s[|s| - 1])
    ensures Strip(s) == s
  {
  }

  /** `strip` drops one leading blank in front of text free of surrounding white space. */
  lemma StripBlank(s: string)
    requires |s| > 0 && !IsSpace(s[0]) && !IsSpace(s[|s| - 1])
    ensures Strip([' '] + s) == s
  {
    assert ([' '] + s)[1..] == s;
    assert StripLeft([' '] + s, Whitespace) == StripLeft(s, Whitespace) == s;
  }

  /** Every character of the stripped text occurs in the original. */
  lemma StripInside(s: string, c: char)
    requires c in Strip(s)
    ensures c in s
  {
    var l := StripLeft(s, Whitespace);
    var i :| 0 <= i < |Strip(s)| && Strip(s)[i] == c;
    assert Strip(s)[i] == l[i];
    assert l[i] == s[|s| - |l| + i];
  }

  /** `s.replace(p, "")`: removes the non-overlapping occurrences of `p`, scanning left to right. */
  function RemoveAll(s: string, p: string): (r: string)
    requires |p| > 0
    ensures |r| <= |s|
    ensures (forall j :: !OccursAt(s, p, j)) ==> r == s
    decreases |s|
  {
    if |s| == 0 then s
    else if StartsWith(s, p) then
      assert OccursAt(s, p, 0);
      RemoveAll(s[|p|..], p)
    else
      assert forall j :: 0 <= j && !OccursAt(s, p, j + 1) ==> !OccursAt(s[1..], p, j);
      [s[0]] + RemoveAll(s[1..], p)
  }

  /** Removing a character that does not occur changes nothing. */
  lemma RemoveAbsent(s: string, c: char)
    requires c !in s
    ensures RemoveAll(s, [c]) == s
  {
    forall j | 0 <= j && j + 1 <= |s|
      ensures !OccursAt(s, [c], j)
    {
      assert s[j..j + 1] == [s[j]];
    }
  }

  // ----- decimal numerals -----

  predicate IsDigit(c: char) { '0' <= c <= '9' }

  predicate AllDigits(s: string) { forall i :: 0 <= i < |s| ==> IsDigit(s[i]) }

  function DigitChar(d: nat): (c: char)
    requires d < 10
    ensures IsDigit(c)
  {
    ('0' as int + d) as char
  }

  function DigitValue(c: char): (d: nat)
    requires IsDigit(c)
    ensures d < 10 && DigitChar(d) == c
  {
    c as int - '0' as int
  }

  /** `int(s)` for a string of decimal digits. */
  function DigitsValue(s: string): nat
    requires AllDigits(s)
  {
    if |s| == 0 then 0 else DigitsValue(s[..|s| - 1]) * 10 + DigitValue(s[|s| - 1])
  }

  function Pow10(n: nat): (r: nat)
    ensures r >= 1
  {
    if n == 0 then 1 else 10 * Pow10(n - 1)
  }

  /** `str(n)`: the decimal numeral of `n`, without leading zeros. */
  function NatToString(n: nat): (s: string)
    ensures |s| >= 1 && AllDigits(s)
  {
    if n < 10 then [DigitChar(n)] else NatToString(n / 10) + [DigitChar(n % 10)]
  }

  /** The numeral of `n` left-padded with zeros to at least `width` characters (`%02d`, `%04d`). */
  function Pad(n: nat, width: nat): (s: string)
    ensures AllDigits(s)
  {
    var digits := NatToString(n);
    if |digits| < width then seq(width - |digits|, _ => '0') + digits else digits
  }

  lemma {:induction false} NatToStringValue(n: nat)
    ensures DigitsValue(NatToString(n)) == n
  {
    if n >= 10 {
      NatToStringValue(n / 10);
      var s := NatToString(n);
      assert s[..|s| - 1] == NatToString(n / 10);
    }
  }

  lemma {:induction false} NatToStringLength(n: nat, width: nat)
    requires 1 <= width && n < Pow10(width)
    ensures |NatToString(n)| <= width
  {
    if n >= 10 {
      assert width >= 2;
      assert n / 10 < Pow10(width - 1);
      NatToStringLength(n / 10, width - 1);
    }
  }

  lemma {:induction false} LeadingZerosValue(z: nat, s: string)
    requires AllDigits(s)
    ensures AllDigits(seq(z, _ => '0') + s)
    ensures DigitsValue(seq(z, _ => '0') + s) == DigitsValue(s)
    decreases |s|, z
  {
    var zs: string := seq(z, _ => '0');
    if |s| > 0 {
      LeadingZerosValue(z, s[..|s| - 1]);
      assert (zs + s)[..|zs + s| - 1] == zs + s[..|s| - 1];
    } else if z > 0 {
      assert zs + s == zs;
      var shorter: string := seq(z - 1, _ => '0');
      assert zs[..z - 1] == shorter;
      LeadingZerosValue(z - 1, s);
      assert shorter + s == shorter;
    }
  }

  /** A zero-padded numeral has exactly the requested width when the value fits, and reads back as `n`. */
  lemma PadRoundTrip(n: nat, width: nat)
    requires 1 <= width && n < Pow10(width)
    ensures |Pad(n, width)| == width
    ensures DigitsValue(Pad(n, width)) == n
  {
    NatToStringLength(n, width);
    NatToStringValue(n);
    var digits := NatToString(n);
    if |digits| < width {
      LeadingZerosValue(width - |digits|, digits);
    }
  }
}
