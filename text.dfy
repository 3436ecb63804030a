/**
 * String helpers with Python's meaning: `str.startswith`, `in` on strings,
 * `str.split`, `str.strip`, `str.lower` and `int()` on decimal text.
 */
module Text {
  import opened Wrappers

  predicate StartsWith(s: string, prefix: string) {
    |prefix| <= |s| && s[..|prefix|] == prefix
  }

  /** `sub in s` */
  predicate Contains(s: string, sub: string) {
    StartsWith(s, sub) || (s != [] && Contains(s[1..], sub))
  }

  /** The characters for which Python's `str.isspace()` holds. */
  predicate IsSpace(c: char) {
    c == ' ' || ('\t' <= c <= '\r') || ('\U{1c}' <= c <= '\U{1f}')
    || c == '\U{85}' || c == '\U{a0}' || c == '\U{1680}'
    || ('\U{2000}' <= c <= '\U{200a}') || c == '\U{2028}' || c == '\U{2029}'
    || c == '\U{202f}' || c == '\U{205f}' || c == '\U{3000}'
  }

  /** `not s.strip()`: the string holds nothing but whitespace. */
  predicate IsBlank(s: string) {
    forall i | 0 <= i < |s| :: IsSpace(s[i])
  }

  function StripLeft(s: string): (r: string)
    ensures |r| <= |s| && r == s[|s| - |r|..]
  {
    if s != [] && IsSpace(s[0]) then StripLeft(s[1..]) else s
  }

  function StripRight(s: string): (r: string)
    ensures |r| <= |s| && r == s[..|r|]
  {
    if s != [] && IsSpace(s[|s| - 1]) then StripRight(s[..|s| - 1]) else s
  }

  lemma {:induction false} StripLeftHead(s: string)
    ensures StripLeft(s) == [] || !IsSpace(StripLeft(s)[0])
  {
    if s != [] && IsSpace(s[0]) {
      StripLeftHead(s[1..]);
    }
  }

  lemma {:induction false} StripRightLast(s: string)
    ensures StripRight(s) == [] || !IsSpace(StripRight(s)[|StripRight(s)| - 1])
  {
    if s != [] && IsSpace(s[|s| - 1]) {
      StripRightLast(s[..|s| - 1]);
    }
  }

  lemma {:induction false} StripLeftOfTrimmed(s: string)
    requires s == [] || !IsSpace(s[0])
    ensures StripLeft(s) == s
  {
  }

  lemma {:induction false} StripRightOfTrimmed(s: string)
    requires s == [] || !IsSpace(s[|s| - 1])
    ensures StripRight(s) == s
  {
  }

  /** `s.strip()` */
  function Strip(s: string): string {
    StripRight(StripLeft(s))
  }

  function LowerChar(c: char): char {
    if 'A' <= c <= 'Z' then (c as int + 32) as char else c
  }

  /** `s.lower()`, on ASCII letters. */
  function Lower(s: string): (r: string)
    ensures |r| == |s|
    ensures forall i | 0 <= i < |s| :: r[i] == LowerChar(s[i])
  {
    seq(|s|, i requires 0 <= i < |s| => LowerChar(s[i]))
  }

  /** Index of the first occurrence of `c` in `s`, if any. */
  function IndexOf(s: string, c: char): (r: Option<nat>)
    ensures r.None? <==> c !in s
    ensures r.Some? ==> r.value < |s| && s[r.value] == c && c !in s[..r.value]
  {
    if s == [] then None
    else if s[0] == c then Some(0)
    else match IndexOf(s[1..], c)
      case None => None
      case Some(k) => Some(k + 1)
  }

  /** A first occurrence is what `IndexOf` finds. */
  lemma IndexOfAt(s: string, c: char, i: nat)
    requires i < |s| && s[i] == c && c !in s[..i]
    ensures IndexOf(s, c) == Some(i)
  {
  }

  /** Index of the last occurrence of `c` in `s`, if any. */
  function LastIndexOf(s: string, c: char): (r: Option<nat>)
    ensures r.None? <==> c !in s
    ensures r.Some? ==> r.value < |s| && s[r.value] == c && c !in s[r.value + 1..]
  {
    if s == [] then None
    else if s[|s| - 1] == c then Some(|s| - 1)
    else LastIndexOf(s[..|s| - 1], c)
  }

  /** `s.split(sep)`: the parts between separators, always at least one. */
  function Split(s: string, sep: char): (parts: seq<string>)
    ensures |parts| >= 1
    ensures forall k | 0 <= k < |parts| :: sep !in parts[k]
  {
    match IndexOf(s, sep)
    case None => [s]
    case Some(i) => [s[..i]] + Split(s[i + 1..], sep)
  }

  /** Text without the separator splits into itself. */
  lemma SplitNoSep(a: string, sep: char)
    requires sep !in a
    ensures Split(a, sep) == [a]
  {
  }

  /** Splitting after a separator-free prefix peels that prefix off as the first part. */
  lemma SplitCons(a: string, sep: char, rest: string)
    requires sep !in a
    ensures Split(a + [sep] + rest, sep) == [a] + Split(rest, sep)
  {
    var s := a + [sep] + rest;
    assert s[|a|] == sep;
    assert s[..|a|] == a;
    assert s[|a| + 1..] == rest;
  }

  predicate IsDigit(c: char) {
    '0' <= c <= '9'
  }

  predicate AllDigits(s: string) {
    forall i | 0 <= i < |s| :: IsDigit(s[i])
  }

  function DigitsValue(s: string): (n: nat)
    requires AllDigits(s)
  {
    if s == [] then 0
    else DigitsValue(s[..|s| - 1]) * 10 + (s[|s| - 1] as int - '0' as int)
  }

  /**
   * `int(s)` for decimal text: an optional sign and at least one digit;
   * anything else is the `ValueError` case, here `None`.
   */
  function ParseInt(s: string): (r: Option<int>)
    ensures r.Some? <==>
      (|s| >= 1 && AllDigits(s)) || (|s| >= 2 && (s[0] == '-' || s[0] == '+') && AllDigits(s[1..]))
    ensures r.Some? && AllDigits(s) ==> r.value == DigitsValue(s)
    ensures r.Some? && s[0] == '-' ==> r.value == 0 - DigitsValue(s[1..]) as int
    ensures r.Some? && s[0] == '+' ==> r.value == DigitsValue(s[1..])
  {
    if |s| >= 1 && AllDigits(s) then Some(DigitsValue(s))
    else if |s| >= 2 && s[0] == '-' && AllDigits(s[1..]) then Some(0 - DigitsValue(s[1..]) as int)
    else if |s| >= 2 && s[0] == '+' && AllDigits(s[1..]) then Some(DigitsValue(s[1..]))
    else None
  }

  /** Decimal rendering of a natural number (Python's `str(n)` for n >= 0). */
  function NatToString(n: nat): (s: string)
    ensures |s| >= 1 && AllDigits(s)
    ensures DigitsValue(s) == n
    decreases n
  {
    var d := [('0' as int + n % 10) as char];
    if n < 10 then d
    else
      var p := NatToString(n / 10);
      assert (p + d)[..|p + d| - 1] == p;
      p + d
  }

  /** `str(n)` for any integer. */
  function IntToString(n: int): (s: string)
    ensures ParseInt(s) == Some(n)
  {
    if n >= 0 then NatToString(n)
    else
      var p := NatToString(-n);
      assert ("-" + p)[1..] == p;
      "-" + p
  }
}
