/**
 * The parts of Python's `urllib.parse` and `pathlib` that the image
 * pipeline relies on: `urlparse` (path and query), `parse_qs` with its
 * form-urlencoded decoding (section 2.1 of RFC 3986, plus `+` as space),
 * `urlencode` for the search request, and `Path.suffix` as it behaves on a POSIX system.
 */
module Url {
  import opened Wrappers
  import opened Text

  // ---------------------------------------------------------------------
  // urlparse

  datatype UrlParts = UrlParts(
    scheme: string, netloc: string, path: string, params: string, query: string, fragment: string)

  predicate IsAsciiLetter(c: char) {
    ('a' <= c <= 'z') || ('A' <= c <= 'Z')
  }

  predicate IsSchemeChar(c: char) {
    IsAsciiLetter(c) || IsDigit(c) || c == '+' || c == '-' || c == '.'
  }

  /** Schemes whose last path segment may carry `;params`. */
  const USES_PARAMS: set<string> := {
    "", "ftp", "hdl", "prospero", "http", "imap", "https", "shttp", "rtsp", "rtsps",
    "rtspu", "sip", "sips", "mms", "sftp", "tel"}

  /** The length of a leading `scheme:` that `urlsplit` accepts, without the colon. */
  function SchemeLength(url: string): (r: Option<nat>)
    ensures r.Some? ==> 0 < r.value < |url| && url[r.value] == ':' && ':' !in url[..r.value]
  {
    match IndexOf(url, ':')
    case None => None
    case Some(i) =>
      if i > 0 && IsAsciiLetter(url[0]) && (forall k | 0 <= k < i :: IsSchemeChar(url[k]))
      then Some(i) else None
  }

  /** Index of the first of `/`, `?`, `#` at or after `from`, else `|s|`. */
  function NetlocEnd(s: string, from: nat): (r: nat)
    requires from <= |s|
    ensures from <= r <= |s|
    ensures forall k | from <= k < r :: s[k] !in {'/', '?', '#'}
    ensures r < |s| ==> s[r] in {'/', '?', '#'}
    decreases |s| - from
  {
    if from == |s| || s[from] in {'/', '?', '#'} then from else NetlocEnd(s, from + 1)
  }

  /** `_splitparams`: cut at the first `;` after the last `/`. */
  function SplitParams(url: string): (r: (string, string))
    ensures |r.0| <= |url| && r.0 == url[..|r.0|]
  {
    var start := match LastIndexOf(url, '/') case Some(i) => i case None => 0;
    match IndexOf(url[start..], ';')
    case None => (url, "")
    case Some(j) => (url[..start + j], url[start + j + 1..])
  }

  /** The scheme, lower-cased, and what follows its colon. */
  function SplitScheme(url: string): (r: (string, string))
    ensures |r.1| <= |url|
  {
    match SchemeLength(url)
    case Some(i) => (Lower(url[..i]), url[i + 1..])
    case None => ("", url)
  }

  /** The network location after a leading `//`, and the rest. */
  function SplitNetloc(s: string): (r: (string, string))
    ensures |r.1| <= |s|
  {
    if |s| >= 2 && s[..2] == "//" then
      var e := NetlocEnd(s, 2); (s[2..e], s[e..])
    else ("", s)
  }

  /** Text before and after the first `c` (the second part empty without one). */
  function CutAt(s: string, c: char): (r: (string, string))
    ensures c !in r.0
    ensures forall d | d !in s :: d !in r.0 && d !in r.1
  {
    match IndexOf(s, c)
    case Some(i) => (s[..i], s[i + 1..])
    case None => (s, "")
  }

  /** The path and, for schemes that use them, the `;params` of its last segment. */
  function PathParams(scheme: string, rest: string): (r: (string, string))
    ensures |r.0| <= |rest| && r.0 == rest[..|r.0|]
  {
    if ';' in rest && scheme in USES_PARAMS then SplitParams(rest) else (rest, "")
  }

  /** `urllib.parse.urlparse` */
  function UrlParse(url: string): (r: UrlParts)
    ensures '#' !in r.query && '#' !in r.path && '?' !in r.path
  {
    var scheme := SplitScheme(url);
    var netloc := SplitNetloc(scheme.1);
    var fragment := CutAt(netloc.1, '#');
    var query := CutAt(fragment.0, '?');
    var path := PathParams(scheme.0, query.0);
    assert '#' !in path.0 && '?' !in path.0 by {
      assert path.0 == query.0[..|path.0|];
    }
    UrlParts(scheme.0, netloc.0, path.0, path.1, query.1, fragment.1)
  }

  // ---------------------------------------------------------------------
  // Path(path).suffix

  /** The path's components as `Path` keeps them on a POSIX system: no empty and no `.` parts. */
  function Components(parts: seq<string>): (r: seq<string>)
    ensures forall k | 0 <= k < |r| :: r[k] != "" && r[k] != "."
    ensures forall k | 0 <= k < |r| :: r[k] in parts
  {
    if parts == [] then []
    else if parts[0] == "" || parts[0] == "." then Components(parts[1..])
    else [parts[0]] + Components(parts[1..])
  }

  /** `Path(path).name` on a POSIX system: the last kept component, or "". */
  function PathName(path: string): (name: string)
    ensures '/' !in name
  {
    var cs := Components(Split(path, '/'));
    if cs == [] then "" else cs[|cs| - 1]
  }

  /**
   * `Path(path).suffix` on a POSIX system: from the last dot of the name, when that
   * dot is neither the name's first nor its last character.
   */
  function PathSuffix(path: string): (ext: string)
    ensures ext == "" || (|ext| >= 2 && ext[0] == '.' && '.' !in ext[1..] && '/' !in ext)
    ensures ext != "" ==> exists k | 0 < k < |PathName(path)| :: PathName(path)[k..] == ext
    ensures var name := PathName(path);
      forall k | 0 < k < |name| - 1 && name[k] == '.' && '.' !in name[k + 1..] :: ext == name[k..]
  {
    var name := PathName(path);
    match LastIndexOf(name, '.')
    case Some(i) => if 0 < i < |name| - 1 then name[i..] else ""
    case None => ""
  }

  // ---------------------------------------------------------------------
  // Percent-encoding

  predicate IsHexDigit(c: char) {
    IsDigit(c) || ('a' <= c <= 'f') || ('A' <= c <= 'F')
  }

  function HexValue(c: char): (v: nat)
    requires IsHexDigit(c)
    ensures v < 16
  {
    if IsDigit(c) then c as int - '0' as int
    else if 'a' <= c <= 'f' then c as int - 'a' as int + 10
    else c as int - 'A' as int + 10
  }

  function HexDigit(v: nat): (c: char)
    requires v < 16
    ensures IsHexDigit(c) && HexValue(c) == v
  {
    if v < 10 then ('0' as int + v) as char else ('A' as int + v - 10) as char
  }

  /**
   * `unquote`: each `%` followed by two hexadecimal digits becomes the
   * character with that code; any other `%` stays as it is.
   */
  function PercentDecode(s: string): (r: string)
    ensures |r| <= |s|
    ensures s != [] ==> r != []
    ensures '%' !in s ==> r == s
  {
    if s == [] then []
    else if |s| >= 3 && s[0] == '%' && IsHexDigit(s[1]) && IsHexDigit(s[2]) then
      [(HexValue(s[1]) * 16 + HexValue(s[2])) as char] + PercentDecode(s[3..])
    else [s[0]] + PercentDecode(s[1..])
  }

  /** `unquote_plus`: `+` first becomes a space, then `%XX` is decoded. */
  function FormDecode(s: string): (r: string)
    ensures |r| <= |s| && (s != [] ==> r != [])
    ensures '%' !in s ==> |r| == |s| && forall k | 0 <= k < |s| :: r[k] == (if s[k] == '+' then ' ' else s[k])
  {
    PercentDecode(ReplacePlus(s))
  }

  function ReplacePlus(s: string): (r: string)
    ensures |r| == |s| && '+' !in r
    ensures forall k | 0 <= k < |s| :: r[k] == (if s[k] == '+' then ' ' else s[k])
  {
    if s == [] then [] else [if s[0] == '+' then ' ' else s[0]] + ReplacePlus(s[1..])
  }

  /** Text without `+` or `%` decodes to itself. */
  lemma FormDecodePlain(s: string)
    requires '+' !in s && '%' !in s
    ensures FormDecode(s) == s
  {
    assert ReplacePlus(s) == s;
  }

  /** Characters `quote_plus` leaves alone. */
  predicate IsUnreserved(c: char) {
    IsAsciiLetter(c) || IsDigit(c) || c == '_' || c == '.' || c == '-' || c == '~'
  }

  predicate IsAscii(s: string) {
    forall k | 0 <= k < |s| :: s[k] as int < 128
  }

  /** The UTF-8 encoding of one character, as byte values. */
  function Utf8(c: char): (bs: seq<nat>)
    ensures 1 <= |bs| <= 4
    ensures forall k | 0 <= k < |bs| :: bs[k] < 256
    ensures c as int < 128 ==> bs == [c as int]
  {
    var n := c as int;
    if n < 0x80 then [n]
    else if n < 0x800 then [0xC0 + n / 64, 0x80 + n % 64]
    else if n < 0x10000 then [0xE0 + n / 4096, 0x80 + (n / 64) % 64, 0x80 + n % 64]
    else [0xF0 + n / 262144, 0x80 + (n / 4096) % 64, 0x80 + (n / 64) % 64, 0x80 + n % 64]
  }

  /** `%XX` for each byte, upper-case hexadecimal. */
  function PercentBytes(bs: seq<nat>): (r: string)
    requires forall k | 0 <= k < |bs| :: bs[k] < 256
    ensures |r| == 3 * |bs|
    ensures '&' !in r && '=' !in r && '#' !in r && '?' !in r
  {
    if bs == [] then []
    else ['%', HexDigit(bs[0] / 16), HexDigit(bs[0] % 16)] + PercentBytes(bs[1..])
  }

  /** How `quote_plus` writes one character. */
  function QuoteChar(c: char): (r: string)
    ensures '&' !in r && '=' !in r && '#' !in r && '?' !in r
    ensures r != []
  {
    if IsUnreserved(c) then [c]
    else if c == ' ' then ['+']
    else PercentBytes(Utf8(c))
  }

  /** `quote_plus`: space as `+`, unreserved characters as they are, every other byte as `%XX`. */
  function QuotePlus(s: string): (r: string)
    ensures '&' !in r && '=' !in r && '#' !in r && '?' !in r
    ensures r == [] <==> s == []
  {
    if s == [] then [] else QuoteChar(s[0]) + QuotePlus(s[1..])
  }

  lemma ReplacePlusAppend(a: string, b: string)
    ensures ReplacePlus(a + b) == ReplacePlus(a) + ReplacePlus(b)
  {
  }

  /** Decoding one quoted character gives the character back, whatever follows. */
  lemma FormDecodeQuoteChar(c: char, rest: string)
    requires c as int < 128
    ensures FormDecode(QuoteChar(c) + rest) == [c] + FormDecode(rest)
  {
    var q := QuoteChar(c);
    ReplacePlusAppend(q, rest);
    assert Utf8(c) == [c as int];
    var d := ReplacePlus(q) + ReplacePlus(rest);
    if IsUnreserved(c) || c == ' ' {
      assert ReplacePlus(q) == [c];
      assert d[1..] == ReplacePlus(rest);
    } else {
      assert q == ['%', HexDigit(c as int / 16), HexDigit(c as int % 16)];
      assert ReplacePlus(q) == q;
      assert d[3..] == ReplacePlus(rest);
    }
  }

  /** Decoding undoes `quote_plus`. */
  lemma {:induction false} QuotePlusRoundTrip(s: string)
    requires IsAscii(s)
    ensures FormDecode(QuotePlus(s)) == s
  {
    if s != [] {
      QuotePlusRoundTrip(s[1..]);
      FormDecodeQuoteChar(s[0], QuotePlus(s[1..]));
      assert [s[0]] + s[1..] == s;
    }
  }

  // ---------------------------------------------------------------------
  // parse_qs

  /** Cut `s` at the first `c`: the text before and, when there is one, after it. */
  function SplitOnce(s: string, c: char): (r: (string, Option<string>))
    ensures r.1.None? ==> r.0 == s && c !in s
    ensures r.1.Some? ==> s == r.0 + [c] + r.1.value && c !in r.0
  {
    match IndexOf(s, c)
    case None => (s, None)
    case Some(i) => (s[..i], Some(s[i + 1..]))
  }

  /**
   * `parse_qsl(query)` with blank values dropped: the `&`-separated fields
   * that have an `=` and a non-empty value, each side decoded.
   */
  function QueryPairs(fields: seq<string>): (r: seq<(string, string)>)
    ensures |r| <= |fields|
    ensures forall k | 0 <= k < |r| :: r[k].1 != ""
  {
    if fields == [] then []
    else
      var (name, value) := SplitOnce(fields[0], '=');
      var rest := QueryPairs(fields[1..]);
      if value.Some? && value.value != "" then [(FormDecode(name), FormDecode(value.value))] + rest
      else rest
  }

  function ParseQs(query: string): (r: seq<(string, string)>)
    ensures query == "" ==> r == []
    ensures query != "" ==> |r| <= |Split(query, '&')|
    ensures forall k | 0 <= k < |r| :: r[k].1 != ""
  {
    if query == "" then [] else QueryPairs(Split(query, '&'))
  }

  /** `parse_qs(query)[key][0]`: the first value recorded under `key`. */
  function FirstValue(pairs: seq<(string, string)>, key: string): (r: Option<string>)
    ensures r.None? <==> forall k | 0 <= k < |pairs| :: pairs[k].0 != key
    ensures r.Some? ==> exists k | 0 <= k < |pairs| :: pairs[k] == (key, r.value)
                          && forall j | 0 <= j < k :: pairs[j].0 != key
  {
    if pairs == [] then None
    else if pairs[0].0 == key then Some(pairs[0].1)
    else
      var r := FirstValue(pairs[1..], key);
      assert r.Some? ==> exists k | 0 <= k < |pairs[1..]| :: pairs[1..][k] == (key, r.value)
                          && forall j | 0 <= j < k :: pairs[1..][j].0 != key;
      assert r.Some? ==> exists k | 1 <= k < |pairs| :: pairs[k] == (key, r.value)
                          && forall j | 0 <= j < k :: pairs[j].0 != key by {
        if r.Some? {
          var k :| 0 <= k < |pairs[1..]| && pairs[1..][k] == (key, r.value)
                   && forall j | 0 <= j < k :: pairs[1..][j].0 != key;
          assert pairs[k + 1] == (key, r.value);
          assert forall j | 0 <= j < k + 1 :: pairs[j].0 != key by {
            forall j | 0 <= j < k + 1 ensures pairs[j].0 != key {
              if j > 0 { assert pairs[j] == pairs[1..][j - 1]; }
            }
          }
        }
      }
      r
  }
}
