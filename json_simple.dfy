/** The minimal key scanner shared by both command transports
    (json_simple.c). A key is found by plain substring search for the key in
    double quotes; the value after the next ':' is read either as a quoted
    string (bounded copy into a caller's buffer) or as a signed decimal
    integer. No JSON grammar is checked. */
module JsonSimple {
  import opened Common

  /** Size of the static buffer `find_key` formats the quoted key into. */
  const PATTERN_BUF: nat := 64

  /** C `isspace` in the "C" locale. */
  predicate IsSpace(c: char) {
    c == ' ' || c == '\t' || c == '\n' || c == '\U{0B}' || c == '\U{0C}' || c == '\r'
  }

  predicate IsDigit(c: char) { '0' as int <= c as int <= '9' as int }

  predicate AllDigits(ds: seq<char>) {
    forall i :: 0 <= i < |ds| ==> IsDigit(ds[i])
  }

  function DigitValue(c: char): nat
    requires IsDigit(c)
  {
    c as int - '0' as int
  }

  // ---------------------------------------------------------------------
  // Specification of the scan
  // ---------------------------------------------------------------------

  /** The pattern `find_key` searches for: the key in double quotes, cut to
      what fits the 64-byte pattern buffer. */
  function KeyPattern(key: seq<char>): (pat: seq<char>)
    ensures 1 <= |pat| < PATTERN_BUF && pat[0] == '"'
    ensures |key| + 2 < PATTERN_BUF ==> pat == ['"'] + key + ['"']
  {
    Fit(['"'] + key + ['"'], PATTERN_BUF - 1)
  }

  predicate OccursAt(s: seq<char>, pat: seq<char>, i: nat) {
    i + |pat| <= |s| && s[i..i + |pat|] == pat
  }

  /** `strstr` started at `from`: the first position at or after `from` where
      `pat` occurs, if any. */
  function IndexOf(s: seq<char>, pat: seq<char>, from: nat): (r: Option<nat>)
    decreases |s| - from
    ensures r.Some? ==> from <= r.value && r.value + |pat| <= |s|
  {
    if from + |pat| > |s| then None
    else if s[from..from + |pat|] == pat then Some(from)
    else IndexOf(s, pat, from + 1)
  }

  /** `IndexOf` finds the first occurrence at or after `from`, and reports
      none only when there is none. */
  lemma {:induction false} IndexOfFirst(s: seq<char>, pat: seq<char>, from: nat)
    decreases |s| - from
    ensures var r := IndexOf(s, pat, from);
      && (r.Some? ==> from <= r.value && OccursAt(s, pat, r.value))
      && (r.Some? ==> forall j :: from <= j < r.value ==> !OccursAt(s, pat, j))
      && (r.None? ==> forall j :: from <= j ==> !OccursAt(s, pat, j))
  {
    if from + |pat| <= |s| && s[from..from + |pat|] != pat {
      IndexOfFirst(s, pat, from + 1);
    }
  }

  /** `strchr` started at `from`: the first position at or after `from`
      holding `c`, if any. */
  function CharIndex(s: seq<char>, c: char, from: nat): (r: Option<nat>)
    decreases |s| - from
    ensures r.Some? ==> from <= r.value < |s| && s[r.value] == c
    ensures r.Some? ==> forall j :: from <= j < r.value ==> s[j] != c
    ensures r.None? ==> forall j :: from <= j < |s| ==> s[j] != c
  {
    if from >= |s| then None
    else if s[from] == c then Some(from)
    else CharIndex(s, c, from + 1)
  }

  /** Where `find_key` finds the key: the first occurrence of the quoted key
      anywhere in the text, inside a value or not. */
  function KeyIndex(json: seq<char>, key: seq<char>): Option<nat> {
    IndexOf(json, KeyPattern(key), 0)
  }

  /** Where both getters start reading the value: just after the first ':'
      at or after the key's occurrence. */
  function ValueStart(json: seq<char>, key: seq<char>): (r: Option<nat>)
    ensures r.Some? ==> 0 < r.value <= |json| && json[r.value - 1] == ':'
  {
    match KeyIndex(json, key)
    case None => None
    case Some(k) =>
      match CharIndex(json, ':', k)
      case None => None
      case Some(c) => Some(c + 1)
  }

  /** The first position at or after `i` that is not white space. */
  function SkipSpace(s: seq<char>, i: nat): (r: nat)
    requires i <= |s|
    decreases |s| - i
    ensures i <= r <= |s|
    ensures forall j :: i <= j < r ==> IsSpace(s[j])
    ensures r < |s| ==> !IsSpace(s[r])
  {
    if i < |s| && IsSpace(s[i]) then SkipSpace(s, i + 1) else i
  }

  /** The first position at or after `i` that is neither white space nor `"`. */
  function SkipSpaceOrQuote(s: seq<char>, i: nat): (r: nat)
    requires i <= |s|
    decreases |s| - i
    ensures i <= r <= |s|
    ensures forall j :: i <= j < r ==> IsSpace(s[j]) || s[j] == '"'
    ensures r < |s| ==> !IsSpace(s[r]) && s[r] != '"'
  {
    if i < |s| && (IsSpace(s[i]) || s[i] == '"') then SkipSpaceOrQuote(s, i + 1) else i
  }

  /** The end of the maximal run of digits that starts at `i`. */
  function DigitEnd(s: seq<char>, i: nat): (r: nat)
    requires i <= |s|
    decreases |s| - i
    ensures i <= r <= |s|
    ensures forall j :: i <= j < r ==> IsDigit(s[j])
    ensures r < |s| ==> !IsDigit(s[r])
  {
    if i < |s| && IsDigit(s[i]) then DigitEnd(s, i + 1) else i
  }

  /** The value of a run of decimal digits, most significant first. */
  function DecimalValue(ds: seq<char>): nat
    requires AllDigits(ds)
  {
    if ds == [] then 0 else DecimalValue(ds[..|ds| - 1]) * 10 + DigitValue(ds[|ds| - 1])
  }

  /** What `json_get_int` stores in `*out`, or None when it returns false. */
  function GetInt(json: seq<char>, key: seq<char>): Option<int> {
    match ValueStart(json, key)
    case None => None
    case Some(p0) => IntFrom(json, p0)
  }

  /** The integer read once the value starts at `p0`: white space and quotes
      are skipped first. */
  function IntFrom(json: seq<char>, p0: nat): Option<int>
    requires p0 <= |json|
  {
    SignedFrom(json, SkipSpaceOrQuote(json, p0))
  }

  /** An optional '-', then the digits `NatFrom` reads. */
  function SignedFrom(json: seq<char>, p1: nat): Option<int>
    requires p1 <= |json|
  {
    if p1 < |json| && json[p1] == '-' then
      match NatFrom(json, p1 + 1)
      case Some(v) => Some(-v)
      case None => None
    else NatFrom(json, p1)
  }

  /** At least one digit must start at `p`; the value of the maximal run. */
  function NatFrom(json: seq<char>, p: nat): Option<int>
    requires p <= |json|
  {
    if p < |json| && IsDigit(json[p]) then
      var v: int := DecimalValue(json[p..DigitEnd(json, p)]);
      Some(v)
    else None
  }

  /** Outcome of the string scan: either it stops before copying anything
      (`NoString`, the output buffer untouched), or it copies `text` and
      NUL-terminates the buffer. */
  datatype Scan = NoString | Copied(text: seq<char>)

  /** Where a quoted string that starts at `start` ends: at the next `"`,
      or at the end of the text when it is never closed. */
  function QuoteEnd(json: seq<char>, start: nat): (r: nat)
    requires start <= |json|
    ensures start <= r <= |json|
    ensures forall j :: start <= j < r ==> json[j] != '"'
    ensures r < |json| ==> json[r] == '"'
  {
    match CharIndex(json, '"', start)
    case Some(q) => q
    case None => |json|
  }

  /** What `json_get_string` does with an output buffer of `outsz` bytes. */
  function ScanString(json: seq<char>, key: seq<char>, outsz: nat): (r: Scan)
    requires outsz >= 1
    ensures r.Copied? ==> |r.text| < outsz && '"' !in r.text
    ensures r.Copied? && NoNul(json) ==> NoNul(r.text)
  {
    match ValueStart(json, key)
    case None => NoString
    case Some(p0) => ScanFrom(json, SkipSpace(json, p0), outsz)
  }

  /** The string scan once white space is skipped: a `"` must follow, then
      up to `outsz - 1` characters before the closing `"` are copied. */
  function ScanFrom(json: seq<char>, p: nat, outsz: nat): (r: Scan)
    requires p <= |json| && outsz >= 1
    ensures r.Copied? ==> |r.text| < outsz && '"' !in r.text
    ensures r.Copied? && NoNul(json) ==> NoNul(r.text)
  {
    if p < |json| && json[p] == '"' then
      var t := json[p + 1..Min(QuoteEnd(json, p + 1), p + outsz)];
      assert forall j :: 0 <= j < |t| ==> t[j] == json[p + 1 + j];
      Copied(t)
    else NoString
  }

  // ---------------------------------------------------------------------
  // The scanner as the firmware runs it
  // ---------------------------------------------------------------------

  /** `find_key`: substring search for the quoted key. */
  method FindKey(json: seq<char>, key: seq<char>) returns (r: Option<nat>)
    ensures r == KeyIndex(json, key)
  {
    var pat := KeyPattern(key);
    var i := 0;
    while i + |pat| <= |json|
      invariant IndexOf(json, pat, i) == IndexOf(json, pat, 0)
      decreases |json| - i
    {
      if json[i..i + |pat|] == pat {
        return Some(i);
      }
      i := i + 1;
    }
    return None;
  }

  /** `strchr(json + from, c)`. */
  method FindChar(json: seq<char>, c: char, from: nat) returns (r: Option<nat>)
    requires from <= |json|
    ensures r == CharIndex(json, c, from)
  {
    var i := from;
    while i < |json| && json[i] != c
      invariant from <= i <= |json|
      invariant CharIndex(json, c, i) == CharIndex(json, c, from)
      decreases |json| - i
    {
      i := i + 1;
    }
    r := if i < |json| then Some(i) else None;
  }

  /** The common head of both getters: find the quoted key, then the next
      ':' (`strchr`), and step past it. */
  method FindValue(json: seq<char>, key: seq<char>) returns (r: Option<nat>)
    ensures r == ValueStart(json, key)
  {
    var k := FindKey(json, key);
    if k.None? {
      return None;
    }
    var c := FindChar(json, ':', k.value);
    if c.None? {
      return None;
    }
    return Some(c.value + 1);
  }

  /** `json_get_string`: the value of `key` copied into `out` (at most
      `out.Length - 1` characters, then a NUL); true iff at least one
      character was copied. */
  method JsonGetString(json: seq<char>, key: seq<char>, out: array<char>) returns (ok: bool)
    requires NoNul(json)
    requires out.Length >= 1
    modifies out
    ensures ScanString(json, key, out.Length) == NoString ==> !ok && out[..] == old(out[..])
    ensures ScanString(json, key, out.Length).Copied? ==>
      var t := ScanString(json, key, out.Length).text;
      && ok == (|t| > 0)
      && out[..|t|] == t && out[|t|] == '\0' && CStr(out[..]) == t
      && out[|t| + 1..] == old(out[|t| + 1..])
  {
    var v := FindValue(json, key);
    if v.None? {
      return false;
    }
    ok := ReadString(json, v.value, out);
  }

  /** The part of `json_get_string` after the ':'. */
  method ReadString(json: seq<char>, from: nat, out: array<char>) returns (ok: bool)
    requires NoNul(json)
    requires from <= |json| && out.Length >= 1
    modifies out
    ensures ScanFrom(json, SkipSpace(json, from), out.Length) == NoString ==> !ok && out[..] == old(out[..])
    ensures ScanFrom(json, SkipSpace(json, from), out.Length).Copied? ==>
      var t := ScanFrom(json, SkipSpace(json, from), out.Length).text;
      && ok == (|t| > 0)
      && out[..|t|] == t && out[|t|] == '\0' && CStr(out[..]) == t
      && out[|t| + 1..] == old(out[|t| + 1..])
  {
    var p := SkipSpaces(json, from);
    if p >= |json| || json[p] != '"' {
      return false;
    }
    var n := CopyQuoted(json, p + 1, out);
    ghost var t := ScanFrom(json, p, out.Length).text;
    assert |t| == n && out[..n] == t;
    CStrOfTerminated(out[..], t);
    ok := n > 0;
  }

  /** The white-space loop of `json_get_string`. */
  method SkipSpaces(json: seq<char>, from: nat) returns (p: nat)
    requires from <= |json|
    ensures p == SkipSpace(json, from)
  {
    p := from;
    while p < |json| && IsSpace(json[p])
      invariant from <= p <= |json|
      invariant SkipSpace(json, p) == SkipSpace(json, from)
    {
      p := p + 1;
    }
  }

  /** The copy loop of `json_get_string`: characters from `start` up to the
      next `"` or the end of the text, at most `out.Length - 1` of them, then
      a NUL; returns how many were copied. */
  method CopyQuoted(json: seq<char>, start: nat, out: array<char>) returns (n: nat)
    requires NoNul(json)
    requires 0 < start <= |json| && out.Length >= 1
    modifies out
    ensures start + n == Min(QuoteEnd(json, start), start - 1 + out.Length)
    ensures n < out.Length && out[..n] == json[start..start + n] && out[n] == '\0'
    ensures out[n + 1..] == old(out[n + 1..])
  {
    var p := start;
    n := 0;
    while p < |json| && json[p] != '"' && n + 1 < out.Length
      invariant start <= p <= |json| && p == start + n && n < out.Length
      invariant forall j :: start <= j < p ==> json[j] != '"'
      invariant forall j :: 0 <= j < n ==> out[j] == json[start + j]
      invariant forall j :: n <= j < out.Length ==> out[j] == old(out[j])
    {
      out[n] := json[p];
      n := n + 1;
      p := p + 1;
    }
    out[n] := '\0';
    assert out[..n] == json[start..start + n];
    assert out[n + 1..] == old(out[n + 1..]);
  }

  /** The digit loop of `json_get_int`: `v = v * 10 + digit` over the maximal
      run of digits starting at `start`. */
  method AccumulateDigits(json: seq<char>, start: nat) returns (v: nat, end: nat)
    requires start <= |json|
    ensures end == DigitEnd(json, start)
    ensures v == DecimalValue(json[start..end])
  {
    end := start;
    v := 0;
    while end < |json| && IsDigit(json[end])
      invariant start <= end <= |json|
      invariant AllDigits(json[start..end])
      invariant v == DecimalValue(json[start..end])
      invariant DigitEnd(json, end) == DigitEnd(json, start)
    {
      assert json[start..end + 1][..end - start] == json[start..end];
      v := v * 10 + DigitValue(json[end]);
      end := end + 1;
    }
  }

  /** The loop of `json_get_int` that skips white space and quotes. */
  method SkipSpacesAndQuotes(json: seq<char>, from: nat) returns (p: nat)
    requires from <= |json|
    ensures p == SkipSpaceOrQuote(json, from)
  {
    p := from;
    while p < |json| && (IsSpace(json[p]) || json[p] == '"')
      invariant from <= p <= |json|
      invariant SkipSpaceOrQuote(json, p) == SkipSpaceOrQuote(json, from)
    {
      p := p + 1;
    }
  }

  /** `json_get_int`: the signed decimal value of `key`, or None when
      `json_get_int` returns false (leaving `*out` unwritten). */
  method JsonGetInt(json: seq<char>, key: seq<char>) returns (r: Option<int>)
    requires NoNul(json)
    ensures r == GetInt(json, key)
  {
    var v0 := FindValue(json, key);
    if v0.None? {
      return None;
    }
    r := ReadInt(json, v0.value);
  }

  /** The part of `json_get_int` after the ':'. */
  method ReadInt(json: seq<char>, from: nat) returns (r: Option<int>)
    requires from <= |json|
    ensures r == IntFrom(json, from)
  {
    var p := SkipSpacesAndQuotes(json, from);
    var negative := false;
    if p < |json| && json[p] == '-' {
      negative := true;
      p := p + 1;
    }
    if !(p < |json| && IsDigit(json[p])) {
      return None;
    }
    var v, end := AccumulateDigits(json, p);
    var value: int := v;
    if negative {
      value := -value;
    }
    return Some(value);
  }

  // ---------------------------------------------------------------------
  // Properties
  // ---------------------------------------------------------------------

  function DigitChar(d: nat): (c: char)
    requires d < 10
    ensures IsDigit(c) && DigitValue(c) == d
  {
    ('0' as int + d) as char
  }

  /** Decimal rendering of a natural number, most significant digit first. */
  function Digits(n: nat): (ds: seq<char>)
    ensures |ds| >= 1 && AllDigits(ds)
  {
    if n < 10 then [DigitChar(n)] else Digits(n / 10) + [DigitChar(n % 10)]
  }

  /** Decimal rendering of an integer, as `%d` prints it. */
  function Decimal(n: int): (s: seq<char>)
    ensures |s| >= 1 && (s[0] == '-' || IsDigit(s[0]))
  {
    if n < 0 then ['-'] + Digits(-n) else Digits(n)
  }

  /** The digit accumulation of `json_get_int` inverts decimal rendering. */
  lemma {:induction false} DecimalValueOfDigits(n: nat)
    ensures DecimalValue(Digits(n)) == n
  {
    if n >= 10 {
      DecimalValueOfDigits(n / 10);
      var ds := Digits(n);
      assert ds[..|ds| - 1] == Digits(n / 10);
    }
  }

  /** The text a sender writes for a key: the key in double quotes, then ':'. */
  function Field(key: seq<char>): seq<char> {
    ['"'] + key + ['"', ':']
  }

  /** Character `ci` of the quoted key occurs neither in `before` nor earlier
      in the pattern, so no match of the pattern can start inside `before`. */
  predicate Unmatched(before: seq<char>, key: seq<char>, ci: nat) {
    && ci < |KeyPattern(key)|
    && KeyPattern(key)[ci] !in before
    && KeyPattern(key)[ci] !in KeyPattern(key)[..ci]
  }

  /** A key that opens the object, `{"key":`, is never matched earlier. */
  lemma OpeningKeyUnmatched(key: seq<char>)
    ensures Unmatched(['{'], key, 0)
  {
  }

  /** `find_key` stops at the first quoted key placed after text that cannot
      hold an earlier match. */
  lemma KeyFoundAfter(before: seq<char>, key: seq<char>, after: seq<char>, ci: nat)
    requires Unmatched(before, key, ci)
    ensures KeyIndex(before + KeyPattern(key) + after, key) == Some(|before|)
  {
    var pat := KeyPattern(key);
    var json := before + pat + after;
    IndexOfFirst(json, pat, 0);
    Middle(before, pat, after);
    assert OccursAt(json, pat, |before|);
    forall j | 0 <= j < |before|
      ensures !OccursAt(json, pat, j)
    {
      NoMatchInside(before, pat, after, ci, j);
    }
  }

  lemma Middle(a: seq<char>, b: seq<char>, c: seq<char>)
    ensures (a + b + c)[|a|..|a| + |b|] == b
  {
  }

  /** A match starting inside `before` would have to place `pat[ci]` in
      `before` or in the pattern ahead of position `ci`. */
  lemma NoMatchInside(before: seq<char>, pat: seq<char>, after: seq<char>, ci: nat, j: nat)
    requires ci < |pat| && pat[ci] !in before && pat[ci] !in pat[..ci] && j < |before|
    ensures !OccursAt(before + pat + after, pat, j)
  {
    var json := before + pat + after;
    if j + |pat| <= |json| {
      assert json[j..j + |pat|][ci] == json[j + ci];
      if j + ci < |before| {
        assert json[j + ci] == before[j + ci];
      } else {
        assert json[j + ci] == pat[..ci][j + ci - |before|];
      }
    }
  }

  /** Both getters fail when some character of the quoted key is missing
      from the text. */
  lemma KeyAbsent(json: seq<char>, key: seq<char>, ci: nat)
    requires ci < |KeyPattern(key)| && KeyPattern(key)[ci] !in json
    ensures KeyIndex(json, key) == None && GetInt(json, key) == None
    ensures forall outsz :: outsz >= 1 ==> ScanString(json, key, outsz) == NoString
  {
    var pat := KeyPattern(key);
    IndexOfFirst(json, pat, 0);
    forall j | 0 <= j
      ensures !OccursAt(json, pat, j)
    {
      if j + |pat| <= |json| {
        assert json[j..j + |pat|][ci] == json[j + ci];
      }
    }
  }

  /** After such a key, both getters start reading right past its ':'. */
  lemma ValueStartAfter(before: seq<char>, key: seq<char>, tail: seq<char>, ci: nat)
    requires |key| + 2 < PATTERN_BUF && ':' !in key
    requires Unmatched(before, key, ci)
    ensures ValueStart(before + Field(key) + tail, key) == Some(|before| + |Field(key)|)
  {
    var pat := KeyPattern(key);
    var json := before + Field(key) + tail;
    assert json == before + pat + ([':'] + tail);
    KeyFoundAfter(before, key, [':'] + tail, ci);
    var k := |before|;
    assert json[k + |key| + 2] == ':';
    forall j | k <= j < k + |key| + 2
      ensures json[j] != ':'
    {
      assert json[j] == pat[j - k];
      if k + 1 <= j < k + |key| + 1 {
        assert json[j] == key[j - k - 1];
      }
    }
    assert CharIndex(json, ':', k) == Some(k + |key| + 2);
  }

  /** The digit run of `json_get_int` reads back the decimal rendering of `m`
      written at `q` when no digit follows it. */
  lemma NatFromAt(json: seq<char>, q: nat, m: nat)
    requires q + |Digits(m)| <= |json| && json[q..q + |Digits(m)|] == Digits(m)
    requires q + |Digits(m)| < |json| ==> !IsDigit(json[q + |Digits(m)|])
    ensures NatFrom(json, q) == Some(m)
  {
    var ds := Digits(m);
    var e := q + |ds|;
    forall j | q <= j < e
      ensures IsDigit(json[j])
    {
      assert json[j] == json[q..e][j - q] == ds[j - q];
    }
    assert DigitEnd(json, q) == e;
    DecimalValueOfDigits(m);
  }

  /** `json_get_int` reads the integer rendered at `p` when no digit follows. */
  lemma SignedFromAt(json: seq<char>, p: nat, n: int)
    requires p + |Decimal(n)| <= |json| && json[p..p + |Decimal(n)|] == Decimal(n)
    requires p + |Decimal(n)| < |json| ==> !IsDigit(json[p + |Decimal(n)|])
    ensures SignedFrom(json, p) == Some(n)
  {
    var d := Decimal(n);
    assert json[p] == json[p..p + |d|][0] == d[0];
    if n < 0 {
      assert json[p + 1..p + |d|] == json[p..p + |d|][1..] == Digits(-n);
      NatFromAt(json, p + 1, -n);
    } else {
      NatFromAt(json, p, n);
    }
  }

  /** The value of a key whose text, from where the value starts, is white
      space and quotes, then a rendered integer, then no digit. */
  lemma IntFromTail(json: seq<char>, p0: nat, pad: seq<char>, n: int, rest: seq<char>)
    requires p0 <= |json| && json[p0..] == pad + Decimal(n) + rest
    requires forall i :: 0 <= i < |pad| ==> IsSpace(pad[i]) || pad[i] == '"'
    requires rest == [] || !IsDigit(rest[0])
    ensures IntFrom(json, p0) == Some(n)
  {
    var d := Decimal(n);
    var tail := json[p0..];
    var p := p0 + |pad|;
    forall j | p0 <= j < p
      ensures IsSpace(json[j]) || json[j] == '"'
    {
      assert json[j] == tail[j - p0] == pad[j - p0];
    }
    assert json[p] == tail[|pad|] == d[0];
    assert SkipSpaceOrQuote(json, p0) == p;
    assert json[p..p + |d|] == tail[|pad|..|pad| + |d|] == d;
    if p + |d| < |json| {
      assert json[p + |d|] == tail[|pad| + |d|] == rest[0];
    }
    SignedFromAt(json, p, n);
  }

  /** `a + b + c + d + e` read as the text `a + b` followed by `c + d + e`. */
  lemma Split(a: seq<char>, b: seq<char>, c: seq<char>, d: seq<char>, e: seq<char>)
    ensures a + b + c + d + e == a + b + (c + d + e)
    ensures (a + b + (c + d + e))[|a| + |b|..] == c + d + e
  {
  }

  /** Round trip: `json_get_int` reads back the integer a sender rendered
      after `"key":`, past any white space and double quotes (so a quoted
      number such as `"80"` is accepted), stopping at the first non-digit. */
  lemma GetIntOfRendered(before: seq<char>, key: seq<char>, ci: nat, pad: seq<char>, n: int, rest: seq<char>)
    requires |key| + 2 < PATTERN_BUF && ':' !in key && Unmatched(before, key, ci)
    requires forall i :: 0 <= i < |pad| ==> IsSpace(pad[i]) || pad[i] == '"'
    requires rest == [] || !IsDigit(rest[0])
    ensures GetInt(before + Field(key) + pad + Decimal(n) + rest, key) == Some(n)
  {
    var tail := pad + Decimal(n) + rest;
    var json := before + Field(key) + tail;
    var p0 := |before| + |Field(key)|;
    ValueStartAfter(before, key, tail, ci);
    GetIntAt(json, key, p0);
    Split(before, Field(key), pad, Decimal(n), rest);
    IntFromTail(json, p0, pad, n, rest);
  }

  /** Once the value start is known, `json_get_int` reads from there. */
  lemma GetIntAt(json: seq<char>, key: seq<char>, p0: nat)
    requires ValueStart(json, key) == Some(p0)
    ensures GetInt(json, key) == IntFrom(json, p0)
  {
  }

  /** No integer is read when, after white space and quotes, neither a
      digit nor a sign followed by a digit comes. */
  lemma NoIntFromTail(json: seq<char>, p0: nat, pad: seq<char>, sign: seq<char>, rest: seq<char>)
    requires p0 <= |json| && json[p0..] == pad + sign + rest
    requires forall i :: 0 <= i < |pad| ==> IsSpace(pad[i]) || pad[i] == '"'
    requires sign == [] || sign == ['-']
    requires rest == [] || !IsDigit(rest[0])
    requires sign == [] && rest != [] ==> rest[0] != '-' && !IsSpace(rest[0]) && rest[0] != '"'
    ensures IntFrom(json, p0) == None
  {
    var tail := json[p0..];
    var p := p0 + |pad|;
    forall j | p0 <= j < p
      ensures IsSpace(json[j]) || json[j] == '"'
    {
      assert json[j] == tail[j - p0] == pad[j - p0];
    }
    if sign != [] {
      assert json[p] == tail[|pad|] == '-';
    } else if rest != [] {
      assert json[p] == tail[|pad|] == rest[0];
    }
    assert SkipSpaceOrQuote(json, p0) == p;
    if p + |sign| < |json| {
      assert json[p + |sign|] == tail[|pad| + |sign|] == rest[0];
    }
  }

  /** `json_get_int` fails when neither a digit nor a sign followed by a digit
      comes after the skipped white space and quotes. */
  lemma GetIntRejectsNonNumber(before: seq<char>, key: seq<char>, ci: nat, pad: seq<char>, sign: seq<char>, rest: seq<char>)
    requires |key| + 2 < PATTERN_BUF && ':' !in key && Unmatched(before, key, ci)
    requires forall i :: 0 <= i < |pad| ==> IsSpace(pad[i]) || pad[i] == '"'
    requires sign == [] || sign == ['-']
    requires rest == [] || !IsDigit(rest[0])
    requires sign == [] && rest != [] ==> rest[0] != '-' && !IsSpace(rest[0]) && rest[0] != '"'
    ensures GetInt(before + Field(key) + pad + sign + rest, key) == None
  {
    var tail := pad + sign + rest;
    var json := before + Field(key) + tail;
    var p0 := |before| + |Field(key)|;
    ValueStartAfter(before, key, tail, ci);
    GetIntAt(json, key, p0);
    Split(before, Field(key), pad, sign, rest);
    NoIntFromTail(json, p0, pad, sign, rest);
  }

  /** `json_get_string` copies the quoted text `v` found at `p` once only
      white space separates it from where the value starts. */
  lemma ScanFromAt(json: seq<char>, p0: nat, p: nat, v: seq<char>, outsz: nat)
    requires p0 <= p && p + |v| + 2 <= |json| && '"' !in v && outsz >= 1
    requires json[p] == '"' && json[p + 1..p + 1 + |v|] == v && json[p + 1 + |v|] == '"'
    requires forall j :: p0 <= j < p ==> IsSpace(json[j])
    ensures ScanFrom(json, SkipSpace(json, p0), outsz) == Copied(Fit(v, outsz - 1))
  {
    assert SkipSpace(json, p0) == p;
    var close := p + 1 + |v|;
    forall j | p + 1 <= j < close
      ensures json[j] != '"'
    {
      assert json[j] == v[j - p - 1];
    }
    assert CharIndex(json, '"', p + 1) == Some(close);
    assert QuoteEnd(json, p + 1) == close;
    assert json[p + 1..Min(close, p + outsz)] == Fit(v, outsz - 1);
  }

  /** Round trip: `json_get_string` reads back a quoted value that contains no
      double quote, cut to the room the output buffer leaves before its NUL. */
  lemma GetStringOfRendered(before: seq<char>, key: seq<char>, ci: nat, ws: seq<char>, v: seq<char>, rest: seq<char>, outsz: nat)
    requires |key| + 2 < PATTERN_BUF && ':' !in key && Unmatched(before, key, ci)
    requires forall i :: 0 <= i < |ws| ==> IsSpace(ws[i])
    requires '"' !in v && outsz >= 1
    ensures ScanString(before + Field(key) + ws + ['"'] + v + ['"'] + rest, key, outsz)
         == Copied(Fit(v, outsz - 1))
  {
    var tail := ws + ['"'] + v + ['"'] + rest;
    var json := before + Field(key) + tail;
    var p0 := |before| + |Field(key)|;
    ValueStartAfter(before, key, tail, ci);
    ScanStringAt(json, key, p0, outsz);
    SplitQuoted(before, Field(key), ws, v, rest);
    ScanTail(json, p0, ws, v, rest, outsz);
  }

  /** `a + b + ws + "v" + rest` read as the text `a + b` followed by the rest. */
  lemma SplitQuoted(a: seq<char>, b: seq<char>, ws: seq<char>, v: seq<char>, rest: seq<char>)
    ensures a + b + ws + ['"'] + v + ['"'] + rest == a + b + (ws + ['"'] + v + ['"'] + rest)
    ensures (a + b + (ws + ['"'] + v + ['"'] + rest))[|a| + |b|..] == ws + ['"'] + v + ['"'] + rest
  {
  }

  /** Once the value start is known, `json_get_string` scans from there. */
  lemma ScanStringAt(json: seq<char>, key: seq<char>, p0: nat, outsz: nat)
    requires ValueStart(json, key) == Some(p0) && outsz >= 1
    ensures ScanString(json, key, outsz) == ScanFrom(json, SkipSpace(json, p0), outsz)
  {
  }

  /** The string scan from where the value starts, over white space and then
      a quoted `v`. */
  lemma ScanTail(json: seq<char>, p0: nat, ws: seq<char>, v: seq<char>, rest: seq<char>, outsz: nat)
    requires p0 <= |json| && json[p0..] == ws + ['"'] + v + ['"'] + rest
    requires forall i :: 0 <= i < |ws| ==> IsSpace(ws[i])
    requires '"' !in v && outsz >= 1
    ensures ScanFrom(json, SkipSpace(json, p0), outsz) == Copied(Fit(v, outsz - 1))
  {
    var tail := json[p0..];
    var p := p0 + |ws|;
    forall j | p0 <= j < p
      ensures IsSpace(json[j])
    {
      assert json[j] == tail[j - p0] == ws[j - p0];
    }
    assert json[p] == tail[|ws|] == '"';
    assert json[p + 1..p + 1 + |v|] == tail[|ws| + 1..|ws| + 1 + |v|] == v;
    assert json[p + 1 + |v|] == tail[|ws| + 1 + |v|] == '"';
    ScanFromAt(json, p0, p, v, outsz);
  }
}
