// The part of URL parsing (the WHATWG URL Standard, as implemented by the
// `url` crate) that the Notion page-id extraction depends on: whether the
// input parses at all, its host, and its path.

module WebUrl {
  import opened Wrappers
  import opened Text

  /** A parsed host: a domain, an IPv4 address (as its 32-bit value), a
      bracketed IPv6 literal, the opaque host of a non-special URL, or none. */
  datatype Host =
    | DomainHost(name: string)
    | Ipv4Host(address: nat)
    | Ipv6Host(literal: string)
    | OpaqueHost(name: string)
    | EmptyHost

  /** A parsed absolute URL: lower-cased scheme, host (if it has an authority) and path. */
  datatype Url = Url(scheme: string, host: Option<Host>, path: string)

  const SPECIAL_SCHEMES: set<string> := {"http", "https", "ws", "wss", "ftp", "file"}

  const MAX_PORT: nat := 65535

  // ---------------------------------------------------------------------------
  // Before parsing

  /** A C0 control or space: trimmed from both ends of the input. */
  predicate IsC0OrSpace(c: char) {
    c <= ' '
  }

  /** An ASCII tab or newline: removed from anywhere in the input. */
  predicate IsTabOrNewline(c: char) {
    c == '\t' || c == '\n' || c == '\r'
  }

  /** How many C0 controls and spaces `s` starts with. */
  function LeadingC0(s: string): (n: nat)
    ensures n <= |s|
  {
    if s != [] && IsC0OrSpace(s[0]) then 1 + LeadingC0(s[1..]) else 0
  }

  /** How many C0 controls and spaces `s` ends with. */
  function TrailingC0(s: string): (n: nat)
    ensures n <= |s|
  {
    if s != [] && IsC0OrSpace(s[|s| - 1]) then 1 + TrailingC0(s[..|s| - 1]) else 0
  }

  function RemoveTabsAndNewlines(s: string): (r: string)
    ensures |r| <= |s|
    ensures forall k :: 0 <= k < |r| ==> !IsTabOrNewline(r[k])
  {
    if s == [] then []
    else if IsTabOrNewline(s[0]) then RemoveTabsAndNewlines(s[1..])
    else [s[0]] + RemoveTabsAndNewlines(s[1..])
  }

  /** What the parser reads: the input without leading and trailing C0
      controls and spaces, and without any tab or newline. */
  function Preprocess(input: string): (r: string)
    ensures forall k :: 0 <= k < |r| ==> !IsTabOrNewline(r[k])
  {
    var start := input[LeadingC0(input)..];
    RemoveTabsAndNewlines(start[..|start| - TrailingC0(start)])
  }

  /** Preprocessing adds no character. */
  lemma PreprocessAddsNothing(input: string, c: char)
    requires c !in input
    ensures c !in Preprocess(input)
  {
    var start := input[LeadingC0(input)..];
    var trimmed := start[..|start| - TrailingC0(start)];
    assert c !in start;
    assert c !in trimmed;
    RemoveAddsNothing(trimmed, c);
  }

  lemma {:induction false} RemoveAddsNothing(s: string, c: char)
    requires c !in s
    ensures c !in RemoveTabsAndNewlines(s)
  {
    if s != [] {
      assert c !in s[1..];
      RemoveAddsNothing(s[1..], c);
    }
  }

  /** An input that already is what the parser reads. */
  lemma PreprocessUnchanged(input: string)
    requires input != [] && !IsC0OrSpace(input[0]) && !IsC0OrSpace(input[|input| - 1])
    requires forall k :: 0 <= k < |input| ==> !IsTabOrNewline(input[k])
    ensures Preprocess(input) == input
  {
    assert LeadingC0(input) == 0;
    assert input[0..] == input;
    assert TrailingC0(input) == 0;
    assert input[..|input|] == input;
    RemoveNothing(input);
  }

  lemma {:induction false} RemoveNothing(s: string)
    requires forall k :: 0 <= k < |s| ==> !IsTabOrNewline(s[k])
    ensures RemoveTabsAndNewlines(s) == s
  {
    if s != [] {
      assert forall k :: 0 <= k < |s[1..]| ==> s[1..][k] == s[k + 1];
      RemoveNothing(s[1..]);
    }
  }

  // ---------------------------------------------------------------------------
  // Scheme, authority, port and path

  predicate IsAsciiAlpha(c: char) {
    'a' <= c <= 'z' || 'A' <= c <= 'Z'
  }

  predicate IsSchemeChar(c: char) {
    IsAsciiAlpha(c) || IsDigit(c) || c == '+' || c == '-' || c == '.'
  }

  /** An input with a scheme: an ASCII letter, scheme characters, then ':'. */
  predicate HasScheme(input: string) {
    var colon := FirstOf(input, {':'});
    0 < colon < |input| && IsAsciiAlpha(input[0])
    && forall k :: 0 < k < colon ==> IsSchemeChar(input[k])
  }

  /** A port is empty or a decimal number that fits in 16 bits. */
  predicate IsValidPort(port: string) {
    AllDigits(port) && (port == [] || DigitsValue(port) <= MAX_PORT)
  }

  /** Special URLs read a backslash in the path as a slash. */
  function ForwardSlashes(s: string): (r: string)
    ensures |r| == |s| && '\\' !in r
    ensures forall k :: 0 <= k < |s| ==> r[k] == (if s[k] == '\\' then '/' else s[k])
  {
    if s == [] then [] else [if s[0] == '\\' then '/' else s[0]] + ForwardSlashes(s[1..])
  }

  /** Where the host ends: at the first ':' outside brackets (an IPv6 literal
      holds colons of its own). */
  function HostEnd(s: string, inBrackets: bool): (n: nat)
    ensures n <= |s|
    ensures n < |s| ==> s[n] == ':'
  {
    if s == [] || (s[0] == ':' && !inBrackets) then 0
    else 1 + HostEnd(s[1..], if s[0] == '[' then true else if s[0] == ']' then false else inBrackets)
  }

  /** The host and port part of an authority: what follows the last '@' (user
      info is dropped), cut at the colon that starts the port. */
  function HostAndPort(authority: string): (r: (string, string))
    ensures |r.0| + |r.1| <= |authority|
  {
    var afterUser := AfterLast(authority, '@');
    var n := HostEnd(afterUser, false);
    (afterUser[..n], if n == |afterUser| then [] else afterUser[n + 1..])
  }

  /** The path of an input that starts right after its authority; it stops at the query or fragment. */
  function PathOf(rest: string): (path: string)
    ensures |path| <= |rest| && path == rest[..|path|]
    ensures '?' !in path && '#' !in path
  {
    var parts := SplitAt(rest, {'?', '#'});
    assert rest[..|parts.0|] == parts.0;
    parts.0
  }

  // ---------------------------------------------------------------------------
  // Hosts

  /** Code points no host may hold. */
  predicate IsForbiddenHostChar(c: char) {
    c in {'\0', '\t', '\n', '\r', ' ', '#', '/', ':', '<', '>', '?', '@', '[', '\\', ']', '^', '|'}
  }

  /** Code points no domain may hold: those, C0 controls, '%' and DELETE. */
  predicate IsForbiddenDomainChar(c: char) {
    IsForbiddenHostChar(c) || c <= '\U{1F}' || c == '%' || c == '\U{7F}'
  }

  predicate HasForbiddenDomainChar(s: string) {
    exists k :: 0 <= k < |s| && IsForbiddenDomainChar(s[k])
  }

  predicate IsHexDigit(c: char) {
    IsDigit(c) || 'a' <= c <= 'f' || 'A' <= c <= 'F'
  }

  function HexValue(c: char): (v: nat)
    requires IsHexDigit(c)
    ensures v < 16
  {
    if IsDigit(c) then c as int - '0' as int
    else if 'a' <= c <= 'f' then c as int - 'a' as int + 10
    else c as int - 'A' as int + 10
  }

  /** Percent-decoding: each `%` followed by two hex digits stands for the
      byte they spell; any other `%` is kept. */
  function PercentDecode(s: string): (r: string)
    ensures '%' !in s ==> r == s
  {
    if s == [] then []
    else if |s| >= 3 && s[0] == '%' && IsHexDigit(s[1]) && IsHexDigit(s[2]) then
      [(HexValue(s[1]) * 16 + HexValue(s[2])) as char] + PercentDecode(s[3..])
    else
      assert s[0] == '%' ==> '%' in s;
      [s[0]] + PercentDecode(s[1..])
  }

  lemma NothingToDecode(s: string)
    requires forall k :: 0 <= k < |s| ==> s[k] != '%'
    ensures PercentDecode(s) == s
  {
    assert '%' !in s;
  }

  predicate IsRadixDigit(c: char, radix: nat) {
    if radix == 16 then IsHexDigit(c) else if radix == 8 then '0' <= c <= '7' else IsDigit(c)
  }

  predicate AllRadixDigits(s: string, radix: nat) {
    forall k :: 0 <= k < |s| ==> IsRadixDigit(s[k], radix)
  }

  /** The value of `s` in base `radix`, most significant digit first. */
  function RadixValue(s: string, radix: nat): nat
    requires AllRadixDigits(s, radix)
  {
    if s == [] then 0 else RadixValue(s[..|s| - 1], radix) * radix + HexValue(s[|s| - 1])
  }

  /** One dot-separated part of an IPv4 address: decimal, octal after a
      leading `0`, hexadecimal after `0x`; an empty part is not a number. */
  function Ipv4Number(part: string): (r: Option<nat>)
    ensures part == [] ==> r.None?
  {
    if part == [] then None
    else
      var hex := |part| >= 2 && part[0] == '0' && (part[1] == 'x' || part[1] == 'X');
      var octal := !hex && |part| >= 2 && part[0] == '0';
      var digits := if hex then part[2..] else if octal then part[1..] else part;
      var radix := if hex then 16 else if octal then 8 else 10;
      if AllRadixDigits(digits, radix) then Some(RadixValue(digits, radix)) else None
  }

  predicate IsNumericLabel(part: string) {
    (part != [] && AllDigits(part)) || Ipv4Number(part).Some?
  }

  /** A host whose last label (a trailing dot aside) is a number is read as
      an IPv4 address, not as a domain. */
  predicate EndsInANumber(host: string) {
    var last := AfterLast(host, '.');
    if last != [] then IsNumericLabel(last)
    else host != [] && IsNumericLabel(AfterLast(host[..|host| - 1], '.'))
  }

  function Ipv4Numbers(parts: seq<string>): (r: Option<seq<nat>>)
    ensures r.Some? ==> |r.value| == |parts|
  {
    if parts == [] then Some([])
    else
      var n :- Ipv4Number(parts[0]);
      var rest :- Ipv4Numbers(parts[1..]);
      Some([n] + rest)
  }

  /** The address the numbers spell: each but the last is one byte, from the
      most significant down; the last fills the remaining bytes. */
  function Ipv4Value(numbers: seq<nat>, i: nat): nat
    requires |numbers| <= 4 && i < |numbers|
    decreases |numbers| - i
  {
    if i == |numbers| - 1 then numbers[i] else numbers[i] * Pow(256, 3 - i) + Ipv4Value(numbers, i + 1)
  }

  /** The IPv4 parser: at most four parts (a trailing empty one is dropped),
      each a number, all but the last below 256, the last within the bytes left. */
  function Ipv4Parse(host: string): (r: Option<nat>)
  {
    var split := Split(host, '.');
    var parts := if |split| > 1 && split[|split| - 1] == [] then split[..|split| - 1] else split;
    if |parts| > 4 then None
    else
      var numbers :- Ipv4Numbers(parts);
      if exists i :: 0 <= i < |numbers| - 1 && numbers[i] > 255 then None
      else if numbers[|numbers| - 1] >= Pow(256, 5 - |numbers|) then None
      else Some(Ipv4Value(numbers, 0))
  }

  /** The host of a special URL: a bracketed IPv6 literal, or a domain that is
      percent-decoded and lower-cased, must hold no forbidden code point, and
      is an IPv4 address when it ends in a number. */
  function SpecialHost(input: string): (r: Option<Host>)
    ensures r.Some? ==> r.value.DomainHost? || r.value.Ipv4Host? || r.value.Ipv6Host?
    ensures r.Some? && r.value.DomainHost? ==>
      var name := r.value.name;
      && name == AsciiLowercase(PercentDecode(input)) && name != []
      && !HasForbiddenDomainChar(name) && !EndsInANumber(name)
    ensures !(input != [] && input[0] == '[') && HasForbiddenDomainChar(AsciiLowercase(PercentDecode(input)))
            ==> r.None?
  {
    if input != [] && input[0] == '[' then
      if |input| >= 2 && input[|input| - 1] == ']' then Some(Ipv6Host(input)) else None
    else
      var domain := AsciiLowercase(PercentDecode(input));
      if domain == [] || HasForbiddenDomainChar(domain) then None
      else if EndsInANumber(domain) then
        match Ipv4Parse(domain)
        case Some(address) => Some(Ipv4Host(address))
        case None => None
      else Some(DomainHost(domain))
  }

  /** The host of a non-special URL: kept as written unless it holds a
      forbidden code point. */
  function OtherHost(input: string): (r: Option<Host>)
    ensures r.Some? && r.value.OpaqueHost? ==>
      r.value.name == input && input != [] && forall k :: 0 <= k < |input| ==> !IsForbiddenHostChar(input[k])
  {
    if input == [] then Some(EmptyHost)
    else if input[0] == '[' then
      if |input| >= 2 && input[|input| - 1] == ']' then Some(Ipv6Host(input)) else None
    else if exists k :: 0 <= k < |input| && IsForbiddenHostChar(input[k]) then None
    else Some(OpaqueHost(input))
  }

  // ---------------------------------------------------------------------------
  // The path of a special URL

  /** The path percent-encode set: C0 controls, space, '"', '#', '<', '>',
      '?', '`', '{', '}', DELETE and every code point beyond ASCII. */
  predicate InPathEncodeSet(c: char) {
    c < ' ' || c > '~' || c in {' ', '"', '#', '<', '>', '?', '`', '{', '}'}
  }

  /** Text in which no code point needs percent-encoding. */
  predicate IsEncoded(s: string) {
    forall k :: 0 <= k < |s| ==> !InPathEncodeSet(s[k])
  }

  /** The UTF-8 encoding of a code point: one byte below 0x80, otherwise a
      lead byte announcing the length and continuation bytes of 6 bits each. */
  function Utf8(c: char): (r: seq<nat>)
    ensures 1 <= |r| <= 4
    ensures |r| == 1 <==> c < '\U{80}'
    ensures |r| == 1 ==> r[0] == c as int
    ensures |r| == 2 ==> 0xC0 <= r[0] < 0xE0
    ensures |r| == 3 ==> 0xE0 <= r[0] < 0xF0
    ensures |r| == 4 ==> 0xF0 <= r[0] < 0xF8
    ensures forall k :: 1 <= k < |r| ==> 0x80 <= r[k] < 0xC0
  {
    var n := c as int;
    var (q1, q2, q3) := (n / 64, n / 64 / 64, n / 64 / 64 / 64);
    if n < 0x80 then [n]
    else if n < 0x800 then [0xC0 + q1, 0x80 + n % 64]
    else if n < 0x1_0000 then [0xE0 + q2, 0x80 + q1 % 64, 0x80 + n % 64]
    else [0xF0 + q3, 0x80 + q2 % 64, 0x80 + q1 % 64, 0x80 + n % 64]
  }

  /** The code point a UTF-8 sequence of one to four bytes spells. */
  function Utf8Value(bytes: seq<nat>): int
    requires 1 <= |bytes| <= 4
  {
    var tail := if |bytes| == 1 then 0 else Utf8Tail(bytes[1..]);
    var lead := bytes[0] as int;
    if |bytes| == 1 then lead
    else if |bytes| == 2 then (lead - 0xC0) * 64 + tail
    else if |bytes| == 3 then (lead - 0xE0) * 4096 + tail
    else (lead - 0xF0) * 0x4_0000 + tail
  }

  /** The bits the continuation bytes carry, most significant first. */
  function Utf8Tail(bytes: seq<nat>): int {
    if bytes == [] then 0 else Utf8Tail(bytes[..|bytes| - 1]) * 64 + (bytes[|bytes| - 1] as int - 0x80)
  }

  /** Decoding the UTF-8 bytes of a code point gives the code point back. */
  lemma Utf8RoundTrip(c: char)
    ensures Utf8Value(Utf8(c)) == c as int
  {
    var n := c as int;
    var r := Utf8(c);
    if n >= 0x80 {
      var t := r[1..];
      Utf8TailOne(t[..1]);
      var (q1, q2, q3) := (n / 64, n / 64 / 64, n / 64 / 64 / 64);
      assert n == q1 * 64 + n % 64 && q1 == q2 * 64 + q1 % 64 && q2 == q3 * 64 + q2 % 64;
      if n < 0x800 {
        assert t[..1] == t;
      } else if n < 0x1_0000 {
        assert t[..2][..1] == t[..1] && t[..2] == t;
      } else {
        assert t[..3][..2] == t[..2] && t[..2][..1] == t[..1] && t[..3] == t;
        assert Utf8Tail(t[..2]) == Utf8Tail(t[..1]) * 64 + (t[1] as int - 0x80);
        assert Utf8Tail(t) == Utf8Tail(t[..2]) * 64 + (t[2] as int - 0x80);
      }
    }
  }

  lemma Utf8TailOne(t: seq<nat>)
    requires |t| == 1
    ensures Utf8Tail(t) == t[0] as int - 0x80
  {
    assert t[..0] == [];
  }

  /** An upper-case hexadecimal digit, as the url crate writes them. */
  function UpperHexDigit(d: nat): (c: char)
    requires d < 16
    ensures IsHexDigit(c) && HexValue(c) == d && !InPathEncodeSet(c)
    ensures c != '%' && c != '/' && c != '\\'
  {
    if d < 10 then ('0' as int + d) as char else ('A' as int + d - 10) as char
  }

  /** A byte written as '%' and two upper-case hexadecimal digits. */
  function PercentEncodeByte(b: nat): (r: string)
    requires b < 256
    ensures |r| == 3 && r[0] == '%' && IsHexDigit(r[1]) && IsHexDigit(r[2])
    ensures HexValue(r[1]) * 16 + HexValue(r[2]) == b
  {
    ['%', UpperHexDigit(b / 16), UpperHexDigit(b % 16)]
  }

  function PercentEncodeBytes(bytes: seq<nat>): (r: string)
    requires forall k :: 0 <= k < |bytes| ==> bytes[k] < 256
    ensures |r| == 3 * |bytes| && IsEncoded(r)
    ensures '/' !in r && '\\' !in r
  {
    if bytes == [] then [] else PercentEncodeByte(bytes[0]) + PercentEncodeBytes(bytes[1..])
  }

  /** One code point of a path: itself, or the percent-encoding of its UTF-8
      bytes when it is in the path percent-encode set. */
  function EncodePathChar(c: char): (r: string)
    ensures !InPathEncodeSet(c) <==> r == [c]
    ensures InPathEncodeSet(c) ==> |r| == 3 * |Utf8(c)| && r[0] == '%'
    ensures IsEncoded(r)
  {
    if InPathEncodeSet(c) then PercentEncodeBytes(Utf8(c)) else [c]
  }

  /** The path percent-encoding of `s`, code point by code point. */
  function PathPercentEncode(s: string): (r: string)
    ensures IsEncoded(r) && |r| >= |s|
    ensures r == s <==> IsEncoded(s)
    ensures '/' !in s ==> '/' !in r
    ensures '\\' !in s ==> '\\' !in r
  {
    if s == [] then []
    else
      var r := EncodePathChar(s[0]) + PathPercentEncode(s[1..]);
      assert IsEncoded(s) <==> !InPathEncodeSet(s[0]) && IsEncoded(s[1..]);
      r
  }

  /** Percent-decoding undoes the encoding of ASCII text that holds no '%'. */
  lemma {:induction false} DecodeEncodedPath(s: string)
    requires '%' !in s && forall k :: 0 <= k < |s| ==> s[k] < '\U{80}'
    ensures PercentDecode(PathPercentEncode(s)) == s
  {
    if s != [] {
      var rest := PathPercentEncode(s[1..]);
      assert PathPercentEncode(s) == EncodePathChar(s[0]) + rest;
      DecodeEncodedPath(s[1..]);
      DecodeEncodedChar(s[0], rest);
    }
  }

  /** Percent-decoding reads one encoded ASCII code point back. */
  lemma DecodeEncodedChar(c: char, rest: string)
    requires c != '%' && c < '\U{80}'
    ensures PercentDecode(EncodePathChar(c) + rest) == [c] + PercentDecode(rest)
  {
    var e := EncodePathChar(c);
    var t := e + rest;
    if InPathEncodeSet(c) {
      assert Utf8(c) == [c as int];
      assert e == PercentEncodeByte(c as int);
      assert t[..3] == e && t[3..] == rest;
    } else {
      assert t[0] == c && t[1..] == rest;
    }
  }

  /** `.` or its percent-encoded spelling, in either case. */
  predicate IsSingleDotSegment(s: string) {
    var t := AsciiLowercase(s);
    t == "." || t == "%2e"
  }

  /** `..` with either dot possibly percent-encoded, in either case. */
  predicate IsDoubleDotSegment(s: string) {
    var t := AsciiLowercase(s);
    t == ".." || t == ".%2e" || t == "%2e." || t == "%2e%2e"
  }

  predicate IsDotSegment(s: string) {
    IsSingleDotSegment(s) || IsDoubleDotSegment(s)
  }

  /** A segment of a normalised path: encoded, free of slashes, and not a dot segment. */
  predicate IsCleanSegment(s: string) {
    IsEncoded(s) && '/' !in s && '\\' !in s && !IsDotSegment(s)
  }

  /** The path state at the end of one piece (`last` when it ends the path):
      the piece is percent-encoded; `..` removes the segment before it and
      `.` adds nothing, except that either leaves an empty last segment when
      it ends the path; any other piece becomes the next segment. */
  function PathStep(segments: seq<string>, piece: string, last: bool): (r: seq<string>)
    ensures last ==> r != []
  {
    var buffer := PathPercentEncode(piece);
    if IsDoubleDotSegment(buffer) then
      (if segments == [] then [] else segments[..|segments| - 1]) + (if last then [""] else [])
    else if IsSingleDotSegment(buffer) then segments + (if last then [""] else [])
    else segments + [buffer]
  }

  /** The segments after walking through `pieces`, the last of which ends the path. */
  function PathSegments(segments: seq<string>, pieces: seq<string>): (r: seq<string>)
    ensures pieces != [] ==> r != []
    decreases |pieces|
  {
    if pieces == [] then segments
    else
      PathSegments(PathStep(segments, pieces[0], |pieces| == 1), pieces[1..])
  }

  /** A step keeps every segment clean: what it appends is an encoded piece
      that is not a dot segment, or the empty segment. */
  lemma StepKeepsClean(segments: seq<string>, piece: string, last: bool)
    requires forall i :: 0 <= i < |segments| ==> IsCleanSegment(segments[i])
    requires '/' !in piece && '\\' !in piece
    ensures var r := PathStep(segments, piece, last);
      forall i :: 0 <= i < |r| ==> IsCleanSegment(r[i])
  {
    assert !IsDotSegment([]);
  }

  /** Every segment the walk leaves is clean. */
  lemma {:induction false} SegmentsClean(segments: seq<string>, pieces: seq<string>)
    requires forall i :: 0 <= i < |segments| ==> IsCleanSegment(segments[i])
    requires forall i :: 0 <= i < |pieces| ==> '/' !in pieces[i] && '\\' !in pieces[i]
    ensures forall i :: 0 <= i < |PathSegments(segments, pieces)| ==> IsCleanSegment(PathSegments(segments, pieces)[i])
    decreases |pieces|
  {
    if pieces != [] {
      assert PathSegments(segments, pieces) == PathSegments(PathStep(segments, pieces[0], |pieces| == 1), pieces[1..]);
      StepKeepsClean(segments, pieces[0], |pieces| == 1);
      SegmentsClean(PathStep(segments, pieces[0], |pieces| == 1), pieces[1..]);
    }
  }

  /** The serialised path of a special URL, from the text between its
      authority and its query: the path-start state consumes one leading
      slash or backslash, both separate segments, and the segments left are
      joined after a '/'. */
  function SpecialPath(text: string): (path: string)
    ensures |path| > 0 && path[0] == '/'
  {
    var tail := if text != [] && (text[0] == '/' || text[0] == '\\') then text[1..] else text;
    "/" + JoinWith(PathSegments([], Split(ForwardSlashes(tail), '/')), '/')
  }

  /** A path the parser keeps as it is: after its leading '/', every piece
      between slashes is a clean segment. */
  predicate IsPlainPath(path: string) {
    && |path| > 0 && path[0] == '/'
    && forall piece :: piece in Split(path[1..], '/') ==> IsCleanSegment(piece)
  }

  /** A path as a link may spell it: it starts with '/' and holds no query,
      fragment, tab or newline. */
  predicate IsLinkPath(path: string) {
    |path| > 0 && path[0] == '/' && NoneOf(path, {'?', '#', '\t', '\n', '\r'})
  }

  /** Joining clean segments with '/' leaves nothing to encode and no backslash. */
  lemma JoinClean(parts: seq<string>)
    requires forall i :: 0 <= i < |parts| ==> IsCleanSegment(parts[i])
    ensures IsEncoded(JoinWith(parts, '/')) && '\\' !in JoinWith(parts, '/')
  {
    JoinEncoded(parts);
  }

  lemma {:induction false} JoinEncoded(parts: seq<string>)
    requires forall i :: 0 <= i < |parts| ==> IsEncoded(parts[i]) && '\\' !in parts[i]
    ensures IsEncoded(JoinWith(parts, '/')) && '\\' !in JoinWith(parts, '/')
  {
    if |parts| > 1 {
      JoinEncoded(parts[1..]);
      var a := parts[0];
      var b := JoinWith(parts[1..], '/');
      var j := a + ['/'] + b;
      assert j == JoinWith(parts, '/');
      forall k | 0 <= k < |j|
        ensures !InPathEncodeSet(j[k]) && j[k] != '\\'
      {
        if k < |a| {
          assert j[k] == a[k];
        } else if k > |a| {
          assert j[k] == b[k - |a| - 1];
        }
      }
    }
  }

  /** Clean pieces pass through the path state unchanged. */
  lemma {:induction false} CleanPieces(segments: seq<string>, pieces: seq<string>)
    requires forall i :: 0 <= i < |pieces| ==> IsCleanSegment(pieces[i])
    ensures PathSegments(segments, pieces) == segments + pieces
    decreases |pieces|
  {
    if pieces != [] {
      assert PathSegments(segments, pieces) == PathSegments(PathStep(segments, pieces[0], |pieces| == 1), pieces[1..]);
      CleanStep(segments, pieces[0], |pieces| == 1);
      CleanPieces(segments + [pieces[0]], pieces[1..]);
      assert segments + [pieces[0]] + pieces[1..] == segments + pieces;
    }
  }

  lemma CleanStep(segments: seq<string>, piece: string, last: bool)
    requires IsCleanSegment(piece)
    ensures PathStep(segments, piece, last) == segments + [piece]
  {
    assert PathPercentEncode(piece) == piece;
  }

  /** A path of two pieces walks through two steps. */
  lemma TwoPieces(dir: string, last: string)
    requires '/' !in dir && '\\' !in dir && '/' !in last && '\\' !in last
    ensures SpecialPath("/" + dir + "/" + last)
         == "/" + JoinWith(PathStep(PathStep([], dir, false), last, true), '/')
  {
    var tail := dir + ['/'] + last;
    assert ("/" + dir + "/" + last)[1..] == tail;
    assert '\\' !in tail;
    ForwardSlashesUnchanged(tail);
    SplitFirst(dir, '/', last);
    SplitNoSep(last, '/');
    var pieces := [dir, last];
    assert Split(tail, '/') == pieces;
    assert PathSegments([], pieces) == PathSegments(PathStep([], dir, false), [last]);
  }

  /** Text that starts with neither '.' nor '%' is no dot segment. */
  lemma NotDotSegment(s: string)
    requires s != [] && s[0] != '.' && s[0] != '%'
    ensures !IsDotSegment(s)
  {
    assert AsciiLowercase(s)[0] == AsciiLower(s[0]);
  }

  /** A piece that encodes to no dot segment becomes the next segment. */
  lemma EncodedStep(segments: seq<string>, piece: string, last: bool)
    requires !IsDotSegment(PathPercentEncode(piece))
    ensures PathStep(segments, piece, last) == segments + [PathPercentEncode(piece)]
  {
  }

  /** The last piece of a two-piece path is percent-encoded. */
  lemma EncodedLastPiece(dir: string, last: string)
    requires IsCleanSegment(dir)
    requires '/' !in last && '\\' !in last && !IsDotSegment(PathPercentEncode(last))
    ensures SpecialPath("/" + dir + "/" + last) == "/" + dir + "/" + PathPercentEncode(last)
  {
    TwoPieces(dir, last);
    EncodedPieces(dir, last);
    TwoSegmentJoin(dir, PathPercentEncode(last));
  }

  lemma EncodedPieces(dir: string, last: string)
    requires IsCleanSegment(dir) && !IsDotSegment(PathPercentEncode(last))
    ensures PathStep(PathStep([], dir, false), last, true) == [dir, PathPercentEncode(last)]
  {
    CleanStep([], dir, false);
    assert PathStep([], dir, false) == [dir];
    EncodedStep([dir], last, true);
  }

  lemma TwoSegmentJoin(dir: string, last: string)
    ensures "/" + JoinWith([dir, last], '/') == "/" + dir + "/" + last
  {
    JoinTwo(dir, '/', last);
  }

  /** A trailing ".." of a two-piece path leaves the empty path "/". */
  lemma DotDotLastPiece(dir: string, last: string)
    requires IsCleanSegment(dir) && PathPercentEncode(last) == ".."
    requires '/' !in last && '\\' !in last
    ensures SpecialPath("/" + dir + "/" + last) == "/"
  {
    TwoPieces(dir, last);
    CleanStep([], dir, false);
    assert [] + [dir] == [dir];
    assert AsciiLowercase("..") == "..";
    assert PathStep([dir], last, true) == [""];
  }

  /** The last segment of such a path is the encoded last piece. */
  lemma EncodedLastSegment(dir: string, last: string)
    requires IsCleanSegment(dir)
    requires '/' !in last && '\\' !in last && !IsDotSegment(PathPercentEncode(last))
    ensures AfterLast(SpecialPath("/" + dir + "/" + last)[1..], '/') == PathPercentEncode(last)
  {
    var encoded := PathPercentEncode(last);
    EncodedLastPiece(dir, last);
    SlashTail(dir, encoded);
    AfterLastOfJoin(dir, '/', encoded);
  }

  lemma SlashTail(dir: string, last: string)
    ensures ("/" + dir + "/" + last)[1..] == dir + ['/'] + last
  {
  }

  /** ".." as the last piece leaves the path "/", whose last segment is empty. */
  lemma DotDotLastSegment(dir: string)
    requires IsCleanSegment(dir)
    ensures AfterLast(SpecialPath("/" + dir + "/" + "..")[1..], '/') == ""
  {
    assert PathPercentEncode("..") == "..";
    DotDotLastPiece(dir, "..");
  }

  lemma DotDotIsLinkSegment()
    ensures NoneOf("..", {'?', '#', '\t', '\n', '\r'})
  {
  }

  /** A space in a path is written as "%20". */
  lemma SpaceInPathExample()
    ensures SpecialPath("/" + "x" + "/" + "a b") == "/" + "x" + "/" + "a%20b"
  {
    SpaceEncoded();
    NotDotSegment("x");
    NotDotSegment("a%20b");
    EncodedLastPiece("x", "a b");
  }

  lemma SpaceEncoded()
    ensures PathPercentEncode("a b") == "a%20b"
  {
    assert EncodePathChar(' ') == PercentEncodeByte(32) == "%20";
    assert PathPercentEncode("b") == "b";
    assert PathPercentEncode(" b") == "%20b";
  }

  /** A trailing ".." removes the segment before it and leaves the path "/". */
  lemma DotDotPathExample()
    ensures SpecialPath("/" + "x" + "/" + "..") == "/"
  {
    NotDotSegment("x");
    assert PathPercentEncode("..") == "..";
    DotDotLastPiece("x", "..");
  }

  /** A plain path is serialised as it is written, and a link may spell it. */
  lemma PlainPathUnchanged(path: string)
    requires IsPlainPath(path)
    ensures IsLinkPath(path)
    ensures SpecialPath(path) == path
  {
    var tail := path[1..];
    var pieces := Split(tail, '/');
    PlainPathText(path);
    ForwardSlashesUnchanged(tail);
    CleanPieces([], pieces);
    assert [] + pieces == pieces;
    SplitJoin(tail, '/');
  }

  /** The text of a plain path needs no encoding and holds no backslash. */
  lemma PlainPathText(path: string)
    requires IsPlainPath(path)
    ensures IsLinkPath(path) && NoneOf(path[1..], {'\\'})
    ensures forall i :: 0 <= i < |Split(path[1..], '/')| ==> IsCleanSegment(Split(path[1..], '/')[i])
  {
    PlainPieces(path);
    PlainTail(path[1..]);
    EncodedLinkPath(path);
  }

  lemma PlainPieces(path: string)
    requires IsPlainPath(path)
    ensures forall i :: 0 <= i < |Split(path[1..], '/')| ==> IsCleanSegment(Split(path[1..], '/')[i])
  {
    var pieces := Split(path[1..], '/');
    assert forall i :: 0 <= i < |pieces| ==> pieces[i] in pieces;
  }

  lemma PlainTail(tail: string)
    requires forall i :: 0 <= i < |Split(tail, '/')| ==> IsCleanSegment(Split(tail, '/')[i])
    ensures IsEncoded(tail) && NoneOf(tail, {'\\'})
  {
    SplitJoin(tail, '/');
    JoinClean(Split(tail, '/'));
  }

  /** A path whose text after the first '/' is encoded may stand in a link. */
  lemma EncodedLinkPath(path: string)
    requires path != [] && path[0] == '/' && IsEncoded(path[1..])
    ensures IsLinkPath(path)
  {
    forall k | 0 <= k < |path|
      ensures path[k] !in {'?', '#', '\t', '\n', '\r'}
    {
      if k > 0 {
        assert path[k] == path[1..][k - 1];
      }
    }
  }

  /** The parser's path is always plain: every segment is encoded and none
      is a dot segment. */
  lemma SpecialPathIsPlain(text: string)
    ensures IsPlainPath(SpecialPath(text))
  {
    var tail := if text != [] && (text[0] == '/' || text[0] == '\\') then text[1..] else text;
    var pieces := Split(ForwardSlashes(tail), '/');
    var segments := PathSegments([], pieces);
    assert forall i :: 0 <= i < |pieces| ==> '\\' !in pieces[i];
    SegmentsClean([], pieces);
    assert |pieces| >= 1;
    assert |segments| >= 1;
    assert forall i :: 0 <= i < |segments| ==> IsCleanSegment(segments[i]);
    assert forall i :: 0 <= i < |segments| ==> '/' !in segments[i];
    SplitOfJoin(segments, '/');
    assert SpecialPath(text)[1..] == JoinWith(segments, '/');
    assert forall piece :: piece in segments ==> IsCleanSegment(piece);
  }

  /** Parsing the path the parser produced changes nothing. */
  lemma SpecialPathIdempotent(text: string)
    ensures SpecialPath(SpecialPath(text)) == SpecialPath(text)
  {
    SpecialPathIsPlain(text);
    PlainPathUnchanged(SpecialPath(text));
  }

  // ---------------------------------------------------------------------------
  // The parser

  /** After "scheme:" of a special scheme: slashes, authority, path. Only
      `file` URLs may have an empty host. */
  function ParseSpecial(scheme: string, rest: string): (r: Option<Url>)
    ensures r.Some? ==> r.value.scheme == scheme && r.value.host.Some?
  {
    var authority := SplitAt(DropLeading(rest, {'/', '\\'}), {'/', '\\', '?', '#'});
    var hostPort := HostAndPort(authority.0);
    if !IsValidPort(hostPort.1) then None
    else
      var host :- if hostPort.0 == [] then (if scheme == "file" then Some(EmptyHost) else None)
                  else SpecialHost(hostPort.0);
      Some(Url(scheme, Some(host), SpecialPath(PathOf(authority.1))))
  }

  /** After "scheme:" of any other scheme: a host only after "//". */
  function ParseOther(scheme: string, rest: string): (r: Option<Url>)
    ensures r.Some? ==> r.value.scheme == scheme
  {
    if |rest| >= 2 && rest[..2] == "//" then
      var authority := SplitAt(rest[2..], {'/', '?', '#'});
      var hostPort := HostAndPort(authority.0);
      if !IsValidPort(hostPort.1) then None
      else
        var host :- OtherHost(hostPort.0);
        Some(Url(scheme, Some(host), PathOf(authority.1)))
    else
      Some(Url(scheme, None, PathOf(rest)))
  }

  /** `Url::parse`: an absolute URL; an input without a scheme is a relative
      URL and fails without a base. */
  function Parse(input: string): (r: Option<Url>)
    ensures r.Some? ==> HasScheme(Preprocess(input))
  {
    var s := Preprocess(input);
    if !HasScheme(s) then None
    else
      var colon := FirstOf(s, {':'});
      var scheme := AsciiLowercase(s[..colon]);
      var rest := s[colon + 1..];
      if scheme in SPECIAL_SCHEMES then ParseSpecial(scheme, rest) else ParseOther(scheme, rest)
  }

  /** `Url::domain`: the host when it is a domain (or a non-special URL's
      opaque host), not an IP address and not empty. */
  function Domain(u: Url): (r: Option<string>)
    ensures r.Some? <==> u.host.Some? && (u.host.value.DomainHost? || u.host.value.OpaqueHost?)
    ensures r.Some? ==> r.value == u.host.value.name
  {
    match u.host
    case Some(DomainHost(name)) => Some(name)
    case Some(OpaqueHost(name)) => Some(name)
    case _ => None
  }

  /** The last path segment; a URL whose path does not start with '/' cannot be a base and has none. */
  function LastPathSegment(u: Url): (r: Option<string>)
    ensures r.Some? <==> |u.path| > 0 && u.path[0] == '/'
    ensures r.Some? ==> '/' !in r.value && |r.value| < |u.path| && r.value == u.path[|u.path| - |r.value|..]
  {
    if |u.path| > 0 && u.path[0] == '/' then
      var segment := AfterLast(u.path[1..], '/');
      assert u.path[1..][|u.path| - 1 - |segment|..] == u.path[|u.path| - |segment|..];
      Some(segment)
    else None
  }

  // ---------------------------------------------------------------------------
  // Properties

  /** An input without ':' has no scheme, so it never parses as an absolute URL. */
  lemma NoColonNoUrl(input: string)
    requires ':' !in input
    ensures Parse(input) == None
  {
    PreprocessAddsNothing(input, ':');
  }

  lemma DropTwoSlashes(s: string)
    requires s != [] && s[0] != '/' && s[0] != '\\'
    ensures DropLeading("//" + s, {'/', '\\'}) == s
  {
    DropTwoLeading('/', '/', s, {'/', '\\'});
  }

  lemma DropTwoLeading(a: char, b: char, s: string, cs: set<char>)
    requires a in cs && b in cs && s != [] && s[0] !in cs
    ensures DropLeading([a, b] + s, cs) == s
  {
    var t := [a, b] + s;
    assert t[0] == a && t[1..] == [b] + s;
    assert t[1..][0] == b && t[1..][1..] == s;
    assert DropLeading(s, cs) == s;
    assert DropLeading(t[1..], cs) == DropLeading(s, cs);
  }

  lemma PathBeforeQuery(path: string, query: string)
    requires NoneOf(path, {'?', '#'})
    ensures PathOf(path + "?" + query) == path
  {
    assert path + "?" + query == path + ("?" + query);
    SplitAtJoin(path, "?" + query, {'?', '#'});
  }

  lemma {:induction false} HostEndNoColon(s: string)
    requires NoneOf(s, {':', '['})
    ensures HostEnd(s, false) == |s|
  {
    if s != [] {
      HostEndNoColon(s[1..]);
    }
  }

  lemma HostWithoutUserOrPort(host: string)
    requires NoneOf(host, {'@', ':', '['})
    ensures HostAndPort(host) == (host, [])
  {
    AfterLastNoSep(host, '@');
    HostEndNoColon(host);
    assert host[..|host|] == host;
  }

  lemma ForwardSlashesUnchanged(s: string)
    requires NoneOf(s, {'\\'})
    ensures ForwardSlashes(s) == s
  {
  }

  /** What a host may be written as in the lemmas below: no character that
      ends an authority, brackets it, or starts user info or a port. */
  predicate IsAuthorityHost(host: string) {
    host != [] && NoneOf(host, {'/', '\\', '?', '#', '@', ':', '['})
  }

  /** The part of an input after its path that the parser keeps as it is:
      no tab or newline, and no trailing C0 control or space. */
  predicate IsPlainQuery(query: string) {
    (forall k :: 0 <= k < |query| ==> !IsTabOrNewline(query[k]))
    && (query == [] || !IsC0OrSpace(query[|query| - 1]))
  }

  /** Everything after the authority of a special URL, up to the query, is
      its path, and the authority is its host. */
  lemma {:induction false} ParseSpecialAuthority(host: string, path: string, query: string)
    requires IsAuthorityHost(host)
    requires IsLinkPath(path)
    ensures ParseSpecial("https", "//" + host + path + "?" + query)
         == match SpecialHost(host)
            case None => None
            case Some(h) => Some(Url("https", Some(h), SpecialPath(path)))
  {
    var afterAuth := path + "?" + query;
    var afterSlashes := host + afterAuth;
    var rest := "//" + host + path + "?" + query;
    assert rest == "//" + afterSlashes;
    assert host[0] in host;
    DropTwoSlashes(afterSlashes);
    SplitAtJoin(host, afterAuth, {'/', '\\', '?', '#'});
    HostWithoutUserOrPort(host);
    assert IsValidPort([]);
    PathBeforeQuery(path, query);
  }

  lemma HttpsScheme(rest: string)
    ensures HasScheme("https:" + rest) && FirstOf("https:" + rest, {':'}) == 5
    ensures ("https:" + rest)[..5] == "https" && ("https:" + rest)[6..] == rest
  {
    assert "https:" + rest == "https" + (":" + rest);
    FirstOfJoin("https", ":" + rest, {':'});
  }

  /** A host, path and query without tabs or newlines, assembled into an
      https link, are read by the parser as they are. */
  lemma PlainLinkUnchanged(host: string, path: string, query: string)
    requires forall k :: 0 <= k < |host| ==> !IsTabOrNewline(host[k])
    requires forall k :: 0 <= k < |path| ==> !IsTabOrNewline(path[k])
    requires IsPlainQuery(query)
    ensures Preprocess("https://" + host + path + "?" + query) == "https://" + host + path + "?" + query
  {
    var input := "https://" + host + path + "?" + query;
    assert input == "https://" + (host + (path + ("?" + query)));
    assert input[0] == 'h';
    assert input[|input| - 1] == if query == [] then '?' else query[|query| - 1];
    forall k | 0 <= k < |input|
      ensures !IsTabOrNewline(input[k])
    {
      if k < 8 {
      } else if k < 8 + |host| {
        assert input[k] == host[k - 8];
      } else if k < 8 + |host| + |path| {
        assert input[k] == path[k - 8 - |host|];
      } else if k > 8 + |host| + |path| {
        assert input[k] == query[k - 9 - |host| - |path|];
      }
    }
    PreprocessUnchanged(input);
  }

  /** "https://host/path?query" parses exactly when its host does, to that
      host and path; the query plays no part. */
  lemma ParseHttpsHost(host: string, path: string, query: string)
    requires IsAuthorityHost(host) && forall k :: 0 <= k < |host| ==> !IsTabOrNewline(host[k])
    requires IsLinkPath(path)
    requires IsPlainQuery(query)
    ensures Parse("https://" + host + path + "?" + query)
         == match SpecialHost(host)
            case None => None
            case Some(h) => Some(Url("https", Some(h), SpecialPath(path)))
  {
    var rest := "//" + host + path + "?" + query;
    assert "https://" + host + path + "?" + query == "https:" + rest;
    PlainLinkUnchanged(host, path, query);
    ParseHttpsRest(rest);
    ParseSpecialAuthority(host, path, query);
  }

  /** An https input the parser reads as it is goes to the special-scheme parser. */
  lemma ParseHttpsRest(rest: string)
    requires Preprocess("https:" + rest) == "https:" + rest
    ensures Parse("https:" + rest) == ParseSpecial("https", rest)
  {
    HttpsScheme(rest);
    AsciiLowercaseOfLower("https");
  }

  /** A name of lower-case letters, digits, '-' and '.', with no label in
      the Punycode form "xn--", which IDNA would decode and check. */
  predicate IsLdhName(host: string) {
    && host != []
    && (forall k :: 0 <= k < |host| ==> IsLowerLdh(host[k]))
    && !HasAceLabel(host)
  }

  /** A label starting at `k` begins with the ACE prefix "xn--". */
  predicate IsAceLabelStart(host: string, k: int) {
    && 0 <= k && k + 4 <= |host|
    && (k == 0 || host[k - 1] == '.')
    && host[k] == 'x' && host[k + 1] == 'n' && host[k + 2] == '-' && host[k + 3] == '-'
  }

  predicate HasAceLabel(host: string) {
    exists k :: 0 <= k < |host| && IsAceLabelStart(host, k)
  }

  /** A name in which no 'x' starts a label has no "xn--" label. */
  lemma NoAceLabel(host: string)
    requires forall k :: 0 <= k < |host| && host[k] == 'x' ==> k > 0 && host[k - 1] != '.'
    ensures !HasAceLabel(host)
  {
  }

  /** A label written "xn--…", first or after a dot, makes a name that is
      not plain: IDNA would decode it, so the model does not claim to parse it. */
  lemma AceLabelNotPlain(before: string, rest: string)
    requires before == [] || before[|before| - 1] == '.'
    ensures HasAceLabel(before + "xn--" + rest)
    ensures !IsLdhName(before + "xn--" + rest) && !IsPlainHost(before + "xn--" + rest)
  {
    var host := before + "xn--" + rest;
    assert IsAceLabelStart(host, |before|);
  }

  /** A plain domain: such a name that does not end in a number. */
  predicate IsPlainHost(host: string) {
    IsLdhName(host) && !EndsInANumber(host)
  }

  predicate IsLowerLdh(c: char) {
    'a' <= c <= 'z' || IsDigit(c) || c == '-' || c == '.'
  }

  lemma LdhChar(c: char)
    requires IsLowerLdh(c)
    ensures !IsForbiddenDomainChar(c) && !IsAsciiUpper(c) && !IsTabOrNewline(c)
    ensures c !in {'/', '\\', '?', '#', '@', ':', '['} && c != '%'
  {
  }

  /** Such a name is left as it is by percent-decoding and lower-casing,
      and holds no forbidden code point. */
  lemma LdhNameUnchanged(host: string)
    requires IsLdhName(host)
    ensures IsAuthorityHost(host) && forall k :: 0 <= k < |host| ==> !IsTabOrNewline(host[k])
    ensures AsciiLowercase(PercentDecode(host)) == host && !HasForbiddenDomainChar(host)
  {
    LdhChars(host);
    NothingToDecode(host);
    AsciiLowercaseOfLower(host);
  }

  lemma LdhChars(host: string)
    requires IsLdhName(host)
    ensures forall k :: 0 <= k < |host| ==> !IsForbiddenDomainChar(host[k]) && !IsAsciiUpper(host[k])
    ensures forall k :: 0 <= k < |host| ==> !IsTabOrNewline(host[k]) && host[k] != '%'
    ensures IsAuthorityHost(host)
  {
    forall k | 0 <= k < |host|
      ensures !IsForbiddenDomainChar(host[k]) && !IsAsciiUpper(host[k]) && !IsTabOrNewline(host[k])
      ensures host[k] !in {'/', '\\', '?', '#', '@', ':', '['} && host[k] != '%'
    {
      LdhChar(host[k]);
    }
  }

  /** A plain domain is its own host. */
  lemma PlainDomainHost(host: string)
    requires IsPlainHost(host)
    ensures IsAuthorityHost(host) && forall k :: 0 <= k < |host| ==> !IsTabOrNewline(host[k])
    ensures SpecialHost(host) == Some(DomainHost(host))
  {
    LdhNameUnchanged(host);
    assert host[0] != '[';
  }

  /** "https://host/path?query" with a plain lower-case domain host parses to that host and path. */
  lemma ParseHttps(host: string, path: string, query: string)
    requires IsPlainHost(host)
    requires IsLinkPath(path)
    requires IsPlainQuery(query)
    ensures Parse("https://" + host + path + "?" + query) == Some(Url("https", Some(DomainHost(host)), SpecialPath(path)))
  {
    PlainDomainHost(host);
    ParseHttpsHost(host, path, query);
  }

  /** A decimal label too large for an IPv4 address, followed by a dot: the
      host ends in a number, so it must be an IPv4 address, and is none. */
  lemma OversizedNumberHost(digits: string)
    requires digits != [] && '1' <= digits[0] <= '9' && AllDigits(digits)
    requires AllRadixDigits(digits, 10) && RadixValue(digits, 10) >= Pow(256, 4)
    ensures IsLdhName(digits + ".")
    ensures EndsInANumber(digits + ".") && Ipv4Parse(digits + ".") == None
    ensures SpecialHost(digits + ".") == None
  {
    var host := digits + ".";
    forall k | 0 <= k < |host|
      ensures IsLowerLdh(host[k]) && host[k] != 'x'
    {
      if k < |digits| {
        assert host[k] == digits[k];
      }
    }
    NoAceLabel(host);
    OversizedNumberSplit(digits);
    OversizedIpv4(digits);
    LdhNameUnchanged(host);
  }

  lemma OversizedNumberSplit(digits: string)
    requires digits != [] && AllDigits(digits)
    ensures Split(digits + ".", '.') == [digits, []]
    ensures EndsInANumber(digits + ".")
  {
    var host := digits + ".";
    assert host[..|host| - 1] == digits;
    assert '.' !in digits by {
      forall k | 0 <= k < |digits|
        ensures digits[k] != '.'
      {
        assert IsDigit(digits[k]);
      }
    }
    AfterLastNoSep(digits, '.');
    SplitFirst(digits, '.', []);
    assert host == digits + ['.'] + [];
  }

  lemma OversizedIpv4(digits: string)
    requires digits != [] && '1' <= digits[0] <= '9'
    requires AllRadixDigits(digits, 10) && RadixValue(digits, 10) >= Pow(256, 4)
    requires Split(digits + ".", '.') == [digits, []]
    ensures Ipv4Parse(digits + ".") == None
  {
    assert [digits, []][..1] == [digits];
    assert Ipv4Number(digits) == Some(RadixValue(digits, 10));
    assert [digits][1..] == [];
    assert Ipv4Numbers([]) == Some([]);
    assert [RadixValue(digits, 10)] + [] == [RadixValue(digits, 10)];
    assert Ipv4Numbers([digits]) == Some([RadixValue(digits, 10)]);
  }

  /** A number before a trailing dot still makes the host end in a number:
      "1." and "0x1." are read as IPv4 addresses. */
  lemma TrailingDotNumbers(d: char)
    requires IsDigit(d)
    ensures EndsInANumber([d] + ".") && EndsInANumber("0x" + [d] + ".")
  {
    TrailingDotDecimal(d);
    TrailingDotHex(d);
  }

  lemma TrailingDotDecimal(d: char)
    requires IsDigit(d)
    ensures EndsInANumber([d] + ".")
  {
    TrailingDotLabel([d]);
    assert AllDigits([d]);
  }

  lemma TrailingDotHex(d: char)
    requires IsDigit(d)
    ensures EndsInANumber("0x" + [d] + ".")
  {
    var part := "0x" + [d];
    assert part == ['0', 'x', d];
    HexNumberLabel(d);
    TrailingDotLabel(part);
    assert IsNumericLabel(part);
  }

  /** "0x" and one hexadecimal digit is an IPv4 number. */
  lemma HexNumberLabel(d: char)
    requires IsHexDigit(d)
    ensures Ipv4Number("0x" + [d]) == Some(HexValue(d))
  {
    var part := "0x" + [d];
    assert part[2..] == [d];
    assert [d][..0] == [];
    assert RadixValue([d], 16) == RadixValue([], 16) * 16 + HexValue(d);
  }

  lemma TrailingDotLabel(last: string)
    requires last != [] && '.' !in last
    ensures AfterLast(last + ".", '.') == []
    ensures EndsInANumber(last + ".") == IsNumericLabel(last)
  {
    var host := last + ".";
    assert host[..|host| - 1] == last;
    AfterLastNoSep(last, '.');
  }

  /** A decimal number is at least its leading digit times the weight of
      that digit's place. */
  lemma {:induction false} RadixValueAtLeast(s: string)
    requires s != [] && AllRadixDigits(s, 10)
    ensures RadixValue(s, 10) >= HexValue(s[0]) * Pow10(|s| - 1)
  {
    if |s| > 1 {
      var init := s[..|s| - 1];
      assert init[0] == s[0];
      RadixValueAtLeast(init);
      var v, lead, w := RadixValue(init, 10), HexValue(s[0]), Pow10(|s| - 2);
      assert RadixValue(s, 10) == v * 10 + HexValue(s[|s| - 1]);
      assert Pow10(|s| - 1) == 10 * w;
      ScaleBound(v, lead, w);
    }
  }

  lemma ScaleBound(v: nat, lead: nat, w: nat)
    requires v >= lead * w
    ensures v * 10 >= lead * (10 * w)
  {
    assert lead * (10 * w) == (lead * w) * 10;
  }

  /** So a link whose host is such a number and a dot does not parse. */
  lemma OversizedNumberLink(digits: string, path: string, query: string)
    requires digits != [] && '1' <= digits[0] <= '9' && AllDigits(digits)
    requires AllRadixDigits(digits, 10) && RadixValue(digits, 10) >= Pow(256, 4)
    requires IsLinkPath(path)
    requires IsPlainQuery(query)
    ensures Parse("https://" + (digits + ".") + path + "?" + query) == None
  {
    OversizedNumberHost(digits);
    LdhNameUnchanged(digits + ".");
    ParseHttpsHost(digits + ".", path, query);
  }

  /** A host holding a code point no domain may hold (a space, say) makes
      the whole input fail to parse. */
  lemma RefusedHost(host: string, path: string, query: string, k: nat)
    requires IsAuthorityHost(host) && forall k :: 0 <= k < |host| ==> !IsTabOrNewline(host[k])
    requires '%' !in host
    requires k < |host| && IsForbiddenDomainChar(host[k])
    requires IsLinkPath(path)
    requires IsPlainQuery(query)
    ensures Parse("https://" + host + path + "?" + query) == None
  {
    assert AsciiLowercase(PercentDecode(host))[k] == host[k];
    ParseHttpsHost(host, path, query);
  }
}
