/**
 File URIs carried from one root to another (crates/nrm-sidecar/src/lsp_rewrite.rs),
 with percent-encoding (section 2.1 of RFC 3986) on bytes.
 */
module LspUris {
  import opened Protocol
  import opened LspText

  const PERCENT: Byte := 0x25
  const QUERY: Byte := 0x3F
  const FRAGMENT: Byte := 0x23
  /** `file://`. */
  const FILE: Bytes := [0x66, 0x69, 0x6C, 0x65, 0x3A, 0x2F, 0x2F]

  // ---- percent-encoding -----------------------------------------------------------------------

  function HexValue(b: Byte): (r: Option<nat>)
    ensures r.Some? ==> r.value < 16
  {
    if 0x30 <= b <= 0x39 then Some(b - 0x30)
    else if 0x61 <= b <= 0x66 then Some(b - 0x61 + 10)
    else if 0x41 <= b <= 0x46 then Some(b - 0x41 + 10)
    else None
  }

  function HexDigit(n: nat): (b: Byte)
    requires n < 16
    ensures HexValue(b) == Some(n)
  {
    if n < 10 then 0x30 + n else 0x41 + n - 10
  }

  predicate Plain(b: Byte) {
    || Letter(b) || 0x30 <= b <= 0x39
    || b == SLASH || b == COLON || b == 0x2D || b == 0x5F || b == DOT || b == 0x7E
  }

  function EncodedByte(b: Byte): Bytes {
    if Plain(b) then [b] else [PERCENT, HexDigit(b / 16), HexDigit(b % 16)]
  }

  function Encode(s: Bytes): Bytes {
    if s == [] then [] else EncodedByte(s[0]) + Encode(s[1..])
  }

  function Prefixed(s: Bytes, rest: Option<Bytes>): Option<Bytes> {
    if rest.Some? then Some(s + rest.value) else None
  }

  function Decode(s: Bytes): Option<Bytes>
    decreases |s|
  {
    if s == [] then Some([])
    else if s[0] != PERCENT then Prefixed([s[0]], Decode(s[1..]))
    else if |s| >= 3 && HexValue(s[1]).Some? && HexValue(s[2]).Some?
    then Prefixed([16 * HexValue(s[1]).value + HexValue(s[2]).value], Decode(s[3..]))
    else None
  }

  lemma PrefixedTwice(a: Bytes, b: Bytes, rest: Option<Bytes>)
    ensures Prefixed(a, Prefixed(b, rest)) == Prefixed(a + b, rest)
  {
    if rest.Some? {
      assert a + (b + rest.value) == a + b + rest.value;
    }
  }

  lemma PrefixedByNothing(rest: Option<Bytes>)
    ensures Prefixed([], rest) == rest
  {
    assert rest.Some? ==> [] + rest.value == rest.value;
  }

  /** `strict_percent_decode`. */
  method StrictPercentDecode(input: Bytes) returns (r: Option<Bytes>)
    ensures r == Decode(input)
  {
    var decoded: Bytes := [];
    var index := 0;
    assert input[0..] == input;
    PrefixedByNothing(Decode(input));
    while index < |input|
      invariant index <= |input|
      invariant Prefixed(decoded, Decode(input[index..])) == Decode(input)
    {
      ghost var rest := input[index..];
      if input[index] != PERCENT {
        assert rest[1..] == input[index + 1..];
        PrefixedTwice(decoded, [rest[0]], Decode(rest[1..]));
        decoded := decoded + [input[index]];
        index := index + 1;
        continue;
      }
      var high := if index + 1 < |input| then HexValue(input[index + 1]) else None;
      var low := if index + 2 < |input| then HexValue(input[index + 2]) else None;
      if high.None? || low.None? {
        return None;
      }
      assert rest[3..] == input[index + 3..];
      PrefixedTwice(decoded, [16 * high.value + low.value], Decode(rest[3..]));
      decoded := decoded + [16 * high.value + low.value];
      index := index + 3;
    }
    assert input[index..] == [] && decoded + [] == decoded;
    r := Some(decoded);
  }

  lemma DecodeByte(b: Byte, rest: Bytes)
    ensures Decode(EncodedByte(b) + rest) == Prefixed([b], Decode(rest))
  {
    var s := EncodedByte(b) + rest;
    if Plain(b) {
      assert s[1..] == rest;
    } else {
      assert s[1] == HexDigit(b / 16) && s[2] == HexDigit(b % 16) && s[3..] == rest;
    }
  }

  /** Strict decoding inverts the encoding, for every byte string, whatever follows. */
  lemma {:induction false} DecodeEncode(s: Bytes, rest: Bytes)
    ensures Decode(Encode(s) + rest) == Prefixed(s, Decode(rest))
    decreases |s|
  {
    if s == [] {
      assert Encode(s) + rest == rest;
      PrefixedByNothing(Decode(rest));
    } else {
      assert Encode(s) + rest == EncodedByte(s[0]) + (Encode(s[1..]) + rest);
      DecodeByte(s[0], Encode(s[1..]) + rest);
      DecodeEncode(s[1..], rest);
      PrefixedTwice([s[0]], s[1..], Decode(rest));
      assert [s[0]] + s[1..] == s;
    }
  }

  /** Decoding fails exactly where a percent sign is not followed by two hexadecimal digits. */
  lemma {:induction false} DecodeExactly(s: Bytes)
    ensures Decode(s).Some? <==> WellEscaped(s)
    decreases |s|
  {
    if s != [] {
      if s[0] != PERCENT {
        DecodeExactly(s[1..]);
        EscapedBehind(s, 1);
      } else if |s| >= 3 && HexValue(s[1]).Some? && HexValue(s[2]).Some? {
        DecodeExactly(s[3..]);
        EscapedBehind(s, 3);
      }
    }
  }

  lemma EscapedBehind(s: Bytes, n: nat)
    requires n <= |s|
    ensures WellEscaped(s) ==> WellEscaped(s[n..])
    ensures WellEscaped(s[n..]) && WellEscaped(s[..n]) ==> WellEscaped(s)
  {
    if WellEscaped(s[n..]) && WellEscaped(s[..n]) {
      WellEscapedBoth(s[..n], s[n..]);
      assert s[..n] + s[n..] == s;
    }
    if WellEscaped(s) {
      forall i | 0 <= i < |s[n..]| && s[n..][i] == PERCENT
        ensures i + 2 < |s[n..]| && HexValue(s[n..][i + 1]).Some? && HexValue(s[n..][i + 2]).Some?
      {
        assert s[n + i] == PERCENT;
      }
    }
  }

  /** Letters, digits and `/`, `:`, `-`, `_`, `.` and `~` are left as they are; every other byte becomes an escape. */
  lemma EncodesExactly(b: Byte)
    ensures var left := 0x41 <= b <= 0x5A || 0x61 <= b <= 0x7A || 0x30 <= b <= 0x39 || b in {0x2F, 0x3A, 0x2D, 0x5F, 0x2E, 0x7E};
            && (left ==> Encode([b]) == [b])
            && (!left ==> |Encode([b])| == 3 && Encode([b])[0] == 0x25)
  {
    assert [b][1..] == [];
    assert Encode([b]) == EncodedByte(b) + Encode([]);
  }

  predicate UriByte(b: Byte) {
    Plain(b) || b == PERCENT
  }

  lemma {:induction false} EncodeBytes(s: Bytes)
    ensures forall i :: 0 <= i < |Encode(s)| ==> UriByte(Encode(s)[i])
    ensures EndsWith(Encode(s), SLASH) <==> EndsWith(s, SLASH)
    decreases |s|
  {
    if s != [] {
      EncodeBytes(s[1..]);
      var first := EncodedByte(s[0]);
      assert forall i :: 0 <= i < |first| ==> UriByte(first[i]);
      assert Encode(s[1..]) == [] <==> s[1..] == [];
      assert EndsWith(first, SLASH) <==> s[0] == SLASH;
    }
  }

  // ---- URIs ----------------------------------------------------------------------------------

  function FilePath(path: Bytes): Bytes {
    if Style(path) == Windows
    then [SLASH] + seq(|path|, i requires 0 <= i < |path| => if path[i] == BACKSLASH then SLASH else path[i])
    else path
  }

  function Uri(path: Bytes): Bytes {
    FILE + Encode(FilePath(path))
  }

  /** The same without encoding, which is tried second. */
  function RawUri(path: Bytes): Bytes {
    FILE + FilePath(path)
  }

  /** The URI of a Windows path: a slash, the drive, and every backslash a slash. */
  lemma WindowsUri(letter: Byte, slash: Byte, rest: Bytes)
    requires Letter(letter) && (slash == SLASH || slash == BACKSLASH)
    ensures var path := [letter, COLON, slash] + rest;
            var slashed := seq(|rest|, i requires 0 <= i < |rest| => if rest[i] == BACKSLASH then SLASH else rest[i]);
            var start: Bytes := [0x66, 0x69, 0x6C, 0x65, 0x3A, 0x2F, 0x2F];
            && Uri(path) == start + Encode([0x2F, letter, 0x3A, 0x2F] + slashed)
            && RawUri(path) == start + ([0x2F, letter, 0x3A, 0x2F] + slashed)
  {
    var path := [letter, COLON, slash] + rest;
    var slashed := seq(|rest|, i requires 0 <= i < |rest| => if rest[i] == BACKSLASH then SLASH else rest[i]);
    assert FilePath(path) == [SLASH, letter, COLON, SLASH] + slashed;
  }

  /** The URI of any other path: the path as it is. */
  lemma PosixUri(path: Bytes)
    requires !(|path| >= 3 && Letter(path[0]) && path[1] == COLON && (path[2] == SLASH || path[2] == BACKSLASH))
    ensures var start: Bytes := [0x66, 0x69, 0x6C, 0x65, 0x3A, 0x2F, 0x2F];
            Uri(path) == start + Encode(path) && RawUri(path) == start + path
  {
  }

  /** A character that counts as white space starts at `i`, in UTF-8. */
  predicate WhitespaceAt(s: Bytes, i: nat)
    requires i < |s|
  {
    || 0x09 <= s[i] <= 0x0D || s[i] == 0x20
    || (i + 1 < |s| && s[i] == 0xC2 && (s[i + 1] == 0x85 || s[i + 1] == 0xA0))
    || (i + 2 < |s| &&
        ( || (s[i] == 0xE1 && s[i + 1] == 0x9A && s[i + 2] == 0x80)
          || (s[i] == 0xE2 && s[i + 1] == 0x80 &&
              (0x80 <= s[i + 2] <= 0x8A || s[i + 2] == 0xA8 || s[i + 2] == 0xA9 || s[i + 2] == 0xAF))
          || (s[i] == 0xE2 && s[i + 1] == 0x81 && s[i + 2] == 0x9F)
          || (s[i] == 0xE3 && s[i + 1] == 0x80 && s[i + 2] == 0x80)))
  }

  /** The characters of the Unicode property White_Space, by their code points. */
  predicate WhiteSpace(c: nat) {
    || 0x9 <= c <= 0xD || c == 0x20 || c == 0x85 || c == 0xA0 || c == 0x1680
    || 0x2000 <= c <= 0x200A || c == 0x2028 || c == 0x2029 || c == 0x202F || c == 0x205F || c == 0x3000
  }

  /** A code point below 0x10000 in UTF-8 (section 3 of RFC 3629). */
  function Utf8(c: nat): Bytes
    requires c < 0x10000
  {
    if c < 0x80 then [c]
    else if c < 0x800 then [0xC0 + c / 64, 0x80 + c % 64]
    else [0xE0 + c / 4096, 0x80 + c / 64 % 64, 0x80 + c % 64]
  }

  ghost predicate CharacterAt(s: Bytes, i: nat, c: nat)
    requires i < |s|
  {
    c < 0x10000 && Utf8(c) <= s[i..]
  }

  /** The bytes looked for are those of the white-space characters. */
  lemma WhitespaceMeans(s: Bytes, i: nat)
    requires i < |s|
    ensures WhitespaceAt(s, i) <==> exists c :: WhiteSpace(c) && CharacterAt(s, i, c)
  {
    if WhitespaceAt(s, i) {
      var c := WhitespaceIs(s, i);
    }
    forall c | WhiteSpace(c) && CharacterAt(s, i, c) ensures WhitespaceAt(s, i) {
      assert forall k :: 0 <= k < |Utf8(c)| ==> s[i..][k] == Utf8(c)[k] && s[i..][k] == s[i + k];
    }
  }

  lemma WhitespaceIs(s: Bytes, i: nat) returns (c: nat)
    requires i < |s| && WhitespaceAt(s, i)
    ensures WhiteSpace(c) && CharacterAt(s, i, c)
  {
    if s[i] < 0x80 {
      c := s[i];
    } else if s[i] == 0xC2 {
      c := s[i + 1];
    } else if s[i] == 0xE1 {
      c := 0x1680;
    } else if s[i] == 0xE3 {
      c := 0x3000;
    } else if s[i + 1] == 0x81 {
      c := 0x205F;
    } else {
      var last: nat := s[i + 2];
      c := last + 0x1F80;
    }
  }

  predicate HasWhitespace(s: Bytes) {
    exists i :: 0 <= i < |s| && WhitespaceAt(s, i)
  }

  function PathEnd(s: Bytes): (n: nat)
    ensures n <= |s| && (n < |s| ==> s[n] == 0x3F || s[n] == 0x23)
    ensures forall i :: 0 <= i < n ==> s[i] != 0x3F && s[i] != 0x23
  {
    if s == [] || s[0] == QUERY || s[0] == FRAGMENT then 0 else 1 + PathEnd(s[1..])
  }

  function PathPart(s: Bytes): Bytes {
    s[..PathEnd(s)]
  }

  /** The path a URI names: what stands between `file://` and a query or fragment, decoded. */
  function UriPath(uri: Bytes): Option<Bytes>
    requires |uri| >= |FILE|
  {
    Decode(PathPart(uri[|FILE|..]))
  }

  function HexAt(s: Bytes, i: nat): Option<nat> {
    HexValue(if i < |s| then s[i] else 0)
  }

  /** The drive letter's place, if any, compares without case. */
  predicate HasDrive(prefix: Bytes, style: PathStyle) {
    style == Windows && |prefix| > 9 && prefix[..8] == FILE + [SLASH] && prefix[9] == COLON
  }

  predicate SameFrom(candidate: Bytes, prefix: Bytes, drive: bool, i: nat)
    requires |candidate| == |prefix|
    decreases |prefix| - i
  {
    if i >= |prefix| then true
    else if prefix[i] == PERCENT then
      && candidate[i] == PERCENT
      && HexAt(candidate, i + 1) == HexAt(prefix, i + 1)
      && HexAt(candidate, i + 2) == HexAt(prefix, i + 2)
      && SameFrom(candidate, prefix, drive, i + 3)
    else
      && (if i < |FILE| || (drive && i == 8) then Lower(candidate[i]) == Lower(prefix[i]) else candidate[i] == prefix[i])
      && SameFrom(candidate, prefix, drive, i + 1)
  }

  predicate SamePrefix(candidate: Bytes, prefix: Bytes, style: PathStyle) {
    |candidate| == |prefix| && SameFrom(candidate, prefix, HasDrive(prefix, style), 0)
  }

  /** `uri_prefix_eq`. */
  method UriPrefixEq(candidate: Bytes, prefix: Bytes, style: PathStyle) returns (same: bool)
    ensures same <==> SamePrefix(candidate, prefix, style)
  {
    if |candidate| != |prefix| {
      return false;
    }
    var drive := HasDrive(prefix, style);
    var index := 0;
    while index < |prefix|
      invariant SameFrom(candidate, prefix, drive, index) <==> SameFrom(candidate, prefix, drive, 0)
    {
      if prefix[index] == PERCENT {
        if candidate[index] != PERCENT || HexAt(candidate, index + 1) != HexAt(prefix, index + 1)
           || HexAt(candidate, index + 2) != HexAt(prefix, index + 2) {
          return false;
        }
        index := index + 3;
        continue;
      }
      var equivalent :=
        if index < |FILE| || (drive && index == 8) then Lower(candidate[index]) == Lower(prefix[index])
        else candidate[index] == prefix[index];
      if !equivalent {
        return false;
      }
      index := index + 1;
    }
    same := true;
  }

  // ---- which spellings match -------------------------------------------------------------------

  /** Every percent sign begins an escape. */
  predicate WellEscaped(s: Bytes) {
    forall i :: 0 <= i < |s| && s[i] == PERCENT ==>
      i + 2 < |s| && HexValue(s[i + 1]).Some? && HexValue(s[i + 2]).Some?
  }

  predicate InEscape(s: Bytes, i: nat)
    requires i < |s|
  {
    (i >= 1 && s[i - 1] == PERCENT) || (i >= 2 && s[i - 2] == PERCENT)
  }

  /** The same byte, but for the case of the scheme, of a drive letter and of the digits of escapes. */
  predicate AgreesAt(c: Bytes, prefix: Bytes, drive: bool, i: nat)
    requires i < |c| == |prefix|
  {
    || c[i] == prefix[i]
    || ((i < 7 || (drive && i == 8)) && Lower(c[i]) == Lower(prefix[i]))
    || (InEscape(prefix, i) && HexValue(c[i]).Some? && HexValue(c[i]) == HexValue(prefix[i]))
  }

  lemma CaseOfDigits(a: Byte, b: Byte)
    requires HexValue(a).Some?
    ensures HexValue(a) == HexValue(b) <==> Lower(a) == Lower(b)
  {
  }

  lemma {:induction false} SameFromMeans(c: Bytes, prefix: Bytes, drive: bool, i: nat)
    requires |c| == |prefix| && WellEscaped(prefix) && i <= |prefix| && (i < |prefix| ==> !InEscape(prefix, i))
    requires drive && |prefix| > 8 ==> !InEscape(prefix, 8)
    ensures SameFrom(c, prefix, drive, i) <==> forall k :: i <= k < |prefix| ==> AgreesAt(c, prefix, drive, k)
    decreases |prefix| - i
  {
    if i < |prefix| {
      if prefix[i] == PERCENT {
        assert i + 3 == |prefix| || !InEscape(prefix, i + 3);
        SameFromMeans(c, prefix, drive, i + 3);
        CaseOfDigits(prefix[i + 1], c[i + 1]);
        CaseOfDigits(prefix[i + 2], c[i + 2]);
        EscapeAgrees(c, prefix, drive, i);
        assert (forall k :: i <= k < |prefix| ==> AgreesAt(c, prefix, drive, k)) <==>
               && AgreesAt(c, prefix, drive, i) && AgreesAt(c, prefix, drive, i + 1) && AgreesAt(c, prefix, drive, i + 2)
               && forall k :: i + 3 <= k < |prefix| ==> AgreesAt(c, prefix, drive, k);
      } else {
        SameFromMeans(c, prefix, drive, i + 1);
        assert (forall k :: i <= k < |prefix| ==> AgreesAt(c, prefix, drive, k)) <==>
               AgreesAt(c, prefix, drive, i) && forall k :: i + 1 <= k < |prefix| ==> AgreesAt(c, prefix, drive, k);
      }
    }
  }

  lemma EscapeAgrees(c: Bytes, prefix: Bytes, drive: bool, i: nat)
    requires |c| == |prefix| && WellEscaped(prefix) && i < |prefix| && prefix[i] == PERCENT && !InEscape(prefix, i)
    requires drive && |prefix| > 8 ==> !InEscape(prefix, 8)
    ensures AgreesAt(c, prefix, drive, i) <==> c[i] == PERCENT
    ensures AgreesAt(c, prefix, drive, i + 1) <==> HexValue(c[i + 1]) == HexValue(prefix[i + 1])
    ensures AgreesAt(c, prefix, drive, i + 2) <==> HexValue(c[i + 2]) == HexValue(prefix[i + 2])
  {
    CaseOfDigits(prefix[i + 1], c[i + 1]);
    CaseOfDigits(prefix[i + 2], c[i + 2]);
  }

  /**
   Which texts match a prefix: those of its length that agree with it at every
   place, but for the case of the scheme, of the drive letter of a Windows
   prefix, and of the digits of its escapes.
   */
  lemma SamePrefixExactly(c: Bytes, prefix: Bytes, style: PathStyle)
    requires WellEscaped(prefix)
    ensures SamePrefix(c, prefix, style) <==>
              |c| == |prefix| && forall k :: 0 <= k < |prefix| ==> AgreesAt(c, prefix, HasDrive(prefix, style), k)
  {
    if |c| == |prefix| {
      var drive := HasDrive(prefix, style);
      if drive {
        assert prefix[6] == prefix[..8][6] && prefix[7] == prefix[..8][7];
      }
      SameFromMeans(c, prefix, drive, 0);
    }
  }

  lemma WellEscapedBoth(a: Bytes, b: Bytes)
    requires WellEscaped(a) && WellEscaped(b)
    ensures WellEscaped(a + b)
  {
    var s := a + b;
    forall i | 0 <= i < |s| && s[i] == PERCENT
      ensures i + 2 < |s| && HexValue(s[i + 1]).Some? && HexValue(s[i + 2]).Some?
    {
      if i < |a| {
        assert a[i] == PERCENT && s[i + 1] == a[i + 1] && s[i + 2] == a[i + 2];
      } else {
        assert b[i - |a|] == PERCENT && s[i + 1] == b[i - |a| + 1] && s[i + 2] == b[i - |a| + 2];
      }
    }
  }

  lemma {:induction false} EncodeIsWellEscaped(s: Bytes)
    ensures WellEscaped(Encode(s))
    decreases |s|
  {
    if s != [] {
      EncodeIsWellEscaped(s[1..]);
      WellEscapedBoth(EncodedByte(s[0]), Encode(s[1..]));
    }
  }

  lemma UriIsWellEscaped(path: Bytes)
    ensures WellEscaped(Uri(path))
  {
    EncodeIsWellEscaped(FilePath(path));
    assert PERCENT !in FILE;
    WellEscapedBoth(FILE, Encode(FilePath(path)));
  }

  predicate StartsSuffix(b: Byte) {
    b == SLASH || b == QUERY || b == FRAGMENT
  }

  function StripUriPrefix(text: Bytes, prefix: Bytes, style: PathStyle): Option<Bytes> {
    if |text| < |prefix| || !CharBoundary(text, |prefix|) || !SamePrefix(text[..|prefix|], prefix, style) then None
    else
      var suffix := text[|prefix|..];
      if suffix == [] || EndsWith(prefix, SLASH) || StartsSuffix(suffix[0]) then Some(suffix) else None
  }

  predicate SuffixOk(suffix: Bytes, style: PathStyle) {
    var decoded := Decode(PathPart(suffix));
    decoded.Some? && NoDotSegments(style, decoded.value)
  }

  function Joint(fromUri: Bytes, toUri: Bytes, suffix: Bytes): Bytes {
    if EndsWith(fromUri, SLASH) && !EndsWith(toUri, SLASH) && suffix != [] && suffix[0] != QUERY && suffix[0] != FRAGMENT
    then [SLASH] else []
  }

  function Rejoined(fromUri: Bytes, toUri: Bytes, suffix: Bytes, style: PathStyle): Option<Bytes> {
    if SuffixOk(suffix, style) then Some(toUri + Joint(fromUri, toUri, suffix) + suffix) else None
  }

  /** `rewrite_lsp_uri`: the encoded prefixes first, then the raw ones if they differ. */
  function RewriteUri(text: Bytes, from: Bytes, to: Bytes): Option<Bytes> {
    if HasWhitespace(text) then None
    else
      var style := Traversal(Style(from), Style(to));
      var suffix := StripUriPrefix(text, Uri(from), Style(from));
      if suffix.Some? then Rejoined(Uri(from), Uri(to), suffix.value, style)
      else if Uri(from) == RawUri(from) && Uri(to) == RawUri(to) then None
      else
        var raw := StripUriPrefix(text, RawUri(from), Style(from));
        if raw.Some? then Rejoined(RawUri(from), RawUri(to), raw.value, style) else None
  }

  // ---- there and back ---------------------------------------------------------------------------

  lemma {:induction false} SameAsItself(s: Bytes, drive: bool, i: nat)
    ensures SameFrom(s, s, drive, i)
    decreases |s| - i
  {
    if i < |s| {
      SameAsItself(s, drive, if s[i] == PERCENT then i + 3 else i + 1);
    }
  }

  lemma UriBytes(path: Bytes)
    ensures forall i :: 0 <= i < |Uri(path)| ==> UriByte(Uri(path)[i])
    ensures EndsWith(Uri(path), SLASH) <==> FilePath(path) == [] || EndsWith(FilePath(path), SLASH)
  {
    EncodeBytes(FilePath(path));
    if FilePath(path) != [] {
      assert Encode(FilePath(path)) != [];
      var e := Encode(FilePath(path));
      assert Uri(path)[|Uri(path)| - 1] == e[|e| - 1];
    }
  }

  lemma NoNewWhitespace(text: Bytes, n: nat, head: Bytes)
    requires n <= |text| && !HasWhitespace(text) && forall i :: 0 <= i < |head| ==> UriByte(head[i])
    ensures !HasWhitespace(head + text[n..])
  {
    var out := head + text[n..];
    forall i | 0 <= i < |out| ensures !WhitespaceAt(out, i) {
      if i < |head| {
        assert UriByte(head[i]);
      } else {
        assert !WhitespaceAt(text, i - |head| + n);
      }
    }
  }

  lemma {:induction false} PathPartAfter(head: Bytes, s: Bytes)
    requires forall i :: 0 <= i < |head| ==> head[i] != QUERY && head[i] != FRAGMENT
    ensures PathPart(head + s) == head + PathPart(s)
    decreases |head|
  {
    if head == [] {
      assert head + s == s && head + PathPart(s) == PathPart(s);
    } else {
      assert (head + s)[1..] == head[1..] + s;
      PathPartAfter(head[1..], s);
      assert PathPart(head + s) == [head[0]] + PathPart(head[1..] + s);
    }
  }

  lemma JointKeepsSuffixOk(suffix: Bytes, style: PathStyle)
    requires SuffixOk(suffix, style)
    ensures SuffixOk([SLASH] + suffix, style)
  {
    PathPartAfter([SLASH], suffix);
    var path := PathPart(suffix);
    assert ([SLASH] + path)[1..] == path;
    SeparatedNoDots(style, SLASH, Decode(path).value);
  }

  lemma StripWhatWasPut(head: Bytes, middle: Bytes, style: PathStyle)
    requires middle == [] || EndsWith(head, SLASH) || StartsSuffix(middle[0])
    requires middle == [] || !(0x80 <= middle[0] < 0xC0)
    ensures StripUriPrefix(head + middle, head, style) == Some(middle)
  {
    var text, n := head + middle, |head|;
    assert text[..n] == head && text[n..] == middle;
    SameAsItself(head, HasDrive(head, style), 0);
    assert middle != [] ==> text[n] == middle[0];
  }

  /** Putting a suffix behind another prefix: the joint keeps it acceptable there. */
  lemma MiddleFits(fromUri: Bytes, toUri: Bytes, suffix: Bytes, style: PathStyle)
    requires suffix == [] || EndsWith(fromUri, SLASH) || StartsSuffix(suffix[0])
    requires suffix == [] || !(0x80 <= suffix[0] < 0xC0)
    requires SuffixOk(suffix, style)
    ensures var middle := Joint(fromUri, toUri, suffix) + suffix;
            && (middle == [] || EndsWith(toUri, SLASH) || StartsSuffix(middle[0]))
            && (middle == [] || !(0x80 <= middle[0] < 0xC0))
            && SuffixOk(middle, style)
  {
    JointKeepsSuffixOk(suffix, style);
    assert [] + suffix == suffix;
  }

  lemma NoWhitespaceThere(text: Bytes, n: nat, to: Bytes, joint: Bytes)
    requires n <= |text| && !HasWhitespace(text) && (joint == [] || joint == [SLASH])
    ensures !HasWhitespace(Uri(to) + joint + text[n..])
  {
    UriBytes(to);
    NoNewWhitespace(text, n, Uri(to) + joint);
  }

  /** The way back from a target: the canonical source prefix, whatever joint there is, and the suffix. */
  lemma WayBack(text: Bytes, from: Bytes, to: Bytes)
    requires !HasWhitespace(text) && StripUriPrefix(text, Uri(from), Style(from)).Some?
    requires RewriteUri(text, from, to).Some?
    ensures var suffix := StripUriPrefix(text, Uri(from), Style(from)).value;
            var middle := Joint(Uri(from), Uri(to), suffix) + suffix;
            RewriteUri(RewriteUri(text, from, to).value, to, from)
              == Some(Uri(from) + Joint(Uri(to), Uri(from), middle) + middle)
  {
    var suffix := StripUriPrefix(text, Uri(from), Style(from)).value;
    var joint := Joint(Uri(from), Uri(to), suffix);
    assert Uri(to) + joint + suffix == Uri(to) + (joint + suffix);
    MiddleFits(Uri(from), Uri(to), suffix, Traversal(Style(from), Style(to)));
    NoWhitespaceThere(text, |Uri(from)|, to, joint);
    StripWhatWasPut(Uri(to), joint + suffix, Style(to));
  }

  /**
   Rewriting to the target and back gives the encoded source prefix and the
   same suffix (the text itself, if it began with just that prefix) exactly
   when both prefixes or neither end in a slash, or no path follows the prefix.
   */
  lemma UriRoundTripExactly(text: Bytes, from: Bytes, to: Bytes)
    requires !HasWhitespace(text) && StripUriPrefix(text, Uri(from), Style(from)).Some?
    requires RewriteUri(text, from, to).Some?
    ensures var suffix := StripUriPrefix(text, Uri(from), Style(from)).value;
            RewriteUri(RewriteUri(text, from, to).value, to, from) == Some(Uri(from) + suffix) <==>
              (EndsWith(Uri(from), SLASH) <==> EndsWith(Uri(to), SLASH)) || PathPart(suffix) == []
  {
    WayBack(text, from, to);
    var suffix := StripUriPrefix(text, Uri(from), Style(from)).value;
    var there := Joint(Uri(from), Uri(to), suffix);
    var back := Joint(Uri(to), Uri(from), there + suffix);
    JointsVanish(Uri(from), back, there, suffix);
    assert PathPart(suffix) == [] <==> suffix == [] || suffix[0] == QUERY || suffix[0] == FRAGMENT;
    assert there == [] ==> there + suffix == suffix;
  }

  lemma JointsVanish(head: Bytes, back: Bytes, there: Bytes, suffix: Bytes)
    ensures head + back + (there + suffix) == head + suffix <==> back == [] && there == []
  {
    assert |head + back + (there + suffix)| == |head| + |back| + |there| + |suffix|;
    if back == [] && there == [] {
      assert head + back + (there + suffix) == head + suffix;
    }
  }

  /** So between prefixes that do not end in a slash every rewritten URI comes back unchanged. */
  lemma UriRestored(suffix: Bytes, from: Bytes, to: Bytes)
    requires !HasWhitespace(Uri(from) + suffix)
    requires StripUriPrefix(Uri(from) + suffix, Uri(from), Style(from)).Some?
    requires RewriteUri(Uri(from) + suffix, from, to).Some?
    requires FilePath(from) != [] && !EndsWith(FilePath(from), SLASH)
    requires FilePath(to) != [] && !EndsWith(FilePath(to), SLASH)
    ensures RewriteUri(RewriteUri(Uri(from) + suffix, from, to).value, to, from) == Some(Uri(from) + suffix)
  {
    UriBytes(from);
    UriBytes(to);
    UriRoundTripExactly(Uri(from) + suffix, from, to);
    assert (Uri(from) + suffix)[|Uri(from)|..] == suffix;
  }

  // ---- files below the source ------------------------------------------------------------------

  lemma {:induction false} EncodeAppend(a: Bytes, b: Bytes)
    ensures Encode(a + b) == Encode(a) + Encode(b)
    decreases |a|
  {
    if a == [] {
      assert a + b == b && Encode(a) + Encode(b) == Encode(b);
    } else {
      assert (a + b)[1..] == a[1..] + b && (a + b)[0] == a[0];
      EncodeAppend(a[1..], b);
      assert EncodedByte(a[0]) + (Encode(a[1..]) + Encode(b)) == EncodedByte(a[0]) + Encode(a[1..]) + Encode(b);
    }
  }

  lemma EncodedSuffixOk(rest: Bytes, style: PathStyle)
    requires NoDotSegments(style, rest)
    ensures SuffixOk(Encode(rest), style)
  {
    EncodeBytes(rest);
    PathPartAfter(Encode(rest), []);
    assert Encode(rest) + [] == Encode(rest) && PathPart([]) == [];
    DecodeEncode(rest, []);
    assert rest + [] == rest;
  }

  lemma UriBytesAreNotBlank(s: Bytes)
    requires forall i :: 0 <= i < |s| ==> UriByte(s[i])
    ensures !HasWhitespace(s)
  {
    NoNewWhitespace([], 0, s);
    assert s + [][0..] == s;
  }

  lemma UriBelow(path: Bytes, rest: Bytes)
    ensures FILE + Encode(FilePath(path) + rest) == Uri(path) + Encode(rest)
  {
    EncodeAppend(FilePath(path), rest);
  }

  lemma SuffixIsCarried(from: Bytes, to: Bytes, suffix: Bytes)
    requires !HasWhitespace(Uri(from) + suffix) && !EndsWith(Uri(from), SLASH)
    requires suffix != [] && suffix[0] == SLASH && SuffixOk(suffix, Traversal(Style(from), Style(to)))
    ensures RewriteUri(Uri(from) + suffix, from, to) == Some(Uri(to) + suffix)
  {
    StripWhatWasPut(Uri(from), suffix, Style(from));
    assert Uri(to) + [] + suffix == Uri(to) + suffix;
  }

  /**
   Any spelling of the source's prefix is carried: what follows it, at a
   separator or as a query or fragment, is put behind the target's prefix.
   */
  lemma SpelledUriIsCarried(c: Bytes, suffix: Bytes, from: Bytes, to: Bytes)
    requires |c| == |Uri(from)| && forall k :: 0 <= k < |c| ==> AgreesAt(c, Uri(from), HasDrive(Uri(from), Style(from)), k)
    requires !HasWhitespace(c + suffix) && SuffixOk(suffix, Traversal(Style(from), Style(to)))
    requires suffix == [] || StartsSuffix(suffix[0]) || (EndsWith(Uri(from), SLASH) && !(0x80 <= suffix[0] < 0xC0))
    ensures RewriteUri(c + suffix, from, to) == Some(Uri(to) + Joint(Uri(from), Uri(to), suffix) + suffix)
  {
    UriIsWellEscaped(from);
    SamePrefixExactly(c, Uri(from), Style(from));
    assert (c + suffix)[..|c|] == c && (c + suffix)[|c|..] == suffix;
    assert suffix != [] ==> (c + suffix)[|c|] == suffix[0];
  }

  /** A text with the source's raw prefix, where the encoded one does not match, gets the target's raw prefix. */
  lemma RawUriIsCarried(suffix: Bytes, from: Bytes, to: Bytes)
    requires !HasWhitespace(RawUri(from) + suffix) && SuffixOk(suffix, Traversal(Style(from), Style(to)))
    requires suffix == [] || StartsSuffix(suffix[0]) || (EndsWith(RawUri(from), SLASH) && !(0x80 <= suffix[0] < 0xC0))
    requires StripUriPrefix(RawUri(from) + suffix, Uri(from), Style(from)).None?
    ensures RewriteUri(RawUri(from) + suffix, from, to) == Some(RawUri(to) + Joint(RawUri(from), RawUri(to), suffix) + suffix)
  {
    StripWhatWasPut(RawUri(from), suffix, Style(from));
    assert Uri(from) != RawUri(from);
  }

  lemma UriBelowIsNotBlank(path: Bytes, rest: Bytes)
    ensures !HasWhitespace(Uri(path) + Encode(rest))
  {
    UriBytes(path);
    EncodeBytes(rest);
    UriBytesAreNotBlank(Uri(path) + Encode(rest));
  }

  /**
   The URI of a file below the source becomes the URI of the same file below
   the target, for every name without dot segments and every source that does
   not end in a slash.
   */
  lemma FileUriIsCarried(from: Bytes, to: Bytes, rest: Bytes)
    requires FilePath(from) != [] && !EndsWith(FilePath(from), SLASH)
    requires rest != [] && rest[0] == SLASH && NoDotSegments(Traversal(Style(from), Style(to)), rest)
    ensures RewriteUri(FILE + Encode(FilePath(from) + rest), from, to) == Some(FILE + Encode(FilePath(to) + rest))
  {
    UriBelow(from, rest);
    UriBelow(to, rest);
    UriBytes(from);
    UriBelowIsNotBlank(from, rest);
    EncodedSuffixOk(rest, Traversal(Style(from), Style(to)));
    assert Encode(rest)[0] == EncodedByte(rest[0])[0] == SLASH;
    SuffixIsCarried(from, to, Encode(rest));
  }
}
