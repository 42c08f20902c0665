/**
 What path and URI rewriting share (crates/nrm-sidecar/src/lsp_rewrite.rs):
 byte texts, the two path styles, separators and dot segments (section 5.2.4 of
 RFC 3986).
 */
module LspText {
  import opened Protocol

  type Bytes = seq<Byte>

  const SLASH: Byte := 0x2F
  const BACKSLASH: Byte := 0x5C
  const COLON: Byte := 0x3A
  const DOT: Byte := 0x2E

  datatype PathStyle = Posix | Windows

  predicate Letter(b: Byte) {
    0x41 <= b <= 0x5A || 0x61 <= b <= 0x7A
  }

  function Lower(b: Byte): Byte {
    if 0x41 <= b <= 0x5A then b + 0x20 else b
  }

  /** Bytes are alike without case if they are the same or the same letter. */
  lemma CaseMeans(a: Byte, b: Byte)
    ensures Lower(a) == Lower(b) <==> a == b || (Letter(a) && Letter(b) && (a == b + 32 || b == a + 32))
  {
  }

  predicate EitherSlash(b: Byte) {
    b == SLASH || b == BACKSLASH
  }

  function Style(path: Bytes): PathStyle {
    if |path| >= 3 && Letter(path[0]) && path[1] == COLON && EitherSlash(path[2]) then Windows else Posix
  }

  predicate Separator(style: PathStyle, b: Byte) {
    b == SLASH || (style == Windows && b == BACKSLASH)
  }

  function Traversal(from: PathStyle, to: PathStyle): PathStyle {
    if from == Windows || to == Windows then Windows else Posix
  }

  predicate EndsWith(s: Bytes, b: Byte) {
    s != [] && s[|s| - 1] == b
  }

  /** Whether `n` splits a UTF-8 text between characters. */
  predicate CharBoundary(text: Bytes, n: nat)
    requires n <= |text|
  {
    n == |text| || !(0x80 <= text[n] < 0xC0)
  }

  // ---- segments ------------------------------------------------------------------------------

  function FirstSeparator(style: PathStyle, s: Bytes): (k: nat)
    ensures k <= |s| && (k < |s| ==> Separator(style, s[k]))
    ensures forall i :: 0 <= i < k ==> !Separator(style, s[i])
  {
    if s == [] || Separator(style, s[0]) then 0 else 1 + FirstSeparator(style, s[1..])
  }

  function Segments(style: PathStyle, s: Bytes): seq<Bytes>
    decreases |s|
  {
    var k := FirstSeparator(style, s);
    if k == |s| then [s] else [s[..k]] + Segments(style, s[k + 1..])
  }

  predicate Dots(segment: Bytes) {
    segment == [DOT] || segment == [DOT, DOT]
  }

  predicate NoDotSegments(style: PathStyle, s: Bytes) {
    forall segment :: segment in Segments(style, s) ==> !Dots(segment)
  }

  /** A dot segment of `n` bytes at position `i`: dots between separators or ends. */
  predicate DotsAt(style: PathStyle, s: Bytes, i: int, n: int) {
    && 0 <= i && 1 <= n <= 2 && i + n <= |s|
    && s[i] == 0x2E && s[i + n - 1] == 0x2E
    && (i == 0 || Separator(style, s[i - 1]))
    && (i + n == |s| || Separator(style, s[i + n]))
  }

  lemma FirstSegmentDots(style: PathStyle, s: Bytes)
    ensures Dots(s[..FirstSeparator(style, s)]) <==> DotsAt(style, s, 0, 1) || DotsAt(style, s, 0, 2)
  {
    var k := FirstSeparator(style, s);
    var first := s[..k];
    assert k > 0 ==> first[0] == s[0];
    assert k > 1 ==> first[1] == s[1];
    assert DotsAt(style, s, 0, 1) ==> k == 1;
    assert DotsAt(style, s, 0, 2) ==> k == 2;
  }

  ghost predicate DotsSomewhere(style: PathStyle, s: Bytes) {
    exists i, n :: DotsAt(style, s, i, n)
  }

  lemma LaterSegmentDots(style: PathStyle, s: Bytes, k: nat, i: nat, n: int)
    requires 0 < k <= |s| && Separator(style, s[k - 1])
    ensures DotsAt(style, s[k..], i, n) <==> DotsAt(style, s, k + i, n)
  {
  }

  lemma DotsSomewhereSplits(style: PathStyle, s: Bytes)
    ensures var k := FirstSeparator(style, s);
            DotsSomewhere(style, s) <==> Dots(s[..k]) || (k < |s| && DotsSomewhere(style, s[k + 1..]))
  {
    var k := FirstSeparator(style, s);
    FirstSegmentDots(style, s);
    if DotsSomewhere(style, s) {
      var i, n :| DotsAt(style, s, i, n);
      if i > 0 {
        assert Separator(style, s[i - 1]);
        LaterSegmentDots(style, s, k + 1, i - k - 1, n);
      }
    }
    if k < |s| && DotsSomewhere(style, s[k + 1..]) {
      var i, n :| DotsAt(style, s[k + 1..], i, n);
      LaterSegmentDots(style, s, k + 1, i, n);
    }
  }

  /** Splitting finds a dot segment exactly where dots stand between separators. */
  lemma {:induction false} NoDotSegmentsMeans(style: PathStyle, s: Bytes)
    ensures NoDotSegments(style, s) <==> !DotsSomewhere(style, s)
    decreases |s|
  {
    var k := FirstSeparator(style, s);
    DotsSomewhereSplits(style, s);
    if k == |s| {
      assert Segments(style, s) == [s] && s[..k] == s;
    } else {
      NoDotSegmentsMeans(style, s[k + 1..]);
      assert Segments(style, s) == [s[..k]] + Segments(style, s[k + 1..]);
    }
  }

  lemma SeparatedNoDots(style: PathStyle, separator: Byte, s: Bytes)
    requires Separator(style, separator)
    ensures NoDotSegments(style, [separator] + s) <==> NoDotSegments(style, s)
  {
    assert ([separator] + s)[..0] == [] && ([separator] + s)[1..] == s;
    assert Segments(style, [separator] + s) == [[]] + Segments(style, s);
  }

  // ---- styles ---------------------------------------------------------------------------------

  /** A path is a Windows path if it begins with a drive letter, a colon and a slash of either kind. */
  lemma StyleExactly(path: Bytes)
    ensures Style(path) == Windows <==>
              exists letter: Byte, slash: Byte, rest ::
                && path == [letter, 0x3A, slash] + rest
                && (0x41 <= letter <= 0x5A || 0x61 <= letter <= 0x7A) && (slash == 0x2F || slash == 0x5C)
  {
    if Style(path) == Windows {
      assert path == [path[0], 0x3A, path[2]] + path[3..];
    }
  }

  /** Between two roots no dot segment passes that either of them would see. */
  lemma TraversalMeans(from: PathStyle, to: PathStyle, s: Bytes)
    ensures NoDotSegments(Traversal(from, to), s) <==> NoDotSegments(from, s) && NoDotSegments(to, s)
  {
    NoDotSegmentsMeans(Posix, s);
    NoDotSegmentsMeans(Windows, s);
    if DotsSomewhere(Posix, s) {
      var i, n :| DotsAt(Posix, s, i, n);
      assert DotsAt(Windows, s, i, n);
    }
  }
}
