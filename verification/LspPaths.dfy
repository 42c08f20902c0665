/**
 Plain paths carried from one root to another, in either path style
 (crates/nrm-sidecar/src/lsp_rewrite.rs).
 */
module LspPaths {
  import opened Protocol
  import opened LspText

  predicate SamePathPrefix(style: PathStyle, candidate: Bytes, prefix: Bytes)
    requires |candidate| == |prefix|
  {
    if style == Posix then candidate == prefix
    else
      forall i :: 0 <= i < |prefix| ==>
        if EitherSlash(candidate[i]) && EitherSlash(prefix[i]) then true
        else if i == 0 && |prefix| > 1 && prefix[1] == COLON then Lower(candidate[i]) == Lower(prefix[i])
        else candidate[i] == prefix[i]
  }

  function StripPathPrefix(text: Bytes, prefix: Bytes, style: PathStyle): Option<Bytes> {
    if |text| < |prefix| || !CharBoundary(text, |prefix|) || !SamePathPrefix(style, text[..|prefix|], prefix) then None
    else
      var suffix := text[|prefix|..];
      if suffix == [] || (prefix != [] && Separator(style, prefix[|prefix| - 1])) || Separator(style, suffix[0])
      then Some(suffix) else None
  }

  function TrimStart(style: PathStyle, s: Bytes): (r: Bytes)
    ensures |r| <= |s| && (r != [] ==> !Separator(style, r[0]))
  {
    if s != [] && Separator(style, s[0]) then TrimStart(style, s[1..]) else s
  }

  lemma {:induction false} TrimStartDrops(style: PathStyle, s: Bytes)
    ensures var r := TrimStart(style, s);
            r == s[|s| - |r|..] && forall i :: 0 <= i < |s| - |r| ==> Separator(style, s[i])
    decreases |s|
  {
    if s != [] && Separator(style, s[0]) {
      TrimStartDrops(style, s[1..]);
    }
  }

  function TrimEnd(style: PathStyle, s: Bytes): (r: Bytes)
    ensures r <= s && forall i :: |r| <= i < |s| ==> Separator(style, s[i])
    ensures r != [] ==> !Separator(style, r[|r| - 1])
  {
    if s != [] && Separator(style, s[|s| - 1]) then TrimEnd(style, s[..|s| - 1]) else s
  }

  function TargetSeparator(to: Bytes): Byte {
    if Style(to) == Windows && to[2] == BACKSLASH then BACKSLASH else SLASH
  }

  function Normalized(s: Bytes, from: PathStyle, separator: Byte): (r: Bytes)
    ensures |r| == |s|
    ensures forall i :: 0 <= i < |s| ==> r[i] == if Separator(from, s[i]) then separator else s[i]
  {
    seq(|s|, i requires 0 <= i < |s| => if Separator(from, s[i]) then separator else s[i])
  }

  /** The target without trailing slashes of either kind, one separator, and the relative path. */
  function Joined(to: Bytes, suffix: Bytes, from: PathStyle): Bytes {
    if suffix == [] then to
    else
      var relative := Normalized(TrimStart(from, suffix), from, TargetSeparator(to));
      var base := TrimEnd(Windows, to);
      if base == [] && to != [] && to[0] == SLASH then [SLASH] + relative
      else base + [TargetSeparator(to)] + relative
  }

  /** `join_rewritten_path`. */
  method JoinRewrittenPath(to: Bytes, suffix: Bytes, from: PathStyle) returns (path: Bytes)
    ensures path == Joined(to, suffix, from)
  {
    if suffix == [] {
      return to;
    }
    var separator := TargetSeparator(to);
    var relative := TrimStart(from, suffix);
    var normalized: Bytes := [];
    for i := 0 to |relative|
      invariant normalized == Normalized(relative, from, separator)[..i]
    {
      if relative[i] == SLASH || (from == Windows && relative[i] == BACKSLASH) {
        normalized := normalized + [separator];
      } else {
        normalized := normalized + [relative[i]];
      }
    }
    assert normalized == Normalized(relative, from, separator);
    var base := TrimEnd(Windows, to);
    if base == [] && to != [] && to[0] == SLASH {
      path := [SLASH] + normalized;
    } else {
      path := base + [separator] + normalized;
    }
  }

  /** `rewrite_lsp_path`. */
  function RewritePath(text: Bytes, from: Bytes, to: Bytes): Option<Bytes> {
    var suffix := StripPathPrefix(text, from, Style(from));
    if suffix.None? || !NoDotSegments(Traversal(Style(from), Style(to)), suffix.value) then None
    else Some(Joined(to, suffix.value, Style(from)))
  }

  // ---- where a rewritten path points ------------------------------------------------------------

  /** The directory a prefix names, whatever separators trail it. */
  function Directory(path: Bytes): Bytes {
    TrimEnd(Style(path), path)
  }

  /** The path is the directory itself, or below it with no dot segment on the way. */
  predicate LiesBelow(path: Bytes, to: Bytes, traversal: PathStyle) {
    || path == to
    || (var dir := Directory(to);
        && dir <= path && |dir| < |path| && Separator(Style(to), path[|dir|])
        && NoDotSegments(traversal, path[|dir| + 1..]))
  }

  /** A target whose trailing separators are separators in its own style. */
  predicate EndsPlainly(to: Bytes) {
    Directory(to) == [] || Directory(to)[|Directory(to)| - 1] != BACKSLASH
  }

  lemma NormalizedDots(s: Bytes, from: Bytes, to: Bytes, i: int, n: int)
    ensures var style := Traversal(Style(from), Style(to));
            DotsAt(style, Normalized(s, Style(from), TargetSeparator(to)), i, n) <==> DotsAt(style, s, i, n)
  {
    var style := Traversal(Style(from), Style(to));
    var r := Normalized(s, Style(from), TargetSeparator(to));
    assert forall k :: 0 <= k < |s| ==> (Separator(style, r[k]) <==> Separator(style, s[k]));
    assert forall k :: 0 <= k < |s| && !Separator(style, s[k]) ==> r[k] == s[k];
  }

  lemma TrimmedDots(style: PathStyle, traversal: PathStyle, s: Bytes, i: int, n: int)
    requires DotsAt(traversal, TrimStart(style, s), i, n) && (style == Windows ==> traversal == Windows)
    ensures DotsAt(traversal, s, i + |s| - |TrimStart(style, s)|, n)
  {
    TrimStartDrops(style, s);
    var r := TrimStart(style, s);
    var k := |s| - |r|;
    assert forall j :: 0 <= j < |r| ==> r[j] == s[k + j];
  }

  /** Trimming and normalizing bring no dot segment about. */
  lemma RelativeHasNoDots(suffix: Bytes, from: Bytes, to: Bytes)
    requires NoDotSegments(Traversal(Style(from), Style(to)), suffix)
    ensures NoDotSegments(Traversal(Style(from), Style(to)),
                          Normalized(TrimStart(Style(from), suffix), Style(from), TargetSeparator(to)))
  {
    var style := Traversal(Style(from), Style(to));
    var trimmed := TrimStart(Style(from), suffix);
    var relative := Normalized(trimmed, Style(from), TargetSeparator(to));
    NoDotSegmentsMeans(style, suffix);
    NoDotSegmentsMeans(style, relative);
    if DotsSomewhere(style, relative) {
      var i, n :| DotsAt(style, relative, i, n);
      NormalizedDots(trimmed, from, to, i, n);
      TrimmedDots(Style(from), style, suffix, i, n);
      assert false;
    }
  }

  lemma TrimmedAlike(s: Bytes)
    requires TrimEnd(Posix, s) == [] || TrimEnd(Posix, s)[|TrimEnd(Posix, s)| - 1] != BACKSLASH
    ensures TrimEnd(Windows, s) == TrimEnd(Posix, s)
  {
    var posix, both := TrimEnd(Posix, s), TrimEnd(Windows, s);
    assert posix != [] ==> posix[|posix| - 1] == s[|posix| - 1];
    assert both != [] ==> both[|both| - 1] == s[|both| - 1];
    assert both == s[..|both|] && posix == s[..|posix|];
  }

  lemma PathLands(text: Bytes, from: Bytes, to: Bytes)
    requires to != [] && EndsPlainly(to) && RewritePath(text, from, to).Some?
    ensures LiesBelow(RewritePath(text, from, to).value, to, Traversal(Style(from), Style(to)))
  {
    var suffix := StripPathPrefix(text, from, Style(from)).value;
    var path := RewritePath(text, from, to).value;
    if suffix != [] {
      RelativeHasNoDots(suffix, from, to);
      if Style(to) == Posix { TrimmedAlike(to); }
      var relative := Normalized(TrimStart(Style(from), suffix), Style(from), TargetSeparator(to));
      var dir := Directory(to);
      assert dir == [] ==> Separator(Posix, to[0]) || Style(to) == Windows;
      assert path == dir + [TargetSeparator(to)] + relative || path == [SLASH] + relative;
      assert path[|dir| + 1..] == relative;
    }
  }

  lemma SamePathAsItself(style: PathStyle, s: Bytes)
    ensures SamePathPrefix(style, s, s)
  {
  }

  lemma RewritesFileX(from: Bytes, to: Bytes)
    ensures RewritePath(from + [SLASH, 0x78], from, to) == Some(Joined(to, [SLASH, 0x78], Style(from)))
  {
    var suffix: Bytes := [SLASH, 0x78];
    var text := from + suffix;
    var style := Traversal(Style(from), Style(to));
    assert text[..|from|] == from && text[|from|..] == suffix && text[|from|] == SLASH;
    SamePathAsItself(Style(from), from);
    NoDotSegmentsMeans(style, suffix);
    assert forall i, n :: !DotsAt(style, suffix, i, n);
  }

  lemma JoinsFileX(to: Bytes, from: PathStyle)
    requires Style(to) == Posix
    ensures Joined(to, [SLASH, 0x78], from) == TrimEnd(Windows, to) + [SLASH] + [0x78]
  {
    var suffix: Bytes, x: Bytes := [SLASH, 0x78], [0x78];
    assert suffix[1..] == x && TrimStart(from, x) == x;
    assert Normalized(x, from, SLASH) == x;
    assert [] + [SLASH] + x == [SLASH] + x;
  }

  /** Otherwise the file `x` in the source is sent astray. */
  lemma PathGoesAstray(from: Bytes, to: Bytes) returns (text: Bytes)
    requires !EndsPlainly(to)
    ensures RewritePath(text, from, to).Some?
    ensures !LiesBelow(RewritePath(text, from, to).value, to, Traversal(Style(from), Style(to)))
  {
    text := from + [SLASH, 0x78];
    RewritesFileX(from, to);
    JoinsFileX(to, Style(from));
    AstrayTail(to, Joined(to, [SLASH, 0x78], Style(from)));
  }

  lemma AstrayTail(to: Bytes, path: Bytes)
    requires !EndsPlainly(to)
    requires var base := TrimEnd(Windows, to);
             |path| == |base| + 2 && base <= path && path[|base|] == SLASH && path[|base| + 1] == 0x78
    ensures path != to && !(Directory(to) <= path && |Directory(to)| < |path|)
  {
    var dir, base := Directory(to), TrimEnd(Windows, to);
    assert dir[|dir| - 1] == to[|dir| - 1];
    assert |base| < |dir|;
    assert |dir| > |base| + 1 || to[|base|] == BACKSLASH;
    assert EitherSlash(to[|to| - 1]);
  }

  /** Exactly which targets receive every path rewritten to them. */
  lemma PathsLandExactly(from: Bytes, to: Bytes)
    requires to != []
    ensures EndsPlainly(to) <==>
              forall text :: RewritePath(text, from, to).Some? ==>
                LiesBelow(RewritePath(text, from, to).value, to, Traversal(Style(from), Style(to)))
  {
    if EndsPlainly(to) {
      forall text | RewritePath(text, from, to).Some?
        ensures LiesBelow(RewritePath(text, from, to).value, to, Traversal(Style(from), Style(to)))
      {
        PathLands(text, from, to);
      }
    } else {
      var text := PathGoesAstray(from, to);
    }
  }

  // ---- there and back ------------------------------------------------------------------------------

  lemma StripsBack(to: Bytes, from: Bytes, relative: Bytes)
    requires NoDotSegments(Traversal(Style(from), Style(to)), relative)
    ensures var tail := [TargetSeparator(to)] + relative;
            && StripPathPrefix(to + [TargetSeparator(to)] + relative, to, Style(to)) == Some(tail)
            && NoDotSegments(Traversal(Style(to), Style(from)), tail)
  {
    var tail := [TargetSeparator(to)] + relative;
    var text := to + [TargetSeparator(to)] + relative;
    assert text == to + tail && text[..|to|] == to && text[|to|..] == tail && text[|to|] == tail[0];
    SamePathAsItself(Style(to), to);
    var style := Traversal(Style(from), Style(to));
    NoDotSegmentsMeans(style, relative);
    NoDotSegmentsMeans(style, tail);
    if DotsSomewhere(style, tail) {
      var i, n :| DotsAt(style, tail, i, n);
      assert i > 0 && tail[1..] == relative;
      LaterSegmentDots(style, tail, 1, i - 1, n);
      assert false;
    }
  }

  /** What is left of a root without a trailing separator of either kind. */
  function Base(root: Bytes): Bytes {
    TrimEnd(Windows, root)
  }

  /** A root with at most one trailing separator, in its own style. */
  predicate Tidy(root: Bytes) {
    |root| == |Base(root)| || (|root| == |Base(root)| + 1 && Separator(Style(root), root[|root| - 1]))
  }

  /** The text is one of characters: no continuation byte follows a byte of ASCII. */
  predicate OfCharacters(text: Bytes) {
    forall i :: 0 <= i < |text| - 1 && text[i] < 0x80 ==> !(0x80 <= text[i + 1] < 0xC0)
  }

  lemma BaseOf(root: Bytes)
    ensures Base(root) == root[..|Base(root)|] && (|root| > |Base(root)| ==> EitherSlash(root[|Base(root)|]))
  {
  }

  lemma JoinedTidily(to: Bytes, suffix: Bytes, from: PathStyle)
    requires suffix != [] && Tidy(to)
    ensures Joined(to, suffix, from)
         == Base(to) + [TargetSeparator(to)] + Normalized(TrimStart(from, suffix), from, TargetSeparator(to))
  {
    var relative := Normalized(TrimStart(from, suffix), from, TargetSeparator(to));
    assert [] + [SLASH] + relative == [SLASH] + relative;
  }

  /** Where a path below a tidy root goes on behind the root, with or without its separator. */
  function Tail(root: Bytes, relative: Bytes): Bytes {
    if |root| == |Base(root)| then [TargetSeparator(root)] + relative else relative
  }

  lemma StripsTidily(to: Bytes, from: Bytes, relative: Bytes)
    requires Tidy(to) && NoDotSegments(Traversal(Style(from), Style(to)), relative)
    requires relative != [] ==> !(0x80 <= relative[0] < 0xC0)
    ensures StripPathPrefix(Base(to) + [TargetSeparator(to)] + relative, to, Style(to)) == Some(Tail(to, relative))
    ensures NoDotSegments(Traversal(Style(to), Style(from)), Tail(to, relative))
  {
    BaseOf(to);
    if |to| == |Base(to)| {
      assert Base(to) == to;
      StripsBack(to, from, relative);
    } else {
      var text := Base(to) + [TargetSeparator(to)] + relative;
      assert text[|to|..] == relative && text[..|to|] == Base(to) + [TargetSeparator(to)];
      assert to == Base(to) + [to[|to| - 1]];
      assert SamePathPrefix(Style(to), text[..|to|], to);
    }
  }

  lemma TailTrimmed(root: Bytes, relative: Bytes)
    ensures TrimStart(Style(root), Tail(root, relative)) == TrimStart(Style(root), relative)
  {
    TrimOne(Style(root), TargetSeparator(root), relative);
  }

  lemma TrimOne(style: PathStyle, separator: Byte, s: Bytes)
    requires Separator(style, separator)
    ensures TrimStart(style, [separator] + s) == TrimStart(style, s)
  {
    assert ([separator] + s)[1..] == s;
  }

  /** What the way there and back makes of the text behind the source. */
  function Returned(suffix: Bytes, from: Bytes, to: Bytes): Bytes {
    var there := Normalized(TrimStart(Style(from), suffix), Style(from), TargetSeparator(to));
    Normalized(TrimStart(Style(to), there), Style(to), TargetSeparator(from))
  }

  lemma SeparatorIsOwn(root: Bytes)
    ensures Separator(Style(root), TargetSeparator(root))
  {
  }

  /** A text behind the source and its separator that the way there and back leaves alone. */
  predicate Unaltered(rest: Bytes, from: Bytes, to: Bytes) {
    && (rest != [] ==> !Separator(Style(from), rest[0]))
    && forall i :: 0 <= i < |rest| && Separator(Traversal(Style(from), Style(to)), rest[i]) ==> rest[i] == TargetSeparator(from)
  }

  lemma ReturnsUnaltered(rest: Bytes, from: Bytes, to: Bytes)
    requires Unaltered(rest, from, to)
    ensures Returned(rest, from, to) == rest
  {
    var there := Normalized(rest, Style(from), TargetSeparator(to));
    SeparatorIsOwn(from);
    SeparatorIsOwn(to);
    assert TrimStart(Style(from), rest) == rest;
    assert TrimStart(Style(to), there) == there;
    assert forall i :: 0 <= i < |rest| ==> Normalized(there, Style(to), TargetSeparator(from))[i] == rest[i];
  }

  lemma NothingTrimmed(style: PathStyle, s: Bytes)
    requires |TrimStart(style, s)| == |s|
    ensures TrimStart(style, s) == s && (s != [] ==> !Separator(style, s[0]))
  {
    TrimStartDrops(style, s);
  }

  /** After both replacements a separator of either root is the source's own. */
  lemma TwiceReplaced(b: Byte, from: Bytes, to: Bytes)
    ensures var there := if Separator(Style(from), b) then TargetSeparator(to) else b;
            var back := if Separator(Style(to), there) then TargetSeparator(from) else there;
            Separator(Traversal(Style(from), Style(to)), back) ==> back == TargetSeparator(from)
  {
  }

  lemma ReturnsAltered(rest: Bytes, from: Bytes, to: Bytes)
    requires Returned(rest, from, to) == rest
    ensures Unaltered(rest, from, to)
  {
    var there := Normalized(TrimStart(Style(from), rest), Style(from), TargetSeparator(to));
    NothingTrimmed(Style(from), rest);
    NothingTrimmed(Style(to), there);
    forall i | 0 <= i < |rest| && Separator(Traversal(Style(from), Style(to)), rest[i]) ensures rest[i] == TargetSeparator(from) {
      TwiceReplaced(rest[i], from, to);
    }
  }

  /** What behind the base of the source is restored. */
  predicate Restorable(full: Bytes, from: Bytes, to: Bytes) {
    && full != [] && full[0] == TargetSeparator(from)
    && Unaltered(full[1..], from, to)
    && (|full| == 1 ==> |to| == |Base(to)|)
  }

  /** Where the relative path begins, a character begins. */
  lemma RelativeStarts(text: Bytes, from: Bytes, separator: Byte)
    requires OfCharacters(text) && separator < 0x80 && StripPathPrefix(text, from, Style(from)).Some?
    ensures var relative := Normalized(TrimStart(Style(from), text[|from|..]), Style(from), separator);
            relative != [] ==> !(0x80 <= relative[0] < 0xC0)
  {
    var suffix := text[|from|..];
    var trimmed := TrimStart(Style(from), suffix);
    TrimStartDrops(Style(from), suffix);
    if trimmed != [] && |trimmed| < |suffix| {
      var k := |suffix| - |trimmed|;
      assert suffix[k - 1] == text[|from| + k - 1] && trimmed[0] == text[|from| + k];
    }
  }

  /** A path below the source, there and back. */
  lemma WayBack(text: Bytes, from: Bytes, to: Bytes)
    requires Tidy(from) && Tidy(to) && OfCharacters(text) && RewritePath(text, from, to).Some? && |text| > |from|
    ensures var suffix := text[|from|..];
            RewritePath(RewritePath(text, from, to).value, to, from)
              == Some(if TrimStart(Style(from), suffix) == [] && |to| > |Base(to)| then from
                      else Base(from) + [TargetSeparator(from)] + Returned(suffix, from, to))
  {
    var suffix, separator := text[|from|..], TargetSeparator(to);
    var relative := Normalized(TrimStart(Style(from), suffix), Style(from), separator);
    RelativeHasNoDots(suffix, from, to);
    RelativeStarts(text, from, separator);
    JoinedTidily(to, suffix, Style(from));
    StripsTidily(to, from, relative);
    TailTrimmed(to, relative);
    if Tail(to, relative) != [] {
      JoinedTidily(from, Tail(to, relative), Style(to));
    }
  }

  /** Past the base of the source comes a separator, and then what the rewriting looks at. */
  lemma BehindBase(text: Bytes, from: Bytes)
    requires Tidy(from) && StripPathPrefix(text, from, Style(from)).Some? && |text| > |from|
    ensures var full := text[|Base(from)|..];
            && full != [] && TrimStart(Style(from), text[|from|..]) == TrimStart(Style(from), full[1..])
            && (|full| == 1 ==> TrimStart(Style(from), text[|from|..]) == [])
  {
    var full, suffix := text[|Base(from)|..], text[|from|..];
    BaseOf(from);
    if |from| == |Base(from)| {
      assert Base(from) == from && full == suffix;
      if Separator(Style(from), suffix[0]) {
        assert suffix == [suffix[0]] + suffix[1..];
        TrimOne(Style(from), suffix[0], suffix[1..]);
      }
    } else {
      assert full[1..] == suffix;
    }
  }

  lemma RestoredExactly(text: Bytes, from: Bytes, to: Bytes)
    requires Tidy(from) && StripPathPrefix(text, from, Style(from)).Some? && |text| > |from|
    ensures var suffix := text[|from|..];
            (!(TrimStart(Style(from), suffix) == [] && |to| > |Base(to)|) &&
             Base(from) + [TargetSeparator(from)] + Returned(suffix, from, to) == text) <==>
              Base(from) <= text && Restorable(text[|Base(from)|..], from, to)
  {
    var full, suffix := text[|Base(from)|..], text[|from|..];
    BehindBase(text, from);
    assert Returned(suffix, from, to) == Returned(full[1..], from, to);
    SameTail(Base(from), TargetSeparator(from), Returned(suffix, from, to), text);
    if Unaltered(full[1..], from, to) {
      ReturnsUnaltered(full[1..], from, to);
      assert TrimStart(Style(from), full[1..]) == full[1..];
    } else if Returned(full[1..], from, to) == full[1..] {
      ReturnsAltered(full[1..], from, to);
    }
  }

  lemma SameTail(base: Bytes, separator: Byte, tail: Bytes, text: Bytes)
    requires |base| < |text|
    ensures base + [separator] + tail == text <==>
              base <= text && text[|base|] == separator && text[|base|..][1..] == tail
  {
    if base <= text && text[|base|] == separator && text[|base|..][1..] == tail {
      assert text == base + [text[|base|]] + text[|base|..][1..];
    }
  }

  /**
   A path rewritten to the target and back is restored exactly if it is the
   source itself, or the source's base, its own separator and a text that does
   not begin with a separator and holds none but the source's own (and is not
   empty if the target ends in a separator); between roots of either style with
   at most one trailing separator.
   */
  lemma PathRoundTripExactly(text: Bytes, from: Bytes, to: Bytes)
    requires Tidy(from) && Tidy(to) && OfCharacters(text) && RewritePath(text, from, to).Some?
    ensures RewritePath(RewritePath(text, from, to).value, to, from) == Some(text) <==>
              || text == from
              || (|text| > |from| && Base(from) <= text && Restorable(text[|Base(from)|..], from, to))
  {
    if |text| == |from| {
      EmptyRoundTrip(from, to);
      assert text[|from|..] == [];
    } else {
      WayBack(text, from, to);
      RestoredExactly(text, from, to);
    }
  }

  lemma EmptyRoundTrip(from: Bytes, to: Bytes)
    ensures RewritePath(to, to, from) == Some(from)
  {
    SamePathAsItself(Style(to), to);
    assert to[..|to|] == to && to[|to|..] == [];
    NoDotSegmentsMeans(Traversal(Style(from), Style(to)), []);
  }

  /** The same text, but for the kind of slashes and the case of the drive letter of a Windows root. */
  predicate SpelledLike(c: Bytes, root: Bytes) {
    && |c| == |root|
    && forall i :: 0 <= i < |c| ==>
         || c[i] == root[i]
         || (Style(root) == Windows && (c[i] == SLASH || c[i] == BACKSLASH) && (root[i] == SLASH || root[i] == BACKSLASH))
         || (Style(root) == Windows && i == 0 && Lower(c[0]) == Lower(root[0]))
  }

  /** Which texts begin with a root: its spellings, at a separator. */
  lemma StripsExactly(text: Bytes, root: Bytes)
    ensures StripPathPrefix(text, root, Style(root)).Some? <==>
              && |text| >= |root| && SpelledLike(text[..|root|], root) && CharBoundary(text, |root|)
              && (|text| == |root| || (root != [] && Separator(Style(root), root[|root| - 1])) || Separator(Style(root), text[|root|]))
    ensures StripPathPrefix(text, root, Style(root)).Some? ==> StripPathPrefix(text, root, Style(root)).value == text[|root|..]
  {
    if |text| >= |root| {
      SamePathMeans(text[..|root|], root);
    }
  }

  lemma SamePathMeans(c: Bytes, root: Bytes)
    requires |c| == |root|
    ensures SamePathPrefix(Style(root), c, root) <==> SpelledLike(c, root)
  {
  }

  /**
   A file below the source, in any spelling of the source, becomes the same
   file below the target, with the target's separators, for every name without
   dot segments in either style.
   */
  lemma PathIsCarried(c: Bytes, separator: Byte, rest: Bytes, from: Bytes, to: Bytes)
    requires SpelledLike(c, from) && Separator(Style(from), separator)
    requires Tidy(to) && (rest == [] || !Separator(Style(from), rest[0]))
    requires NoDotSegments(Traversal(Style(from), Style(to)), rest)
    ensures var own := if Style(to) == Windows then to[2] else SLASH;
            RewritePath(c + [separator] + rest, from, to) == Some(Base(to) + [own] + Normalized(rest, Style(from), own))
  {
    var suffix := [separator] + rest;
    var text := c + [separator] + rest;
    assert text[..|from|] == c && text[|from|..] == suffix && text[|from|] == separator;
    StripsExactly(text, from);
    SeparatedNoDots(Traversal(Style(from), Style(to)), separator, rest);
    JoinedTidily(to, suffix, Style(from));
    TrimOne(Style(from), separator, rest);
  }

}
