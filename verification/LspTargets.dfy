/**
 Where a rewritten URI points: with encoded prefixes, the same relative path
 below the target; with raw prefixes, below the target exactly when the target
 has nothing in it that a URI reads otherwise.
 */
module LspTargets {
  import opened Protocol
  import opened LspText
  import opened LspUris

  // ---- encoded prefixes ----------------------------------------------------------------------

  /** `c` spells the encoding of `path`, up to the case of hex digits. */
  predicate Spells(c: Bytes, path: Bytes) {
    if path == [] then c == []
    else if Plain(path[0]) then c != [] && c[0] == path[0] && Spells(c[1..], path[1..])
    else
      && |c| >= 3 && c[0] == PERCENT
      && HexValue(c[1]) == Some(path[0] / 16) && HexValue(c[2]) == Some(path[0] % 16)
      && Spells(c[3..], path[1..])
  }

  lemma {:induction false} SameFromSpells(c: Bytes, prefix: Bytes, drive: bool, i: nat, path: Bytes)
    requires |c| == |prefix| && i <= |prefix| && SameFrom(c, prefix, drive, i)
    requires prefix[i..] == Encode(path) && i >= (if drive then 9 else |FILE|)
    ensures Spells(c[i..], path)
    decreases |path|
  {
    if path != [] {
      var e, rest := EncodedByte(path[0]), Encode(path[1..]);
      assert prefix[i..] == e + rest;
      assert prefix[i] == prefix[i..][0] == e[0];
      assert prefix[i + |e|..] == prefix[i..][|e|..] == rest;
      if Plain(path[0]) {
        assert c[i..][1..] == c[i + 1..];
      } else {
        assert prefix[i + 1] == prefix[i..][1] == e[1] && prefix[i + 2] == prefix[i..][2] == e[2];
        assert c[i..][3..] == c[i + 3..];
      }
      SameFromSpells(c, prefix, drive, i + |e|, path[1..]);
    }
  }

  lemma {:induction false} SpelledBytes(c: Bytes, path: Bytes)
    requires Spells(c, path)
    ensures forall i :: 0 <= i < |c| ==> c[i] != QUERY && c[i] != FRAGMENT
    decreases |path|
  {
    if path != [] {
      var n := if Plain(path[0]) then 1 else 3;
      SpelledBytes(c[n..], path[1..]);
      forall i | n <= i < |c| ensures c[i] != QUERY && c[i] != FRAGMENT {
        assert c[i] == c[n..][i - n];
      }
    }
  }

  lemma {:induction false} SpelledDecodes(c: Bytes, path: Bytes, rest: Bytes)
    requires Spells(c, path)
    ensures Decode(c + rest) == Prefixed(path, Decode(rest))
    decreases |path|
  {
    if path == [] {
      assert c + rest == rest;
      PrefixedByNothing(Decode(rest));
    } else {
      var n := if Plain(path[0]) then 1 else 3;
      SpelledDecodes(c[n..], path[1..], rest);
      assert (c + rest)[n..] == c[n..] + rest;
      PrefixedTwice([path[0]], path[1..], Decode(rest));
      assert [path[0]] + path[1..] == path;
    }
  }

  lemma SpelledPath(c: Bytes, path: Bytes, suffix: Bytes)
    requires Spells(c, path)
    ensures PathPart(c + suffix) == c + PathPart(suffix)
    ensures Decode(c + PathPart(suffix)) == Prefixed(path, Decode(PathPart(suffix)))
  {
    SpelledBytes(c, path);
    PathPartAfter(c, suffix);
    SpelledDecodes(c, path, PathPart(suffix));
  }

  /** The same path, but for the case of a Windows drive letter. */
  predicate SameButDrive(a: Bytes, b: Bytes, style: PathStyle) {
    if style == Posix then a == b
    else |a| == |b| >= 2 && a[0] == b[0] && a[2..] == b[2..] && Lower(a[1]) == Lower(b[1])
  }

  lemma EncodeDrive(p: Bytes)
    requires |p| >= 3 && p[0] == SLASH && Letter(p[1]) && p[2] == COLON
    ensures Encode(p) == [SLASH, p[1]] + Encode(p[2..]) && Encode(p[2..]) == [COLON] + Encode(p[3..])
  {
    assert p[1..][1..] == p[2..] && p[2..][1..] == p[3..];
    assert EncodedByte(p[0]) == [SLASH] && EncodedByte(p[1]) == [p[1]] && EncodedByte(p[2]) == [COLON];
    assert Encode(p[1..]) == [p[1]] + Encode(p[2..]);
    assert [SLASH] + ([p[1]] + Encode(p[2..])) == [SLASH, p[1]] + Encode(p[2..]);
  }

  lemma DriveUri(path: Bytes)
    requires Style(path) == Windows
    ensures var p := FilePath(path);
            && |p| >= 4 && p[0] == SLASH && Letter(p[1]) && p[2] == COLON
            && |Uri(path)| > 9 && Uri(path)[7] == SLASH && Uri(path)[8] == p[1] && Uri(path)[9..] == Encode(p[2..])
            && HasDrive(Uri(path), Windows)
  {
    var p := FilePath(path);
    var drive: Bytes := [SLASH, p[1]];
    EncodeDrive(p);
    assert Uri(path) == FILE + (drive + Encode(p[2..]));
    AfterDrive(drive, Encode(p[2..]));
    assert FILE + [SLASH] == Uri(path)[..8];
  }

  lemma AfterDrive(drive: Bytes, rest: Bytes)
    requires |drive| == 2
    ensures var uri := FILE + (drive + rest);
            && |uri| == 9 + |rest| && uri[7] == drive[0] && uri[8] == drive[1] && uri[9..] == rest
            && (rest != [] ==> uri[9] == rest[0]) && uri[..8] == FILE + [drive[0]]
  {
    var uri := FILE + (drive + rest);
    assert uri[7..] == drive + rest;
  }

  lemma {:induction false} DecodePlain(head: Bytes, rest: Bytes)
    requires PERCENT !in head
    ensures Decode(head + rest) == Prefixed(head, Decode(rest))
    decreases |head|
  {
    if head == [] {
      assert head + rest == rest;
      PrefixedByNothing(Decode(rest));
    } else {
      assert (head + rest)[1..] == head[1..] + rest;
      DecodePlain(head[1..], rest);
      PrefixedTwice([head[0]], head[1..], Decode(rest));
      assert [head[0]] + head[1..] == head;
    }
  }

  lemma Regroup(c: Bytes, head: Bytes, tail: Bytes, suffix: Bytes)
    requires |c| >= 7 && c[7..] == head + tail
    ensures (c + suffix)[7..] == head + (tail + suffix)
  {
    assert (c + suffix)[7..] == c[7..] + suffix;
  }

  lemma SpelledUri(c: Bytes, head: Bytes, tail: Bytes, path: Bytes, suffix: Bytes)
    requires |c| >= 7 && c[7..] == head + tail && Spells(tail, path)
    requires PERCENT !in head && QUERY !in head && FRAGMENT !in head
    ensures UriPath(c + suffix) == Prefixed(head + path, Decode(PathPart(suffix)))
  {
    Regroup(c, head, tail, suffix);
    SpelledPath(tail, path, suffix);
    PathPartAfter(head, tail + suffix);
    DecodePlain(head, tail + PathPart(suffix));
    PrefixedTwice(head, path, Decode(PathPart(suffix)));
  }

  lemma DriveMatches(c: Bytes, path: Bytes)
    requires SamePrefix(c, Uri(path), Windows) && Style(path) == Windows
    ensures var p := FilePath(path);
            && |c| > 9 && Letter(c[8]) && c[7..] == [SLASH, c[8]] + c[9..]
            && |p| >= 4 && Spells(c[9..], p[2..])
            && SameButDrive([SLASH, c[8]] + p[2..], p, Windows)
  {
    var p := FilePath(path);
    DriveUri(path);
    SameFromLater(c, Uri(path), true, 7);
    assert SameFrom(c, Uri(path), true, 8) && SameFrom(c, Uri(path), true, 9);
    SameFromSpells(c, Uri(path), true, 9, p[2..]);
    TwoAhead(c, 7);
    assert ([SLASH, c[8]] + p[2..])[2..] == p[2..];
  }

  lemma TwoAhead(c: Bytes, n: nat)
    requires n + 2 <= |c|
    ensures c[n..] == [c[n], c[n + 1]] + c[n + 2..]
  {
  }

  lemma SchemeIsFirst(e: Bytes)
    ensures FILE <= FILE + e && (FILE + e)[7..] == e && |FILE + e| >= 7
  {
  }

  lemma PosixMatches(c: Bytes, path: Bytes)
    requires SamePrefix(c, Uri(path), Posix) && Style(path) == Posix
    ensures |c| >= 7 && c[7..] == [] + c[7..] && Spells(c[7..], path) && [] + path == path
  {
    SchemeIsFirst(Encode(path));
    SameFromLater(c, Uri(path), false, 7);
    SameFromSpells(c, Uri(path), false, 7, path);
  }

  /** A text that matched the encoded prefix names the prefix's path and, below it, what the suffix names. */
  lemma MatchedPath(c: Bytes, path: Bytes, suffix: Bytes) returns (source: Bytes)
    requires SamePrefix(c, Uri(path), Style(path))
    ensures SameButDrive(source, FilePath(path), Style(path))
    ensures UriPath(c + suffix) == Prefixed(source, Decode(PathPart(suffix)))
  {
    if Style(path) == Windows {
      DriveMatches(c, path);
      source := [SLASH, c[8]] + FilePath(path)[2..];
      SpelledUri(c, [SLASH, c[8]], c[9..], FilePath(path)[2..], suffix);
    } else {
      PosixMatches(c, path);
      source := path;
      SpelledUri(c, [], c[7..], path, suffix);
    }
  }

  /** The scheme holds no percent sign, so comparing goes past it byte by byte. */
  lemma {:induction false} SameFromLater(c: Bytes, prefix: Bytes, drive: bool, i: nat)
    requires |c| == |prefix| && SameFrom(c, prefix, drive, 0) && i <= |FILE| <= |prefix| && FILE <= prefix
    ensures SameFrom(c, prefix, drive, i)
    decreases i
  {
    if i > 0 {
      SameFromLater(c, prefix, drive, i - 1);
      assert prefix[i - 1] == FILE[i - 1];
    }
  }

  predicate AtBoundary(dir: Bytes, rest: Bytes) {
    rest == [] || rest[0] == SLASH || EndsWith(dir, SLASH)
  }

  /**
   A URI rewritten by its encoded prefix: it named a path below the source, it
   now names the same relative path below the target, cut at a separator, and
   the relative path has no dot segment.
   */
  lemma SameRelativePath(text: Bytes, from: Bytes, to: Bytes) returns (source: Bytes, relative: Bytes)
    requires !HasWhitespace(text) && StripUriPrefix(text, Uri(from), Style(from)).Some?
    requires RewriteUri(text, from, to).Some? && to != []
    ensures SameButDrive(source, FilePath(from), Style(from)) && UriPath(text) == Some(source + relative)
    ensures var joint := Joint(Uri(from), Uri(to), StripUriPrefix(text, Uri(from), Style(from)).value);
            && UriPath(RewriteUri(text, from, to).value) == Some(FilePath(to) + (joint + relative))
            && AtBoundary(FilePath(to), joint + relative)
    ensures NoDotSegments(Traversal(Style(from), Style(to)), relative)
  {
    EncodedRewritten(text, from, to);
    var n := |Uri(from)|;
    var suffix := text[n..];
    relative := Decode(PathPart(suffix)).value;
    source := MatchedPath(text[..n], from, suffix);
    assert text[..n] + suffix == text;
    NamedThere(to, Joint(Uri(from), Uri(to), suffix), suffix, relative);
    BoundaryThere(from, to, suffix, relative);
  }

  lemma NamedThere(to: Bytes, joint: Bytes, suffix: Bytes, relative: Bytes)
    requires (joint == [] || joint == [SLASH]) && Decode(PathPart(suffix)) == Some(relative)
    ensures UriPath(Uri(to) + joint + suffix) == Some(FilePath(to) + (joint + relative))
  {
    TargetPath(to, joint, suffix);
  }

  lemma EncodedRewritten(text: Bytes, from: Bytes, to: Bytes)
    requires StripUriPrefix(text, Uri(from), Style(from)).Some? && RewriteUri(text, from, to).Some?
    ensures var suffix := StripUriPrefix(text, Uri(from), Style(from)).value;
            && |Uri(from)| <= |text| && suffix == text[|Uri(from)|..]
            && SamePrefix(text[..|Uri(from)|], Uri(from), Style(from))
            && (suffix == [] || EndsWith(Uri(from), SLASH) || StartsSuffix(suffix[0]))
            && SuffixOk(suffix, Traversal(Style(from), Style(to)))
            && RewriteUri(text, from, to).value == Uri(to) + Joint(Uri(from), Uri(to), suffix) + suffix
  {
  }

  lemma BoundaryThere(from: Bytes, to: Bytes, suffix: Bytes, relative: Bytes)
    requires Decode(PathPart(suffix)) == Some(relative) && to != []
    requires suffix == [] || EndsWith(Uri(from), SLASH) || StartsSuffix(suffix[0])
    ensures AtBoundary(FilePath(to), Joint(Uri(from), Uri(to), suffix) + relative)
  {
    UriBytes(to);
    SuffixBoundary(suffix, relative);
  }

  lemma SuffixBoundary(suffix: Bytes, relative: Bytes)
    requires Decode(PathPart(suffix)) == Some(relative)
    ensures suffix == [] || suffix[0] == QUERY || suffix[0] == FRAGMENT ==> relative == []
    ensures suffix != [] && suffix[0] == SLASH ==> relative != [] && relative[0] == SLASH
  {
    if suffix != [] && suffix[0] == SLASH {
      assert PathPart(suffix)[0] == SLASH;
    }
  }

  lemma TargetPath(to: Bytes, joint: Bytes, suffix: Bytes)
    requires joint == [] || joint == [SLASH]
    ensures UriPath(Uri(to) + joint + suffix) == Prefixed(FilePath(to), Prefixed(joint, Decode(PathPart(suffix))))
  {
    var e := Encode(FilePath(to));
    UriTail(e, joint, suffix);
    EncodeBytes(FilePath(to));
    PathPartAfter(e, joint + suffix);
    PathPartAfter(joint, suffix);
    DecodeEncode(FilePath(to), joint + PathPart(suffix));
    DecodePlain(joint, PathPart(suffix));
  }

  lemma UriTail(e: Bytes, joint: Bytes, suffix: Bytes)
    ensures (FILE + e + joint + suffix)[7..] == e + (joint + suffix)
  {
    assert FILE + e + joint + suffix == FILE + (e + (joint + suffix));
  }

  // ---- raw prefixes ------------------------------------------------------------------------------

  /** A URI names a path that is the directory or below it at a separator, with no dot segment after it. */
  predicate PointsBelow(uri: Bytes, dir: Bytes, style: PathStyle)
    requires |uri| >= |FILE|
  {
    var path := UriPath(uri);
    && path.Some? && dir <= path.value
    && AtBoundary(dir, path.value[|dir|..]) && NoDotSegments(style, path.value[|dir|..])
  }

  predicate Literal(path: Bytes) {
    PERCENT !in path && QUERY !in path && FRAGMENT !in path
  }

  lemma {:induction false} DecodeShrinks(s: Bytes)
    ensures Decode(s).Some? ==> |Decode(s).value| <= |s|
    decreases |s|
  {
    if s != [] {
      DecodeShrinks(s[1..]);
      if |s| >= 3 { DecodeShrinks(s[3..]); }
    }
  }

  /** The length of the first encoded byte. */
  function Token(s: Bytes): nat {
    if s != [] && s[0] == PERCENT then 3 else 1
  }

  lemma DecodeFirst(s: Bytes)
    requires s != [] && Decode(s).Some?
    ensures Token(s) <= |s| && Decode(s[Token(s)..]).Some? && Decode(s).value != []
    ensures Decode(s).value[1..] == Decode(s[Token(s)..]).value
    ensures s[0] != PERCENT ==> Decode(s).value[0] == s[0]
    ensures s[0] == PERCENT ==> HexValue(s[1]).Some? && HexValue(s[2]).Some?
  {
  }

  /** The first encoded byte of `v + rest` does not reach past `v`. */
  lemma TokenWithin(v: Bytes, rest: Bytes)
    requires v != [] && AtBoundary(v, rest) && Decode(v + rest).Some?
    ensures Token(v) <= |v| && Token(v + rest) == Token(v)
  {
    DecodeFirst(v + rest);
    assert rest != [] ==> (v + rest)[|v|] == rest[0];
    assert (v + rest)[|v| - 1] == v[|v| - 1];
  }

  /**
   Decoding gets behind once it meets a percent sign and never catches up:
   `ahead` is what must still come out before the rest of the text does.
   */
  lemma {:induction false} NeverCatchesUp(v: Bytes, ahead: Bytes, rest: Bytes)
    requires SLASH !in ahead && (ahead != [] || PERCENT in v) && AtBoundary(v, rest)
    ensures Decode(v + rest).Some? ==> !(ahead + v <= Decode(v + rest).value)
    decreases |v|
  {
    if Decode(v + rest).Some? && ahead + v <= Decode(v + rest).value {
      var d := Decode(v + rest).value;
      if v == [] {
        assert v + rest == rest && d[0] == ahead[0];
        if rest != [] { DecodeFirst(rest); }
        assert false;
      } else {
        TokenWithin(v, rest);
        DecodeFirst(v + rest);
        var n := Token(v);
        var e, next := v[..n], v[n..];
        assert (v + rest)[n..] == next + rest;
        var owed := ahead + e;
        assert v == e + next;
        Reassociate(ahead, e, next);
        assert d[0] == owed[0];
        PrefixTails(owed, next, d);
        StillBehind(v, ahead, d[0], rest);
        NeverCatchesUp(next, owed[1..], rest);
        assert false;
      }
    }
  }

  lemma Reassociate(a: Bytes, b: Bytes, c: Bytes)
    ensures a + (b + c) == a + b + c
  {
  }

  lemma PrefixTails(owed: Bytes, next: Bytes, d: Bytes)
    requires owed != [] && owed + next <= d
    ensures owed[1..] + next <= d[1..]
  {
    assert owed[1..] + next == (owed + next)[1..];
  }

  lemma StillBehind(v: Bytes, ahead: Bytes, first: Byte, rest: Bytes)
    requires v != [] && Token(v) <= |v| && SLASH !in ahead && (ahead != [] || PERCENT in v) && AtBoundary(v, rest)
    requires first == (ahead + v[..Token(v)])[0]
    requires v[0] != PERCENT ==> first == v[0]
    requires v[0] == PERCENT ==> HexValue(v[1]).Some? && HexValue(v[2]).Some?
    ensures var owed, next := ahead + v[..Token(v)], v[Token(v)..];
            SLASH !in owed[1..] && (owed[1..] != [] || PERCENT in next) && AtBoundary(next, rest)
  {
    var n := Token(v);
    var owed, next := ahead + v[..n], v[n..];
    assert forall i :: 0 <= i < |owed| ==> owed[i] == if i < |ahead| then ahead[i] else v[i - |ahead|];
    assert v == v[..n] + next;
    if next == [] {
      assert EndsWith(v, SLASH) ==> v[n - 1] == SLASH;
    } else {
      assert next[|next| - 1] == v[|v| - 1];
    }
  }

  lemma PathPartShort(dir: Bytes, rest: Bytes)
    requires QUERY in dir || FRAGMENT in dir
    ensures |PathPart(dir + rest)| < |dir|
  {
    var i :| 0 <= i < |dir| && (dir[i] == QUERY || dir[i] == FRAGMENT);
    assert (dir + rest)[i] == dir[i];
  }

  lemma RawTarget(dir: Bytes, middle: Bytes, style: PathStyle)
    requires var path := Decode(PathPart(middle)); path.Some? && AtBoundary(dir, path.value) && NoDotSegments(style, path.value)
    requires AtBoundary(dir, PathPart(middle))
    ensures PointsBelow(FILE + dir + middle, dir, style) <==> Literal(dir)
  {
    var uri := FILE + dir + middle;
    assert uri[7..] == dir + middle;
    if QUERY in dir || FRAGMENT in dir {
      PathPartShort(dir, middle);
      DecodeShrinks(PathPart(dir + middle));
    } else {
      PathPartAfter(dir, middle);
      var rest := PathPart(middle);
      if PERCENT in dir {
        NeverCatchesUp(dir, [], rest);
        assert [] + dir == dir;
      } else {
        DecodePlain(dir, rest);
        assert (dir + Decode(rest).value)[|dir|..] == Decode(rest).value;
      }
    }
  }

  /**
   A URI rewritten by its raw prefix points below the target, with no dot
   segment after it, exactly when the target's path has no percent sign,
   question mark or number sign in it.
   */
  lemma RawTargetExactly(text: Bytes, from: Bytes, to: Bytes)
    requires to != [] && StripUriPrefix(text, Uri(from), Style(from)).None?
    requires RewriteUri(text, from, to).Some?
    ensures |RewriteUri(text, from, to).value| >= |FILE|
    ensures PointsBelow(RewriteUri(text, from, to).value, FilePath(to), Traversal(Style(from), Style(to))) <==>
            Literal(FilePath(to))
  {
    RawRewritten(text, from, to);
    var suffix := StripUriPrefix(text, RawUri(from), Style(from)).value;
    var joint := Joint(RawUri(from), RawUri(to), suffix);
    var dir := FilePath(to);
    var path := PathPart(suffix);
    assert EndsWith(RawUri(to), SLASH) <==> EndsWith(dir, SLASH) by {
      assert RawUri(to)[|RawUri(to)| - 1] == dir[|dir| - 1];
    }
    PathPartAfter(joint, suffix);
    DecodePlain(joint, path);
    SuffixBoundary(suffix, Decode(path).value);
    assert joint == [] ==> joint + path == path && joint + Decode(path).value == Decode(path).value;
    SeparatedNoDots(Traversal(Style(from), Style(to)), SLASH, Decode(path).value);
    RawTarget(dir, joint + suffix, Traversal(Style(from), Style(to)));
  }

  lemma RawRewritten(text: Bytes, from: Bytes, to: Bytes)
    requires StripUriPrefix(text, Uri(from), Style(from)).None? && RewriteUri(text, from, to).Some?
    ensures StripUriPrefix(text, RawUri(from), Style(from)).Some?
    ensures var suffix := StripUriPrefix(text, RawUri(from), Style(from)).value;
            && SuffixOk(suffix, Traversal(Style(from), Style(to)))
            && RewriteUri(text, from, to).value == FILE + FilePath(to) + (Joint(RawUri(from), RawUri(to), suffix) + suffix)
  {
    var suffix := StripUriPrefix(text, RawUri(from), Style(from)).value;
    var joint := Joint(RawUri(from), RawUri(to), suffix);
    assert FILE + FilePath(to) + joint + suffix == FILE + FilePath(to) + (joint + suffix);
  }

  /** A raw prefix alone becomes the other raw prefix. */
  lemma RawPrefixAlone(from: Bytes, to: Bytes)
    requires !HasWhitespace(RawUri(from)) && |Uri(from)| > |RawUri(from)|
    ensures RewriteUri(RawUri(from), from, to) == Some(RawUri(to))
  {
    var text := RawUri(from);
    assert text[|text|..] == [] && text[..|text|] == text;
    SameAsItself(text, HasDrive(text, Style(from)), 0);
    assert StripUriPrefix(text, text, Style(from)) == Some([]);
    assert PathPart([]) == [];
    assert forall style :: Segments(style, []) == [[]];
    assert RawUri(to) + [] + [] == RawUri(to);
  }

  /** For instance a root called `/%41`, reached from `/{`: the URI names `/A` instead. */
  lemma RawTargetCanMiss()
    ensures var from, to := [SLASH, 0x7B], [SLASH, PERCENT, 0x34, 0x31];
            RewriteUri(FILE + from, from, to) == Some(FILE + to) && UriPath(FILE + to) == Some([SLASH, 0x41])
  {
    var from: Bytes, to: Bytes := [SLASH, 0x7B], [SLASH, PERCENT, 0x34, 0x31];
    assert |Encode(from)| == 4 by {
      assert from[1..] == [0x7B] && from[1..][1..] == [];
      assert Encode([0x7B]) == EncodedByte(0x7B) + Encode([]);
    }
    assert FilePath(from) == from && FilePath(to) == to;
    assert forall i :: 0 <= i < |FILE + from| ==> !WhitespaceAt(FILE + from, i);
    RawPrefixAlone(from, to);
    DecodeOneByte();
    assert (FILE + to)[7..] == to && to + [] == to;
    PathPartAfter(to, []);
  }

  lemma DecodeOneByte()
    ensures Decode([SLASH, PERCENT, 0x34, 0x31]) == Some([SLASH, 0x41])
  {
    var hex: Bytes := [PERCENT, 0x34, 0x31];
    assert HexValue(hex[1]) == Some(4) && HexValue(hex[2]) == Some(1) && hex[3..] == [];
    assert Decode([]) == Some([]);
    var a: Bytes := [0x41];
    assert a + [] == a && Decode(hex) == Some(a);
    assert [SLASH] + hex == [SLASH, PERCENT, 0x34, 0x31] && ([SLASH] + hex)[1..] == hex;
    assert Decode([SLASH] + hex) == Prefixed([SLASH], Some(a));
    assert [SLASH] + a == [SLASH, 0x41];
  }
}
