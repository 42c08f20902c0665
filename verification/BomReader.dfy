/**
 A reader that removes one leading byte-order mark from a binary stream
 (crates/nrm-sidecar/src/bom_reader.rs), over an inner reader that hands out
 its bytes in pieces of any size and fails whenever it likes.
 */
module BomReader {
  import opened Protocol

  const BOM: seq<Byte> := [0xEF, 0xBB, 0xBF]

  datatype Item = Data(b: Byte) | Fault(code: nat) | Retry | Pause

  /** What a reader still has to say: bytes, errors, interruptions and reads of nothing. */
  datatype Tape = Blank | Cell(head: Item, tail: Tape)

  datatype Reply = Count(n: nat) | Broken(code: nat) | Interrupted

  function Put(bytes: seq<Byte>, tape: Tape): Tape {
    if bytes == [] then tape else Cell(Data(bytes[0]), Put(bytes[1..], tape))
  }

  function Length(tape: Tape): nat {
    if tape.Blank? then 0 else 1 + Length(tape.tail)
  }

  lemma {:induction false} PutTwice(a: seq<Byte>, b: seq<Byte>, tape: Tape)
    ensures Put(a + b, tape) == Put(a, Put(b, tape))
    decreases |a|
  {
    if a == [] {
      assert a + b == b;
    } else {
      assert (a + b)[1..] == a[1..] + b;
      PutTwice(a[1..], b, tape);
    }
  }

  /** What one reply of a reader took from its tape. */
  predicate Replies(before: Tape, r: Reply, bytes: seq<Byte>, tape: Tape) {
    match r
    case Count(n) =>
      && n == |bytes|
      && if n == 0 then before == tape == Blank || before == Cell(Pause, tape) else before == Put(bytes, tape)
    case Broken(e) => before == Cell(Fault(e), tape)
    case Interrupted => before == Cell(Retry, tape)
  }

  /** The inner reader; `limit` decides how much it gives at a time. */
  class Inner {
    var tape: Tape
    const limit: Tape -> nat

    constructor (tape: Tape, limit: Tape -> nat)
      ensures this.tape == tape && this.limit == limit
    {
      this.tape, this.limit := tape, limit;
    }

    method Read(buffer: array<Byte>, start: nat) returns (r: Reply)
      requires start < buffer.Length
      modifies this`tape, buffer
      ensures buffer[..start] == old(buffer[..start])
      ensures r.Count? ==> start + r.n <= buffer.Length
      ensures Replies(old(tape), r, if r.Count? then buffer[start..start + r.n] else [], tape)
    {
      if tape.Blank? {
        return Count(0);
      }
      if !tape.head.Data? {
        r := if tape.head.Fault? then Broken(tape.head.code) else if tape.head.Retry? then Interrupted else Count(0);
        tape := tape.tail;
        return;
      }
      var most := limit(tape);
      var n := 0;
      while n == 0 || (start + n < buffer.Length && n < most && tape.Cell? && tape.head.Data?)
        invariant start + n <= buffer.Length && buffer[..start] == old(buffer[..start])
        invariant n == 0 ==> tape.Cell? && tape.head.Data?
        invariant Put(buffer[start..start + n], tape) == old(tape)
        decreases buffer.Length - start - n
      {
        ghost var bytes := buffer[start..start + n];
        buffer[start + n] := tape.head.b;
        PutTwice(bytes, [tape.head.b], tape.tail);
        assert buffer[start..start + n + 1] == bytes + [tape.head.b];
        tape := tape.tail;
        n := n + 1;
      }
      r := Count(n);
    }
  }

  // ---- what a caller is to see ------------------------------------------------------------------

  /** Everything a caller is to see of a tape, given the bytes `got` towards a possible mark. */
  function Expected(tape: Tape, got: seq<Byte>): Tape {
    if |got| >= 3 then (if got == BOM then tape else Put(got, tape))
    else match tape
      case Blank => Put(got, Blank)
      case Cell(Data(b), rest) => Expected(rest, got + [b])
      case Cell(Retry, rest) => Expected(rest, got)
      case Cell(Pause, rest) => Put(got, rest)
      case Cell(Fault(e), rest) => if got == [] then Cell(Fault(e), Expected(rest, got)) else Put(got, tape)
  }

  /** Reads of nothing carry no information. */
  function Visible(tape: Tape): Tape {
    match tape
    case Blank => Blank
    case Cell(Pause, rest) => Visible(rest)
    case Cell(item, rest) => Cell(item, Visible(rest))
  }

  lemma {:induction false} VisiblePut(bytes: seq<Byte>, tape: Tape)
    ensures Visible(Put(bytes, tape)) == Put(bytes, Visible(tape))
    decreases |bytes|
  {
    if bytes != [] {
      VisiblePut(bytes[1..], tape);
    }
  }

  lemma {:induction false} ExpectedData(bytes: seq<Byte>, rest: Tape, got: seq<Byte>)
    requires |got| + |bytes| <= 3
    ensures Expected(Put(bytes, rest), got) == Expected(rest, got + bytes)
    decreases |bytes|
  {
    if bytes == [] {
      assert got + bytes == got;
    } else {
      ExpectedData(bytes[1..], rest, got + [bytes[0]]);
      assert got + [bytes[0]] + bytes[1..] == got + bytes;
    }
  }

  /** A reply and its bytes, as the caller sees them in front of the rest. */
  function Seen(r: Reply, bytes: seq<Byte>, rest: Tape): Tape {
    match r
    case Count(_) => Put(bytes, rest)
    case Broken(e) => Cell(Fault(e), rest)
    case Interrupted => Cell(Retry, rest)
  }

  /** Kept bytes, a waiting error, and the rest of the tape. */
  function Behind(kept: seq<Byte>, waiting: Option<Reply>, tape: Tape): Tape {
    Put(kept, if waiting.Some? then Seen(waiting.value, [], tape) else tape)
  }

  class LeadingBomReader {
    const inner: Inner
    const prefix: array<Byte>
    var prefixLen: nat
    var prefixOffset: nat
    var initialized: bool
    var pendingError: Option<Reply>

    ghost predicate Valid()
      reads this
    {
      && prefix.Length == 3 && prefixOffset <= prefixLen <= 3
      && (!initialized ==> prefixLen == 0 && pendingError.None?)
      && (pendingError.Some? ==> !pendingError.value.Count?)
    }

    /** What is still to come, byte for byte and error for error. */
    ghost function Future(): Tape
      requires Valid()
      reads this, inner, prefix
    {
      if !initialized then Expected(inner.tape, [])
      else Behind(prefix[prefixOffset..prefixLen], pendingError, inner.tape)
    }

    constructor (inner: Inner)
      ensures Valid() && fresh(prefix) && this.inner == inner
      ensures Future() == Expected(inner.tape, [])
    {
      this.inner := inner;
      prefix := new Byte[3](_ => 0);
      prefixLen, prefixOffset, initialized, pendingError := 0, 0, false, None;
    }

    /** `initialize`: an error before any byte is the caller's, and detection starts over. */
    method Initialize() returns (r: Reply)
      requires Valid()
      modifies this, inner`tape, prefix
      ensures Valid()
      ensures r.Count? ==> initialized && Future() == old(Future())
      ensures Length(inner.tape) <= Length(old(inner.tape))
      ensures r.Broken? ==> !initialized && old(Future()) == Cell(Fault(r.code), Future())
      ensures !r.Interrupted?
    {
      if initialized {
        return Count(0);
      }
      ghost var goal := Future();
      var read := 0;
      assert prefix[..0] == [];
      while read < 3
        invariant Valid() && read <= 3 && !initialized
        invariant Expected(inner.tape, prefix[..read]) == goal
        invariant Length(inner.tape) <= Length(old(inner.tape))
        decreases Length(inner.tape), 3 - read
      {
        ghost var before, got := inner.tape, prefix[..read];
        var reply := inner.Read(prefix, read);
        match reply {
          case Count(n) =>
            if n == 0 {
              prefixLen, initialized := read, true;
              return Count(0);
            }
            assert prefix[..read + n] == got + prefix[read..read + n];
            ExpectedData(prefix[read..read + n], inner.tape, got);
            PutGrows(prefix[read..read + n], inner.tape);
            read := read + n;
          case Interrupted =>
          case Broken(e) =>
            if read == 0 {
              assert got == [];
              return reply;
            }
            prefixLen, initialized, pendingError := read, true, Some(reply);
            return Count(0);
        }
      }
      assert prefix[..3] == prefix[..];
      prefixLen := if prefix[..] == BOM then 0 else read;
      initialized := true;
      r := Count(0);
    }

    /** Hands out kept prefix bytes, as many as fit. */
    method TakePrefix(output: array<Byte>) returns (written: nat)
      requires Valid() && initialized && output != prefix
      modifies this`prefixOffset, output
      ensures Valid() && written <= output.Length
      ensures written < output.Length ==> prefixOffset == prefixLen
      ensures old(prefix[prefixOffset..prefixLen]) == output[..written] + prefix[prefixOffset..prefixLen]
    {
      var start := prefixOffset;
      written := if prefixLen - start <= output.Length then prefixLen - start else output.Length;
      var i := 0;
      while i < written
        invariant i <= written && forall k :: 0 <= k < i ==> output[k] == prefix[start + k]
        modifies output
      {
        output[i] := prefix[start + i];
        i := i + 1;
      }
      prefixOffset := start + written;
    }

    /** Past the prefix: a waiting error, or one read of the inner stream whose error waits behind earlier bytes. */
    method ReadBehind(output: array<Byte>, written: nat) returns (r: Reply)
      requires Valid() && initialized && prefixOffset == prefixLen && output != prefix && written < output.Length
      modifies this`pendingError, inner`tape, output
      ensures Valid() && output[..written] == old(output[..written])
      ensures if r.Count? then written <= r.n <= output.Length else written == 0
      ensures Visible(Behind([], old(pendingError), old(inner.tape))) ==
              Seen(r, if r.Count? then output[written..r.n] else [], Visible(Behind([], pendingError, inner.tape)))
      ensures Length(inner.tape) <= Length(old(inner.tape))
      ensures r == Count(0) ==> pendingError.None? && (inner.tape.Blank? || Length(inner.tape) < Length(old(inner.tape)))
    {
      if pendingError.Some? {
        if written != 0 {
          return Count(written);
        }
        r := pendingError.value;
        pendingError := None;
        return;
      }
      r := inner.Read(output, written);
      if r.Count? {
        VisiblePut(output[written..written + r.n], inner.tape);
        PutGrows(output[written..written + r.n], inner.tape);
        r := Count(written + r.n);
      } else if written != 0 {
        pendingError := Some(r);
        r := Count(written);
      }
    }

    /**
     `read`: what the call returns and what is still to come are together what
     was to come before, apart from reads of nothing.  Nothing is returned into
     a buffer with room only when the inner reader gave nothing: at its end, or
     by a read of nothing that is now used up.
     */
    method Read(output: array<Byte>) returns (r: Reply)
      requires Valid() && output != prefix
      modifies this, inner`tape, prefix, output
      ensures Valid()
      ensures r.Count? ==> r.n <= output.Length
      ensures Visible(old(Future())) == Seen(r, if r.Count? then output[..r.n] else [], Visible(Future()))
      ensures r == Count(0) && output.Length > 0 ==>
                Future() == inner.tape && (inner.tape.Blank? || Length(inner.tape) < Length(old(inner.tape)))
    {
      if output.Length == 0 {
        return Count(0);
      }
      r := Initialize();
      if r.Broken? {
        return;
      }
      ghost var waiting, before := pendingError, inner.tape;
      var written := TakePrefix(output);
      ghost var taken, kept := output[..written], prefix[prefixOffset..prefixLen];
      PutTwice(taken, kept, Behind([], waiting, before));
      VisiblePut(taken, Behind(kept, waiting, before));
      if written == output.Length {
        return Count(written);
      }
      assert kept == [];
      r := ReadBehind(output, written);
      if r.Count? {
        assert output[..r.n] == taken + output[written..r.n];
        PutTwice(taken, output[written..r.n], Visible(Future()));
      }
    }
  }

  lemma {:induction false} PutGrows(bytes: seq<Byte>, tape: Tape)
    ensures Length(Put(bytes, tape)) == |bytes| + Length(tape)
    decreases |bytes|
  {
    if bytes != [] {
      PutGrows(bytes[1..], tape);
    }
  }

  /** What a run of replies showed, in front of what is left. */
  function Told(replies: seq<(Reply, seq<Byte>)>, rest: Tape): Tape {
    if replies == [] then rest
    else
      var last := replies[|replies| - 1];
      Told(replies[..|replies| - 1], Seen(last.0, last.1, rest))
  }

  method ReadOnce(reader: LeadingBomReader, size: nat) returns (r: Reply, bytes: seq<Byte>)
    requires reader.Valid()
    modifies reader, reader.inner`tape, reader.prefix
    ensures reader.Valid() && |bytes| == if r.Count? then r.n else 0
    ensures Visible(old(reader.Future())) == Seen(r, bytes, Visible(reader.Future()))
    ensures r == Count(0) && size > 0 ==>
              && reader.Future() == reader.inner.tape
              && (reader.inner.tape.Blank? || Length(reader.inner.tape) < Length(old(reader.inner.tape)))
  {
    var buffer := new Byte[size](_ => 0);
    r := reader.Read(buffer);
    bytes := if r.Count? then buffer[..r.n] else [];
  }

  /** Any run of reads, with buffers of any sizes, hands out the expected stream from its start. */
  method ReadAll(reader: LeadingBomReader, sizes: seq<nat>) returns (replies: seq<(Reply, seq<Byte>)>)
    requires reader.Valid()
    modifies reader, reader.inner`tape, reader.prefix
    ensures reader.Valid() && |replies| == |sizes|
    ensures old(Visible(reader.Future())) == Told(replies, Visible(reader.Future()))
  {
    replies := [];
    for i := 0 to |sizes|
      invariant reader.Valid() && |replies| == i
      invariant old(Visible(reader.Future())) == Told(replies, Visible(reader.Future()))
    {
      var r, bytes := ReadOnce(reader, sizes[i]);
      assert (replies + [(r, bytes)])[..i] == replies;
      replies := replies + [(r, bytes)];
    }
  }

  /** Reading on, past errors, into buffers with room until the stream is used up: all of it comes out. */
  method ReadToEnd(reader: LeadingBomReader, extra: nat -> nat) returns (replies: seq<(Reply, seq<Byte>)>)
    requires reader.Valid()
    modifies reader, reader.inner`tape, reader.prefix
    ensures old(Visible(reader.Future())) == Told(replies, Blank)
  {
    replies := [];
    while true
      invariant reader.Valid()
      invariant old(Visible(reader.Future())) == Told(replies, Visible(reader.Future()))
      decreases Length(Visible(reader.Future())), Length(reader.inner.tape)
    {
      var r, bytes := ReadOnce(reader, 1 + extra(|replies|));
      assert (replies + [(r, bytes)])[..|replies|] == replies;
      PutGrows(bytes, Visible(reader.Future()));
      replies := replies + [(r, bytes)];
      if r == Count(0) && reader.inner.tape.Blank? {
        return;
      }
    }
  }

  // ---- what is expected ------------------------------------------------------------------------

  /** Bytes and errors in order; interruptions ask for another try and mean nothing themselves. */
  function Content(tape: Tape): Tape {
    match tape
    case Blank => Blank
    case Cell(Data(b), rest) => Cell(Data(b), Content(rest))
    case Cell(Fault(e), rest) => Cell(Fault(e), Content(rest))
    case Cell(_, rest) => Content(rest)
  }

  /**
   Whether the stream begins, after any errors, with the mark in one stretch:
   no read of nothing before its last byte, and no error between its bytes.
   */
  predicate BeginsWithMark(tape: Tape, got: seq<Byte>) {
    if |got| >= 3 then got == [0xEF, 0xBB, 0xBF]
    else match tape
      case Blank => false
      case Cell(Data(b), rest) => BeginsWithMark(rest, got + [b])
      case Cell(Retry, rest) => BeginsWithMark(rest, got)
      case Cell(Pause, _) => false
      case Cell(Fault(_), rest) => got == [] && BeginsWithMark(rest, got)
  }

  /** `rest` is `all` without a mark that only errors precede. */
  predicate MarkCutOut(all: Tape, rest: Tape) {
    || all == Put([0xEF, 0xBB, 0xBF], rest)
    || (all.Cell? && all.head.Fault? && rest.Cell? && rest.head == all.head && MarkCutOut(all.tail, rest.tail))
  }

  lemma {:induction false} ContentPut(bytes: seq<Byte>, tape: Tape)
    ensures Content(Put(bytes, tape)) == Put(bytes, Content(tape))
    decreases |bytes|
  {
    if bytes != [] {
      ContentPut(bytes[1..], tape);
    }
  }

  lemma {:induction false} ExpectedWithoutMark(tape: Tape, got: seq<Byte>)
    requires !BeginsWithMark(tape, got)
    ensures Content(Expected(tape, got)) == Put(got, Content(tape))
    decreases tape
  {
    ContentPut(got, tape);
    if |got| < 3 && tape.Cell? {
      match tape.head {
        case Data(b) =>
          ExpectedWithoutMark(tape.tail, got + [b]);
          PutTwice(got, [b], Content(tape.tail));
        case Retry => ExpectedWithoutMark(tape.tail, got);
        case Pause => ContentPut(got, tape.tail);
        case Fault(e) =>
          if got == [] {
            ExpectedWithoutMark(tape.tail, got);
          }
      }
    }
  }

  /** Once its first byte is there the mark is what is left out. */
  lemma {:induction false} ExpectedWithinMark(tape: Tape, got: seq<Byte>)
    requires BeginsWithMark(tape, got) && got != []
    ensures Put(got, Content(tape)) == Put(BOM, Content(Expected(tape, got)))
    decreases tape
  {
    if |got| < 3 {
      match tape.head {
        case Data(b) =>
          ExpectedWithinMark(tape.tail, got + [b]);
          PutTwice(got, [b], Content(tape.tail));
        case Retry => ExpectedWithinMark(tape.tail, got);
      }
    }
  }

  lemma {:induction false} ExpectedWithMark(tape: Tape)
    requires BeginsWithMark(tape, [])
    ensures MarkCutOut(Content(tape), Content(Expected(tape, [])))
    decreases tape
  {
    match tape.head {
      case Data(b) =>
        assert [] + [b] == [b];
        ExpectedWithinMark(tape.tail, [b]);
        assert Content(tape) == Put([b], Content(tape.tail));
      case Retry => ExpectedWithMark(tape.tail);
      case Fault(_) => ExpectedWithMark(tape.tail);
    }
  }

  /**
   The expected stream is the inner stream, byte for byte and error for error,
   without the one mark it begins with, or all of it when it does not.
   */
  lemma OneMarkRemoved(tape: Tape)
    ensures if BeginsWithMark(tape, []) then MarkCutOut(Content(tape), Content(Expected(tape, [])))
            else Content(Expected(tape, [])) == Content(tape)
  {
    if BeginsWithMark(tape, []) {
      ExpectedWithMark(tape);
    } else {
      ExpectedWithoutMark(tape, []);
    }
  }

  lemma {:induction false} ContentVisible(tape: Tape)
    ensures Content(Visible(tape)) == Content(tape)
    decreases tape
  {
    if tape.Cell? {
      ContentVisible(tape.tail);
    }
  }

  /**
   From a new reader to its end: whatever the pieces of the inner stream, its
   errors and the sizes of the buffers, the replies together are the content
   of the inner stream without the one mark it begins with.
   */
  method ReadStream(tape: Tape, limit: Tape -> nat, extra: nat -> nat) returns (replies: seq<(Reply, seq<Byte>)>)
    ensures if BeginsWithMark(tape, []) then MarkCutOut(Content(tape), Content(Told(replies, Blank)))
            else Content(Told(replies, Blank)) == Content(tape)
    ensures forall bytes :: tape == Put(bytes, Blank) ==>
              && (forall i :: 0 <= i < |replies| ==> replies[i].0.Count?)
              && Joined(replies) == if [0xEF, 0xBB, 0xBF] <= bytes then bytes[3..] else bytes
  {
    var inner := new Inner(tape, limit);
    var reader := new LeadingBomReader(inner);
    replies := ReadToEnd(reader, extra);
    OneMarkRemoved(tape);
    ContentVisible(Expected(tape, []));
    forall bytes | tape == Put(bytes, Blank)
      ensures forall i :: 0 <= i < |replies| ==> replies[i].0.Count?
      ensures Joined(replies) == if BOM <= bytes then bytes[3..] else bytes
    {
      var kept := if BOM <= bytes then bytes[3..] else bytes;
      BytesLoseTheMark(bytes);
      VisiblePut(kept, Blank);
      PutIsData(kept);
      OnlyCounts(replies, Blank);
      ToldJoined(replies, Blank);
      PutOnce(Joined(replies), kept);
    }
  }

  /** The bytes of a run of replies. */
  function Joined(replies: seq<(Reply, seq<Byte>)>): seq<Byte> {
    if replies == [] then [] else Joined(replies[..|replies| - 1]) + replies[|replies| - 1].1
  }

  predicate OnlyData(tape: Tape) {
    tape.Cell? ==> tape.head.Data? && OnlyData(tape.tail)
  }

  lemma {:induction false} PutIsData(bytes: seq<Byte>)
    ensures OnlyData(Put(bytes, Blank))
    decreases |bytes|
  {
    if bytes != [] {
      PutIsData(bytes[1..]);
    }
  }

  lemma {:induction false} DataBehind(bytes: seq<Byte>, tape: Tape)
    requires OnlyData(Put(bytes, tape))
    ensures OnlyData(tape)
    decreases |bytes|
  {
    if bytes != [] {
      DataBehind(bytes[1..], tape);
    }
  }

  lemma {:induction false} OnlyCounts(replies: seq<(Reply, seq<Byte>)>, rest: Tape)
    requires OnlyData(Told(replies, rest))
    ensures OnlyData(rest) && forall i :: 0 <= i < |replies| ==> replies[i].0.Count?
    decreases |replies|
  {
    if replies != [] {
      var n := |replies| - 1;
      OnlyCounts(replies[..n], Seen(replies[n].0, replies[n].1, rest));
      assert forall i :: 0 <= i < n ==> replies[i] == replies[..n][i];
      DataBehind(replies[n].1, rest);
    }
  }

  lemma {:induction false} ToldJoined(replies: seq<(Reply, seq<Byte>)>, rest: Tape)
    requires forall i :: 0 <= i < |replies| ==> replies[i].0.Count?
    ensures Told(replies, rest) == Put(Joined(replies), rest)
    decreases |replies|
  {
    if replies != [] {
      var n := |replies| - 1;
      ToldJoined(replies[..n], Put(replies[n].1, rest));
      PutTwice(Joined(replies[..n]), replies[n].1, rest);
    }
  }

  lemma {:induction false} PutOnce(a: seq<Byte>, b: seq<Byte>)
    requires Put(a, Blank) == Put(b, Blank)
    ensures a == b
    decreases |a|
  {
    if a != [] && b != [] {
      PutOnce(a[1..], b[1..]);
      assert a == [a[0]] + a[1..] && b == [b[0]] + b[1..];
    }
  }

  /** A stream of bytes alone loses a leading mark and nothing else. */
  lemma BytesLoseTheMark(bytes: seq<Byte>)
    ensures Expected(Put(bytes, Blank), []) == Put(if BOM <= bytes then bytes[3..] else bytes, Blank)
  {
    var n := if |bytes| < 3 then |bytes| else 3;
    assert bytes[..n] + bytes[n..] == bytes && [] + bytes[..n] == bytes[..n];
    PutTwice(bytes[..n], bytes[n..], Blank);
    ExpectedData(bytes[..n], Put(bytes[n..], Blank), []);
    assert BOM <= bytes <==> n == 3 && bytes[..n] == BOM;
  }
}
