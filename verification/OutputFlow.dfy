/**
 The per-stream credit window of the agent's runtime server
 (`OutputFlow` in crates/nrm-agent/src/runtime.rs): a window of reserved but
 unacknowledged output bytes, shared by a worker that reserves and a reader
 that acknowledges.
 */
module OutputFlow {
  import opened Protocol

  const WINDOW: nat := 1024 * 1024

  datatype Flow = Flow(sent: U64, acked: U64, stopped: bool)

  /** What one pass of `reserve` under the lock finds; `Blocked` waits for an acknowledgement. */
  datatype Grant = Stopped | Blocked | Granted(offset: U64, length: nat) | NoBytes | Overflow

  function InFlight(f: Flow): nat {
    if f.acked <= f.sent then f.sent - f.acked else 0
  }

  function ReserveOutcome(f: Flow, requested: nat): Grant {
    if f.stopped then Stopped
    else if InFlight(f) >= WINDOW then Blocked
    else
      var length := if requested < WINDOW - InFlight(f) then requested else WINDOW - InFlight(f);
      if length == 0 then NoBytes
      else if f.sent + length >= U64_LIMIT then Overflow
      else Granted(f.sent, length)
  }

  function Reserved(f: Flow, g: Grant): Flow
    requires g.Granted? ==> f.sent + g.length < U64_LIMIT
  {
    if g.Granted? then f.(sent := f.sent + g.length) else f
  }

  predicate AckFits(f: Flow, next: U64) {
    f.acked <= next <= f.sent
  }

  predicate Drained(f: Flow) {
    !f.stopped && f.acked == f.sent
  }

  predicate InWindow(f: Flow) {
    f.acked <= f.sent <= f.acked + 0x10_0000
  }

  /**
   Reserving keeps the window of a mebibyte and hands out the longest piece
   that fits it, beginning where the last one ended; it waits exactly when the
   window is full, and gives nothing only to who asks for nothing.
   */
  lemma ReserveKeepsWindow(f: Flow, requested: nat)
    requires InWindow(f)
    ensures var g := ReserveOutcome(f, requested);
            var free := f.acked + 0x10_0000 - f.sent;
            && InWindow(Reserved(f, g))
            && (g.Stopped? <==> f.stopped)
            && (g.Blocked? <==> !f.stopped && free == 0)
            && (g.NoBytes? <==> !f.stopped && free > 0 && requested == 0)
            && (g.Overflow? ==> f.sent + requested > 0xFFFF_FFFF_FFFF_FFFF && f.sent + free > 0xFFFF_FFFF_FFFF_FFFF)
            && (g.Granted? ==> g.offset == f.sent && 0 < g.length <= requested && (g.length == requested || g.length == free))
  {
  }

  /** The lock-protected record. */
  class OutputFlowCell {
    var sent: U64
    var acked: U64
    var stopped: bool

    function Value(): Flow
      reads this
    {
      Flow(sent, acked, stopped)
    }

    constructor ()
      ensures Value() == Flow(0, 0, false)
    {
      sent, acked, stopped := 0, 0, false;
    }

    method Reserve(requested: nat) returns (g: Grant)
      modifies this
      ensures g == ReserveOutcome(old(Value()), requested)
      ensures Value() == Reserved(old(Value()), g)
      ensures old(InWindow(Value())) ==> InWindow(Value())
    {
      if InWindow(Value()) {
        ReserveKeepsWindow(Value(), requested);
      }
      if stopped {
        return Stopped;
      }
      var inFlight := if acked <= sent then sent - acked else 0;
      if inFlight >= WINDOW {
        return Blocked;
      }
      var available := WINDOW - inFlight;
      var length := if requested < available then requested else available;
      if length == 0 {
        return NoBytes;
      }
      var offset := sent;
      if offset + length >= U64_LIMIT {
        return Overflow;
      }
      sent := offset + length;
      g := Granted(offset, length);
    }

    method Acknowledge(next: U64) returns (ok: bool)
      modifies this
      ensures ok == AckFits(old(Value()), next)
      ensures Value() == if ok then old(Value()).(acked := next) else old(Value())
      ensures old(InWindow(Value())) ==> InWindow(Value()) && InFlight(Value()) <= InFlight(old(Value()))
    {
      if next < acked || next > sent {
        return false;
      }
      acked := next;
      ok := true;
    }

    method Stop()
      modifies this
      ensures Value() == old(Value()).(stopped := true)
    {
      stopped := true;
    }
  }
}
