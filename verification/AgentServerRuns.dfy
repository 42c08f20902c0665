/**
 The invariant of the agent's runtime server over every interleaving, and what
 it means for the peer: frames in machine order, nothing after a terminal
 frame, exact delivery behind an untruncated exit.
 */
module AgentServerRuns {
  import opened Protocol
  import opened ServerMachine
  import opened OutputFlow
  import opened AgentServer
  import opened AgentServerStreams
  import opened AgentServerBudget

  // ---- the frames -------------------------------------------------------------------------------

  datatype Tape = Tape(observed: seq<Frame>, wire: seq<Frame>, shut: bool)

  function TapeOf(st: Agent): Tape {
    Tape(st.observed, st.wire, st.mach.Shut?)
  }

  /** `part` is `whole` with some elements left out. */
  ghost predicate Subsequence(part: seq<Frame>, whole: seq<Frame>)
    decreases |whole|
  {
    if part == [] then true
    else if whole == [] then false
    else
      var n, m := |part| - 1, |whole| - 1;
      (part[n] == whole[m] && Subsequence(part[..n], whole[..m])) || Subsequence(part, whole[..m])
  }

  lemma SubsequenceGrows(part: seq<Frame>, whole: seq<Frame>, f: Frame)
    requires Subsequence(part, whole)
    ensures Subsequence(part + [f], whole + [f]) && Subsequence(part, whole + [f])
  {
    assert (part + [f])[..|part|] == part && (whole + [f])[..|whole|] == whole;
  }

  /** Only the last frame may be terminal. */
  ghost predicate EndsAtTerminal(frames: seq<Frame>) {
    forall i :: 0 <= i < |frames| - 1 ==> !Terminal(frames[i])
  }

  /** Each output frame on the wire begins where the stream's previous one ended. */
  ghost predicate Contiguous(wire: seq<Frame>) {
    forall i :: 0 <= i < |wire| && wire[i].OutputFrame? ==> wire[i].offset == |Published(wire[..i], wire[i].stream)|
  }

  ghost predicate TapeOk(t: Tape) {
    && Subsequence(t.wire, t.observed)
    && EndsAtTerminal(t.observed) && EndsAtTerminal(t.wire)
    && (t.shut <==> t.observed != [] && Terminal(t.observed[|t.observed| - 1]))
    && (!t.shut ==> forall i :: 0 <= i < |t.wire| ==> !Terminal(t.wire[i]))
    && Contiguous(t.wire)
  }

  lemma ContiguousGrows(wire: seq<Frame>, f: Frame)
    requires Contiguous(wire) && (f.OutputFrame? ==> f.offset == |Published(wire, f.stream)|)
    ensures Contiguous(wire + [f])
  {
    var all := wire + [f];
    forall i | 0 <= i < |all| && all[i].OutputFrame? ensures all[i].offset == |Published(all[..i], all[i].stream)| {
      if i < |wire| {
        assert all[..i] == wire[..i];
      } else {
        assert all[..i] == wire;
      }
    }
  }

  lemma TapeObserves(t: Tape, f: Frame, room: bool)
    requires TapeOk(t) && !t.shut && (f.OutputFrame? ==> f.offset == |Published(t.wire, f.stream)|)
    ensures TapeOk(Tape(t.observed + [f], if room then t.wire + [f] else t.wire, Terminal(f)))
  {
    SubsequenceGrows(t.wire, t.observed, f);
    ContiguousGrows(t.wire, f);
  }

  // ---- input on its way to the process --------------------------------------------------------------

  /** `counters` is (sent, acknowledged) while the machine is open; `queue` ends with what the reader is about to queue. */
  datatype Intake = Intake(counters: Option<(U64, U64)>, queue: seq<Option<U64>>, input: InputPc)

  function IntakeOf(st: Agent): Intake {
    Intake(if st.mach.Open? then Some((st.mach.inputSent, st.mach.inputAcked)) else None,
           st.inputs + (if st.reader.Queuing? then [st.reader.command] else []),
           st.input)
  }

  /** The data offsets in `queue` rise from `lo` to at most `hi`. */
  ghost predicate Rising(lo: nat, queue: seq<Option<U64>>, hi: nat)
    decreases |queue|
  {
    if queue == [] then lo <= hi
    else if queue[0].None? then Rising(lo, queue[1..], hi)
    else lo <= queue[0].value && Rising(queue[0].value, queue[1..], hi)
  }

  lemma {:induction false} RisingGrows(lo: nat, queue: seq<Option<U64>>, hi: nat, next: Option<U64>, top: nat)
    requires Rising(lo, queue, hi) && hi <= top && (next.Some? ==> hi <= next.value <= top)
    ensures Rising(lo, queue + [next], top)
    decreases |queue|
  {
    if queue == [] {
      assert queue + [next] == [next] && [next][1..] == [];
      if next.Some? {
        assert Rising(next.value, [], top);
      }
    } else {
      assert (queue + [next])[1..] == queue[1..] + [next];
      RisingGrows(if queue[0].None? then lo else queue[0].value, queue[1..], hi, next, top);
    }
  }

  lemma {:induction false} RisingBounds(lo: nat, queue: seq<Option<U64>>, hi: nat)
    requires Rising(lo, queue, hi)
    ensures lo <= hi
    decreases |queue|
  {
    if queue != [] {
      RisingBounds(if queue[0].None? then lo else queue[0].value, queue[1..], hi);
    }
  }

  ghost predicate IntakeOk(i: Intake) {
    i.counters.Some? && !i.input.Gone? ==>
      var (sent, acked) := i.counters.value;
      var lo := if i.input.Waiting? then acked else i.input.next;
      acked <= lo && Rising(lo, i.queue, sent)
  }

  /** What the input worker is about to confirm is never refused by an open machine. */
  lemma ConfirmAccepted(st: Agent)
    requires IntakeOk(IntakeOf(st)) && st.input.Confirming? && st.mach.Open?
    ensures SendStep(st.mach, st.pty, InputAckFrame(st.input.next)) == Some(st.mach.(inputAcked := st.input.next))
  {
    RisingBounds(st.input.next, IntakeOf(st).queue, st.mach.inputSent);
  }

  // ---- the waiter --------------------------------------------------------------------------------------

  predicate Untouched(v: View) {
    !v.worker.forced && !v.flow.stopped
  }

  predicate Still(v: View) {
    v.worker.pc.Finished? && v.flow.acked == v.flow.sent
  }

  /** Everything the stream's worker read is on the wire and acknowledged. */
  predicate Delivered(v: View) {
    Still(v) && v.published == v.worker.read
  }

  ghost predicate WaiterViewOk(waiter: WaiterPc, s: Stream, v: View) {
    var loss := v.published != v.worker.read;
    match waiter
    case Polling => Untouched(v)
    case Awaiting(left) => Untouched(v) && (s !in left ==> v.worker.pc.Finished?)
    case Draining(left) => Untouched(v) && v.worker.pc.Finished? && (s !in left ==> Still(v))
    case Stopping(late) =>
      !late ==> v.failed || (Still(v) && (loss ==> v.truncated || v.offsets.None? || v.worker.panicked))
    case Judging(late) =>
      !late ==> v.failed || (Still(v) && (loss ==> v.truncated || v.offsets.None? || v.worker.panicked))
    case Judged(late) => !late ==> Still(v) && (loss ==> v.truncated || v.offsets.None? || v.worker.panicked)
    case Concluding => Still(v) && (loss ==> v.truncated || v.offsets.None?)
    case Reasoned(_) => Still(v) && (loss ==> v.truncated || v.offsets.None?)
    case Settled(_, flag) => Still(v) && (loss ==> flag || v.offsets.None?)
    case _ => true
  }

  ghost predicate WaiterOk(st: Agent) {
    && (forall s :: WaiterViewOk(st.waiter, s, ViewOf(st, s)))
    && (st.waiter.Reasoned? && st.waiter.reason.ByOutputLimit? ==> st.truncated)
    && (st.waiter.Settled? && st.waiter.reason.ByOutputLimit? ==> st.waiter.truncated)
  }

  ghost predicate ExitOk(st: Agent, f: Frame) {
    f.ExitedFrame? ==>
      && (!f.truncated ==> forall s :: Delivered(ViewOf(st, s)))
      && (f.status.OutputLimit? ==> f.truncated)
  }

  ghost predicate ExitsOk(st: Agent) {
    forall i :: 0 <= i < |st.observed| ==> ExitOk(st, st.observed[i])
  }

  // ---- the invariant -------------------------------------------------------------------------------------

  ghost predicate ActiveOk(st: Agent) {
    forall s :: !Active(st.pty, s) ==> ViewOf(st, s).worker.pc.Finished?
  }

  ghost predicate Inv(st: Agent) {
    && StreamsOk(st) && ActiveOk(st)
    && BudgetOk(PurseOf(st))
    && TapeOk(TapeOf(st))
    && IntakeOk(IntakeOf(st))
    && WaiterOk(st) && ExitsOk(st)
  }

  /** The invariant survives a step, and the budget is the one the server was launched with. */
  ghost predicate Keeps(st: Agent, next: Agent) {
    Inv(next) && next.limit == st.limit
  }

  lemma LaunchInv(pty: bool, limit: nat)
    ensures Inv(Launch(pty, limit))
  {
    LaunchOk(pty, limit);
    assert Launch(pty, limit).inputs + [] == [];
  }

  lemma DeliveredStays(v: View, u: View)
    requires Delivered(v) && Evolves(v, u) && ViewOk(u)
    ensures Delivered(u)
  {
  }

  lemma WaiterViewStays(waiter: WaiterPc, s: Stream, v: View, u: View)
    requires WaiterViewOk(waiter, s, v) && ViewOk(v) && ViewOk(u) && Evolves(v, u)
    requires Untouched(v) ==> Untouched(u)
    ensures WaiterViewOk(waiter, s, u)
  {
  }

  /** Frames of one step that are not exits. */
  ghost predicate NoNewExit(st: Agent, next: Agent) {
    next.observed == st.observed
    || (|next.observed| == |st.observed| + 1 && next.observed[..|st.observed|] == st.observed
        && !next.observed[|st.observed|].ExitedFrame?)
  }

  ghost predicate KeepsUntouched(st: Agent, next: Agent) {
    forall s :: Untouched(ViewOf(st, s)) ==> Untouched(ViewOf(next, s))
  }

  lemma ExitsStay(st: Agent, next: Agent)
    requires ExitsOk(st) && StepOk(st, next) && NoNewExit(st, next)
    ensures ExitsOk(next)
  {
    forall i | 0 <= i < |next.observed| ensures ExitOk(next, next.observed[i]) {
      if i < |st.observed| {
        assert next.observed[i] == st.observed[i];
        assert ExitOk(st, st.observed[i]);
        forall s | Delivered(ViewOf(st, s)) ensures Delivered(ViewOf(next, s)) {
          DeliveredStays(ViewOf(st, s), ViewOf(next, s));
        }
      }
    }
  }

  lemma ActiveStays(st: Agent, next: Agent)
    requires ActiveOk(st) && StepOk(st, next) && next.pty == st.pty
    ensures ActiveOk(next)
  {
    forall s | !Active(next.pty, s) ensures ViewOf(next, s).worker.pc.Finished? {
      assert Evolves(ViewOf(st, s), ViewOf(next, s));
    }
  }

  /** Everything a step of a worker, the reader or the input worker has to show. */
  lemma StepInv(st: Agent, next: Agent)
    requires Inv(st) && StepOk(st, next)
    requires next.pty == st.pty && next.limit == st.limit && next.waiter == st.waiter && (st.truncated ==> next.truncated)
    requires BudgetOk(PurseOf(next)) && TapeOk(TapeOf(next)) && IntakeOk(IntakeOf(next))
    requires NoNewExit(st, next) && KeepsUntouched(st, next)
    ensures Keeps(st, next)
  {
    ActiveStays(st, next);
    ExitsStay(st, next);
    forall s ensures WaiterViewOk(next.waiter, s, ViewOf(next, s)) {
      WaiterViewStays(st.waiter, s, ViewOf(st, s), ViewOf(next, s));
    }
  }

  // ---- output workers -------------------------------------------------------------------------------------

  lemma StaysUntouched(st: Agent, next: Agent, s: Stream, w: Worker, f: Flow)
    requires next.workers == Set(st.workers, s, w) && next.flows == Set(st.flows, s, f)
    requires w.forced == Get(st.workers, s).forced && f.stopped == Get(st.flows, s).stopped
    ensures KeepsUntouched(st, next)
  {
    forall t | Untouched(ViewOf(st, t)) ensures Untouched(ViewOf(next, t)) {
      GetSet(st.workers, s, w, t);
      GetSet(st.flows, s, f, t);
    }
  }

  /** A worker step that sends nothing. */
  lemma SilentWorkerInv(st: Agent, next: Agent, s: Stream, w: Worker, f: Flow)
    requires Inv(st) && StepOk(st, next)
    requires next == st.(workers := Set(st.workers, s, w), flows := Set(st.flows, s, f),
                         total := next.total, truncated := next.truncated, termination := next.termination)
    requires w.forced == Get(st.workers, s).forced && f.stopped == Get(st.flows, s).stopped
    requires st.truncated ==> next.truncated
    requires BudgetOk(PurseOf(next))
    ensures Keeps(st, next)
  {
    StaysUntouched(st, next, s, w, f);
    StepInv(st, next);
  }

  /** A worker only moves its program counter (and what it has read). */
  lemma PcInv(st: Agent, s: Stream, w: Worker)
    requires Inv(st) && StepOk(st, PutWorker(st, s, w))
    requires w.forced == Get(st.workers, s).forced && w.claimed == Get(st.workers, s).claimed
    requires WorkerOk(w, st.limit, ClaimedTotal(st.workers), st.truncated)
    requires !Unflagged(Get(st.workers, s)) || Unflagged(w)
    ensures Keeps(st, PutWorker(st, s, w))
  {
    PurseIdle(PurseOf(st), s, w);
    SetSame(st.flows, s);
    SilentWorkerInv(st, PutWorker(st, s, w), s, w, Get(st.flows, s));
  }

  lemma WorkerFacts(st: Agent, s: Stream)
    requires Inv(st)
    ensures ViewOk(ViewOf(st, s)) && ViewOf(st, s).worker == Get(st.workers, s)
    ensures WorkerOk(Get(st.workers, s), st.limit, ClaimedTotal(st.workers), st.truncated)
    ensures !PcOf(st, s).Finished? ==> !Get(st.workers, s).panicked && Active(st.pty, s)
  {
    assert WorkerOk(Get(PurseOf(st).workers, s), st.limit, ClaimedTotal(st.workers), st.truncated);
    assert !Active(st.pty, s) ==> ViewOf(st, s).worker.pc.Finished?;
  }

  lemma StartsInv(st: Agent, s: Stream)
    requires Inv(st)
    ensures Keeps(st, WorkerStarts(st, s))
  {
    WorkerFacts(st, s);
    StartsOk(st, s);
    if PcOf(st, s).Idle? {
      PcInv(st, s, Get(st.workers, s).(pc := Reading));
    }
  }

  lemma ReadsInv(st: Agent, s: Stream, chunk: seq<Byte>)
    requires Inv(st)
    ensures Keeps(st, WorkerReads(st, s, chunk))
  {
    var w := Get(st.workers, s);
    WorkerFacts(st, s);
    ReadsOk(st, s, chunk);
    if w.pc.Reading? && 0 < |chunk| <= MAX_DATA_CHUNK {
      PcInv(st, s, w.(pc := Holding(chunk), read := w.read + chunk));
    }
  }

  lemma FinishInv(st: Agent, s: Stream)
    requires Inv(st) && StepOk(st, Goto(st, s, Finished)) && !PcOf(st, s).Claimed? && !PcOf(st, s).Finished?
    requires PcOf(st, s).Holding? || PcOf(st, s).Claiming? ==> Get(st.workers, s).forced
    ensures Keeps(st, Goto(st, s, Finished))
  {
    WorkerFacts(st, s);
    PcInv(st, s, Get(st.workers, s).(pc := Finished));
  }

  lemma EndsInv(st: Agent, s: Stream)
    requires Inv(st)
    ensures Keeps(st, WorkerEnds(st, s))
  {
    EndsOk(st, s);
    if PcOf(st, s).Reading? {
      FinishInv(st, s);
    }
  }

  lemma TakesFreelyInv(st: Agent, s: Stream)
    requires Inv(st) && PcOf(st, s).Holding? && st.limit.None?
    ensures Keeps(st, WorkerTakes(st, s))
  {
    var w := Get(st.workers, s);
    WorkerFacts(st, s);
    TakesOk(st, s);
    PcInv(st, s, w.(pc := Sending(w.pc.chunk, |w.pc.chunk|, 0)));
  }

  lemma TakesInv(st: Agent, s: Stream)
    requires Inv(st)
    ensures Keeps(st, WorkerTakes(st, s))
  {
    var w := Get(st.workers, s);
    if w.pc.Holding? {
      if st.limit.None? {
        TakesFreelyInv(st, s);
      } else {
        WorkerFacts(st, s);
        TakesOk(st, s);
        PcInv(st, s, w.(pc := Claiming(w.pc.chunk, st.total)));
      }
    }
  }

  lemma ClaimedInv(st: Agent, s: Stream)
    requires Inv(st) && PcOf(st, s).Claiming? && st.limit.Some? && PcOf(st, s).seen == st.total
    ensures Keeps(st, WorkerClaims(st, s, false))
  {
    var w := Get(st.workers, s);
    WorkerFacts(st, s);
    ClaimsOk(st, s, false);
    PurseClaims(PurseOf(st), s);
    SetSame(st.flows, s);
    SilentWorkerInv(st, WorkerClaims(st, s, false), s,
                    ClaimedWorker(w, Allowance(st.limit.value, st.total, |w.pc.chunk|)), Get(st.flows, s));
  }

  lemma ClaimsInv(st: Agent, s: Stream, spurious: bool)
    requires Inv(st)
    ensures Keeps(st, WorkerClaims(st, s, spurious))
  {
    var w := Get(st.workers, s);
    if w.pc.Claiming? && st.limit.Some? {
      if spurious || w.pc.seen != st.total {
        WorkerFacts(st, s);
        ClaimsOk(st, s, spurious);
        PcInv(st, s, w.(pc := Claiming(w.pc.chunk, st.total)));
      } else {
        ClaimedInv(st, s);
      }
    }
  }

  lemma FlagCutInv(st: Agent, s: Stream)
    requires Inv(st) && PcOf(st, s).Claimed? && PcOf(st, s).keep < |PcOf(st, s).chunk|
    requires StepOk(st, Goto(st, s, Flagged(PcOf(st, s).chunk, PcOf(st, s).keep)).(truncated := true))
    ensures Keeps(st, Goto(st, s, Flagged(PcOf(st, s).chunk, PcOf(st, s).keep)).(truncated := true))
  {
    var w := Get(st.workers, s);
    PurseFlags(PurseOf(st), s);
    SetSame(st.flows, s);
    SilentWorkerInv(st, Goto(st, s, Flagged(w.pc.chunk, w.pc.keep)).(truncated := true),
                    s, w.(pc := Flagged(w.pc.chunk, w.pc.keep)), Get(st.flows, s));
  }

  /** A chunk is cut short only once the budget is spent. */
  lemma CutMeansSpent(st: Agent, s: Stream)
    requires Inv(st) && PcOf(st, s).Claimed? && PcOf(st, s).keep < |PcOf(st, s).chunk|
    ensures st.limit.Some? && st.total >= st.limit.value
  {
    WorkerFacts(st, s);
    assert TotalsOk(PurseOf(st));
  }

  lemma FlagsInv(st: Agent, s: Stream)
    requires Inv(st)
    ensures Keeps(st, WorkerFlags(st, s))
  {
    var w := Get(st.workers, s);
    if w.pc.Claimed? {
      if w.pc.keep < |w.pc.chunk| {
        CutMeansSpent(st, s);
        FlagsOk(st, s);
        FlagCutInv(st, s);
      } else {
        WorkerFacts(st, s);
        FlagsOk(st, s);
        PcInv(st, s, w.(pc := Sending(w.pc.chunk, w.pc.keep, 0)));
      }
    }
  }

  lemma MarkMoveInv(st: Agent, next: Agent, s: Stream, moved: Worker)
    requires Inv(st) && PcOf(st, s).Flagged? && StepOk(st, next)
    requires moved == Get(st.workers, s).(pc := moved.pc) && (moved.pc.Finished? || moved.pc.Sending?)
    requires next == st.(workers := Set(st.workers, s, moved), termination := Mark(st.termination, ByOutputLimit))
    ensures Keeps(st, next)
  {
    WorkerFacts(st, s);
    PurseIdle(PurseOf(st), s, moved);
    assert PurseOf(next) == PurseOf(st).(workers := Set(st.workers, s, moved), reason := next.termination);
    SetSame(st.flows, s);
    SilentWorkerInv(st, next, s, moved, Get(st.flows, s));
  }

  lemma MarksInv(st: Agent, s: Stream)
    requires Inv(st)
    ensures Keeps(st, WorkerMarks(st, s))
  {
    var w := Get(st.workers, s);
    if w.pc.Flagged? {
      assert WorkerOk(Get(PurseOf(st).workers, s), st.limit, ClaimedTotal(st.workers), st.truncated);
      MarksOk(st, s);
      MarkMoveInv(st, WorkerMarks(st, s), s,
                  w.(pc := if w.pc.keep == 0 then Finished else Sending(w.pc.chunk, w.pc.keep, 0)));
    }
  }

  lemma QuitsInv(st: Agent, s: Stream)
    requires Inv(st)
    ensures Keeps(st, WorkerQuits(st, s))
  {
    var w := Get(st.workers, s);
    QuitsOk(st, s);
    if w.forced && (w.pc.Idle? || w.pc.Reading? || w.pc.Holding? || w.pc.Sending?) {
      FinishInv(st, s);
    }
  }

  lemma PanicsInv(st: Agent, s: Stream)
    requires Inv(st)
    ensures Keeps(st, WorkerPanics(st, s))
  {
    var w := Get(st.workers, s);
    WorkerFacts(st, s);
    PanicsOk(st, s);
    if !w.pc.Finished? {
      PcInv(st, s, w.(pc := Finished, panicked := true));
    }
  }

  // ---- sending -----------------------------------------------------------------------------------------------

  /** An error closes an open machine and changes nothing else but the queue. */
  lemma ErrorShape(st: Agent, room: bool)
    ensures var next := SendError(st, room);
            && next == st.(mach := Shut, observed := next.observed, wire := next.wire, failed := next.failed)
            && (next.observed == st.observed || next.observed == st.observed + [ErrorFrame])
  {
  }

  lemma ErrorInv(st: Agent, room: bool)
    requires Inv(st)
    ensures Keeps(st, SendError(st, room)) && SendError(st, room).mach.Shut?
  {
    var next := SendError(st, room);
    ErrorShape(st, room);
    forall s ensures Undisturbed(ViewOf(st, s), ViewOf(next, s)) {
      PublishedAppend(st.wire, ErrorFrame, s);
    }
    QuietStep(st, next);
    if st.mach.Open? {
      TapeObserves(TapeOf(st), ErrorFrame, room);
    }
    ErrorStepInv(st, next);
  }

  lemma ErrorStepInv(st: Agent, next: Agent)
    requires Inv(st) && StepOk(st, next) && TapeOk(TapeOf(next))
    requires next == st.(mach := Shut, observed := next.observed, wire := next.wire, failed := next.failed)
    requires next.observed == st.observed || next.observed == st.observed + [ErrorFrame]
    ensures Keeps(st, next)
  {
    assert PurseOf(next) == PurseOf(st);
    assert IntakeOf(next).counters.None?;
    StepInv(st, next);
  }

  lemma ErrorFinishInv(st: Agent, s: Stream, room: bool)
    requires Inv(st) && (PcOf(st, s).Reading? || PcOf(st, s).Sending?)
    ensures Keeps(st, Goto(SendError(st, room), s, Finished))
  {
    ErrorInv(st, room);
    ErrorShuts(st, room);
    FinishesOk(SendError(st, room), s);
    FinishInv(SendError(st, room), s);
  }

  lemma ReadFailsInv(st: Agent, s: Stream, room: bool)
    requires Inv(st)
    ensures Keeps(st, WorkerReadFails(st, s, room))
  {
    if PcOf(st, s).Reading? {
      ErrorFinishInv(st, s, room);
    }
  }

  lemma GrantInv(st: Agent, s: Stream, g: Grant)
    requires Inv(st) && PcOf(st, s).Sending? && PcOf(st, s).sent < PcOf(st, s).keep
    requires g == ReserveOutcome(Get(st.flows, s), PcOf(st, s).keep - PcOf(st, s).sent) && g.Granted?
    ensures var pc := PcOf(st, s);
            Keeps(st, Goto(st, s, Publishing(pc.chunk, pc.keep, pc.sent, g.offset, g.length))
                      .(flows := Set(st.flows, s, Reserved(Get(st.flows, s), g))))
  {
    var w := Get(st.workers, s);
    var moved := w.(pc := Publishing(w.pc.chunk, w.pc.keep, w.pc.sent, g.offset, g.length));
    WorkerFacts(st, s);
    GrantOk(st, s, g);
    PurseIdle(PurseOf(st), s, moved);
    SilentWorkerInv(st, PutWorker(st, s, moved).(flows := Set(st.flows, s, Reserved(Get(st.flows, s), g))),
                    s, moved, Reserved(Get(st.flows, s), g));
  }

  lemma ReservesInv(st: Agent, s: Stream, room: bool)
    requires Inv(st)
    ensures Keeps(st, WorkerReserves(st, s, room))
  {
    var pc := PcOf(st, s);
    var next := WorkerReserves(st, s, room);
    if pc.Sending? && pc.sent <= pc.keep {
      if pc.sent == pc.keep {
        assert next == Goto(st, s, Idle);
        LoopsInv(st, s);
      } else {
        var g := ReserveOutcome(Get(st.flows, s), pc.keep - pc.sent);
        assert next == WorkerHears(st, s, g, room);
        HearsInv(st, s, g, room);
      }
    }
  }

  lemma HearsInv(st: Agent, s: Stream, g: Grant, room: bool)
    requires Inv(st) && PcOf(st, s).Sending? && PcOf(st, s).sent < PcOf(st, s).keep
    requires g == ReserveOutcome(Get(st.flows, s), PcOf(st, s).keep - PcOf(st, s).sent)
    ensures Keeps(st, WorkerHears(st, s, g, room))
  {
    var pc := PcOf(st, s);
    var next := WorkerHears(st, s, g, room);
    WorkerFacts(st, s);
    ReserveKeepsWindow(Get(st.flows, s), pc.keep - pc.sent);
    if g.Stopped? {
      assert next == Goto(st, s, Finished);
      FinishesOk(st, s);
      FinishInv(st, s);
    } else if g.Overflow? {
      assert next == Goto(SendError(st, room), s, Finished);
      ErrorFinishInv(st, s, room);
    } else if g.Granted? {
      assert next == Goto(st, s, Publishing(pc.chunk, pc.keep, pc.sent, g.offset, g.length))
                     .(flows := Set(st.flows, s, Reserved(Get(st.flows, s), g)));
      GrantInv(st, s, g);
    }
  }

  lemma LoopsInv(st: Agent, s: Stream)
    requires Inv(st) && PcOf(st, s).Sending? && PcOf(st, s).sent == PcOf(st, s).keep
    ensures Keeps(st, Goto(st, s, Idle))
  {
    WorkerFacts(st, s);
    LoopsOk(st, s);
    PcInv(st, s, Get(st.workers, s).(pc := Idle));
  }

  lemma SendsInv(st: Agent, s: Stream, room: bool)
    requires Inv(st)
    ensures Keeps(st, WorkerSends(st, s, room))
  {
    WorkerFacts(st, s);
    SendsOk(st, s, room);
    if PcOf(st, s).Publishing? {
      if st.mach.Shut? {
        FinishInv(st, s);
      } else {
        PublishShape(st, s, room);
        PublishInv(st, WorkerSends(st, s, room), s, PublishedFrame(s, PcOf(st, s)), room);
      }
    }
  }

  lemma PublishShape(st: Agent, s: Stream, room: bool)
    requires ViewOk(ViewOf(st, s)) && PcOf(st, s).Publishing? && st.mach.Open? && Active(st.pty, s)
    ensures PcOf(st, s).sent + PcOf(st, s).length <= |PcOf(st, s).chunk|
    ensures var f, next := PublishedFrame(s, PcOf(st, s)), WorkerSends(st, s, room);
            && next == st.(mach := st.mach.(out := next.mach.out), observed := st.observed + [f],
                           wire := if room then st.wire + [f] else st.wire, failed := next.failed,
                           workers := Set(st.workers, s, AfterPublish(Get(st.workers, s), room)))
            && f.offset == |Published(st.wire, s)|
  {
    PublishesAs(st, s, room);
  }

  lemma PublishInv(st: Agent, next: Agent, s: Stream, f: Frame, room: bool)
    requires Inv(st) && StepOk(st, next) && PcOf(st, s).Publishing? && st.mach.Open?
    requires f.OutputFrame? && f.stream == s && f.offset == |Published(st.wire, s)|
    requires next.mach.Open? && next.mach == st.mach.(out := next.mach.out)
    requires next == st.(mach := next.mach, observed := st.observed + [f],
                         wire := if room then st.wire + [f] else st.wire, failed := next.failed,
                         workers := Set(st.workers, s, AfterPublish(Get(st.workers, s), room)))
    ensures Keeps(st, next)
  {
    var w := AfterPublish(Get(st.workers, s), room);
    WorkerFacts(st, s);
    SetSame(st.flows, s);
    TapeObserves(TapeOf(st), f, room);
    PurseIdle(PurseOf(st), s, w);
    assert PurseOf(next) == PurseOf(st).(workers := Set(st.workers, s, w));
    assert IntakeOf(next) == IntakeOf(st);
    StaysUntouched(st, next, s, w, Get(st.flows, s));
    StepInv(st, next);
  }

  // ---- the reader loop ---------------------------------------------------------------------------------------

  /** The reader, the input worker or the termination reason moves; no stream is touched. */
  lemma AsideInv(st: Agent, next: Agent)
    requires Inv(st)
    requires next == st.(reader := next.reader, inputs := next.inputs, input := next.input,
                         termination := next.termination, mach := next.mach)
    requires next.mach.Open? == st.mach.Open? && (st.mach.Open? ==> next.mach.out == st.mach.out)
    requires next.reader == st.reader || (!st.reader.Acking? && !next.reader.Acking?)
    requires next.termination == st.termination || !next.termination.ByOutputLimit?
    requires IntakeOk(IntakeOf(next))
    ensures Keeps(st, next)
  {
    ReaderAndInputQuiet(st, next);
    assert PurseOf(next) == PurseOf(st).(reason := next.termination);
    assert TapeOf(next) == TapeOf(st);
    assert forall s :: ViewOf(next, s) == ViewOf(st, s);
    StepInv(st, next);
  }

  /** Queued input stays in rising order when the machine accepts another piece, or the end. */
  lemma IntakeGrows(i: Intake, next: Option<U64>, sent: U64)
    requires IntakeOk(i) && i.counters.Some? && i.counters.value.0 <= sent
    requires next.Some? ==> next.value == sent
    ensures IntakeOk(i.(counters := Some((sent, i.counters.value.1)), queue := i.queue + [next]))
  {
    if !i.input.Gone? {
      var (before, acked) := i.counters.value;
      RisingGrows(if i.input.Waiting? then acked else i.input.next, i.queue, before, next, sent);
    }
  }

  /** The machine accepted a piece of input, or its end. */
  lemma CommandIntake(st: Agent, next: Agent, command: Option<U64>)
    requires IntakeOk(IntakeOf(st)) && st.reader.Listening? && st.mach.Open? && next.mach.Open?
    requires next == st.(mach := next.mach, reader := Queuing(command))
    requires next.mach == st.mach.(inputSent := next.mach.inputSent, inputClosed := next.mach.inputClosed)
    requires st.mach.inputSent <= next.mach.inputSent && (command.Some? ==> command.value == next.mach.inputSent)
    ensures IntakeOk(IntakeOf(next))
  {
    var before := IntakeOf(st);
    assert before.queue == st.inputs;
    IntakeGrows(before, command, next.mach.inputSent);
    assert IntakeOf(next) == before.(counters := Some((next.mach.inputSent, before.counters.value.1)),
                                     queue := before.queue + [command]);
  }

  lemma ArrivalIntake(st: Agent, a: Arrival)
    requires IntakeOk(IntakeOf(st)) && st.reader.Listening? && !a.ArrivedAck?
    ensures IntakeOk(IntakeOf(ReaderReceives(st, a)))
  {
    var next := ReaderReceives(st, a);
    if ReceiveStep(st.mach, st.pty, a).Some? && (a.ArrivedInput? || a.ArrivedClose?) {
      CommandIntake(st, next, next.reader.command);
    } else {
      assert IntakeOf(next) == IntakeOf(st);
    }
  }

  lemma AckArrivesInv(st: Agent, s: Stream, n: U64)
    requires Inv(st) && st.reader.Listening? && st.mach.Open?
    requires Get(st.mach.out, s).acked <= n <= Get(st.mach.out, s).next
    ensures Keeps(st, st.(mach := st.mach.(out := Set(st.mach.out, s, Get(st.mach.out, s).(acked := n))), reader := Acking(s, n)))
  {
    var next := st.(mach := st.mach.(out := Set(st.mach.out, s, Get(st.mach.out, s).(acked := n))), reader := Acking(s, n));
    AckReceivedOk(st, s, n);
    assert PurseOf(next) == PurseOf(st) && TapeOf(next) == TapeOf(st) && IntakeOf(next) == IntakeOf(st);
    StepInv(st, next);
  }

  lemma ReceivesInv(st: Agent, a: Arrival)
    requires Inv(st)
    ensures Keeps(st, ReaderReceives(st, a))
  {
    if st.reader.Listening? {
      if a.ArrivedAck? && ReceiveStep(st.mach, st.pty, a).Some? {
        AckArrivesInv(st, a.stream, a.next);
      } else {
        OtherArrivalShape(st, a);
        if a.ArrivedAck? {
          assert ReaderReceives(st, a) == st.(reader := Refusing);
          assert IntakeOf(ReaderReceives(st, a)) == IntakeOf(st);
        } else {
          ArrivalIntake(st, a);
        }
        AsideInv(st, ReaderReceives(st, a));
      }
    }
  }

  lemma {:induction false} ErrorThenLeaves(st: Agent, room: bool, r: ReaderPc)
    requires Inv(st) && !st.reader.Acking? && !r.Acking?
    ensures Keeps(st, SendError(st, room).(reader := r))
  {
    ErrorInv(st, room);
    ErrorShape(st, room);
    AsideInv(SendError(st, room), SendError(st, room).(reader := r));
  }

  lemma QueuesInv(st: Agent, room: bool)
    requires Inv(st)
    ensures Keeps(st, ReaderQueues(st, room))
  {
    if st.reader.Queuing? {
      if !st.input.Gone? && |st.inputs| < INPUT_QUEUE_DEPTH {
        var next := st.(inputs := st.inputs + [st.reader.command], reader := Listening);
        assert next.inputs + [] == next.inputs;
        assert IntakeOf(next) == IntakeOf(st);
        AsideInv(st, next);
      } else {
        ErrorThenLeaves(st, room, if SendSucceeds(st, ErrorFrame, room) then Listening else Left);
      }
    }
  }

  lemma ControlsInv(st: Agent, ok: bool, room: bool)
    requires Inv(st)
    ensures Keeps(st, ReaderControls(st, ok, room))
  {
    if st.reader.Controlling? {
      if ok {
        AsideInv(st, st.(reader := Listening));
      } else {
        ErrorThenLeaves(st, room, Left);
      }
    }
  }

  lemma AcknowledgesInv(st: Agent)
    requires Inv(st)
    ensures Keeps(st, ReaderAcknowledges(st))
  {
    if st.reader.Acking? {
      var s := st.reader.stream;
      AckAppliedKeepsView(ViewOf(st, s));
      AcknowledgesOk(st);
      AckAppliedInv(st, s, Get(st.flows, s).(acked := st.reader.next));
    }
  }

  lemma AckAppliedInv(st: Agent, s: Stream, f: Flow)
    requires Inv(st) && st.reader.Acking? && f == Get(st.flows, s).(acked := f.acked)
    requires StepOk(st, st.(flows := Set(st.flows, s, f), reader := Listening))
    ensures Keeps(st, st.(flows := Set(st.flows, s, f), reader := Listening))
  {
    var next := st.(flows := Set(st.flows, s, f), reader := Listening);
    assert PurseOf(next) == PurseOf(st) && TapeOf(next) == TapeOf(st) && IntakeOf(next) == IntakeOf(st);
    forall t | Untouched(ViewOf(st, t)) ensures Untouched(ViewOf(next, t)) {
      GetSet(st.flows, s, f, t);
    }
    StepInv(st, next);
  }

  // ---- the input worker -------------------------------------------------------------------------------------------

  lemma FetchesInv(st: Agent)
    requires Inv(st)
    ensures Keeps(st, InputFetches(st))
  {
    if st.input.Waiting? && st.inputs != [] {
      var next := InputFetches(st);
      assert IntakeOf(st).queue[1..] == IntakeOf(next).queue;
      if next.mach.Open? && !next.input.Gone? {
        RisingBounds(st.mach.inputAcked, IntakeOf(st).queue, st.mach.inputSent);
      }
      AsideInv(st, next);
    }
  }

  lemma WritesInv(st: Agent, ok: bool, room: bool)
    requires Inv(st)
    ensures Keeps(st, InputWrites(st, ok, room))
  {
    if ok {
      if st.input.Writing? {
        AsideInv(st, st.(input := Confirming(st.input.next)));
      }
    } else if st.input.Writing? || st.input.Waiting? {
      ErrorInv(st, room);
      ErrorShape(st, room);
      AsideInv(SendError(st, room), SendError(st, room).(input := Gone));
    }
  }

  lemma ConfirmShape(st: Agent, room: bool)
    requires IntakeOk(IntakeOf(st)) && st.input.Confirming? && st.mach.Open?
    ensures var f := InputAckFrame(st.input.next);
            var next := InputConfirms(st, room);
            && next == st.(mach := st.mach.(inputAcked := st.input.next), observed := st.observed + [f],
                           wire := if room then st.wire + [f] else st.wire,
                           failed := if room then st.failed else true,
                           input := if room then Waiting else Gone)
            && next == Send(st, f, room).(input := next.input)
            && IntakeOk(IntakeOf(next))
  {
    ConfirmAccepted(st);
  }

  lemma ConfirmsInv(st: Agent, room: bool)
    requires Inv(st)
    ensures Keeps(st, InputConfirms(st, room))
  {
    if st.input.Confirming? {
      if st.mach.Shut? {
        AsideInv(st, st.(input := Gone));
      } else {
        ConfirmShape(st, room);
        ConfirmedInv(st, InputConfirms(st, room), InputAckFrame(st.input.next), room);
      }
    }
  }

  lemma ConfirmedInv(st: Agent, next: Agent, f: Frame, room: bool)
    requires Inv(st) && f.InputAckFrame? && st.mach.Open? && next.mach.Open? && IntakeOk(IntakeOf(next))
    requires next == Send(st, f, room).(input := next.input)
    requires next == st.(mach := next.mach, observed := st.observed + [f], wire := next.wire, failed := next.failed, input := next.input)
    ensures Keeps(st, next)
  {
    var sent := Send(st, f, room);
    forall s ensures Undisturbed(ViewOf(st, s), ViewOf(next, s)) {
      PublishedAppend(st.wire, f, s);
    }
    TapeObserves(TapeOf(st), f, room);
    QuietStep(st, next);
    assert PurseOf(next) == PurseOf(st) && TapeOf(next) == TapeOf(sent);
    StepInv(st, next);
  }

  // ---- the waiter ---------------------------------------------------------------------------------------------------

  /** The waiter moves on; nothing it shares changes except what is named. */
  lemma WaiterInv(st: Agent, next: Agent)
    requires Inv(st)
    requires next == st.(waiter := next.waiter, done := next.done, termination := next.termination)
    requires next.termination == st.termination || !next.termination.ByOutputLimit?
    requires forall s :: WaiterViewOk(next.waiter, s, ViewOf(st, s))
    requires next.waiter.Reasoned? && next.waiter.reason.ByOutputLimit? ==> st.truncated
    requires next.waiter.Settled? && next.waiter.reason.ByOutputLimit? ==> next.waiter.truncated
    ensures Keeps(st, next)
  {
    assert forall s :: ViewOf(next, s) == ViewOf(st, s);
    assert PurseOf(next) == PurseOf(st).(reason := next.termination);
    assert TapeOf(next) == TapeOf(st) && IntakeOf(next) == IntakeOf(st);
    forall i | 0 <= i < |next.observed| ensures ExitOk(next, next.observed[i]) {
      assert ExitOk(st, st.observed[i]);
    }
  }

  lemma ViewsOk(st: Agent, s: Stream)
    requires Inv(st)
    ensures ViewOk(ViewOf(st, s)) && WaiterViewOk(st.waiter, s, ViewOf(st, s))
  {
  }

  lemma SeesExitInv(st: Agent)
    requires Inv(st)
    ensures Keeps(st, WaiterSeesExit(st))
  {
    if st.waiter.Polling? {
      forall s ensures WaiterViewOk(Awaiting(EveryStream), s, ViewOf(st, s)) {
        ViewsOk(st, s);
      }
      WaiterInv(st, WaiterSeesExit(st));
    }
  }

  lemma JoinsInv(st: Agent, s: Stream)
    requires Inv(st)
    ensures Keeps(st, WaiterJoins(st, s))
  {
    if st.waiter.Awaiting? && PcOf(st, s).Finished? {
      forall t ensures WaiterViewOk(Awaiting(st.waiter.left - {s}), t, ViewOf(st, t)) {
        ViewsOk(st, t);
      }
      WaiterInv(st, WaiterJoins(st, s));
    }
  }

  lemma ProceedsInv(st: Agent)
    requires Inv(st)
    ensures Keeps(st, WaiterProceeds(st))
  {
    var next := WaiterProceeds(st);
    if (st.waiter.Awaiting? || st.waiter.Draining?) && st.waiter.left == {} {
      forall s ensures WaiterViewOk(next.waiter, s, ViewOf(st, s)) {
        ViewsOk(st, s);
      }
      WaiterInv(st, next);
    }
  }

  lemma SeesDrainedInv(st: Agent, s: Stream)
    requires Inv(st)
    ensures Keeps(st, WaiterSeesDrained(st, s))
  {
    if st.waiter.Draining? && Drained(Get(st.flows, s)) {
      forall t ensures WaiterViewOk(Draining(st.waiter.left - {s}), t, ViewOf(st, t)) {
        ViewsOk(st, t);
      }
      WaiterInv(st, WaiterSeesDrained(st, s));
    }
  }

  /** From any point the waiter may conclude that a deadline passed. */
  lemma LateInv(st: Agent)
    requires Inv(st)
    ensures Keeps(st, st.(waiter := Stopping(true)))
  {
    WaiterInv(st, st.(waiter := Stopping(true)));
  }

  lemma StopsInv(st: Agent, s: Stream)
    requires Inv(st)
    ensures Keeps(st, WaiterStops(st, s))
  {
    if st.waiter.Stopping? {
      StopsOk(st, s);
      StopAppliedInv(st, s, Get(st.flows, s).(stopped := true));
    }
  }

  lemma StopAppliedInv(st: Agent, s: Stream, f: Flow)
    requires Inv(st) && st.waiter.Stopping? && f == Get(st.flows, s).(stopped := true)
    requires StepOk(st, st.(flows := Set(st.flows, s, f)))
    ensures Keeps(st, st.(flows := Set(st.flows, s, f)))
  {
    var next := st.(flows := Set(st.flows, s, f));
    assert PurseOf(next) == PurseOf(st) && TapeOf(next) == TapeOf(st) && IntakeOf(next) == IntakeOf(st);
    ActiveStays(st, next);
    ExitsStay(st, next);
    forall t ensures WaiterViewOk(next.waiter, t, ViewOf(next, t)) {
      ViewsOk(st, t);
      assert Evolves(ViewOf(st, t), ViewOf(next, t));
    }
  }

  lemma ForcesInv(st: Agent, s: Stream)
    requires Inv(st)
    ensures Keeps(st, WaiterForces(st, s))
  {
    if st.waiter.Stopping? && !PcOf(st, s).Finished? {
      ForcesOk(st, s);
      ForceAppliedInv(st, s, Get(st.workers, s).(forced := true));
    }
  }

  lemma ForceAppliedInv(st: Agent, s: Stream, w: Worker)
    requires Inv(st) && st.waiter.Stopping? && !PcOf(st, s).Finished? && w == Get(st.workers, s).(forced := true)
    requires StepOk(st, PutWorker(st, s, w))
    ensures Keeps(st, PutWorker(st, s, w))
  {
    var next := PutWorker(st, s, w);
    WorkerFacts(st, s);
    PurseIdle(PurseOf(st), s, w);
    assert PurseOf(next) == PurseOf(st).(workers := Set(st.workers, s, w));
    assert TapeOf(next) == TapeOf(st) && IntakeOf(next) == IntakeOf(st);
    ActiveStays(st, next);
    ExitsStay(st, next);
    forall t ensures WaiterViewOk(next.waiter, t, ViewOf(next, t)) {
      ViewsOk(st, t);
      assert Evolves(ViewOf(st, t), ViewOf(next, t));
    }
  }

  lemma ClosesInv(st: Agent, abandoned: bool)
    requires Inv(st)
    ensures Keeps(st, WaiterCloses(st, abandoned))
  {
    if st.waiter.Stopping? && (abandoned || AllFinished(st)) {
      forall s ensures WaiterViewOk(Judging(st.waiter.late || abandoned), s, ViewOf(st, s)) {
        ViewsOk(st, s);
      }
      WaiterInv(st, WaiterCloses(st, abandoned));
    }
  }

  lemma ChecksFailureInv(st: Agent)
    requires Inv(st)
    ensures Keeps(st, WaiterChecksFailure(st))
  {
    var next := WaiterChecksFailure(st);
    if st.waiter.Judging? {
      forall s ensures WaiterViewOk(next.waiter, s, ViewOf(st, s)) {
        ViewsOk(st, s);
      }
      WaiterInv(st, next);
    }
  }

  lemma PanickedSeen(st: Agent, s: Stream)
    requires !AnyPanicked(st)
    ensures !ViewOf(st, s).worker.panicked
  {
  }

  lemma InTimeInv(st: Agent, statusOk: bool)
    requires Inv(st) && st.waiter == Judged(false)
    ensures Keeps(st, WaiterDecides(st, statusOk))
  {
    var next := WaiterDecides(st, statusOk);
    forall s ensures WaiterViewOk(next.waiter, s, ViewOf(st, s)) {
      ViewsOk(st, s);
      if !AnyPanicked(st) {
        PanickedSeen(st, s);
      }
    }
    WaiterInv(st, next);
  }

  lemma DecidesInv(st: Agent, statusOk: bool)
    requires Inv(st)
    ensures Keeps(st, WaiterDecides(st, statusOk))
  {
    if st.waiter.Judged? {
      if st.waiter.late {
        LateFlagInv(st, WaiterDecides(st, statusOk));
      } else {
        InTimeInv(st, statusOk);
      }
    }
  }

  lemma LateFlagInv(st: Agent, next: Agent)
    requires Inv(st) && next == st.(truncated := true, late := true, waiter := Reporting)
    ensures Keeps(st, next)
  {
    forall s ensures Undisturbed(ViewOf(st, s), ViewOf(next, s)) {
      ViewsOk(st, s);
    }
    QuietStep(st, next);
    ActiveStays(st, next);
    ExitsStay(st, next);
    LateFlagPurse(PurseOf(st));
    assert TapeOf(next) == TapeOf(st) && IntakeOf(next) == IntakeOf(st);
  }

  lemma LateFlagPurse(p: Purse)
    requires BudgetOk(p)
    ensures BudgetOk(p.(truncated := true, late := true))
  {
    var q := p.(truncated := true, late := true);
    forall s ensures WorkerOk(Get(q.workers, s), q.limit, ClaimedTotal(q.workers), q.truncated) {
      assert WorkerOk(Get(p.workers, s), p.limit, ClaimedTotal(p.workers), p.truncated);
    }
  }

  lemma LoadsReasonInv(st: Agent)
    requires Inv(st)
    ensures Keeps(st, WaiterLoadsReason(st))
  {
    if st.waiter.Concluding? {
      assert TotalsOk(PurseOf(st));
      forall s ensures WaiterViewOk(Reasoned(st.termination), s, ViewOf(st, s)) {
        ViewsOk(st, s);
      }
      WaiterInv(st, WaiterLoadsReason(st));
    }
  }

  lemma LoadsFlagInv(st: Agent)
    requires Inv(st)
    ensures Keeps(st, WaiterLoadsFlag(st))
  {
    if st.waiter.Reasoned? {
      forall s ensures WaiterViewOk(Settled(st.waiter.reason, st.truncated), s, ViewOf(st, s)) {
        ViewsOk(st, s);
      }
      WaiterInv(st, WaiterLoadsFlag(st));
    }
  }

  /** The exit frame: accepted only by an open machine, and then it tells the truth. */
  lemma ExitShape(st: Agent, f: Frame, room: bool)
    requires st.mach.Open? && f.ExitedFrame?
    ensures Send(st, f, room) == st.(mach := Shut, observed := st.observed + [f],
                                     wire := if room then st.wire + [f] else st.wire,
                                     failed := if room then st.failed else true)
  {
  }

  /** The frame that is sent is the only new one, and it says what was delivered. */
  lemma ExitsGrow(st: Agent, next: Agent, f: Frame)
    requires ExitsOk(st) && StepOk(st, next)
    requires next.observed == st.observed || next.observed == st.observed + [f]
    requires ExitOk(next, f)
    ensures ExitsOk(next)
  {
    forall i | 0 <= i < |next.observed| ensures ExitOk(next, next.observed[i]) {
      if i < |st.observed| {
        assert next.observed[i] == st.observed[i];
        assert ExitOk(st, st.observed[i]);
        forall s | Delivered(ViewOf(st, s)) ensures Delivered(ViewOf(next, s)) {
          DeliveredStays(ViewOf(st, s), ViewOf(next, s));
        }
      }
    }
  }

  lemma ExitSentOk(st: Agent, f: Frame, room: bool)
    requires Inv(st) && st.waiter.Settled? && st.mach.Open?
    requires f.ExitedFrame? && f.truncated == st.waiter.truncated
    requires f.status.OutputLimit? ==> st.waiter.reason.ByOutputLimit?
    ensures var next := Send(st, f, room).(waiter := Retired);
            StepOk(st, next) && ExitOk(next, f)
  {
    var sent := Send(st, f, room);
    var next := sent.(waiter := Retired);
    ExitShape(st, f, room);
    forall s ensures Undisturbed(ViewOf(st, s), ViewOf(next, s)) && (!f.truncated ==> Delivered(ViewOf(next, s))) {
      PublishedAppend(st.wire, f, s);
      ViewsOk(st, s);
    }
    QuietStep(st, next);
  }

  lemma ExitKeeps(st: Agent, next: Agent, f: Frame, room: bool)
    requires Inv(st) && st.mach.Open? && f.ExitedFrame? && StepOk(st, next) && ExitOk(next, f)
    requires next == st.(mach := Shut, observed := st.observed + [f], wire := if room then st.wire + [f] else st.wire,
                         failed := next.failed, waiter := Retired)
    ensures Keeps(st, next)
  {
    TapeObserves(TapeOf(st), f, room);
    ActiveStays(st, next);
    assert PurseOf(next) == PurseOf(st);
    ExitsGrow(st, next, f);
  }

  lemma ExitSentInv(st: Agent, f: Frame, room: bool)
    requires Inv(st) && st.waiter.Settled? && st.mach.Open?
    requires f.ExitedFrame? && f.truncated == st.waiter.truncated
    requires f.status.OutputLimit? ==> st.waiter.reason.ByOutputLimit?
    ensures Keeps(st, Send(st, f, room).(waiter := Retired))
  {
    ExitSentOk(st, f, room);
    ExitKeeps(st, Send(st, f, room).(waiter := Retired), f, room);
  }

  lemma ErrorReportedInv(st: Agent, room: bool)
    requires Inv(st)
    ensures Keeps(st, SendError(st, room).(waiter := Retired))
  {
    ErrorInv(st, room);
    RetiresInv(SendError(st, room));
  }

  lemma RetiresInv(st: Agent)
    requires Inv(st)
    ensures Keeps(st, st.(waiter := Retired))
  {
    WaiterInv(st, st.(waiter := Retired));
  }

  lemma ExitReportedInv(st: Agent, f: Frame, room: bool)
    requires Inv(st) && st.waiter.Settled? && f.ExitedFrame? && f.truncated == st.waiter.truncated
    requires f.status.OutputLimit? ==> st.waiter.reason.ByOutputLimit?
    ensures Keeps(st, Send(st, f, room).(waiter := Retired))
  {
    if st.mach.Shut? {
      RetiresInv(st);
    } else {
      ExitSentInv(st, f, room);
    }
  }

  lemma ReportsInv(st: Agent, natural: ExitStatus, room: bool)
    requires Inv(st)
    ensures Keeps(st, WaiterReports(st, natural, room))
  {
    if st.waiter.Reporting? {
      ErrorReportedInv(st, room);
    } else if st.waiter.Settled? && (natural.Code? || natural.Signalled?) {
      ExitReportedInv(st, ExitedFrame(StatusOf(st.waiter.reason, natural), st.waiter.truncated), room);
    }
  }

  lemma ExpiresInv(st: Agent)
    requires Inv(st)
    ensures Keeps(st, WaiterExpires(st)) && Keeps(st, WaiterGivesUp(st))
  {
    LateInv(st);
  }

  lemma TimesOutInv(st: Agent)
    requires Inv(st)
    ensures Keeps(st, WaiterTimesOut(st))
  {
    if st.waiter.Polling? {
      AsideInv(st, WaiterTimesOut(st));
    }
  }

  lemma CancelsInv(st: Agent)
    requires Inv(st)
    ensures Keeps(st, Cancels(st)) && Keeps(st, ReaderLooks(st))
  {
    if st.reader.Cancelling? {
      AsideInv(st, Cancels(st));
    }
    if st.reader.Left? {
      AsideInv(st, ReaderLooks(st));
    }
  }

  lemma RefusesInv(st: Agent, room: bool)
    requires Inv(st)
    ensures Keeps(st, ReaderRefuses(st, room)) && Keeps(st, ReaderDetaches(st, room))
  {
    if st.reader.Refusing? || st.reader.Listening? {
      ErrorThenLeaves(st, room, Left);
    }
  }

  lemma LeavesInv(st: Agent)
    requires Inv(st)
    ensures Keeps(st, ReaderLeaves(st)) && Keeps(st, InputAbandons(st))
  {
    if st.reader.Listening? || st.reader.Refusing? {
      AsideInv(st, ReaderLeaves(st));
    }
    AsideInv(st, InputAbandons(st));
  }

  // ---- the writer ---------------------------------------------------------------------------------------------------

  lemma WriterFailsInv(st: Agent)
    requires Inv(st)
    ensures Keeps(st, WriterFails(st))
  {
    var next := WriterFails(st);
    forall s ensures Undisturbed(ViewOf(st, s), ViewOf(next, s)) {
      ViewsOk(st, s);
    }
    QuietStep(st, next);
    assert PurseOf(next) == PurseOf(st) && TapeOf(next) == TapeOf(st) && IntakeOf(next) == IntakeOf(st);
    StepInv(st, next);
  }

  // ---- every interleaving -------------------------------------------------------------------------------------------

  lemma WorkerStepInv(st: Agent, s: Stream, a: WorkerAction)
    requires Inv(st)
    ensures Keeps(st, WorkerStep(st, s, a))
  {
    match a {
      case Starts => StartsInv(st, s);
      case Reads(chunk) => ReadsInv(st, s, chunk);
      case Ends => EndsInv(st, s);
      case ReadFails(room) => ReadFailsInv(st, s, room);
      case Takes => TakesInv(st, s);
      case Claims(spurious) => ClaimsInv(st, s, spurious);
      case Flags => FlagsInv(st, s);
      case Marks => MarksInv(st, s);
      case Reserves(room) => ReservesInv(st, s, room);
      case Sends(room) => SendsInv(st, s, room);
      case Quits => QuitsInv(st, s);
      case Panics => PanicsInv(st, s);
    }
  }

  lemma ReaderStepInv(st: Agent, a: ReaderAction)
    requires Inv(st)
    ensures Keeps(st, ReaderStep(st, a))
  {
    match a {
      case Receives(arrival) => ReceivesInv(st, arrival);
      case Refuses(room) => RefusesInv(st, room);
      case Acknowledges => AcknowledgesInv(st);
      case Queues(room) => QueuesInv(st, room);
      case Controls(ok, room) => ControlsInv(st, ok, room);
      case Detaches(room) => RefusesInv(st, room);
      case Leaves => LeavesInv(st);
      case Looks => CancelsInv(st);
      case CancelsProcess => CancelsInv(st);
    }
  }

  lemma InputStepInv(st: Agent, a: InputAction)
    requires Inv(st)
    ensures Keeps(st, InputStep(st, a))
  {
    match a {
      case Fetches => FetchesInv(st);
      case Writes(ok, room) => WritesInv(st, ok, room);
      case Confirms(room) => ConfirmsInv(st, room);
      case Abandons => LeavesInv(st);
    }
  }

  lemma WaiterStepInv(st: Agent, a: WaiterAction)
    requires Inv(st)
    ensures Keeps(st, WaiterStep(st, a))
  {
    match a {
      case TimesOut => TimesOutInv(st);
      case SeesExit => SeesExitInv(st);
      case Joins(s) => JoinsInv(st, s);
      case Expires => ExpiresInv(st);
      case Proceeds => ProceedsInv(st);
      case SeesDrained(s) => SeesDrainedInv(st, s);
      case GivesUp => ExpiresInv(st);
      case Stops(s) => StopsInv(st, s);
      case Forces(s) => ForcesInv(st, s);
      case Closes(abandoned) => ClosesInv(st, abandoned);
      case ChecksFailure => ChecksFailureInv(st);
      case Decides(statusOk) => DecidesInv(st, statusOk);
      case LoadsReason => LoadsReasonInv(st);
      case LoadsFlag => LoadsFlagInv(st);
      case Reports(natural, room) => ReportsInv(st, natural, room);
    }
  }

  lemma ActionInv(st: Agent, a: Action)
    requires Inv(st)
    ensures Keeps(st, Step(st, a))
  {
    match a {
      case ByWorker(s, w) => WorkerStepInv(st, s, w);
      case ByReader(r) => ReaderStepInv(st, r);
      case ByInput(i) => InputStepInv(st, i);
      case ByWaiter(w) => WaiterStepInv(st, w);
      case ByWriter => WriterFailsInv(st);
    }
  }

  lemma {:induction false} RunInv(st: Agent, actions: seq<Action>)
    requires Inv(st)
    ensures Keeps(st, Run(st, actions))
    decreases |actions|
  {
    if actions != [] {
      ActionInv(st, actions[0]);
      RunInv(Step(st, actions[0]), actions[1..]);
    }
  }

  // ---- the theorems -------------------------------------------------------------------------------------------------

  /**
   If the server ever sends an exit that does not admit truncation, then at
   that moment and ever after, every byte each worker read is on the wire, in
   order, and has been acknowledged, in all three flows: although the waiter
   looks at the flows one after another while the other threads keep running.
   */
  lemma ExitMeansDelivered(pty: bool, limit: nat, actions: seq<Action>, s: Stream)
    ensures var st := Run(Launch(pty, limit), actions);
            forall i :: 0 <= i < |st.observed| && st.observed[i].ExitedFrame? && !st.observed[i].truncated ==>
              && Published(st.wire, s) == Get(st.workers, s).read
              && PcOf(st, s).Finished?
              && Get(st.flows, s).acked == Get(st.flows, s).sent
  {
    var st := Run(Launch(pty, limit), actions);
    LaunchInv(pty, limit);
    RunInv(Launch(pty, limit), actions);
    forall i | 0 <= i < |st.observed| && st.observed[i].ExitedFrame? && !st.observed[i].truncated
      ensures Delivered(ViewOf(st, s))
    {
      assert ExitOk(st, st.observed[i]);
    }
  }

  /**
   The queued frames are the accepted frames in order, with some left out when
   the queue was full; nothing is queued after a terminal frame; each stream's
   output frames abut and spell a prefix of what its worker read.
   */
  lemma WireOrder(pty: bool, limit: nat, actions: seq<Action>, s: Stream)
    ensures var st := Run(Launch(pty, limit), actions);
            && Subsequence(st.wire, st.observed)
            && EndsAtTerminal(st.wire) && EndsAtTerminal(st.observed)
            && Contiguous(st.wire)
            && Published(st.wire, s) <= Get(st.workers, s).read
  {
    var st := Run(Launch(pty, limit), actions);
    LaunchInv(pty, limit);
    RunInv(Launch(pty, limit), actions);
    var v := ViewOf(st, s);
    assert ViewOk(v);
    if !v.worker.pc.Finished? {
      if v.published + Owed(v.worker.pc) == v.worker.read {
        assert v.published <= v.published + Owed(v.worker.pc);
      } else {
        assert v.published <= v.published + StillDue(v.worker.pc) <= v.worker.read;
      }
    }
  }

  ghost predicate AgreesOn(st: Agent, s: Stream) {
    var flow, pc := Get(st.flows, s), PcOf(st, s);
    && InWindow(flow)
    && (st.mach.Open? ==>
          flow.acked <= Get(st.mach.out, s).acked <= Get(st.mach.out, s).next <= flow.sent <= flow.acked + WINDOW)
    && (st.reader.Acking? && st.reader.stream == s ==> AckFits(flow, st.reader.next))
    && (pc.Publishing? ==> pc.sent + pc.length <= |pc.chunk|)
    && (pc.Publishing? && st.mach.Open? ==> SendStep(st.mach, st.pty, PublishedFrame(s, pc)).Some?)
    && (pc.Sending? && pc.sent < pc.keep ==> !ReserveOutcome(flow, pc.keep - pc.sent).NoBytes?)
  }

  lemma AgreesFromInv(st: Agent, s: Stream)
    requires Inv(st)
    ensures AgreesOn(st, s)
  {
    WorkerFacts(st, s);
    var pc := PcOf(st, s);
    if pc.Publishing? && st.mach.Open? {
      PublishAccepted(st, s);
    }
    if pc.Sending? && pc.sent < pc.keep {
      ReserveKeepsWindow(Get(st.flows, s), pc.keep - pc.sent);
    }
  }

  /**
   In every state, for every stream: the window holds and the machine's
   counters lie inside the flow's; an acknowledgement the machine accepted
   fits the flow; an open machine accepts the frame a worker holds; and a
   worker with bytes to send is never told there are none.
   */
  lemma WindowsAgree(pty: bool, limit: nat, actions: seq<Action>, s: Stream)
    ensures AgreesOn(Run(Launch(pty, limit), actions), s)
  {
    LaunchInv(pty, limit);
    RunInv(Launch(pty, limit), actions);
    AgreesFromInv(Run(Launch(pty, limit), actions), s);
  }

  /**
   The workers together reserve the smaller of the limit and what they
   claimed; the truncation flag (when the waiter did not raise it for a missed
   deadline) means the limit was passed, and once the limit is passed every
   worker past its claim has raised it; an output-limit reason implies it, and
   so does an output-limit status in any exit sent.  Whenever all workers are
   between chunks or done, undisturbed, what was reserved is the smaller of the
   limit and what was read, and the flag says exactly whether more was read.
   */
  lemma BudgetIsExact(limit: nat, actions: seq<Action>)
    ensures var st := Run(Launch(false, limit), actions);
            && st.total == Minimum(limit, ClaimedTotal(st.workers))
            && (st.truncated && !st.late ==> ClaimedTotal(st.workers) > limit)
            && (ClaimedTotal(st.workers) > limit && !AnyUnflagged(st.workers) ==> st.truncated)
            && (st.termination.ByOutputLimit? ==> st.truncated)
            && ((forall s :: AtRest(Get(st.workers, s))) ==>
                  && st.total == Minimum(limit, ReadTotal(st.workers))
                  && (!st.late ==> (st.truncated <==> ReadTotal(st.workers) > limit)))
            && (forall i :: 0 <= i < |st.observed| && st.observed[i].ExitedFrame? && st.observed[i].status.OutputLimit?
                            ==> st.observed[i].truncated)
  {
    var st := Run(Launch(false, limit), actions);
    LaunchInv(false, limit);
    RunInv(Launch(false, limit), actions);
    forall i | 0 <= i < |st.observed| && st.observed[i].ExitedFrame? && st.observed[i].status.OutputLimit?
      ensures st.observed[i].truncated
    {
      assert ExitOk(st, st.observed[i]);
    }
    if forall s :: AtRest(Get(st.workers, s)) {
      RestingTotals(st);
    }
  }

  lemma RestingTotals(st: Agent)
    requires Inv(st) && st.limit.Some? && forall s :: AtRest(Get(st.workers, s))
    ensures ClaimedTotal(st.workers) == ReadTotal(st.workers) && !AnyUnflagged(st.workers)
  {
    forall s ensures Get(st.workers, s).claimed == |Get(st.workers, s).read| && !Unflagged(Get(st.workers, s)) {
      WorkerFacts(st, s);
      assert AtRest(Get(st.workers, s));
    }
    assert Get(st.workers, Stdout) == st.workers.stdout;
    assert Get(st.workers, Stderr) == st.workers.stderr;
    assert Get(st.workers, Pty) == st.workers.pty;
  }

  /** What the input worker confirms is refused only by a closed machine. */
  lemma InputConfirmationsAccepted(pty: bool, limit: nat, actions: seq<Action>)
    ensures var st := Run(Launch(pty, limit), actions);
            st.input.Confirming? && st.mach.Open? ==> SendStep(st.mach, st.pty, InputAckFrame(st.input.next)).Some?
  {
    var st := Run(Launch(pty, limit), actions);
    LaunchInv(pty, limit);
    RunInv(Launch(pty, limit), actions);
    if st.input.Confirming? && st.mach.Open? {
      ConfirmAccepted(st);
    }
  }
}
