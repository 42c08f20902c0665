/**
 What the agent's server gets done on every schedule that keeps giving its
 threads their turn: an output worker finishes the chunk it has read, and the
 waiter retires, whatever the other threads do in between.
 */
module AgentServerTurns {
  import opened Protocol
  import opened ServerMachine
  import opened OutputFlow
  import opened AgentServer
  import opened AgentServerStreams
  import opened AgentServerBudget
  import opened AgentServerRuns

  lemma RunOn(st: Agent, actions: seq<Action>, n: nat)
    requires 0 < n <= |actions|
    ensures Run(st, actions[..n]) == Run(Step(st, actions[0]), actions[1..][..n - 1])
  {
    assert actions[..n][1..] == actions[1..][..n - 1];
  }

  // ---- an output worker with a chunk in hand -------------------------------------------------------

  predicate Busy(pc: WorkerPc) {
    !pc.Idle? && !pc.Reading? && !pc.Finished?
  }

  /** What the progress of one worker depends on. */
  datatype Duty = Duty(pc: WorkerPc, read: seq<Byte>, limit: Option<nat>, total: nat)

  function DutyOf(st: Agent, s: Stream): Duty {
    Duty(PcOf(st, s), Get(st.workers, s).read, st.limit, st.total)
  }

  /** What is left of the budget. */
  function Unspent(limit: Option<nat>, total: nat): nat {
    if limit.Some? && total < limit.value then limit.value - total else 0
  }

  /**
   How many more moves the worker can make before it is done with its chunk.  A
   claim may have to be tried again, but only after another worker has taken
   something from the budget.
   */
  function Rank(d: Duty): nat {
    match d.pc
    case Holding(c) => 2 * |c| + 2 * Unspent(d.limit, d.total) + 7
    case Claiming(c, seen) => 2 * |c| + 2 * Unspent(d.limit, d.total) + (if seen == d.total then 5 else 6)
    case Claimed(c, _) => 2 * |c| + 4
    case Flagged(c, _) => 2 * |c| + 3
    case Sending(_, keep, sent) => if sent <= keep then 2 * (keep - sent) + 1 else 1
    case Publishing(_, keep, sent, _, _) => if sent <= keep then 2 * (keep - sent) else 0
    case _ => 0
  }

  /** Another thread's step: at most something was taken from the budget. */
  predicate Elsewhere(d: Duty, e: Duty) {
    && e == d.(total := e.total)
    && (e.total == d.total || (d.limit.Some? && d.total < e.total <= d.limit.value))
  }

  /** The worker's own move: nearer to the end of the round, or there. */
  predicate Nearer(d: Duty, e: Duty) {
    && e.read == d.read && e.limit == d.limit
    && (e.pc.Idle? || e.pc.Finished? || (Busy(e.pc) && Rank(e) < Rank(d)))
  }

  lemma ElsewhereRank(d: Duty, e: Duty)
    requires Elsewhere(d, e)
    ensures Rank(e) <= Rank(d)
  {
  }

  /** Steps that leave the program counter where it is, or end the round at once. */
  lemma EndingTurns(st: Agent, s: Stream, a: WorkerAction)
    requires Busy(PcOf(st, s)) && (a.Starts? || a.Reads? || a.Ends? || a.ReadFails? || a.Quits? || a.Panics?)
    ensures var d, e := DutyOf(st, s), DutyOf(WorkerStep(st, s, a), s); e == d || Nearer(d, e)
  {
  }

  lemma GotoDuty(st: Agent, s: Stream, pc: WorkerPc)
    ensures DutyOf(Goto(st, s, pc), s) == DutyOf(st, s).(pc := pc)
  {
    GetSet(st.workers, s, Get(st.workers, s).(pc := pc), s);
  }

  lemma SendDuty(st: Agent, s: Stream, f: Frame, room: bool, pc: WorkerPc)
    ensures DutyOf(Goto(Send(st, f, room), s, pc), s) == DutyOf(st, s).(pc := pc)
  {
    GotoDuty(Send(st, f, room), s, pc);
  }

  lemma TakeTurn(st: Agent, s: Stream)
    requires Busy(PcOf(st, s))
    ensures var d, e := DutyOf(st, s), DutyOf(WorkerTakes(st, s), s);
            if PcOf(st, s).Holding? then Nearer(d, e) else e == d || Nearer(d, e)
  {
    var pc := PcOf(st, s);
    if pc.Holding? {
      GotoDuty(st, s, if st.limit.None? then Sending(pc.chunk, |pc.chunk|, 0) else Claiming(pc.chunk, st.total));
    }
  }

  lemma ClaimedTurn(st: Agent, s: Stream, keep: nat)
    requires PcOf(st, s).Claiming?
    ensures Nearer(DutyOf(st, s), DutyOf(PutWorker(st, s, ClaimedWorker(Get(st.workers, s), keep)).(total := st.total + keep), s))
  {
    GetSet(st.workers, s, ClaimedWorker(Get(st.workers, s), keep), s);
  }

  /** The compare-exchange failed: the worker looks again. */
  lemma RetryTurn(st: Agent, s: Stream)
    requires PcOf(st, s).Claiming?
    ensures var d, e := DutyOf(st, s), DutyOf(Goto(st, s, Claiming(PcOf(st, s).chunk, st.total)), s);
            if PcOf(st, s).seen != st.total then Nearer(d, e) else e == d
  {
    GotoDuty(st, s, Claiming(PcOf(st, s).chunk, st.total));
  }

  lemma ClaimTurn(st: Agent, s: Stream, spurious: bool)
    requires Busy(PcOf(st, s))
    ensures var d, e := DutyOf(st, s), DutyOf(WorkerClaims(st, s, spurious), s);
            if PcOf(st, s).Claiming? && st.limit.Some? && !spurious then Nearer(d, e) else e == d || Nearer(d, e)
  {
    var pc := PcOf(st, s);
    if pc.Claiming? && st.limit.Some? {
      if spurious || pc.seen != st.total {
        assert WorkerClaims(st, s, spurious) == Goto(st, s, Claiming(pc.chunk, st.total));
        RetryTurn(st, s);
      } else {
        ClaimedTurn(st, s, Allowance(st.limit.value, st.total, |pc.chunk|));
      }
    }
  }

  lemma FlagTurn(st: Agent, s: Stream)
    requires PcOk(PcOf(st, s)) && Busy(PcOf(st, s))
    ensures var d, e := DutyOf(st, s), DutyOf(WorkerFlags(st, s), s);
            if PcOf(st, s).Claimed? then Nearer(d, e) else e == d || Nearer(d, e)
  {
    var pc := PcOf(st, s);
    if pc.Claimed? {
      GotoDuty(st, s, if pc.keep < |pc.chunk| then Flagged(pc.chunk, pc.keep) else Sending(pc.chunk, pc.keep, 0));
    }
  }

  lemma MarkTurn(st: Agent, s: Stream)
    requires PcOk(PcOf(st, s)) && Busy(PcOf(st, s))
    ensures var d, e := DutyOf(st, s), DutyOf(WorkerMarks(st, s), s);
            if PcOf(st, s).Flagged? then Nearer(d, e) else e == d || Nearer(d, e)
  {
    var pc := PcOf(st, s);
    if pc.Flagged? {
      GotoDuty(st, s, if pc.keep == 0 then Finished else Sending(pc.chunk, pc.keep, 0));
    }
  }

  /** The window is full. */
  predicate Blocks(st: Agent, s: Stream)
    requires PcOf(st, s).Sending?
  {
    var pc := PcOf(st, s);
    pc.sent < pc.keep && ReserveOutcome(Get(st.flows, s), pc.keep - pc.sent).Blocked?
  }

  lemma EndTurn(st: Agent, s: Stream, pc: WorkerPc, room: bool)
    requires Busy(PcOf(st, s)) && (pc.Idle? || pc.Finished?)
    ensures Nearer(DutyOf(st, s), DutyOf(Goto(st, s, pc), s)) && Nearer(DutyOf(st, s), DutyOf(Goto(SendError(st, room), s, pc), s))
  {
    GotoDuty(st, s, pc);
    SendDuty(st, s, ErrorFrame, room, pc);
  }

  lemma GrantTurn(st: Agent, s: Stream, pc: WorkerPc, flows: PerStream<Flow>)
    requires PcOf(st, s).Sending? && Nearer(DutyOf(st, s), DutyOf(st, s).(pc := pc))
    ensures Nearer(DutyOf(st, s), DutyOf(Goto(st, s, pc).(flows := flows), s))
  {
    GotoDuty(st, s, pc);
  }

  lemma HearTurn(st: Agent, s: Stream, g: Grant, room: bool)
    requires PcOf(st, s).Sending? && PcOf(st, s).sent < PcOf(st, s).keep && !g.Blocked?
    requires g.Granted? ==> Get(st.flows, s).sent + g.length < U64_LIMIT
    ensures Nearer(DutyOf(st, s), DutyOf(WorkerHears(st, s, g, room), s))
  {
    var pc := PcOf(st, s);
    if g.Granted? {
      GrantTurn(st, s, Publishing(pc.chunk, pc.keep, pc.sent, g.offset, g.length),
                Set(st.flows, s, Reserved(Get(st.flows, s), g)));
    } else {
      EndTurn(st, s, Finished, room);
    }
  }

  lemma ReservesAndHears(st: Agent, s: Stream, room: bool)
    requires PcOf(st, s).Sending? && PcOf(st, s).sent < PcOf(st, s).keep
    ensures WorkerReserves(st, s, room)
         == WorkerHears(st, s, ReserveOutcome(Get(st.flows, s), PcOf(st, s).keep - PcOf(st, s).sent), room)
  {
  }

  lemma AnsweredTurn(st: Agent, s: Stream, room: bool)
    requires PcOf(st, s).Sending? && PcOf(st, s).sent < PcOf(st, s).keep && !Blocks(st, s)
    ensures Nearer(DutyOf(st, s), DutyOf(WorkerReserves(st, s, room), s))
  {
    ReservesAndHears(st, s, room);
    HearTurn(st, s, ReserveOutcome(Get(st.flows, s), PcOf(st, s).keep - PcOf(st, s).sent), room);
  }

  lemma LoopTurn(st: Agent, s: Stream, room: bool)
    requires PcOf(st, s).Sending? && PcOf(st, s).sent == PcOf(st, s).keep
    ensures Nearer(DutyOf(st, s), DutyOf(WorkerReserves(st, s, room), s))
  {
    assert WorkerReserves(st, s, room) == Goto(st, s, Idle);
    EndTurn(st, s, Idle, room);
  }

  /** The window has room, or the loop is at its end. */
  lemma UnblockedTurn(st: Agent, s: Stream, room: bool)
    requires PcOk(PcOf(st, s)) && PcOf(st, s).Sending? && !Blocks(st, s)
    ensures Nearer(DutyOf(st, s), DutyOf(WorkerReserves(st, s, room), s))
  {
    if PcOf(st, s).sent == PcOf(st, s).keep {
      LoopTurn(st, s, room);
    } else {
      AnsweredTurn(st, s, room);
    }
  }

  lemma ReserveTurn(st: Agent, s: Stream, room: bool)
    requires PcOk(PcOf(st, s)) && Busy(PcOf(st, s))
    ensures var d, e := DutyOf(st, s), DutyOf(WorkerReserves(st, s, room), s);
            if PcOf(st, s).Sending? && !Blocks(st, s) then Nearer(d, e) else e == d
  {
    if PcOf(st, s).Sending? && !Blocks(st, s) {
      UnblockedTurn(st, s, room);
    }
  }

  lemma SendTurn(st: Agent, s: Stream, room: bool)
    requires PcOk(PcOf(st, s)) && Busy(PcOf(st, s))
    ensures var d, e := DutyOf(st, s), DutyOf(WorkerSends(st, s, room), s);
            if PcOf(st, s).Publishing? then Nearer(d, e) else e == d || Nearer(d, e)
  {
    var pc := PcOf(st, s);
    if pc.Publishing? {
      var f := PublishedFrame(s, pc);
      SendDuty(st, s, f, room, Finished);
      SendDuty(st, s, f, room, Sending(pc.chunk, pc.keep, pc.sent + pc.length));
    }
  }

  /** The worker gets the step it is at, its claim does not fail for no reason, and the window is not full. */
  predicate Serves(st: Agent, s: Stream, a: Action) {
    && a.ByWorker? && a.s == s
    && match PcOf(st, s)
       case Holding(_) => a.worker.Takes?
       case Claiming(_, _) => a.worker == Claims(false)
       case Claimed(_, _) => a.worker.Flags?
       case Flagged(_, _) => a.worker.Marks?
       case Sending(_, _, _) => a.worker.Reserves? && !Blocks(st, s)
       case Publishing(_, _, _, _, _) => a.worker.Sends?
       case _ => false
  }

  lemma OwnTurn(st: Agent, s: Stream, a: WorkerAction)
    requires PcOk(PcOf(st, s)) && Busy(PcOf(st, s)) && (PcOf(st, s).Claiming? ==> st.limit.Some?)
    ensures var d, e := DutyOf(st, s), DutyOf(WorkerStep(st, s, a), s);
            if Serves(st, s, ByWorker(s, a)) then Nearer(d, e) else e == d || Nearer(d, e)
  {
    match a {
      case Reserves(room) => ReserveTurn(st, s, room);
      case Sends(room) => SendTurn(st, s, room);
      case Takes => TakeTurn(st, s);
      case Claims(spurious) => ClaimTurn(st, s, spurious);
      case Flags => FlagTurn(st, s);
      case Marks => MarkTurn(st, s);
      case _ => EndingTurns(st, s, a);
    }
  }


  // ---- the other threads --------------------------------------------------------------------------

  lemma SendLeaves(st: Agent, f: Frame, room: bool)
    ensures var next := Send(st, f, room);
            next == st.(mach := next.mach, observed := next.observed, wire := next.wire, failed := next.failed)
  {
  }

  /** Neither a worker, nor the budget, nor the waiter and its flag is touched. */
  predicate Aside(st: Agent, next: Agent) {
    && next.workers == st.workers && next.limit == st.limit && next.total == st.total
    && next.waiter == st.waiter && next.done == st.done
  }

  lemma RefusesAside(st: Agent, room: bool)
    ensures Aside(st, ReaderRefuses(st, room)) && Aside(st, ReaderDetaches(st, room))
  {
    SendLeaves(st, ErrorFrame, room);
  }

  lemma QueuesAside(st: Agent, room: bool)
    ensures Aside(st, ReaderQueues(st, room))
  {
    SendLeaves(st, ErrorFrame, room);
  }

  lemma ControlsAside(st: Agent, ok: bool, room: bool)
    ensures Aside(st, ReaderControls(st, ok, room))
  {
    SendLeaves(st, ErrorFrame, room);
  }

  lemma ReceivesAside(st: Agent, a: Arrival)
    ensures Aside(st, ReaderReceives(st, a))
  {
  }

  lemma LeavesAside(st: Agent)
    ensures Aside(st, ReaderLeaves(st)) && Aside(st, ReaderLooks(st)) && Aside(st, Cancels(st))
  {
  }

  lemma AcknowledgesAside(st: Agent)
    ensures Aside(st, ReaderAcknowledges(st))
  {
  }

  lemma ReaderAside(st: Agent, a: ReaderAction)
    ensures Aside(st, ReaderStep(st, a))
  {
    match a {
      case Receives(arrival) => ReceivesAside(st, arrival);
      case Refuses(room) => RefusesAside(st, room);
      case Acknowledges => AcknowledgesAside(st);
      case Queues(room) => QueuesAside(st, room);
      case Controls(ok, room) => ControlsAside(st, ok, room);
      case Detaches(room) => RefusesAside(st, room);
      case Leaves => LeavesAside(st);
      case Looks => LeavesAside(st);
      case CancelsProcess => LeavesAside(st);
    }
  }

  lemma ConfirmsAside(st: Agent, room: bool)
    ensures Aside(st, InputConfirms(st, room))
  {
    if st.input.Confirming? {
      SendLeaves(st, InputAckFrame(st.input.next), room);
    }
  }

  lemma WritesAside(st: Agent, ok: bool, room: bool)
    ensures Aside(st, InputWrites(st, ok, room))
  {
    SendLeaves(st, ErrorFrame, room);
  }

  lemma InputAside(st: Agent, a: InputAction)
    ensures Aside(st, InputStep(st, a))
  {
    match a {
      case Fetches =>
      case Writes(ok, room) => WritesAside(st, ok, room);
      case Confirms(room) => ConfirmsAside(st, room);
      case Abandons =>
    }
  }

  lemma WaiterElsewhere(st: Agent, a: WaiterAction, s: Stream)
    ensures DutyOf(WaiterStep(st, a), s) == DutyOf(st, s)
  {
    match a {
      case Forces(t) => ForcesElsewhere(st, t, s);
      case Reports(natural, room) => ReportsElsewhere(st, natural, room, s);
      case _ => QuietElsewhere(st, a, s);
    }
  }

  lemma ForcesElsewhere(st: Agent, t: Stream, s: Stream)
    ensures DutyOf(WaiterForces(st, t), s) == DutyOf(st, s)
  {
    GetSet(st.workers, t, Get(st.workers, t).(forced := true), s);
  }

  lemma ReportsElsewhere(st: Agent, natural: ExitStatus, room: bool, s: Stream)
    ensures DutyOf(WaiterReports(st, natural, room), s) == DutyOf(st, s)
  {
    SendLeaves(st, ErrorFrame, room);
    if st.waiter.Settled? {
      SendLeaves(st, ExitedFrame(StatusOf(st.waiter.reason, natural), st.waiter.truncated), room);
    }
  }

  lemma QuietElsewhere(st: Agent, a: WaiterAction, s: Stream)
    requires !a.Forces? && !a.Reports?
    ensures DutyOf(WaiterStep(st, a), s) == DutyOf(st, s)
  {
  }

  /** What has ended stays ended. */
  predicate Lasts(st: Agent, next: Agent) {
    (st.failed ==> next.failed) && (st.mach.Shut? ==> next.mach.Shut?)
  }

  /** A step of one output worker: it leaves the other workers and the waiter alone. */
  predicate OneWorker(st: Agent, next: Agent, t: Stream) {
    && next.workers == Set(st.workers, t, Get(next.workers, t)) && next.limit == st.limit && next.waiter == st.waiter
    && (next.total == st.total || (st.limit.Some? && st.total < next.total <= st.limit.value))
    && Lasts(st, next) && AddsOutput(st.observed, next.observed)
    && (next.termination == st.termination || PcOf(st, t).Flagged?)
    && next.reader == st.reader && next.inputs == st.inputs && next.input == st.input && next.done == st.done
  }

  /** At most one more frame, and that is output or an error. */
  predicate AddsOutput(before: seq<Frame>, after: seq<Frame>) {
    || after == before
    || (|after| == |before| + 1 && after[..|before|] == before && (after[|before|].OutputFrame? || after[|before|].ErrorFrame?))
  }

  lemma SendAddsOutput(st: Agent, f: Frame, room: bool)
    requires f.OutputFrame? || f.ErrorFrame?
    ensures AddsOutput(st.observed, Send(st, f, room).observed)
  {
  }

  lemma SendLasts(st: Agent, f: Frame, room: bool)
    ensures Lasts(st, Send(st, f, room)) && (Terminal(f) ==> Send(st, f, room).mach.Shut?)
  {
  }

  lemma StillWorker(st: Agent, t: Stream)
    ensures OneWorker(st, st, t)
  {
    SetSame(st.workers, t);
  }

  lemma PutAlone(st: Agent, t: Stream, w: Worker)
    ensures OneWorker(st, PutWorker(st, t, w), t)
  {
    GetSet(st.workers, t, w, t);
  }

  /** The worker goes on, with its flow, the flag and the reason. */
  lemma GotoAlone(st: Agent, t: Stream, pc: WorkerPc, flows: PerStream<Flow>, reason: Termination)
    ensures OneWorker(st, Goto(st, t, pc), t)
    ensures OneWorker(st, Goto(st, t, pc).(flows := flows), t)
    ensures OneWorker(st, Goto(st, t, pc).(truncated := true), t)
    ensures PcOf(st, t).Flagged? ==> OneWorker(st, Goto(st, t, pc).(termination := reason), t)
  {
    PutAlone(st, t, Get(st.workers, t).(pc := pc));
  }

  lemma SendingWorker(st: Agent, t: Stream, f: Frame, room: bool, pc: WorkerPc)
    requires f.OutputFrame? || f.ErrorFrame?
    ensures OneWorker(st, Goto(Send(st, f, room), t, pc), t)
  {
    SendLeaves(st, f, room);
    SendLasts(st, f, room);
    SendAddsOutput(st, f, room);
    GetSet(st.workers, t, Get(st.workers, t).(pc := pc), t);
  }

  lemma ClaimedWorkerAlone(st: Agent, t: Stream, keep: nat)
    requires PcOf(st, t).Claiming? && st.limit.Some? && keep <= Unspent(st.limit, st.total)
    ensures OneWorker(st, PutWorker(st, t, ClaimedWorker(Get(st.workers, t), keep)).(total := st.total + keep), t)
  {
    GetSet(st.workers, t, ClaimedWorker(Get(st.workers, t), keep), t);
  }

  lemma RetryAlone(st: Agent, t: Stream, spurious: bool)
    requires PcOf(st, t).Claiming? && st.limit.Some? && (spurious || PcOf(st, t).seen != st.total)
    ensures OneWorker(st, WorkerClaims(st, t, spurious), t)
  {
    PutAlone(st, t, Get(st.workers, t).(pc := Claiming(PcOf(st, t).chunk, st.total)));
  }

  lemma ClaimAlone(st: Agent, t: Stream, spurious: bool)
    ensures OneWorker(st, WorkerClaims(st, t, spurious), t)
  {
    var pc := PcOf(st, t);
    if !pc.Claiming? || st.limit.None? {
      StillWorker(st, t);
    } else if spurious || pc.seen != st.total {
      RetryAlone(st, t, spurious);
    } else {
      ClaimedWorkerAlone(st, t, Allowance(st.limit.value, st.total, |pc.chunk|));
    }
  }

  lemma HearAlone(st: Agent, t: Stream, g: Grant, room: bool)
    requires PcOf(st, t).Sending? && (g.Granted? ==> Get(st.flows, t).sent + g.length < U64_LIMIT)
    ensures OneWorker(st, WorkerHears(st, t, g, room), t)
  {
    var pc := PcOf(st, t);
    match g {
      case Blocked => StillWorker(st, t);
      case Stopped => GotoAlone(st, t, Finished, st.flows, st.termination);
      case NoBytes => SendingWorker(st, t, ErrorFrame, room, Finished);
      case Overflow => SendingWorker(st, t, ErrorFrame, room, Finished);
      case Granted(offset, length) =>
        GotoAlone(st, t, Publishing(pc.chunk, pc.keep, pc.sent, offset, length),
                  Set(st.flows, t, Reserved(Get(st.flows, t), g)), st.termination);
    }
  }

  lemma AnsweredAlone(st: Agent, t: Stream, room: bool)
    requires PcOf(st, t).Sending? && PcOf(st, t).sent < PcOf(st, t).keep
    ensures OneWorker(st, WorkerReserves(st, t, room), t)
  {
    ReservesAndHears(st, t, room);
    HearAlone(st, t, ReserveOutcome(Get(st.flows, t), PcOf(st, t).keep - PcOf(st, t).sent), room);
  }

  lemma UnansweredAlone(st: Agent, t: Stream, room: bool)
    requires !(PcOf(st, t).Sending? && PcOf(st, t).sent < PcOf(st, t).keep)
    ensures OneWorker(st, WorkerReserves(st, t, room), t)
  {
    var next := WorkerReserves(st, t, room);
    assert next == st || next == Goto(st, t, Idle);
    StillWorker(st, t);
    PutAlone(st, t, Get(st.workers, t).(pc := Idle));
  }

  lemma ReserveAlone(st: Agent, t: Stream, room: bool)
    ensures OneWorker(st, WorkerReserves(st, t, room), t)
  {
    if PcOf(st, t).Sending? && PcOf(st, t).sent < PcOf(st, t).keep {
      AnsweredAlone(st, t, room);
    } else {
      UnansweredAlone(st, t, room);
    }
  }

  lemma SendAlone(st: Agent, t: Stream, room: bool)
    ensures OneWorker(st, WorkerSends(st, t, room), t)
  {
    var pc := PcOf(st, t);
    StillWorker(st, t);
    if pc.Publishing? && pc.sent + pc.length <= |pc.chunk| {
      var f := PublishedFrame(t, pc);
      SendingWorker(st, t, f, room, if SendSucceeds(st, f, room) then Sending(pc.chunk, pc.keep, pc.sent + pc.length) else Finished);
    }
  }

  lemma TakeAlone(st: Agent, t: Stream)
    ensures OneWorker(st, WorkerTakes(st, t), t)
  {
    var pc := PcOf(st, t);
    if pc.Holding? {
      GotoAlone(st, t, if st.limit.None? then Sending(pc.chunk, |pc.chunk|, 0) else Claiming(pc.chunk, st.total),
                st.flows, st.termination);
    } else {
      StillWorker(st, t);
    }
  }

  lemma FlagAlone(st: Agent, t: Stream)
    ensures OneWorker(st, WorkerFlags(st, t), t)
  {
    var pc := PcOf(st, t);
    if pc.Claimed? {
      GotoAlone(st, t, if pc.keep < |pc.chunk| then Flagged(pc.chunk, pc.keep) else Sending(pc.chunk, pc.keep, 0),
                st.flows, st.termination);
    } else {
      StillWorker(st, t);
    }
  }

  lemma MarkAlone(st: Agent, t: Stream)
    ensures OneWorker(st, WorkerMarks(st, t), t)
  {
    var pc := PcOf(st, t);
    if pc.Flagged? {
      GotoAlone(st, t, if pc.keep == 0 then Finished else Sending(pc.chunk, pc.keep, 0),
                st.flows, Mark(st.termination, ByOutputLimit));
    } else {
      StillWorker(st, t);
    }
  }

  lemma ReadAlone(st: Agent, t: Stream, chunk: seq<Byte>)
    ensures OneWorker(st, WorkerReads(st, t, chunk), t) && OneWorker(st, WorkerPanics(st, t), t)
  {
    var w := Get(st.workers, t);
    StillWorker(st, t);
    PutAlone(st, t, w.(pc := Holding(chunk), read := w.read + chunk));
    PutAlone(st, t, w.(pc := Finished, panicked := true));
  }

  lemma EndAlone(st: Agent, t: Stream)
    ensures OneWorker(st, WorkerStarts(st, t), t) && OneWorker(st, WorkerEnds(st, t), t) && OneWorker(st, WorkerQuits(st, t), t)
  {
    StillWorker(st, t);
    GotoAlone(st, t, Reading, st.flows, st.termination);
    GotoAlone(st, t, Finished, st.flows, st.termination);
  }

  lemma WorkerAlone(st: Agent, t: Stream, a: WorkerAction)
    ensures OneWorker(st, WorkerStep(st, t, a), t)
  {
    match a {
      case Claims(spurious) => ClaimAlone(st, t, spurious);
      case Reserves(room) => ReserveAlone(st, t, room);
      case Sends(room) => SendAlone(st, t, room);
      case ReadFails(room) =>
        StillWorker(st, t);
        SendingWorker(st, t, ErrorFrame, room, Finished);
      case Takes => TakeAlone(st, t);
      case Flags => FlagAlone(st, t);
      case Marks => MarkAlone(st, t);
      case Reads(chunk) => ReadAlone(st, t, chunk);
      case Panics => ReadAlone(st, t, []);
      case _ => EndAlone(st, t);
    }
  }

  lemma WorkerElsewhere(st: Agent, next: Agent, t: Stream, s: Stream)
    requires t != s && OneWorker(st, next, t)
    ensures Elsewhere(DutyOf(st, s), DutyOf(next, s))
  {
    GetSet(st.workers, t, Get(next.workers, t), s);
  }

  lemma OtherTurn(st: Agent, a: Action, s: Stream)
    requires !(a.ByWorker? && a.s == s)
    ensures Elsewhere(DutyOf(st, s), DutyOf(Step(st, a), s))
  {
    match a {
      case ByWorker(t, w) =>
        WorkerAlone(st, t, w);
        WorkerElsewhere(st, Step(st, a), t, s);
      case ByReader(r) => ReaderAside(st, r);
      case ByInput(i) => InputAside(st, i);
      case ByWaiter(w) => WaiterElsewhere(st, w, s);
      case ByWriter =>
    }
  }

  // ---- the round ends -------------------------------------------------------------------------------

  /** The schedule serves the worker `k` times, or until it is done with its chunk. */
  predicate Attends(st: Agent, s: Stream, actions: seq<Action>, k: nat)
    decreases |actions|
  {
    !Busy(PcOf(st, s)) || k == 0 ||
    (actions != [] && Attends(Step(st, actions[0]), s, actions[1..], if Serves(st, s, actions[0]) then k - 1 else k))
  }

  /** One step of anybody: the round is over, or its rank has not risen, and has fallen if the worker was served. */
  lemma AnyTurn(st: Agent, s: Stream, a: Action)
    requires Inv(st) && Busy(PcOf(st, s))
    ensures var d, e := DutyOf(st, s), DutyOf(Step(st, a), s);
            && e.read == d.read
            && (e.pc.Idle? || e.pc.Finished? ||
                (Busy(e.pc) && Rank(e) + (if Serves(st, s, a) then 1 else 0) <= Rank(d)))
  {
    if a.ByWorker? && a.s == s {
      WorkerFacts(st, s);
      OwnTurn(st, s, a.worker);
    } else {
      OtherTurn(st, a, s);
      ElsewhereRank(DutyOf(st, s), DutyOf(Step(st, a), s));
    }
  }

  lemma BusyRank(st: Agent, s: Stream)
    requires Inv(st) && Busy(PcOf(st, s))
    ensures Rank(DutyOf(st, s)) > 0
  {
    WorkerFacts(st, s);
  }

  /** As long as the window is not full there is a step that serves the worker. */
  lemma CanBeServed(st: Agent, s: Stream) returns (a: WorkerAction)
    requires Busy(PcOf(st, s)) && !(PcOf(st, s).Sending? && Blocks(st, s))
    ensures Serves(st, s, ByWorker(s, a))
  {
    a := match PcOf(st, s)
      case Holding(_) => Takes
      case Claiming(_, _) => Claims(false)
      case Claimed(_, _) => Flags
      case Flagged(_, _) => Marks
      case Sending(_, _, _) => Reserves(true)
      case _ => Sends(true);
  }

  lemma {:induction false} RoundEnds(st: Agent, s: Stream, actions: seq<Action>, k: nat) returns (n: nat)
    requires Inv(st) && Attends(st, s, actions, k) && (Busy(PcOf(st, s)) ==> k >= Rank(DutyOf(st, s)))
    ensures n <= |actions|
    ensures var end := Run(st, actions[..n]);
            Inv(end) && !Busy(PcOf(end, s)) && Get(end.workers, s).read == Get(st.workers, s).read
    decreases |actions|
  {
    if !Busy(PcOf(st, s)) {
      n := 0;
      assert actions[..0] == [];
    } else {
      BusyRank(st, s);
      ActionInv(st, actions[0]);
      AnyTurn(st, s, actions[0]);
      n := RoundEnds(Step(st, actions[0]), s, actions[1..], if Serves(st, s, actions[0]) then k - 1 else k);
      n := n + 1;
      RunOn(st, actions, n);
    }
  }

  /** Why a worker that is done has not sent all it read. */
  predicate Excused(st: Agent, s: Stream) {
    || st.truncated || st.mach.Shut? || st.failed
    || Get(st.workers, s).panicked || Get(st.workers, s).forced || Get(st.flows, s).stopped
  }

  /**
   In every state the server can be in and on every schedule from there, faults
   and all: a worker with a chunk in hand that is served often enough (a number
   fixed by the chunk and the budget) comes to the end of it, and then all it
   has read is on the wire, or the budget is spent, or the worker has ended with
   a reason.
   */
  lemma ServedWorkerDelivers(pty: bool, limit: nat, before: seq<Action>, s: Stream, actions: seq<Action>) returns (n: nat)
    requires var st := Run(Launch(pty, limit), before);
             Busy(PcOf(st, s)) && Attends(st, s, actions, Rank(DutyOf(st, s)))
    ensures n <= |actions|
    ensures var st := Run(Launch(pty, limit), before);
            var end := Run(st, actions[..n]);
            && !Busy(PcOf(end, s)) && Get(end.workers, s).read == Get(st.workers, s).read
            && (Published(end.wire, s) == Get(end.workers, s).read
                || (if PcOf(end, s).Finished? then Excused(end, s) else Spent(end)))
  {
    var st := Run(Launch(pty, limit), before);
    LaunchInv(pty, limit);
    RunInv(Launch(pty, limit), before);
    n := RoundEnds(st, s, actions, Rank(DutyOf(st, s)));
    DoneMeansPublished(Run(st, actions[..n]), s);
  }

  lemma DoneMeansPublished(st: Agent, s: Stream)
    requires Inv(st) && !Busy(PcOf(st, s))
    ensures Published(st.wire, s) == Get(st.workers, s).read || (if PcOf(st, s).Finished? then Excused(st, s) else Spent(st))
  {
    WorkerFacts(st, s);
    var v := ViewOf(st, s);
    assert v.published + [] == v.published;
  }

  // ---- the waiter -----------------------------------------------------------------------------------

  /** How many more moves the waiter can make. */
  function Errands(w: WaiterPc): nat {
    match w
    case Polling => 15
    case Awaiting(left) => 11 + |left|
    case Draining(left) => 7 + |left|
    case Stopping(_) => 6
    case Judging(_) => 5
    case Judged(_) => 4
    case Concluding => 3
    case Reasoned(_) => 2
    case Settled(_, _) => 1
    case Reporting => 1
    case Retired => 0
  }

  lemma OneLess(left: set<Stream>, s: Stream)
    ensures left - {s} == left || |left - {s}| < |left|
  {
    if s in left {
      assert left == (left - {s}) + {s};
    } else {
      assert left - {s} == left;
    }
  }

  lemma SeesMovesOn(st: Agent, s: Stream)
    ensures var next := WaiterJoins(st, s).waiter; next == st.waiter || Errands(next) < Errands(st.waiter)
    ensures var next := WaiterSeesDrained(st, s).waiter; next == st.waiter || Errands(next) < Errands(st.waiter)
  {
    if st.waiter.Awaiting? || st.waiter.Draining? {
      OneLess(st.waiter.left, s);
    }
  }

  lemma ReportsMovesOn(st: Agent, natural: ExitStatus, room: bool)
    ensures var next := WaiterReports(st, natural, room).waiter; next == st.waiter || Errands(next) < Errands(st.waiter)
  {
  }

  lemma ProceedsMovesOn(st: Agent)
    ensures var next := WaiterProceeds(st).waiter; next == st.waiter || Errands(next) < Errands(st.waiter)
    ensures var next := WaiterSeesExit(st).waiter; next == st.waiter || Errands(next) < Errands(st.waiter)
  {
    assert |EveryStream| == 3;
  }

  lemma ClosesMovesOn(st: Agent, abandoned: bool)
    ensures var next := WaiterCloses(st, abandoned).waiter; next == st.waiter || Errands(next) < Errands(st.waiter)
  {
  }

  lemma StopsMovesOn(st: Agent, s: Stream)
    ensures WaiterTimesOut(st).waiter == WaiterStops(st, s).waiter == WaiterForces(st, s).waiter == st.waiter
  {
  }

  lemma ExpiresMovesOn(st: Agent)
    ensures var next := WaiterExpires(st).waiter; next == st.waiter || Errands(next) < Errands(st.waiter)
    ensures var next := WaiterGivesUp(st).waiter; next == st.waiter || Errands(next) < Errands(st.waiter)
  {
  }

  lemma DecidesMovesOn(st: Agent, statusOk: bool)
    ensures var next := WaiterChecksFailure(st).waiter; next == st.waiter || Errands(next) < Errands(st.waiter)
    ensures var next := WaiterDecides(st, statusOk).waiter; next == st.waiter || Errands(next) < Errands(st.waiter)
  {
  }

  lemma LoadsMovesOn(st: Agent)
    ensures var next := WaiterLoadsReason(st).waiter; next == st.waiter || Errands(next) < Errands(st.waiter)
    ensures var next := WaiterLoadsFlag(st).waiter; next == st.waiter || Errands(next) < Errands(st.waiter)
  {
  }

  /** Every move of the waiter takes it nearer to its end. */
  lemma WaiterMovesOn(st: Agent, a: WaiterAction)
    ensures var next := WaiterStep(st, a).waiter; next == st.waiter || Errands(next) < Errands(st.waiter)
  {
    match a {
      case Joins(s) => SeesMovesOn(st, s);
      case SeesDrained(s) => SeesMovesOn(st, s);
      case Reports(natural, room) => ReportsMovesOn(st, natural, room);
      case Proceeds => ProceedsMovesOn(st);
      case SeesExit => ProceedsMovesOn(st);
      case Expires => ExpiresMovesOn(st);
      case GivesUp => ExpiresMovesOn(st);
      case ChecksFailure => DecidesMovesOn(st, true);
      case Decides(statusOk) => DecidesMovesOn(st, statusOk);
      case LoadsReason => LoadsMovesOn(st);
      case LoadsFlag => LoadsMovesOn(st);
      case Closes(abandoned) => ClosesMovesOn(st, abandoned);
      case TimesOut => StopsMovesOn(st, Stdout);
      case Stops(s) => StopsMovesOn(st, s);
      case Forces(s) => StopsMovesOn(st, s);
    }
  }

  /** Once the process has exited the waiter is never stuck: a deadline passes where it would have to wait. */
  lemma WaiterNeverStuck(st: Agent) returns (a: WaiterAction)
    requires !st.waiter.Polling? && !st.waiter.Retired?
    ensures WaiterStep(st, a).waiter != st.waiter
  {
    if st.waiter.Settled? || st.waiter.Reporting? {
      a := Reports(Code(0), true);
    } else {
      a := NextErrand(st);
    }
  }

  lemma NextErrand(st: Agent) returns (a: WaiterAction)
    requires !st.waiter.Polling? && !st.waiter.Settled? && !st.waiter.Reporting? && !st.waiter.Retired?
    ensures WaiterStep(st, a).waiter != st.waiter
  {
    match st.waiter {
      case Awaiting(left) => a := if left == {} then Proceeds else Expires;
      case Draining(left) => a := if left == {} then Proceeds else GivesUp;
      case Stopping(_) => a := Closes(true);
      case Judging(_) => a := ChecksFailure;
      case Judged(_) => a := Decides(true);
      case Concluding => a := LoadsReason;
      case _ => a := LoadsFlag;
    }
  }

  lemma ReaderLasts(st: Agent, a: ReaderAction)
    ensures Lasts(st, ReaderStep(st, a))
  {
  }

  lemma InputLasts(st: Agent, a: InputAction)
    ensures Lasts(st, InputStep(st, a))
  {
  }

  /** A waiter that has retired has seen the writer fail, or has said its last word. */
  predicate WordSaid(st: Agent) {
    st.waiter.Retired? ==> st.failed || st.mach.Shut?
  }

  lemma ReportsWord(st: Agent, natural: ExitStatus, room: bool)
    requires WordSaid(st)
    ensures WordSaid(WaiterReports(st, natural, room))
  {
    SendLasts(st, ErrorFrame, room);
    if st.waiter.Settled? {
      SendLasts(st, ExitedFrame(StatusOf(st.waiter.reason, natural), st.waiter.truncated), room);
    }
  }

  lemma WaiterWord(st: Agent, a: WaiterAction)
    requires WordSaid(st)
    ensures WordSaid(WaiterStep(st, a))
  {
    if a.Reports? {
      ReportsWord(st, a.natural, a.room);
    }
  }

  lemma ActionWord(st: Agent, a: Action)
    requires WordSaid(st)
    ensures WordSaid(Step(st, a))
  {
    match a {
      case ByWorker(s, w) => WorkerAlone(st, s, w);
      case ByReader(r) =>
        ReaderLasts(st, r);
        ReaderAside(st, r);
      case ByInput(i) =>
        InputLasts(st, i);
        InputAside(st, i);
      case ByWaiter(w) => WaiterWord(st, w);
      case ByWriter =>
    }
  }

  lemma {:induction false} RunWord(st: Agent, actions: seq<Action>)
    requires WordSaid(st)
    ensures WordSaid(Run(st, actions))
    decreases |actions|
  {
    if actions != [] {
      ActionWord(st, actions[0]);
      RunWord(Step(st, actions[0]), actions[1..]);
    }
  }

  /** The schedule moves the waiter `k` times, or until it has retired. */
  predicate AttendsWaiter(st: Agent, actions: seq<Action>, k: nat)
    decreases |actions|
  {
    st.waiter.Retired? || k == 0 ||
    (actions != [] &&
     AttendsWaiter(Step(st, actions[0]), actions[1..], if Step(st, actions[0]).waiter != st.waiter then k - 1 else k))
  }

  /** Only the waiter moves the waiter, and only towards its end. */
  lemma ActionMovesOn(st: Agent, a: Action)
    ensures var next := Step(st, a).waiter; next == st.waiter || Errands(next) < Errands(st.waiter)
  {
    match a {
      case ByWorker(s, w) => WorkerAlone(st, s, w);
      case ByReader(r) => ReaderAside(st, r);
      case ByInput(i) => InputAside(st, i);
      case ByWaiter(w) => WaiterMovesOn(st, w);
      case ByWriter =>
    }
  }

  lemma {:induction false} WaiterRetires(st: Agent, actions: seq<Action>, k: nat)
    requires AttendsWaiter(st, actions, k) && k >= Errands(st.waiter)
    ensures Run(st, actions).waiter.Retired?
    decreases |actions|
  {
    if actions != [] {
      ActionMovesOn(st, actions[0]);
      WaiterRetires(Step(st, actions[0]), actions[1..],
                    if k > 0 && Step(st, actions[0]).waiter != st.waiter then k - 1 else k);
    }
  }

  /**
   On every schedule, faults and all: fifteen moves are all the waiter needs to
   retire, once the process has exited it can make the next one without waiting
   for anybody, and when it has retired the writer has failed or the last frame
   the machine accepted is the exit or an error.
   */
  lemma ServedWaiterRetires(pty: bool, limit: nat, actions: seq<Action>)
    ensures var st := Launch(pty, limit);
            var end := Run(st, actions);
            && (AttendsWaiter(st, actions, 15) ==> end.waiter.Retired?)
            && (end.waiter.Polling? || end.waiter.Retired? || exists a :: WaiterStep(end, a).waiter != end.waiter)
            && (end.waiter.Retired? ==>
                  end.failed || (end.observed != [] && Terminal(end.observed[|end.observed| - 1])))
  {
    var st := Launch(pty, limit);
    var end := Run(st, actions);
    if AttendsWaiter(st, actions, 15) {
      WaiterRetires(st, actions, 15);
    }
    RunWord(st, actions);
    LaunchInv(pty, limit);
    RunInv(st, actions);
    assert TapeOk(TapeOf(end));
    if !end.waiter.Polling? && !end.waiter.Retired? {
      var a := WaiterNeverStuck(end);
    }
  }
}
