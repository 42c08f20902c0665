/**
 What the agent's server can always do when nothing stands in its way: an
 output worker delivers what it reads, and the waiter reports the exit.
 */
module AgentServerProgress {
  import opened Protocol
  import opened ServerMachine
  import opened OutputFlow
  import opened AgentServer
  import opened AgentServerStreams
  import opened AgentServerReports

  lemma {:induction false} RunAppend(st: Agent, first: seq<Action>, second: seq<Action>)
    ensures Run(st, first + second) == Run(Run(st, first), second)
    decreases |first|
  {
    if first == [] {
      assert first + second == second;
    } else {
      assert (first + second)[1..] == first[1..] + second;
      RunAppend(Step(st, first[0]), first[1..], second);
    }
  }

  /** A run reaches `next`; one more step reaches `after`. */
  lemma Then(st: Agent, actions: seq<Action>, next: Agent, a: Action, after: Agent)
    requires Run(st, actions) == next && Step(next, a) == after
    ensures Run(st, actions + [a]) == after
  {
    RunAppend(st, actions, [a]);
    assert [a][1..] == [];
  }

  // ---- an output worker --------------------------------------------------------------------------

  /** A chunk for which the budget and the window have room, and whose stream is open. */
  predicate RoomFor(st: Agent, s: Stream, chunk: seq<Byte>) {
    var flow := Get(st.flows, s);
    && 0 < |chunk| <= MAX_DATA_CHUNK
    && (st.limit.Some? ==> st.total + |chunk| <= st.limit.value)
    && st.mach.Open? && Active(st.pty, s) && Get(st.mach.out, s).next == flow.sent
    && !flow.stopped && flow.acked <= flow.sent && flow.sent + |chunk| <= flow.acked + WINDOW && flow.sent + |chunk| < U64_LIMIT
  }

  /** The worker after a chunk has been read and, with a budget, claimed. */
  function HoldsAll(st: Agent, s: Stream, chunk: seq<Byte>): Agent {
    var w := Get(st.workers, s);
    PutWorker(st, s, w.(pc := Sending(chunk, |chunk|, 0), read := w.read + chunk,
                        claimed := if st.limit.Some? then w.claimed + |chunk| else w.claimed))
    .(total := if st.limit.Some? then st.total + |chunk| else st.total)
  }

  lemma SetTwice<T>(p: PerStream<T>, s: Stream, a: T, b: T)
    ensures Set(Set(p, s, a), s, b) == Set(p, s, b) && Get(Set(p, s, a), s) == a
  {
  }

  /** The state with one worker put somewhere else. */
  function With(st: Agent, s: Stream, w: Worker, total: nat): Agent {
    st.(workers := Set(st.workers, s, w), total := total)
  }

  lemma StepReads(st: Agent, s: Stream, w: Worker, chunk: seq<Byte>)
    requires Get(st.workers, s) == w && w.pc.Reading? && 0 < |chunk| <= MAX_DATA_CHUNK
    ensures Step(st, ByWorker(s, Reads(chunk))) == With(st, s, w.(pc := Holding(chunk), read := w.read + chunk), st.total)
  {
  }

  lemma StepTakes(st: Agent, s: Stream, w: Worker)
    requires w.pc.Holding?
    ensures Step(With(st, s, w, st.total), ByWorker(s, Takes))
         == With(st, s, w.(pc := if st.limit.None? then Sending(w.pc.chunk, |w.pc.chunk|, 0) else Claiming(w.pc.chunk, st.total)), st.total)
  {
    SetTwice(st.workers, s, w, w);
  }

  lemma StepClaims(st: Agent, s: Stream, w: Worker)
    requires w.pc.Claiming? && st.limit.Some? && w.pc.seen == st.total && st.total + |w.pc.chunk| <= st.limit.value
    ensures Step(With(st, s, w, st.total), ByWorker(s, Claims(false)))
         == With(st, s, ClaimedWorker(w, |w.pc.chunk|), st.total + |w.pc.chunk|)
  {
    SetTwice(st.workers, s, w, ClaimedWorker(w, |w.pc.chunk|));
  }

  lemma StepFlags(st: Agent, s: Stream, w: Worker, total: nat)
    requires w.pc.Claimed? && w.pc.keep == |w.pc.chunk|
    ensures Step(With(st, s, w, total), ByWorker(s, Flags)) == With(st, s, w.(pc := Sending(w.pc.chunk, w.pc.keep, 0)), total)
  {
    SetTwice(st.workers, s, w, w.(pc := Sending(w.pc.chunk, w.pc.keep, 0)));
  }

  lemma ReadsAndTakes(st: Agent, s: Stream, chunk: seq<Byte>, next: Worker) returns (actions: seq<Action>)
    requires PcOf(st, s).Reading? && 0 < |chunk| <= MAX_DATA_CHUNK
    requires next == Get(st.workers, s).(pc := if st.limit.None? then Sending(chunk, |chunk|, 0) else Claiming(chunk, st.total),
                                         read := Get(st.workers, s).read + chunk)
    ensures Run(st, actions) == With(st, s, next, st.total)
  {
    var w := Get(st.workers, s);
    var held := w.(pc := Holding(chunk), read := w.read + chunk);
    StepReads(st, s, w, chunk);
    Then(st, [], st, ByWorker(s, Reads(chunk)), With(st, s, held, st.total));
    StepTakes(st, s, held);
    actions := [] + [ByWorker(s, Reads(chunk))];
    Then(st, actions, With(st, s, held, st.total), ByWorker(s, Takes), With(st, s, next, st.total));
    actions := actions + [ByWorker(s, Takes)];
  }

  lemma ClaimsAll(st: Agent, s: Stream, claiming: Worker) returns (actions: seq<Action>)
    requires claiming.pc.Claiming? && st.limit.Some? && claiming.pc.seen == st.total
    requires st.total + |claiming.pc.chunk| <= st.limit.value
    ensures var chunk := claiming.pc.chunk;
            Run(With(st, s, claiming, st.total), actions)
              == With(st, s, ClaimedWorker(claiming, |chunk|).(pc := Sending(chunk, |chunk|, 0)), st.total + |chunk|)
  {
    var from, total := With(st, s, claiming, st.total), st.total + |claiming.pc.chunk|;
    var claimed := ClaimedWorker(claiming, |claiming.pc.chunk|);
    StepClaims(st, s, claiming);
    Then(from, [], from, ByWorker(s, Claims(false)), With(st, s, claimed, total));
    StepFlags(st, s, claimed, total);
    actions := [] + [ByWorker(s, Claims(false))];
    Then(from, actions, With(st, s, claimed, total), ByWorker(s, Flags),
         With(st, s, claimed.(pc := Sending(claimed.pc.chunk, claimed.pc.keep, 0)), total));
    actions := actions + [ByWorker(s, Flags)];
  }

  lemma Holds(st: Agent, s: Stream, chunk: seq<Byte>) returns (actions: seq<Action>)
    requires PcOf(st, s).Reading? && RoomFor(st, s, chunk)
    ensures Run(st, actions) == HoldsAll(st, s, chunk)
  {
    var w := Get(st.workers, s);
    var next := w.(pc := if st.limit.None? then Sending(chunk, |chunk|, 0) else Claiming(chunk, st.total), read := w.read + chunk);
    actions := ReadsAndTakes(st, s, chunk, next);
    if st.limit.Some? {
      var more := ClaimsAll(st, s, next);
      RunAppend(st, actions, more);
      actions := actions + more;
    }
  }

  /** The state after a whole chunk was reserved and queued. */
  function Queued(st: Agent, s: Stream, chunk: seq<Byte>): Agent
    requires st.mach.Open? && Get(st.flows, s).sent + |chunk| < U64_LIMIT
  {
    var offset := Get(st.flows, s).sent;
    var f := OutputFrame(s, offset, chunk);
    Goto(st, s, Idle)
    .(flows := Set(st.flows, s, Get(st.flows, s).(sent := offset + |chunk|)),
      mach := st.mach.(out := Set(st.mach.out, s, Get(st.mach.out, s).(next := offset + |chunk|))),
      observed := st.observed + [f], wire := st.wire + [f])
  }

  /** The chunk in hand is reserved whole. */
  function Reserving(st: Agent, s: Stream, chunk: seq<Byte>): Agent
    requires Get(st.flows, s).sent + |chunk| < U64_LIMIT
  {
    var flow := Get(st.flows, s);
    Goto(st, s, Publishing(chunk, |chunk|, 0, flow.sent, |chunk|))
    .(flows := Set(st.flows, s, flow.(sent := flow.sent + |chunk|)))
  }

  lemma StepReserves(st: Agent, s: Stream, chunk: seq<Byte>)
    requires PcOf(st, s) == Sending(chunk, |chunk|, 0) && RoomFor(st.(limit := None), s, chunk)
    ensures Step(st, ByWorker(s, Reserves(true))) == Reserving(st, s, chunk)
  {
    assert ReserveOutcome(Get(st.flows, s), |chunk|) == Granted(Get(st.flows, s).sent, |chunk|);
  }

  lemma SendAccepted(st: Agent, f: Frame, mach: Machine)
    requires SendStep(st.mach, st.pty, f) == Some(mach)
    ensures Send(st, f, true) == st.(mach := mach, observed := st.observed + [f], wire := st.wire + [f])
  {
  }

  lemma StepSends(st: Agent, s: Stream, chunk: seq<Byte>)
    requires PcOf(st, s) == Sending(chunk, |chunk|, 0) && RoomFor(st.(limit := None), s, chunk)
    ensures Step(Reserving(st, s, chunk), ByWorker(s, Sends(true)))
         == Goto(Queued(st, s, chunk), s, Sending(chunk, |chunk|, |chunk|))
  {
    var w, flow := Get(st.workers, s), Get(st.flows, s);
    var held := Publishing(chunk, |chunk|, 0, flow.sent, |chunk|);
    var f := OutputFrame(s, flow.sent, chunk);
    var one := Reserving(st, s, chunk);
    SetTwice(st.workers, s, w.(pc := held), w.(pc := Sending(chunk, |chunk|, |chunk|)));
    assert PublishedFrame(s, held) == f by { assert chunk[0..|chunk|] == chunk; }
    SendAccepted(one, f, Queued(st, s, chunk).mach);
    assert Step(one, ByWorker(s, Sends(true))) == Goto(Send(one, f, true), s, Sending(chunk, |chunk|, |chunk|));
    SameOnceSent(st, s, chunk);
  }

  /** Queuing the reserved chunk from where it was reserved, or from before: the same but for the worker's place. */
  lemma SameOnceSent(st: Agent, s: Stream, chunk: seq<Byte>)
    requires st.mach.Open? && Get(st.flows, s).sent + |chunk| < U64_LIMIT
    ensures var q, f, pc := Queued(st, s, chunk), OutputFrame(s, Get(st.flows, s).sent, chunk), Sending(chunk, |chunk|, |chunk|);
            Goto(Reserving(st, s, chunk).(mach := q.mach, observed := st.observed + [f], wire := st.wire + [f]), s, pc) == Goto(q, s, pc)
  {
    var w, pc := Get(st.workers, s), Sending(chunk, |chunk|, |chunk|);
    SetTwice(st.workers, s, w.(pc := Publishing(chunk, |chunk|, 0, Get(st.flows, s).sent, |chunk|)), w.(pc := pc));
    SetTwice(st.workers, s, w.(pc := Idle), w.(pc := pc));
  }

  lemma StepLoops(st: Agent, s: Stream, chunk: seq<Byte>)
    requires PcOf(st, s).Idle?
    ensures Step(Goto(st, s, Sending(chunk, |chunk|, |chunk|)), ByWorker(s, Reserves(true))) == st
  {
    var w := Get(st.workers, s);
    SetTwice(st.workers, s, w.(pc := Sending(chunk, |chunk|, |chunk|)), w);
    SetSame(st.workers, s);
  }

  lemma SendsAll(st: Agent, s: Stream, chunk: seq<Byte>) returns (actions: seq<Action>)
    requires PcOf(st, s) == Sending(chunk, |chunk|, 0) && RoomFor(st.(limit := None), s, chunk)
    ensures Run(st, actions) == Queued(st, s, chunk)
  {
    var sent := Goto(Queued(st, s, chunk), s, Sending(chunk, |chunk|, |chunk|));
    StepReserves(st, s, chunk);
    Then(st, [], st, ByWorker(s, Reserves(true)), Reserving(st, s, chunk));
    actions := [] + [ByWorker(s, Reserves(true))];
    StepSends(st, s, chunk);
    Then(st, actions, Reserving(st, s, chunk), ByWorker(s, Sends(true)), sent);
    actions := actions + [ByWorker(s, Sends(true))];
    SetTwice(st.workers, s, Get(st.workers, s).(pc := Idle), Get(st.workers, s).(pc := Idle));
    StepLoops(Queued(st, s, chunk), s, chunk);
    Then(st, actions, sent, ByWorker(s, Reserves(true)), Queued(st, s, chunk));
    actions := actions + [ByWorker(s, Reserves(true))];
  }

  /** From any state: a chunk the worker reads, with room for it, is on the wire whole before the next read. */
  lemma ChunkIsDelivered(st: Agent, s: Stream, chunk: seq<Byte>) returns (actions: seq<Action>)
    requires PcOf(st, s).Reading? && RoomFor(st, s, chunk)
    ensures var next := Run(st, actions);
            && next.wire == st.wire + [OutputFrame(s, Get(st.flows, s).sent, chunk)]
            && PcOf(next, s).Idle? && Get(next.workers, s).read == Get(st.workers, s).read + chunk
            && Published(next.wire, s) == Published(st.wire, s) + chunk
  {
    var first := Holds(st, s, chunk);
    SetTwice(st.workers, s, Get(st.workers, s), Get(st.workers, s));
    var last := SendsAll(HoldsAll(st, s, chunk), s, chunk);
    actions := first + last;
    RunAppend(st, first, last);
    PublishedAppend(st.wire, OutputFrame(s, Get(st.flows, s).sent, chunk), s);
  }

  // ---- the waiter ----------------------------------------------------------------------------------

  /** Nothing is left to wait for. */
  predicate AllQuiet(st: Agent) {
    && AllFinished(st) && !AnyPanicked(st) && !st.failed && st.mach.Open?
    && forall s :: Drained(Get(st.flows, s))
  }

  /** The same state with the waiter elsewhere. */
  function At(st: Agent, pc: WaiterPc): Agent {
    st.(waiter := pc)
  }

  lemma StepJoins(st: Agent, left: set<Stream>, s: Stream)
    requires PcOf(st, s).Finished?
    ensures Step(At(st, Awaiting(left)), ByWaiter(Joins(s))) == At(st, Awaiting(left - {s}))
  {
  }

  lemma StepDrains(st: Agent, left: set<Stream>, s: Stream)
    requires Drained(Get(st.flows, s))
    ensures Step(At(st, Draining(left)), ByWaiter(SeesDrained(s))) == At(st, Draining(left - {s}))
  {
  }

  lemma WaiterJoins3(st: Agent) returns (actions: seq<Action>)
    requires AllFinished(st) && st.waiter.Polling?
    ensures Run(st, actions) == At(st, Awaiting({}))
  {
    Then(st, [], st, ByWaiter(SeesExit), At(st, Awaiting(EveryStream)));
    actions := [] + [ByWaiter(SeesExit)];
    StepJoins(st, EveryStream, Stdout);
    Then(st, actions, At(st, Awaiting(EveryStream)), ByWaiter(Joins(Stdout)), At(st, Awaiting(EveryStream - {Stdout})));
    actions := actions + [ByWaiter(Joins(Stdout))];
    StepJoins(st, EveryStream - {Stdout}, Stderr);
    Then(st, actions, At(st, Awaiting(EveryStream - {Stdout})), ByWaiter(Joins(Stderr)), At(st, Awaiting(EveryStream - {Stdout} - {Stderr})));
    actions := actions + [ByWaiter(Joins(Stderr))];
    assert EveryStream - {Stdout} - {Stderr} == {Pty} && {Pty} - {Pty} == {};
    StepJoins(st, {Pty}, Pty);
    Then(st, actions, At(st, Awaiting({Pty})), ByWaiter(Joins(Pty)), At(st, Awaiting({})));
    actions := actions + [ByWaiter(Joins(Pty))];
  }

  lemma WaiterDrains3(st: Agent) returns (actions: seq<Action>)
    requires (forall s :: Drained(Get(st.flows, s))) && st.waiter == Draining(EveryStream)
    ensures Run(st, actions) == At(st, Draining({}))
  {
    assert At(st, Draining(EveryStream)) == st;
    StepDrains(st, EveryStream, Stdout);
    Then(st, [], st, ByWaiter(SeesDrained(Stdout)), At(st, Draining(EveryStream - {Stdout})));
    actions := [] + [ByWaiter(SeesDrained(Stdout))];
    StepDrains(st, EveryStream - {Stdout}, Stderr);
    Then(st, actions, At(st, Draining(EveryStream - {Stdout})), ByWaiter(SeesDrained(Stderr)), At(st, Draining(EveryStream - {Stdout} - {Stderr})));
    actions := actions + [ByWaiter(SeesDrained(Stderr))];
    assert EveryStream - {Stdout} - {Stderr} == {Pty} && {Pty} - {Pty} == {};
    StepDrains(st, {Pty}, Pty);
    Then(st, actions, At(st, Draining({Pty})), ByWaiter(SeesDrained(Pty)), At(st, Draining({})));
    actions := actions + [ByWaiter(SeesDrained(Pty))];
  }

  lemma StepCloses(st: Agent)
    requires AllFinished(st)
    ensures Step(At(st, Draining({})), ByWaiter(Proceeds)) == At(st, Stopping(false))
    ensures Step(At(st, Stopping(false)), ByWaiter(Closes(false))) == At(st.(done := true), Judging(false))
  {
  }

  lemma StepDecides(st: Agent)
    requires !AnyPanicked(st) && !st.failed
    ensures Step(At(st, Judging(false)), ByWaiter(ChecksFailure)) == At(st, Judged(false))
    ensures Step(At(st, Judged(false)), ByWaiter(Decides(true))) == At(st, Concluding)
  {
  }

  lemma StepLoads(st: Agent)
    ensures Step(At(st, Concluding), ByWaiter(LoadsReason)) == At(st, Reasoned(st.termination))
    ensures Step(At(st, Reasoned(st.termination)), ByWaiter(LoadsFlag)) == At(st, Settled(st.termination, st.truncated))
  {
  }

  lemma SendElsewhere(st: Agent, pc: WaiterPc, next: WaiterPc, f: Frame)
    ensures At(Send(At(st, pc), f, true), next) == At(Send(st, f, true), next)
  {
    if SendStep(st.mach, st.pty, f).None? {
      assert Send(st, f, true) == st && Send(At(st, pc), f, true) == At(st, pc);
    }
  }

  lemma StepReports(st: Agent, natural: ExitStatus)
    requires natural.Code? || natural.Signalled?
    ensures Step(At(st, Settled(st.termination, st.truncated)), ByWaiter(Reports(natural, true)))
         == At(Send(st, ExitedFrame(StatusOf(st.termination, natural), st.truncated), true), Retired)
  {
    var pc, f := Settled(st.termination, st.truncated), ExitedFrame(StatusOf(st.termination, natural), st.truncated);
    assert WaiterReports(At(st, pc), natural, true) == At(Send(At(st, pc), f, true), Retired);
    SendElsewhere(st, pc, Retired, f);
  }

  /** The waiter's last words, once everything is drained. */
  lemma WaiterConcludes(st: Agent) returns (actions: seq<Action>)
    requires AllFinished(st) && !AnyPanicked(st) && !st.failed
    ensures Run(At(st, Draining({})), actions) == At(st.(done := true), Concluding)
  {
    var from, done := At(st, Draining({})), st.(done := true);
    StepCloses(st);
    StepDecides(done);
    Then(from, [], from, ByWaiter(Proceeds), At(st, Stopping(false)));
    actions := [] + [ByWaiter(Proceeds)];
    Then(from, actions, At(st, Stopping(false)), ByWaiter(Closes(false)), At(done, Judging(false)));
    actions := actions + [ByWaiter(Closes(false))];
    Then(from, actions, At(done, Judging(false)), ByWaiter(ChecksFailure), At(done, Judged(false)));
    actions := actions + [ByWaiter(ChecksFailure)];
    Then(from, actions, At(done, Judged(false)), ByWaiter(Decides(true)), At(done, Concluding));
    actions := actions + [ByWaiter(Decides(true))];
  }

  lemma WaiterReportsExit(st: Agent, natural: ExitStatus) returns (actions: seq<Action>)
    requires natural.Code? || natural.Signalled?
    ensures Run(At(st, Concluding), actions)
         == At(Send(st, ExitedFrame(StatusOf(st.termination, natural), st.truncated), true), Retired)
  {
    var from := At(st, Concluding);
    StepLoads(st);
    StepReports(st, natural);
    Then(from, [], from, ByWaiter(LoadsReason), At(st, Reasoned(st.termination)));
    actions := [] + [ByWaiter(LoadsReason)];
    Then(from, actions, At(st, Reasoned(st.termination)), ByWaiter(LoadsFlag), At(st, Settled(st.termination, st.truncated)));
    actions := actions + [ByWaiter(LoadsFlag)];
    Then(from, actions, At(st, Settled(st.termination, st.truncated)), ByWaiter(Reports(natural, true)),
         At(Send(st, ExitedFrame(StatusOf(st.termination, natural), st.truncated), true), Retired));
    actions := actions + [ByWaiter(Reports(natural, true))];
  }

  /**
   From any state in which the workers are done, everything is acknowledged and
   the stream is open, the waiter alone gets to report the exit: what the
   process ended with, or the reason it was ended for, and the truncation flag
   as it stands.
   */
  lemma ExitIsReported(st: Agent, natural: ExitStatus) returns (actions: seq<Action>)
    requires st.waiter.Polling? && AllQuiet(st) && (natural.Code? || natural.Signalled?)
    ensures var next := Run(st, actions);
            && |next.wire| == |st.wire| + 1 && next.wire[..|st.wire|] == st.wire && next.mach.Shut? && next.waiter.Retired?
            && Tells(next.wire[|st.wire|], st.termination, natural, st.truncated)
  {
    var joins := WaiterJoins3(st);
    Then(st, joins, At(st, Awaiting({})), ByWaiter(Proceeds), At(st, Draining(EveryStream)));
    var first := joins + [ByWaiter(Proceeds)];
    var drains := WaiterDrains3(At(st, Draining(EveryStream)));
    RunAppend(st, first, drains);
    var decides := WaiterConcludes(st);
    RunAppend(st, first + drains, decides);
    var ends := WaiterReportsExit(st.(done := true), natural);
    RunAppend(st, first + drains + decides, ends);
    actions := first + drains + decides + ends;
  }
}
