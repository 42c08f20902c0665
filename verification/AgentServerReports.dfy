/**
 What the exit that the agent's server reports says about the process: which
 termination reason there was, who gave it, and what the process itself ended
 with, over every interleaving.
 */
module AgentServerReports {
  import opened Protocol
  import opened ServerMachine
  import opened OutputFlow
  import opened AgentServer
  import opened AgentServerStreams
  import opened AgentServerRuns
  import opened AgentServerTurns

  // ---- the reason -----------------------------------------------------------------------------------

  /** The reason an action gives, where there is none yet. */
  function GivenBy(st: Agent, a: Action): Termination {
    match a
    case ByWorker(s, Marks) => if PcOf(st, s).Flagged? then ByOutputLimit else NoReason
    case ByReader(CancelsProcess) => if st.reader.Cancelling? then ByCancel else NoReason
    case ByWaiter(TimesOut) => if st.waiter.Polling? then ByTimeout else NoReason
    case _ => NoReason
  }

  lemma FlaggedReason(st: Agent, s: Stream, a: WorkerAction)
    requires PcOf(st, s).Flagged? && !a.Marks?
    ensures WorkerStep(st, s, a).termination == st.termination
  {
  }

  lemma WorkerReason(st: Agent, s: Stream, a: WorkerAction)
    ensures Step(st, ByWorker(s, a)).termination == if st.termination.NoReason? then GivenBy(st, ByWorker(s, a)) else st.termination
  {
    if PcOf(st, s).Flagged? {
      if !a.Marks? {
        FlaggedReason(st, s, a);
      }
    } else {
      WorkerAlone(st, s, a);
    }
  }

  lemma SendKeepsReason(st: Agent, f: Frame, room: bool)
    ensures Send(st, f, room).termination == st.termination
  {
  }

  lemma ReaderReason(st: Agent, a: ReaderAction)
    requires !a.CancelsProcess?
    ensures ReaderStep(st, a).termination == st.termination
  {
    match a {
      case Refuses(room) => SendKeepsReason(st, ErrorFrame, room);
      case Queues(room) => SendKeepsReason(st, ErrorFrame, room);
      case Controls(_, room) => SendKeepsReason(st, ErrorFrame, room);
      case Detaches(room) => SendKeepsReason(st, ErrorFrame, room);
      case _ =>
    }
  }

  lemma ReportsReason(st: Agent, natural: ExitStatus, room: bool)
    ensures WaiterReports(st, natural, room).termination == st.termination
  {
    SendKeepsReason(st, ErrorFrame, room);
    if st.waiter.Settled? {
      SendKeepsReason(st, ExitedFrame(StatusOf(st.waiter.reason, natural), st.waiter.truncated), room);
    }
  }

  lemma WaiterReason(st: Agent, a: WaiterAction)
    requires !a.TimesOut?
    ensures WaiterStep(st, a).termination == st.termination
  {
    if a.Reports? {
      ReportsReason(st, a.natural, a.room);
    }
  }

  /** The first reason given stays, whatever comes later; and only these three actions give one. */
  lemma ReasonExactly(st: Agent, a: Action)
    ensures Step(st, a).termination == if st.termination.NoReason? then GivenBy(st, a) else st.termination
  {
    match a {
      case ByWorker(s, w) => WorkerReason(st, s, w);
      case ByReader(r) => if !r.CancelsProcess? { ReaderReason(st, r); }
      case ByInput(i) => InputReason(st, i);
      case ByWaiter(w) => if !w.TimesOut? { WaiterReason(st, w); }
      case ByWriter =>
    }
  }

  lemma InputReason(st: Agent, a: InputAction)
    ensures InputStep(st, a).termination == st.termination
  {
    match a {
      case Writes(_, room) => SendKeepsReason(st, ErrorFrame, room);
      case Confirms(room) => if st.input.Confirming? { SendKeepsReason(st, InputAckFrame(st.input.next), room); }
      case _ =>
    }
  }

  /** Along every run a reason once given never changes. */
  lemma {:induction false} ReasonStays(st: Agent, actions: seq<Action>)
    ensures !st.termination.NoReason? ==> Run(st, actions).termination == st.termination
    decreases |actions|
  {
    if actions != [] {
      ReasonExactly(st, actions[0]);
      ReasonStays(Step(st, actions[0]), actions[1..]);
    }
  }

  // ---- who says what --------------------------------------------------------------------------------

  lemma RefusesAdds(st: Agent, room: bool)
    ensures AddsOutput(st.observed, ReaderRefuses(st, room).observed) && AddsOutput(st.observed, ReaderDetaches(st, room).observed)
  {
    SendAddsOutput(st, ErrorFrame, room);
  }

  lemma ControlsAdds(st: Agent, ok: bool, room: bool)
    ensures AddsOutput(st.observed, ReaderControls(st, ok, room).observed)
  {
    SendAddsOutput(st, ErrorFrame, room);
  }

  lemma QueuesAdds(st: Agent, room: bool)
    ensures AddsOutput(st.observed, ReaderQueues(st, room).observed)
  {
    SendAddsOutput(st, ErrorFrame, room);
  }

  lemma ReaderAdds(st: Agent, a: ReaderAction)
    ensures AddsOutput(st.observed, ReaderStep(st, a).observed)
  {
    match a {
      case Refuses(room) => RefusesAdds(st, room);
      case Queues(room) => QueuesAdds(st, room);
      case Controls(ok, room) => ControlsAdds(st, ok, room);
      case Detaches(room) => RefusesAdds(st, room);
      case _ =>
    }
  }

  /** At most one more frame, and it is no exit. */
  predicate NoExit(before: seq<Frame>, after: seq<Frame>) {
    after == before || (|after| == |before| + 1 && after[..|before|] == before && !after[|before|].ExitedFrame?)
  }

  lemma InputNoExit(st: Agent, a: InputAction)
    ensures NoExit(st.observed, InputStep(st, a).observed)
  {
    match a {
      case Writes(_, room) => SendSays(st, ErrorFrame, room);
      case Confirms(room) => if st.input.Confirming? { SendSays(st, InputAckFrame(st.input.next), room); }
      case _ =>
    }
  }

  /** What an exit says, one clause for each reason. */
  predicate Tells(f: Frame, reason: Termination, natural: ExitStatus, truncated: bool) {
    && f.ExitedFrame? && f.truncated == truncated && (natural.Code? || natural.Signalled?)
    && (reason.ByTimeout? ==> f.status.TimedOut?)
    && (reason.ByCancel? ==> f.status.Cancelled?)
    && (reason.ByOutputLimit? ==> f.status.OutputLimit?)
    && (reason.NoReason? ==> f.status == natural)
  }

  lemma SendSays(st: Agent, f: Frame, room: bool)
    ensures Send(st, f, room).observed == st.observed || Send(st, f, room).observed == st.observed + [f]
  {
  }

  lemma ReportSays(st: Agent, natural: ExitStatus, room: bool)
    ensures var next := WaiterReports(st, natural, room).observed;
            || NoExit(st.observed, next)
            || (&& st.waiter.Settled? && |next| == |st.observed| + 1 && next[..|st.observed|] == st.observed
                && Tells(next[|st.observed|], st.waiter.reason, natural, st.waiter.truncated))
  {
    if st.waiter.Reporting? {
      SendSays(st, ErrorFrame, room);
    } else if st.waiter.Settled? {
      SendSays(st, ExitedFrame(StatusOf(st.waiter.reason, natural), st.waiter.truncated), room);
    }
  }

  /** Nothing is said, and what input goes through stays as it is. */
  predicate Beside(st: Agent, next: Agent) {
    && next.observed == st.observed && next.mach == st.mach && next.inputs == st.inputs
    && next.reader == st.reader && next.input == st.input
  }

  lemma WaitingBeside(st: Agent, a: WaiterAction)
    requires a.TimesOut? || a.SeesExit? || a.Joins? || a.Expires?
    ensures Beside(st, WaiterStep(st, a))
  {
  }

  lemma DrainingBeside(st: Agent, a: WaiterAction)
    requires a.Proceeds? || a.SeesDrained? || a.GivesUp?
    ensures Beside(st, WaiterStep(st, a))
  {
  }

  lemma StoppingBeside(st: Agent, a: WaiterAction)
    requires a.Stops? || a.Forces? || a.Closes?
    ensures Beside(st, WaiterStep(st, a))
  {
  }

  lemma JudgingBeside(st: Agent, a: WaiterAction)
    requires a.ChecksFailure? || a.Decides? || a.LoadsReason? || a.LoadsFlag?
    ensures Beside(st, WaiterStep(st, a))
  {
  }

  lemma QuietBeside(st: Agent, a: WaiterAction)
    requires !a.Reports?
    ensures Beside(st, WaiterStep(st, a))
  {
    if a.Stops? || a.Forces? || a.Closes? {
      StoppingBeside(st, a);
    } else if a.ChecksFailure? || a.Decides? || a.LoadsReason? || a.LoadsFlag? {
      JudgingBeside(st, a);
    } else if a.Proceeds? || a.SeesDrained? || a.GivesUp? {
      DrainingBeside(st, a);
    } else {
      WaitingBeside(st, a);
    }
  }

  /** Only the waiter's report adds an exit. */
  lemma ActionSays(st: Agent, a: Action)
    ensures var next := Step(st, a).observed;
            || NoExit(st.observed, next)
            || (&& a.ByWaiter? && a.waiter.Reports? && st.waiter.Settled?
                && |next| == |st.observed| + 1 && next[..|st.observed|] == st.observed
                && Tells(next[|st.observed|], st.waiter.reason, a.waiter.natural, st.waiter.truncated))
  {
    match a {
      case ByWorker(s, w) => WorkerAlone(st, s, w);
      case ByReader(r) => ReaderAdds(st, r);
      case ByInput(i) => InputNoExit(st, i);
      case ByWaiter(w) =>
        if w.Reports? {
          ReportSays(st, w.natural, w.room);
        } else {
          QuietBeside(st, w);
        }
      case ByWriter =>
    }
  }

  // ---- how the waiter got where it is -----------------------------------------------------------------

  /** How the waiter comes to conclude or to report an error, to have a reason and to have the flag. */
  predicate ComesRightly(st: Agent, a: WaiterAction, next: WaiterPc) {
    && (next.Concluding? ==> a == Decides(true) && st.waiter == Judged(false) && !AnyPanicked(st))
    && (next.Reporting? ==> a.Decides? && st.waiter.Judged? && (st.waiter.late || AnyPanicked(st) || !a.statusOk))
    && (next.Reasoned? ==> a == LoadsReason && st.waiter.Concluding? && next.reason == st.termination)
    && (next.Settled? ==> a == LoadsFlag && st.waiter == Reasoned(next.reason) && next.truncated == st.truncated)
  }

  lemma LoadsCome(st: Agent, a: WaiterAction)
    requires a.Decides? || a.LoadsReason? || a.LoadsFlag?
    ensures var next := WaiterStep(st, a).waiter; next == st.waiter || ComesRightly(st, a, next)
  {
  }

  lemma ReportsCome(st: Agent, natural: ExitStatus, room: bool)
    ensures var next := WaiterReports(st, natural, room).waiter; next == st.waiter || next.Retired?
  {
  }

  lemma StopsCome(st: Agent, s: Stream, abandoned: bool)
    ensures WaiterTimesOut(st).waiter == WaiterStops(st, s).waiter == WaiterForces(st, s).waiter == st.waiter
    ensures WaiterCloses(st, abandoned).waiter == st.waiter || WaiterCloses(st, abandoned).waiter.Judging?
    ensures WaiterChecksFailure(st).waiter == st.waiter || WaiterChecksFailure(st).waiter.Judged? || WaiterChecksFailure(st).waiter.Retired?
  {
  }

  lemma EarlyCome(st: Agent, a: WaiterAction)
    requires a.SeesExit? || a.Joins? || a.Expires? || a.Proceeds? || a.SeesDrained? || a.GivesUp?
    ensures var next := WaiterStep(st, a).waiter; next == st.waiter || next.Awaiting? || next.Draining? || next.Stopping?
  {
  }

  lemma WaiterComes(st: Agent, a: WaiterAction)
    requires WaiterStep(st, a).waiter != st.waiter
    ensures ComesRightly(st, a, WaiterStep(st, a).waiter)
  {
    match a {
      case Reports(natural, room) => ReportsCome(st, natural, room);
      case TimesOut => StopsCome(st, Stdout, true);
      case Stops(s) => StopsCome(st, s, true);
      case Forces(s) => StopsCome(st, s, true);
      case Closes(abandoned) => StopsCome(st, Stdout, abandoned);
      case ChecksFailure => StopsCome(st, Stdout, true);
      case Decides(_) => LoadsCome(st, a);
      case LoadsReason => LoadsCome(st, a);
      case LoadsFlag => LoadsCome(st, a);
      case _ => EarlyCome(st, a);
    }
  }

  lemma ActionComes(st: Agent, a: Action)
    requires Step(st, a).waiter != st.waiter
    ensures a.ByWaiter?
  {
    match a {
      case ByWorker(s, w) => WorkerAlone(st, s, w);
      case ByReader(r) => ReaderAside(st, r);
      case ByInput(i) => InputAside(st, i);
      case _ =>
    }
  }

  function After(pty: bool, limit: nat, actions: seq<Action>, n: nat): Agent
    requires n <= |actions|
  {
    Run(Launch(pty, limit), actions[..n])
  }

  lemma {:induction false} RunNext(st: Agent, actions: seq<Action>, a: Action)
    ensures Run(st, actions + [a]) == Step(Run(st, actions), a)
    decreases |actions|
  {
    if actions == [] {
      assert actions + [a] == [a] && [a][1..] == [];
    } else {
      assert (actions + [a])[1..] == actions[1..] + [a];
      RunNext(Step(st, actions[0]), actions[1..], a);
    }
  }

  lemma AfterNext(pty: bool, limit: nat, actions: seq<Action>, n: nat)
    requires n < |actions|
    ensures After(pty, limit, actions, n + 1) == Step(After(pty, limit, actions, n), actions[n])
  {
    assert actions[..n + 1] == actions[..n] + [actions[n]];
    RunNext(Launch(pty, limit), actions[..n], actions[n]);
  }

  /** The action by which the waiter came to where it is. */
  lemma {:induction false} CameBy(pty: bool, limit: nat, actions: seq<Action>, m: nat) returns (n: nat)
    requires m <= |actions| && !After(pty, limit, actions, m).waiter.Polling?
    ensures n < m && actions[n].ByWaiter?
    ensures var st := After(pty, limit, actions, n);
            WaiterStep(st, actions[n].waiter).waiter == After(pty, limit, actions, m).waiter != st.waiter
    decreases m
  {
    assert actions[..0] == [];
    AfterNext(pty, limit, actions, m - 1);
    var before := After(pty, limit, actions, m - 1);
    if before.waiter == After(pty, limit, actions, m).waiter {
      n := CameBy(pty, limit, actions, m - 1);
    } else {
      ActionComes(before, actions[m - 1]);
      n := m - 1;
    }
  }

  /** The action by which a frame was accepted. */
  lemma {:induction false} SaidBy(pty: bool, limit: nat, actions: seq<Action>, m: nat, i: nat) returns (n: nat)
    requires m <= |actions| && i < |After(pty, limit, actions, m).observed|
    ensures n < m && |After(pty, limit, actions, n).observed| == i && i < |After(pty, limit, actions, n + 1).observed|
    ensures After(pty, limit, actions, n + 1).observed[i] == After(pty, limit, actions, m).observed[i]
    decreases m
  {
    assert actions[..0] == [];
    AfterNext(pty, limit, actions, m - 1);
    ActionSays(After(pty, limit, actions, m - 1), actions[m - 1]);
    if i < |After(pty, limit, actions, m - 1).observed| {
      n := SaidBy(pty, limit, actions, m - 1, i);
    } else {
      n := m - 1;
    }
  }

  /** The waiter's way to a report: it decided that all is well, then loaded the reason, then the flag. */
  lemma WayToReport(pty: bool, limit: nat, actions: seq<Action>, m: nat) returns (d: nat, r: nat, f: nat)
    requires m <= |actions| && After(pty, limit, actions, m).waiter.Settled?
    ensures d < r < f < m
    ensures var w := After(pty, limit, actions, m).waiter;
            && actions[d] == ByWaiter(Decides(true)) && After(pty, limit, actions, d).waiter == Judged(false)
            && !AnyPanicked(After(pty, limit, actions, d))
            && actions[r] == ByWaiter(LoadsReason) && After(pty, limit, actions, r).termination == w.reason
            && actions[f] == ByWaiter(LoadsFlag) && After(pty, limit, actions, f).truncated == w.truncated
  {
    f := CameBy(pty, limit, actions, m);
    WaiterComes(After(pty, limit, actions, f), actions[f].waiter);
    r := CameBy(pty, limit, actions, f);
    WaiterComes(After(pty, limit, actions, r), actions[r].waiter);
    d := CameBy(pty, limit, actions, r);
    WaiterComes(After(pty, limit, actions, d), actions[d].waiter);
  }

  /**
   Every exit the machine ever accepted is a report of the waiter, and says
   what happened: timed out, cancelled or over the output limit exactly if that
   was the reason when the waiter loaded it, and otherwise what the process
   itself ended with; and truncated exactly if the flag was up when the waiter
   loaded that.  Before, the waiter had decided that nothing was late, no worker
   had panicked and the process's status was to be had.
   */
  lemma ExitTellsWhatHappened(pty: bool, limit: nat, actions: seq<Action>, i: nat) returns (d: nat, r: nat, f: nat, n: nat)
    requires i < |Run(Launch(pty, limit), actions).observed| && Run(Launch(pty, limit), actions).observed[i].ExitedFrame?
    ensures d < r < f < n < |actions|
    ensures actions[d] == ByWaiter(Decides(true)) && After(pty, limit, actions, d).waiter == Judged(false)
    ensures !AnyPanicked(After(pty, limit, actions, d))
    ensures actions[r] == ByWaiter(LoadsReason) && actions[f] == ByWaiter(LoadsFlag)
    ensures actions[n].ByWaiter? && actions[n].waiter.Reports?
    ensures Tells(Run(Launch(pty, limit), actions).observed[i], After(pty, limit, actions, r).termination,
                  actions[n].waiter.natural, After(pty, limit, actions, f).truncated)
  {
    assert actions[..|actions|] == actions;
    n := SaidBy(pty, limit, actions, |actions|, i);
    AfterNext(pty, limit, actions, n);
    ActionSays(After(pty, limit, actions, n), actions[n]);
    d, r, f := WayToReport(pty, limit, actions, n);
  }

  // ---- when a cancel counts -----------------------------------------------------------------------------

  /** The workers have been joined or abandoned. */
  predicate Past(w: WaiterPc) {
    w.Judging? || w.Judged? || w.Reporting? || w.Concluding? || w.Reasoned? || w.Settled? || w.Retired?
  }

  predicate DoneIsPast(st: Agent) {
    st.done <==> Past(st.waiter)
  }

  lemma EarlyDone(st: Agent, a: WaiterAction)
    requires DoneIsPast(st) && (a.SeesExit? || a.Joins? || a.Expires? || a.Proceeds? || a.SeesDrained? || a.GivesUp?)
    ensures DoneIsPast(WaiterStep(st, a))
  {
  }

  lemma StopsDone(st: Agent, a: WaiterAction)
    requires DoneIsPast(st) && (a.TimesOut? || a.Stops? || a.Forces? || a.Closes?)
    ensures DoneIsPast(WaiterStep(st, a))
  {
  }

  lemma JudgesDone(st: Agent, a: WaiterAction)
    requires DoneIsPast(st) && (a.ChecksFailure? || a.Decides? || a.LoadsReason? || a.LoadsFlag?)
    ensures DoneIsPast(WaiterStep(st, a))
  {
  }

  lemma ReportsDone(st: Agent, natural: ExitStatus, room: bool)
    requires DoneIsPast(st)
    ensures DoneIsPast(WaiterReports(st, natural, room))
  {
    SendLeaves(st, ErrorFrame, room);
    if st.waiter.Settled? {
      SendLeaves(st, ExitedFrame(StatusOf(st.waiter.reason, natural), st.waiter.truncated), room);
    }
  }

  lemma ActionDone(st: Agent, a: Action)
    requires DoneIsPast(st)
    ensures DoneIsPast(Step(st, a))
  {
    match a {
      case ByWorker(s, w) => WorkerAlone(st, s, w);
      case ByReader(r) => ReaderAside(st, r);
      case ByInput(i) => InputAside(st, i);
      case ByWaiter(w) =>
        if w.Reports? {
          ReportsDone(st, w.natural, w.room);
        } else if w.TimesOut? || w.Stops? || w.Forces? || w.Closes? {
          StopsDone(st, w);
        } else if w.ChecksFailure? || w.Decides? || w.LoadsReason? || w.LoadsFlag? {
          JudgesDone(st, w);
        } else {
          EarlyDone(st, w);
        }
      case ByWriter =>
    }
  }

  lemma {:induction false} RunDone(st: Agent, actions: seq<Action>)
    requires DoneIsPast(st)
    ensures DoneIsPast(Run(st, actions))
    decreases |actions|
  {
    if actions != [] {
      ActionDone(st, actions[0]);
      RunDone(Step(st, actions[0]), actions[1..]);
    }
  }

  /**
   After every run: a reader that has left its loop sets out to cancel the
   process exactly if the waiter has not yet joined or abandoned the workers,
   and what it then does is the reason exactly if there was none before.
   */
  lemma CancelCountsExactly(pty: bool, limit: nat, actions: seq<Action>)
    ensures var st := Run(Launch(pty, limit), actions);
            && (Step(st, ByReader(Looks)).reader.Cancelling? <==> st.reader.Cancelling? || (st.reader.Left? && !Past(st.waiter)))
            && (Step(st, ByReader(CancelsProcess)).termination ==
                if st.reader.Cancelling? && st.termination.NoReason? then ByCancel else st.termination)
  {
    RunDone(Launch(pty, limit), actions);
    ReasonExactly(Run(Launch(pty, limit), actions), ByReader(CancelsProcess));
  }
}
