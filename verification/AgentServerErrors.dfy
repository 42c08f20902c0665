/**
 When the agent's server ends the conversation with an error: exactly if one of
 the things below happens while its machine is open, over every interleaving.
 */
module AgentServerErrors {
  import opened Protocol
  import opened ServerMachine
  import opened OutputFlow
  import opened AgentServer
  import opened AgentServerStreams
  import opened AgentServerRuns
  import opened AgentServerTurns
  import opened AgentServerReports
  import opened AgentServerInput

  /** A worker cannot read, or has no offset left to send at. */
  predicate WorkerErrs(st: Agent, s: Stream, a: WorkerAction) {
    (a.ReadFails? && PcOf(st, s).Reading?) || (a.Reserves? && NoOffset(Get(st.flows, s), PcOf(st, s)))
  }

  predicate NoOffset(f: Flow, pc: WorkerPc) {
    pc.Sending? && pc.sent < pc.keep && RunsOut(ReserveOutcome(f, pc.keep - pc.sent))
  }

  predicate RunsOut(g: Grant) {
    g.Overflow? || g.NoBytes?
  }

  /** A message was refused, the input queue is full or closed, a resize or signal failed, or the client wants to detach. */
  predicate ReaderErrs(st: Agent, a: ReaderAction) {
    || (a.Refuses? && st.reader.Refusing?)
    || (a.Queues? && st.reader.Queuing? && (st.input.Gone? || |st.inputs| >= 16))
    || (a.Controls? && !a.ok && st.reader.Controlling?)
    || (a.Detaches? && st.reader.Listening?)
  }

  /** Something goes wrong that the client is to hear of. */
  predicate Errs(st: Agent, a: Action) {
    match a
    case ByWorker(s, w) => WorkerErrs(st, s, w)
    case ByReader(r) => ReaderErrs(st, r)
    case ByInput(i) => i.Writes? && !i.ok && (st.input.Writing? || st.input.Waiting?)
    case ByWaiter(w) => w.Reports? && st.waiter.Reporting?
    case ByWriter => false
  }

  /** An error and nothing else is added, or at most one frame that is none. */
  predicate Adds(before: seq<Frame>, after: seq<Frame>, error: bool) {
    if error then after == before + [ErrorFrame]
    else after == before || (|after| == |before| + 1 && after[..|before|] == before && !after[|before|].ErrorFrame?)
  }

  lemma ErrorSent(st: Agent, room: bool)
    ensures SendError(st, room).observed == if st.mach.Open? then st.observed + [ErrorFrame] else st.observed
  {
  }

  lemma OtherSent(st: Agent, f: Frame, room: bool)
    requires !f.ErrorFrame?
    ensures Adds(st.observed, Send(st, f, room).observed, false)
  {
    SendSays(st, f, room);
  }

  // ---- the workers ------------------------------------------------------------------------------------

  lemma ReadFailsErrs(st: Agent, s: Stream, room: bool)
    ensures Adds(st.observed, WorkerReadFails(st, s, room).observed, st.mach.Open? && PcOf(st, s).Reading?)
  {
    ErrorSent(st, room);
  }

  lemma HearsErrs(st: Agent, s: Stream, g: Grant, room: bool)
    requires PcOf(st, s).Sending? && (g.Granted? ==> Get(st.flows, s).sent + g.length < U64_LIMIT)
    ensures Adds(st.observed, WorkerHears(st, s, g, room).observed, st.mach.Open? && RunsOut(g))
  {
    if RunsOut(g) {
      ErrorSent(st, room);
      assert WorkerHears(st, s, g, room).observed == SendError(st, room).observed;
    } else {
      assert WorkerHears(st, s, g, room).observed == st.observed;
    }
  }

  lemma ReservesErrs(st: Agent, s: Stream, room: bool)
    ensures Adds(st.observed, WorkerReserves(st, s, room).observed, st.mach.Open? && NoOffset(Get(st.flows, s), PcOf(st, s)))
  {
    var pc := PcOf(st, s);
    if pc.Sending? && pc.sent < pc.keep {
      var g := ReserveOutcome(Get(st.flows, s), pc.keep - pc.sent);
      HearsErrs(st, s, g, room);
      assert WorkerReserves(st, s, room) == WorkerHears(st, s, g, room);
    } else {
      RestsErrs(st, s, room);
    }
  }

  lemma RestsErrs(st: Agent, s: Stream, room: bool)
    requires !(PcOf(st, s).Sending? && PcOf(st, s).sent < PcOf(st, s).keep)
    ensures WorkerReserves(st, s, room).observed == st.observed
  {
  }

  lemma SendsErrs(st: Agent, s: Stream, room: bool)
    ensures Adds(st.observed, WorkerSends(st, s, room).observed, false)
  {
    var pc := PcOf(st, s);
    if pc.Publishing? && pc.sent + pc.length <= |pc.chunk| {
      OtherSent(st, PublishedFrame(s, pc), room);
    }
  }

  lemma ReadingQuiet(st: Agent, s: Stream, a: WorkerAction)
    requires a.Starts? || a.Reads? || a.Ends?
    ensures WorkerStep(st, s, a).observed == st.observed
  {
  }

  lemma EndingQuiet(st: Agent, s: Stream, a: WorkerAction)
    requires a.Takes? || a.Quits? || a.Panics?
    ensures WorkerStep(st, s, a).observed == st.observed
  {
  }

  lemma ClaimsQuiet(st: Agent, s: Stream, spurious: bool)
    ensures WorkerClaims(st, s, spurious).observed == st.observed
  {
    var w := Get(st.workers, s);
    if w.pc.Claiming? && st.limit.Some? {
      if spurious || w.pc.seen != st.total {
        assert WorkerClaims(st, s, spurious) == PutWorker(st, s, w.(pc := Claiming(w.pc.chunk, st.total)));
      } else {
        var keep := Allowance(st.limit.value, st.total, |w.pc.chunk|);
        assert WorkerClaims(st, s, spurious) == PutWorker(st, s, ClaimedWorker(w, keep)).(total := st.total + keep);
      }
    } else {
      assert WorkerClaims(st, s, spurious) == st;
    }
  }

  lemma FlagsQuiet(st: Agent, s: Stream)
    ensures WorkerFlags(st, s).observed == st.observed && WorkerMarks(st, s).observed == st.observed
  {
  }

  lemma WorkerErrsExactly(st: Agent, s: Stream, a: WorkerAction)
    ensures Adds(st.observed, WorkerStep(st, s, a).observed, st.mach.Open? && WorkerErrs(st, s, a))
  {
    match a {
      case ReadFails(room) => ReadFailsErrs(st, s, room);
      case Reserves(room) => ReservesErrs(st, s, room);
      case Sends(room) => SendsErrs(st, s, room);
      case Claims(spurious) => ClaimsQuiet(st, s, spurious);
      case Flags => FlagsQuiet(st, s);
      case Marks => FlagsQuiet(st, s);
      case Takes => EndingQuiet(st, s, a);
      case Quits => EndingQuiet(st, s, a);
      case Panics => EndingQuiet(st, s, a);
      case _ => ReadingQuiet(st, s, a);
    }
  }

  // ---- the reader, the input worker, the waiter -------------------------------------------------------

  lemma RefusesErrs(st: Agent, room: bool)
    ensures Adds(st.observed, ReaderRefuses(st, room).observed, st.mach.Open? && st.reader.Refusing?)
    ensures Adds(st.observed, ReaderDetaches(st, room).observed, st.mach.Open? && st.reader.Listening?)
  {
    ErrorSent(st, room);
  }

  lemma QueuesErrs(st: Agent, room: bool)
    ensures Adds(st.observed, ReaderQueues(st, room).observed, st.mach.Open? && ReaderErrs(st, Queues(room)))
  {
    ErrorSent(st, room);
  }

  lemma ControlsErrs(st: Agent, ok: bool, room: bool)
    ensures Adds(st.observed, ReaderControls(st, ok, room).observed, st.mach.Open? && !ok && st.reader.Controlling?)
  {
    ErrorSent(st, room);
  }

  lemma ListensQuiet(st: Agent, a: ReaderAction)
    requires a.Receives? || a.Acknowledges? || a.Leaves? || a.Looks? || a.CancelsProcess?
    ensures ReaderStep(st, a).observed == st.observed
  {
  }

  lemma ReaderErrsExactly(st: Agent, a: ReaderAction)
    ensures Adds(st.observed, ReaderStep(st, a).observed, st.mach.Open? && ReaderErrs(st, a))
  {
    match a {
      case Refuses(room) => RefusesErrs(st, room);
      case Detaches(room) => RefusesErrs(st, room);
      case Queues(room) => QueuesErrs(st, room);
      case Controls(ok, room) => ControlsErrs(st, ok, room);
      case _ => ListensQuiet(st, a);
    }
  }

  lemma WritesErrs(st: Agent, ok: bool, room: bool)
    ensures Adds(st.observed, InputWrites(st, ok, room).observed, st.mach.Open? && !ok && (st.input.Writing? || st.input.Waiting?))
  {
    ErrorSent(st, room);
  }

  lemma ConfirmsErrs(st: Agent, room: bool)
    ensures Adds(st.observed, InputConfirms(st, room).observed, false)
  {
    if st.input.Confirming? {
      OtherSent(st, InputAckFrame(st.input.next), room);
    }
  }

  lemma ReportsErrs(st: Agent, natural: ExitStatus, room: bool)
    ensures Adds(st.observed, WaiterReports(st, natural, room).observed, st.mach.Open? && st.waiter.Reporting?)
  {
    if st.waiter.Reporting? {
      ErrorSent(st, room);
    } else if st.waiter.Settled? {
      OtherSent(st, ExitedFrame(StatusOf(st.waiter.reason, natural), st.waiter.truncated), room);
    }
  }

  /** An action adds an error exactly if one of these things happens and the machine is open. */
  lemma ErrsExactly(st: Agent, a: Action)
    ensures Adds(st.observed, Step(st, a).observed, st.mach.Open? && Errs(st, a))
  {
    match a {
      case ByWorker(s, w) => WorkerErrsExactly(st, s, w);
      case ByReader(r) => ReaderErrsExactly(st, r);
      case ByInput(i) =>
        match i {
          case Writes(ok, room) => WritesErrs(st, ok, room);
          case Confirms(room) => ConfirmsErrs(st, room);
          case _ =>
        }
      case ByWaiter(w) =>
        if w.Reports? {
          ReportsErrs(st, w.natural, w.room);
        } else {
          QuietBeside(st, w);
        }
      case ByWriter =>
    }
  }

  /** The machine is open and the next action errs. */
  predicate ErrsAt(pty: bool, limit: nat, actions: seq<Action>, n: int) {
    0 <= n < |actions| && After(pty, limit, actions, n).mach.Open? && Errs(After(pty, limit, actions, n), actions[n])
  }

  lemma ErrorIn(before: seq<Frame>, after: seq<Frame>, error: bool)
    requires Adds(before, after, error)
    ensures ErrorFrame in after <==> ErrorFrame in before || error
  {
    if error {
      assert after[|before|] == ErrorFrame;
    } else if after != before {
      assert after == before + [after[|before|]];
    }
  }

  lemma ErrorNext(pty: bool, limit: nat, actions: seq<Action>, m: nat)
    requires m < |actions|
    ensures ErrorFrame in After(pty, limit, actions, m + 1).observed <==>
              ErrorFrame in After(pty, limit, actions, m).observed || ErrsAt(pty, limit, actions, m)
  {
    var st := After(pty, limit, actions, m);
    AfterNext(pty, limit, actions, m);
    ErrsExactly(st, actions[m]);
    ErrorIn(st.observed, Step(st, actions[m]).observed, st.mach.Open? && Errs(st, actions[m]));
  }

  lemma {:induction false} ErrorsUpTo(pty: bool, limit: nat, actions: seq<Action>, m: nat)
    requires m <= |actions|
    ensures ErrorFrame in After(pty, limit, actions, m).observed <==> exists n :: 0 <= n < m && ErrsAt(pty, limit, actions, n)
    decreases m
  {
    if m == 0 {
      assert actions[..0] == [];
    } else {
      ErrorsUpTo(pty, limit, actions, m - 1);
      ErrorNext(pty, limit, actions, m - 1);
    }
  }

  /** Over every run: an error was sent exactly if something erred while the machine was open. */
  lemma ErrorsAreToldExactly(pty: bool, limit: nat, actions: seq<Action>)
    ensures ErrorFrame in Run(Launch(pty, limit), actions).observed <==> exists n :: ErrsAt(pty, limit, actions, n)
  {
    assert actions[..|actions|] == actions;
    ErrorsUpTo(pty, limit, actions, |actions|);
  }
}
