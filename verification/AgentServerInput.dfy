/**
 The client's input on its way through the agent's server: every piece the
 state machine accepted is confirmed, in hand or queued, in the order it came,
 over every interleaving.
 */
module AgentServerInput {
  import opened Protocol
  import opened ServerMachine
  import opened OutputFlow
  import opened AgentServer
  import opened AgentServerStreams
  import opened AgentServerRuns
  import opened AgentServerTurns
  import opened AgentServerReports

  /** Where each confirmed piece of input ends, in order. */
  function Confirmed(frames: seq<Frame>): seq<Option<U64>> {
    if frames == [] then []
    else
      var last := frames[|frames| - 1];
      Confirmed(frames[..|frames| - 1]) + (if last.InputAckFrame? then [Some(last.next)] else [])
  }

  lemma ConfirmedGrows(frames: seq<Frame>, f: Frame)
    ensures Confirmed(frames + [f]) == Confirmed(frames) + (if f.InputAckFrame? then [Some(f.next)] else [])
  {
    assert (frames + [f])[..|frames|] == frames;
  }

  function InHand(pc: InputPc): seq<Option<U64>> {
    if pc.Writing? || pc.Confirming? then [Some(pc.next)] else []
  }

  /** The part of the state that is about input; `queue` ends with what the reader is about to queue. */
  datatype Feed = Feed(confirmed: seq<Option<U64>>, open: bool, hand: seq<Option<U64>>, queue: seq<Option<U64>>, gone: bool)

  function FeedOf(st: Agent): Feed {
    Feed(Confirmed(st.observed), st.mach.Open?, InHand(st.input),
         st.inputs + (if st.reader.Queuing? then [st.reader.command] else []), st.input.Gone?)
  }

  /** Pieces and the end of input, as an action lets them in. */
  function Arrives(st: Agent, a: Action): seq<Option<U64>> {
    if !(a.ByReader? && a.reader.Receives? && st.reader.Listening?) || ReceiveStep(st.mach, st.pty, a.reader.arrival).None? then []
    else
      match a.reader.arrival
      case ArrivedInput(offset, length) => if offset + length < U64_LIMIT then [Some(offset + length)] else []
      case ArrivedClose(_) => [None]
      case _ => []
  }

  predicate Conserved(f: Feed, arrived: seq<Option<U64>>) {
    f.confirmed <= arrived && (f.open && !f.gone ==> f.confirmed + f.hand + f.queue == arrived)
  }

  /** Nothing of it moved, except that the machine may have closed or the input worker gone. */
  predicate Untroubled(f: Feed, g: Feed) {
    g.confirmed == f.confirmed && (g.open ==> f.open) && (g.open && !g.gone ==> !f.gone && g.hand == f.hand && g.queue == f.queue)
  }

  lemma OutputConfirmsNothing(before: seq<Frame>, after: seq<Frame>)
    requires AddsOutput(before, after)
    ensures Confirmed(after) == Confirmed(before)
  {
    if after != before {
      ConfirmedGrows(before, after[|before|]);
      assert after == before + [after[|before|]];
      assert Confirmed(before) + [] == Confirmed(before);
    }
  }

  lemma WorkerFeed(st: Agent, s: Stream, a: WorkerAction)
    ensures Untroubled(FeedOf(st), FeedOf(WorkerStep(st, s, a)))
  {
    WorkerAlone(st, s, a);
    OutputConfirmsNothing(st.observed, WorkerStep(st, s, a).observed);
  }

  lemma SendConfirms(st: Agent, f: Frame, room: bool)
    requires !f.InputAckFrame?
    ensures Confirmed(Send(st, f, room).observed) == Confirmed(st.observed)
  {
    SendSays(st, f, room);
    ConfirmedGrows(st.observed, f);
    assert Confirmed(st.observed) + [] == Confirmed(st.observed);
  }

  lemma ReportsFeed(st: Agent, natural: ExitStatus, room: bool)
    ensures Untroubled(FeedOf(st), FeedOf(WaiterReports(st, natural, room)))
  {
    SendConfirms(st, ErrorFrame, room);
    SendLeaves(st, ErrorFrame, room);
    SendLasts(st, ErrorFrame, room);
    if st.waiter.Settled? {
      var f := ExitedFrame(StatusOf(st.waiter.reason, natural), st.waiter.truncated);
      SendConfirms(st, f, room);
      SendLeaves(st, f, room);
      SendLasts(st, f, room);
    }
  }

  lemma WaiterFeed(st: Agent, a: WaiterAction)
    ensures Untroubled(FeedOf(st), FeedOf(WaiterStep(st, a)))
  {
    if a.Reports? {
      ReportsFeed(st, a.natural, a.room);
    } else {
      QuietBeside(st, a);
    }
  }

  // ---- the reader -------------------------------------------------------------------------------------

  /** An error closes the machine. */
  lemma ErrorFeed(st: Agent, room: bool, r: ReaderPc)
    ensures Untroubled(FeedOf(st), FeedOf(SendError(st, room).(reader := r)))
  {
    SendConfirms(st, ErrorFrame, room);
    ErrorShuts(st, room);
  }

  lemma RefusesFeed(st: Agent, room: bool)
    ensures Untroubled(FeedOf(st), FeedOf(ReaderRefuses(st, room)))
  {
    if st.reader.Refusing? {
      ErrorFeed(st, room, Left);
    }
  }

  lemma DetachesFeed(st: Agent, room: bool)
    ensures Untroubled(FeedOf(st), FeedOf(ReaderDetaches(st, room)))
  {
    if st.reader.Listening? {
      ErrorFeed(st, room, Left);
    }
  }

  lemma ControlsFeed(st: Agent, ok: bool, room: bool)
    ensures Untroubled(FeedOf(st), FeedOf(ReaderControls(st, ok, room)))
  {
    ErrorFeed(st, room, Left);
  }

  lemma QueuesFeed(st: Agent, room: bool)
    ensures Untroubled(FeedOf(st), FeedOf(ReaderQueues(st, room)))
  {
    if st.reader.Queuing? {
      if !st.input.Gone? && |st.inputs| < INPUT_QUEUE_DEPTH {
        assert st.inputs + [st.reader.command] + [] == st.inputs + [st.reader.command];
      } else {
        ErrorFeed(st, room, if SendSucceeds(st, ErrorFrame, room) then Listening else Left);
      }
    }
  }

  /** The reader goes from one thing that is not queuing to another. */
  predicate ReaderMoves(st: Agent, next: Agent) {
    && next.observed == st.observed && next.mach == st.mach && next.inputs == st.inputs && next.input == st.input
    && (next.reader == st.reader || (!next.reader.Queuing? && !st.reader.Queuing?))
  }

  lemma MovesFeed(st: Agent, next: Agent)
    requires ReaderMoves(st, next)
    ensures FeedOf(next) == FeedOf(st)
  {
  }

  lemma AcknowledgesMoves(st: Agent)
    ensures ReaderMoves(st, ReaderAcknowledges(st))
  {
  }

  lemma LeavesMoves(st: Agent)
    ensures ReaderMoves(st, ReaderLeaves(st)) && ReaderMoves(st, ReaderLooks(st)) && ReaderMoves(st, Cancels(st))
  {
  }

  /** The reader takes a piece to queue it, or nothing. */
  predicate ReaderTakes(st: Agent, next: Agent, more: seq<Option<U64>>) {
    && next.observed == st.observed && next.inputs == st.inputs && next.input == st.input
    && !st.reader.Queuing? && (next.mach.Open? ==> st.mach.Open?)
    && more == if next.reader.Queuing? then [next.reader.command] else []
  }

  lemma ReceivesTakes(st: Agent, a: Arrival)
    requires st.reader.Listening?
    ensures ReaderTakes(st, ReaderReceives(st, a), Arrives(st, ByReader(Receives(a))))
  {
  }

  lemma TakesFeed(st: Agent, next: Agent, more: seq<Option<U64>>, arrived: seq<Option<U64>>)
    requires Conserved(FeedOf(st), arrived) && ReaderTakes(st, next, more)
    ensures Conserved(FeedOf(next), arrived + more)
  {
    var f, g := FeedOf(st), FeedOf(next);
    assert g.queue == f.queue + more;
    assert f.confirmed + f.hand + (f.queue + more) == f.confirmed + f.hand + f.queue + more;
  }

  lemma ReceivesFeed(st: Agent, a: Arrival, arrived: seq<Option<U64>>)
    requires Conserved(FeedOf(st), arrived)
    ensures Conserved(FeedOf(ReaderReceives(st, a)), arrived + Arrives(st, ByReader(Receives(a))))
  {
    if st.reader.Listening? {
      ReceivesTakes(st, a);
      TakesFeed(st, ReaderReceives(st, a), Arrives(st, ByReader(Receives(a))), arrived);
    } else {
      assert arrived + [] == arrived;
    }
  }

  lemma ReaderFeed(st: Agent, a: ReaderAction, arrived: seq<Option<U64>>)
    requires Conserved(FeedOf(st), arrived)
    ensures Conserved(FeedOf(ReaderStep(st, a)), arrived + Arrives(st, ByReader(a)))
  {
    assert arrived + [] == arrived;
    match a {
      case Receives(arrival) => ReceivesFeed(st, arrival, arrived);
      case Refuses(room) => RefusesFeed(st, room);
      case Detaches(room) => DetachesFeed(st, room);
      case Controls(ok, room) => ControlsFeed(st, ok, room);
      case Queues(room) => QueuesFeed(st, room);
      case Acknowledges =>
        AcknowledgesMoves(st);
        MovesFeed(st, ReaderAcknowledges(st));
      case _ =>
        LeavesMoves(st);
        MovesFeed(st, ReaderStep(st, a));
    }
  }

  // ---- the input worker -------------------------------------------------------------------------------

  lemma FetchesFeed(st: Agent, arrived: seq<Option<U64>>)
    requires Conserved(FeedOf(st), arrived)
    ensures Conserved(FeedOf(InputFetches(st)), arrived)
  {
    if st.input.Waiting? && st.inputs != [] {
      var f, g := FeedOf(st), FeedOf(InputFetches(st));
      assert f.queue == [st.inputs[0]] + g.queue;
      assert f.confirmed + [] + ([st.inputs[0]] + g.queue) == f.confirmed + [st.inputs[0]] + g.queue;
    }
  }

  lemma WritesFeed(st: Agent, ok: bool, room: bool)
    ensures Untroubled(FeedOf(st), FeedOf(InputWrites(st, ok, room)))
  {
    if !ok {
      SendConfirms(st, ErrorFrame, room);
      ErrorShuts(st, room);
    }
  }

  /** The piece in hand is confirmed, or the worker goes. */
  predicate Hands(st: Agent, next: Agent)
    requires st.input.Confirming?
  {
    && next.inputs == st.inputs && next.reader == st.reader && (next.mach.Open? ==> st.mach.Open?)
    && (next.observed == st.observed
        || (st.mach.Open? && next.observed == st.observed + [InputAckFrame(st.input.next)]))
    && (!next.input.Gone? ==> next.input.Waiting? && next.observed != st.observed)
  }

  lemma ConfirmsHands(st: Agent, room: bool)
    requires st.input.Confirming?
    ensures Hands(st, InputConfirms(st, room))
  {
    var f := InputAckFrame(st.input.next);
    SendLeaves(st, f, room);
    SendLasts(st, f, room);
    AckSays(st, f, room);
  }

  lemma AckSays(st: Agent, f: Frame, room: bool)
    ensures var next := Send(st, f, room).observed;
            next == st.observed || (st.mach.Open? && next == st.observed + [f])
    ensures SendSucceeds(st, f, room) ==> |Send(st, f, room).observed| == |st.observed| + 1
  {
  }

  lemma HandsFeed(st: Agent, next: Agent, arrived: seq<Option<U64>>)
    requires st.input.Confirming? && Hands(st, next) && Conserved(FeedOf(st), arrived)
    ensures Conserved(FeedOf(next), arrived)
  {
    if next.observed != st.observed {
      var feed := FeedOf(st);
      ConfirmedGrows(st.observed, InputAckFrame(st.input.next));
      assert feed.hand == [Some(st.input.next)];
      assert feed.confirmed + feed.hand + [] + feed.queue == arrived;
      assert feed.confirmed + feed.hand <= arrived;
    }
  }

  lemma ConfirmsFeed(st: Agent, room: bool, arrived: seq<Option<U64>>)
    requires Conserved(FeedOf(st), arrived)
    ensures Conserved(FeedOf(InputConfirms(st, room)), arrived)
  {
    if st.input.Confirming? {
      ConfirmsHands(st, room);
      HandsFeed(st, InputConfirms(st, room), arrived);
    }
  }

  lemma InputFeed(st: Agent, a: InputAction, arrived: seq<Option<U64>>)
    requires Conserved(FeedOf(st), arrived)
    ensures Conserved(FeedOf(InputStep(st, a)), arrived)
  {
    match a {
      case Fetches => FetchesFeed(st, arrived);
      case Writes(ok, room) => WritesFeed(st, ok, room);
      case Confirms(room) => ConfirmsFeed(st, room, arrived);
      case Abandons =>
    }
  }

  // ---- every run --------------------------------------------------------------------------------------

  lemma ActionFeed(st: Agent, a: Action, arrived: seq<Option<U64>>)
    requires Conserved(FeedOf(st), arrived)
    ensures Conserved(FeedOf(Step(st, a)), arrived + Arrives(st, a))
  {
    assert arrived + [] == arrived;
    match a {
      case ByWorker(s, w) => WorkerFeed(st, s, w);
      case ByReader(r) => ReaderFeed(st, r, arrived);
      case ByInput(i) => InputFeed(st, i, arrived);
      case ByWaiter(w) => WaiterFeed(st, w);
      case ByWriter =>
    }
  }

  /** All that arrived in a run. */
  function ArrivedIn(st: Agent, actions: seq<Action>): seq<Option<U64>>
    decreases |actions|
  {
    if actions == [] then [] else Arrives(st, actions[0]) + ArrivedIn(Step(st, actions[0]), actions[1..])
  }

  lemma {:induction false} RunFeed(st: Agent, actions: seq<Action>, arrived: seq<Option<U64>>)
    requires Conserved(FeedOf(st), arrived)
    ensures Conserved(FeedOf(Run(st, actions)), arrived + ArrivedIn(st, actions))
    decreases |actions|
  {
    if actions == [] {
      assert arrived + [] == arrived;
    } else {
      var here, later := Arrives(st, actions[0]), ArrivedIn(Step(st, actions[0]), actions[1..]);
      ActionFeed(st, actions[0], arrived);
      RunFeed(Step(st, actions[0]), actions[1..], arrived + here);
      assert arrived + here + later == arrived + (here + later);
    }
  }

  lemma ActionDepth(st: Agent, a: Action)
    requires |st.inputs| <= 16
    ensures |Step(st, a).inputs| <= 16
  {
    match a {
      case ByWorker(s, w) => WorkerAlone(st, s, w);
      case ByReader(r) => ReaderDepth(st, r);
      case ByInput(i) => InputDepth(st, i);
      case ByWaiter(w) => WaiterDepth(st, w);
      case ByWriter =>
    }
  }

  lemma ReaderDepth(st: Agent, a: ReaderAction)
    requires |st.inputs| <= 16
    ensures |ReaderStep(st, a).inputs| <= 16
  {
    match a {
      case Refuses(room) => SendLeaves(st, ErrorFrame, room);
      case Queues(room) => SendLeaves(st, ErrorFrame, room);
      case Controls(_, room) => SendLeaves(st, ErrorFrame, room);
      case Detaches(room) => SendLeaves(st, ErrorFrame, room);
      case _ =>
    }
  }

  lemma InputDepth(st: Agent, a: InputAction)
    requires |st.inputs| <= 16
    ensures |InputStep(st, a).inputs| <= 16
  {
    match a {
      case Writes(_, room) => SendLeaves(st, ErrorFrame, room);
      case Confirms(room) => if st.input.Confirming? { SendLeaves(st, InputAckFrame(st.input.next), room); }
      case _ =>
    }
  }

  lemma WaiterDepth(st: Agent, a: WaiterAction)
    ensures WaiterStep(st, a).inputs == st.inputs
  {
    if a.Reports? {
      SendLeaves(st, ErrorFrame, a.room);
      if st.waiter.Settled? {
        SendLeaves(st, ExitedFrame(StatusOf(st.waiter.reason, a.natural), st.waiter.truncated), a.room);
      }
    } else {
      QuietBeside(st, a);
    }
  }

  lemma {:induction false} RunDepth(st: Agent, actions: seq<Action>)
    requires |st.inputs| <= 16
    ensures |Run(st, actions).inputs| <= 16
    decreases |actions|
  {
    if actions != [] {
      ActionDepth(st, actions[0]);
      RunDepth(Step(st, actions[0]), actions[1..]);
    }
  }

  /**
   Whatever the interleaving: what was confirmed is the beginning of what was
   accepted, piece by piece and in order; while the machine is open and the
   input worker there, all the rest is in the worker's hand, in the queue, or
   about to be queued; and the queue never holds more than sixteen.
   */
  lemma InputIsConserved(pty: bool, limit: nat, actions: seq<Action>)
    ensures var st := Run(Launch(pty, limit), actions);
            var arrived := ArrivedIn(Launch(pty, limit), actions);
            && Confirmed(st.observed) <= arrived
            && (st.mach.Open? && !st.input.Gone? ==>
                  Confirmed(st.observed) + InHand(st.input) + FeedOf(st).queue == arrived)
            && |st.inputs| <= 16
  {
    var st := Launch(pty, limit);
    assert FeedOf(st).queue == [];
    RunFeed(st, actions, []);
    assert [] + ArrivedIn(st, actions) == ArrivedIn(st, actions);
    RunDepth(st, actions);
  }

  // ---- what was confirmed was written -------------------------------------------------------------------

  /** The piece an action writes to the process. */
  function WrittenBy(st: Agent, a: Action): seq<Option<U64>> {
    if a.ByInput? && a.input.Writes? && a.input.ok && st.input.Writing? then [Some(st.input.next)] else []
  }

  /** All that a run wrote. */
  function WrittenIn(st: Agent, actions: seq<Action>): seq<Option<U64>>
    decreases |actions|
  {
    if actions == [] then [] else WrittenBy(st, actions[0]) + WrittenIn(Step(st, actions[0]), actions[1..])
  }

  /** Confirmed first, and while the machine is open only the piece about to be confirmed is behind. */
  predicate Keeping(f: Feed, confirming: bool, written: seq<Option<U64>>) {
    f.confirmed <= written && (f.open && !f.gone ==> written == f.confirmed + if confirming then f.hand else [])
  }

  predicate KeepsUp(st: Agent, written: seq<Option<U64>>) {
    Keeping(FeedOf(st), st.input.Confirming?, written)
  }

  lemma UntroubledKeepsUp(st: Agent, next: Agent, written: seq<Option<U64>>)
    requires KeepsUp(st, written) && Untroubled(FeedOf(st), FeedOf(next)) && next.input == st.input
    ensures KeepsUp(next, written)
  {
  }

  lemma ReaderKeepsInput(st: Agent, a: ReaderAction)
    ensures ReaderStep(st, a).input == st.input && (ReaderStep(st, a).mach.Open? ==> st.mach.Open?)
  {
    match a {
      case Refuses(room) => RefusesKeepsInput(st, room);
      case Queues(room) => QueuesKeepsInput(st, room);
      case Controls(ok, room) => ControlsKeepsInput(st, ok, room);
      case Detaches(room) => RefusesKeepsInput(st, room);
      case _ => PlainKeepsInput(st, a);
    }
  }

  lemma ErrorKeepsInput(st: Agent, room: bool)
    ensures SendError(st, room).input == st.input && SendError(st, room).mach.Shut?
  {
  }

  lemma RefusesKeepsInput(st: Agent, room: bool)
    ensures ReaderRefuses(st, room).input == st.input && (ReaderRefuses(st, room).mach.Open? ==> st.mach.Open?)
    ensures ReaderDetaches(st, room).input == st.input && (ReaderDetaches(st, room).mach.Open? ==> st.mach.Open?)
  {
    ErrorKeepsInput(st, room);
  }

  lemma QueuesKeepsInput(st: Agent, room: bool)
    ensures ReaderQueues(st, room).input == st.input && (ReaderQueues(st, room).mach.Open? ==> st.mach.Open?)
  {
    ErrorKeepsInput(st, room);
  }

  lemma ControlsKeepsInput(st: Agent, ok: bool, room: bool)
    ensures ReaderControls(st, ok, room).input == st.input && (ReaderControls(st, ok, room).mach.Open? ==> st.mach.Open?)
  {
    ErrorKeepsInput(st, room);
  }

  lemma PlainKeepsInput(st: Agent, a: ReaderAction)
    requires a.Receives? || a.Acknowledges? || a.Leaves? || a.Looks? || a.CancelsProcess?
    ensures ReaderStep(st, a).input == st.input && (ReaderStep(st, a).mach.Open? ==> st.mach.Open?)
  {
  }

  lemma ReaderKeepsUp(st: Agent, a: ReaderAction, written: seq<Option<U64>>)
    requires KeepsUp(st, written)
    ensures KeepsUp(ReaderStep(st, a), written)
  {
    ReaderKeepsInput(st, a);
    ReaderAdds(st, a);
    OutputConfirmsNothing(st.observed, ReaderStep(st, a).observed);
  }

  lemma WaiterKeepsUp(st: Agent, a: WaiterAction, written: seq<Option<U64>>)
    requires KeepsUp(st, written)
    ensures KeepsUp(WaiterStep(st, a), written)
  {
    WaiterFeed(st, a);
    WaiterKeepsInput(st, a);
    UntroubledKeepsUp(st, WaiterStep(st, a), written);
  }

  lemma WaiterKeepsInput(st: Agent, a: WaiterAction)
    ensures WaiterStep(st, a).input == st.input
  {
    if a.Reports? {
      SendLeaves(st, ErrorFrame, a.room);
      if st.waiter.Settled? {
        SendLeaves(st, ExitedFrame(StatusOf(st.waiter.reason, a.natural), st.waiter.truncated), a.room);
      }
    } else {
      QuietBeside(st, a);
    }
  }

  lemma WritesKeepUp(st: Agent, ok: bool, room: bool, written: seq<Option<U64>>)
    requires KeepsUp(st, written)
    ensures KeepsUp(InputWrites(st, ok, room), written + WrittenBy(st, ByInput(Writes(ok, room))))
  {
    assert written + [] == written;
    if ok {
      assert FeedOf(st).confirmed + [] == FeedOf(st).confirmed;
    } else {
      SendConfirms(st, ErrorFrame, room);
      ErrorShuts(st, room);
    }
  }

  lemma HandsKeepsUp(st: Agent, next: Agent, written: seq<Option<U64>>)
    requires st.input.Confirming? && Hands(st, next) && KeepsUp(st, written)
    ensures KeepsUp(next, written)
  {
    if next.observed != st.observed {
      var feed := FeedOf(st);
      ConfirmedGrows(st.observed, InputAckFrame(st.input.next));
      assert feed.hand == [Some(st.input.next)] && written == feed.confirmed + feed.hand;
      assert written + [] == written;
    }
  }

  lemma InputKeepsUp(st: Agent, a: InputAction, written: seq<Option<U64>>)
    requires KeepsUp(st, written)
    ensures KeepsUp(InputStep(st, a), written + WrittenBy(st, ByInput(a)))
  {
    assert written + [] == written;
    match a {
      case Fetches => FetchesKeepUp(st, written);
      case Writes(ok, room) => WritesKeepUp(st, ok, room, written);
      case Confirms(room) =>
        if st.input.Confirming? {
          ConfirmsHands(st, room);
          HandsKeepsUp(st, InputConfirms(st, room), written);
        }
      case Abandons =>
    }
  }

  lemma FetchesKeepUp(st: Agent, written: seq<Option<U64>>)
    requires KeepsUp(st, written)
    ensures KeepsUp(InputFetches(st), written)
  {
  }

  lemma ActionKeepsUp(st: Agent, a: Action, written: seq<Option<U64>>)
    requires KeepsUp(st, written)
    ensures KeepsUp(Step(st, a), written + WrittenBy(st, a))
  {
    assert written + [] == written;
    match a {
      case ByWorker(s, w) =>
        WorkerFeed(st, s, w);
        WorkerAlone(st, s, w);
        UntroubledKeepsUp(st, WorkerStep(st, s, w), written);
      case ByReader(r) => ReaderKeepsUp(st, r, written);
      case ByInput(i) => InputKeepsUp(st, i, written);
      case ByWaiter(w) => WaiterKeepsUp(st, w, written);
      case ByWriter =>
    }
  }

  lemma {:induction false} RunKeepsUp(st: Agent, actions: seq<Action>, written: seq<Option<U64>>)
    requires KeepsUp(st, written)
    ensures KeepsUp(Run(st, actions), written + WrittenIn(st, actions))
    decreases |actions|
  {
    if actions == [] {
      assert written + [] == written;
    } else {
      var here, later := WrittenBy(st, actions[0]), WrittenIn(Step(st, actions[0]), actions[1..]);
      assert written + here + later == written + WrittenIn(st, actions);
      ActionKeepsUp(st, actions[0], written);
      RunKeepsUp(Step(st, actions[0]), actions[1..], written + here);
    }
  }

  /** Whatever the interleaving: no piece is confirmed that was not written before, in the same order. */
  lemma ConfirmedWasWritten(pty: bool, limit: nat, actions: seq<Action>)
    ensures Confirmed(Run(Launch(pty, limit), actions).observed) <= WrittenIn(Launch(pty, limit), actions)
  {
    var st := Launch(pty, limit);
    RunKeepsUp(st, actions, []);
    assert [] + WrittenIn(st, actions) == WrittenIn(st, actions);
  }
}
