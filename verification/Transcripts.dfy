/**
 The rules of the protocol said of transcripts instead of phases: who may say
 what next is a matter of what has been said so far.  The state machine, which
 remembers only its phase, permits exactly that.
 */
module Transcripts {
  import opened Protocol
  import opened Channels

  predicate Terminal(m: Message) {
    m.Error? || m.Exited? || m.Detached? || m.WatchStopped?
  }

  predicate Over(trace: seq<Message>) {
    trace != [] && Terminal(trace[|trace| - 1])
  }

  ghost predicate InputEnded(trace: seq<Message>) {
    exists i :: 0 <= i < |trace| && trace[i].CloseInput?
  }

  ghost predicate Leaving(trace: seq<Message>) {
    exists i :: 0 <= i < |trace| && (trace[i].Detach? || trace[i].WatchStop?)
  }

  predicate HelloFits(cfg: Config, m: Message)
    requires m.ClientHello? || m.ServerHello?
  {
    m.packageVersion == cfg.packageVersion && m.protocolVersion == 8 && m.capability in cfg.supported
  }

  /** A request that the negotiated capability allows. */
  predicate Requests(capability: Capability, m: Message) {
    match m
    case StartProcess(_, spec) =>
      || (capability.ProcessPipeV1? && spec.terminalSize.None? && spec.persistence.Attached?)
      || (capability.ProcessPtyV1? && spec.terminalSize.Some? && spec.maxOutputBytes.None?)
    case AttachPty(_, _, _) => capability.ProcessPtyV1?
    case WatchStart(_, _) => capability.WorkspaceWatchV1?
    case _ => false
  }

  /** A reply that fits its request: same number, same session, no earlier than asked for. */
  predicate Replies(request: Message, m: Message) {
    match (request, m)
    case (StartProcess(rid, spec), ProcessStarted(id, _, session, offset)) =>
      id == rid && offset == 0 && (session.Some? <==> spec.persistence.Detachable?)
    case (AttachPty(rid, credentials, from), PtyAttached(id, _, session, offset)) =>
      id == rid && session == credentials.sessionId && (from.Some? ==> from.value <= offset)
    case (WatchStart(rid, from), WatchStarted(id, _, next)) =>
      id == rid && (from.Some? ==> from.value <= next)
    case _ => false
  }

  /** The session a terminal can be left to, if any. */
  function SessionOf(reply: Message): Option<seq<Byte>> {
    match reply
    case ProcessStarted(_, _, Some(credentials), _) => Some(credentials.sessionId)
    case PtyAttached(_, _, session, _) => Some(session)
    case _ => None
  }

  predicate Live(capability: Capability, s: Stream) {
    capability.ProcessPtyV1? <==> s.Pty?
  }

  /** The next offset or sequence number of a channel that has no unannounced loss. */
  ghost predicate Continues(trace: seq<Message>, ch: Channel, offset: nat) {
    var sum := Summarize(trace, ch);
    !LossPending(sum) && offset == Reach(sum)
  }

  ghost predicate Announces(trace: seq<Message>, ch: Channel, lo: nat, hi: nat) {
    var sum := Summarize(trace, ch);
    LossPending(sum) && (lo, hi) == (sum.asked.value, sum.opening)
  }

  ghost predicate MayAck(trace: seq<Message>, ch: Channel, n: nat) {
    var sum := Summarize(trace, ch);
    !LossPending(sum) && sum.acked <= n <= Reach(sum)
  }

  /** What may be said about a process, once it runs. */
  ghost predicate ProcessTalk(trace: seq<Message>, m: Message)
    requires |trace| >= 4 && (trace[0].ClientHello? && (trace[3].ProcessStarted? || trace[3].PtyAttached?))
  {
    var capability, id := trace[0].capability, trace[3].processId;
    match m
    case Input(pid, offset, data) =>
      pid == id && !Leaving(trace) && !InputEnded(trace) && Continues(trace, InputChannel, offset) && offset + |data| < U64_LIMIT
    case CloseInput(pid, next) =>
      pid == id && !Leaving(trace) && !InputEnded(trace) && Continues(trace, InputChannel, next)
    case Resize(pid, _) => pid == id && !Leaving(trace) && capability.ProcessPtyV1?
    case Signal(pid, _) => pid == id && !Leaving(trace)
    case Detach(pid) => pid == id && !Leaving(trace) && SessionOf(trace[3]).Some?
    case OutputAck(pid, s, n) => pid == id && Live(capability, s) && MayAck(trace, OutputChannel(s), n)
    case InputAck(pid, n) => pid == id && MayAck(trace, InputChannel, n)
    case Output(pid, s, offset, data) =>
      pid == id && Live(capability, s) && Continues(trace, OutputChannel(s), offset) && offset + |data| < U64_LIMIT
    case OutputGap(pid, lo, hi, _) => pid == id && Announces(trace, OutputChannel(Pty), lo, hi)
    case Exited(pid, _, _) => pid == id
    case Detached(pid, session) => pid == id && Leaving(trace) && SessionOf(trace[3]) == Some(session)
    case _ => false
  }

  /** What may be said about a watch, once it runs. */
  ghost predicate WatchTalk(trace: seq<Message>, m: Message)
    requires |trace| >= 4 && trace[3].WatchStarted?
  {
    var id, sum := trace[3].watchId, Summarize(trace, WatchChannel);
    match m
    case WatchEvents(wid, first, events) =>
      wid == id && Continues(trace, WatchChannel, first) && first + |events| < U64_LIMIT
    case WatchOverflow(wid, lo, hi) =>
      wid == id && (Announces(trace, WatchChannel, lo, hi) || Continues(trace, WatchChannel, lo))
    case WatchAck(wid, n) =>
      wid == id && (MayAck(trace, WatchChannel, n) || (LossPending(sum) && n == sum.opening))
    case WatchStop(wid) => wid == id && !Leaving(trace)
    case WatchStopped(wid) => wid == id && Leaving(trace)
    case _ => false
  }

  /** Whether a valid message may follow a transcript. */
  ghost predicate Permitted(cfg: Config, trace: seq<Message>, m: Message) {
    if Over(trace) then false
    else if m.Error? then true
    else if |trace| == 0 then m.ClientHello? && HelloFits(cfg, m)
    else if !trace[0].ClientHello? then false
    else if |trace| == 1 then m.ServerHello? && HelloFits(cfg, m) && m.capability == trace[0].capability
    else if |trace| == 2 then Requests(trace[0].capability, m)
    else if |trace| == 3 then Replies(trace[2], m)
    else if trace[3].ProcessStarted? || trace[3].PtyAttached? then ProcessTalk(trace, m)
    else trace[3].WatchStarted? && WatchTalk(trace, m)
  }

  // ---- what a phase remembers ---------------------------------------------------------------------

  ghost predicate RemembersProcess(trace: seq<Message>, p: Process) {
    && |trace| >= 4 && trace[0].ClientHello? && (trace[3].ProcessStarted? || trace[3].PtyAttached?)
    && p.processId == trace[3].processId
    && p.pty == trace[0].capability.ProcessPtyV1?
    && p.sessionId == SessionOf(trace[3])
    && (p.inputClosed <==> InputEnded(trace))
    && (p.sessionId.Some? ==> p.pty)
  }

  ghost predicate RemembersWatch(trace: seq<Message>, w: Watch) {
    |trace| >= 4 && trace[0].ClientHello? && trace[3].WatchStarted? && w.watchId == trace[3].watchId
  }

  /** A transcript still at its opening, under a capability. */
  ghost predicate Opens(trace: seq<Message>, n: nat, c: Capability) {
    |trace| == n && (n > 0 ==> trace[0].ClientHello? && trace[0].capability == c) && !InputEnded(trace) && !Leaving(trace)
  }

  /** The phase is what the transcript has led to. */
  ghost predicate Remembers(trace: seq<Message>, phase: Phase) {
    && (phase.Closed? <==> Over(trace))
    && match phase
       case Closed => true
       case AwaitClientHello => trace == []
       case AwaitServerHello(c) => Opens(trace, 1, c)
       case Ready(c) => Opens(trace, 2, c)
       case AwaitProcessStarted(c, rid, persistence) =>
         && Opens(trace, 3, c) && Requests(c, trace[2])
         && trace[2].StartProcess? && trace[2].requestId == rid && trace[2].spec.persistence == persistence
       case AwaitPtyAttached(rid, session, from) =>
         && Opens(trace, 3, ProcessPtyV1) && trace[2].AttachPty?
         && trace[2].requestId == rid && trace[2].credentials.sessionId == session && trace[2].replayFrom == from
       case AwaitWatchStarted(rid, from) => Opens(trace, 3, WorkspaceWatchV1) && trace[2] == WatchStart(rid, from)
       case Running(p) => RemembersProcess(trace, p) && !Leaving(trace)
       case AwaitDetached(p) => RemembersProcess(trace, p) && Leaving(trace)
       case Watching(w) => RemembersWatch(trace, w) && !Leaving(trace)
       case AwaitWatchStopped(w) => RemembersWatch(trace, w) && Leaving(trace)
  }

  lemma Grows(trace: seq<Message>, m: Message)
    ensures InputEnded(trace + [m]) <==> InputEnded(trace) || m.CloseInput?
    ensures Leaving(trace + [m]) <==> Leaving(trace) || m.Detach? || m.WatchStop?
    ensures Over(trace + [m]) <==> Terminal(m)
  {
    var more := trace + [m];
    assert more[|trace|] == m && forall i :: 0 <= i < |trace| ==> more[i] == trace[i];
    if InputEnded(trace) {
      var i :| 0 <= i < |trace| && trace[i].CloseInput?;
      assert more[i].CloseInput?;
    }
    if Leaving(trace) {
      var i :| 0 <= i < |trace| && (trace[i].Detach? || trace[i].WatchStop?);
      assert more[i].Detach? || more[i].WatchStop?;
    }
  }

  lemma RemembersOpening(cfg: Config, trace: seq<Message>, phase: Phase, m: Message)
    requires Remembers(trace, phase) && Apply(cfg, phase, m).Ok?
    requires !(phase.Running? || phase.AwaitDetached? || phase.Watching? || phase.AwaitWatchStopped?)
    ensures Remembers(trace + [m], Apply(cfg, phase, m).value)
  {
    Grows(trace, m);
    var more := trace + [m];
    assert more[|trace|] == m && forall i :: 0 <= i < |trace| ==> more[i] == trace[i];
  }

  lemma RemembersRunning(cfg: Config, trace: seq<Message>, phase: Phase, m: Message)
    requires Remembers(trace, phase) && Apply(cfg, phase, m).Ok?
    requires phase.Running? || phase.AwaitDetached? || phase.Watching? || phase.AwaitWatchStopped?
    ensures Remembers(trace + [m], Apply(cfg, phase, m).value)
  {
    Grows(trace, m);
    var more := trace + [m];
    assert more[0] == trace[0] && more[3] == trace[3];
  }

  lemma {:induction false} AcceptedRunRemembers(cfg: Config, trace: seq<Message>)
    requires Accepted(cfg, trace)
    ensures Remembers(trace, Final(cfg, trace))
    decreases |trace|
  {
    if trace != [] {
      var before, m := trace[..|trace| - 1], trace[|trace| - 1];
      AcceptedPrefix(cfg, trace);
      AcceptedRunRemembers(cfg, before);
      assert before + [m] == trace;
      var phase := Final(cfg, before);
      if phase.Running? || phase.AwaitDetached? || phase.Watching? || phase.AwaitWatchStopped? {
        RemembersRunning(cfg, before, phase, m);
      } else {
        RemembersOpening(cfg, before, phase, m);
      }
    }
  }

  // ---- permitted and accepted are one -----------------------------------------------------------

  lemma PermittedOpening(cfg: Config, trace: seq<Message>, phase: Phase, m: Message)
    requires Remembers(trace, phase)
    requires !(phase.Running? || phase.AwaitDetached? || phase.Watching? || phase.AwaitWatchStopped?)
    ensures Apply(cfg, phase, m).Ok? <==> Permitted(cfg, trace, m)
  {
    if phase.AwaitProcessStarted? || phase.AwaitPtyAttached? || phase.AwaitWatchStarted? {
      PermittedReply(cfg, trace, phase, m);
    }
  }

  lemma PermittedReply(cfg: Config, trace: seq<Message>, phase: Phase, m: Message)
    requires Remembers(trace, phase)
    requires phase.AwaitProcessStarted? || phase.AwaitPtyAttached? || phase.AwaitWatchStarted?
    ensures Apply(cfg, phase, m).Ok? <==> Permitted(cfg, trace, m)
  {
  }

  /** The counters of a process and the transcript say the same. */
  ghost predicate Counts(trace: seq<Message>, p: Process) {
    && ProcessFits(p)
    && (forall ch :: InStep(Summarize(trace, ch), ProcessCursor(p, ch), None))
  }

  lemma PermittedToClient(trace: seq<Message>, p: Process, m: Message)
    requires RemembersProcess(trace, p) && Counts(trace, p) && Sender(m) == Client
    ensures RunningClient(p, m).Ok? && (Leaving(trace) ==> m.OutputAck?) <==> ProcessTalk(trace, m)
  {
    assert InStep(Summarize(trace, InputChannel), ProcessCursor(p, InputChannel), None);
    if m.OutputAck? {
      var ch := OutputChannel(m.stream);
      assert InStep(Summarize(trace, ch), ProcessCursor(p, ch), None);
    }
  }

  lemma PermittedToServer(trace: seq<Message>, p: Process, m: Message)
    requires RemembersProcess(trace, p) && Counts(trace, p) && Sender(m) == Server && !m.Detached?
    ensures RunningServer(p, m).Ok? <==> ProcessTalk(trace, m)
  {
    assert InStep(Summarize(trace, InputChannel), ProcessCursor(p, InputChannel), None);
    assert InStep(Summarize(trace, OutputChannel(Pty)), ProcessCursor(p, OutputChannel(Pty)), None);
    if m.Output? {
      var ch := OutputChannel(m.stream);
      assert InStep(Summarize(trace, ch), ProcessCursor(p, ch), None);
    }
  }

  lemma PermittedProcess(cfg: Config, trace: seq<Message>, phase: Phase, m: Message)
    requires Remembers(trace, phase) && (phase.Running? || phase.AwaitDetached?) && Counts(trace, phase.process)
    ensures Apply(cfg, phase, m).Ok? <==> Permitted(cfg, trace, m)
  {
    if Sender(m) == Client {
      PermittedToClient(trace, phase.process, m);
    } else if !m.Detached? {
      PermittedToServer(trace, phase.process, m);
    }
  }

  lemma PermittedToWatcher(trace: seq<Message>, w: Watch, m: Message)
    requires RemembersWatch(trace, w) && WatchFits(w) && Sender(m) == Client && !m.WatchStop?
    requires InStep(Summarize(trace, WatchChannel), WatchCursor(w, WatchChannel), None)
    ensures WatchStep(w, m).Ok? <==> WatchTalk(trace, m)
  {
  }

  lemma PermittedFromWatcher(trace: seq<Message>, w: Watch, m: Message)
    requires RemembersWatch(trace, w) && WatchFits(w) && Sender(m) == Server && !m.WatchStopped?
    requires InStep(Summarize(trace, WatchChannel), WatchCursor(w, WatchChannel), None)
    ensures WatchStep(w, m).Ok? <==> WatchTalk(trace, m)
  {
  }

  lemma PermittedWatch(cfg: Config, trace: seq<Message>, phase: Phase, m: Message)
    requires Remembers(trace, phase) && (phase.Watching? || phase.AwaitWatchStopped?)
    requires WatchFits(phase.watch) && InStep(Summarize(trace, WatchChannel), WatchCursor(phase.watch, WatchChannel), None)
    ensures Apply(cfg, phase, m).Ok? <==> Permitted(cfg, trace, m)
  {
    if Sender(m) == Client && !m.WatchStop? {
      PermittedToWatcher(trace, phase.watch, m);
    } else if Sender(m) == Server && !m.WatchStopped? {
      PermittedFromWatcher(trace, phase.watch, m);
    }
  }

  lemma AppliedExactly(cfg: Config, trace: seq<Message>, m: Message)
    requires Accepted(cfg, trace) && Valid(m)
    ensures Apply(cfg, Final(cfg, trace), m).Ok? <==> Permitted(cfg, trace, m)
  {
    var phase := Final(cfg, trace);
    AcceptedRunRemembers(cfg, trace);
    AcceptedRunTracks(cfg, trace, WatchChannel);
    if phase.Running? || phase.AwaitDetached? {
      forall ch ensures InStep(Summarize(trace, ch), ProcessCursor(phase.process, ch), None) {
        AcceptedRunTracks(cfg, trace, ch);
      }
      PermittedProcess(cfg, trace, phase, m);
    } else if phase.Watching? || phase.AwaitWatchStopped? {
      PermittedWatch(cfg, trace, phase, m);
    } else {
      PermittedOpening(cfg, trace, phase, m);
    }
  }

  /**
   After every accepted transcript the state machine accepts a valid message
   if and only if the transcript permits it.
   */
  lemma AcceptedExactly(cfg: Config, trace: seq<Message>, m: Message)
    requires Accepted(cfg, trace) && Valid(m)
    ensures Accepted(cfg, trace + [m]) <==> Permitted(cfg, trace, m)
  {
    var phase := Final(cfg, trace);
    AppliedExactly(cfg, trace, m);
    ReplayAppend(cfg, AwaitClientHello, trace, [m]);
    assert Replay(cfg, phase, [m]) == (match Apply(cfg, phase, m) case Err(e) => Err(e) case Ok(n) => Ok(n));
  }

  /** Every message valid and permitted by what went before it. */
  ghost predicate Lawful(cfg: Config, trace: seq<Message>) {
    forall i :: 0 <= i < |trace| ==> Valid(trace[i]) && Permitted(cfg, trace[..i], trace[i])
  }

  lemma EarlierPart(before: seq<Message>, m: Message, i: nat)
    requires i < |before|
    ensures (before + [m])[..i] == before[..i] && (before + [m])[i] == before[i]
  {
  }

  lemma LawfulGrows(cfg: Config, before: seq<Message>, m: Message)
    ensures Lawful(cfg, before + [m]) <==> Lawful(cfg, before) && Valid(m) && Permitted(cfg, before, m)
  {
    var trace := before + [m];
    assert trace[..|before|] == before && trace[|before|] == m;
    forall i | 0 <= i < |before| ensures before[i] == trace[i] && before[..i] == trace[..i] {
      EarlierPart(before, m, i);
    }
  }

  /** The transcripts the state machine accepts are the lawful ones. */
  lemma {:induction false} AcceptsTheLawful(cfg: Config, trace: seq<Message>)
    ensures Accepted(cfg, trace) <==> Lawful(cfg, trace)
    decreases |trace|
  {
    if trace != [] {
      var before, m := trace[..|trace| - 1], trace[|trace| - 1];
      assert before + [m] == trace;
      AcceptsTheLawful(cfg, before);
      LawfulGrows(cfg, before, m);
      if Accepted(cfg, trace) {
        AcceptedPrefix(cfg, trace);
      }
      if Accepted(cfg, before) && Valid(m) {
        AcceptedExactly(cfg, before, m);
      }
    }
  }

  // ---- a peer that watches the conversation -------------------------------------------------------------

  /** What only a client says. */
  predicate FromClient(m: Message) {
    || m.ClientHello? || m.StartProcess? || m.AttachPty? || m.WatchStart?
    || m.Input? || m.CloseInput? || m.OutputAck? || m.Resize? || m.Signal? || m.Detach?
    || m.WatchAck? || m.WatchStop?
  }

  /** The message goes the way that messages of its kind go. */
  predicate RightWay(role: Role, direction: Direction, m: Message) {
    FromClient(m) <==> (role == Client && direction == Outbound) || (role == Server && direction == Inbound)
  }

  predicate AllRightWay(role: Role, talk: seq<(Direction, Message)>) {
    forall i :: 0 <= i < |talk| ==> RightWay(role, talk[i].0, talk[i].1)
  }

  function Messages(talk: seq<(Direction, Message)>): seq<Message> {
    seq(|talk|, i requires 0 <= i < |talk| => talk[i].1)
  }

  lemma ObservesNext(cfg: Config, role: Role, direction: Direction, trace: seq<Message>, m: Message)
    requires Accepted(cfg, trace)
    ensures var r := Observe(cfg, role, direction, Final(cfg, trace), m);
            && (r.Ok? <==> RightWay(role, direction, m) && Accepted(cfg, trace + [m]))
            && (r.Ok? ==> r.value == Final(cfg, trace + [m]))
  {
    ReplayAppend(cfg, AwaitClientHello, trace, [m]);
    var phase := Final(cfg, trace);
    assert Replay(cfg, phase, [m]) == (match Apply(cfg, phase, m) case Err(e) => Err(e) case Ok(n) => Ok(n));
    assert Sender(m) == ActualSender(role, direction) <==> RightWay(role, direction, m);
    assert Accepted(cfg, trace + [m]) ==> Valid((trace + [m])[|trace|]);
  }

  /** Every message goes the right way, and the transcript is lawful. */
  ghost predicate Orderly(cfg: Config, role: Role, talk: seq<(Direction, Message)>) {
    AllRightWay(role, talk) && Lawful(cfg, Messages(talk))
  }

  ghost predicate InTune(cfg: Config, role: Role, talk: seq<(Direction, Message)>, phase: Phase) {
    && Orderly(cfg, role, talk) && Accepted(cfg, Messages(talk))
    && phase == Final(cfg, Messages(talk))
  }

  lemma StartsInTune(cfg: Config, role: Role)
    ensures InTune(cfg, role, [], AwaitClientHello)
  {
    assert Messages([]) == [];
  }

  lemma OrderlyPart(cfg: Config, role: Role, talk: seq<(Direction, Message)>, n: nat)
    requires n <= |talk| && Orderly(cfg, role, talk)
    ensures Orderly(cfg, role, talk[..n])
  {
    var trace := Messages(talk);
    assert Messages(talk[..n]) == trace[..n];
    forall i | 0 <= i < n ensures trace[..n][..i] == trace[..i] && trace[..n][i] == trace[i] {
    }
  }

  lemma StaysInTune(cfg: Config, role: Role, before: seq<(Direction, Message)>, direction: Direction, m: Message, phase: Phase)
    requires InTune(cfg, role, before, phase)
    ensures var r := Observe(cfg, role, direction, phase, m);
            if r.Ok? then InTune(cfg, role, before + [(direction, m)], r.value) else !Orderly(cfg, role, before + [(direction, m)])
  {
    var talk := before + [(direction, m)];
    assert Messages(talk) == Messages(before) + [m];
    ObservesNext(cfg, role, direction, Messages(before), m);
    AcceptsTheLawful(cfg, Messages(talk));
    assert talk[|before|] == (direction, m);
    assert AllRightWay(role, talk) <==> AllRightWay(role, before) && RightWay(role, direction, m);
  }

  /**
   A peer's state machine, shown a conversation from its beginning, refuses
   none of it exactly if every message goes the right way and the transcript is
   lawful; otherwise it refuses the first message with which this ends.
   */
  method ObserveAll(machine: StateMachine, talk: seq<(Direction, Message)>) returns (refused: Option<nat>)
    requires machine.phase == AwaitClientHello
    modifies machine
    ensures refused.None? <==> Orderly(machine.cfg, machine.role, talk)
    ensures refused.Some? ==>
              && refused.value < |talk| && Orderly(machine.cfg, machine.role, talk[..refused.value])
              && !Orderly(machine.cfg, machine.role, talk[..refused.value + 1])
  {
    StartsInTune(machine.cfg, machine.role);
    for i := 0 to |talk|
      invariant InTune(machine.cfg, machine.role, talk[..i], machine.phase)
    {
      assert talk[..i + 1] == talk[..i] + [(talk[i].0, talk[i].1)];
      StaysInTune(machine.cfg, machine.role, talk[..i], talk[i].0, talk[i].1, machine.phase);
      var error := machine.ObserveMessage(talk[i].0, talk[i].1);
      if error.Some? {
        if Orderly(machine.cfg, machine.role, talk) {
          OrderlyPart(machine.cfg, machine.role, talk, i + 1);
        }
        return Some(i);
      }
    }
    assert talk[..|talk|] == talk;
    refused := None;
  }
}
