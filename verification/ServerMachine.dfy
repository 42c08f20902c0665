/**
 The part of the protocol state machine that a process server exercises once
 `ProcessStarted` has been sent, with the message payloads it does not look at
 removed, and the proof that this smaller machine is the real one: same
 verdict and same successor for every message in either direction.
 */
module ServerMachine {
  import opened Protocol

  /** One value per output stream. */
  datatype PerStream<T> = PerStream(stdout: T, stderr: T, pty: T)

  function Get<T>(p: PerStream<T>, s: Stream): T {
    match s
    case Stdout => p.stdout
    case Stderr => p.stderr
    case Pty => p.pty
  }

  function Set<T>(p: PerStream<T>, s: Stream, v: T): PerStream<T> {
    match s
    case Stdout => p.(stdout := v)
    case Stderr => p.(stderr := v)
    case Pty => p.(pty := v)
  }

  function All<T>(v: T): PerStream<T> {
    PerStream(v, v, v)
  }

  predicate Active(pty: bool, s: Stream) {
    pty == s.Pty?
  }

  datatype Machine =
    | Open(inputSent: U64, inputAcked: U64, inputClosed: bool, out: PerStream<Offsets>)
    | Shut

  /** The frames a running server sends. */
  datatype Frame =
    | OutputFrame(stream: Stream, offset: U64, data: seq<Byte>)
    | InputAckFrame(next: U64)
    | ExitedFrame(status: ExitStatus, truncated: bool)
    | ErrorFrame

  predicate Terminal(f: Frame) {
    f.ExitedFrame? || f.ErrorFrame?
  }

  /** The client messages a running server accepts. */
  datatype Arrival =
    | ArrivedInput(offset: U64, length: nat)
    | ArrivedClose(next: U64)
    | ArrivedAck(stream: Stream, next: U64)
    | ArrivedResize
    | ArrivedSignal

  predicate ValidFrame(f: Frame) {
    f.OutputFrame? ==> ValidChunk(f.offset, f.data)
  }

  /** Observing an outbound frame; `None` is a refusal. */
  function SendStep(mach: Machine, pty: bool, f: Frame): Option<Machine> {
    if mach.Shut? then None
    else
      match f
      case ErrorFrame => Some(Shut)
      case ExitedFrame(_, _) => Some(Shut)
      case InputAckFrame(next) =>
        if mach.inputAcked <= next <= mach.inputSent then Some(mach.(inputAcked := next)) else None
      case OutputFrame(s, offset, data) =>
        if Active(pty, s) && Get(mach.out, s).next == offset && offset + |data| < U64_LIMIT
        then Some(mach.(out := Set(mach.out, s, Get(mach.out, s).(next := offset + |data|))))
        else None
  }

  /** Observing an arrival; `None` is a refusal. */
  function ReceiveStep(mach: Machine, pty: bool, a: Arrival): Option<Machine> {
    if mach.Shut? then None
    else
      match a
      case ArrivedInput(offset, length) =>
        if !mach.inputClosed && mach.inputSent == offset && offset + length < U64_LIMIT
        then Some(mach.(inputSent := offset + length)) else None
      case ArrivedClose(next) =>
        if !mach.inputClosed && mach.inputSent == next then Some(mach.(inputClosed := true)) else None
      case ArrivedAck(s, next) =>
        if Active(pty, s) && Get(mach.out, s).acked <= next <= Get(mach.out, s).next
        then Some(mach.(out := Set(mach.out, s, Get(mach.out, s).(acked := next)))) else None
      case ArrivedResize => if pty then Some(mach) else None
      case ArrivedSignal => Some(mach)
  }

  // ---- the machine is the protocol's -----------------------------------------

  function StreamMap(out: PerStream<Offsets>, pty: bool): map<Stream, Offsets> {
    if pty then map[Pty := out.pty] else map[Stdout := out.stdout, Stderr := out.stderr]
  }

  /** The agent serves attached processes only, so there is no session and no replay gap. */
  function PhaseOf(mach: Machine, pid: U64, pty: bool): Phase {
    match mach
    case Shut => Closed
    case Open(sent, acked, closed, out) =>
      Running(Process(pid, pty, None, sent, acked, closed, StreamMap(out, pty), None))
  }

  const Opening: Machine := Open(0, 0, false, All(Offsets(0, 0)))

  function MessageOf(f: Frame, pid: U64, text: string): Message {
    match f
    case OutputFrame(s, offset, data) => Output(pid, s, offset, data)
    case InputAckFrame(next) => InputAck(pid, next)
    case ExitedFrame(status, truncated) => Exited(pid, status, truncated)
    case ErrorFrame => Error(text)
  }

  function ArrivalOf(m: Message): Option<Arrival> {
    match m
    case Input(_, offset, data) => Some(ArrivedInput(offset, |data|))
    case CloseInput(_, next) => Some(ArrivedClose(next))
    case OutputAck(_, s, next) => Some(ArrivedAck(s, next))
    case Resize(_, _) => Some(ArrivedResize)
    case Signal(_, _) => Some(ArrivedSignal)
    case _ => None
  }

  /** An attached process starts the small machine where the protocol starts. */
  lemma OpeningIsStarted(pid: U64, pty: bool, requestId: U64)
    ensures Started(AwaitProcessStarted(if pty then ProcessPtyV1 else ProcessPipeV1, requestId, Attached),
                    ProcessStarted(requestId, pid, None, 0))
         == Ok(PhaseOf(Opening, pid, pty))
  {
  }

  lemma StreamMapUpdate(out: PerStream<Offsets>, pty: bool, s: Stream, o: Offsets)
    ensures s in StreamMap(out, pty) <==> Active(pty, s)
    ensures Active(pty, s) ==>
              StreamMap(out, pty)[s] == Get(out, s) && StreamMap(Set(out, s, o), pty) == StreamMap(out, pty)[s := o]
  {
    if Active(pty, s) {
      assert StreamMap(Set(out, s, o), pty) == StreamMap(out, pty)[s := o];
    }
  }

  lemma SendStepIsObserve(cfg: Config, mach: Machine, pid: U64, pty: bool, f: Frame, text: string)
    requires ValidFrame(f) && ValidText(text)
    ensures var seen := Observe(cfg, Server, Outbound, PhaseOf(mach, pid, pty), MessageOf(f, pid, text));
            match SendStep(mach, pty, f)
            case None => seen.Err?
            case Some(next) => seen == Ok(PhaseOf(next, pid, pty))
  {
    if mach.Open? && f.OutputFrame? && f.offset + |f.data| < U64_LIMIT {
      StreamMapUpdate(mach.out, pty, f.stream, Get(mach.out, f.stream).(next := f.offset + |f.data|));
    }
  }

  /** What the real machine accepts the small one accepts, with one successor; what it refuses is refused. */
  predicate AgreeOn(cfg: Config, mach: Machine, pid: U64, pty: bool, m: Message) {
    match Observe(cfg, Server, Inbound, PhaseOf(mach, pid, pty), m)
    case Ok(next) =>
      && ArrivalOf(m).Some?
      && ReceiveStep(mach, pty, ArrivalOf(m).value).Some?
      && next == PhaseOf(ReceiveStep(mach, pty, ArrivalOf(m).value).value, pid, pty)
    case Err(e) =>
      Valid(m) && !e.ProcessIdMismatch? && ArrivalOf(m).Some? ==> ReceiveStep(mach, pty, ArrivalOf(m).value).None?
  }

  lemma AgreeOnAck(cfg: Config, mach: Machine, pid: U64, pty: bool, m: Message)
    requires mach.Open? && m.OutputAck?
    ensures AgreeOn(cfg, mach, pid, pty, m)
  {
    StreamMapUpdate(mach.out, pty, m.stream, Get(mach.out, m.stream).(acked := m.nextOffset));
  }

  lemma AgreeOnInput(cfg: Config, mach: Machine, pid: U64, pty: bool, m: Message)
    requires mach.Open? && (m.Input? || m.CloseInput?)
    ensures AgreeOn(cfg, mach, pid, pty, m)
  {
  }

  lemma AgreeOnControl(cfg: Config, mach: Machine, pid: U64, pty: bool, m: Message)
    requires mach.Open? && (m.Resize? || m.Signal?)
    ensures AgreeOn(cfg, mach, pid, pty, m)
  {
  }

  /** An attached process takes nothing else from its client. */
  lemma NothingElseArrives(cfg: Config, mach: Machine, pid: U64, pty: bool, m: Message)
    requires ArrivalOf(m).None?
    ensures Observe(cfg, Server, Inbound, PhaseOf(mach, pid, pty), m).Err?
  {
  }

  /**
   For every message a client could put on the wire, the real machine agrees
   with the small one, and what it accepts is one of the five kinds of arrival
   the reader loop handles: its `unreachable!` arm is unreachable.
   */
  lemma ReceiveStepIsObserve(cfg: Config, mach: Machine, pid: U64, pty: bool, m: Message)
    ensures var seen := Observe(cfg, Server, Inbound, PhaseOf(mach, pid, pty), m);
            seen.Ok? ==>
              && ArrivalOf(m).Some?
              && ReceiveStep(mach, pty, ArrivalOf(m).value).Some?
              && seen.value == PhaseOf(ReceiveStep(mach, pty, ArrivalOf(m).value).value, pid, pty)
    ensures var seen := Observe(cfg, Server, Inbound, PhaseOf(mach, pid, pty), m);
            Valid(m) && seen.Err? && !seen.error.ProcessIdMismatch? && ArrivalOf(m).Some? ==>
              ReceiveStep(mach, pty, ArrivalOf(m).value).None?
  {
    if mach.Open? {
      if m.OutputAck? {
        AgreeOnAck(cfg, mach, pid, pty, m);
      } else if m.Input? || m.CloseInput? {
        AgreeOnInput(cfg, mach, pid, pty, m);
      } else if m.Resize? || m.Signal? {
        AgreeOnControl(cfg, mach, pid, pty, m);
      } else {
        NothingElseArrives(cfg, mach, pid, pty, m);
      }
    }
  }
}
