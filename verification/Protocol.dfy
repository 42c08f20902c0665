/**
 The runtime stream protocol: messages, phases, and the step function both
 peers run (crates/nrm-protocol/src/runtime.rs).

 Sixty-four bit counters are naturals below 2^64 and every addition that the
 source checks is checked here.  Text validators (argv, cwd, environment,
 package version bytes) are represented by their verdict.
 */
module Protocol {

  const U64_LIMIT: nat := 0x1_0000_0000_0000_0000
  const MAX_DATA_CHUNK: nat := 64 * 1024
  const MAX_WATCH_EVENTS: nat := 4096
  const PROTOCOL_VERSION: nat := 8

  type U64 = n: nat | n < U64_LIMIT
  type Byte = b: nat | b < 256

  datatype Option<+T> = None | Some(value: T)

  datatype Result<+T> = Ok(value: T) | Err(error: StateError)

  datatype Capability = ProcessPipeV1 | ProcessPtyV1 | WorkspaceWatchV1

  datatype Role = Client | Server

  datatype Direction = Inbound | Outbound

  datatype Stream = Stdout | Stderr | Pty

  datatype Persistence = Attached | Detachable(ttlMs: U64)

  datatype TerminalSize = TerminalSize(columns: nat, rows: nat, pixelWidth: Option<nat>, pixelHeight: Option<nat>)

  /** `textOk` is the verdict of the validators for argv, cwd and environment. */
  datatype ProcessSpec = ProcessSpec(
    textOk: bool,
    persistence: Persistence,
    terminalSize: Option<TerminalSize>,
    timeoutMs: Option<U64>,
    maxOutputBytes: Option<U64>)

  datatype Credentials = Credentials(sessionId: seq<Byte>, attachmentToken: seq<Byte>)

  datatype ExitStatus = Code(code: int) | Signalled(signal: nat) | TimedOut | OutputLimit | Cancelled

  /** `pathsOk` is the verdict of the path validator on the event's path and, for a renaming, on the new one. */
  datatype WatchEvent = WatchEvent(description: string, pathsOk: bool)

  datatype Message =
    | ClientHello(packageVersion: string, protocolVersion: nat, capability: Capability)
    | ServerHello(packageVersion: string, protocolVersion: nat, capability: Capability)
    | Error(text: string)
    | StartProcess(requestId: U64, spec: ProcessSpec)
    | ProcessStarted(requestId: U64, processId: U64, session: Option<Credentials>, outputOffset: U64)
    | AttachPty(requestId: U64, credentials: Credentials, replayFrom: Option<U64>)
    | PtyAttached(requestId: U64, processId: U64, sessionId: seq<Byte>, outputOffset: U64)
    | Input(processId: U64, offset: U64, data: seq<Byte>)
    | InputAck(processId: U64, nextOffset: U64)
    | CloseInput(processId: U64, nextOffset: U64)
    | Output(processId: U64, stream: Stream, offset: U64, data: seq<Byte>)
    | OutputAck(processId: U64, stream: Stream, nextOffset: U64)
    | OutputGap(processId: U64, requestedOffset: U64, availableOffset: U64, snapshot: seq<Byte>)
    | Resize(processId: U64, size: TerminalSize)
    | Signal(processId: U64, signal: nat)
    | Detach(processId: U64)
    | Detached(processId: U64, sessionId: seq<Byte>)
    | Exited(processId: U64, status: ExitStatus, outputTruncated: bool)
    | WatchStart(requestId: U64, resumeFrom: Option<U64>)
    | WatchStarted(requestId: U64, watchId: U64, nextSequence: U64)
    | WatchEvents(watchId: U64, sequence: U64, events: seq<WatchEvent>)
    | WatchAck(watchId: U64, nextSequence: U64)
    | WatchOverflow(watchId: U64, sequence: U64, nextSequence: U64)
    | WatchStop(watchId: U64)
    | WatchStopped(watchId: U64)

  datatype StateError =
    | InvalidMessage
    | WrongSender
    | UnexpectedMessage
    | ProtocolVersionMismatch
    | PackageVersionMismatch
    | UnsupportedCapability
    | CapabilityMismatch
    | RequestIdMismatch
    | ProcessIdMismatch
    | WatchIdMismatch
    | SessionIdMismatch
    | InvalidProcessSpec
    | InputClosed
    | OffsetMismatch
    | AckRegressed
    | AckBeyondSent
    | WrongOutputStream
    | OutputGapMismatch
    | OutputBeforeGap
    | OffsetOverflow
    | WatchSequenceOverflow
    | WatchEventBeforeOverflow
    | WatchOverflowMismatch

  /** What one build of the software agrees to speak. */
  datatype Config = Config(packageVersion: string, supported: set<Capability>)

  datatype Offsets = Offsets(next: U64, acked: U64)

  datatype Process = Process(
    processId: U64,
    pty: bool,
    sessionId: Option<seq<Byte>>,
    inputSent: U64,
    inputAcked: U64,
    inputClosed: bool,
    streams: map<Stream, Offsets>,
    gap: Option<(U64, U64)>)

  datatype Watch = Watch(watchId: U64, nextSequence: U64, ackedSequence: U64, gap: Option<(U64, U64)>)

  datatype Phase =
    | AwaitClientHello
    | AwaitServerHello(capability: Capability)
    | Ready(capability: Capability)
    | AwaitProcessStarted(capability: Capability, requestId: U64, persistence: Persistence)
    | AwaitPtyAttached(requestId: U64, sessionId: seq<Byte>, replayFrom: Option<U64>)
    | Running(process: Process)
    | AwaitDetached(process: Process)
    | AwaitWatchStarted(requestId: U64, resumeFrom: Option<U64>)
    | Watching(watch: Watch)
    | AwaitWatchStopped(watch: Watch)
    | Closed

  // ---- validation ----------------------------------------------------------

  predicate ValidTerminalSize(size: TerminalSize) {
    size.columns != 0 && size.rows != 0 && size.pixelWidth.Some? == size.pixelHeight.Some?
  }

  predicate NonZero(id: seq<Byte>) {
    exists i :: 0 <= i < |id| && id[i] != 0
  }

  predicate ValidCredentials(c: Credentials) {
    NonZero(c.sessionId) && NonZero(c.attachmentToken)
  }

  predicate ValidChunk(offset: U64, data: seq<Byte>) {
    data != [] && |data| <= MAX_DATA_CHUNK && offset + |data| < U64_LIMIT
  }

  predicate ValidText(text: string) {
    |text| <= 8 * 1024 && '\0' !in text
  }

  predicate ValidPackageVersion(text: string) {
    0 < |text| <= 128 && '\0' !in text
  }

  predicate Valid(m: Message) {
    match m
    case ClientHello(v, _, _) => ValidPackageVersion(v)
    case ServerHello(v, _, _) => ValidPackageVersion(v)
    case Error(text) => ValidText(text)
    case StartProcess(_, spec) =>
      spec.textOk && spec.persistence != Detachable(0) &&
      (spec.terminalSize.Some? ==> ValidTerminalSize(spec.terminalSize.value))
    case ProcessStarted(_, _, session, _) => session.Some? ==> ValidCredentials(session.value)
    case AttachPty(_, credentials, _) => ValidCredentials(credentials)
    case PtyAttached(_, _, id, _) => NonZero(id)
    case Detached(_, id) => NonZero(id)
    case Input(_, offset, data) => ValidChunk(offset, data)
    case Output(_, _, offset, data) => ValidChunk(offset, data)
    case OutputGap(_, requested, available, snapshot) => requested < available && |snapshot| <= MAX_DATA_CHUNK
    case Resize(_, size) => ValidTerminalSize(size)
    case WatchEvents(_, _, events) =>
      0 < |events| <= MAX_WATCH_EVENTS && forall i :: 0 <= i < |events| ==> events[i].pathsOk
    case WatchOverflow(_, sequence, next) => sequence < next
    case _ => true
  }

  /** What validation objects to. */
  datatype Objection =
    | EmptyVersion | LongVersion | LongErrorText | HasNul | BadSpecText | NoColumnsOrRows | HalfPixelSize | NoTimeToLive
    | AllZero | EmptyData | LongData | OffsetTooFar | GapNotForward | NoEvents | ManyEvents | BadEventPath | OverflowNotForward

  function Sizes(m: Message): seq<TerminalSize> {
    match m
    case StartProcess(_, spec) => if spec.terminalSize.Some? then [spec.terminalSize.value] else []
    case Resize(_, size) => [size]
    case _ => []
  }

  function IdsOf(m: Message): seq<seq<Byte>> {
    match m
    case ProcessStarted(_, _, session, _) =>
      if session.Some? then [session.value.sessionId, session.value.attachmentToken] else []
    case AttachPty(_, credentials, _) => [credentials.sessionId, credentials.attachmentToken]
    case PtyAttached(_, _, id, _) => [id]
    case Detached(_, id) => [id]
    case _ => []
  }

  ghost predicate Objects(m: Message, o: Objection) {
    match o
    case EmptyVersion => (m.ClientHello? || m.ServerHello?) && m.packageVersion == ""
    case LongVersion => (m.ClientHello? || m.ServerHello?) && |m.packageVersion| > 128
    case LongErrorText => m.Error? && |m.text| > 8192
    case HasNul => ((m.ClientHello? || m.ServerHello?) && '\0' in m.packageVersion) || (m.Error? && '\0' in m.text)
    case BadSpecText => m.StartProcess? && !m.spec.textOk
    case NoColumnsOrRows => exists z :: z in Sizes(m) && (z.columns == 0 || z.rows == 0)
    case HalfPixelSize => exists z :: z in Sizes(m) && z.pixelWidth.Some? != z.pixelHeight.Some?
    case NoTimeToLive => m.StartProcess? && m.spec.persistence.Detachable? && m.spec.persistence.ttlMs == 0
    case AllZero => exists id :: id in IdsOf(m) && forall b :: b in id ==> b == 0
    case EmptyData => (m.Input? || m.Output?) && m.data == []
    case LongData => ((m.Input? || m.Output?) && |m.data| > 65536) || (m.OutputGap? && |m.snapshot| > 65536)
    case OffsetTooFar => (m.Input? || m.Output?) && m.offset + |m.data| > 0xFFFF_FFFF_FFFF_FFFF
    case GapNotForward => m.OutputGap? && m.availableOffset <= m.requestedOffset
    case NoEvents => m.WatchEvents? && m.events == []
    case ManyEvents => m.WatchEvents? && |m.events| > 4096
    case BadEventPath => m.WatchEvents? && exists e :: e in m.events && !e.pathsOk
    case OverflowNotForward => m.WatchOverflow? && m.nextSequence <= m.sequence
  }

  /** A message is valid exactly if nothing objects to it. */
  lemma ValidExactly(m: Message)
    ensures Valid(m) <==> forall o :: !Objects(m, o)
  {
    if Valid(m) {
      forall o ensures !Objects(m, o) {
        ValidMeansNone(m, o);
      }
    } else {
      var o := WhyInvalid(m);
    }
  }

  lemma ValidMeansNone(m: Message, o: Objection)
    requires Valid(m)
    ensures !Objects(m, o)
  {
    if o.AllZero? {
      forall id | id in IdsOf(m) ensures exists b :: b in id && b != 0 {
        var i :| 0 <= i < |id| && id[i] != 0;
        assert id[i] in id;
      }
    }
  }

  lemma WhyInvalid(m: Message) returns (o: Objection)
    requires !Valid(m)
    ensures Objects(m, o)
  {
    match m {
      case ClientHello(v, _, _) => o := if v == "" then EmptyVersion else if |v| > 128 then LongVersion else HasNul;
      case ServerHello(v, _, _) => o := if v == "" then EmptyVersion else if |v| > 128 then LongVersion else HasNul;
      case Error(text) => o := if |text| > 8192 then LongErrorText else HasNul;
      case StartProcess(_, spec) =>
        o := if !spec.textOk then BadSpecText else if spec.persistence == Detachable(0) then NoTimeToLive
             else WhichSize(spec.terminalSize.value);
        assert spec.terminalSize.Some? ==> spec.terminalSize.value in Sizes(m);
      case Resize(_, size) =>
        o := WhichSize(size);
        assert size in Sizes(m);
      case ProcessStarted(_, _, session, _) =>
        o := AllZero;
        ZeroId(m, if NonZero(session.value.sessionId) then session.value.attachmentToken else session.value.sessionId);
      case AttachPty(_, c, _) =>
        o := AllZero;
        ZeroId(m, if NonZero(c.sessionId) then c.attachmentToken else c.sessionId);
      case PtyAttached(_, _, id, _) =>
        o := AllZero;
        ZeroId(m, id);
      case Detached(_, id) =>
        o := AllZero;
        ZeroId(m, id);
      case Input(_, _, data) => o := if data == [] then EmptyData else if |data| > 65536 then LongData else OffsetTooFar;
      case Output(_, _, _, data) => o := if data == [] then EmptyData else if |data| > 65536 then LongData else OffsetTooFar;
      case OutputGap(_, _, _, snapshot) => o := if |snapshot| > 65536 then LongData else GapNotForward;
      case WatchEvents(_, _, events) => o := if events == [] then NoEvents else if |events| > 4096 then ManyEvents else BadEventPath;
      case WatchOverflow(_, _, _) => o := OverflowNotForward;
    }
  }

  function WhichSize(size: TerminalSize): Objection {
    if size.columns == 0 || size.rows == 0 then NoColumnsOrRows else HalfPixelSize
  }

  lemma ZeroId(m: Message, id: seq<Byte>)
    requires id in IdsOf(m) && !NonZero(id)
    ensures Objects(m, AllZero)
  {
    forall b | b in id ensures b == 0 {
      var i :| 0 <= i < |id| && id[i] == b;
    }
  }

  function Sender(m: Message): Role {
    match m
    case ClientHello(_, _, _) => Client
    case StartProcess(_, _) => Client
    case AttachPty(_, _, _) => Client
    case Input(_, _, _) => Client
    case CloseInput(_, _) => Client
    case OutputAck(_, _, _) => Client
    case Resize(_, _) => Client
    case Signal(_, _) => Client
    case Detach(_) => Client
    case WatchStart(_, _) => Client
    case WatchAck(_, _) => Client
    case WatchStop(_) => Client
    case _ => Server
  }

  // ---- the step function ---------------------------------------------------

  function NewPipe(processId: U64): Process {
    Process(processId, false, None, 0, 0, false,
            map[Stdout := Offsets(0, 0), Stderr := Offsets(0, 0)], None)
  }

  function NewPty(processId: U64, sessionId: Option<seq<Byte>>, outputOffset: U64, gap: Option<(U64, U64)>): Process {
    Process(processId, true, sessionId, 0, 0, false,
            map[Pty := Offsets(outputOffset, outputOffset)], gap)
  }

  /** The acknowledgement rule shared by input, output and watch channels. */
  function ScalarAck(sent: U64, previous: U64, actual: U64): (r: Result<U64>)
  {
    if actual < previous then Err(AckRegressed)
    else if actual > sent then Err(AckBeyondSent)
    else Ok(actual)
  }

  function CheckHello(cfg: Config, version: string, protocol: nat, capability: Capability): Option<StateError> {
    if version != cfg.packageVersion then Some(PackageVersionMismatch)
    else if protocol != PROTOCOL_VERSION then Some(ProtocolVersionMismatch)
    else if capability !in cfg.supported then Some(UnsupportedCapability)
    else None
  }

  predicate SpecFitsCapability(capability: Capability, spec: ProcessSpec) {
    match capability
    case ProcessPipeV1 => spec.terminalSize.None? && spec.persistence.Attached?
    case ProcessPtyV1 => spec.terminalSize.Some? && spec.maxOutputBytes.None?
    case WorkspaceWatchV1 => false
  }

  function Started(phase: Phase, m: Message): Result<Phase>
    requires phase.AwaitProcessStarted? && m.ProcessStarted?
  {
    if phase.requestId != m.requestId then Err(RequestIdMismatch)
    else if m.outputOffset != 0 then Err(InvalidProcessSpec)
    else
      match (phase.capability, phase.persistence, m.session)
      case (ProcessPipeV1, Attached, None) => Ok(Running(NewPipe(m.processId)))
      case (ProcessPtyV1, Attached, None) => Ok(Running(NewPty(m.processId, None, 0, None)))
      case (ProcessPtyV1, Detachable(_), Some(c)) => Ok(Running(NewPty(m.processId, Some(c.sessionId), 0, None)))
      case _ => Err(InvalidProcessSpec)
  }

  function AttachedPty(phase: Phase, m: Message): Result<Phase>
    requires phase.AwaitPtyAttached? && m.PtyAttached?
  {
    if phase.requestId != m.requestId then Err(RequestIdMismatch)
    else if phase.sessionId != m.sessionId then Err(SessionIdMismatch)
    else if phase.replayFrom.Some? && m.outputOffset < phase.replayFrom.value then Err(OffsetMismatch)
    else
      var gap := if phase.replayFrom.Some? && m.outputOffset > phase.replayFrom.value
                 then Some((phase.replayFrom.value, m.outputOffset)) else None;
      Ok(Running(NewPty(m.processId, Some(m.sessionId), m.outputOffset, gap)))
  }

  function WatchBegun(phase: Phase, m: Message): Result<Phase>
    requires phase.AwaitWatchStarted? && m.WatchStarted?
  {
    if phase.requestId != m.requestId then Err(RequestIdMismatch)
    else if phase.resumeFrom.Some? && m.nextSequence < phase.resumeFrom.value then Err(OffsetMismatch)
    else
      var gap := if phase.resumeFrom.Some? && phase.resumeFrom.value < m.nextSequence
                 then Some((phase.resumeFrom.value, m.nextSequence)) else None;
      Ok(Watching(Watch(m.watchId, m.nextSequence, m.nextSequence, gap)))
  }

  /** A client message while a process is running; `Ok` carries the new process state. */
  function RunningClient(p: Process, m: Message): Result<Process>
    requires Sender(m) == Client
  {
    match m
    case Input(id, offset, data) =>
      if p.processId != id then Err(ProcessIdMismatch)
      else if p.inputClosed then Err(InputClosed)
      else if p.inputSent != offset then Err(OffsetMismatch)
      else if offset + |data| >= U64_LIMIT then Err(OffsetOverflow)
      else Ok(p.(inputSent := offset + |data|))
    case CloseInput(id, next) =>
      if p.processId != id then Err(ProcessIdMismatch)
      else if p.inputClosed then Err(InputClosed)
      else if p.inputSent != next then Err(OffsetMismatch)
      else Ok(p.(inputClosed := true))
    case OutputAck(id, stream, next) =>
      if p.processId != id then Err(ProcessIdMismatch)
      else if p.gap.Some? then Err(OutputBeforeGap)
      else if stream !in p.streams then Err(WrongOutputStream)
      else
        var offsets := p.streams[stream];
        (match ScalarAck(offsets.next, offsets.acked, next)
         case Err(e) => Err(e)
         case Ok(acked) => Ok(p.(streams := p.streams[stream := offsets.(acked := acked)])))
    case Resize(id, _) =>
      if p.processId != id then Err(ProcessIdMismatch)
      else if !p.pty then Err(UnexpectedMessage)
      else Ok(p)
    case Signal(id, _) =>
      if p.processId != id then Err(ProcessIdMismatch) else Ok(p)
    case Detach(id) =>
      if p.processId != id then Err(ProcessIdMismatch)
      else if !p.pty || p.sessionId.None? then Err(UnexpectedMessage)
      else Ok(p)
    case _ => Err(UnexpectedMessage)
  }

  /** A server message about a process; `Ok(None)` closes the stream. */
  function RunningServer(p: Process, m: Message): Result<Option<Process>>
    requires Sender(m) == Server
  {
    match m
    case InputAck(id, next) =>
      if p.processId != id then Err(ProcessIdMismatch)
      else (match ScalarAck(p.inputSent, p.inputAcked, next)
            case Err(e) => Err(e)
            case Ok(acked) => Ok(Some(p.(inputAcked := acked))))
    case Output(id, stream, offset, data) =>
      if p.processId != id then Err(ProcessIdMismatch)
      else if p.gap.Some? then Err(OutputBeforeGap)
      else if stream !in p.streams then Err(WrongOutputStream)
      else if p.streams[stream].next != offset then Err(OffsetMismatch)
      else if offset + |data| >= U64_LIMIT then Err(OffsetOverflow)
      else Ok(Some(p.(streams := p.streams[stream := p.streams[stream].(next := offset + |data|)])))
    case OutputGap(id, requested, available, _) =>
      if p.processId != id then Err(ProcessIdMismatch)
      else if !p.pty || p.gap != Some((requested, available)) then Err(OutputGapMismatch)
      else Ok(Some(p.(gap := None)))
    case Exited(id, _, _) =>
      if p.processId != id then Err(ProcessIdMismatch) else Ok(None)
    case _ => Err(UnexpectedMessage)
  }

  function WatchStep(w: Watch, m: Message): Result<Watch> {
    match m
    case WatchAck(id, next) =>
      if w.watchId != id then Err(WatchIdMismatch)
      else (match ScalarAck(w.nextSequence, w.ackedSequence, next)
            case Err(e) => Err(e)
            case Ok(acked) => Ok(w.(ackedSequence := acked)))
    case WatchEvents(id, sequence, events) =>
      if w.watchId != id then Err(WatchIdMismatch)
      else if w.gap.Some? then Err(WatchEventBeforeOverflow)
      else if w.nextSequence != sequence then Err(OffsetMismatch)
      else if sequence + |events| >= U64_LIMIT then Err(WatchSequenceOverflow)
      else Ok(w.(nextSequence := sequence + |events|))
    case WatchOverflow(id, sequence, next) =>
      if w.watchId != id then Err(WatchIdMismatch)
      else if w.gap.Some? then
        if w.gap.value != (sequence, next) then Err(WatchOverflowMismatch) else Ok(w.(gap := None))
      else if w.nextSequence != sequence then Err(OffsetMismatch)
      else Ok(w.(nextSequence := next))
    case _ => Err(UnexpectedMessage)
  }

  function RunningStep(p: Process, m: Message): Result<Phase> {
    if Sender(m) == Client then
      match RunningClient(p, m)
      case Err(e) => Err(e)
      case Ok(q) => Ok(if m.Detach? then AwaitDetached(q) else Running(q))
    else
      match RunningServer(p, m)
      case Err(e) => Err(e)
      case Ok(None) => Ok(Closed)
      case Ok(Some(q)) => Ok(Running(q))
  }

  function DetachingStep(p: Process, m: Message): Result<Phase> {
    if m.Detached? then
      if p.processId != m.processId then Err(ProcessIdMismatch)
      else if p.sessionId != Some(m.sessionId) then Err(SessionIdMismatch)
      else Ok(Closed)
    else if m.OutputAck? then
      match RunningClient(p, m)
      case Err(e) => Err(e)
      case Ok(q) => Ok(AwaitDetached(q))
    else if Sender(m) == Client then Err(UnexpectedMessage)
    else
      match RunningServer(p, m)
      case Err(e) => Err(e)
      case Ok(None) => Ok(Closed)
      case Ok(Some(q)) => Ok(AwaitDetached(q))
  }

  /** `apply_message`: the successor phase, or the reason the message is refused. */
  function Apply(cfg: Config, phase: Phase, m: Message): Result<Phase> {
    if m.Error? && !phase.Closed? then Ok(Closed)
    else
      match phase
      case AwaitClientHello =>
        if !m.ClientHello? then Err(UnexpectedMessage)
        else (match CheckHello(cfg, m.packageVersion, m.protocolVersion, m.capability)
              case Some(e) => Err(e)
              case None => Ok(AwaitServerHello(m.capability)))
      case AwaitServerHello(expected) =>
        if !m.ServerHello? then Err(UnexpectedMessage)
        else (match CheckHello(cfg, m.packageVersion, m.protocolVersion, m.capability)
              case Some(e) => Err(e)
              case None => if m.capability != expected then Err(CapabilityMismatch) else Ok(Ready(expected)))
      case Ready(capability) =>
        if m.StartProcess? && !capability.WorkspaceWatchV1? then
          if !SpecFitsCapability(capability, m.spec) then Err(InvalidProcessSpec)
          else Ok(AwaitProcessStarted(capability, m.requestId, m.spec.persistence))
        else if m.AttachPty? && capability.ProcessPtyV1? then
          Ok(AwaitPtyAttached(m.requestId, m.credentials.sessionId, m.replayFrom))
        else if m.WatchStart? && capability.WorkspaceWatchV1? then
          Ok(AwaitWatchStarted(m.requestId, m.resumeFrom))
        else Err(UnexpectedMessage)
      case AwaitProcessStarted(_, _, _) => if m.ProcessStarted? then Started(phase, m) else Err(UnexpectedMessage)
      case AwaitPtyAttached(_, _, _) => if m.PtyAttached? then AttachedPty(phase, m) else Err(UnexpectedMessage)
      case Running(p) => RunningStep(p, m)
      case AwaitDetached(p) => DetachingStep(p, m)
      case AwaitWatchStarted(_, _) => if m.WatchStarted? then WatchBegun(phase, m) else Err(UnexpectedMessage)
      case Watching(w) =>
        if m.WatchStop? then
          if w.watchId != m.watchId then Err(WatchIdMismatch) else Ok(AwaitWatchStopped(w))
        else (match WatchStep(w, m)
              case Err(e) => Err(e)
              case Ok(v) => Ok(Watching(v)))
      case AwaitWatchStopped(w) =>
        if m.WatchStopped? then
          if w.watchId != m.watchId then Err(WatchIdMismatch) else Ok(Closed)
        else (match WatchStep(w, m)
              case Err(e) => Err(e)
              case Ok(v) => Ok(AwaitWatchStopped(v)))
      case Closed => Err(UnexpectedMessage)
  }

  function ActualSender(role: Role, direction: Direction): Role {
    if (role == Client) == (direction == Outbound) then Client else Server
  }

  /** `observe` as a function of the phase it starts from. */
  function Observe(cfg: Config, role: Role, direction: Direction, phase: Phase, m: Message): Result<Phase> {
    if !Valid(m) then Err(InvalidMessage)
    else if Sender(m) != ActualSender(role, direction) then Err(WrongSender)
    else Apply(cfg, phase, m)
  }

  /** The observer object each peer owns. */
  class StateMachine {
    const cfg: Config
    const role: Role
    var phase: Phase

    constructor (role: Role, cfg: Config)
      ensures this.role == role && this.cfg == cfg && phase == AwaitClientHello
    {
      this.role := role;
      this.cfg := cfg;
      phase := AwaitClientHello;
    }

    /** A refused message leaves the phase exactly as it was. */
    method ObserveMessage(direction: Direction, m: Message) returns (error: Option<StateError>)
      modifies this
      ensures error.None? <==> Observe(cfg, role, direction, old(phase), m).Ok?
      ensures error.None? ==> Observe(cfg, role, direction, old(phase), m) == Ok(phase)
      ensures error.Some? ==> phase == old(phase) && Observe(cfg, role, direction, old(phase), m) == Err(error.value)
    {
      if !Valid(m) {
        return Some(InvalidMessage);
      }
      if Sender(m) != ActualSender(role, direction) {
        return Some(WrongSender);
      }
      match Apply(cfg, phase, m) {
        case Err(e) =>
          error := Some(e);
        case Ok(next) =>
          phase := next;
          error := None;
      }
    }
  }

  // ---- facts every user of the protocol needs ------------------------------

  /** The messages of a history, applied one after another. */
  function Replay(cfg: Config, phase: Phase, ms: seq<Message>): Result<Phase>
    decreases |ms|
  {
    if ms == [] then Ok(phase)
    else
      match Apply(cfg, phase, ms[0])
      case Err(e) => Err(e)
      case Ok(next) => Replay(cfg, next, ms[1..])
  }

  lemma {:induction false} ReplayAppend(cfg: Config, phase: Phase, ms: seq<Message>, ns: seq<Message>)
    ensures Replay(cfg, phase, ms + ns) ==
            (match Replay(cfg, phase, ms)
             case Err(e) => Err(e)
             case Ok(mid) => Replay(cfg, mid, ns))
    decreases |ms|
  {
    if ms == [] {
      assert ms + ns == ns;
    } else {
      assert (ms + ns)[1..] == ms[1..] + ns;
      match Apply(cfg, phase, ms[0]) {
        case Err(_) =>
        case Ok(next) => ReplayAppend(cfg, next, ms[1..], ns);
      }
    }
  }
}
