/**
 The agent's runtime server after a process has started
 (crates/nrm-agent/src/runtime.rs): one output worker per stream, an input
 worker, the reader loop, the waiter and the writer, sharing the state machine, the credit
 windows, the output budget and the writer queue.  Every region the source
 runs under one lock, and every atomic access, is one step; steps of different
 threads interleave freely.  Deadlines, queue room, read results and panics are
 chosen by the environment.
 */
module AgentServer {
  import opened Protocol
  import opened ServerMachine
  import opened OutputFlow

  const INPUT_QUEUE_DEPTH: nat := 16

  datatype Termination = NoReason | ByTimeout | ByOutputLimit | ByCancel

  /** Where an output worker is.  `keep` is how much of the chunk the budget allows, `sent` how much has gone. */
  datatype WorkerPc =
    | Idle
    | Reading
    | Holding(chunk: seq<Byte>)
    | Claiming(chunk: seq<Byte>, seen: nat)
    | Claimed(chunk: seq<Byte>, keep: nat)
    | Flagged(chunk: seq<Byte>, keep: nat)
    | Sending(chunk: seq<Byte>, keep: nat, sent: nat)
    | Publishing(chunk: seq<Byte>, keep: nat, sent: nat, offset: U64, length: nat)
    | Finished

  /** `read` and `claimed` are history: all bytes read, and how many of them passed the budget. */
  datatype Worker = Worker(pc: WorkerPc, read: seq<Byte>, claimed: nat, forced: bool, panicked: bool)

  datatype ReaderPc =
    | Listening
    | Refusing
    | Acking(stream: Stream, next: U64)
    | Queuing(command: Option<U64>)
    | Controlling
    | Left
    | Cancelling
    | Ended

  datatype InputPc = Waiting | Writing(next: U64) | Confirming(next: U64) | Gone

  /** `late`: a deadline passed or a worker was abandoned, so output may be missing. */
  datatype WaiterPc =
    | Polling
    | Awaiting(left: set<Stream>)
    | Draining(left: set<Stream>)
    | Stopping(late: bool)
    | Judging(late: bool)
    | Judged(late: bool)
    | Concluding
    | Reasoned(reason: Termination)
    | Settled(reason: Termination, truncated: bool)
    | Reporting
    | Retired

  /**
   `observed` is history: every outbound frame the state machine accepted.
   `wire` is what was queued.  `late` is history: the waiter itself raised the
   truncation flag.
   */
  datatype Agent = Agent(
    pty: bool,
    limit: Option<nat>,
    mach: Machine,
    observed: seq<Frame>,
    wire: seq<Frame>,
    failed: bool,
    flows: PerStream<Flow>,
    total: nat,
    truncated: bool,
    late: bool,
    termination: Termination,
    done: bool,
    workers: PerStream<Worker>,
    reader: ReaderPc,
    inputs: seq<Option<U64>>,
    input: InputPc,
    waiter: WaiterPc)

  function NewWorker(active: bool): Worker {
    Worker(if active then Idle else Finished, [], 0, false, false)
  }

  /** Only piped processes have an output budget. */
  function Launch(pty: bool, limit: nat): Agent {
    Agent(pty, if pty then None else Some(limit), Opening, [], [], false,
          All(Flow(0, 0, false)), 0, false, false, NoReason, false,
          PerStream(NewWorker(!pty), NewWorker(!pty), NewWorker(pty)),
          Listening, [], Waiting, Polling)
  }

  // ---- sending -----------------------------------------------------------------

  /** `RuntimeServer::send`: observe, then enqueue, under one lock.  `room` is whether the queue takes the frame. */
  function Send(st: Agent, f: Frame, room: bool): Agent {
    match SendStep(st.mach, st.pty, f)
    case None => st
    case Some(next) =>
      if room then st.(mach := next, observed := st.observed + [f], wire := st.wire + [f])
      else st.(mach := next, observed := st.observed + [f], failed := true)
  }

  predicate SendSucceeds(st: Agent, f: Frame, room: bool) {
    SendStep(st.mach, st.pty, f).Some? && room
  }

  function SendError(st: Agent, room: bool): Agent {
    Send(st, ErrorFrame, room)
  }

  // ---- output workers ------------------------------------------------------------

  function Minimum(a: nat, b: nat): nat {
    if a < b then a else b
  }

  function PcOf(st: Agent, s: Stream): WorkerPc {
    Get(st.workers, s).pc
  }

  function PutWorker(st: Agent, s: Stream, w: Worker): Agent {
    st.(workers := Set(st.workers, s, w))
  }

  function Goto(st: Agent, s: Stream, pc: WorkerPc): Agent {
    PutWorker(st, s, Get(st.workers, s).(pc := pc))
  }

  function Mark(current: Termination, reason: Termination): Termination {
    if current.NoReason? then reason else current
  }

  // A step that is not enabled changes nothing.

  function WorkerStarts(st: Agent, s: Stream): Agent {
    if PcOf(st, s).Idle? then Goto(st, s, Reading) else st
  }

  function WorkerReads(st: Agent, s: Stream, chunk: seq<Byte>): Agent {
    var w := Get(st.workers, s);
    if w.pc.Reading? && 0 < |chunk| <= MAX_DATA_CHUNK
    then PutWorker(st, s, w.(pc := Holding(chunk), read := w.read + chunk))
    else st
  }

  function WorkerEnds(st: Agent, s: Stream): Agent {
    if PcOf(st, s).Reading? then Goto(st, s, Finished) else st
  }

  function WorkerReadFails(st: Agent, s: Stream, room: bool): Agent {
    if PcOf(st, s).Reading? then Goto(SendError(st, room), s, Finished) else st
  }

  /** The chunk is about to be published: load the shared total, or skip the budget when there is none. */
  function WorkerTakes(st: Agent, s: Stream): Agent {
    var pc := PcOf(st, s);
    if !pc.Holding? then st
    else if st.limit.None? then Goto(st, s, Sending(pc.chunk, |pc.chunk|, 0))
    else Goto(st, s, Claiming(pc.chunk, st.total))
  }

  /** What `reserve_output` may hand out of `limit` when it saw `seen` bytes taken. */
  function Allowance(limit: nat, seen: nat, requested: nat): nat {
    Minimum(if seen < limit then limit - seen else 0, requested)
  }

  function ClaimedWorker(w: Worker, keep: nat): Worker
    requires w.pc.Claiming?
  {
    w.(pc := Claimed(w.pc.chunk, keep), claimed := w.claimed + |w.pc.chunk|)
  }

  /** One round of the compare-exchange loop of `reserve_output`. */
  function WorkerClaims(st: Agent, s: Stream, spurious: bool): Agent {
    var w := Get(st.workers, s);
    if !w.pc.Claiming? || st.limit.None? then st
    else if spurious || w.pc.seen != st.total then PutWorker(st, s, w.(pc := Claiming(w.pc.chunk, st.total)))
    else
      var keep := Allowance(st.limit.value, st.total, |w.pc.chunk|);
      PutWorker(st, s, ClaimedWorker(w, keep)).(total := st.total + keep)
  }

  function WorkerFlags(st: Agent, s: Stream): Agent {
    var pc := PcOf(st, s);
    if !pc.Claimed? then st
    else if pc.keep < |pc.chunk| then Goto(st, s, Flagged(pc.chunk, pc.keep)).(truncated := true)
    else Goto(st, s, Sending(pc.chunk, pc.keep, 0))
  }

  function WorkerMarks(st: Agent, s: Stream): Agent {
    var pc := PcOf(st, s);
    if !pc.Flagged? then st
    else
      Goto(st, s, if pc.keep == 0 then Finished else Sending(pc.chunk, pc.keep, 0))
      .(termination := Mark(st.termination, ByOutputLimit))
  }

  /** What the worker does with the answer of `OutputFlow::reserve`. */
  function WorkerHears(st: Agent, s: Stream, g: Grant, room: bool): Agent
    requires PcOf(st, s).Sending? && (g.Granted? ==> Get(st.flows, s).sent + g.length < U64_LIMIT)
  {
    var pc := PcOf(st, s);
    match g
    case Blocked => st
    case Stopped => Goto(st, s, Finished)
    case NoBytes => Goto(SendError(st, room), s, Finished)
    case Overflow => Goto(SendError(st, room), s, Finished)
    case Granted(offset, length) =>
      Goto(st, s, Publishing(pc.chunk, pc.keep, pc.sent, offset, length))
      .(flows := Set(st.flows, s, Reserved(Get(st.flows, s), g)))
  }

  /** The loop test, then one pass of `OutputFlow::reserve`. */
  function WorkerReserves(st: Agent, s: Stream, room: bool): Agent {
    var pc := PcOf(st, s);
    if !pc.Sending? || pc.sent > pc.keep then st
    else if pc.sent == pc.keep then Goto(st, s, Idle)
    else WorkerHears(st, s, ReserveOutcome(Get(st.flows, s), pc.keep - pc.sent), room)
  }

  function PublishedFrame(s: Stream, pc: WorkerPc): Frame
    requires pc.Publishing? && pc.sent + pc.length <= |pc.chunk|
  {
    OutputFrame(s, pc.offset, pc.chunk[pc.sent..pc.sent + pc.length])
  }

  function WorkerSends(st: Agent, s: Stream, room: bool): Agent {
    var pc := PcOf(st, s);
    if !pc.Publishing? || pc.sent + pc.length > |pc.chunk| then st
    else
      var f := PublishedFrame(s, pc);
      Goto(Send(st, f, room), s,
           if SendSucceeds(st, f, room) then Sending(pc.chunk, pc.keep, pc.sent + pc.length) else Finished)
  }

  /** A worker that sees `force_stop` where it tests it. */
  function WorkerQuits(st: Agent, s: Stream): Agent {
    var w := Get(st.workers, s);
    if w.forced && (w.pc.Idle? || w.pc.Reading? || w.pc.Holding? || w.pc.Sending?) then Goto(st, s, Finished) else st
  }

  function WorkerPanics(st: Agent, s: Stream): Agent {
    var w := Get(st.workers, s);
    if w.pc.Finished? then st else PutWorker(st, s, w.(pc := Finished, panicked := true))
  }

  // ---- the reader loop ---------------------------------------------------------------

  function AfterArrival(a: Arrival): ReaderPc {
    match a
    case ArrivedInput(offset, length) => if offset + length < U64_LIMIT then Queuing(Some(offset + length)) else Left
    case ArrivedClose(_) => Queuing(None)
    case ArrivedAck(s, n) => Acking(s, n)
    case _ => Controlling
  }

  function ReaderReceives(st: Agent, a: Arrival): Agent {
    if !st.reader.Listening? then st
    else
      match ReceiveStep(st.mach, st.pty, a)
      case None => st.(reader := Refusing)
      case Some(next) => st.(mach := next, reader := AfterArrival(a))
  }

  function ReaderRefuses(st: Agent, room: bool): Agent {
    if st.reader.Refusing? then SendError(st, room).(reader := Left) else st
  }

  function ReaderAcknowledges(st: Agent): Agent {
    if !st.reader.Acking? then st
    else
      var s := st.reader.stream;
      if AckFits(Get(st.flows, s), st.reader.next)
      then st.(flows := Set(st.flows, s, Get(st.flows, s).(acked := st.reader.next)), reader := Listening)
      else st.(reader := Left)
  }

  function ReaderQueues(st: Agent, room: bool): Agent {
    if !st.reader.Queuing? then st
    else if !st.input.Gone? && |st.inputs| < INPUT_QUEUE_DEPTH
    then st.(inputs := st.inputs + [st.reader.command], reader := Listening)
    else SendError(st, room).(reader := if SendSucceeds(st, ErrorFrame, room) then Listening else Left)
  }

  /** A resize or signal, applied or failed. */
  function ReaderControls(st: Agent, ok: bool, room: bool): Agent {
    if !st.reader.Controlling? then st
    else if ok then st.(reader := Listening)
    else SendError(st, room).(reader := Left)
  }

  /** `Detach` addressed to this process is answered with an error before it is observed. */
  function ReaderDetaches(st: Agent, room: bool): Agent {
    if st.reader.Listening? then SendError(st, room).(reader := Left) else st
  }

  /** End of input, or `done` seen where the loop tests it. */
  function ReaderLeaves(st: Agent): Agent {
    if st.reader.Listening? || st.reader.Refusing? then st.(reader := Left) else st
  }

  /** After the loop: was the process done?  If not, the reader is going to cancel it. */
  function ReaderLooks(st: Agent): Agent {
    if st.reader.Left? then st.(reader := if st.done then Ended else Cancelling) else st
  }

  function Cancels(st: Agent): Agent {
    if st.reader.Cancelling? then st.(termination := Mark(st.termination, ByCancel), reader := Ended) else st
  }

  // ---- the input worker -----------------------------------------------------------------

  function InputFetches(st: Agent): Agent {
    if !st.input.Waiting? || st.inputs == [] then st
    else st.(inputs := st.inputs[1..], input := if st.inputs[0].Some? then Writing(st.inputs[0].value) else Gone)
  }

  /** The write of a piece; it may fail, and so may the preparation before the first piece is there. */
  function InputWrites(st: Agent, ok: bool, room: bool): Agent {
    if ok then if st.input.Writing? then st.(input := Confirming(st.input.next)) else st
    else if st.input.Writing? || st.input.Waiting? then SendError(st, room).(input := Gone)
    else st
  }

  function InputConfirms(st: Agent, room: bool): Agent {
    if !st.input.Confirming? then st
    else
      var f := InputAckFrame(st.input.next);
      Send(st, f, room).(input := if SendSucceeds(st, f, room) then Waiting else Gone)
  }

  function InputAbandons(st: Agent): Agent {
    st.(input := Gone)
  }

  // ---- the waiter --------------------------------------------------------------------------

  function StatusOf(reason: Termination, natural: ExitStatus): ExitStatus {
    match reason
    case ByTimeout => TimedOut
    case ByOutputLimit => OutputLimit
    case ByCancel => Cancelled
    case NoReason => natural
  }

  predicate AllFinished(st: Agent) {
    st.workers.stdout.pc.Finished? && st.workers.stderr.pc.Finished? && st.workers.pty.pc.Finished?
  }

  predicate AnyPanicked(st: Agent) {
    st.workers.stdout.panicked || st.workers.stderr.panicked || st.workers.pty.panicked
  }

  const EveryStream: set<Stream> := {Stdout, Stderr, Pty}

  function WaiterTimesOut(st: Agent): Agent {
    if st.waiter.Polling? then st.(termination := Mark(st.termination, ByTimeout)) else st
  }

  function WaiterSeesExit(st: Agent): Agent {
    if st.waiter.Polling? then st.(waiter := Awaiting(EveryStream)) else st
  }

  function WaiterJoins(st: Agent, s: Stream): Agent {
    if st.waiter.Awaiting? && PcOf(st, s).Finished? then st.(waiter := Awaiting(st.waiter.left - {s})) else st
  }

  /** The drain deadline passes before all workers are seen finished. */
  function WaiterExpires(st: Agent): Agent {
    if st.waiter.Awaiting? && st.waiter.left != {} then st.(waiter := Stopping(true)) else st
  }

  function WaiterProceeds(st: Agent): Agent {
    if st.waiter.Awaiting? && st.waiter.left == {} then
      st.(waiter := if st.failed then Stopping(false) else Draining(EveryStream))
    else if st.waiter.Draining? && st.waiter.left == {} then st.(waiter := Stopping(false))
    else st
  }

  /** One flow is found drained; the flows are visited one at a time. */
  function WaiterSeesDrained(st: Agent, s: Stream): Agent {
    if st.waiter.Draining? && Drained(Get(st.flows, s)) then st.(waiter := Draining(st.waiter.left - {s})) else st
  }

  function WaiterGivesUp(st: Agent): Agent {
    if st.waiter.Draining? && st.waiter.left != {} then st.(waiter := Stopping(true)) else st
  }

  function WaiterStops(st: Agent, s: Stream): Agent {
    if st.waiter.Stopping? then st.(flows := Set(st.flows, s, Get(st.flows, s).(stopped := true))) else st
  }

  function WaiterForces(st: Agent, s: Stream): Agent {
    if st.waiter.Stopping? && !PcOf(st, s).Finished?
    then PutWorker(st, s, Get(st.workers, s).(forced := true)) else st
  }

  /** Workers are joined or abandoned, and `done` is set. */
  function WaiterCloses(st: Agent, abandoned: bool): Agent {
    if st.waiter.Stopping? && (abandoned || AllFinished(st))
    then st.(done := true, waiter := Judging(st.waiter.late || abandoned)) else st
  }

  function WaiterChecksFailure(st: Agent): Agent {
    if !st.waiter.Judging? then st
    else st.(waiter := if st.failed then Retired else Judged(st.waiter.late))
  }

  function WaiterDecides(st: Agent, statusOk: bool): Agent {
    if !st.waiter.Judged? then st
    else if st.waiter.late then st.(truncated := true, late := true, waiter := Reporting)
    else st.(waiter := if AnyPanicked(st) || !statusOk then Reporting else Concluding)
  }

  function WaiterLoadsReason(st: Agent): Agent {
    if st.waiter.Concluding? then st.(waiter := Reasoned(st.termination)) else st
  }

  function WaiterLoadsFlag(st: Agent): Agent {
    if st.waiter.Reasoned? then st.(waiter := Settled(st.waiter.reason, st.truncated)) else st
  }

  function WaiterReports(st: Agent, natural: ExitStatus, room: bool): Agent {
    if st.waiter.Reporting? then SendError(st, room).(waiter := Retired)
    else if st.waiter.Settled? && (natural.Code? || natural.Signalled?) then
      Send(st, ExitedFrame(StatusOf(st.waiter.reason, natural), st.waiter.truncated), room).(waiter := Retired)
    else st
  }

  // ---- the writer thread -------------------------------------------------------------------------

  /** Writing a frame failed, and the thread records it.  Whether later frames find room stays a free choice. */
  function WriterFails(st: Agent): Agent {
    st.(failed := true)
  }

  // ---- runs ------------------------------------------------------------------------------------

  datatype WorkerAction =
    | Starts
    | Reads(chunk: seq<Byte>)
    | Ends
    | ReadFails(room: bool)
    | Takes
    | Claims(spurious: bool)
    | Flags
    | Marks
    | Reserves(room: bool)
    | Sends(room: bool)
    | Quits
    | Panics

  datatype ReaderAction =
    | Receives(arrival: Arrival)
    | Refuses(room: bool)
    | Acknowledges
    | Queues(room: bool)
    | Controls(ok: bool, room: bool)
    | Detaches(room: bool)
    | Leaves
    | Looks
    | CancelsProcess

  datatype InputAction = Fetches | Writes(ok: bool, room: bool) | Confirms(room: bool) | Abandons

  datatype WaiterAction =
    | TimesOut
    | SeesExit
    | Joins(s: Stream)
    | Expires
    | Proceeds
    | SeesDrained(s: Stream)
    | GivesUp
    | Stops(s: Stream)
    | Forces(s: Stream)
    | Closes(abandoned: bool)
    | ChecksFailure
    | Decides(statusOk: bool)
    | LoadsReason
    | LoadsFlag
    | Reports(natural: ExitStatus, room: bool)

  datatype Action =
    | ByWorker(s: Stream, worker: WorkerAction)
    | ByReader(reader: ReaderAction)
    | ByInput(input: InputAction)
    | ByWaiter(waiter: WaiterAction)
    | ByWriter

  function WorkerStep(st: Agent, s: Stream, a: WorkerAction): Agent {
    match a
    case Starts => WorkerStarts(st, s)
    case Reads(chunk) => WorkerReads(st, s, chunk)
    case Ends => WorkerEnds(st, s)
    case ReadFails(room) => WorkerReadFails(st, s, room)
    case Takes => WorkerTakes(st, s)
    case Claims(spurious) => WorkerClaims(st, s, spurious)
    case Flags => WorkerFlags(st, s)
    case Marks => WorkerMarks(st, s)
    case Reserves(room) => WorkerReserves(st, s, room)
    case Sends(room) => WorkerSends(st, s, room)
    case Quits => WorkerQuits(st, s)
    case Panics => WorkerPanics(st, s)
  }

  function ReaderStep(st: Agent, a: ReaderAction): Agent {
    match a
    case Receives(arrival) => ReaderReceives(st, arrival)
    case Refuses(room) => ReaderRefuses(st, room)
    case Acknowledges => ReaderAcknowledges(st)
    case Queues(room) => ReaderQueues(st, room)
    case Controls(ok, room) => ReaderControls(st, ok, room)
    case Detaches(room) => ReaderDetaches(st, room)
    case Leaves => ReaderLeaves(st)
    case Looks => ReaderLooks(st)
    case CancelsProcess => Cancels(st)
  }

  function InputStep(st: Agent, a: InputAction): Agent {
    match a
    case Fetches => InputFetches(st)
    case Writes(ok, room) => InputWrites(st, ok, room)
    case Confirms(room) => InputConfirms(st, room)
    case Abandons => InputAbandons(st)
  }

  function WaiterStep(st: Agent, a: WaiterAction): Agent {
    match a
    case TimesOut => WaiterTimesOut(st)
    case SeesExit => WaiterSeesExit(st)
    case Joins(s) => WaiterJoins(st, s)
    case Expires => WaiterExpires(st)
    case Proceeds => WaiterProceeds(st)
    case SeesDrained(s) => WaiterSeesDrained(st, s)
    case GivesUp => WaiterGivesUp(st)
    case Stops(s) => WaiterStops(st, s)
    case Forces(s) => WaiterForces(st, s)
    case Closes(abandoned) => WaiterCloses(st, abandoned)
    case ChecksFailure => WaiterChecksFailure(st)
    case Decides(statusOk) => WaiterDecides(st, statusOk)
    case LoadsReason => WaiterLoadsReason(st)
    case LoadsFlag => WaiterLoadsFlag(st)
    case Reports(natural, room) => WaiterReports(st, natural, room)
  }

  function Step(st: Agent, a: Action): Agent {
    match a
    case ByWorker(s, w) => WorkerStep(st, s, w)
    case ByReader(r) => ReaderStep(st, r)
    case ByInput(i) => InputStep(st, i)
    case ByWaiter(w) => WaiterStep(st, w)
    case ByWriter => WriterFails(st)
  }

  /** Any interleaving of any length. */
  function Run(st: Agent, actions: seq<Action>): Agent
    decreases |actions|
  {
    if actions == [] then st else Run(Step(st, actions[0]), actions[1..])
  }
}
