/**
 What every interleaving keeps for one output stream of the agent's server:
 the credit window, its agreement with the state machine, and the account of
 every byte the stream's worker has read.
 */
module AgentServerStreams {
  import opened Protocol
  import opened ServerMachine
  import opened OutputFlow
  import opened AgentServer

  /** The bytes of a stream carried by a sequence of frames. */
  function Published(wire: seq<Frame>, s: Stream): seq<Byte> {
    if wire == [] then []
    else
      var f := wire[|wire| - 1];
      Published(wire[..|wire| - 1], s) + (if f.OutputFrame? && f.stream == s then f.data else [])
  }

  lemma PublishedAppend(wire: seq<Frame>, f: Frame, s: Stream)
    ensures Published(wire + [f], s) == Published(wire, s) + (if f.OutputFrame? && f.stream == s then f.data else [])
  {
    assert (wire + [f])[..|wire|] == wire;
  }

  /** One stream as seen across all the threads; `offsets` is what the machine remembers while it is open. */
  datatype View = View(
    flow: Flow,
    worker: Worker,
    acking: Option<U64>,
    offsets: Option<Offsets>,
    published: seq<Byte>,
    truncated: bool,
    spent: bool,
    failed: bool)

  /** The budget is used up and the loss admitted. */
  predicate Spent(st: Agent) {
    st.truncated && st.limit.Some? && st.total >= st.limit.value
  }

  function ViewOf(st: Agent, s: Stream): View {
    View(Get(st.flows, s), Get(st.workers, s),
         if st.reader.Acking? && st.reader.stream == s then Some(st.reader.next) else None,
         if st.mach.Open? then Some(Get(st.mach.out, s)) else None,
         Published(st.wire, s), st.truncated,
         Spent(st), st.failed)
  }

  ghost predicate PcOk(pc: WorkerPc) {
    match pc
    case Holding(c) => 0 < |c| <= MAX_DATA_CHUNK
    case Claiming(c, _) => 0 < |c| <= MAX_DATA_CHUNK
    case Claimed(c, keep) => keep <= |c| && 0 < |c| <= MAX_DATA_CHUNK
    case Flagged(c, keep) => keep < |c| <= MAX_DATA_CHUNK
    case Sending(c, keep, sent) => sent <= keep <= |c| <= MAX_DATA_CHUNK
    case Publishing(c, keep, sent, offset, length) =>
      0 < length && sent + length <= keep <= |c| <= MAX_DATA_CHUNK && offset + length < U64_LIMIT
    case _ => true
  }

  /** What of the chunk in hand is still owed to the wire if nothing has been dropped. */
  function Owed(pc: WorkerPc): seq<Byte>
    requires PcOk(pc)
  {
    match pc
    case Holding(c) => c
    case Claiming(c, _) => c
    case Claimed(c, _) => c
    case Flagged(c, keep) => c[..keep]
    case Sending(c, keep, sent) => c[sent..keep]
    case Publishing(c, keep, sent, _, _) => c[sent..keep]
    case _ => []
  }

  /** What of it will still be sent once the budget is spent. */
  function StillDue(pc: WorkerPc): seq<Byte>
    requires PcOk(pc)
  {
    if pc.Holding? || pc.Claiming? || pc.Claimed? then [] else Owed(pc)
  }

  ghost predicate WindowOk(v: View) {
    && InWindow(v.flow)
    && (v.worker.pc.Publishing? ==> v.flow.sent == v.worker.pc.offset + v.worker.pc.length)
    && (v.acking.Some? ==> v.flow.acked <= v.acking.value <= v.flow.sent)
  }

  ghost predicate MachineOk(v: View) {
    v.offsets.Some? ==>
      var o := v.offsets.value;
      && o.acked == (if v.acking.Some? then v.acking.value else v.flow.acked)
      && v.flow.acked <= o.acked <= o.next <= v.flow.sent
      && (v.worker.pc.Publishing? ==> o.next == v.worker.pc.offset)
      && (!v.worker.pc.Publishing? && !v.worker.pc.Finished? ==> o.next == v.flow.sent)
      && (!v.worker.pc.Finished? ==> |v.published| == o.next)
  }

  /** Until a worker finishes, what is on the wire and what it owes is what it read, unless the budget cut it off. */
  ghost predicate Accounted(v: View)
    requires PcOk(v.worker.pc)
  {
    || v.published + Owed(v.worker.pc) == v.worker.read
    || (v.spent && v.published + StillDue(v.worker.pc) <= v.worker.read
        && (v.worker.pc.Claimed? ==> v.worker.pc.keep == 0))
  }

  ghost predicate LossExcused(v: View) {
    || v.published == v.worker.read
    || v.truncated || v.offsets.None? || v.failed
    || v.worker.panicked || v.worker.forced || v.flow.stopped
  }

  ghost predicate ViewOk(v: View) {
    && PcOk(v.worker.pc)
    && WindowOk(v) && MachineOk(v)
    && (!v.worker.pc.Finished? ==> Accounted(v) && !v.worker.panicked)
    && (v.worker.pc.Finished? ==> v.published <= v.worker.read && LossExcused(v))
    && (v.spent ==> v.truncated)
  }

  /** Flags are only ever raised, and a finished worker's stream is final except for its acknowledgements. */
  ghost predicate Evolves(v: View, u: View) {
    && (v.truncated ==> u.truncated) && (v.spent ==> u.spent) && (v.failed ==> u.failed)
    && (v.offsets.None? ==> u.offsets.None?)
    && v.flow.acked <= u.flow.acked
    && (v.worker.pc.Finished? ==>
          && u.worker == v.worker && u.published == v.published && u.flow.sent == v.flow.sent)
  }

  /** Flags a view reads from another thread's step on the rest of the state. */
  ghost predicate Undisturbed(v: View, u: View) {
    && u.flow == v.flow && u.worker == v.worker && u.acking == v.acking && u.published == v.published
    && (u.offsets == v.offsets || u.offsets.None?)
    && (v.truncated ==> u.truncated) && (v.spent ==> u.spent) && (v.failed ==> u.failed)
    && (u.spent ==> u.truncated)
  }

  lemma UndisturbedKeeps(v: View, u: View)
    requires ViewOk(v) && Undisturbed(v, u)
    ensures ViewOk(u) && Evolves(v, u)
  {
  }

  ghost predicate StreamsOk(st: Agent) {
    forall s :: ViewOk(ViewOf(st, s))
  }

  /** The whole of one step, for every stream. */
  ghost predicate StepOk(st: Agent, next: Agent) {
    forall s :: ViewOk(ViewOf(next, s)) && Evolves(ViewOf(st, s), ViewOf(next, s))
  }

  lemma LaunchOk(pty: bool, limit: nat)
    ensures StreamsOk(Launch(pty, limit))
  {
  }

  // ---- steps that only raise flags, close the machine or move other threads -----------------------

  ghost predicate Quiet(st: Agent, next: Agent) {
    forall s :: Undisturbed(ViewOf(st, s), ViewOf(next, s))
  }

  lemma QuietStep(st: Agent, next: Agent)
    requires StreamsOk(st) && Quiet(st, next)
    ensures StepOk(st, next)
  {
    forall s ensures ViewOk(ViewOf(next, s)) && Evolves(ViewOf(st, s), ViewOf(next, s)) {
      UndisturbedKeeps(ViewOf(st, s), ViewOf(next, s));
    }
  }

  // ---- changing one stream -------------------------------------------------------------------------

  lemma GetSet<T>(p: PerStream<T>, s: Stream, v: T, t: Stream)
    ensures Get(Set(p, s, v), t) == if t == s then v else Get(p, t)
  {
  }

  /** A step that only touches stream `s` is judged on that stream alone. */
  lemma OneStream(st: Agent, next: Agent, s: Stream)
    requires StreamsOk(st)
    requires ViewOk(ViewOf(next, s)) && Evolves(ViewOf(st, s), ViewOf(next, s))
    requires forall t :: t != s ==> Undisturbed(ViewOf(st, t), ViewOf(next, t))
    ensures StepOk(st, next)
  {
    forall t ensures ViewOk(ViewOf(next, t)) && Evolves(ViewOf(st, t), ViewOf(next, t)) {
      if t != s {
        UndisturbedKeeps(ViewOf(st, t), ViewOf(next, t));
      }
    }
  }

  /** The worker of one stream moves, possibly with its flow and the shared flags. */
  lemma WorkerMoves(st: Agent, next: Agent, s: Stream, w: Worker, f: Flow)
    requires StreamsOk(st)
    requires next.workers == Set(st.workers, s, w) && next.flows == Set(st.flows, s, f)
    requires next.reader == st.reader && next.mach == st.mach && next.wire == st.wire && next.limit == st.limit
    requires st.total <= next.total && (st.truncated ==> next.truncated) && (st.failed ==> next.failed)
    requires var v := ViewOf(st, s);
             var u := v.(worker := w, flow := f, truncated := next.truncated, failed := next.failed, spent := Spent(next));
             ViewOk(u) && Evolves(v, u)
    ensures StepOk(st, next)
  {
    MovedView(st, next, s, w, f, s);
    forall t | t != s ensures Undisturbed(ViewOf(st, t), ViewOf(next, t)) {
      MovedView(st, next, s, w, f, t);
    }
    OneStream(st, next, s);
  }

  lemma MovedView(st: Agent, next: Agent, s: Stream, w: Worker, f: Flow, t: Stream)
    requires next.workers == Set(st.workers, s, w) && next.flows == Set(st.flows, s, f)
    requires next.reader == st.reader && next.mach == st.mach && next.wire == st.wire
    ensures ViewOf(next, t) == ViewOf(st, t).(worker := if t == s then w else Get(st.workers, t),
                                              flow := if t == s then f else Get(st.flows, t),
                                              truncated := next.truncated, failed := next.failed, spent := Spent(next))
  {
    GetSet(st.workers, s, w, t);
    GetSet(st.flows, s, f, t);
  }

  lemma SetSame<T>(p: PerStream<T>, s: Stream)
    ensures Set(p, s, Get(p, s)) == p
  {
  }

  /** The same, when only the worker changes. */
  lemma OnlyWorkerMoves(st: Agent, s: Stream, w: Worker)
    requires StreamsOk(st)
    requires ViewOk(ViewOf(st, s).(worker := w)) && Evolves(ViewOf(st, s), ViewOf(st, s).(worker := w))
    ensures StepOk(st, PutWorker(st, s, w))
  {
    SetSame(st.flows, s);
    WorkerMoves(st, PutWorker(st, s, w), s, w, Get(st.flows, s));
  }

  lemma NothingMoves(st: Agent)
    requires StreamsOk(st)
    ensures StepOk(st, st)
  {
    QuietStep(st, st);
  }

  // ---- output workers ----------------------------------------------------------------------------

  lemma StartsOk(st: Agent, s: Stream)
    requires StreamsOk(st)
    ensures StepOk(st, WorkerStarts(st, s))
  {
    var v := ViewOf(st, s);
    if v.worker.pc.Idle? {
      OnlyWorkerMoves(st, s, v.worker.(pc := Reading));
    } else {
      NothingMoves(st);
    }
  }

  lemma ReadingGrows(v: View, chunk: seq<Byte>)
    requires ViewOk(v) && v.worker.pc.Reading? && 0 < |chunk| <= MAX_DATA_CHUNK
    ensures var u := v.(worker := v.worker.(pc := Holding(chunk), read := v.worker.read + chunk));
            ViewOk(u) && Evolves(v, u)
  {
    assert v.published + [] == v.published;
    if v.published != v.worker.read {
      assert v.published <= v.worker.read + chunk;
    }
  }

  lemma ReadsOk(st: Agent, s: Stream, chunk: seq<Byte>)
    requires StreamsOk(st)
    ensures StepOk(st, WorkerReads(st, s, chunk))
  {
    var v := ViewOf(st, s);
    if v.worker.pc.Reading? && 0 < |chunk| <= MAX_DATA_CHUNK {
      ReadingGrows(v, chunk);
      OnlyWorkerMoves(st, s, v.worker.(pc := Holding(chunk), read := v.worker.read + chunk));
    } else {
      NothingMoves(st);
    }
  }

  /** A worker may finish with nothing in hand, or with its loss excused. */
  lemma MayFinish(v: View)
    requires ViewOk(v) && !v.worker.pc.Finished?
    requires v.worker.pc.Idle? || v.worker.pc.Reading? || LossExcused(v)
    ensures var u := v.(worker := v.worker.(pc := Finished));
            ViewOk(u) && Evolves(v, u)
  {
    var owed := Owed(v.worker.pc);
    if v.published + owed == v.worker.read {
      assert v.published <= v.published + owed;
      assert owed == [] ==> v.published == v.worker.read;
    } else {
      assert v.published <= v.published + StillDue(v.worker.pc) <= v.worker.read;
    }
  }

  lemma FinishesOk(st: Agent, s: Stream)
    requires StreamsOk(st) && !PcOf(st, s).Finished?
    requires PcOf(st, s).Idle? || PcOf(st, s).Reading? || LossExcused(ViewOf(st, s))
    ensures StepOk(st, Goto(st, s, Finished))
  {
    var v := ViewOf(st, s);
    MayFinish(v);
    OnlyWorkerMoves(st, s, v.worker.(pc := Finished));
  }

  lemma EndsOk(st: Agent, s: Stream)
    requires StreamsOk(st)
    ensures StepOk(st, WorkerEnds(st, s))
  {
    if PcOf(st, s).Reading? {
      FinishesOk(st, s);
    } else {
      NothingMoves(st);
    }
  }

  lemma ErrorShuts(st: Agent, room: bool)
    ensures SendError(st, room).mach.Shut?
    ensures SendError(st, room).workers == st.workers && SendError(st, room).flows == st.flows
  {
  }

  lemma TakesOk(st: Agent, s: Stream)
    requires StreamsOk(st)
    ensures StepOk(st, WorkerTakes(st, s))
  {
    var v := ViewOf(st, s);
    if !v.worker.pc.Holding? {
      NothingMoves(st);
    } else {
      var c := v.worker.pc.chunk;
      if st.limit.None? {
        assert c[0..|c|] == c;
        OnlyWorkerMoves(st, s, v.worker.(pc := Sending(c, |c|, 0)));
      } else {
        OnlyWorkerMoves(st, s, v.worker.(pc := Claiming(c, st.total)));
      }
    }
  }

  lemma ClaimKeepsView(v: View, w: Worker, spent: bool)
    requires ViewOk(v) && v.worker.pc.Claiming?
    requires w.pc.Claimed? && w.pc.chunk == v.worker.pc.chunk && w.pc.keep <= |w.pc.chunk|
    requires w == v.worker.(pc := w.pc, claimed := w.claimed)
    requires v.spent ==> w.pc.keep == 0
    requires (v.spent ==> spent) && (spent ==> v.truncated)
    ensures ViewOk(v.(worker := w, spent := spent)) && Evolves(v, v.(worker := w, spent := spent))
  {
  }

  lemma ClaimSucceeds(st: Agent, s: Stream, keep: nat)
    requires StreamsOk(st) && PcOf(st, s).Claiming? && st.limit.Some?
    requires keep <= |PcOf(st, s).chunk| && (st.total >= st.limit.value ==> keep == 0)
    ensures StepOk(st, PutWorker(st, s, ClaimedWorker(Get(st.workers, s), keep)).(total := st.total + keep))
  {
    var v := ViewOf(st, s);
    var w := ClaimedWorker(v.worker, keep);
    SetSame(st.flows, s);
    ClaimKeepsView(v, w, st.truncated && st.total + keep >= st.limit.value);
    WorkerMoves(st, PutWorker(st, s, w).(total := st.total + keep), s, w, v.flow);
  }

  lemma ClaimsOk(st: Agent, s: Stream, spurious: bool)
    requires StreamsOk(st)
    ensures StepOk(st, WorkerClaims(st, s, spurious))
  {
    var w := Get(st.workers, s);
    if !w.pc.Claiming? || st.limit.None? {
      NothingMoves(st);
    } else if spurious || w.pc.seen != st.total {
      ReclaimKeepsView(ViewOf(st, s), st.total);
      OnlyWorkerMoves(st, s, w.(pc := Claiming(w.pc.chunk, st.total)));
    } else {
      ClaimSucceeds(st, s, Allowance(st.limit.value, st.total, |w.pc.chunk|));
    }
  }

  lemma ReclaimKeepsView(v: View, seen: nat)
    requires ViewOk(v) && v.worker.pc.Claiming?
    ensures var u := v.(worker := v.worker.(pc := Claiming(v.worker.pc.chunk, seen)));
            ViewOk(u) && Evolves(v, u)
  {
  }

  lemma FlagKeepsView(v: View)
    requires ViewOk(v) && v.worker.pc.Claimed? && v.worker.pc.keep < |v.worker.pc.chunk|
    ensures var u := v.(worker := v.worker.(pc := Flagged(v.worker.pc.chunk, v.worker.pc.keep)), truncated := true, spent := true);
            ViewOk(u) && Evolves(v, u)
  {
    var c, keep := v.worker.pc.chunk, v.worker.pc.keep;
    if v.published + c == v.worker.read {
      assert c == c[..keep] + c[keep..];
      assert v.published + c[..keep] <= v.worker.read;
    } else {
      assert v.published + c[..0] == v.published + [];
    }
  }

  /** A chunk the budget cuts short is flagged; the budget is spent by then. */
  lemma FlagsOk(st: Agent, s: Stream)
    requires StreamsOk(st)
    requires PcOf(st, s).Claimed? && PcOf(st, s).keep < |PcOf(st, s).chunk| ==>
               st.limit.Some? && st.total >= st.limit.value
    ensures StepOk(st, WorkerFlags(st, s))
  {
    var v := ViewOf(st, s);
    var pc := v.worker.pc;
    if !pc.Claimed? {
      NothingMoves(st);
    } else if pc.keep < |pc.chunk| {
      FlagKeepsView(v);
      SetSame(st.flows, s);
      WorkerMoves(st, WorkerFlags(st, s), s, v.worker.(pc := Flagged(pc.chunk, pc.keep)), Get(st.flows, s));
    } else {
      assert pc.chunk[0..pc.keep] == pc.chunk;
      OnlyWorkerMoves(st, s, v.worker.(pc := Sending(pc.chunk, pc.keep, 0)));
    }
  }

  /** Only the worker and the reason for ending move. */
  lemma ReasonedMove(st: Agent, s: Stream, w: Worker, reason: Termination)
    requires StreamsOk(st)
    requires ViewOk(ViewOf(st, s).(worker := w)) && Evolves(ViewOf(st, s), ViewOf(st, s).(worker := w))
    ensures StepOk(st, PutWorker(st, s, w).(termination := reason))
  {
    SetSame(st.flows, s);
    WorkerMoves(st, PutWorker(st, s, w).(termination := reason), s, w, Get(st.flows, s));
  }

  /** A cut-off chunk ends the worker, or is sent as far as it was kept. */
  lemma MarkedView(v: View, w: Worker)
    requires ViewOk(v) && v.worker.pc.Flagged? && v.truncated
    requires var pc := v.worker.pc;
             w == v.worker.(pc := if pc.keep == 0 then Finished else Sending(pc.chunk, pc.keep, 0))
    ensures ViewOk(v.(worker := w)) && Evolves(v, v.(worker := w))
  {
    if v.worker.pc.keep == 0 {
      MayFinish(v);
    } else {
      FlaggedSends(v);
    }
  }

  lemma MarksOk(st: Agent, s: Stream)
    requires StreamsOk(st)
    requires PcOf(st, s).Flagged? ==> st.truncated
    ensures StepOk(st, WorkerMarks(st, s))
  {
    var v := ViewOf(st, s);
    var pc := v.worker.pc;
    if !pc.Flagged? {
      NothingMoves(st);
    } else {
      var w := v.worker.(pc := if pc.keep == 0 then Finished else Sending(pc.chunk, pc.keep, 0));
      MarkedView(v, w);
      ReasonedMove(st, s, w, Mark(st.termination, ByOutputLimit));
    }
  }

  lemma FlaggedSends(v: View)
    requires ViewOk(v) && v.worker.pc.Flagged?
    ensures var u := v.(worker := v.worker.(pc := Sending(v.worker.pc.chunk, v.worker.pc.keep, 0)));
            ViewOk(u) && Evolves(v, u)
  {
    assert v.worker.pc.chunk[0..v.worker.pc.keep] == v.worker.pc.chunk[..v.worker.pc.keep];
  }

  lemma GrantKeepsView(v: View, g: Grant)
    requires ViewOk(v) && v.worker.pc.Sending? && v.worker.pc.sent < v.worker.pc.keep
    requires g == ReserveOutcome(v.flow, v.worker.pc.keep - v.worker.pc.sent) && g.Granted?
    ensures var pc := v.worker.pc;
            var u := v.(worker := v.worker.(pc := Publishing(pc.chunk, pc.keep, pc.sent, g.offset, g.length)),
                        flow := Reserved(v.flow, g));
            ViewOk(u) && Evolves(v, u)
  {
    ReserveKeepsWindow(v.flow, v.worker.pc.keep - v.worker.pc.sent);
  }

  lemma GrantOk(st: Agent, s: Stream, g: Grant)
    requires StreamsOk(st) && PcOf(st, s).Sending? && PcOf(st, s).sent < PcOf(st, s).keep
    requires g == ReserveOutcome(Get(st.flows, s), PcOf(st, s).keep - PcOf(st, s).sent) && g.Granted?
    ensures var pc := PcOf(st, s);
            StepOk(st, Goto(st, s, Publishing(pc.chunk, pc.keep, pc.sent, g.offset, g.length))
                       .(flows := Set(st.flows, s, Reserved(Get(st.flows, s), g))))
  {
    var v, pc := ViewOf(st, s), PcOf(st, s);
    GrantKeepsView(v, g);
    WorkerMoves(st,
                Goto(st, s, Publishing(pc.chunk, pc.keep, pc.sent, g.offset, g.length))
                .(flows := Set(st.flows, s, Reserved(Get(st.flows, s), g))),
                s, v.worker.(pc := Publishing(pc.chunk, pc.keep, pc.sent, g.offset, g.length)), Reserved(v.flow, g));
  }

  lemma LoopsOk(st: Agent, s: Stream)
    requires StreamsOk(st) && PcOf(st, s).Sending? && PcOf(st, s).sent == PcOf(st, s).keep
    ensures StepOk(st, Goto(st, s, Idle))
  {
    var v := ViewOf(st, s);
    assert PcOk(v.worker.pc);
    assert v.worker.pc.chunk[v.worker.pc.sent..v.worker.pc.keep] == [];
    OnlyWorkerMoves(st, s, v.worker.(pc := Idle));
  }

  /** Putting the granted piece on the wire moves it from owed to published. */
  lemma PublishKeepsView(v: View, data: seq<Byte>)
    requires ViewOk(v) && v.worker.pc.Publishing? && v.offsets.Some?
    requires data == v.worker.pc.chunk[v.worker.pc.sent..v.worker.pc.sent + v.worker.pc.length]
    ensures var pc := v.worker.pc;
            var u := v.(worker := v.worker.(pc := Sending(pc.chunk, pc.keep, pc.sent + pc.length)),
                        published := v.published + data,
                        offsets := Some(v.offsets.value.(next := pc.offset + pc.length)));
            ViewOk(u) && Evolves(v, u)
  {
    var pc := v.worker.pc;
    var rest := pc.chunk[pc.sent + pc.length..pc.keep];
    assert pc.chunk[pc.sent..pc.keep] == data + rest;
    assert v.published + (data + rest) == (v.published + data) + rest;
  }

  lemma ObserveKeepsView(v: View)
    requires ViewOk(v) && v.worker.pc.Publishing? && v.offsets.Some?
    ensures var pc := v.worker.pc;
            var u := v.(worker := v.worker.(pc := Finished), failed := true,
                        offsets := Some(v.offsets.value.(next := pc.offset + pc.length)));
            ViewOk(u) && Evolves(v, u)
  {
    MayFinish(v.(failed := true));
  }

  /** One output frame of stream `s` was observed and, with room, queued. */
  ghost predicate OutputObserved(st: Agent, next: Agent, s: Stream, f: Frame, w: Worker, o: Offsets, room: bool)
    requires st.mach.Open?
  {
    && f.OutputFrame? && f.stream == s
    && next == st.(mach := st.mach.(out := Set(st.mach.out, s, o)), observed := next.observed,
                   workers := Set(st.workers, s, w),
                   wire := if room then st.wire + [f] else st.wire,
                   failed := if room then st.failed else true)
  }

  /** How the frame's own stream looks then. */
  lemma ObservedView(st: Agent, next: Agent, s: Stream, f: Frame, w: Worker, o: Offsets, room: bool)
    requires st.mach.Open? && OutputObserved(st, next, s, f, w, o, room)
    ensures ViewOf(next, s) == ViewOf(st, s).(worker := w, offsets := Some(o), failed := next.failed,
                                              published := ViewOf(st, s).published + (if room then f.data else []))
  {
    GetSet(st.workers, s, w, s);
    GetSet(st.mach.out, s, o, s);
    if room {
      PublishedAppend(st.wire, f, s);
    } else {
      assert Published(st.wire, s) + [] == Published(st.wire, s);
    }
  }

  /** The other streams only see the failure, if there is one. */
  lemma OtherView(st: Agent, next: Agent, s: Stream, f: Frame, w: Worker, o: Offsets, room: bool, t: Stream)
    requires st.mach.Open? && OutputObserved(st, next, s, f, w, o, room) && t != s
    ensures ViewOf(next, t) == ViewOf(st, t).(failed := next.failed)
  {
    GetSet(st.workers, s, w, t);
    GetSet(st.mach.out, s, o, t);
    if room {
      PublishedAppend(st.wire, f, t);
      assert Published(st.wire, t) + [] == Published(st.wire, t);
    }
  }

  /** While the stream is open, the machine never refuses the worker's next frame. */
  lemma PublishAccepted(st: Agent, s: Stream)
    requires ViewOk(ViewOf(st, s)) && PcOf(st, s).Publishing? && st.mach.Open? && Active(st.pty, s)
    ensures PcOf(st, s).sent + PcOf(st, s).length <= |PcOf(st, s).chunk|
    ensures PcOf(st, s).offset + PcOf(st, s).length < U64_LIMIT
    ensures var pc := PcOf(st, s);
            (SendStep(st.mach, st.pty, PublishedFrame(s, pc))
             == Some(st.mach.(out := Set(st.mach.out, s, Get(st.mach.out, s).(next := pc.offset + pc.length)))))
  {
  }

  function NextOffsets(st: Agent, s: Stream): Offsets
    requires PcOf(st, s).Publishing? && st.mach.Open? && PcOf(st, s).offset + PcOf(st, s).length < U64_LIMIT
  {
    Get(st.mach.out, s).(next := PcOf(st, s).offset + PcOf(st, s).length)
  }

  function AfterPublish(w: Worker, room: bool): Worker
    requires w.pc.Publishing?
  {
    w.(pc := if room then Sending(w.pc.chunk, w.pc.keep, w.pc.sent + w.pc.length) else Finished)
  }

  /** What publishing comes to while the machine is open. */
  lemma PublishesAs(st: Agent, s: Stream, room: bool)
    requires ViewOk(ViewOf(st, s)) && PcOf(st, s).Publishing? && st.mach.Open? && Active(st.pty, s)
    ensures PcOf(st, s).sent + PcOf(st, s).length <= |PcOf(st, s).chunk|
    ensures PcOf(st, s).offset + PcOf(st, s).length < U64_LIMIT
    ensures WorkerSends(st, s, room).observed == st.observed + [PublishedFrame(s, PcOf(st, s))]
    ensures OutputObserved(st, WorkerSends(st, s, room), s, PublishedFrame(s, PcOf(st, s)),
                           AfterPublish(Get(st.workers, s), room), NextOffsets(st, s), room)
  {
    PublishAccepted(st, s);
  }

  /** The published stream itself. */
  lemma PublishedViewOk(v: View, u: View, data: seq<Byte>, room: bool)
    requires ViewOk(v) && v.worker.pc.Publishing? && v.offsets.Some?
    requires data == v.worker.pc.chunk[v.worker.pc.sent..v.worker.pc.sent + v.worker.pc.length]
    requires u == v.(worker := AfterPublish(v.worker, room), failed := if room then v.failed else true,
                     offsets := Some(v.offsets.value.(next := v.worker.pc.offset + v.worker.pc.length)),
                     published := v.published + (if room then data else []))
    ensures ViewOk(u) && Evolves(v, u)
  {
    if room {
      PublishKeepsView(v, data);
    } else {
      ObserveKeepsView(v);
      assert v.published + [] == v.published;
    }
  }

  lemma PublishOk(st: Agent, s: Stream, room: bool)
    requires StreamsOk(st) && PcOf(st, s).Publishing? && st.mach.Open? && Active(st.pty, s)
    ensures StepOk(st, WorkerSends(st, s, room))
  {
    assert ViewOk(ViewOf(st, s));
    PublishesAs(st, s, room);
    PublishedStepOk(st, WorkerSends(st, s, room), s, PublishedFrame(s, PcOf(st, s)), room);
  }

  lemma PublishedStepOk(st: Agent, next: Agent, s: Stream, f: Frame, room: bool)
    requires StreamsOk(st) && PcOf(st, s).Publishing? && st.mach.Open?
    requires PcOf(st, s).sent + PcOf(st, s).length <= |PcOf(st, s).chunk|
    requires PcOf(st, s).offset + PcOf(st, s).length < U64_LIMIT
    requires f == PublishedFrame(s, PcOf(st, s))
    requires OutputObserved(st, next, s, f, AfterPublish(Get(st.workers, s), room), NextOffsets(st, s), room)
    ensures StepOk(st, next)
  {
    var w, o := AfterPublish(Get(st.workers, s), room), NextOffsets(st, s);
    ObservedView(st, next, s, f, w, o, room);
    PublishedViewOk(ViewOf(st, s), ViewOf(next, s), f.data, room);
    forall t | t != s ensures Undisturbed(ViewOf(st, t), ViewOf(next, t)) {
      OtherView(st, next, s, f, w, o, room, t);
      assert ViewOk(ViewOf(st, t));
    }
    OneStream(st, next, s);
  }

  lemma SendsOk(st: Agent, s: Stream, room: bool)
    requires StreamsOk(st) && (!PcOf(st, s).Finished? ==> Active(st.pty, s))
    ensures StepOk(st, WorkerSends(st, s, room))
  {
    if !PcOf(st, s).Publishing? {
      NothingMoves(st);
    } else if st.mach.Shut? {
      assert PcOk(ViewOf(st, s).worker.pc);
      FinishesOk(st, s);
    } else {
      PublishOk(st, s, room);
    }
  }

  lemma QuitsOk(st: Agent, s: Stream)
    requires StreamsOk(st)
    ensures StepOk(st, WorkerQuits(st, s))
  {
    var w := Get(st.workers, s);
    if w.forced && (w.pc.Idle? || w.pc.Reading? || w.pc.Holding? || w.pc.Sending?) {
      FinishesOk(st, s);
    } else {
      NothingMoves(st);
    }
  }

  lemma PanicsOk(st: Agent, s: Stream)
    requires StreamsOk(st)
    ensures StepOk(st, WorkerPanics(st, s))
  {
    var v := ViewOf(st, s);
    if v.worker.pc.Finished? {
      NothingMoves(st);
    } else {
      MayFinish(v.(truncated := true));
      OnlyWorkerMoves(st, s, v.worker.(pc := Finished, panicked := true));
    }
  }

  // ---- the reader and the waiter -------------------------------------------------------------------

  lemma AckObservedKeepsView(v: View, n: U64)
    requires ViewOk(v) && v.offsets.Some? && v.acking.None? && v.offsets.value.acked <= n <= v.offsets.value.next
    ensures var u := v.(acking := Some(n), offsets := Some(v.offsets.value.(acked := n)));
            ViewOk(u) && Evolves(v, u)
  {
  }

  lemma AckReceivedOk(st: Agent, s: Stream, n: U64)
    requires StreamsOk(st) && st.reader.Listening? && st.mach.Open?
    requires Get(st.mach.out, s).acked <= n <= Get(st.mach.out, s).next
    ensures StepOk(st, st.(mach := st.mach.(out := Set(st.mach.out, s, Get(st.mach.out, s).(acked := n))), reader := Acking(s, n)))
  {
    var v := ViewOf(st, s);
    var o := Get(st.mach.out, s).(acked := n);
    var next := st.(mach := st.mach.(out := Set(st.mach.out, s, o)), reader := Acking(s, n));
    AckObservedKeepsView(v, n);
    forall t ensures Get(next.mach.out, t) == if t == s then o else Get(st.mach.out, t) {
      GetSet(st.mach.out, s, o, t);
    }
    assert forall t :: t != s ==> ViewOf(next, t) == ViewOf(st, t);
    OneStream(st, next, s);
  }

  lemma OtherArrivalShape(st: Agent, a: Arrival)
    requires !a.ArrivedAck? || !st.reader.Listening? || ReceiveStep(st.mach, st.pty, a).None?
    ensures var next := ReaderReceives(st, a);
            && next == st.(mach := next.mach, reader := next.reader)
            && next.mach.Open? == st.mach.Open? && (st.mach.Open? ==> next.mach.out == st.mach.out)
            && (next.reader == st.reader || (!st.reader.Acking? && !next.reader.Acking?))
  {
  }

  /** Steps that move only the reader, the input worker, or the machine's input counters. */
  lemma ReaderAndInputQuiet(st: Agent, next: Agent)
    requires StreamsOk(st)
    requires next.flows == st.flows && next.workers == st.workers && next.wire == st.wire && next.failed == st.failed
    requires next.truncated == st.truncated && next.total == st.total && next.limit == st.limit
    requires next.mach.Open? == st.mach.Open? && (st.mach.Open? ==> next.mach.out == st.mach.out)
    requires next.reader == st.reader || (!st.reader.Acking? && !next.reader.Acking?)
    ensures StepOk(st, next)
  {
    assert forall s :: ViewOf(next, s) == ViewOf(st, s);
    QuietStep(st, next);
  }

  /** An acknowledgement the machine accepted always fits the flow. */
  lemma AckAppliedKeepsView(v: View)
    requires ViewOk(v) && v.acking.Some?
    ensures AckFits(v.flow, v.acking.value)
    ensures var u := v.(acking := None, flow := v.flow.(acked := v.acking.value));
            ViewOk(u) && Evolves(v, u)
  {
  }

  lemma AcknowledgesOk(st: Agent)
    requires StreamsOk(st)
    ensures StepOk(st, ReaderAcknowledges(st))
  {
    if st.reader.Acking? {
      var s, next := st.reader.stream, ReaderAcknowledges(st);
      var v := ViewOf(st, s);
      AckAppliedKeepsView(v);
      var f := v.flow.(acked := st.reader.next);
      forall t ensures ViewOf(next, t) == (if t == s then v.(acking := None, flow := f) else ViewOf(st, t)) {
        GetSet(st.flows, s, f, t);
      }
      OneStream(st, next, s);
    } else {
      NothingMoves(st);
    }
  }

  lemma StopsOk(st: Agent, s: Stream)
    requires StreamsOk(st)
    ensures StepOk(st, WaiterStops(st, s))
  {
    var v := ViewOf(st, s);
    if st.waiter.Stopping? {
      SetSame(st.workers, s);
      WorkerMoves(st, WaiterStops(st, s), s, v.worker, v.flow.(stopped := true));
    } else {
      NothingMoves(st);
    }
  }

  lemma ForcesOk(st: Agent, s: Stream)
    requires StreamsOk(st)
    ensures StepOk(st, WaiterForces(st, s))
  {
    var v := ViewOf(st, s);
    if st.waiter.Stopping? && !v.worker.pc.Finished? {
      OnlyWorkerMoves(st, s, v.worker.(forced := true));
    } else {
      NothingMoves(st);
    }
  }
}
