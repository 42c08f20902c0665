/**
 What every accepted run of the protocol says about its five numbered
 channels: process input, the three output streams, and watch events.
 A channel is described from the messages alone, without the state machine's
 counters, and the counters are then shown to agree with that description.
 */
module Channels {
  import opened Protocol

  datatype Channel = InputChannel | OutputChannel(stream: Stream) | WatchChannel

  datatype Range = Range(lo: nat, hi: nat)

  /**
   `asked` is where the client asked to resume, `opening` where the server said
   the channel begins, `ranges` what has been delivered or announced as lost,
   in order, and `acked` the last acknowledgement (or `opening` before any).
   */
  datatype Summary = Summary(asked: Option<nat>, opening: nat, ranges: seq<Range>, acked: nat)

  function Asked(m: Message, ch: Channel): Option<nat> {
    match m
    case AttachPty(_, _, from) => if ch == OutputChannel(Pty) && from.Some? then Some(from.value) else None
    case WatchStart(_, from) => if ch == WatchChannel && from.Some? then Some(from.value) else None
    case _ => None
  }

  function Opened(m: Message, ch: Channel): Option<nat> {
    match m
    case PtyAttached(_, _, _, offset) => if ch == OutputChannel(Pty) then Some(offset) else None
    case WatchStarted(_, _, next) => if ch == WatchChannel then Some(next) else None
    case _ => None
  }

  function Covered(m: Message, ch: Channel): Option<Range> {
    match m
    case Input(_, offset, data) => if ch == InputChannel then Some(Range(offset, offset + |data|)) else None
    case Output(_, s, offset, data) => if ch == OutputChannel(s) then Some(Range(offset, offset + |data|)) else None
    case OutputGap(_, lo, hi, _) => if ch == OutputChannel(Pty) then Some(Range(lo, hi)) else None
    case WatchEvents(_, first, events) => if ch == WatchChannel then Some(Range(first, first + |events|)) else None
    case WatchOverflow(_, lo, hi) => if ch == WatchChannel then Some(Range(lo, hi)) else None
    case _ => None
  }

  function Ack(m: Message, ch: Channel): Option<nat> {
    match m
    case InputAck(_, next) => if ch == InputChannel then Some(next) else None
    case OutputAck(_, s, next) => if ch == OutputChannel(s) then Some(next) else None
    case WatchAck(_, next) => if ch == WatchChannel then Some(next) else None
    case _ => None
  }

  function Extend(sum: Summary, m: Message, ch: Channel): Summary {
    if Asked(m, ch).Some? then sum.(asked := Asked(m, ch))
    else if Opened(m, ch).Some? then sum.(opening := Opened(m, ch).value, acked := Opened(m, ch).value)
    else if Covered(m, ch).Some? then sum.(ranges := sum.ranges + [Covered(m, ch).value])
    else if Ack(m, ch).Some? then sum.(acked := Ack(m, ch).value)
    else sum
  }

  function Summarize(trace: seq<Message>, ch: Channel): Summary {
    if trace == [] then Summary(None, 0, [], 0)
    else Extend(Summarize(trace[..|trace| - 1], ch), trace[|trace| - 1], ch)
  }

  /** Where the delivered ranges must begin. */
  function Origin(sum: Summary): nat {
    if sum.asked.Some? then sum.asked.value else sum.opening
  }

  /** The offset at which range `i` must begin: the end of its predecessor, or the origin. */
  function Edge(ranges: seq<Range>, origin: nat, i: nat): nat
    requires i <= |ranges|
  {
    if i == 0 then origin else ranges[i - 1].hi
  }

  /** The ranges are non-empty, adjacent, in order, and begin at the origin. */
  ghost predicate Tiles(ranges: seq<Range>, origin: nat) {
    forall i :: 0 <= i < |ranges| ==> Edge(ranges, origin, i) == ranges[i].lo < ranges[i].hi
  }

  ghost predicate Tiled(sum: Summary) {
    Tiles(sum.ranges, Origin(sum))
  }

  /** How far they reach. */
  function Reach(sum: Summary): nat {
    Edge(sum.ranges, Origin(sum), |sum.ranges|)
  }

  /** The server began past the point the client asked for. */
  predicate Lossy(sum: Summary) {
    sum.asked.Some? && sum.asked.value < sum.opening
  }

  /** A loss at the start of the channel is the first thing announced on it. */
  ghost predicate LossFirst(sum: Summary) {
    Lossy(sum) && sum.ranges != [] ==> sum.ranges[0] == Range(sum.asked.value, sum.opening)
  }

  /** A loss at the start that has not been announced yet. */
  predicate LossPending(sum: Summary) {
    Lossy(sum) && sum.ranges == []
  }

  // ---- the state machine's counters ------------------------------------------

  datatype Cursor = Cursor(next: nat, acked: nat, gap: Option<(U64, U64)>)

  /** The counters a phase keeps for a channel, if it keeps any. */
  function CursorOf(phase: Phase, ch: Channel): Option<Cursor> {
    match phase
    case Running(p) => ProcessCursor(p, ch)
    case AwaitDetached(p) => ProcessCursor(p, ch)
    case Watching(w) => WatchCursor(w, ch)
    case AwaitWatchStopped(w) => WatchCursor(w, ch)
    case _ => None
  }

  function ProcessCursor(p: Process, ch: Channel): Option<Cursor> {
    match ch
    case InputChannel => Some(Cursor(p.inputSent, p.inputAcked, None))
    case OutputChannel(s) =>
      if s in p.streams then Some(Cursor(p.streams[s].next, p.streams[s].acked, p.gap)) else None
    case WatchChannel => None
  }

  function WatchCursor(w: Watch, ch: Channel): Option<Cursor> {
    if ch == WatchChannel then Some(Cursor(w.nextSequence, w.ackedSequence, w.gap)) else None
  }

  function PendingQuestion(phase: Phase, ch: Channel): Option<nat> {
    match phase
    case AwaitPtyAttached(_, _, from) => if ch == OutputChannel(Pty) && from.Some? then Some(from.value) else None
    case AwaitWatchStarted(_, from) => if ch == WatchChannel && from.Some? then Some(from.value) else None
    case _ => None
  }

  ghost predicate CursorAgrees(sum: Summary, c: Cursor) {
    && sum.acked == c.acked <= c.next
    && (c.gap.None? ==> !LossPending(sum) && Reach(sum) == c.next)
    && (c.gap.Some? ==> LossPending(sum) && c.gap.value == (sum.asked.value, sum.opening) && c.next == c.acked == sum.opening)
  }

  ghost predicate PhaseFits(phase: Phase) {
    match phase
    case Running(p) => ProcessFits(p)
    case AwaitDetached(p) => ProcessFits(p)
    case Watching(w) => WatchFits(w)
    case AwaitWatchStopped(w) => WatchFits(w)
    case _ => true
  }

  ghost predicate ProcessFits(p: Process) {
    if p.pty then p.streams.Keys == {Pty} && (p.gap.Some? ==> p.streams[Pty].next == p.gap.value.1)
    else p.streams.Keys == {Stdout, Stderr} && p.gap.None?
  }

  ghost predicate WatchFits(w: Watch) {
    w.gap.Some? ==> w.nextSequence == w.gap.value.1
  }

  /** The counters agree with the channel's description; a channel without counters has nothing on it. */
  ghost predicate InStep(sum: Summary, c: Option<Cursor>, question: Option<nat>) {
    && Tiled(sum) && LossFirst(sum)
    && (c.Some? ==> CursorAgrees(sum, c.value))
    && (c.None? ==> sum == Summary(question, 0, [], 0))
  }

  /** The invariant of an accepted run, for one channel. */
  ghost predicate Tracks(sum: Summary, phase: Phase, ch: Channel) {
    if phase.Closed? then Tiled(sum) && LossFirst(sum)
    else PhaseFits(phase) && InStep(sum, CursorOf(phase, ch), PendingQuestion(phase, ch))
  }

  lemma TilesAppend(ranges: seq<Range>, origin: nat, r: Range)
    requires Tiles(ranges, origin) && r.lo < r.hi
    requires r.lo == Edge(ranges, origin, |ranges|)
    ensures Tiles(ranges + [r], origin)
  {
    var all := ranges + [r];
    forall i | 0 <= i < |all|
      ensures Edge(all, origin, i) == all[i].lo < all[i].hi
    {
      assert Edge(all, origin, i) == Edge(ranges, origin, i);
    }
  }

  /** One more range, adjacent to the last, keeps a channel in step with its counters. */
  lemma CoverKeeps(sum: Summary, c: Cursor, r: Range)
    requires Tiled(sum) && LossFirst(sum) && CursorAgrees(sum, c) && r.lo < r.hi
    requires if c.gap.Some? then (r.lo, r.hi) == c.gap.value else r.lo == c.next
    ensures var after := sum.(ranges := sum.ranges + [r]);
            Tiled(after) && LossFirst(after) && CursorAgrees(after, Cursor(r.hi, c.acked, None))
  {
    TilesAppend(sum.ranges, Origin(sum), r);
  }

  lemma AckKeeps(sum: Summary, c: Cursor, n: nat)
    requires Tiled(sum) && LossFirst(sum) && CursorAgrees(sum, c) && c.acked <= n <= c.next
    ensures var after := sum.(acked := n);
            Tiled(after) && LossFirst(after) && CursorAgrees(after, c.(acked := n))
  {
  }

  /** How one message moves one channel's counters, if at all. */
  ghost predicate CursorMoves(before: Option<Cursor>, m: Message, ch: Channel, after: Option<Cursor>) {
    match before
    case None => after.None? && Covered(m, ch).None? && Ack(m, ch).None?
    case Some(c) =>
      if Covered(m, ch).Some? then
        var r := Covered(m, ch).value;
        && r.lo < r.hi
        && (if c.gap.Some? then (r.lo, r.hi) == c.gap.value else r.lo == c.next)
        && after == Some(Cursor(r.hi, c.acked, None))
      else if Ack(m, ch).Some? then
        c.acked <= Ack(m, ch).value <= c.next && after == Some(c.(acked := Ack(m, ch).value))
      else after == before
  }

  lemma MovesKeepStep(sum: Summary, before: Option<Cursor>, m: Message, ch: Channel, after: Option<Cursor>)
    requires InStep(sum, before, None) && CursorMoves(before, m, ch, after)
    requires Asked(m, ch).None? && Opened(m, ch).None?
    ensures InStep(Extend(sum, m, ch), after, None)
  {
    if before.Some? {
      if Covered(m, ch).Some? {
        CoverKeeps(sum, before.value, Covered(m, ch).value);
      } else if Ack(m, ch).Some? {
        AckKeeps(sum, before.value, Ack(m, ch).value);
      }
    }
  }

  lemma ClientMoves(p: Process, m: Message, ch: Channel)
    requires Valid(m) && Sender(m) == Client && RunningClient(p, m).Ok? && ProcessFits(p)
    ensures ProcessFits(RunningClient(p, m).value)
    ensures CursorMoves(ProcessCursor(p, ch), m, ch, ProcessCursor(RunningClient(p, m).value, ch))
  {
    assert RunningClient(p, m).value.streams.Keys == p.streams.Keys;
  }

  lemma ServerMoves(p: Process, m: Message, ch: Channel)
    requires Valid(m) && Sender(m) == Server && RunningServer(p, m).Ok? && RunningServer(p, m).value.Some?
    requires ProcessFits(p)
    ensures ProcessFits(RunningServer(p, m).value.value)
    ensures CursorMoves(ProcessCursor(p, ch), m, ch, ProcessCursor(RunningServer(p, m).value.value, ch))
  {
    assert RunningServer(p, m).value.value.streams.Keys == p.streams.Keys;
  }

  lemma WatchMoves(w: Watch, m: Message, ch: Channel)
    requires Valid(m) && WatchStep(w, m).Ok? && WatchFits(w)
    ensures WatchFits(WatchStep(w, m).value)
    ensures CursorMoves(WatchCursor(w, ch), m, ch, WatchCursor(WatchStep(w, m).value, ch))
  {
  }

  /** The server's first word on a resumable channel fixes its opening offset. */
  lemma OpeningKeeps(sum: Summary, n: U64, gap: Option<(U64, U64)>)
    requires sum == Summary(sum.asked, 0, [], 0)
    requires sum.asked.Some? ==> sum.asked.value <= n
    requires gap.Some? <==> sum.asked.Some? && sum.asked.value < n
    requires gap.Some? ==> gap.value == (sum.asked.value, n)
    ensures var after := sum.(opening := n, acked := n);
            Tiled(after) && LossFirst(after) && CursorAgrees(after, Cursor(n, n, gap))
  {
  }

  lemma TracksAttached(phase: Phase, sum: Summary, m: Message, ch: Channel)
    requires Tracks(sum, phase, ch) && phase.AwaitPtyAttached? && m.PtyAttached? && AttachedPty(phase, m).Ok?
    ensures Tracks(Extend(sum, m, ch), AttachedPty(phase, m).value, ch)
  {
    var p := AttachedPty(phase, m).value.process;
    if ch == OutputChannel(Pty) {
      OpeningKeeps(sum, m.outputOffset, p.gap);
    }
  }

  lemma TracksStarted(phase: Phase, sum: Summary, m: Message, ch: Channel)
    requires Tracks(sum, phase, ch) && phase.AwaitProcessStarted? && m.ProcessStarted? && Started(phase, m).Ok?
    ensures Tracks(Extend(sum, m, ch), Started(phase, m).value, ch)
  {
    assert Extend(sum, m, ch) == sum;
  }

  lemma TracksWatchBegun(phase: Phase, sum: Summary, m: Message, ch: Channel)
    requires Tracks(sum, phase, ch) && phase.AwaitWatchStarted? && m.WatchStarted? && WatchBegun(phase, m).Ok?
    ensures Tracks(Extend(sum, m, ch), WatchBegun(phase, m).value, ch)
  {
    var w := WatchBegun(phase, m).value.watch;
    if ch == WatchChannel {
      OpeningKeeps(sum, m.nextSequence, w.gap);
    }
  }

  lemma TracksHandshake(cfg: Config, phase: Phase, sum: Summary, m: Message, ch: Channel)
    requires Valid(m) && Tracks(sum, phase, ch) && Apply(cfg, phase, m).Ok? && !m.Error?
    requires phase.AwaitClientHello? || phase.AwaitServerHello? || phase.Ready?
    ensures Tracks(Extend(sum, m, ch), Apply(cfg, phase, m).value, ch)
  {
  }

  /** The two phases with a live process keep the same counters. */
  lemma DetachingTracksAsRunning(p: Process, sum: Summary, ch: Channel)
    ensures Tracks(sum, AwaitDetached(p), ch) <==> Tracks(sum, Running(p), ch)
  {
  }

  lemma TracksClient(p: Process, sum: Summary, m: Message, ch: Channel)
    requires Valid(m) && Tracks(sum, Running(p), ch) && Sender(m) == Client && RunningClient(p, m).Ok?
    ensures Tracks(Extend(sum, m, ch), Running(RunningClient(p, m).value), ch)
  {
    ClientMoves(p, m, ch);
    MovesKeepStep(sum, ProcessCursor(p, ch), m, ch, ProcessCursor(RunningClient(p, m).value, ch));
  }

  lemma TracksServer(p: Process, sum: Summary, m: Message, ch: Channel)
    requires Valid(m) && Tracks(sum, Running(p), ch) && Sender(m) == Server
    requires RunningServer(p, m).Ok? && RunningServer(p, m).value.Some?
    ensures Tracks(Extend(sum, m, ch), Running(RunningServer(p, m).value.value), ch)
  {
    ServerMoves(p, m, ch);
    MovesKeepStep(sum, ProcessCursor(p, ch), m, ch, ProcessCursor(RunningServer(p, m).value.value, ch));
  }

  lemma TracksWatch(w: Watch, sum: Summary, m: Message, ch: Channel)
    requires Valid(m) && Tracks(sum, Watching(w), ch) && WatchStep(w, m).Ok?
    ensures Tracks(Extend(sum, m, ch), Watching(WatchStep(w, m).value), ch)
  {
    WatchMoves(w, m, ch);
    MovesKeepStep(sum, WatchCursor(w, ch), m, ch, WatchCursor(WatchStep(w, m).value, ch));
  }

  lemma TracksProcess(cfg: Config, phase: Phase, sum: Summary, m: Message, ch: Channel)
    requires Valid(m) && Tracks(sum, phase, ch) && Apply(cfg, phase, m).Ok? && !m.Error?
    requires phase.Running? || phase.AwaitDetached?
    ensures Tracks(Extend(sum, m, ch), Apply(cfg, phase, m).value, ch)
  {
    var p := phase.process;
    DetachingTracksAsRunning(p, sum, ch);
    if m.Exited? || m.Detached? {
      assert Apply(cfg, phase, m).value.Closed?;
    } else if Sender(m) == Client {
      TracksClient(p, sum, m, ch);
      DetachingTracksAsRunning(RunningClient(p, m).value, Extend(sum, m, ch), ch);
    } else {
      TracksServer(p, sum, m, ch);
      DetachingTracksAsRunning(RunningServer(p, m).value.value, Extend(sum, m, ch), ch);
    }
  }

  lemma StoppingTracksAsWatching(w: Watch, sum: Summary, ch: Channel)
    ensures Tracks(sum, AwaitWatchStopped(w), ch) <==> Tracks(sum, Watching(w), ch)
  {
  }

  lemma TracksWatching(cfg: Config, phase: Phase, sum: Summary, m: Message, ch: Channel)
    requires Valid(m) && Tracks(sum, phase, ch) && Apply(cfg, phase, m).Ok? && !m.Error?
    requires phase.Watching? || phase.AwaitWatchStopped?
    ensures Tracks(Extend(sum, m, ch), Apply(cfg, phase, m).value, ch)
  {
    var w := phase.watch;
    StoppingTracksAsWatching(w, sum, ch);
    if m.WatchStop? || m.WatchStopped? {
      assert Extend(sum, m, ch) == sum;
    } else {
      TracksWatch(w, sum, m, ch);
      StoppingTracksAsWatching(WatchStep(w, m).value, Extend(sum, m, ch), ch);
    }
  }

  lemma TracksOpening(cfg: Config, phase: Phase, sum: Summary, m: Message, ch: Channel)
    requires Tracks(sum, phase, ch) && Apply(cfg, phase, m).Ok? && !m.Error?
    requires phase.AwaitProcessStarted? || phase.AwaitPtyAttached? || phase.AwaitWatchStarted?
    ensures Tracks(Extend(sum, m, ch), Apply(cfg, phase, m).value, ch)
  {
    match phase {
      case AwaitProcessStarted(_, _, _) => TracksStarted(phase, sum, m, ch);
      case AwaitPtyAttached(_, _, _) => TracksAttached(phase, sum, m, ch);
      case AwaitWatchStarted(_, _) => TracksWatchBegun(phase, sum, m, ch);
    }
  }

  lemma TracksError(cfg: Config, phase: Phase, sum: Summary, m: Message, ch: Channel)
    requires Tracks(sum, phase, ch) && Apply(cfg, phase, m).Ok? && m.Error?
    ensures Tracks(Extend(sum, m, ch), Apply(cfg, phase, m).value, ch)
  {
  }

  /** Every accepted message keeps every channel in step with the counters. */
  lemma TracksStep(cfg: Config, phase: Phase, sum: Summary, m: Message, ch: Channel)
    requires Valid(m) && Tracks(sum, phase, ch) && Apply(cfg, phase, m).Ok?
    ensures Tracks(Extend(sum, m, ch), Apply(cfg, phase, m).value, ch)
  {
    if m.Error? {
      TracksError(cfg, phase, sum, m, ch);
    } else if phase.Running? || phase.AwaitDetached? {
      TracksProcess(cfg, phase, sum, m, ch);
    } else if phase.Watching? || phase.AwaitWatchStopped? {
      TracksWatching(cfg, phase, sum, m, ch);
    } else if phase.AwaitProcessStarted? || phase.AwaitPtyAttached? || phase.AwaitWatchStarted? {
      TracksOpening(cfg, phase, sum, m, ch);
    } else {
      TracksHandshake(cfg, phase, sum, m, ch);
    }
  }

  ghost predicate Accepted(cfg: Config, trace: seq<Message>) {
    && (forall i :: 0 <= i < |trace| ==> Valid(trace[i]))
    && Replay(cfg, AwaitClientHello, trace).Ok?
  }

  function Final(cfg: Config, trace: seq<Message>): Phase
    requires Replay(cfg, AwaitClientHello, trace).Ok?
  {
    Replay(cfg, AwaitClientHello, trace).value
  }

  lemma AcceptedPrefix(cfg: Config, trace: seq<Message>)
    requires trace != [] && Accepted(cfg, trace)
    ensures var before, m := trace[..|trace| - 1], trace[|trace| - 1];
            Accepted(cfg, before) && Apply(cfg, Final(cfg, before), m) == Ok(Final(cfg, trace))
  {
    var before, m := trace[..|trace| - 1], trace[|trace| - 1];
    assert trace == before + [m];
    ReplayAppend(cfg, AwaitClientHello, before, [m]);
    if Replay(cfg, AwaitClientHello, before).Ok? {
      assert Replay(cfg, Final(cfg, before), [m]) ==
             (match Apply(cfg, Final(cfg, before), m) case Err(e) => Err(e) case Ok(n) => Ok(n));
    }
  }

  lemma {:induction false} AcceptedRunTracks(cfg: Config, trace: seq<Message>, ch: Channel)
    requires Accepted(cfg, trace)
    ensures Tracks(Summarize(trace, ch), Final(cfg, trace), ch)
    decreases |trace|
  {
    if trace != [] {
      var before, m := trace[..|trace| - 1], trace[|trace| - 1];
      AcceptedPrefix(cfg, trace);
      AcceptedRunTracks(cfg, before, ch);
      TracksStep(cfg, Final(cfg, before), Summarize(before, ch), m, ch);
    }
  }

  // ---- the theorems -----------------------------------------------------------

  /**
   In every accepted run, what a channel delivered or announced as lost is one
   gapless, non-overlapping interval beginning where the client asked to
   resume (or where the server opened the channel), and an initial loss is
   announced before anything is delivered.
   */
  lemma ChannelsTile(cfg: Config, trace: seq<Message>, ch: Channel)
    requires Accepted(cfg, trace)
    ensures Tiled(Summarize(trace, ch)) && LossFirst(Summarize(trace, ch))
  {
    AcceptedRunTracks(cfg, trace, ch);
  }

  /** The channels on which an acknowledgement may be sent in a phase. */
  predicate Acknowledges(phase: Phase, m: Message, ch: Channel) {
    && CursorOf(phase, ch).Some?
    && match m
       case InputAck(id, _) => ch == InputChannel && (phase.Running? || phase.AwaitDetached?) && phase.process.processId == id
       case OutputAck(id, s, _) => ch == OutputChannel(s) && (phase.Running? || phase.AwaitDetached?) && phase.process.processId == id
       case WatchAck(id, _) => ch == WatchChannel && (phase.Watching? || phase.AwaitWatchStopped?) && phase.watch.watchId == id
       case _ => false
  }

  /**
   After any accepted run, an acknowledgement addressed to a live channel is
   accepted exactly when it does not go back and does not pass what has been
   delivered, and else refused for which of the two it does; on an output
   channel not before a pending loss is announced.
   */
  lemma AckAcceptedExactly(cfg: Config, trace: seq<Message>, m: Message, ch: Channel)
    requires Accepted(cfg, trace) && Acknowledges(Final(cfg, trace), m, ch)
    ensures var sum := Summarize(trace, ch);
            Apply(cfg, Final(cfg, trace), m).Ok? <==>
              if LossPending(sum) then ch == WatchChannel && Ack(m, ch).value == sum.opening
              else sum.acked <= Ack(m, ch).value <= Reach(sum)
    ensures var sum := Summarize(trace, ch);
            !LossPending(sum) ==>
              && (Apply(cfg, Final(cfg, trace), m) == Err(AckRegressed) <==> Ack(m, ch).value < sum.acked)
              && (Apply(cfg, Final(cfg, trace), m) == Err(AckBeyondSent) <==> Ack(m, ch).value > Reach(sum))
  {
    AcceptedRunTracks(cfg, trace, ch);
  }

  /**
   The rule "acknowledgements never pass what was delivered or announced" is
   broken on the watch channel in exactly one situation: a resumed watch whose
   initial loss has not been announced, acknowledged at the opening sequence.
   */
  lemma AckPassesReachExactly(cfg: Config, trace: seq<Message>, m: Message, ch: Channel)
    requires Accepted(cfg, trace) && Acknowledges(Final(cfg, trace), m, ch)
    ensures var sum := Summarize(trace, ch);
            Apply(cfg, Final(cfg, trace), m).Ok? && Ack(m, ch).value > Reach(sum) <==>
              ch == WatchChannel && LossPending(sum) && Ack(m, ch).value == sum.opening
  {
    AckAcceptedExactly(cfg, trace, m, ch);
  }

  function WatchResume(version: string): seq<Message> {
    [ClientHello(version, PROTOCOL_VERSION, WorkspaceWatchV1),
     ServerHello(version, PROTOCOL_VERSION, WorkspaceWatchV1),
     WatchStart(1, Some(3)),
     WatchStarted(1, 7, 10)]
  }

  /** A run in which that situation occurs: resume at 3, opened at 10, acknowledged before the loss is announced. */
  lemma WatchAckBeforeOverflow(cfg: Config)
    requires WorkspaceWatchV1 in cfg.supported && ValidPackageVersion(cfg.packageVersion)
    ensures var trace := WatchResume(cfg.packageVersion);
            && Accepted(cfg, trace)
            && Reach(Summarize(trace, WatchChannel)) == 3
            && Apply(cfg, Final(cfg, trace), WatchAck(7, 10)).Ok?
  {
    var trace := WatchResume(cfg.packageVersion);
    WatchResumeReplays(cfg);
    WatchResumeSummary(cfg.packageVersion);
  }

  lemma WatchResumeReplays(cfg: Config)
    requires WorkspaceWatchV1 in cfg.supported
    ensures Replay(cfg, AwaitClientHello, WatchResume(cfg.packageVersion))
         == Ok(Watching(Watch(7, 10, 10, Some((3, 10)))))
  {
    var trace := WatchResume(cfg.packageVersion);
    var hello, rest := trace[..2], trace[2..];
    assert trace == hello + rest;
    ReplayAppend(cfg, AwaitClientHello, hello, rest);
    assert Apply(cfg, AwaitServerHello(WorkspaceWatchV1), hello[1]) == Ok(Ready(WorkspaceWatchV1));
    assert Replay(cfg, AwaitServerHello(WorkspaceWatchV1), hello[1..]) == Ok(Ready(WorkspaceWatchV1));
    assert Apply(cfg, AwaitClientHello, hello[0]) == Ok(AwaitServerHello(WorkspaceWatchV1));
    assert Replay(cfg, AwaitClientHello, hello) == Ok(Ready(WorkspaceWatchV1));
    assert Replay(cfg, AwaitWatchStarted(1, Some(3)), rest[1..]) == Ok(Watching(Watch(7, 10, 10, Some((3, 10)))));
  }

  lemma WatchResumeSummary(version: string)
    ensures Summarize(WatchResume(version), WatchChannel) == Summary(Some(3), 10, [], 10)
  {
    var trace := WatchResume(version);
    assert trace[..3][..2] == trace[..2] && trace[..2][..1] == trace[..1] && trace[..1][..0] == [];
    assert Summarize(trace[..1], WatchChannel) == Summary(None, 0, [], 0);
    assert Summarize(trace[..2], WatchChannel) == Summary(None, 0, [], 0);
    assert Summarize(trace[..3], WatchChannel) == Summary(Some(3), 0, [], 0);
  }
}
