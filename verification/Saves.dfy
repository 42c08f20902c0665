/**
 Any number of agents serving one root, each running compare-and-swap saves in
 one request or chunk by chunk (crates/nrm-agent/src/main.rs).  A save takes
 its lock files one at a time, checks the target's hash, stages its content,
 checks again and renames; the agents' steps interleave freely, agents may die
 at any point, and programs that know nothing of the locks may write the
 target too.
 */
module Saves {
  import opened Protocol
  import opened Uploads

  /** One save in progress: an agent's current single-request save, or one of its uploads. */
  datatype Token = SaveToken(agent: nat) | UploadToken(agent: nat, id: Id)

  datatype Request = Request(rid: nat, target: Path, expected: Option<Hash>, keys: set<Key>)

  datatype Body = Direct(content: seq<Byte>) | Chunked(upload: Upload)

  /** `seen` is the length of the history at the second check. */
  datatype Stage = Locking(todo: set<Key>) | Locked | Staged | Checked(seen: nat) | Renamed

  datatype Work = Work(req: Request, stage: Stage, body: Body)

  /** A change of one file; `author` is the save that made it, or an outsider. */
  datatype Author = Outsider | Save(rid: nat, expected: Option<Hash>, declared: Option<Hash>, seen: nat)

  datatype Change = Change(target: Path, content: Option<seq<Byte>>, author: Author)

  datatype Answer = Applied(rid: nat) | Conflicted(rid: nat) | Failed(rid: nat)

  datatype World = World(
    files: map<Path, seq<Byte>>,
    locks: map<Key, Token>,
    works: map<Token, Work>,
    history: seq<Change>,
    answers: seq<Answer>,
    nextRid: nat)

  /** Names every save of a target has in common: the lock key made of the root and the target's path. */
  function PathKey(target: Path): Key {
    target
  }

  function HashAt(h: seq<Byte> -> Hash, files: map<Path, seq<Byte>>, target: Path): Option<Hash> {
    if target in files then Some(h(files[target])) else None
  }

  function HashOf(h: seq<Byte> -> Hash, content: Option<seq<Byte>>): Option<Hash> {
    if content.Some? then Some(h(content.value)) else None
  }

  function Content(body: Body): seq<Byte> {
    match body
    case Direct(content) => content
    case Chunked(u) => u.file
  }

  predicate Complete(h: seq<Byte> -> Hash, body: Body) {
    body.Chunked? ==> body.upload.written == body.upload.size && h(body.upload.file) == body.upload.contentHash
  }

  function DeclaredHash(body: Body): Option<Hash> {
    if body.Chunked? then Some(body.upload.contentHash) else None
  }

  // ---- steps -------------------------------------------------------------------------------

  function SetStage(w: World, t: Token, stage: Stage): World
    requires t in w.works
  {
    w.(works := w.works[t := w.works[t].(stage := stage)])
  }

  /** The save ends: its lock files are released and its request answered. */
  function End(w: World, t: Token, answer: Answer): World {
    w.(works := w.works - {t}, locks := map k | k in w.locks && w.locks[k] != t :: w.locks[k],
       answers := w.answers + [answer])
  }

  function Begin(w: World, t: Token, target: Path, expected: Option<Hash>, extra: set<Key>, body: Body): World {
    if t in w.works || (body.Chunked? && !(body.upload.written == 0 && body.upload.file == [] && body.upload.accepted == []))
    then w
    else
      var keys := extra + {PathKey(target)};
      w.(works := w.works[t := Work(Request(w.nextRid, target, expected, keys), Locking(keys), body)],
         nextRid := w.nextRid + 1)
  }

  /** `try_lock` of one lock file; a file locked by another save fails the request. */
  function TryLock(w: World, t: Token, k: Key): World {
    if t !in w.works || !w.works[t].stage.Locking? || k !in w.works[t].stage.todo then w
    else if k in w.locks then End(w, t, Failed(w.works[t].req.rid))
    else
      var todo := w.works[t].stage.todo - {k};
      SetStage(w, t, if todo == {} then Locked else Locking(todo)).(locks := w.locks[k := t])
  }

  function FirstCheck(h: seq<Byte> -> Hash, w: World, t: Token): World {
    if t !in w.works || !w.works[t].stage.Locked? then w
    else
      var req := w.works[t].req;
      if HashAt(h, w.files, req.target) != req.expected then End(w, t, Conflicted(req.rid))
      else SetStage(w, t, Staged)
  }

  function PutChunk(w: World, t: Token, offset: U64, content: seq<Byte>, io: Io): World {
    if t !in w.works || !w.works[t].stage.Staged? || !w.works[t].body.Chunked? then w
    else
      var u := w.works[t].body.upload;
      if u.written > |u.file| then w
      else w.(works := w.works[t := w.works[t].(body := Chunked(ChunkStep(u, offset, content, io).0))])
  }

  function SecondCheck(h: seq<Byte> -> Hash, w: World, t: Token): World {
    if t !in w.works || !w.works[t].stage.Staged? then w
    else
      var req := w.works[t].req;
      if !Complete(h, w.works[t].body) then End(w, t, Failed(req.rid))
      else if HashAt(h, w.files, req.target) != req.expected then End(w, t, Conflicted(req.rid))
      else SetStage(w, t, Checked(|w.history|))
  }

  function Rename(w: World, t: Token): World {
    if t !in w.works || !w.works[t].stage.Checked? then w
    else
      var work := w.works[t];
      var change := Change(work.req.target, Some(Content(work.body)),
                           Save(work.req.rid, work.req.expected, DeclaredHash(work.body), work.stage.seen));
      SetStage(w, t, Renamed).(files := w.files[work.req.target := Content(work.body)],
                               history := w.history + [change])
  }

  /** The answer after the rename; a late error is an error although the rename took effect. */
  function Respond(w: World, t: Token, ok: bool): World {
    if t !in w.works || !w.works[t].stage.Renamed? then w
    else End(w, t, if ok then Applied(w.works[t].req.rid) else Failed(w.works[t].req.rid))
  }

  /** Any error, abort or expiry before the rename. */
  function Fail(w: World, t: Token): World {
    if t !in w.works || w.works[t].stage.Renamed? then w else End(w, t, Failed(w.works[t].req.rid))
  }

  /** The agent dies: the operating system releases its locks, and nobody is answered. */
  function Crash(w: World, agent: nat): World {
    w.(works := map t | t in w.works && t.agent != agent :: w.works[t],
       locks := map k | k in w.locks && w.locks[k].agent != agent :: w.locks[k])
  }

  function OutsiderWrites(w: World, target: Path, content: Option<seq<Byte>>): World {
    w.(files := if content.Some? then w.files[target := content.value] else w.files - {target},
       history := w.history + [Change(target, content, Outsider)])
  }

  datatype Action =
    | Begins(t: Token, target: Path, expected: Option<Hash>, extra: set<Key>, body: Body)
    | Locks(t: Token, k: Key)
    | Checks(t: Token)
    | Chunks(t: Token, offset: U64, content: seq<Byte>, io: Io)
    | Rechecks(t: Token)
    | Renames(t: Token)
    | Responds(t: Token, ok: bool)
    | Fails(t: Token)
    | Crashes(agent: nat)
    | Writes(target: Path, text: Option<seq<Byte>>)

  function Step(h: seq<Byte> -> Hash, w: World, a: Action): World {
    match a
    case Begins(t, target, expected, extra, body) => Begin(w, t, target, expected, extra, body)
    case Locks(t, k) => TryLock(w, t, k)
    case Checks(t) => FirstCheck(h, w, t)
    case Chunks(t, offset, content, io) => PutChunk(w, t, offset, content, io)
    case Rechecks(t) => SecondCheck(h, w, t)
    case Renames(t) => Rename(w, t)
    case Responds(t, ok) => Respond(w, t, ok)
    case Fails(t) => Fail(w, t)
    case Crashes(agent) => Crash(w, agent)
    case Writes(target, text) => OutsiderWrites(w, target, text)
  }

  function Run(h: seq<Byte> -> Hash, w: World, actions: seq<Action>): World
    decreases |actions|
  {
    if actions == [] then w else Run(h, Step(h, w, actions[0]), actions[1..])
  }

  function Fresh(files: map<Path, seq<Byte>>): World {
    World(files, map[], map[], [], [], 0)
  }

  // ---- the invariant --------------------------------------------------------------------------

  /** The files after a history of changes. */
  function FilesAfter(files: map<Path, seq<Byte>>, history: seq<Change>): map<Path, seq<Byte>> {
    if history == [] then files
    else
      var c := history[|history| - 1];
      var before := FilesAfter(files, history[..|history| - 1]);
      if c.content.Some? then before[c.target := c.content.value] else before - {c.target}
  }

  /** Every lock file a save needs it holds already, unless it is still to take it; the target's own is among them. */
  ghost predicate Secured(locks: map<Key, Token>, t: Token, work: Work) {
    && PathKey(work.req.target) in work.req.keys
    && (work.stage.Locking? ==> work.stage.todo <= work.req.keys)
    && (forall k :: k in work.req.keys ==>
          ((k in locks && locks[k] == t) <==> !(work.stage.Locking? && k in work.stage.todo)))
  }

  ghost predicate LocksOk(w: World) {
    && (forall k :: k in w.locks ==> w.locks[k] in w.works && k in w.works[w.locks[k]].req.keys)
    && (forall t :: t in w.works ==> Secured(w.locks, t, w.works[t]))
  }

  /** From `i` on and before `j` only outsiders changed this target. */
  ghost predicate OnlyOutsiders(history: seq<Change>, target: Path, i: nat, j: nat)
    requires j <= |history|
  {
    forall k :: i <= k < j && history[k].target == target ==> history[k].author.Outsider?
  }

  /** The expected version was there at the second check, and only outsiders have changed it since. */
  ghost predicate SawExpected(h: seq<Byte> -> Hash, initial: map<Path, seq<Byte>>, history: seq<Change>,
                              target: Path, expected: Option<Hash>, seen: nat, now: nat)
    requires now <= |history|
  {
    && seen <= now
    && HashAt(h, FilesAfter(initial, history[..seen]), target) == expected
    && OnlyOutsiders(history, target, seen, now)
  }

  ghost predicate WorkOk(h: seq<Byte> -> Hash, initial: map<Path, seq<Byte>>, history: seq<Change>, work: Work) {
    && (work.body.Chunked? ==> Assembled(work.body.upload))
    && (work.stage.Checked? ==> Complete(h, work.body))
    && (work.stage.Checked? ==>
          SawExpected(h, initial, history, work.req.target, work.req.expected, work.stage.seen, |history|))
  }

  ghost predicate WorksOk(h: seq<Byte> -> Hash, initial: map<Path, seq<Byte>>, w: World) {
    forall t :: t in w.works ==> WorkOk(h, initial, w.history, w.works[t])
  }

  predicate SavedBy(c: Change, rid: nat) {
    c.author.Save? && c.author.rid == rid
  }

  ghost predicate Saved(history: seq<Change>, rid: nat) {
    exists i :: 0 <= i < |history| && SavedBy(history[i], rid)
  }

  /** What a save that changed a file had seen there, and what it put there. */
  ghost predicate ChangeOk(h: seq<Byte> -> Hash, initial: map<Path, seq<Byte>>, history: seq<Change>, i: nat)
    requires i < |history|
  {
    var c := history[i];
    c.author.Save? ==>
      && c.content.Some?
      && SawExpected(h, initial, history, c.target, c.author.expected, c.author.seen, i)
      && (c.author.declared.Some? ==> h(c.content.value) == c.author.declared.value)
  }

  ghost predicate HistoryOk(h: seq<Byte> -> Hash, initial: map<Path, seq<Byte>>, w: World) {
    && w.files == FilesAfter(initial, w.history)
    && (forall i :: 0 <= i < |w.history| ==> ChangeOk(h, initial, w.history, i))
  }

  /** Requests are told apart by number, answered at most once, and answered truthfully. */
  ghost predicate AnswersOk(w: World) {
    && (forall t :: t in w.works ==>
          && w.works[t].req.rid < w.nextRid
          && (w.works[t].stage.Renamed? <==> Saved(w.history, w.works[t].req.rid))
          && (forall i :: 0 <= i < |w.answers| ==> w.answers[i].rid != w.works[t].req.rid))
    && (forall t, s :: t in w.works && s in w.works && t != s ==> w.works[t].req.rid != w.works[s].req.rid)
    && (forall i :: 0 <= i < |w.history| && w.history[i].author.Save? ==> w.history[i].author.rid < w.nextRid)
    && (forall i :: 0 <= i < |w.answers| ==>
          && w.answers[i].rid < w.nextRid
          && (w.answers[i].Applied? ==> Saved(w.history, w.answers[i].rid))
          && (w.answers[i].Conflicted? ==> !Saved(w.history, w.answers[i].rid)))
  }

  ghost predicate Inv(h: seq<Byte> -> Hash, initial: map<Path, seq<Byte>>, w: World) {
    LocksOk(w) && WorksOk(h, initial, w) && HistoryOk(h, initial, w) && AnswersOk(w)
  }

  /** Two saves of one target are never both past their locks. */
  lemma OneHolder(w: World, t: Token, s: Token)
    requires LocksOk(w) && t in w.works && s in w.works && t != s
    requires !w.works[t].stage.Locking? && !w.works[s].stage.Locking?
    ensures w.works[t].req.target != w.works[s].req.target
  {
    assert Secured(w.locks, t, w.works[t]) && Secured(w.locks, s, w.works[s]);
  }

  lemma EndLocks(w: World, t: Token, answer: Answer)
    requires LocksOk(w) && t in w.works
    ensures LocksOk(End(w, t, answer))
  {
    var next := End(w, t, answer);
    forall s | s in next.works ensures Secured(next.locks, s, next.works[s]) {
      assert Secured(w.locks, s, w.works[s]);
    }
  }

  lemma EndAnswers(w: World, t: Token, answer: Answer)
    requires AnswersOk(w) && t in w.works && answer.rid == w.works[t].req.rid
    requires answer.Applied? ==> w.works[t].stage.Renamed?
    requires answer.Conflicted? ==> !w.works[t].stage.Renamed?
    ensures AnswersOk(End(w, t, answer))
  {
    var next := End(w, t, answer);
    forall i | 0 <= i < |next.answers|
      ensures next.answers[i].rid < next.nextRid
      ensures next.answers[i].Applied? ==> Saved(next.history, next.answers[i].rid)
      ensures next.answers[i].Conflicted? ==> !Saved(next.history, next.answers[i].rid)
      ensures forall s :: s in next.works ==> next.answers[i].rid != next.works[s].req.rid
    {
      if i < |w.answers| {
        assert next.answers[i] == w.answers[i];
      }
    }
  }

  lemma EndKeeps(h: seq<Byte> -> Hash, initial: map<Path, seq<Byte>>, w: World, t: Token, answer: Answer)
    requires Inv(h, initial, w) && t in w.works && answer.rid == w.works[t].req.rid
    requires answer.Applied? ==> w.works[t].stage.Renamed?
    requires answer.Conflicted? ==> !w.works[t].stage.Renamed?
    ensures Inv(h, initial, End(w, t, answer))
  {
    EndLocks(w, t, answer);
    EndAnswers(w, t, answer);
  }

  lemma MoveLocks(w: World, t: Token, work: Work)
    requires LocksOk(w) && t in w.works && work.req == w.works[t].req
    requires !w.works[t].stage.Locking? && !work.stage.Locking?
    ensures LocksOk(w.(works := w.works[t := work]))
  {
    var next := w.(works := w.works[t := work]);
    forall s | s in next.works ensures Secured(next.locks, s, next.works[s]) {
      assert Secured(w.locks, s, w.works[s]);
    }
  }

  lemma MoveAnswers(w: World, t: Token, work: Work)
    requires AnswersOk(w) && t in w.works && work.req == w.works[t].req
    requires !w.works[t].stage.Renamed? && !work.stage.Renamed?
    ensures AnswersOk(w.(works := w.works[t := work]))
  {
  }

  /** One save moves on within its request, touching neither files nor locks. */
  lemma MoveKeeps(h: seq<Byte> -> Hash, initial: map<Path, seq<Byte>>, w: World, t: Token, work: Work)
    requires Inv(h, initial, w) && t in w.works && work.req == w.works[t].req
    requires !w.works[t].stage.Locking? && !w.works[t].stage.Renamed? && !work.stage.Locking? && !work.stage.Renamed?
    requires WorkOk(h, initial, w.history, work)
    ensures Inv(h, initial, w.(works := w.works[t := work]))
  {
    MoveLocks(w, t, work);
    MoveAnswers(w, t, work);
    var next := w.(works := w.works[t := work]);
    forall s | s in next.works ensures WorkOk(h, initial, next.history, next.works[s]) {
      assert s != t ==> WorkOk(h, initial, w.history, w.works[s]);
    }
  }

  lemma BeginAnswers(w: World, t: Token, target: Path, expected: Option<Hash>, extra: set<Key>, body: Body)
    requires AnswersOk(w)
    ensures AnswersOk(Begin(w, t, target, expected, extra, body))
  {
    assert !Saved(w.history, w.nextRid);
  }

  lemma BeginKeeps(h: seq<Byte> -> Hash, initial: map<Path, seq<Byte>>, w: World,
                   t: Token, target: Path, expected: Option<Hash>, extra: set<Key>, body: Body)
    requires Inv(h, initial, w)
    ensures Inv(h, initial, Begin(w, t, target, expected, extra, body))
  {
    BeginLocks(w, t, target, expected, extra, body);
    BeginAnswers(w, t, target, expected, extra, body);
    var next := Begin(w, t, target, expected, extra, body);
    forall s | s in next.works ensures WorkOk(h, initial, next.history, next.works[s]) {
      assert s in w.works ==> WorkOk(h, initial, w.history, w.works[s]);
    }
  }

  lemma BeginLocks(w: World, t: Token, target: Path, expected: Option<Hash>, extra: set<Key>, body: Body)
    requires LocksOk(w)
    ensures LocksOk(Begin(w, t, target, expected, extra, body))
  {
    var next := Begin(w, t, target, expected, extra, body);
    if t !in w.works && next != w {
      assert Secured(next.locks, t, next.works[t]);
      forall s | s in next.works && s != t ensures Secured(next.locks, s, next.works[s]) {
        assert Secured(w.locks, s, w.works[s]);
      }
    }
  }

  lemma LockTakenLocks(w: World, t: Token, k: Key)
    requires LocksOk(w) && t in w.works && w.works[t].stage.Locking? && k in w.works[t].stage.todo && k !in w.locks
    ensures LocksOk(TryLock(w, t, k))
  {
    var next := TryLock(w, t, k);
    var rest := w.works[t].stage.todo - {k};
    forall s | s in next.works ensures Secured(next.locks, s, next.works[s]) {
      assert Secured(w.locks, s, w.works[s]);
      assert forall j :: j in w.works[t].stage.todo && j != k ==> j in rest;
    }
  }

  lemma LockTakenKeeps(h: seq<Byte> -> Hash, initial: map<Path, seq<Byte>>, w: World, t: Token, k: Key)
    requires Inv(h, initial, w)
    requires t in w.works && w.works[t].stage.Locking? && k in w.works[t].stage.todo && k !in w.locks
    ensures Inv(h, initial, TryLock(w, t, k))
  {
    LockTakenLocks(w, t, k);
    var next := TryLock(w, t, k);
    forall s | s in next.works ensures WorkOk(h, initial, next.history, next.works[s]) {
      assert WorkOk(h, initial, w.history, w.works[s]);
    }
  }

  lemma TryLockKeeps(h: seq<Byte> -> Hash, initial: map<Path, seq<Byte>>, w: World, t: Token, k: Key)
    requires Inv(h, initial, w)
    ensures Inv(h, initial, TryLock(w, t, k))
  {
    if t in w.works && w.works[t].stage.Locking? && k in w.works[t].stage.todo {
      if k in w.locks {
        EndKeeps(h, initial, w, t, Failed(w.works[t].req.rid));
      } else {
        LockTakenKeeps(h, initial, w, t, k);
      }
    }
  }

  lemma ChecksKeep(h: seq<Byte> -> Hash, initial: map<Path, seq<Byte>>, w: World, t: Token)
    requires Inv(h, initial, w)
    ensures Inv(h, initial, FirstCheck(h, w, t)) && Inv(h, initial, SecondCheck(h, w, t))
  {
    if t in w.works {
      var work := w.works[t];
      if work.stage.Locked? || work.stage.Staged? {
        EndKeeps(h, initial, w, t, Conflicted(work.req.rid));
        EndKeeps(h, initial, w, t, Failed(work.req.rid));
        if HashAt(h, w.files, work.req.target) == work.req.expected {
          MoveKeeps(h, initial, w, t, work.(stage := Staged));
          if Complete(h, work.body) {
            assert w.history[..|w.history|] == w.history;
            MoveKeeps(h, initial, w, t, work.(stage := Checked(|w.history|)));
          }
        }
      }
    }
  }

  lemma ChunkKeeps(h: seq<Byte> -> Hash, initial: map<Path, seq<Byte>>, w: World,
                   t: Token, offset: U64, content: seq<Byte>, io: Io)
    requires Inv(h, initial, w)
    ensures Inv(h, initial, PutChunk(w, t, offset, content, io))
  {
    if t in w.works && w.works[t].stage.Staged? && w.works[t].body.Chunked? {
      var work := w.works[t];
      ChunkKeepsAssembly(work.body.upload, offset, content, io);
      MoveKeeps(h, initial, w, t, work.(body := Chunked(ChunkStep(work.body.upload, offset, content, io).0)));
    }
  }

  lemma FilesAfterAppend(files: map<Path, seq<Byte>>, history: seq<Change>, c: Change)
    ensures FilesAfter(files, history + [c]) ==
            if c.content.Some? then FilesAfter(files, history)[c.target := c.content.value]
            else FilesAfter(files, history) - {c.target}
  {
    assert (history + [c])[..|history|] == history;
  }

  /** What was seen earlier does not depend on what comes later. */
  lemma SawStill(h: seq<Byte> -> Hash, initial: map<Path, seq<Byte>>, history: seq<Change>, c: Change,
                 target: Path, expected: Option<Hash>, seen: nat, now: nat)
    requires now <= |history| && SawExpected(h, initial, history, target, expected, seen, now)
    ensures SawExpected(h, initial, history + [c], target, expected, seen, now)
  {
    assert (history + [c])[..seen] == history[..seen];
  }

  lemma WorkStill(h: seq<Byte> -> Hash, initial: map<Path, seq<Byte>>, history: seq<Change>, c: Change, work: Work)
    requires WorkOk(h, initial, history, work)
    requires work.stage.Checked? && c.target == work.req.target ==> c.author.Outsider?
    ensures WorkOk(h, initial, history + [c], work)
  {
    if work.stage.Checked? {
      SawStill(h, initial, history, c, work.req.target, work.req.expected, work.stage.seen, |history|);
    }
  }

  lemma HistoryGrows(h: seq<Byte> -> Hash, initial: map<Path, seq<Byte>>, history: seq<Change>, c: Change)
    requires forall i :: 0 <= i < |history| ==> ChangeOk(h, initial, history, i)
    requires c.author.Save? ==>
               && c.content.Some?
               && SawExpected(h, initial, history, c.target, c.author.expected, c.author.seen, |history|)
               && (c.author.declared.Some? ==> h(c.content.value) == c.author.declared.value)
    ensures forall i :: 0 <= i < |history + [c]| ==> ChangeOk(h, initial, history + [c], i)
  {
    var more := history + [c];
    forall i | 0 <= i < |more| ensures ChangeOk(h, initial, more, i) {
      var author := more[i].author;
      if author.Save? {
        assert i < |history| ==> ChangeOk(h, initial, history, i);
        SawStill(h, initial, history, c, more[i].target, author.expected, author.seen, i);
      }
    }
  }

  lemma SavedGrows(history: seq<Change>, c: Change, rid: nat)
    ensures Saved(history + [c], rid) <==> Saved(history, rid) || SavedBy(c, rid)
  {
    var more := history + [c];
    if Saved(history, rid) {
      var i :| 0 <= i < |history| && SavedBy(history[i], rid);
      assert SavedBy(more[i], rid);
    }
    if SavedBy(c, rid) {
      assert SavedBy(more[|history|], rid);
    }
    if Saved(more, rid) {
      var i :| 0 <= i < |more| && SavedBy(more[i], rid);
      assert i < |history| ==> SavedBy(history[i], rid);
    }
  }

  /** Renaming disturbs no other save's check: nobody else is past the locks of this target. */
  lemma RenameWorks(h: seq<Byte> -> Hash, initial: map<Path, seq<Byte>>, w: World, t: Token)
    requires LocksOk(w) && WorksOk(h, initial, w) && t in w.works && w.works[t].stage.Checked?
    ensures WorksOk(h, initial, Rename(w, t)) && LocksOk(Rename(w, t))
  {
    var next := Rename(w, t);
    var c := next.history[|w.history|];
    forall s | s in next.works ensures WorkOk(h, initial, next.history, next.works[s]) {
      if s != t {
        if w.works[s].stage.Checked? {
          OneHolder(w, t, s);
        }
        WorkStill(h, initial, w.history, c, w.works[s]);
        assert next.history == w.history + [c];
      } else {
        assert WorkOk(h, initial, w.history, w.works[t]);
      }
    }
    forall s | s in next.works ensures Secured(next.locks, s, next.works[s]) {
      assert s in w.works ==> Secured(w.locks, s, w.works[s]);
    }
  }

  lemma RenameAnswers(w: World, t: Token)
    requires AnswersOk(w) && t in w.works && w.works[t].stage.Checked?
    ensures AnswersOk(Rename(w, t))
  {
    var next := Rename(w, t);
    var c := next.history[|w.history|];
    assert next.history == w.history + [c];
    forall rid ensures Saved(next.history, rid) <==> Saved(w.history, rid) || rid == w.works[t].req.rid {
      SavedGrows(w.history, c, rid);
    }
    forall i | 0 <= i < |next.history| && next.history[i].author.Save? ensures next.history[i].author.rid < next.nextRid {
      assert i < |w.history| ==> next.history[i] == w.history[i];
    }
  }

  lemma RenameKeeps(h: seq<Byte> -> Hash, initial: map<Path, seq<Byte>>, w: World, t: Token)
    requires Inv(h, initial, w)
    ensures Inv(h, initial, Rename(w, t))
  {
    if t in w.works && w.works[t].stage.Checked? {
      var next := Rename(w, t);
      var c := next.history[|w.history|];
      assert next.history == w.history + [c];
      assert WorkOk(h, initial, w.history, w.works[t]);
      RenameWorks(h, initial, w, t);
      RenameAnswers(w, t);
      FilesAfterAppend(initial, w.history, c);
      HistoryGrows(h, initial, w.history, c);
    }
  }

  lemma CrashKeeps(h: seq<Byte> -> Hash, initial: map<Path, seq<Byte>>, w: World, agent: nat)
    requires Inv(h, initial, w)
    ensures Inv(h, initial, Crash(w, agent))
  {
    var next := Crash(w, agent);
    forall s | s in next.works ensures Secured(next.locks, s, next.works[s]) {
      assert s in w.works ==> Secured(w.locks, s, w.works[s]);
    }
  }

  lemma OutsiderWorks(h: seq<Byte> -> Hash, initial: map<Path, seq<Byte>>, w: World, target: Path, content: Option<seq<Byte>>)
    requires LocksOk(w) && WorksOk(h, initial, w)
    ensures var next := OutsiderWrites(w, target, content); LocksOk(next) && WorksOk(h, initial, next)
  {
    forall s | s in w.works ensures Secured(w.locks, s, w.works[s]) {
    }
    forall s | s in w.works ensures WorkOk(h, initial, OutsiderWrites(w, target, content).history, w.works[s]) {
      WorkStill(h, initial, w.history, Change(target, content, Outsider), w.works[s]);
    }
  }

  lemma OutsiderKeeps(h: seq<Byte> -> Hash, initial: map<Path, seq<Byte>>, w: World, target: Path, content: Option<seq<Byte>>)
    requires Inv(h, initial, w)
    ensures Inv(h, initial, OutsiderWrites(w, target, content))
  {
    var next := OutsiderWrites(w, target, content);
    var c := Change(target, content, Outsider);
    OutsiderWorks(h, initial, w, target, content);
    FilesAfterAppend(initial, w.history, c);
    HistoryGrows(h, initial, w.history, c);
    forall rid ensures Saved(next.history, rid) <==> Saved(w.history, rid) {
      SavedGrows(w.history, c, rid);
    }
    forall i | 0 <= i < |next.history| && next.history[i].author.Save? ensures next.history[i].author.rid < next.nextRid {
      assert next.history[i] == w.history[i];
    }
  }

  lemma StepKeeps(h: seq<Byte> -> Hash, initial: map<Path, seq<Byte>>, w: World, a: Action)
    requires Inv(h, initial, w)
    ensures Inv(h, initial, Step(h, w, a))
  {
    match a {
      case Begins(t, target, expected, extra, body) => BeginKeeps(h, initial, w, t, target, expected, extra, body);
      case Locks(t, k) => TryLockKeeps(h, initial, w, t, k);
      case Checks(t) => ChecksKeep(h, initial, w, t);
      case Chunks(t, offset, content, io) => ChunkKeeps(h, initial, w, t, offset, content, io);
      case Rechecks(t) => ChecksKeep(h, initial, w, t);
      case Renames(t) => RenameKeeps(h, initial, w, t);
      case Responds(t, ok) => EndsKeep(h, initial, w, t, ok);
      case Fails(t) => EndsKeep(h, initial, w, t, true);
      case Crashes(agent) => CrashKeeps(h, initial, w, agent);
      case Writes(target, text) => OutsiderKeeps(h, initial, w, target, text);
    }
  }

  lemma EndsKeep(h: seq<Byte> -> Hash, initial: map<Path, seq<Byte>>, w: World, t: Token, ok: bool)
    requires Inv(h, initial, w)
    ensures Inv(h, initial, Respond(w, t, ok)) && Inv(h, initial, Fail(w, t))
  {
    if t in w.works {
      EndKeeps(h, initial, w, t, Failed(w.works[t].req.rid));
      if w.works[t].stage.Renamed? {
        EndKeeps(h, initial, w, t, Applied(w.works[t].req.rid));
      }
    }
  }

  lemma {:induction false} RunKeeps(h: seq<Byte> -> Hash, initial: map<Path, seq<Byte>>, w: World, actions: seq<Action>)
    requires Inv(h, initial, w)
    ensures Inv(h, initial, Run(h, w, actions))
    decreases |actions|
  {
    if actions != [] {
      StepKeeps(h, initial, w, actions[0]);
      RunKeeps(h, initial, Step(h, w, actions[0]), actions[1..]);
    }
  }

  // ---- the theorems ----------------------------------------------------------------------------

  /**
   Over every interleaving: the files are what the history says; a save that
   changed a target saw the version its request expected there, and whatever
   changed the target between that look and the rename was no save; an upload
   installs its declared hash.
   */
  lemma EverySaveSawWhatItExpected(h: seq<Byte> -> Hash, initial: map<Path, seq<Byte>>, actions: seq<Action>, i: nat)
    requires i < |Run(h, Fresh(initial), actions).history|
    ensures var w := Run(h, Fresh(initial), actions);
            && w.files == FilesAfter(initial, w.history)
            && ChangeOk(h, initial, w.history, i)
  {
    RunKeeps(h, initial, Fresh(initial), actions);
  }

  /** The change at `k` is the last of this target before `j`. */
  ghost predicate LastChange(history: seq<Change>, target: Path, k: nat, j: nat)
    requires k < j <= |history|
  {
    history[k].target == target && forall m :: k < m < j ==> history[m].target != target
  }

  /** Of what nobody changed since, the hash is what it was; otherwise it is what the last change left. */
  lemma {:induction false} LastSince(h: seq<Byte> -> Hash, initial: map<Path, seq<Byte>>, history: seq<Change>,
                                     target: Path, i: nat, j: nat) returns (last: Option<nat>)
    requires i <= j <= |history|
    ensures last.Some? ==> && i <= last.value < j && LastChange(history, target, last.value, j)
                           && HashAt(h, FilesAfter(initial, history[..j]), target) == HashOf(h, history[last.value].content)
    ensures last.None? ==>
              && (forall k :: i <= k < j ==> history[k].target != target)
              && HashAt(h, FilesAfter(initial, history[..j]), target) == HashAt(h, FilesAfter(initial, history[..i]), target)
    decreases j
  {
    if i == j {
      return None;
    }
    assert history[..j] == history[..j - 1] + [history[j - 1]];
    FilesAfterAppend(initial, history[..j - 1], history[j - 1]);
    if history[j - 1].target == target {
      last := Some(j - 1);
    } else {
      last := LastSince(h, initial, history, target, i, j - 1);
    }
  }

  /** From the save's look to its rename, in one history. */
  lemma ReplacedExactly(h: seq<Byte> -> Hash, initial: map<Path, seq<Byte>>, history: seq<Change>, i: nat)
    requires i < |history| && history[i].author.Save? && ChangeOk(h, initial, history, i)
    ensures ReplacedOther(h, initial, history, i) <==> OutsiderCame(h, history, i)
  {
    var c := history[i];
    var last := LastSince(h, initial, history, c.target, c.author.seen, i);
    if last.Some? {
      assert OnlyOutsiders(history, c.target, c.author.seen, i);
      assert forall k :: c.author.seen <= k < i && LastChange(history, c.target, k, i) ==> k == last.value;
    }
  }

  /** The save at `i` replaced another version than it expected. */
  ghost predicate ReplacedOther(h: seq<Byte> -> Hash, initial: map<Path, seq<Byte>>, history: seq<Change>, i: nat)
    requires i < |history| && history[i].author.Save?
  {
    HashAt(h, FilesAfter(initial, history[..i]), history[i].target) != history[i].author.expected
  }

  /** After the second check of the save at `i`, an outsider made the last change of the target, to another version. */
  ghost predicate OutsiderCame(h: seq<Byte> -> Hash, history: seq<Change>, i: nat)
    requires i < |history| && history[i].author.Save?
  {
    exists k :: && history[i].author.seen <= k < i && LastChange(history, history[i].target, k, i)
                && history[k].author.Outsider? && HashOf(h, history[k].content) != history[i].author.expected
  }

  /**
   What a save replaced: another version than it expected if and only if an
   outsider made the last change of the target before the rename, after the
   second check, and left another version there.
   */
  lemma EverySaveReplacesWhatItExpected(h: seq<Byte> -> Hash, initial: map<Path, seq<Byte>>, actions: seq<Action>, i: nat)
    requires var history := Run(h, Fresh(initial), actions).history; i < |history| && history[i].author.Save?
    ensures var history := Run(h, Fresh(initial), actions).history;
            ReplacedOther(h, initial, history, i) <==> OutsiderCame(h, history, i)
  {
    RunKeeps(h, initial, Fresh(initial), actions);
    ReplacedExactly(h, initial, Run(h, Fresh(initial), actions).history, i);
  }

  ghost predicate AllSaves(history: seq<Change>) {
    forall i :: 0 <= i < |history| ==> history[i].author.Save?
  }

  /** Where nobody writes past the locks, every save replaced exactly the version it expected. */
  lemma WithoutOutsiders(h: seq<Byte> -> Hash, initial: map<Path, seq<Byte>>, actions: seq<Action>, i: nat)
    requires forall a :: a in actions ==> !a.Writes?
    requires i < |Run(h, Fresh(initial), actions).history|
    ensures var history := Run(h, Fresh(initial), actions).history;
            && history[i].author.Save?
            && HashAt(h, FilesAfter(initial, history[..i]), history[i].target) == history[i].author.expected
  {
    NoOutsiderAppears(h, Fresh(initial), actions);
    EverySaveReplacesWhatItExpected(h, initial, actions, i);
  }

  lemma {:induction false} NoOutsiderAppears(h: seq<Byte> -> Hash, w: World, actions: seq<Action>)
    requires AllSaves(w.history) && forall a :: a in actions ==> !a.Writes?
    ensures AllSaves(Run(h, w, actions).history)
    decreases |actions|
  {
    if actions != [] {
      assert actions[0] in actions;
      assert AllSaves(Step(h, w, actions[0]).history);
      NoOutsiderAppears(h, Step(h, w, actions[0]), actions[1..]);
    }
  }

  lemma NoLostUpdateIn(h: seq<Byte> -> Hash, initial: map<Path, seq<Byte>>, history: seq<Change>, i: nat, j: nat)
    requires i < j < |history| && ChangeOk(h, initial, history, j) && SameSaves(h, history, i, j)
    ensures PutBack(h, history, i, j)
  {
    var c := history[j];
    assert i < c.author.seen;
    var last := LastSince(h, initial, history, c.target, i, c.author.seen);
  }

  /** Two saves of one target that expected one version, the earlier of which put another there. */
  ghost predicate SameSaves(h: seq<Byte> -> Hash, history: seq<Change>, i: nat, j: nat)
    requires i < j < |history|
  {
    && history[i].author.Save? && history[j].author.Save?
    && history[i].target == history[j].target && history[i].author.expected == history[j].author.expected
    && HashOf(h, history[i].content) != history[j].author.expected
  }

  /** In between somebody put the version back that the later save expected. */
  ghost predicate PutBack(h: seq<Byte> -> Hash, history: seq<Change>, i: nat, j: nat)
    requires i < j < |history| && history[j].author.Save?
  {
    exists k :: i < k < j && history[k].target == history[j].target && HashOf(h, history[k].content) == history[j].author.expected
  }

  /**
   No lost update: of two saves of one target that expected the same version,
   the later one can only have gone through if somebody put that version back
   in between.  What outsiders do makes no difference.
   */
  lemma NoLostUpdate(h: seq<Byte> -> Hash, initial: map<Path, seq<Byte>>, actions: seq<Action>, i: nat, j: nat)
    requires var history := Run(h, Fresh(initial), actions).history; i < j < |history| && SameSaves(h, history, i, j)
    ensures PutBack(h, Run(h, Fresh(initial), actions).history, i, j)
  {
    RunKeeps(h, initial, Fresh(initial), actions);
    NoLostUpdateIn(h, initial, Run(h, Fresh(initial), actions).history, i, j);
  }

  /** A request answered with a conflict changed nothing; one answered as applied changed its target. */
  lemma AnswersAreTrue(h: seq<Byte> -> Hash, initial: map<Path, seq<Byte>>, actions: seq<Action>, i: nat)
    requires i < |Run(h, Fresh(initial), actions).answers|
    ensures var w := Run(h, Fresh(initial), actions);
            && (w.answers[i].Conflicted? ==> !Saved(w.history, w.answers[i].rid))
            && (w.answers[i].Applied? ==> Saved(w.history, w.answers[i].rid))
  {
    RunKeeps(h, initial, Fresh(initial), actions);
  }

  lemma {:induction false} RunAppend(h: seq<Byte> -> Hash, w: World, first: seq<Action>, second: seq<Action>)
    ensures Run(h, w, first + second) == Run(h, Run(h, w, first), second)
    decreases |first|
  {
    if first == [] {
      assert first + second == second;
    } else {
      assert (first + second)[1..] == first[1..] + second;
      RunAppend(h, Step(h, w, first[0]), first[1..], second);
    }
  }

  lemma RunExtend(h: seq<Byte> -> Hash, w: World, actions: seq<Action>, a: Action)
    ensures Run(h, w, actions + [a]) == Step(h, Run(h, w, actions), a)
  {
    RunAppend(h, w, actions, [a]);
    assert [a][1..] == [];
  }

  // ---- what an answer means -------------------------------------------------------------------------

  /** The world after the first `n` actions. */
  function After(h: seq<Byte> -> Hash, initial: map<Path, seq<Byte>>, actions: seq<Action>, n: nat): World
    requires n <= |actions|
  {
    Run(h, Fresh(initial), actions[..n])
  }

  lemma AfterNext(h: seq<Byte> -> Hash, initial: map<Path, seq<Byte>>, actions: seq<Action>, n: nat)
    requires n < |actions|
    ensures After(h, initial, actions, n + 1) == Step(h, After(h, initial, actions, n), actions[n])
  {
    assert actions[..n + 1] == actions[..n] + [actions[n]];
    RunExtend(h, Fresh(initial), actions[..n], actions[n]);
  }

  lemma AnswersGrow(h: seq<Byte> -> Hash, w: World, a: Action)
    ensures var next := Step(h, w, a).answers;
            next == w.answers || (|next| == |w.answers| + 1 && next[..|w.answers|] == w.answers)
  {
  }

  /** The action that gave an answer. */
  lemma {:induction false} AnsweredBy(h: seq<Byte> -> Hash, initial: map<Path, seq<Byte>>, actions: seq<Action>, m: nat, i: nat)
    returns (n: nat)
    requires m <= |actions| && i < |After(h, initial, actions, m).answers|
    ensures n < m && |After(h, initial, actions, n).answers| == i && i < |After(h, initial, actions, n + 1).answers|
    ensures After(h, initial, actions, n + 1).answers[i] == After(h, initial, actions, m).answers[i]
    decreases m
  {
    assert actions[..0] == [];
    AfterNext(h, initial, actions, m - 1);
    AnswersGrow(h, After(h, initial, actions, m - 1), actions[m - 1]);
    if i < |After(h, initial, actions, m - 1).answers| {
      n := AnsweredBy(h, initial, actions, m - 1, i);
    } else {
      n := m - 1;
    }
  }

  /** The request of a save in progress is the one it began with. */
  lemma {:induction false} BegunBy(h: seq<Byte> -> Hash, initial: map<Path, seq<Byte>>, actions: seq<Action>, m: nat, t: Token)
    returns (b: nat)
    requires m <= |actions| && t in After(h, initial, actions, m).works
    ensures b < m && actions[b].Begins? && actions[b].t == t
    ensures var req := After(h, initial, actions, m).works[t].req;
            && req.target == actions[b].target && req.expected == actions[b].expected
            && req.keys == actions[b].extra + {actions[b].target} && req.rid == After(h, initial, actions, b).nextRid
    ensures var body := After(h, initial, actions, m).works[t].body;
            body.Direct? == actions[b].body.Direct? && (body.Direct? ==> body == actions[b].body)
    decreases m
  {
    assert actions[..0] == [];
    AfterNext(h, initial, actions, m - 1);
    var before := After(h, initial, actions, m - 1);
    StepKeepsRequest(h, before, actions[m - 1], t);
    if t in before.works {
      b := BegunBy(h, initial, actions, m - 1, t);
    } else {
      b := m - 1;
    }
  }

  lemma StepKeepsRequest(h: seq<Byte> -> Hash, w: World, a: Action, t: Token)
    requires t in Step(h, w, a).works
    ensures t in w.works ==>
              var work := Step(h, w, a).works[t];
              && work.req == w.works[t].req && work.body.Direct? == w.works[t].body.Direct?
              && (work.body.Direct? ==> work.body == w.works[t].body)
    ensures t !in w.works ==>
              && a.Begins? && a.t == t && Step(h, w, a).works[t].body == a.body
              && var req := Step(h, w, a).works[t].req;
                 && req.rid == w.nextRid && req.target == a.target && req.expected == a.expected
                 && req.keys == a.extra + {a.target}
  {
  }

  /** The save holds every lock file it needs. */
  ghost predicate HoldsAll(w: World, t: Token) {
    t in w.works && forall k :: k in w.works[t].req.keys ==> k in w.locks && w.locks[k] == t
  }

  /** What was the case when a save got this answer from this action. */
  ghost predicate Warranted(h: seq<Byte> -> Hash, w: World, a: Action, t: Token, answer: Answer) {
    && t in w.works && answer.rid == w.works[t].req.rid
    && var work := w.works[t];
       match answer
       case Conflicted(_) =>
         HoldsAll(w, t) && !work.stage.Renamed? && HashAt(h, w.files, work.req.target) != work.req.expected
       case Applied(_) => work.stage.Renamed? && a == Responds(t, true)
       case Failed(_) =>
         || (a.Locks? && a.t == t && a.k in work.req.keys && a.k in w.locks && w.locks[a.k] != t)
         || (a == Rechecks(t) && !Complete(h, work.body))
         || a == Fails(t) || a == Responds(t, false)
  }

  lemma LockAnswer(h: seq<Byte> -> Hash, w: World, t: Token, k: Key)
    requires LocksOk(w) && |TryLock(w, t, k).answers| > |w.answers|
    ensures Warranted(h, w, Locks(t, k), t, TryLock(w, t, k).answers[|w.answers|])
  {
    assert Secured(w.locks, t, w.works[t]);
  }

  lemma CheckAnswer(h: seq<Byte> -> Hash, w: World, t: Token)
    requires LocksOk(w)
    ensures |FirstCheck(h, w, t).answers| > |w.answers| ==> Warranted(h, w, Checks(t), t, FirstCheck(h, w, t).answers[|w.answers|])
    ensures |SecondCheck(h, w, t).answers| > |w.answers| ==> Warranted(h, w, Rechecks(t), t, SecondCheck(h, w, t).answers[|w.answers|])
  {
    if t in w.works {
      assert Secured(w.locks, t, w.works[t]);
    }
  }

  lemma AnswerIsWarranted(h: seq<Byte> -> Hash, w: World, a: Action) returns (t: Token)
    requires LocksOk(w) && |Step(h, w, a).answers| > |w.answers|
    ensures Warranted(h, w, a, t, Step(h, w, a).answers[|w.answers|])
  {
    t := a.t;
    match a {
      case Locks(_, k) => LockAnswer(h, w, t, k);
      case Checks(_) => CheckAnswer(h, w, t);
      case Rechecks(_) => CheckAnswer(h, w, t);
      case _ =>
    }
  }

  /**
   What an answer means, over every interleaving: the action that gave it, the
   save that got it, and what was the case then.  A conflict: the save held all
   its lock files and the target did not have the version its request had
   asked for.  Applied: its rename had taken effect.  An error: a lock file was
   another save's, the upload was incomplete, or something failed.
   */
  lemma AnswersMean(h: seq<Byte> -> Hash, initial: map<Path, seq<Byte>>, actions: seq<Action>, i: nat)
    returns (n: nat, t: Token, b: nat)
    requires i < |Run(h, Fresh(initial), actions).answers|
    ensures b < n < |actions|
    ensures Warranted(h, After(h, initial, actions, n), actions[n], t, Run(h, Fresh(initial), actions).answers[i])
    ensures After(h, initial, actions, n).files == FilesAfter(initial, After(h, initial, actions, n).history)
    ensures var req := After(h, initial, actions, n).works[t].req;
            && actions[b].Begins? && req.target == actions[b].target && req.expected == actions[b].expected
            && req.keys == actions[b].extra + {actions[b].target} && req.rid == After(h, initial, actions, b).nextRid
  {
    assert actions[..|actions|] == actions;
    n := AnsweredBy(h, initial, actions, |actions|, i);
    RunKeeps(h, initial, Fresh(initial), actions[..n]);
    AfterNext(h, initial, actions, n);
    t := AnswerIsWarranted(h, After(h, initial, actions, n), actions[n]);
    b := BegunBy(h, initial, actions, n, t);
  }

  lemma HistoryGrowsByOne(h: seq<Byte> -> Hash, w: World, a: Action)
    ensures var next := Step(h, w, a).history;
            next == w.history || (|next| == |w.history| + 1 && next[..|w.history|] == w.history)
    ensures |Step(h, w, a).history| > |w.history| && Step(h, w, a).history[|w.history|].author.Save? ==>
              && a.Renames? && a.t in w.works && w.works[a.t].stage.Checked?
              && var c, work := Step(h, w, a).history[|w.history|], w.works[a.t];
                 && c.target == work.req.target && c.content == Some(Content(work.body))
                 && c.author.rid == work.req.rid && c.author.expected == work.req.expected && c.author.seen == work.stage.seen
  {
  }

  /** The action that made a change. */
  lemma {:induction false} ChangedBy(h: seq<Byte> -> Hash, initial: map<Path, seq<Byte>>, actions: seq<Action>, m: nat, i: nat)
    returns (n: nat)
    requires m <= |actions| && i < |After(h, initial, actions, m).history|
    ensures n < m && |After(h, initial, actions, n).history| == i && i < |After(h, initial, actions, n + 1).history|
    ensures After(h, initial, actions, n + 1).history[i] == After(h, initial, actions, m).history[i]
    decreases m
  {
    assert actions[..0] == [];
    AfterNext(h, initial, actions, m - 1);
    HistoryGrowsByOne(h, After(h, initial, actions, m - 1), actions[m - 1]);
    if i < |After(h, initial, actions, m - 1).history| {
      n := ChangedBy(h, initial, actions, m - 1, i);
    } else {
      n := m - 1;
    }
  }

  /**
   A save in the history of changes is one that was asked for: some request
   named its target and the version it expected, and for a save in one request
   the content is the one that came with it.
   */
  lemma SavesWereAskedFor(h: seq<Byte> -> Hash, initial: map<Path, seq<Byte>>, actions: seq<Action>, i: nat) returns (n: nat, b: nat)
    requires i < |Run(h, Fresh(initial), actions).history| && Run(h, Fresh(initial), actions).history[i].author.Save?
    ensures b < n < |actions| && actions[n].Renames? && actions[b].Begins? && actions[b].t == actions[n].t
    ensures var c := Run(h, Fresh(initial), actions).history[i];
            && c.target == actions[b].target && c.author.expected == actions[b].expected
            && c.author.rid == After(h, initial, actions, b).nextRid
            && (actions[b].body.Direct? ==> c.content == Some(actions[b].body.content))
  {
    assert actions[..|actions|] == actions;
    n := ChangedBy(h, initial, actions, |actions|, i);
    AfterNext(h, initial, actions, n);
    HistoryGrowsByOne(h, After(h, initial, actions, n), actions[n]);
    b := BegunBy(h, initial, actions, n, actions[n].t);
  }

  /** A token of no save, holding no lock file. */
  ghost predicate Unused(w: World, t: Token) {
    t !in w.works && forall k :: k in w.locks ==> w.locks[k] != t
  }

  /** The world with one more save in it, past its only lock file. */
  function Entered(w: World, t: Token, req: Request, stage: Stage, body: Body): World {
    w.(locks := w.locks[PathKey(req.target) := t], works := w.works[t := Work(req, stage, body)], nextRid := w.nextRid + 1)
  }

  /** A save of one target, alone, up to its first check. */
  lemma Enters(h: seq<Byte> -> Hash, w: World, t: Token, target: Path, expected: Option<Hash>, body: Body)
    returns (actions: seq<Action>)
    requires Unused(w, t) && PathKey(target) !in w.locks
    requires body.Chunked? ==> body.upload.written == 0 && body.upload.file == [] && body.upload.accepted == []
    ensures var req := Request(w.nextRid, target, expected, {PathKey(target)});
            Run(h, w, actions) == Entered(w, t, req, Locked, body)
  {
    var k := PathKey(target);
    assert {} + {k} == {k} && {k} - {k} == {};
    actions := [Begins(t, target, expected, {}, body)];
    assert actions[1..] == [];
    RunExtend(h, w, actions, Locks(t, k));
    actions := actions + [Locks(t, k)];
  }

  lemma LeavesClean(w: World, t: Token, req: Request, stage: Stage, body: Body, answer: Answer)
    requires Unused(w, t) && PathKey(req.target) !in w.locks
    ensures End(Entered(w, t, req, stage, body), t, answer) == w.(answers := w.answers + [answer], nextRid := w.nextRid + 1)
  {
    var last := End(Entered(w, t, req, stage, body), t, answer);
    assert last.locks == w.locks;
    assert last.works == w.works;
  }

  lemma EntersStage(w: World, t: Token, req: Request, stage: Stage, next: Stage, body: Body)
    ensures SetStage(Entered(w, t, req, stage, body), t, next) == Entered(w, t, req, next, body)
  {
    assert w.works[t := Work(req, stage, body)][t := Work(req, next, body)] == w.works[t := Work(req, next, body)];
  }

  /** Where the target has the expected version, both checks pass. */
  lemma Passes(h: seq<Byte> -> Hash, w: World, t: Token, target: Path, expected: Option<Hash>, mine: seq<Byte>)
    returns (actions: seq<Action>)
    requires Unused(w, t) && PathKey(target) !in w.locks && HashAt(h, w.files, target) == expected
    ensures var req := Request(w.nextRid, target, expected, {PathKey(target)});
            Run(h, w, actions) == Entered(w, t, req, Checked(|w.history|), Direct(mine))
  {
    var req, body := Request(w.nextRid, target, expected, {PathKey(target)}), Direct(mine);
    actions := Enters(h, w, t, target, expected, body);
    RunExtend(h, w, actions, Checks(t));
    EntersStage(w, t, req, Locked, Staged, body);
    actions := actions + [Checks(t)];
    RunExtend(h, w, actions, Rechecks(t));
    EntersStage(w, t, req, Staged, Checked(|w.history|), body);
    actions := actions + [Rechecks(t)];
  }

  lemma Conflicts(h: seq<Byte> -> Hash, w: World, t: Token, target: Path, expected: Option<Hash>, mine: seq<Byte>)
    returns (actions: seq<Action>)
    requires Unused(w, t) && PathKey(target) !in w.locks && HashAt(h, w.files, target) != expected
    ensures Run(h, w, actions) == w.(answers := w.answers + [Conflicted(w.nextRid)], nextRid := w.nextRid + 1)
  {
    var req, body := Request(w.nextRid, target, expected, {PathKey(target)}), Direct(mine);
    actions := Enters(h, w, t, target, expected, body);
    RunExtend(h, w, actions, Checks(t));
    actions := actions + [Checks(t)];
    LeavesClean(w, t, req, Locked, body, Conflicted(w.nextRid));
  }

  /** The world after a save's rename, before the save is in it. */
  function Changed(w: World, req: Request, body: Body, seen: nat): World {
    w.(files := w.files[req.target := Content(body)],
       history := w.history + [Change(req.target, Some(Content(body)), Save(req.rid, req.expected, DeclaredHash(body), seen))])
  }

  lemma RenamesAndAnswers(h: seq<Byte> -> Hash, w: World, t: Token, req: Request, seen: nat, body: Body)
    requires Unused(w, t) && PathKey(req.target) !in w.locks
    ensures Run(h, Entered(w, t, req, Checked(seen), body), [Renames(t), Responds(t, true)])
         == Changed(w, req, body, seen).(answers := w.answers + [Applied(req.rid)], nextRid := w.nextRid + 1)
  {
    var at := Entered(w, t, req, Checked(seen), body);
    var changed := Changed(w, req, body, seen);
    EntersStage(w, t, req, Checked(seen), Renamed, body);
    assert Rename(at, t) == Entered(changed, t, req, Renamed, body);
    LeavesClean(changed, t, req, Renamed, body, Applied(req.rid));
    var last := [Responds(t, true)];
    assert [Renames(t), Responds(t, true)] == [Renames(t)] + last;
    RunAppend(h, at, [Renames(t)], last);
    assert [Renames(t)][1..] == [] && last[1..] == [];
    assert Run(h, Rename(at, t), last) == Respond(Rename(at, t), t, true);
  }

  lemma ChunkArrives(w: World, t: Token, req: Request, u: Upload, mine: seq<Byte>)
    requires u.written == 0 && u.file == [] && u.accepted == [] && |mine| == u.size
    ensures PutChunk(Entered(w, t, req, Staged, Chunked(u)), t, 0, mine, Io.Complete)
         == Entered(w, t, req, Staged, Chunked(u.(file := mine, written := u.size, accepted := mine)))
  {
    assert [] + mine == mine && u.file[..0] == [];
    var full := Chunked(u.(file := mine, written := u.size, accepted := mine));
    assert w.works[t := Work(req, Staged, Chunked(u))][t := Work(req, Staged, full)] == w.works[t := Work(req, Staged, full)];
  }

  /** The same for an upload: its chunk arrives, has the declared size and hash, and is installed. */
  lemma AloneAnUploadSucceeds(h: seq<Byte> -> Hash, w: World, t: Token, target: Path, expected: Option<Hash>,
                              u: Upload, mine: seq<Byte>)
    returns (actions: seq<Action>)
    requires Unused(w, t) && PathKey(target) !in w.locks && HashAt(h, w.files, target) == expected
    requires u.written == 0 && u.file == [] && u.accepted == [] && |mine| == u.size && h(mine) == u.contentHash
    ensures var done := Run(h, w, actions);
            && done.locks == w.locks && done.works == w.works
            && done.files == w.files[target := mine] && done.answers == w.answers + [Applied(w.nextRid)]
  {
    var req := Request(w.nextRid, target, expected, {PathKey(target)});
    var full := Chunked(u.(file := mine, written := u.size, accepted := mine));
    actions := Enters(h, w, t, target, expected, Chunked(u));
    RunExtend(h, w, actions, Checks(t));
    EntersStage(w, t, req, Locked, Staged, Chunked(u));
    actions := actions + [Checks(t)];
    RunExtend(h, w, actions, Chunks(t, 0, mine, Io.Complete));
    ChunkArrives(w, t, req, u, mine);
    actions := actions + [Chunks(t, 0, mine, Io.Complete)];
    RunExtend(h, w, actions, Rechecks(t));
    EntersStage(w, t, req, Staged, Checked(|w.history|), full);
    actions := actions + [Rechecks(t)];
    RunAppend(h, w, actions, [Renames(t), Responds(t, true)]);
    RenamesAndAnswers(h, w, t, req, |w.history|, full);
    actions := actions + [Renames(t), Responds(t, true)];
  }

  /**
   In any world, a save nobody interferes with does what it is for: with the
   expected version in place its content is installed and reported as applied,
   otherwise nothing changes and a conflict is reported; its lock is released.
   */
  lemma AloneItSucceeds(h: seq<Byte> -> Hash, w: World, t: Token, target: Path, expected: Option<Hash>, mine: seq<Byte>)
    returns (actions: seq<Action>)
    requires Unused(w, t) && PathKey(target) !in w.locks
    ensures var done := Run(h, w, actions);
            && done.locks == w.locks && done.works == w.works
            && (if HashAt(h, w.files, target) == expected
                then done.files == w.files[target := mine] && done.answers == w.answers + [Applied(w.nextRid)]
                else done.files == w.files && done.answers == w.answers + [Conflicted(w.nextRid)])
  {
    if HashAt(h, w.files, target) == expected {
      var req := Request(w.nextRid, target, expected, {PathKey(target)});
      var first := Passes(h, w, t, target, expected, mine);
      actions := first + [Renames(t), Responds(t, true)];
      RunAppend(h, w, first, [Renames(t), Responds(t, true)]);
      RenamesAndAnswers(h, w, t, req, |w.history|, Direct(mine));
    } else {
      actions := Conflicts(h, w, t, target, expected, mine);
    }
  }

  /**
   A save that finds the target's lock file held by another one is answered
   with an error, and nothing else changes, whatever version it expected.
   */
  lemma ContendedSaveFails(h: seq<Byte> -> Hash, w: World, t: Token, target: Path, expected: Option<Hash>, mine: seq<Byte>)
    requires Unused(w, t) && PathKey(target) in w.locks
    ensures Run(h, w, [Begins(t, target, expected, {}, Direct(mine)), Locks(t, PathKey(target))])
         == w.(answers := w.answers + [Failed(w.nextRid)], nextRid := w.nextRid + 1)
  {
    var k := PathKey(target);
    var first, second := Begins(t, target, expected, {}, Direct(mine)), Locks(t, k);
    var work := Work(Request(w.nextRid, target, expected, {k}), Locking({k}), Direct(mine));
    assert {} + {k} == {k};
    assert [first, second] == [first] + [second] && [first][1..] == [];
    RunExtend(h, w, [first], second);
    assert Run(h, w, [first]) == w.(works := w.works[t := work], nextRid := w.nextRid + 1);
    ComesAndGoes(w, t, work, Failed(w.nextRid));
  }

  lemma ComesAndGoes(w: World, t: Token, work: Work, answer: Answer)
    requires Unused(w, t)
    ensures End(w.(works := w.works[t := work], nextRid := w.nextRid + 1), t, answer)
         == w.(answers := w.answers + [answer], nextRid := w.nextRid + 1)
  {
    var last := End(w.(works := w.works[t := work], nextRid := w.nextRid + 1), t, answer);
    assert last.locks == w.locks && last.works == w.works;
  }

  /** The window the second check leaves open: a write by an outsider just before the rename is lost. */
  lemma OutsiderInTheWindow(h: seq<Byte> -> Hash, target: Path, mine: seq<Byte>, theirs: seq<Byte>)
    returns (actions: seq<Action>)
    ensures var w := Run(h, Fresh(map[]), actions);
            && w.answers == [Applied(0)] && w.files == map[target := mine] && |w.history| == 2
            && w.history[0] == Change(target, Some(theirs), Outsider)
            && w.history[1] == Change(target, Some(mine), Save(0, None, None, 0))
  {
    var t, w: World := SaveToken(0), Fresh(map[]);
    var req := Request(0, target, None, {PathKey(target)});
    var written := w.(files := map[target := theirs], history := [Change(target, Some(theirs), Outsider)]);
    var first := Passes(h, w, t, target, None, mine);
    RunExtend(h, w, first, Writes(target, Some(theirs)));
    first := first + [Writes(target, Some(theirs))];
    assert Run(h, w, first) == Entered(written, t, req, Checked(0), Direct(mine));
    RunAppend(h, w, first, [Renames(t), Responds(t, true)]);
    RenamesAndAnswers(h, written, t, req, 0, Direct(mine));
    actions := first + [Renames(t), Responds(t, true)];
    assert map[target := theirs][target := mine] == map[target := mine];
  }
}
