/**
 The agent's table of chunked uploads (`uploads`, `active_write_targets` in
 crates/nrm-agent/src/main.rs): admission, assembly of chunks in a temporary
 file, expiry, and release.
 */
module Uploads {
  import opened Protocol

  const MAX_ACTIVE_UPLOADS: nat := 8
  const MAX_ACTIVE_UPLOAD_BYTES: nat := 512 * 1024 * 1024
  /** Milliseconds. */
  const UPLOAD_TTL: nat := 10 * 60 * 1000

  type Id = string
  type Key = string
  type Hash = string
  type Path = string

  /** `accepted` is history: the chunks answered with success, joined. */
  datatype Upload = Upload(
    path: Path,
    keys: set<Key>,
    expected: Option<Hash>,
    contentHash: Hash,
    size: U64,
    file: seq<Byte>,
    written: U64,
    accepted: seq<Byte>,
    createdAt: nat)

  // ---- one upload -------------------------------------------------------------------

  /** Writing `data` at `offset` of a file, as far as the write got; the file never shrinks. */
  function WriteAt(file: seq<Byte>, offset: nat, data: seq<Byte>): seq<Byte>
    requires offset <= |file|
  {
    if offset + |data| <= |file| then file[..offset] + data + file[offset + |data|..]
    else file[..offset] + data
  }

  datatype ChunkOutcome = Accepted(next: U64) | UnknownUpload | WrongOffset | TooLarge | WriteFailed

  /** How far the temporary file's write got: all of it, or an error after some prefix. */
  datatype Io = Complete | FailsAfter(bytes: nat)

  ghost predicate Assembled(u: Upload) {
    && u.written <= |u.file| <= u.size
    && |u.accepted| == u.written
    && u.file[..u.written] == u.accepted
  }

  /** `write_file_chunk` on an upload found in the table. */
  function ChunkStep(u: Upload, offset: U64, content: seq<Byte>, io: Io): (Upload, ChunkOutcome)
    requires u.written <= |u.file|
  {
    if offset != u.written then (u, WrongOffset)
    else if u.written + |content| > u.size then (u, TooLarge)
    else
      match io
      case Complete =>
        (u.(file := WriteAt(u.file, offset, content), written := offset + |content|, accepted := u.accepted + content),
         Accepted(offset + |content|))
      case FailsAfter(n) =>
        (u.(file := WriteAt(u.file, offset, content[..if n < |content| then n else |content|])), WriteFailed)
  }

  lemma WriteAtPrefix(file: seq<Byte>, offset: nat, data: seq<Byte>)
    requires offset <= |file|
    ensures var after := WriteAt(file, offset, data);
            && |after| == (if offset + |data| <= |file| then |file| else offset + |data|)
            && after[..offset] == file[..offset]
            && after[..offset + |data|] == file[..offset] + data
  {
  }

  /**
   A chunk, accepted, refused or broken off, leaves the first `written` bytes
   of the file equal to the accepted chunks and the file no longer than
   declared.  It is accepted exactly if it begins where the accepted chunks
   end, fits the declared size, and is written whole.
   */
  lemma ChunkKeepsAssembly(u: Upload, offset: U64, content: seq<Byte>, io: Io)
    requires Assembled(u)
    ensures var (v, outcome) := ChunkStep(u, offset, content, io);
            && Assembled(v)
            && (outcome.Accepted? <==> offset == |u.accepted| && |u.accepted + content| <= u.size && io.Complete?)
            && (outcome.WrongOffset? <==> offset != |u.accepted|)
            && (outcome.TooLarge? <==> offset == |u.accepted| && |u.accepted + content| > u.size)
            && !outcome.UnknownUpload?
            && (outcome.Accepted? ==> outcome.next == |v.accepted|)
            && v.accepted == (if outcome.Accepted? then u.accepted + content else u.accepted)
            && v == u.(file := v.file, written := v.written, accepted := v.accepted)
  {
    if offset == u.written && u.written + |content| <= u.size {
      match io {
        case Complete => WriteAtPrefix(u.file, offset, content);
        case FailsAfter(n) =>
          var part := content[..if n < |content| then n else |content|];
          WriteAtPrefix(u.file, offset, part);
          var after := WriteAt(u.file, offset, part);
          assert after[..u.written] == u.file[..u.written];
      }
    }
  }

  datatype ChunkCall = ChunkCall(offset: U64, content: seq<Byte>, io: Io)

  function ChunkRun(u: Upload, calls: seq<ChunkCall>): Upload
    requires Assembled(u)
    decreases |calls|
  {
    if calls == [] then u
    else
      ChunkKeepsAssembly(u, calls[0].offset, calls[0].content, calls[0].io);
      ChunkRun(ChunkStep(u, calls[0].offset, calls[0].content, calls[0].io).0, calls[1..])
  }

  /** The chunks of a run that were answered with success, joined. */
  function AcceptedIn(u: Upload, calls: seq<ChunkCall>): seq<Byte>
    requires Assembled(u)
    decreases |calls|
  {
    if calls == [] then []
    else
      ChunkKeepsAssembly(u, calls[0].offset, calls[0].content, calls[0].io);
      var (v, outcome) := ChunkStep(u, calls[0].offset, calls[0].content, calls[0].io);
      (if outcome.Accepted? then calls[0].content else []) + AcceptedIn(v, calls[1..])
  }

  /**
   For every sequence of chunks, broken off and retried in any way: once as
   many bytes are accepted as were declared, the temporary file is exactly the
   accepted chunks joined in order.
   */
  lemma {:induction false} CompleteFileIsAcceptedChunks(u: Upload, calls: seq<ChunkCall>)
    requires Assembled(u)
    ensures var v := ChunkRun(u, calls);
            && Assembled(v) && v.size == u.size
            && v.accepted == u.accepted + AcceptedIn(u, calls)
            && (v.written == v.size ==> v.file == u.accepted + AcceptedIn(u, calls))
    decreases |calls|
  {
    if calls == [] {
      assert u.accepted + [] == u.accepted;
      assert u.file[..|u.file|] == u.file;
    } else {
      ChunkKeepsAssembly(u, calls[0].offset, calls[0].content, calls[0].io);
      var (v, outcome) := ChunkStep(u, calls[0].offset, calls[0].content, calls[0].io);
      CompleteFileIsAcceptedChunks(v, calls[1..]);
      var head := if outcome.Accepted? then calls[0].content else [];
      assert u.accepted + (head + AcceptedIn(v, calls[1..])) == (u.accepted + head) + AcceptedIn(v, calls[1..]);
    }
  }

  // ---- the table ---------------------------------------------------------------------------

  type Table = map<Id, Upload>

  /** Keys of live uploads never overlap. */
  ghost predicate Disjoint(t: Table) {
    forall a, b :: a in t && b in t && a != b ==> t[a].keys !! t[b].keys
  }

  ghost function KeysOf(t: Table): set<Key> {
    set id, k | id in t && k in t[id].keys :: k
  }

  ghost function Declared(t: Table): nat {
    if t == map[] then 0
    else
      var id :| id in t;
      t[id].size + Declared(t - {id})
  }

  /** The declared total does not depend on the order of the uploads. */
  lemma {:induction false} DeclaredSplit(t: Table, id: Id)
    requires id in t
    ensures Declared(t) == t[id].size + Declared(t - {id})
    decreases |t|
  {
    var pick :| pick in t && Declared(t) == t[pick].size + Declared(t - {pick});
    if pick != id {
      var rest := t - {pick};
      DeclaredSplit(rest, id);
      assert rest - {id} == (t - {id}) - {pick};
      DeclaredSplit(t - {id}, pick);
    }
  }

  lemma DeclaredAdd(t: Table, id: Id, u: Upload)
    requires id !in t
    ensures Declared(t[id := u]) == Declared(t) + u.size && |t[id := u]| == |t| + 1
  {
    DeclaredSplit(t[id := u], id);
    assert t[id := u] - {id} == t;
  }

  lemma {:induction false} DeclaredSubset(t: Table, part: Table)
    requires part.Keys <= t.Keys && (forall id :: id in part ==> part[id].size == t[id].size)
    ensures Declared(part) <= Declared(t) && |part| <= |t|
    decreases |part|
  {
    if part != map[] {
      var id :| id in part;
      DeclaredSplit(part, id);
      DeclaredSplit(t, id);
      DeclaredSubset(t - {id}, part - {id});
    }
  }

  ghost predicate TableOk(t: Table, active: set<Key>) {
    && active == KeysOf(t)
    && Disjoint(t)
    && |t| <= 8
    && Declared(t) <= 0x2000_0000
    && (forall id :: id in t ==> Assembled(t[id]))
  }

  lemma RemoveKeepsTable(t: Table, active: set<Key>, id: Id)
    requires TableOk(t, active) && id in t
    ensures TableOk(t - {id}, active - t[id].keys)
  {
    var rest := t - {id};
    DeclaredSubset(t, rest);
    forall k ensures k in KeysOf(rest) <==> k in active - t[id].keys {
      if k in KeysOf(rest) {
        var a :| a in rest && k in rest[a].keys;
        assert k in KeysOf(t) && t[a].keys !! t[id].keys;
      }
      if k in active - t[id].keys {
        var a :| a in t && k in t[a].keys;
        assert a != id && a in rest;
      }
    }
    assert KeysOf(rest) == active - t[id].keys;
  }

  lemma AddKeys(t: Table, id: Id, u: Upload)
    requires id !in t
    ensures KeysOf(t[id := u]) == KeysOf(t) + u.keys
  {
    var more := t[id := u];
    forall k ensures k in KeysOf(more) <==> k in KeysOf(t) + u.keys {
      if k in KeysOf(more) {
        var a :| a in more && k in more[a].keys;
        assert a != id ==> k in KeysOf(t);
      }
      if k in KeysOf(t) {
        var a :| a in t && k in t[a].keys;
        assert a in more && k in more[a].keys;
      }
      if k in u.keys {
        assert id in more && k in more[id].keys;
      }
    }
  }

  lemma AddDisjoint(t: Table, id: Id, u: Upload)
    requires Disjoint(t) && id !in t && u.keys !! KeysOf(t)
    ensures Disjoint(t[id := u])
  {
    forall a | a in t ensures t[a].keys !! u.keys {
      assert forall k :: k in t[a].keys ==> k in KeysOf(t);
    }
  }

  lemma AddKeepsTable(t: Table, active: set<Key>, id: Id, u: Upload)
    requires TableOk(t, active) && id !in t && Assembled(u)
    requires u.keys !! active && |t| < MAX_ACTIVE_UPLOADS && Declared(t) + u.size <= MAX_ACTIVE_UPLOAD_BYTES
    ensures TableOk(t[id := u], active + u.keys)
  {
    DeclaredAdd(t, id, u);
    AddKeys(t, id, u);
    AddDisjoint(t, id, u);
  }

  lemma {:induction false} DeclaredSameSizes(t: Table, s: Table)
    requires t.Keys == s.Keys && (forall id :: id in t ==> t[id].size == s[id].size)
    ensures Declared(t) == Declared(s)
  {
    DeclaredSubset(t, s);
    DeclaredSubset(s, t);
  }

  lemma UpdateKeepsTable(t: Table, active: set<Key>, id: Id, u: Upload)
    requires TableOk(t, active) && id in t && Assembled(u) && u.keys == t[id].keys && u.size == t[id].size
    ensures TableOk(t[id := u], active)
  {
    var next := t[id := u];
    DeclaredSameSizes(t, next);
    assert next.Keys == t.Keys;
    assert forall a :: a in t ==> next[a].keys == t[a].keys;
    forall k ensures k in KeysOf(next) <==> k in KeysOf(t) {
      if k in KeysOf(t) {
        var a :| a in t && k in t[a].keys;
        assert a in next && k in next[a].keys;
      }
    }
    assert KeysOf(next) == KeysOf(t);
  }

  // ---- the agent's requests --------------------------------------------------------------------

  datatype BeginOutcome =
    | Started(id: Id)
    | TooManyUploads
    | TooManyBytes
    | BadTarget
    | AlreadyInProgress
    | LockFailed
    | Unreadable
    | BeginConflict
    | BeginFailed

  /**
   What the rest of the system answers while `begin_write_file_cas` runs.
   `prepared`: the target's path and its keys are in order; `readable`: its
   parent opens and its present hash can be found; `created`: the parent is
   still the same and the temporary file is made.
   */
  datatype BeginWorld = BeginWorld(prepared: bool, locked: bool, readable: bool, actual: Option<Hash>, created: bool, id: Id)

  datatype FinishOutcome =
    | Installed(content: seq<Byte>)
    | FinishUnknown
    | Incomplete
    | HashMismatch
    | FinishConflict
    | FinishFailed

  /**
   `synced`: the temporary file is synced and read back; `identical`: it is
   still the file under its name, the parent is the same, and the target's
   present hash can be found; `renamed`: the second look at the parent and the
   replacement succeed; `confirmed`: so do the directory sync and stat after it.
   */
  datatype FinishWorld = FinishWorld(synced: bool, identical: bool, actual: Option<Hash>, renamed: bool, confirmed: bool)

  predicate Expired(u: Upload, now: nat) {
    now > u.createdAt && now - u.createdAt > UPLOAD_TTL
  }

  function Unexpired(t: Table, now: nat): Table {
    map id | id in t && !Expired(t[id], now) :: t[id]
  }

  lemma UnexpiredMeans(t: Table, now: nat)
    ensures forall id :: id in Unexpired(t, now) <==> id in t && now <= t[id].createdAt + 600_000
  {
  }

  /** A request as it comes in, with its time. */
  datatype Call =
    | BeginCall(now: nat, path: Path, keys: set<Key>, expected: Option<Hash>, contentHash: Hash, size: U64, world: BeginWorld)
    | WriteCall(now: nat, id: Id, offset: U64, content: seq<Byte>, io: Io)
    | FinishCall(now: nat, id: Id, end: FinishWorld)
    | AbortCall(now: nat, id: Id)

  /** The request leaves an upload that was begun at this time alone. */
  predicate Spares(call: Call, id: Id, createdAt: nat) {
    call.now <= createdAt + 600_000 && !((call.FinishCall? || call.AbortCall?) && call.id == id)
  }

  /** Of the uploads before, exactly those are left that all requests spared, and they are the same but for their chunks. */
  ghost predicate Outlive(before: Table, after: Table, calls: seq<Call>) {
    forall id :: id in before ==>
      && (id in after <==> forall k :: 0 <= k < |calls| ==> Spares(calls[k], id, before[id].createdAt))
      && (id in after ==> SameUpload(before[id], after[id]))
  }

  predicate SameUpload(u: Upload, v: Upload) {
    v == u.(file := v.file, written := v.written, accepted := v.accepted) && u.accepted <= v.accepted
  }

  /** The same for one request. */
  ghost predicate OutliveOne(before: Table, after: Table, call: Call) {
    forall id :: id in before ==>
      && (id in after <==> Spares(call, id, before[id].createdAt))
      && (id in after ==> SameUpload(before[id], after[id]))
  }

  lemma OutliveBoth(before: Table, mid: Table, after: Table, calls: seq<Call>, call: Call)
    requires Outlive(before, mid, calls) && OutliveOne(mid, after, call)
    requires forall id :: id in after && id !in mid ==> id !in before
    ensures Outlive(before, after, calls + [call])
  {
    var all := calls + [call];
    forall id | id in before
      ensures id in after <==> forall k :: 0 <= k < |all| ==> Spares(all[k], id, before[id].createdAt)
      ensures id in after ==> SameUpload(before[id], after[id])
    {
      assert all[|calls|] == call;
      assert forall k :: 0 <= k < |calls| ==> all[k] == calls[k];
    }
  }

  lemma KeptOutlive(t: Table, call: Call)
    requires call.BeginCall?
    ensures OutliveOne(t, Unexpired(t, call.now), call)
  {
    UnexpiredMeans(t, call.now);
  }

  lemma BegunOutlive(t: Table, call: Call, u: Upload)
    requires call.BeginCall? && call.world.id !in t
    ensures OutliveOne(t, Unexpired(t, call.now)[call.world.id := u], call)
  {
    UnexpiredMeans(t, call.now);
  }

  lemma EndedOutlive(t: Table, call: Call)
    requires call.FinishCall? || call.AbortCall?
    ensures OutliveOne(t, Unexpired(t, call.now) - {call.id}, call)
  {
    UnexpiredMeans(t, call.now);
  }

  lemma WrittenOutlive(t: Table, call: Call)
    requires call.WriteCall? && forall id :: id in t ==> Assembled(t[id])
    ensures var kept := Unexpired(t, call.now);
            if call.id !in kept then OutliveOne(t, kept, call)
            else && kept[call.id].written <= |kept[call.id].file|
                 && OutliveOne(t, kept[call.id := ChunkStep(kept[call.id], call.offset, call.content, call.io).0], call)
  {
    UnexpiredMeans(t, call.now);
    if call.id in t {
      ChunkKeepsAssembly(t[call.id], call.offset, call.content, call.io);
    }
  }

  /** Every upload that is begun gets an id of its own. */
  predicate FreshIds(t: Table, calls: seq<Call>) {
    && (forall i :: 0 <= i < |calls| && calls[i].BeginCall? ==> calls[i].world.id !in t)
    && (forall i, j :: 0 <= i < j < |calls| && calls[i].BeginCall? && calls[j].BeginCall? ==> calls[i].world.id != calls[j].world.id)
  }

  function ExpiredIn(t: Table, now: nat): set<Id> {
    set id | id in t && Expired(t[id], now)
  }

  lemma WithoutExpired(t: Table, id: Id, now: nat)
    requires id in t && Expired(t[id], now)
    ensures Unexpired(t - {id}, now) == Unexpired(t, now) && ExpiredIn(t - {id}, now) == ExpiredIn(t, now) - {id}
  {
  }

  lemma NothingExpired(t: Table, now: nat)
    requires ExpiredIn(t, now) == {}
    ensures Unexpired(t, now) == t
  {
    assert forall id :: id in t ==> id !in ExpiredIn(t, now);
  }

  class UploadTable {
    const hash: seq<Byte> -> Hash
    var uploads: Table
    var active: set<Key>

    ghost predicate Ok()
      reads this
    {
      TableOk(uploads, active)
    }

    constructor (hash: seq<Byte> -> Hash)
      ensures Ok() && uploads == map[] && active == {} && this.hash == hash
    {
      this.hash := hash;
      uploads := map[];
      active := {};
    }

    method Remove(id: Id)
      requires Ok() && id in uploads
      modifies this
      ensures Ok() && uploads == old(uploads) - {id} && active == old(active) - old(uploads)[id].keys
    {
      RemoveKeepsTable(uploads, active, id);
      active := active - uploads[id].keys;
      uploads := uploads - {id};
    }

    method CleanupExpired(now: nat)
      requires Ok()
      modifies this
      ensures Ok() && uploads == Unexpired(old(uploads), now)
      ensures forall id :: id in uploads <==> id in old(uploads) && now <= old(uploads)[id].createdAt + 600_000
      ensures forall id :: id in uploads ==> uploads[id] == old(uploads)[id]
    {
      var expired := ExpiredIn(uploads, now);
      while expired != {}
        invariant Ok() && expired == ExpiredIn(uploads, now)
        invariant Unexpired(uploads, now) == Unexpired(old(uploads), now)
        decreases expired
      {
        var id :| id in expired;
        WithoutExpired(uploads, id, now);
        Remove(id);
        expired := expired - {id};
      }
      NothingExpired(uploads, now);
    }

    /** The saturating fold of `enforce_upload_limits` over the table. */
    method ActiveBytes() returns (bytes: nat)
      requires Ok()
      ensures bytes == Declared(uploads)
    {
      bytes := 0;
      var rest := uploads;
      while rest != map[]
        invariant rest.Keys <= uploads.Keys && forall id :: id in rest ==> rest[id] == uploads[id]
        invariant bytes + Declared(rest) == Declared(uploads)
        decreases |rest|
      {
        var id :| id in rest;
        DeclaredSplit(rest, id);
        bytes := bytes + rest[id].size;
        rest := rest - {id};
      }
    }

    /** Upload ids are fresh: they carry the time in nanoseconds and the path's hash. */
    method Begin(now: nat, path: Path, keys: set<Key>, expected: Option<Hash>, contentHash: Hash, size: U64,
                 world: BeginWorld) returns (outcome: BeginOutcome)
      requires Ok() && world.id !in uploads
      modifies this
      ensures Ok()
      ensures var kept := Unexpired(old(uploads), now);
              if outcome.Started?
              then && outcome.id == world.id
                   && uploads == kept[world.id := Upload(path, keys, expected, contentHash, size, [], 0, [], now)]
                   && keys !! KeysOf(kept)
              else uploads == kept
      ensures var kept := Unexpired(old(uploads), now);
              var room := |kept| < 8;
              var bytes := Declared(kept) + size <= 0x2000_0000;
              var idle := keys !! KeysOf(kept);
              var free := room && bytes && world.prepared && idle;
              var seen := free && world.locked && world.readable;
              && (outcome.TooManyUploads? <==> !room)
              && (outcome.TooManyBytes? <==> room && !bytes)
              && (outcome.BadTarget? <==> room && bytes && !world.prepared)
              && (outcome.AlreadyInProgress? <==> room && bytes && world.prepared && !idle)
              && (outcome.LockFailed? <==> free && !world.locked)
              && (outcome.Unreadable? <==> free && world.locked && !world.readable)
              && (outcome.BeginConflict? <==> seen && world.actual != expected)
              && (outcome.BeginFailed? <==> seen && world.actual == expected && !world.created)
              && (outcome.Started? <==> seen && world.actual == expected && world.created)
    {
      CleanupExpired(now);
      if |uploads| >= MAX_ACTIVE_UPLOADS {
        return TooManyUploads;
      }
      var bytes := ActiveBytes();
      if bytes + size > MAX_ACTIVE_UPLOAD_BYTES {
        return TooManyBytes;
      }
      if !world.prepared {
        return BadTarget;
      }
      if !(keys !! active) {
        return AlreadyInProgress;
      }
      if !world.locked {
        return LockFailed;
      }
      if !world.readable {
        return Unreadable;
      }
      if world.actual != expected {
        return BeginConflict;
      }
      if !world.created {
        return BeginFailed;
      }
      var u := Upload(path, keys, expected, contentHash, size, [], 0, [], now);
      assert keys !! active && Assembled(u);
      AddKeepsTable(uploads, active, world.id, u);
      active := active + keys;
      uploads := uploads[world.id := u];
      outcome := Started(world.id);
    }

    method WriteChunk(now: nat, id: Id, offset: U64, content: seq<Byte>, io: Io) returns (outcome: ChunkOutcome)
      requires Ok()
      modifies this
      ensures Ok()
      ensures var kept := Unexpired(old(uploads), now);
              if id !in kept then outcome == UnknownUpload && uploads == kept
              else && kept[id].written <= |kept[id].file|
                   && outcome == ChunkStep(kept[id], offset, content, io).1
                   && uploads == kept[id := ChunkStep(kept[id], offset, content, io).0]
    {
      CleanupExpired(now);
      if id !in uploads {
        return UnknownUpload;
      }
      var u := uploads[id];
      ChunkKeepsAssembly(u, offset, content, io);
      if offset != u.written {
        assert uploads == uploads[id := u];
        return WrongOffset;
      }
      var next := u.written + |content|;
      if next > u.size {
        assert uploads == uploads[id := u];
        return TooLarge;
      }
      var stepped := ChunkStep(u, offset, content, io);
      UpdateKeepsTable(uploads, active, id, stepped.0);
      uploads := uploads[id := stepped.0];
      outcome := stepped.1;
    }

    /** Whatever happens, the upload is gone and its keys are released; what is installed is what was accepted. */
    method Finish(now: nat, id: Id, world: FinishWorld) returns (outcome: FinishOutcome)
      requires Ok()
      modifies this
      ensures Ok() && uploads == Unexpired(old(uploads), now) - {id}
      ensures var kept := Unexpired(old(uploads), now);
              outcome.Installed? <==>
                && id in kept && |kept[id].accepted| == kept[id].size && world.synced && hash(kept[id].accepted) == kept[id].contentHash
                && world.identical && world.actual == kept[id].expected && world.renamed && world.confirmed
      ensures outcome.Installed? ==>
                && var u := Unexpired(old(uploads), now)[id];
                   outcome.content == u.accepted && |outcome.content| == u.size
      ensures var kept := Unexpired(old(uploads), now);
              && (outcome.FinishUnknown? <==> id !in kept)
              && (outcome.Incomplete? <==> id in kept && |kept[id].accepted| != kept[id].size)
              && (outcome.HashMismatch? <==>
                    id in kept && |kept[id].accepted| == kept[id].size && world.synced && hash(kept[id].accepted) != kept[id].contentHash)
              && (outcome.FinishConflict? <==>
                    && id in kept && |kept[id].accepted| == kept[id].size && world.synced && hash(kept[id].accepted) == kept[id].contentHash
                    && world.identical && world.actual != kept[id].expected)
    {
      CleanupExpired(now);
      if id !in uploads {
        assert uploads - {id} == uploads;
        return FinishUnknown;
      }
      var u := uploads[id];
      assert Assembled(u);
      Remove(id);
      if u.written != u.size {
        return Incomplete;
      }
      assert u.file == u.file[..u.written];
      if !world.synced {
        return FinishFailed;
      }
      if hash(u.file) != u.contentHash {
        return HashMismatch;
      }
      if !world.identical {
        return FinishFailed;
      }
      if world.actual != u.expected {
        return FinishConflict;
      }
      if !world.renamed || !world.confirmed {
        return FinishFailed;
      }
      outcome := Installed(u.file);
    }

    method Abort(now: nat, id: Id)
      requires Ok()
      modifies this
      ensures Ok() && uploads == Unexpired(old(uploads), now) - {id}
    {
      CleanupExpired(now);
      if id in uploads {
        Remove(id);
      } else {
        assert uploads - {id} == uploads;
      }
    }

    /** One request.  Ids of new uploads are fresh. */
    method Serve(call: Call)
      requires Ok() && (call.BeginCall? ==> call.world.id !in uploads)
      modifies this
      ensures Ok() && OutliveOne(old(uploads), uploads, call)
      ensures forall id :: id in uploads ==> id in old(uploads) || (call.BeginCall? && call.world.id == id)
    {
      match call {
        case BeginCall(now, path, keys, expected, contentHash, size, world) =>
          KeptOutlive(uploads, call);
          BegunOutlive(uploads, call, Upload(path, keys, expected, contentHash, size, [], 0, [], now));
          var _ := Begin(now, path, keys, expected, contentHash, size, world);
        case WriteCall(now, id, offset, content, io) =>
          WrittenOutlive(uploads, call);
          var _ := WriteChunk(now, id, offset, content, io);
        case FinishCall(now, id, world) =>
          EndedOutlive(uploads, call);
          var _ := Finish(now, id, world);
        case AbortCall(now, id) =>
          EndedOutlive(uploads, call);
          Abort(now, id);
      }
    }

    /**
     Over any sequence of requests an upload is there, unchanged but for its
     chunks, exactly as long as none of them finished or aborted it and none
     came later than ten minutes after its beginning.
     */
    method ServeAll(calls: seq<Call>)
      requires Ok() && FreshIds(uploads, calls)
      modifies this
      ensures Ok() && Outlive(old(uploads), uploads, calls)
    {
      for i := 0 to |calls|
        invariant Ok() && Outlive(old(uploads), uploads, calls[..i])
        invariant forall k :: i <= k < |calls| && calls[k].BeginCall? ==> calls[k].world.id !in uploads
      {
        ghost var before := uploads;
        Serve(calls[i]);
        assert calls[..i + 1] == calls[..i] + [calls[i]];
        OutliveBoth(old(uploads), before, uploads, calls[..i], calls[i]);
      }
      assert calls[..|calls|] == calls;
    }
  }
}
