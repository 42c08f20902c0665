/**
 Paged text search over a directory walk (crates/nrm-agent/src/main.rs).  The
 tree stays as it is while pages are fetched, so a walk is a fixed sequence of
 entries and a retained walk is a position in it.
 */
module Grep {
  import opened Protocol

  const HARD_MAX_FILES: nat := 50_000
  const HARD_MAX_FILE_BYTES: nat := 4 * 1024 * 1024
  const HARD_MAX_TOTAL_BYTES: nat := 32 * 1024 * 1024
  const HARD_MAX_HIT_TEXT_BYTES: nat := 4 * 1024 * 1024
  const HARD_MAX_LINE_BYTES: nat := 64 * 1024
  const MAX_SESSIONS: nat := 8

  type Path = seq<Byte>
  type Line = seq<Byte>

  /** What looking into an opened file meets with. */
  datatype Probe = ProbeFails | Binary | ReadFails | NotText | Text(lines: seq<Line>)

  datatype Entry =
    | WalkError
    | NotAFile
    | Unopenable(path: Path)
    | Opened(path: Path, size: nat, probe: Probe)

  datatype Hit = Hit(path: Path, line: nat, column: nat, text: Line)

  datatype Caps = Caps(maxFiles: nat, maxFileBytes: nat, maxTotalBytes: nat)

  function Min(a: nat, b: nat): nat {
    if a <= b then a else b
  }

  /** The caller's caps, clamped to the agent's own. */
  function Clamped(files: Option<nat>, fileBytes: Option<nat>, totalBytes: Option<nat>): (c: Caps)
    ensures 1 <= c.maxFiles <= 50_000 && c.maxFileBytes <= 0x40_0000 && c.maxTotalBytes <= 0x200_0000
    ensures c.maxFiles == 50_000 || (files.Some? && (c.maxFiles == files.value || (c.maxFiles == 1 && files.value == 0)))
    ensures c.maxFileBytes == 0x40_0000 || (fileBytes.Some? && c.maxFileBytes == fileBytes.value)
    ensures c.maxTotalBytes == 0x200_0000 || (totalBytes.Some? && c.maxTotalBytes == totalBytes.value)
    ensures files.Some? && files.value > 0 ==> c.maxFiles <= files.value
    ensures fileBytes.Some? ==> c.maxFileBytes <= fileBytes.value
    ensures totalBytes.Some? ==> c.maxTotalBytes <= totalBytes.value
  {
    var n := if files.Some? then files.value else HARD_MAX_FILES;
    Caps(if n < 1 then 1 else Min(n, HARD_MAX_FILES),
         Min(if fileBytes.Some? then fileBytes.value else HARD_MAX_FILE_BYTES, HARD_MAX_FILE_BYTES),
         Min(if totalBytes.Some? then totalBytes.value else HARD_MAX_TOTAL_BYTES, HARD_MAX_TOTAL_BYTES))
  }

  /** The query stands at this place of the line. */
  predicate StandsAt(query: Line, line: Line, k: nat) {
    k + |query| <= |line| && line[k..k + |query|] == query
  }

  /** The first place in a line where the query stands. */
  function Find(query: Line, line: Line): (r: Option<nat>)
    ensures r.Some? ==> StandsAt(query, line, r.value)
    decreases |line|
  {
    if query <= line then Some(0)
    else if line == [] then None
    else
      var later := Find(query, line[1..]);
      if later.Some? then Some(later.value + 1) else None
  }

  /** A query is found exactly where it first stands, and not found exactly where it does not stand at all. */
  lemma {:induction false} FindIsFirst(query: Line, line: Line, k: nat)
    requires StandsAt(query, line, k)
    ensures Find(query, line).Some? && Find(query, line).value <= k
    decreases |line|
  {
    if k == 0 {
      assert query <= line;
    } else if !(query <= line) {
      assert line[1..][k - 1..k - 1 + |query|] == line[k..k + |query|];
      FindIsFirst(query, line[1..], k - 1);
    }
  }

  // ---- one page as a function ---------------------------------------------------------------------

  datatype Search = Search(query: Line, limit: nat, caps: Caps)

  /** The counters of a page in progress. */
  datatype Tally = Tally(
    hits: seq<Hit>,
    hitText: nat,
    files: nat,
    bytes: nat,
    nextAfter: Option<Path>,
    hitLimit: bool,
    byteLimit: bool)

  const START: Tally := Tally([], 0, 0, 0, None, false, false)

  datatype Step = Go(tally: Tally) | Halt(tally: Tally) | Crash

  /** Bytes a page may still read. */
  function Remaining(t: Tally, s: Search): nat {
    if t.bytes <= s.caps.maxTotalBytes then s.caps.maxTotalBytes - t.bytes else 0
  }

  function VisitLines(t: Tally, path: Path, lines: seq<Line>, i: nat, s: Search): Tally
    decreases |lines| - i
  {
    if i >= |lines| then t
    else if |lines[i]| > HARD_MAX_LINE_BYTES then VisitLines(t.(byteLimit := true), path, lines, i + 1, s)
    else
      var at := Find(s.query, lines[i]);
      if at.None? then VisitLines(t, path, lines, i + 1, s)
      else if t.hitText + |lines[i]| > HARD_MAX_HIT_TEXT_BYTES then t.(byteLimit := true)
      else
        var hits := t.hits + [Hit(path, i + 1, at.value + 1, lines[i])];
        var more := t.(hits := hits, hitText := t.hitText + |lines[i]|);
        if |hits| >= s.limit then more.(hitLimit := true, nextAfter := None)
        else VisitLines(more, path, lines, i + 1, s)
  }

  function Visit(t: Tally, e: Entry, s: Search): Step {
    match e
    case WalkError => Crash
    case NotAFile => Go(t)
    case Unopenable(_) => Go(t)
    case Opened(path, size, probe) =>
      var seen := t.(files := t.files + 1, nextAfter := Some(path));
      if size > s.caps.maxFileBytes then Go(seen.(byteLimit := true))
      else if size > Remaining(t, s) then Halt(seen.(byteLimit := true))
      else match probe
        case ProbeFails => Crash
        case Binary => Go(seen)
        case ReadFails => Go(seen.(byteLimit := true))
        case NotText => Go(seen.(bytes := t.bytes + size))
        case Text(lines) =>
          var done := VisitLines(seen.(bytes := t.bytes + size), path, lines, 0, s);
          if done.hitLimit then Halt(done) else Go(done)
  }

  datatype Page = Page(tally: Tally, position: nat, exhausted: bool)

  /** The page that starts at a position of the walk, or nothing if it fails. */
  function PageFrom(t: Tally, walk: seq<Entry>, i: nat, s: Search): Option<Page>
    decreases |walk| - i
  {
    if t.files >= s.caps.maxFiles then Some(Page(t, i, false))
    else if i >= |walk| then Some(Page(t, i, true))
    else match Visit(t, walk[i], s)
      case Crash => None
      case Halt(u) => Some(Page(u, i + 1, false))
      case Go(u) => PageFrom(u, walk, i + 1, s)
  }

  predicate Truncated(p: Page, s: Search) {
    p.tally.hitLimit || p.tally.byteLimit || (!p.exhausted && p.tally.files >= s.caps.maxFiles)
  }

  /** The cursor the caller gets, if there is anything to resume. */
  function Cursor(p: Page, s: Search): Option<Path> {
    if Truncated(p, s) then p.tally.nextAfter else None
  }

  datatype Restart = Restart(position: nat) | CursorNotFound | Broken

  predicate NamedBy(e: Entry, path: Path) {
    (e.Unopenable? || e.Opened?) && e.path == path
  }

  /** Where a fresh walk resumes: behind the first file with the cursor's name. */
  function Resume(walk: seq<Entry>, i: nat, after: Path): Restart
    decreases |walk| - i
  {
    if i >= |walk| then CursorNotFound
    else if walk[i].WalkError? then Broken
    else if NamedBy(walk[i], after) then Restart(i + 1)
    else Resume(walk, i + 1, after)
  }

  // ---- loops -----------------------------------------------------------------------------------------

  /** The loop over the lines of one file. */
  method SearchLines(t: Tally, path: Path, lines: seq<Line>, s: Search) returns (r: Tally)
    ensures r == VisitLines(t, path, lines, 0, s)
  {
    r := t;
    var i := 0;
    while i < |lines|
      invariant i <= |lines| && VisitLines(r, path, lines, i, s) == VisitLines(t, path, lines, 0, s)
    {
      if |lines[i]| > HARD_MAX_LINE_BYTES {
        r := r.(byteLimit := true);
      } else {
        var at := Find(s.query, lines[i]);
        if at.Some? {
          if r.hitText + |lines[i]| > HARD_MAX_HIT_TEXT_BYTES {
            return r.(byteLimit := true);
          }
          r := r.(hits := r.hits + [Hit(path, i + 1, at.value + 1, lines[i])], hitText := r.hitText + |lines[i]|);
          if |r.hits| >= s.limit {
            return r.(hitLimit := true, nextAfter := None);
          }
        }
      }
      i := i + 1;
    }
  }

  datatype Session = Session(query: Line, position: nat)

  datatype Response =
    | Answer(hits: seq<Hit>, truncated: bool, nextAfter: Option<Path>, session: Option<nat>, scannedFiles: nat)
    | Failure

  /** The walks after one more is retained: one other is given up only if there were eight. */
  ghost predicate Retained(before: map<nat, Session>, after: map<nat, Session>, id: nat, session: Session) {
    && id !in before
    && if |before| < 8 then after == before[id := session]
       else exists other :: other in before && after == (before - {other})[id := session]
  }

  class Searcher {
    const walk: seq<Entry>
    var sessions: map<nat, Session>
    var nextSession: nat

    ghost predicate Valid()
      reads this
    {
      && |sessions| <= 8
      && (forall id :: id in sessions ==> id < nextSession && Trodden(walk, sessions[id].position))
    }

    constructor (walk: seq<Entry>)
      ensures Valid() && this.walk == walk && sessions == map[]
    {
      this.walk, sessions, nextSession := walk, map[], 1;
    }

    /** The walk, from a position or from behind a cursor: one loop with a flag, as the source has it. */
    method Advance(s: Search, start: nat, after: Option<Path>) returns (page: Option<Page>, found: bool)
      requires after.Some? ==> start == 0
      ensures after.None? ==> found && page == PageFrom(START, walk, start, s)
      ensures after.Some? && 0 < s.caps.maxFiles ==> match Resume(walk, 0, after.value)
                case Restart(position) => found && page == PageFrom(START, walk, position, s)
                case CursorNotFound => !found && page.Some?
                case Broken => page.None?
    {
      var t, i := START, start;
      found := after.None?;
      while t.files < s.caps.maxFiles
        invariant found && after.None? ==> PageFrom(t, walk, i, s) == PageFrom(START, walk, start, s)
        invariant !found ==> after.Some? && t == START && Resume(walk, i, after.value) == Resume(walk, 0, after.value)
        invariant found && after.Some? ==>
                    var r := Resume(walk, 0, after.value);
                    r.Restart? && PageFrom(t, walk, i, s) == PageFrom(START, walk, r.position, s)
        decreases |walk| - i
      {
        if i >= |walk| {
          return Some(Page(t, i, true)), found;
        }
        var e := walk[i];
        if e.WalkError? {
          return None, found;
        }
        i := i + 1;
        if !found {
          found := NamedBy(e, after.value);
        } else {
          var step := SearchEntry(t, e, s);
          match step {
            case Crash => return None, found;
            case Halt(u) => return Some(Page(u, i, false)), found;
            case Go(u) => t := u;
          }
        }
      }
      page := Some(Page(t, i, false));
    }

    /** `grep_with_caps`. */
    method Grep(query: Line, limit: nat, after: Option<Path>, sessionId: Option<nat>,
                files: Option<nat>, fileBytes: Option<nat>, totalBytes: Option<nat>) returns (r: Response)
      requires Valid()
      modifies this
      ensures Valid()
      ensures query == [] || limit == 0 ==>
                r == Answer([], false, None, None, 0) && sessions == old(sessions) - Ids(sessionId)
      ensures query != [] && limit > 0 ==>
                var s := Search(query, limit, Clamped(files, fileBytes, totalBytes));
                match Requested(walk, old(sessions), s, after, sessionId)
                case None => r == Failure && sessions == old(sessions) - Ids(sessionId)
                case Some(p) =>
                  && r.Answer? && r.hits == p.tally.hits && r.truncated == Truncated(p, s)
                  && r.nextAfter == Cursor(p, s) && r.scannedFiles == p.tally.files
                  && (r.session.Some? <==> r.nextAfter.Some?)
                  && (r.session.None? ==> sessions == old(sessions) - Ids(sessionId))
                  && (r.session.Some? ==>
                        Retained(old(sessions) - Ids(sessionId), sessions, r.session.value, Session(query, p.position)))
      ensures old(nextSession) <= nextSession
      ensures r.Answer? && r.session.Some? ==> r.session == sessionId || old(nextSession) <= r.session.value < nextSession
    {
      if query == [] || limit == 0 {
        sessions := sessions - Ids(sessionId);
        return Answer([], false, None, None, 0);
      }
      var s := Search(query, limit, Clamped(files, fileBytes, totalBytes));
      var page, resumed := Fetch(s, after, sessionId);
      if page.None? {
        return Failure;
      }
      var p := page.value;
      var kept := None;
      if Cursor(p, s).Some? {
        var id := Keep(if resumed then sessionId else None, Session(query, p.position));
        kept := Some(id);
      }
      r := Answer(p.tally.hits, Truncated(p, s), Cursor(p, s), kept, p.tally.files);
    }

    /** Takes the session out of the table and runs the page from it, or from the cursor without it. */
    method Fetch(s: Search, after: Option<Path>, sessionId: Option<nat>) returns (page: Option<Page>, resumed: bool)
      requires Valid() && s.caps.maxFiles > 0
      modifies this`sessions
      ensures Valid() && sessions == old(sessions) - Ids(sessionId)
      ensures page == Requested(walk, old(sessions), s, after, sessionId)
      ensures page.Some? ==> Trodden(walk, page.value.position)
      ensures resumed ==> sessionId.Some? && sessionId.value in old(sessions)
    {
      resumed := sessionId.Some? && sessionId.value in sessions && sessions[sessionId.value].query == s.query;
      var start := if resumed then sessions[sessionId.value].position else 0;
      var found;
      page, found := Advance(s, start, if resumed then None else after);
      page := if found then page else None;
      if page.Some? {
        RequestTrodden(walk, sessions, s, after, sessionId);
      }
      sessions := sessions - Ids(sessionId);
    }

    /**
     Retains a walk, under its old number or the next new one; one other walk is
     dropped if there are eight already, and none otherwise.
     */
    method Keep(number: Option<nat>, session: Session) returns (id: nat)
      requires Valid() && Trodden(walk, session.position) && (number.Some? ==> number.value < nextSession && number.value !in sessions)
      modifies this
      ensures Valid() && id == if number.Some? then number.value else old(nextSession)
      ensures old(nextSession) <= nextSession && id < nextSession
      ensures Retained(old(sessions), sessions, id, session)
    {
      id := if number.Some? then number.value else nextSession;
      if number.None? {
        nextSession := nextSession + 1;
      }
      if |sessions| >= MAX_SESSIONS {
        var other :| other in sessions;
        sessions := sessions - {other};
      }
      sessions := sessions[id := session];
    }
  }

  function Ids(id: Option<nat>): set<nat> {
    if id.Some? then {id.value} else {}
  }

  /** The page a request asks for: from its session if there is one for the query, or else from its cursor. */
  function Requested(walk: seq<Entry>, sessions: map<nat, Session>, s: Search,
                     after: Option<Path>, sessionId: Option<nat>): Option<Page>
  {
    if sessionId.Some? && sessionId.value in sessions && sessions[sessionId.value].query == s.query
    then PageFrom(START, walk, sessions[sessionId.value].position, s)
    else if after.None? then PageFrom(START, walk, 0, s)
    else match Resume(walk, 0, after.value)
      case Restart(position) => PageFrom(START, walk, position, s)
      case _ => None
  }

  method SearchEntry(t: Tally, e: Entry, s: Search) returns (r: Step)
    ensures r == Visit(t, e, s)
  {
    if !e.Opened? {
      return if e.WalkError? then Crash else Go(t);
    }
    var seen := t.(files := t.files + 1, nextAfter := Some(e.path));
    if e.size > s.caps.maxFileBytes {
      return Go(seen.(byteLimit := true));
    }
    if e.size > Remaining(t, s) {
      return Halt(seen.(byteLimit := true));
    }
    match e.probe {
      case ProbeFails => return Crash;
      case Binary => return Go(seen);
      case ReadFails => return Go(seen.(byteLimit := true));
      case NotText => return Go(seen.(bytes := t.bytes + e.size));
      case Text(lines) =>
        var done := SearchLines(seen.(bytes := t.bytes + e.size), e.path, lines, s);
        return if done.hitLimit then Halt(done) else Go(done);
    }
  }

  /** No error among the first `n` entries. */
  predicate Trodden(walk: seq<Entry>, n: nat) {
    n <= |walk| && forall i :: 0 <= i < n ==> !walk[i].WalkError?
  }

  lemma {:induction false} PageTrodden(t: Tally, walk: seq<Entry>, i: nat, s: Search)
    requires Trodden(walk, i) && PageFrom(t, walk, i, s).Some?
    ensures Trodden(walk, PageFrom(t, walk, i, s).value.position)
    ensures i <= PageFrom(t, walk, i, s).value.position
    decreases |walk| - i
  {
    if t.files < s.caps.maxFiles && i < |walk| && Visit(t, walk[i], s).Go? {
      PageTrodden(Visit(t, walk[i], s).tally, walk, i + 1, s);
    }
  }

  lemma {:induction false} ResumeTrodden(walk: seq<Entry>, i: nat, after: Path)
    requires Trodden(walk, i) && Resume(walk, i, after).Restart?
    ensures Trodden(walk, Resume(walk, i, after).position)
    decreases |walk| - i
  {
    if !NamedBy(walk[i], after) {
      ResumeTrodden(walk, i + 1, after);
    }
  }

  lemma RequestTrodden(walk: seq<Entry>, sessions: map<nat, Session>, s: Search, after: Option<Path>, sessionId: Option<nat>)
    requires Requested(walk, sessions, s, after, sessionId).Some?
    requires forall id :: id in sessions ==> Trodden(walk, sessions[id].position)
    ensures Trodden(walk, Requested(walk, sessions, s, after, sessionId).value.position)
  {
    if sessionId.Some? && sessionId.value in sessions && sessions[sessionId.value].query == s.query {
      PageTrodden(START, walk, sessions[sessionId.value].position, s);
    } else if after.None? {
      PageTrodden(START, walk, 0, s);
    } else {
      ResumeTrodden(walk, 0, after.value);
      PageTrodden(START, walk, Resume(walk, 0, after.value).position, s);
    }
  }

  // ---- either way of resuming ---------------------------------------------------------------------

  predicate DistinctFiles(walk: seq<Entry>) {
    forall i, j :: 0 <= i < j < |walk| && walk[j].Opened? ==> !NamedBy(walk[i], walk[j].path)
  }

  /** An entry that leaves a page as it was. */
  predicate Idle(e: Entry) {
    e.NotAFile? || e.Unopenable?
  }

  predicate IdleBetween(walk: seq<Entry>, i: nat, j: nat) {
    i <= j <= |walk| && forall k :: i <= k < j ==> Idle(walk[k])
  }

  lemma {:induction false} LinesKeepCursor(t: Tally, path: Path, lines: seq<Line>, i: nat, s: Search)
    requires !t.hitLimit
    ensures var r := VisitLines(t, path, lines, i, s);
            r.files == t.files && (r.nextAfter == if r.hitLimit then None else t.nextAfter)
    decreases |lines| - i
  {
    if i < |lines| {
      var at := Find(s.query, lines[i]);
      LinesKeepCursor(t.(byteLimit := true), path, lines, i + 1, s);
      LinesKeepCursor(t, path, lines, i + 1, s);
      if at.Some? {
        LinesKeepCursor(t.(hits := t.hits + [Hit(path, i + 1, at.value + 1, lines[i])],
                           hitText := t.hitText + |lines[i]|), path, lines, i + 1, s);
      }
    }
  }

  lemma VisitCursor(t: Tally, e: Entry, s: Search)
    requires !t.hitLimit && !Visit(t, e, s).Crash?
    ensures var u := Visit(t, e, s).tally;
            && (Visit(t, e, s).Go? ==> !u.hitLimit)
            && (if Idle(e) then Visit(t, e, s) == Go(t)
                else e.Opened? && u.nextAfter == if u.hitLimit then None else Some(e.path))
  {
    if e.Opened? && e.probe.Text? {
      var seen := t.(files := t.files + 1, nextAfter := Some(e.path), bytes := t.bytes + e.size);
      LinesKeepCursor(seen, e.path, e.probe.lines, 0, s);
    }
  }

  /** The cursor names an opened file behind which the page met only idle entries. */
  lemma {:induction false} CursorPlace(t: Tally, walk: seq<Entry>, i: nat, s: Search, at: nat) returns (k: nat)
    requires i <= |walk| && !t.hitLimit && PageFrom(t, walk, i, s).Some?
    requires PageFrom(t, walk, i, s).value.tally.nextAfter.Some?
    requires t.nextAfter.Some? ==>
               at < i && walk[at].Opened? && walk[at].path == t.nextAfter.value && IdleBetween(walk, at + 1, i)
    ensures var p := PageFrom(t, walk, i, s).value;
            && k < p.position <= |walk| && walk[k].Opened? && walk[k].path == p.tally.nextAfter.value
            && IdleBetween(walk, k + 1, p.position)
    decreases |walk| - i
  {
    k := at;
    if t.files < s.caps.maxFiles && i < |walk| {
      VisitCursor(t, walk[i], s);
      var step := Visit(t, walk[i], s);
      if step.Halt? {
        k := i;
      } else {
        k := CursorPlace(step.tally, walk, i + 1, s, if Idle(walk[i]) then at else i);
      }
    }
  }

  lemma {:induction false} SkipIdle(walk: seq<Entry>, i: nat, j: nat, s: Search)
    requires IdleBetween(walk, i, j) && s.caps.maxFiles > 0
    ensures PageFrom(START, walk, i, s) == PageFrom(START, walk, j, s)
    decreases j - i
  {
    if i < j {
      assert Visit(START, walk[i], s) == Go(START);
      SkipIdle(walk, i + 1, j, s);
    }
  }

  lemma {:induction false} ResumeFinds(walk: seq<Entry>, i: nat, k: nat)
    requires i <= k < |walk| && Trodden(walk, k) && walk[k].Opened? && DistinctFiles(walk)
    ensures Resume(walk, i, walk[k].path) == Restart(k + 1)
    decreases k - i
  {
    if i < k {
      ResumeFinds(walk, i + 1, k);
    }
  }

  /**
   A truncated page can be resumed from the retained walk or, once that was
   dropped, by its cursor on a fresh walk: for every later request the page is
   the same, its hits, flags, cursor and position included.
   */
  lemma EitherWayTheSame(walk: seq<Entry>, start: nat, s: Search, later: Search)
    requires DistinctFiles(walk) && Trodden(walk, start) && later.caps.maxFiles > 0
    requires PageFrom(START, walk, start, s).Some? && Cursor(PageFrom(START, walk, start, s).value, s).Some?
    ensures var p := PageFrom(START, walk, start, s).value;
            var again := Resume(walk, 0, Cursor(p, s).value);
            again.Restart? && PageFrom(START, walk, again.position, later) == PageFrom(START, walk, p.position, later)
  {
    var p := PageFrom(START, walk, start, s).value;
    PageTrodden(START, walk, start, s);
    var k := CursorPlace(START, walk, start, s, 0);
    ResumeFinds(walk, 0, k);
    SkipIdle(walk, k + 1, p.position, later);
  }

  // ---- nothing is missed --------------------------------------------------------------------------

  function LineHits(path: Path, lines: seq<Line>, i: nat, query: Line): seq<Hit>
    decreases |lines| - i
  {
    if i >= |lines| then []
    else
      var at := Find(query, lines[i]);
      (if at.Some? then [Hit(path, i + 1, at.value + 1, lines[i])] else []) + LineHits(path, lines, i + 1, query)
  }

  function EntryHits(e: Entry, query: Line): seq<Hit> {
    if e.Opened? && e.probe.Text? then LineHits(e.path, e.probe.lines, 0, query) else []
  }

  /** Every hit in the text files among the entries from `i` to `j`. */
  function HitsIn(walk: seq<Entry>, i: nat, j: nat, query: Line): seq<Hit>
    requires i <= j <= |walk|
    decreases j - i
  {
    if i == j then [] else EntryHits(walk[i], query) + HitsIn(walk, i + 1, j, query)
  }

  /** The line at `i` has its first occurrence of the query at `k`. */
  predicate FirstAt(query: Line, lines: seq<Line>, i: nat, k: nat) {
    i < |lines| && StandsAt(query, lines[i], k) && forall j :: 0 <= j < k ==> !StandsAt(query, lines[i], j)
  }

  lemma FindMeans(query: Line, lines: seq<Line>, i: nat, k: nat)
    requires i < |lines|
    ensures FirstAt(query, lines, i, k) <==> Find(query, lines[i]) == Some(k)
  {
    if StandsAt(query, lines[i], k) {
      FindIsFirst(query, lines[i], k);
    }
    forall j | 0 <= j < k && StandsAt(query, lines[i], j) ensures Find(query, lines[i]) != Some(k) {
      FindIsFirst(query, lines[i], j);
    }
  }

  /** The hits of a file: one for every line in which the query stands, with the line's and the place's numbers from one. */
  lemma {:induction false} HitMeans(path: Path, lines: seq<Line>, i: nat, query: Line, h: Hit)
    requires i <= |lines|
    ensures h in LineHits(path, lines, i, query) <==>
              && h.path == path && i < h.line <= |lines| && h.text == lines[h.line - 1]
              && h.column > 0 && FirstAt(query, lines, h.line - 1, h.column - 1)
    decreases |lines| - i
  {
    if i < |lines| {
      HitMeans(path, lines, i + 1, query, h);
      if h.column > 0 {
        FindMeans(query, lines, i, h.column - 1);
      }
    }
  }

  lemma {:induction false} LinesComplete(t: Tally, path: Path, lines: seq<Line>, i: nat, s: Search)
    requires !VisitLines(t, path, lines, i, s).byteLimit && !VisitLines(t, path, lines, i, s).hitLimit
    ensures VisitLines(t, path, lines, i, s).hits == t.hits + LineHits(path, lines, i, s.query)
    ensures !t.byteLimit && !t.hitLimit
    decreases |lines| - i
  {
    if i < |lines| {
      var at := Find(s.query, lines[i]);
      if |lines[i]| > HARD_MAX_LINE_BYTES {
        LinesComplete(t.(byteLimit := true), path, lines, i + 1, s);
      } else if at.None? {
        LinesComplete(t, path, lines, i + 1, s);
      } else {
        var hit := Hit(path, i + 1, at.value + 1, lines[i]);
        var more := t.(hits := t.hits + [hit], hitText := t.hitText + |lines[i]|);
        LinesComplete(more, path, lines, i + 1, s);
        assert t.hits + [hit] + LineHits(path, lines, i + 1, s.query) == t.hits + ([hit] + LineHits(path, lines, i + 1, s.query));
      }
    }
  }

  lemma VisitComplete(t: Tally, e: Entry, s: Search)
    requires Visit(t, e, s).Go? && !Visit(t, e, s).tally.byteLimit && !Visit(t, e, s).tally.hitLimit
    ensures Visit(t, e, s).tally.hits == t.hits + EntryHits(e, s.query) && !t.byteLimit && !t.hitLimit
  {
    if e.Opened? && e.probe.Text? && e.size <= s.caps.maxFileBytes && e.size <= Remaining(t, s) {
      var seen := t.(files := t.files + 1, nextAfter := Some(e.path), bytes := t.bytes + e.size);
      LinesComplete(seen, e.path, e.probe.lines, 0, s);
    }
  }

  lemma HaltIsLimit(t: Tally, e: Entry, s: Search)
    requires Visit(t, e, s).Halt?
    ensures Visit(t, e, s).tally.byteLimit || Visit(t, e, s).tally.hitLimit
  {
  }

  lemma Regroup(a: seq<Hit>, b: seq<Hit>, c: seq<Hit>)
    ensures a + b + c == a + (b + c)
  {
  }

  /** A page that met no byte or hit limit has every hit of the stretch it covered. */
  lemma {:induction false} PageComplete(t: Tally, walk: seq<Entry>, i: nat, s: Search)
    requires i <= |walk| && PageFrom(t, walk, i, s).Some?
    requires var p := PageFrom(t, walk, i, s).value; !p.tally.byteLimit && !p.tally.hitLimit
    ensures var p := PageFrom(t, walk, i, s).value;
            && i <= p.position <= |walk|
            && p.tally.hits == t.hits + HitsIn(walk, i, p.position, s.query)
            && (p.exhausted ==> p.position == |walk|)
    ensures !t.byteLimit && !t.hitLimit
    decreases |walk| - i
  {
    if t.files < s.caps.maxFiles && i < |walk| {
      var step := Visit(t, walk[i], s);
      if step.Halt? {
        HaltIsLimit(t, walk[i], s);
        assert false;
      } else {
        PageComplete(step.tally, walk, i + 1, s);
        VisitComplete(t, walk[i], s);
        var p := PageFrom(t, walk, i, s).value;
        Regroup(t.hits, EntryHits(walk[i], s.query), HitsIn(walk, i + 1, p.position, s.query));
      }
    }
  }

  // ---- what a page holds when a limit was met ---------------------------------------------------------

  /** `part` is `whole` with some hits left out. */
  ghost predicate Among(part: seq<Hit>, whole: seq<Hit>)
    decreases |whole|
  {
    || part == []
    || (whole != [] && part[0] == whole[0] && Among(part[1..], whole[1..]))
    || (whole != [] && Among(part, whole[1..]))
  }

  lemma {:induction false} AmongBehind(part: seq<Hit>, front: seq<Hit>, whole: seq<Hit>)
    requires Among(part, whole)
    ensures Among(part, front + whole)
    decreases |front|
  {
    if front == [] {
      assert front + whole == whole;
    } else {
      assert (front + whole)[1..] == front[1..] + whole;
      AmongBehind(part, front[1..], whole);
    }
  }

  lemma {:induction false} AmongBoth(a: seq<Hit>, b: seq<Hit>, part: seq<Hit>, whole: seq<Hit>)
    requires Among(a, b) && Among(part, whole)
    ensures Among(a + part, b + whole)
    decreases |b|
  {
    if a == [] {
      assert a + part == part;
      AmongBehind(part, b, whole);
    } else {
      assert (b + whole)[0] == b[0] && (b + whole)[1..] == b[1..] + whole;
      if a[0] == b[0] && Among(a[1..], b[1..]) {
        assert (a + part)[1..] == a[1..] + part;
        AmongBoth(a[1..], b[1..], part, whole);
      } else {
        AmongBoth(a, b[1..], part, whole);
      }
    }
  }

  lemma {:induction false} AmongItself(s: seq<Hit>)
    ensures Among(s, s)
    decreases |s|
  {
    if s != [] {
      AmongItself(s[1..]);
    }
  }

  /** What was found: some of what is there; without a byte limit the first of it, and all unless the page is full. */
  ghost predicate Found(before: Tally, after: Tally, found: seq<Hit>, there: seq<Hit>, limit: nat) {
    && after.hits == before.hits + found && Among(found, there)
    && |after.hits| <= limit && (after.hitLimit <==> |after.hits| == limit)
    && (before.byteLimit ==> after.byteLimit)
    && (!after.byteLimit ==> found <= there && (after.hitLimit || found == there))
  }

  lemma FoundBoth(t: Tally, mid: Tally, end: Tally, a: seq<Hit>, b: seq<Hit>, c: seq<Hit>, d: seq<Hit>, limit: nat)
    requires Found(t, mid, a, b, limit) && !mid.hitLimit && Found(mid, end, c, d, limit)
    ensures Found(t, end, a + c, b + d, limit)
  {
    AmongBoth(a, b, c, d);
    assert t.hits + a + c == t.hits + (a + c);
    if !end.byteLimit {
      assert a == b && a + c <= b + d;
    }
  }

  lemma NothingFound(t: Tally, u: Tally, limit: nat)
    requires u.hits == t.hits && |t.hits| < limit && !u.hitLimit && (t.byteLimit ==> u.byteLimit)
    ensures Found(t, u, [], [], limit)
  {
    assert t.hits + [] == t.hits;
  }

  /** A stretch that was passed over because of a byte limit. */
  lemma PassedOver(t: Tally, u: Tally, there: seq<Hit>, limit: nat)
    requires u.hits == t.hits && |t.hits| < limit && !u.hitLimit && u.byteLimit
    ensures Found(t, u, [], there, limit)
  {
    assert t.hits + [] == t.hits;
  }

  function HitsOfLine(path: Path, lines: seq<Line>, i: nat, query: Line): seq<Hit>
    requires i < |lines|
  {
    var at := Find(query, lines[i]);
    if at.Some? then [Hit(path, i + 1, at.value + 1, lines[i])] else []
  }

  lemma {:induction false} LinesFound(t: Tally, path: Path, lines: seq<Line>, i: nat, s: Search) returns (found: seq<Hit>)
    requires |t.hits| < s.limit && !t.hitLimit
    ensures Found(t, VisitLines(t, path, lines, i, s), found, LineHits(path, lines, i, s.query), s.limit)
    ensures var r := VisitLines(t, path, lines, i, s); r.nextAfter == if r.hitLimit then None else t.nextAfter
    decreases |lines| - i
  {
    var r := VisitLines(t, path, lines, i, s);
    if i >= |lines| {
      NothingFound(t, t, s.limit);
      return [];
    }
    var here, later := HitsOfLine(path, lines, i, s.query), LineHits(path, lines, i + 1, s.query);
    assert LineHits(path, lines, i, s.query) == here + later;
    if |lines[i]| > HARD_MAX_LINE_BYTES {
      var over := t.(byteLimit := true);
      PassedOver(t, over, here, s.limit);
      found := LinesFound(over, path, lines, i + 1, s);
      FoundBoth(t, over, r, [], here, found, later, s.limit);
      assert [] + found == found;
    } else if here == [] {
      found := LinesFound(t, path, lines, i + 1, s);
      assert [] + later == later;
    } else if t.hitText + |lines[i]| > HARD_MAX_HIT_TEXT_BYTES {
      PassedOver(t, r, here + later, s.limit);
      found := [];
    } else {
      var more := t.(hits := t.hits + here, hitText := t.hitText + |lines[i]|);
      AmongItself(here);
      if |more.hits| >= s.limit {
        assert here <= here + later;
        AmongBoth(here, here, [], later);
        assert here + [] == here;
        found := here;
      } else {
        var rest := LinesFound(more, path, lines, i + 1, s);
        FoundBoth(t, more, r, here, here, rest, later, s.limit);
        found := here + rest;
      }
    }
  }

  lemma VisitFound(t: Tally, e: Entry, s: Search) returns (found: seq<Hit>)
    requires |t.hits| < s.limit && !t.hitLimit && !Visit(t, e, s).Crash?
    ensures Found(t, Visit(t, e, s).tally, found, EntryHits(e, s.query), s.limit)
    ensures Visit(t, e, s).Go? ==> !Visit(t, e, s).tally.hitLimit
    ensures var u := Visit(t, e, s).tally;
            && u.files == t.files + (if e.Opened? then 1 else 0)
            && u.nextAfter == if u.hitLimit then None else if e.Opened? then Some(e.path) else t.nextAfter
  {
    var u := Visit(t, e, s).tally;
    if e.Opened? && e.probe.Text? && e.size <= s.caps.maxFileBytes && e.size <= Remaining(t, s) {
      var seen := t.(files := t.files + 1, nextAfter := Some(e.path), bytes := t.bytes + e.size);
      VisitedFiles(seen, e.path, e.probe.lines, 0, s);
      found := LinesFound(seen, e.path, e.probe.lines, 0, s);
    } else if u.byteLimit {
      PassedOver(t, u, EntryHits(e, s.query), s.limit);
      found := [];
    } else {
      NothingFound(t, u, s.limit);
      found := [];
    }
  }

  lemma {:induction false} VisitedFiles(t: Tally, path: Path, lines: seq<Line>, i: nat, s: Search)
    ensures VisitLines(t, path, lines, i, s).files == t.files
    decreases |lines| - i
  {
    if i < |lines| {
      var at := Find(s.query, lines[i]);
      VisitedFiles(t.(byteLimit := true), path, lines, i + 1, s);
      VisitedFiles(t, path, lines, i + 1, s);
      if at.Some? {
        VisitedFiles(t.(hits := t.hits + [Hit(path, i + 1, at.value + 1, lines[i])], hitText := t.hitText + |lines[i]|), path, lines, i + 1, s);
      }
    }
  }

  /** The files a stretch of the walk opens, and the last of them. */
  function OpenedIn(walk: seq<Entry>, i: nat, j: nat): seq<Path>
    requires i <= j <= |walk|
    decreases j - i
  {
    if i == j then [] else (if walk[i].Opened? then [walk[i].path] else []) + OpenedIn(walk, i + 1, j)
  }

  function LastOf(paths: seq<Path>, otherwise: Option<Path>): Option<Path> {
    if paths == [] then otherwise else Some(paths[|paths| - 1])
  }

  lemma {:induction false} PageFound(t: Tally, walk: seq<Entry>, i: nat, s: Search) returns (found: seq<Hit>)
    requires i <= |walk| && PageFrom(t, walk, i, s).Some? && |t.hits| < s.limit && !t.hitLimit
    ensures var p := PageFrom(t, walk, i, s).value;
            && i <= p.position <= |walk| && Found(t, p.tally, found, HitsIn(walk, i, p.position, s.query), s.limit)
            && p.tally.files == t.files + |OpenedIn(walk, i, p.position)|
            && p.tally.nextAfter == if p.tally.hitLimit then None else LastOf(OpenedIn(walk, i, p.position), t.nextAfter)
    decreases |walk| - i
  {
    if t.files >= s.caps.maxFiles || i >= |walk| {
      NothingFound(t, t, s.limit);
      return [];
    }
    var p, u := PageFrom(t, walk, i, s).value, Visit(t, walk[i], s).tally;
    var here := VisitFound(t, walk[i], s);
    if Visit(t, walk[i], s).Halt? {
      assert HitsIn(walk, i + 1, i + 1, s.query) == [];
      assert EntryHits(walk[i], s.query) + [] == EntryHits(walk[i], s.query);
      found := here;
    } else {
      var rest := PageFound(u, walk, i + 1, s);
      FoundBoth(t, u, p.tally, here, EntryHits(walk[i], s.query), rest, HitsIn(walk, i + 1, p.position, s.query), s.limit);
      found := here + rest;
    }
  }

  /** An entry at which a search has to fail. */
  predicate Breaks(e: Entry, s: Search) {
    e.WalkError? || (e.Opened? && e.probe.ProbeFails? && e.size <= s.caps.maxFileBytes)
  }

  /** A file that is read: small enough, readable and not binary. */
  predicate IsRead(e: Entry, s: Search) {
    e.Opened? && e.size <= s.caps.maxFileBytes && (e.probe.Text? || e.probe.NotText?)
  }

  function BytesRead(walk: seq<Entry>, i: nat, j: nat, s: Search): nat
    requires i <= j <= |walk|
    decreases j - i
  {
    if i == j then 0 else (if IsRead(walk[i], s) then walk[i].size else 0) + BytesRead(walk, i + 1, j, s)
  }

  /** The last file of a stretch is too large for what the page may still read. */
  predicate StopsAt(walk: seq<Entry>, j: nat, bytes: nat, s: Search) {
    0 < j <= |walk| && walk[j - 1].Opened? && walk[j - 1].size <= s.caps.maxFileBytes && bytes + walk[j - 1].size > s.caps.maxTotalBytes
  }

  lemma {:induction false} LinesRead(t: Tally, path: Path, lines: seq<Line>, i: nat, s: Search)
    ensures VisitLines(t, path, lines, i, s).bytes == t.bytes
    decreases |lines| - i
  {
    if i < |lines| {
      var at := Find(s.query, lines[i]);
      LinesRead(t.(byteLimit := true), path, lines, i + 1, s);
      LinesRead(t, path, lines, i + 1, s);
      if at.Some? {
        LinesRead(t.(hits := t.hits + [Hit(path, i + 1, at.value + 1, lines[i])], hitText := t.hitText + |lines[i]|), path, lines, i + 1, s);
      }
    }
  }

  lemma VisitRead(t: Tally, e: Entry, s: Search)
    requires t.bytes <= s.caps.maxTotalBytes
    ensures Visit(t, e, s).Crash? ==> Breaks(e, s)
    ensures !Visit(t, e, s).Crash? ==>
              var u := Visit(t, e, s).tally;
              if e.Opened? && e.size <= s.caps.maxFileBytes && t.bytes + e.size > s.caps.maxTotalBytes
              then Visit(t, e, s).Halt? && u.bytes == t.bytes
              else u.bytes == t.bytes + (if IsRead(e, s) then e.size else 0) && u.bytes <= s.caps.maxTotalBytes && !Breaks(e, s)
  {
    if e.Opened? && e.probe.Text? {
      LinesRead(t.(files := t.files + 1, nextAfter := Some(e.path), bytes := t.bytes + e.size), e.path, e.probe.lines, 0, s);
    }
  }

  /**
   How much a page reads, and where it fails: it reads the files of its stretch
   that are small enough and not binary, but for a last one that no longer
   fits, and it fails exactly if it comes to an entry at which it has to.
   */
  lemma {:induction false} PageReads(t: Tally, walk: seq<Entry>, i: nat, s: Search)
    requires i <= |walk| && t.bytes <= s.caps.maxTotalBytes
    ensures PageFrom(t, walk, i, s).None? ==> exists k :: i <= k < |walk| && Breaks(walk[k], s)
    ensures PageFrom(t, walk, i, s).Some? ==>
              var p := PageFrom(t, walk, i, s).value;
              && i <= p.position <= |walk|
              && (|| (p.tally.bytes == t.bytes + BytesRead(walk, i, p.position, s) && forall k :: i <= k < p.position ==> !Breaks(walk[k], s))
                  || (&& StopsAt(walk, p.position, p.tally.bytes, s) && i < p.position
                      && p.tally.bytes == t.bytes + BytesRead(walk, i, p.position - 1, s)
                      && forall k :: i <= k < p.position - 1 ==> !Breaks(walk[k], s)))
    decreases |walk| - i
  {
    if t.files < s.caps.maxFiles && i < |walk| {
      var step := Visit(t, walk[i], s);
      VisitRead(t, walk[i], s);
      if step.Go? {
        PageReads(step.tally, walk, i + 1, s);
      } else if step.Halt? {
        assert BytesRead(walk, i + 1, i + 1, s) == 0 && BytesRead(walk, i, i, s) == 0;
      }
    }
  }

  /**
   What a page answers, whichever limits it met: its hits are some of those in
   the stretch it covered, in their order; if no byte limit was met they are
   the first of them, all of them or as many as the limit; the limit was met
   exactly if there are that many; the files counted are those opened, and the
   cursor is the last of them, or none if the hit limit was met.
   */
  lemma PageExactly(walk: seq<Entry>, start: nat, s: Search)
    requires start <= |walk| && s.limit > 0 && NewPage(walk, start, s).Some?
    ensures var p := NewPage(walk, start, s).value;
            start <= p.position <= |walk|
    ensures var p := NewPage(walk, start, s).value;
            var there := HitsIn(walk, start, p.position, s.query);
            && Among(p.tally.hits, there)
            && (!p.tally.byteLimit ==> p.tally.hits == there[..Min(s.limit, |there|)])
            && (p.tally.hitLimit <==> |p.tally.hits| == s.limit)
            && p.tally.files == |OpenedIn(walk, start, p.position)|
            && p.tally.nextAfter == if p.tally.hitLimit then None else LastOf(OpenedIn(walk, start, p.position), None)
  {
    var found := PageFound(START, walk, start, s);
    var p := NewPage(walk, start, s).value;
    assert START.hits + found == found;
    var there := HitsIn(walk, start, p.position, s.query);
    if !p.tally.byteLimit {
      assert there[..|found|] == found;
      assert there[..|there|] == there;
    }
  }

  /** A whole page, from a position of the walk. */
  function NewPage(walk: seq<Entry>, start: nat, s: Search): Option<Page> {
    PageFrom(START, walk, start, s)
  }

  predicate WithinLimits(p: Page) {
    !p.tally.byteLimit && !p.tally.hitLimit
  }

  lemma PageCovers(walk: seq<Entry>, start: nat, s: Search)
    requires start <= |walk| && NewPage(walk, start, s).Some? && WithinLimits(NewPage(walk, start, s).value)
    ensures var p := NewPage(walk, start, s).value;
            && start <= p.position <= |walk|
            && p.tally.hits == HitsIn(walk, start, p.position, s.query)
            && (!Truncated(p, s) ==> p.position == |walk|)
            && (Truncated(p, s) && s.caps.maxFiles > 0 ==> start < p.position)
  {
    PageComplete(START, walk, start, s);
    NotExhausted(START, walk, start, s);
  }

  /** A first page that is not truncated has every hit of every readable text file. */
  lemma UntruncatedFindsAll(walk: seq<Entry>, s: Search)
    requires NewPage(walk, 0, s).Some? && !Truncated(NewPage(walk, 0, s).value, s)
    ensures NewPage(walk, 0, s).value.tally.hits == HitsIn(walk, 0, |walk|, s.query)
  {
    PageCovers(walk, 0, s);
  }

  lemma {:induction false} NotExhausted(t: Tally, walk: seq<Entry>, i: nat, s: Search)
    requires i <= |walk| && PageFrom(t, walk, i, s).Some?
    ensures var p := PageFrom(t, walk, i, s).value;
            && (!p.exhausted ==> p.tally.files >= s.caps.maxFiles || p.tally.byteLimit || p.tally.hitLimit)
            && (if t.files < s.caps.maxFiles && i < |walk| then i < p.position else i == p.position)
    decreases |walk| - i
  {
    if t.files < s.caps.maxFiles && i < |walk| {
      if Visit(t, walk[i], s).Go? {
        NotExhausted(Visit(t, walk[i], s).tally, walk, i + 1, s);
      } else {
        HaltIsLimit(t, walk[i], s);
      }
    }
  }

  /** The hits of all pages of a search together, if each is cut short by the cap on files at most. */
  function Followed(walk: seq<Entry>, start: nat, s: Search): Option<seq<Hit>>
    decreases |walk| - start
  {
    var page := NewPage(walk, start, s);
    if page.None? || !WithinLimits(page.value) then None
    else if !Truncated(page.value, s) then Some(page.value.tally.hits)
    else if page.value.position <= start || page.value.position > |walk| then None
    else
      var rest := Followed(walk, page.value.position, s);
      if rest.None? then None else Some(page.value.tally.hits + rest.value)
  }

  lemma {:induction false} HitsInSplit(walk: seq<Entry>, i: nat, j: nat, n: nat, query: Line)
    requires i <= j <= n <= |walk|
    ensures HitsIn(walk, i, n, query) == HitsIn(walk, i, j, query) + HitsIn(walk, j, n, query)
    decreases j - i
  {
    if i < j {
      HitsInSplit(walk, i + 1, j, n, query);
      var first := EntryHits(walk[i], query);
      assert HitsIn(walk, i, n, query) == first + HitsIn(walk, i + 1, n, query);
      assert HitsIn(walk, i, j, query) == first + HitsIn(walk, i + 1, j, query);
      JoinHits(first, HitsIn(walk, i + 1, j, query), HitsIn(walk, j, n, query));
    } else {
      assert [] + HitsIn(walk, j, n, query) == HitsIn(walk, j, n, query);
    }
  }

  lemma JoinHits(a: seq<Hit>, b: seq<Hit>, c: seq<Hit>)
    ensures a + (b + c) == a + b + c
  {
  }

  /** Pages cut by the cap on files alone lose nothing and repeat nothing. */
  lemma {:induction false} FileCapLosesNothing(walk: seq<Entry>, start: nat, s: Search)
    requires start <= |walk| && Followed(walk, start, s).Some?
    ensures Followed(walk, start, s).value == HitsIn(walk, start, |walk|, s.query)
    decreases |walk| - start
  {
    var p := NewPage(walk, start, s).value;
    PageCovers(walk, start, s);
    if Truncated(p, s) {
      FileCapLosesNothing(walk, p.position, s);
      HitsInSplit(walk, start, p.position, |walk|, s.query);
    }
  }

  // ---- a client that asks until there is no more -------------------------------------------------------

  /** The walk retained under a number is as it was, or was dropped. */
  predicate AtMostDropped(before: map<nat, Session>, after: map<nat, Session>, id: nat) {
    id in after ==> id in before && after[id] == before[id]
  }

  lemma RetainedDrops(before: map<nat, Session>, after: map<nat, Session>, id: nat, session: Session, other: nat)
    requires Retained(before, after, id, session) && other != id
    ensures AtMostDropped(before, after, other)
  {
  }

  /** Another search, which retains a walk of its own and may have an earlier one dropped. */
  method SearchOther(server: Searcher, query: Line, limit: nat)
    requires server.Valid()
    modifies server
    ensures server.Valid() && old(server.nextSession) <= server.nextSession
    ensures forall id: nat :: id < old(server.nextSession) ==> AtMostDropped(old(server.sessions), server.sessions, id)
  {
    ghost var before := server.sessions;
    var r := server.Grep(query, limit, None, None, None, None, None);
    assert before - {} == before;
    if r.Answer? && r.session.Some? {
      ghost var id := r.session.value;
      forall other: nat | other < old(server.nextSession) ensures AtMostDropped(before, server.sessions, other) {
        RetainedDrops(before, server.sessions, id, server.sessions[id], other);
      }
    }
  }

  method Intersperse(server: Searcher, queries: seq<Line>, limit: nat)
    requires server.Valid()
    modifies server
    ensures server.Valid() && old(server.nextSession) <= server.nextSession
    ensures forall id: nat :: id < old(server.nextSession) ==> AtMostDropped(old(server.sessions), server.sessions, id)
  {
    for i := 0 to |queries|
      invariant server.Valid() && old(server.nextSession) <= server.nextSession
      invariant forall id: nat :: id < old(server.nextSession) ==> AtMostDropped(old(server.sessions), server.sessions, id)
    {
      ghost var before := server.sessions;
      SearchOther(server, queries[i], limit);
      forall id: nat | id < old(server.nextSession) ensures AtMostDropped(old(server.sessions), server.sessions, id) {
        assert AtMostDropped(old(server.sessions), before, id) && AtMostDropped(before, server.sessions, id);
      }
    }
  }

  /** What a follow-up gets, whether or not its walk was dropped. */
  lemma FollowUp(walk: seq<Entry>, start: nat, s: Search, sessions: map<nat, Session>, id: nat)
    requires DistinctFiles(walk) && Trodden(walk, start) && s.caps.maxFiles > 0 && NewPage(walk, start, s).Some?
    requires Cursor(NewPage(walk, start, s).value, s).Some?
    requires id in sessions ==> sessions[id] == Session(s.query, NewPage(walk, start, s).value.position)
    ensures var p := NewPage(walk, start, s).value;
            && Requested(walk, sessions, s, Cursor(p, s), Some(id)) == NewPage(walk, p.position, s)
            && Trodden(walk, p.position) && start < p.position
  {
    EitherWayTheSame(walk, start, s, s);
    PageTrodden(START, walk, start, s);
    NotExhausted(START, walk, start, s);
  }

  lemma FollowedNext(walk: seq<Entry>, start: nat, s: Search, hits: seq<Hit>)
    requires start <= |walk| && s.limit > 0 && NewPage(walk, start, s).Some? && Among(hits, HitsIn(walk, 0, start, s.query))
    ensures var p := NewPage(walk, start, s).value;
            && start <= p.position <= |walk| && Among(hits + p.tally.hits, HitsIn(walk, 0, p.position, s.query))
            && (Followed(walk, start, s).Some? ==>
                  if !Truncated(p, s) then Followed(walk, start, s).value == p.tally.hits
                  else && Followed(walk, p.position, s).Some? && start < p.position
                       && Followed(walk, start, s).value == p.tally.hits + Followed(walk, p.position, s).value)
  {
    PageExactly(walk, start, s);
    var p := NewPage(walk, start, s).value;
    HitsInSplit(walk, 0, start, p.position, s.query);
    AmongBoth(hits, HitsIn(walk, 0, start, s.query), p.tally.hits, HitsIn(walk, start, p.position, s.query));
  }

  /**
   A client that asks for page after page, first perhaps with the number of a
   walk that was retained for another query, while others search too and its
   own walk may be dropped at any time: what it collects are hits of the
   walk in their order, and exactly all of them if its pages are cut by the cap
   on files alone.
   */
  method SearchAll(server: Searcher, query: Line, limit: nat, files: Option<nat>, fileBytes: Option<nat>,
                   totalBytes: Option<nat>, stale: Option<nat>, others: nat -> seq<Line>)
    returns (hits: seq<Hit>, complete: bool)
    requires server.Valid() && query != [] && limit > 0 && DistinctFiles(server.walk)
    requires stale.Some? && stale.value in server.sessions ==> server.sessions[stale.value].query != query
    modifies server
    ensures server.Valid()
    ensures exists n :: 0 <= n <= |server.walk| && Among(hits, HitsIn(server.walk, 0, n, query))
    ensures Followed(server.walk, 0, Search(query, limit, Clamped(files, fileBytes, totalBytes))).Some? ==>
              complete && hits == HitsIn(server.walk, 0, |server.walk|, query)
  {
    ghost var walk := server.walk;
    ghost var s := Search(query, limit, Clamped(files, fileBytes, totalBytes));
    ghost var all := Followed(walk, 0, s);
    if all.Some? {
      FileCapLosesNothing(walk, 0, s);
    }
    ghost var start := 0;
    var after, session, turn := None, stale, 0;
    hits, complete := [], false;
    while true
      invariant server.Valid() && Trodden(walk, start)
      invariant Requested(walk, server.sessions, s, after, session) == NewPage(walk, start, s)
      invariant Among(hits, HitsIn(walk, 0, start, query))
      invariant all.Some? ==> Followed(walk, start, s).Some? && all.value == hits + Followed(walk, start, s).value
      decreases |walk| - start
    {
      ghost var before, page := hits, NewPage(walk, start, s);
      var r := server.Grep(query, limit, after, session, files, fileBytes, totalBytes);
      if r.Failure? {
        return;
      }
      FollowedNext(walk, start, s, before);
      hits := hits + r.hits;
      if r.nextAfter.None? {
        complete := !r.truncated;
        CursorOfCap(walk, start, s);
        return;
      }
      after, session := r.nextAfter, r.session;
      ghost var id, sessions := r.session.value, server.sessions;
      Intersperse(server, others(turn), limit);
      assert AtMostDropped(sessions, server.sessions, id);
      FollowUp(walk, start, s, server.sessions, id);
      if all.Some? {
        Regroup(before, page.value.tally.hits, Followed(walk, page.value.position, s).value);
      }
      start, turn := page.value.position, turn + 1;
    }
  }

  /** A page cut by the cap on files alone has a cursor. */
  lemma CursorOfCap(walk: seq<Entry>, start: nat, s: Search)
    requires start <= |walk| && s.limit > 0 && s.caps.maxFiles > 0 && NewPage(walk, start, s).Some?
    ensures var p := NewPage(walk, start, s).value;
            WithinLimits(p) && Truncated(p, s) ==> Cursor(p, s).Some?
  {
    PageExactly(walk, start, s);
  }

  // ---- caps are kept, and only they truncate ---------------------------------------------------------

  predicate WithinCaps(t: Tally, s: Search) {
    && |t.hits| <= s.limit && t.files <= s.caps.maxFiles
    && t.bytes <= s.caps.maxTotalBytes && t.hitText <= 0x40_0000
  }

  lemma {:induction false} LinesWithinCaps(t: Tally, path: Path, lines: seq<Line>, i: nat, s: Search)
    requires WithinCaps(t, s) && |t.hits| < s.limit && !t.hitLimit
    ensures var r := VisitLines(t, path, lines, i, s);
            WithinCaps(r, s) && r.files == t.files && r.bytes == t.bytes && (r.hitLimit || |r.hits| < s.limit)
    decreases |lines| - i
  {
    if i < |lines| {
      var at := Find(s.query, lines[i]);
      if |lines[i]| > HARD_MAX_LINE_BYTES {
        LinesWithinCaps(t.(byteLimit := true), path, lines, i + 1, s);
      } else if at.None? {
        LinesWithinCaps(t, path, lines, i + 1, s);
      } else {
        var hits := t.hits + [Hit(path, i + 1, at.value + 1, lines[i])];
        if t.hitText + |lines[i]| <= HARD_MAX_HIT_TEXT_BYTES && |hits| < s.limit {
          LinesWithinCaps(t.(hits := hits, hitText := t.hitText + |lines[i]|), path, lines, i + 1, s);
        }
      }
    }
  }

  /** No page has more hits, files, bytes or hit text than its caps allow. */
  lemma {:induction false} PageWithinCaps(t: Tally, walk: seq<Entry>, i: nat, s: Search)
    requires WithinCaps(t, s) && |t.hits| < s.limit && !t.hitLimit && PageFrom(t, walk, i, s).Some?
    ensures WithinCaps(PageFrom(t, walk, i, s).value.tally, s)
    decreases |walk| - i
  {
    if t.files < s.caps.maxFiles && i < |walk| {
      var e := walk[i];
      if e.Opened? && e.probe.Text? && e.size <= Remaining(t, s) {
        var seen := t.(files := t.files + 1, nextAfter := Some(e.path), bytes := t.bytes + e.size);
        LinesWithinCaps(seen, e.path, e.probe.lines, 0, s);
      }
      if Visit(t, e, s).Go? {
        PageWithinCaps(Visit(t, e, s).tally, walk, i + 1, s);
      }
    }
  }

  function TextOf(hits: seq<Hit>): nat {
    if hits == [] then 0 else |hits[0].text| + TextOf(hits[1..])
  }

  lemma {:induction false} TextOfAppend(a: seq<Hit>, b: seq<Hit>)
    ensures TextOf(a + b) == TextOf(a) + TextOf(b)
    decreases |a|
  {
    if a == [] {
      assert a + b == b;
    } else {
      assert (a + b)[1..] == a[1..] + b;
      TextOfAppend(a[1..], b);
    }
  }

  /** An entry that can be searched in full. */
  predicate Plain(e: Entry, s: Search) {
    match e
    case WalkError => false
    case Opened(_, size, probe) =>
      && size <= s.caps.maxFileBytes && !probe.ProbeFails? && !probe.ReadFails?
      && (probe.Text? ==> forall i :: 0 <= i < |probe.lines| ==> |probe.lines[i]| <= 0x1_0000)
    case _ => true
  }

  function FilesIn(walk: seq<Entry>, i: nat): nat
    decreases |walk| - i
  {
    if i >= |walk| then 0 else (if walk[i].Opened? then 1 else 0) + FilesIn(walk, i + 1)
  }

  function BytesIn(walk: seq<Entry>, i: nat): nat
    decreases |walk| - i
  {
    if i >= |walk| then 0 else (if walk[i].Opened? then walk[i].size else 0) + BytesIn(walk, i + 1)
  }

  /** Room in the tally for some files, bytes and hits more. */
  predicate RoomFor(t: Tally, s: Search, files: nat, bytes: nat, hits: seq<Hit>) {
    && t.files + files < s.caps.maxFiles && t.bytes + bytes <= s.caps.maxTotalBytes
    && |t.hits| + |hits| < s.limit && t.hitText + TextOf(hits) <= 0x40_0000
    && !t.byteLimit && !t.hitLimit
  }

  /** A line with a hit, and room for it. */
  lemma LineFits(t: Tally, path: Path, lines: seq<Line>, i: nat, s: Search, hit: Hit)
    requires i < |lines| && |lines[i]| <= 0x1_0000 && Find(s.query, lines[i]) == Some(hit.column - 1)
    requires hit == Hit(path, i + 1, hit.column, lines[i]) && hit.column > 0
    requires |t.hits| + 1 < s.limit && t.hitText + |lines[i]| <= 0x40_0000
    ensures VisitLines(t, path, lines, i, s) ==
            VisitLines(t.(hits := t.hits + [hit], hitText := t.hitText + |lines[i]|), path, lines, i + 1, s)
  {
  }

  lemma {:induction false} LinesFit(t: Tally, path: Path, lines: seq<Line>, i: nat, s: Search)
    requires forall k :: 0 <= k < |lines| ==> |lines[k]| <= 0x1_0000
    requires |t.hits| + |LineHits(path, lines, i, s.query)| < s.limit
    requires t.hitText + TextOf(LineHits(path, lines, i, s.query)) <= 0x40_0000
    ensures var found := LineHits(path, lines, i, s.query);
            VisitLines(t, path, lines, i, s) == t.(hits := t.hits + found, hitText := t.hitText + TextOf(found))
    decreases |lines| - i
  {
    if i >= |lines| {
      assert t.hits + [] == t.hits;
    } else {
      var rest := LineHits(path, lines, i + 1, s.query);
      var at := Find(s.query, lines[i]);
      if at.None? {
        assert [] + rest == rest;
        LinesFit(t, path, lines, i + 1, s);
      } else {
        var hit := Hit(path, i + 1, at.value + 1, lines[i]);
        assert LineHits(path, lines, i, s.query) == [hit] + rest && ([hit] + rest)[1..] == rest;
        assert TextOf([hit] + rest) == |lines[i]| + TextOf(rest);
        LineFits(t, path, lines, i, s, hit);
        LinesFit(t.(hits := t.hits + [hit], hitText := t.hitText + |lines[i]|), path, lines, i + 1, s);
        Regroup(t.hits, [hit], rest);
      }
    }
  }

  lemma EntryFits(t: Tally, e: Entry, s: Search)
    requires Plain(e, s) && RoomFor(t, s, if e.Opened? then 1 else 0, if e.Opened? then e.size else 0, EntryHits(e, s.query))
    ensures Visit(t, e, s).Go?
    ensures var u, found := Visit(t, e, s).tally, EntryHits(e, s.query);
            && u.hits == t.hits + found && u.hitText == t.hitText + TextOf(found)
            && u.files == t.files + (if e.Opened? then 1 else 0)
            && u.bytes <= t.bytes + (if e.Opened? then e.size else 0)
            && !u.byteLimit && !u.hitLimit
  {
    assert t.hits + [] == t.hits;
    if e.Opened? && e.probe.Text? {
      LinesFit(t.(files := t.files + 1, nextAfter := Some(e.path), bytes := t.bytes + e.size), e.path, e.probe.lines, 0, s);
    }
  }

  /** A tree that fits the caps is searched to its end in one page, which is not truncated. */
  lemma {:induction false} FittingTreeIsNotTruncated(t: Tally, walk: seq<Entry>, i: nat, s: Search)
    requires i <= |walk| && forall k :: i <= k < |walk| ==> Plain(walk[k], s)
    requires RoomFor(t, s, FilesIn(walk, i), BytesIn(walk, i), HitsIn(walk, i, |walk|, s.query))
    ensures PageFrom(t, walk, i, s).Some? && !Truncated(PageFrom(t, walk, i, s).value, s)
    decreases |walk| - i
  {
    if i < |walk| {
      var rest := HitsIn(walk, i + 1, |walk|, s.query);
      TextOfAppend(EntryHits(walk[i], s.query), rest);
      EntryFits(t, walk[i], s);
      FittingTreeIsNotTruncated(Visit(t, walk[i], s).tally, walk, i + 1, s);
    }
  }
}
