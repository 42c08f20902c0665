/**
 Keeping the registry cache within its budget (crates/nrm-registry/src/fetch.rs):
 the oldest files go first, files in use or needed for the answer stay, and
 other processes may take files away or hold them locked at any time.
 */
module Eviction {
  import opened Protocol

  /** A path by its rank among all paths. */
  type Path = nat

  datatype Entry = Entry(modified: nat, path: Path, size: U64)

  datatype Listed = Unreadable | NotAFile | Regular(entry: Entry)

  /** What an attempt to evict a file meets with; `Late` is a deadline that has passed. */
  datatype Fate =
    | Free
    | Leased
    | GoneAtOpen
    | GoneAtRemove
    | OpenFails
    | LockFails
    | RemoveFails
    | Late
    | LateAfterRemove

  datatype Verdict = WithinBudget | OverBudget(required: U64) | Failed

  predicate Before(a: Entry, b: Entry) {
    a.modified < b.modified || (a.modified == b.modified && a.path <= b.path)
  }

  predicate Ordered(s: seq<Entry>) {
    forall i, j :: 0 <= i < j < |s| ==> Before(s[i], s[j])
  }

  predicate Distinct(s: seq<Entry>) {
    forall i, j :: 0 <= i < j < |s| ==> s[i].path != s[j].path
  }

  /** The bytes of the files that are not gone. */
  function Left(s: seq<Entry>, gone: set<Path>): nat {
    if s == [] then 0
    else Left(s[..|s| - 1], gone) + if s[|s| - 1].path in gone then 0 else s[|s| - 1].size
  }

  function SaturatingAdd(a: U64, b: U64): U64 {
    if a + b < U64_LIMIT then a + b else U64_LIMIT - 1
  }

  function SaturatingSub(a: U64, b: U64): U64 {
    if a >= b then a - b else 0
  }

  // ---- sorting ---------------------------------------------------------------------------------

  function Insert(e: Entry, s: seq<Entry>): seq<Entry> {
    if s == [] || Before(e, s[0]) then [e] + s else [s[0]] + Insert(e, s[1..])
  }

  function Sorted(s: seq<Entry>): seq<Entry> {
    if s == [] then [] else Insert(s[0], Sorted(s[1..]))
  }

  lemma {:induction false} InsertKeeps(e: Entry, s: seq<Entry>)
    requires Ordered(s)
    ensures multiset(Insert(e, s)) == multiset(s) + multiset{e} && Ordered(Insert(e, s))
    decreases |s|
  {
    if s == [] || Before(e, s[0]) {
      assert Insert(e, s) == [e] + s;
    } else {
      InsertKeeps(e, s[1..]);
      var rest := Insert(e, s[1..]);
      assert s == [s[0]] + s[1..];
      forall i | 0 <= i < |rest| ensures Before(s[0], rest[i]) {
        assert rest[i] in multiset(rest);
        assert rest[i] == e || rest[i] in s[1..];
      }
    }
  }

  lemma {:induction false} SortedIsOrdered(s: seq<Entry>)
    ensures multiset(Sorted(s)) == multiset(s) && Ordered(Sorted(s))
    decreases |s|
  {
    if s != [] {
      SortedIsOrdered(s[1..]);
      InsertKeeps(s[0], Sorted(s[1..]));
      assert s == [s[0]] + s[1..];
    }
  }

  // ---- sums --------------------------------------------------------------------------------------

  lemma {:induction false} LeftAfter(s: seq<Entry>, gone: set<Path>, i: nat)
    requires Distinct(s) && i < |s| && s[i].path !in gone
    ensures Left(s, gone + {s[i].path}) == Left(s, gone) - s[i].size
    decreases |s|
  {
    var k := |s| - 1;
    if i == k {
      LeftSame(s[..k], gone, s[i].path);
    } else {
      LeftAfter(s[..k], gone, i);
      assert s[..k][i] == s[i];
    }
  }

  lemma {:induction false} LeftSame(s: seq<Entry>, gone: set<Path>, p: Path)
    requires forall i :: 0 <= i < |s| ==> s[i].path != p
    ensures Left(s, gone + {p}) == Left(s, gone)
    decreases |s|
  {
    if s != [] {
      LeftSame(s[..|s| - 1], gone, p);
    }
  }

  lemma {:induction false} LeftCons(e: Entry, s: seq<Entry>, gone: set<Path>)
    ensures Left([e] + s, gone) == Left(s, gone) + if e.path in gone then 0 else e.size
    decreases |s|
  {
    if s == [] {
      assert ([e] + s)[..0] == [];
    } else {
      var k := |s| - 1;
      assert ([e] + s)[..|s|] == [e] + s[..k];
      LeftCons(e, s[..k], gone);
    }
  }

  lemma {:induction false} LeftInsert(e: Entry, s: seq<Entry>, gone: set<Path>)
    ensures Left(Insert(e, s), gone) == Left([e] + s, gone)
    decreases |s|
  {
    LeftCons(e, s, gone);
    if s != [] && !Before(e, s[0]) {
      assert s == [s[0]] + s[1..];
      LeftInsert(e, s[1..], gone);
      LeftCons(e, s[1..], gone);
      LeftCons(s[0], s[1..], gone);
      LeftCons(s[0], Insert(e, s[1..]), gone);
    }
  }

  /** Sorting does not change the total. */
  lemma {:induction false} LeftSorted(s: seq<Entry>, gone: set<Path>)
    ensures Left(Sorted(s), gone) == Left(s, gone)
    decreases |s|
  {
    if s != [] {
      assert s == [s[0]] + s[1..];
      LeftSorted(s[1..], gone);
      LeftInsert(s[0], Sorted(s[1..]), gone);
      LeftCons(s[0], s[1..], gone);
      LeftCons(s[0], Sorted(s[1..]), gone);
    }
  }

  lemma {:induction false} InsertDistinct(e: Entry, s: seq<Entry>)
    requires Distinct(s) && forall x :: x in s ==> x.path != e.path
    ensures Distinct(Insert(e, s))
    ensures forall x :: x in Insert(e, s) ==> x == e || x in s
    decreases |s|
  {
    if s != [] && !Before(e, s[0]) {
      InsertDistinct(e, s[1..]);
      var rest := Insert(e, s[1..]);
      forall i | 0 <= i < |rest| ensures rest[i].path != s[0].path {
        assert rest[i] == e || rest[i] in s[1..];
      }
    }
  }

  lemma {:induction false} SortedDistinct(s: seq<Entry>)
    requires Distinct(s)
    ensures Distinct(Sorted(s))
    ensures forall x :: x in Sorted(s) ==> x in s
    decreases |s|
  {
    if s != [] {
      SortedDistinct(s[1..]);
      InsertDistinct(s[0], Sorted(s[1..]));
    }
  }

  // ---- the promise -------------------------------------------------------------------------------

  /** Nothing fails and no deadline passes. */
  predicate Benign(f: Fate) {
    f.Free? || f.Leased? || f.GoneAtOpen? || f.GoneAtRemove?
  }

  predicate AllBenign(s: seq<Entry>, fate: Path -> Fate) {
    forall i :: 0 <= i < |s| ==> Benign(fate(s[i].path))
  }

  predicate Stays(e: Entry, protected: set<Path>, fate: Path -> Fate) {
    e.path in protected || fate(e.path) == Leased
  }

  function PathsOf(s: seq<Entry>): set<Path> {
    set e | e in s :: e.path
  }

  /** A file that is no longer there: it was deleted, or somebody else had taken it away. */
  ghost predicate Accounted(e: Entry, fate: Path -> Fate, removed: seq<Entry>) {
    e in removed || fate(e.path).GoneAtOpen? || fate(e.path).GoneAtRemove?
  }

  /** `gone` are the deleted files and those found missing, none of which is protected or leased. */
  ghost predicate GoneRightly(s: seq<Entry>, protected: set<Path>, fate: Path -> Fate, removed: seq<Entry>, gone: set<Path>) {
    && gone <= PathsOf(s)
    && (forall e :: e in s && e.path in gone ==> !Stays(e, protected, fate) && Accounted(e, fate, removed))
    && (forall e :: e in removed ==> e in s && e.path in gone && (fate(e.path).Free? || fate(e.path).LateAfterRemove?))
  }

  /**
   Among the files in order of age, `removed` are those deleted, one after
   another, and `gone` those and the ones found missing.  Protected and leased
   files stay, and nothing goes while an older file that could go is left.
   */
  ghost predicate OldestFirst(s: seq<Entry>, protected: set<Path>, fate: Path -> Fate, removed: seq<Entry>, gone: set<Path>) {
    && Ordered(removed) && gone !! protected && GoneRightly(s, protected, fate, removed, gone)
    && (forall i, j :: 0 <= i < j < |s| && s[j].path in gone ==> Stays(s[i], protected, fate) || s[i].path in gone)
    && (forall e, f :: e in s && f in s && f.path in gone && Older(e, f) ==> Stays(e, protected, fate) || e.path in gone)
  }

  /** Last used earlier, or at the same time with the smaller path. */
  predicate Older(e: Entry, f: Entry) {
    e.modified < f.modified || (e.modified == f.modified && e.path < f.path)
  }

  /** Every file went over budget, and a budget error means that nothing more can go. */
  ghost predicate Frugal(s: seq<Entry>, protected: set<Path>, fate: Path -> Fate, max: U64, verdict: Verdict, gone: set<Path>) {
    && (forall j :: 0 <= j < |s| && s[j].path in gone ==> Left(s, gone * PathsOf(s[..j])) > max)
    && (verdict.OverBudget? ==> Left(s, gone) > max && PassedOver(s, protected, fate, gone))
  }

  /** The files that may go. */
  function Movable(s: seq<Entry>, protected: set<Path>, fate: Path -> Fate): set<Path> {
    set e | e in s && !Stays(e, protected, fate) :: e.path
  }

  /** Sorting changes neither which files may go nor how much the others hold. */
  lemma MovableSorted(s: seq<Entry>, protected: set<Path>, fate: Path -> Fate)
    ensures Movable(Sorted(s), protected, fate) == Movable(s, protected, fate)
    ensures Left(Sorted(s), Movable(Sorted(s), protected, fate)) == Left(s, Movable(s, protected, fate))
  {
    SortedIsOrdered(s);
    assert forall e :: e in s <==> e in multiset(s);
    assert forall e :: e in Sorted(s) <==> e in multiset(Sorted(s));
    LeftSorted(s, Movable(s, protected, fate));
  }

  lemma {:induction false} LeftShrinks(s: seq<Entry>, gone: set<Path>, more: set<Path>)
    requires gone <= more
    ensures Left(s, more) <= Left(s, gone)
    decreases |s|
  {
    if s != [] {
      LeftShrinks(s[..|s| - 1], gone, more);
    }
  }

  /** Eviction fails for lack of room exactly if the files that have to stay are too many. */
  lemma OverBudgetExactly(s: seq<Entry>, protected: set<Path>, fate: Path -> Fate, max: U64,
                          verdict: Verdict, removed: seq<Entry>, gone: set<Path>)
    requires OldestFirst(s, protected, fate, removed, gone) && Frugal(s, protected, fate, max, verdict, gone)
    requires verdict != Failed && (verdict == WithinBudget ==> Left(s, gone) <= max)
    ensures verdict.OverBudget? <==> Left(s, Movable(s, protected, fate)) > max
  {
    var movable := Movable(s, protected, fate);
    forall p | p in gone ensures p in movable {
      var e :| e in s && e.path == p;
    }
    LeftShrinks(s, gone, movable);
    if verdict.OverBudget? {
      forall p | p in movable ensures p in gone {
        var e :| e in s && !Stays(e, protected, fate) && e.path == p;
        var i :| 0 <= i < |s| && s[i] == e;
      }
      assert gone == movable;
    }
  }

  lemma FirstMissing(s: seq<Entry>, gone: set<Path>, other: set<Path>) returns (j: nat)
    requires exists i :: 0 <= i < |s| && s[i].path in other && s[i].path !in gone
    ensures j < |s| && s[j].path in other && s[j].path !in gone
    ensures forall i :: 0 <= i < j && s[i].path in other ==> s[i].path in gone
  {
    j := 0;
    while !(s[j].path in other && s[j].path !in gone)
      invariant j < |s| && forall i :: 0 <= i < j && s[i].path in other ==> s[i].path in gone
      invariant exists i :: j <= i < |s| && s[i].path in other && s[i].path !in gone
      decreases |s| - j
    {
      j := j + 1;
    }
  }

  /** Before the first file that only the other eviction removed, both removed the same. */
  lemma SameBefore(s: seq<Entry>, protected: set<Path>, fate: Path -> Fate,
                   removed: seq<Entry>, gone: set<Path>, removed': seq<Entry>, other: set<Path>, j: nat)
    requires OldestFirst(s, protected, fate, removed, gone) && OldestFirst(s, protected, fate, removed', other)
    requires j < |s| && s[j].path in other && s[j].path !in gone
    requires forall i :: 0 <= i < j && s[i].path in other ==> s[i].path in gone
    ensures other * PathsOf(s[..j]) == gone
  {
    forall q | q in gone ensures q in other * PathsOf(s[..j]) {
      var f :| f in s && f.path == q;
      var k :| 0 <= k < |s| && s[k] == f;
      assert !Stays(s[j], protected, fate) && k < j && s[k] in s[..j];
    }
    forall q | q in other * PathsOf(s[..j]) ensures q in gone {
      var f :| f in s[..j] && f.path == q;
      var k :| 0 <= k < j && s[k] == f;
    }
  }

  /** An eviction that did not fail removed at least what any other one did. */
  lemma WentFarEnough(s: seq<Entry>, protected: set<Path>, fate: Path -> Fate, max: U64,
                      verdict: Verdict, removed: seq<Entry>, gone: set<Path>, verdict': Verdict, removed': seq<Entry>, other: set<Path>)
    requires OldestFirst(s, protected, fate, removed, gone) && Frugal(s, protected, fate, max, verdict, gone)
    requires OldestFirst(s, protected, fate, removed', other) && Frugal(s, protected, fate, max, verdict', other)
    requires verdict != Failed && (verdict == WithinBudget ==> Left(s, gone) <= max)
    ensures other <= gone
  {
    forall p | p in other ensures p in gone {
      var e :| e in s && e.path == p;
      var i :| 0 <= i < |s| && s[i] == e;
      if p !in gone {
        var j := FirstMissing(s, gone, other);
        SameBefore(s, protected, fate, removed, gone, removed', other, j);
        assert false;
      }
    }
  }

  /**
   The promise leaves no choice: for the same files, leases and budget, any two
   evictions that do not fail end with the same files gone.
   */
  lemma EvictionIsDetermined(s: seq<Entry>, protected: set<Path>, fate: Path -> Fate, max: U64,
                             verdict: Verdict, removed: seq<Entry>, gone: set<Path>, verdict': Verdict, removed': seq<Entry>, other: set<Path>)
    requires OldestFirst(s, protected, fate, removed, gone) && Frugal(s, protected, fate, max, verdict, gone)
    requires OldestFirst(s, protected, fate, removed', other) && Frugal(s, protected, fate, max, verdict', other)
    requires verdict != Failed && (verdict == WithinBudget ==> Left(s, gone) <= max)
    requires verdict' != Failed && (verdict' == WithinBudget ==> Left(s, other) <= max)
    ensures gone == other && (verdict.OverBudget? <==> verdict'.OverBudget?)
  {
    WentFarEnough(s, protected, fate, max, verdict, removed, gone, verdict', removed', other);
    WentFarEnough(s, protected, fate, max, verdict', removed', other, verdict, removed, gone);
  }

  function FilesOf(listing: seq<Listed>): seq<Entry> {
    if listing == [] then []
    else
      var last := listing[|listing| - 1];
      FilesOf(listing[..|listing| - 1]) + if last.Regular? then [last.entry] else []
  }

  /** The scan: the regular files with their total size, or an error. */
  method Scan(listing: seq<Listed>) returns (ok: bool, files: seq<Entry>, total: U64)
    ensures ok <==> Unreadable !in listing
    ensures ok ==> files == FilesOf(listing)
    ensures ok && Left(files, {}) < U64_LIMIT ==> total == Left(files, {})
    ensures ok && Left(files, {}) >= U64_LIMIT ==> total == U64_LIMIT - 1
  {
    files, total := [], 0;
    for i := 0 to |listing|
      invariant Unreadable !in listing[..i] && files == FilesOf(listing[..i])
      invariant total == if Left(files, {}) < U64_LIMIT then Left(files, {}) else U64_LIMIT - 1
    {
      assert listing[..i + 1] == listing[..i] + [listing[i]];
      match listing[i] {
        case Unreadable => return false, [], 0;
        case NotAFile =>
        case Regular(entry) =>
          total := SaturatingAdd(total, entry.size);
          assert (files + [entry])[..|files|] == files;
          files := files + [entry];
      }
    }
    assert listing[..|listing|] == listing;
    ok := true;
  }

  ghost predicate PassedOver(s: seq<Entry>, protected: set<Path>, fate: Path -> Fate, gone: set<Path>) {
    forall k :: 0 <= k < |s| ==> Stays(s[k], protected, fate) || s[k].path in gone
  }

  ghost predicate WentOverBudget(s: seq<Entry>, max: U64, i: nat, gone: set<Path>)
    requires i <= |s|
  {
    forall j :: 0 <= j < i && s[j].path in gone ==> Left(s, gone * PathsOf(s[..j])) > max
  }

  /** The loop's state before file `i`. */
  ghost predicate Progress(s: seq<Entry>, protected: set<Path>, fate: Path -> Fate, max: U64,
                           i: nat, removed: seq<Entry>, gone: set<Path>)
    requires i <= |s|
  {
    && Ordered(removed) && gone !! protected
    && GoneRightly(s[..i], protected, fate, removed, gone)
    && PassedOver(s[..i], protected, fate, gone)
    && WentOverBudget(s, max, i, gone)
  }

  lemma KeepProgress(s: seq<Entry>, protected: set<Path>, fate: Path -> Fate, max: U64,
                     i: nat, removed: seq<Entry>, gone: set<Path>)
    requires i < |s| && Distinct(s) && Progress(s, protected, fate, max, i, removed, gone) && Stays(s[i], protected, fate)
    ensures Progress(s, protected, fate, max, i + 1, removed, gone)
  {
    assert s[..i + 1] == s[..i] + [s[i]];
    PathsGrow(s, i);
    EarlierGone(s, gone, i, i);
  }

  lemma EarlierGone(s: seq<Entry>, gone: set<Path>, i: nat, j: nat)
    requires Distinct(s) && j <= i < |s|
    ensures s[i].path !in PathsOf(s[..j])
    ensures (gone + {s[i].path}) * PathsOf(s[..j]) == gone * PathsOf(s[..j])
  {
  }

  lemma DropOverBudget(s: seq<Entry>, max: U64, i: nat, gone: set<Path>)
    requires i < |s| && Distinct(s) && gone <= PathsOf(s[..i]) && Left(s, gone) > max
    requires WentOverBudget(s, max, i, gone)
    ensures WentOverBudget(s, max, i + 1, gone + {s[i].path})
  {
    forall j | 0 <= j < i + 1 && s[j].path in gone + {s[i].path}
      ensures Left(s, (gone + {s[i].path}) * PathsOf(s[..j])) > max
    {
      EarlierGone(s, gone, i, j);
      if j == i {
        assert gone * PathsOf(s[..i]) == gone;
      }
    }
  }

  lemma DropOrdered(s: seq<Entry>, i: nat, removed: seq<Entry>)
    requires i < |s| && Ordered(s) && Ordered(removed) && forall e :: e in removed ==> e in s[..i]
    ensures Ordered(removed + [s[i]])
  {
    forall k | 0 <= k < |removed| ensures Before(removed[k], s[i]) {
      assert removed[k] in s[..i];
    }
  }

  lemma DropRightly(s: seq<Entry>, protected: set<Path>, fate: Path -> Fate, i: nat,
                    removed: seq<Entry>, gone: set<Path>, more: seq<Entry>, found: bool)
    requires i < |s| && GoneRightly(s[..i], protected, fate, removed, gone)
    requires AttemptOn(s[i], protected, fate).Drop? && found == AttemptOn(s[i], protected, fate).found
    requires Distinct(s) && more == if found then removed + [s[i]] else removed
    ensures GoneRightly(s[..i + 1], protected, fate, more, gone + {s[i].path})
  {
    PathsGrow(s, i);
    EarlierGone(s, gone, i, i);
    assert s[..i + 1] == s[..i] + [s[i]];
    forall e | e in s[..i + 1] && e.path in gone + {s[i].path}
      ensures !Stays(e, protected, fate) && Accounted(e, fate, more)
    {
      if e in s[..i] {
        assert e.path in PathsOf(s[..i]);
        assert e.path in gone && Accounted(e, fate, removed);
      }
    }
  }

  lemma DropProgress(s: seq<Entry>, protected: set<Path>, fate: Path -> Fate, max: U64,
                     i: nat, removed: seq<Entry>, gone: set<Path>, more: seq<Entry>)
    requires i < |s| && Distinct(s) && Ordered(s) && Progress(s, protected, fate, max, i, removed, gone)
    requires AttemptOn(s[i], protected, fate).Drop? && Left(s, gone) > max
    requires more == if AttemptOn(s[i], protected, fate).found then removed + [s[i]] else removed
    ensures Left(s, gone + {s[i].path}) == Left(s, gone) - s[i].size
    ensures Progress(s, protected, fate, max, i + 1, more, gone + {s[i].path})
  {
    DropOrdered(s, i, removed);
    DropRightly(s, protected, fate, i, removed, gone, more, AttemptOn(s[i], protected, fate).found);
    DropOverBudget(s, max, i, gone);
    DropPassed(s, protected, fate, i, gone);
    EarlierGone(s, gone, i, i);
    LeftAfter(s, gone, i);
  }

  lemma DropPassed(s: seq<Entry>, protected: set<Path>, fate: Path -> Fate, i: nat, gone: set<Path>)
    requires i < |s| && PassedOver(s[..i], protected, fate, gone)
    ensures PassedOver(s[..i + 1], protected, fate, gone + {s[i].path})
  {
    assert s[..i + 1] == s[..i] + [s[i]];
  }

  lemma PathsGrow(s: seq<Entry>, i: nat)
    requires i < |s|
    ensures PathsOf(s[..i + 1]) == PathsOf(s[..i]) + {s[i].path}
  {
    assert s[..i + 1] == s[..i] + [s[i]];
  }

  lemma OlderIsEarlier(s: seq<Entry>, e: Entry, f: Entry)
    requires Ordered(s) && e in s && f in s && Older(e, f)
    ensures exists i, j :: 0 <= i < j < |s| && s[i] == e && s[j] == f
  {
    var i :| 0 <= i < |s| && s[i] == e;
    var j :| 0 <= j < |s| && s[j] == f;
    assert i < j;
  }

  lemma ProgressIsFair(s: seq<Entry>, protected: set<Path>, fate: Path -> Fate, max: U64,
                       i: nat, verdict: Verdict, removed: seq<Entry>, gone: set<Path>)
    requires i <= |s| && Distinct(s) && Ordered(s) && Progress(s, protected, fate, max, i, removed, gone)
    requires verdict.OverBudget? ==> i == |s| && Left(s, gone) > max
    ensures OldestFirst(s, protected, fate, removed, gone)
    ensures Frugal(s, protected, fate, max, verdict, gone)
  {
    assert i == |s| ==> s[..i] == s;
    forall j | 0 <= j < |s| && s[j].path in gone ensures j < i && s[j] in s[..i] {
      var e :| e in s[..i] && e.path == s[j].path;
      var k :| 0 <= k < i && s[k] == e;
      assert k == j;
    }
    assert forall k :: 0 <= k < i ==> s[..i][k] == s[k];
    forall e | e in s && e.path in gone ensures e in s[..i] {
      var j :| 0 <= j < |s| && s[j] == e;
    }
    forall e, f | e in s && f in s && f.path in gone && Older(e, f) ensures Stays(e, protected, fate) || e.path in gone {
      OlderIsEarlier(s, e, f);
    }
    assert forall e :: e in s[..i] ==> e in s;
  }

  /** A file that cannot be opened, locked or removed. */
  predicate Obstructed(f: Fate) {
    f.OpenFails? || f.LockFails? || f.RemoveFails?
  }

  /** The loop does not get past this file: the deadline has passed, or it can neither go nor stay. */
  predicate Fatal(e: Entry, protected: set<Path>, fate: Path -> Fate) {
    || fate(e.path).Late?
    || (e.path !in protected && (Obstructed(fate(e.path)) || fate(e.path).LateAfterRemove?))
  }

  /** Some file was reached over budget and was fatal. */
  ghost predicate Thwarted(s: seq<Entry>, protected: set<Path>, fate: Path -> Fate, max: U64, gone: set<Path>) {
    exists j :: 0 <= j < |s| && Fatal(s[j], protected, fate) && Left(s, gone * PathsOf(s[..j])) > max
  }

  /** What the loop makes of one file. */
  datatype Attempt = Keep | Stop | Drop(found: bool, late: bool)

  function AttemptOn(e: Entry, protected: set<Path>, fate: Path -> Fate): (a: Attempt)
    ensures a.Keep? ==> Stays(e, protected, fate)
    ensures a.Drop? ==> !Stays(e, protected, fate)
    ensures a.Drop? ==> if a.found then fate(e.path).Free? || fate(e.path).LateAfterRemove?
                        else fate(e.path).GoneAtOpen? || fate(e.path).GoneAtRemove?
    ensures a.Stop? <==> fate(e.path).Late? || (e.path !in protected && Obstructed(fate(e.path)))
    ensures a.Drop? ==> (a.late <==> fate(e.path).LateAfterRemove?)
  {
    if fate(e.path) == Late then Stop
    else if e.path in protected then Keep
    else match fate(e.path)
      case OpenFails | LockFails | RemoveFails | Late => Stop
      case Leased => Keep
      case Free => Drop(true, false)
      case LateAfterRemove => Drop(true, true)
      case GoneAtOpen | GoneAtRemove => Drop(false, false)
  }

  ghost predicate NoneFatal(s: seq<Entry>, protected: set<Path>, fate: Path -> Fate, i: nat)
    requires i <= |s|
  {
    forall j :: 0 <= j < i ==> !Fatal(s[j], protected, fate)
  }

  lemma ThwartedHere(s: seq<Entry>, protected: set<Path>, fate: Path -> Fate, max: U64, i: nat, lost: set<Path>, gone: set<Path>)
    requires i < |s| && Distinct(s) && lost <= PathsOf(s[..i]) && Left(s, lost) > max
    requires Fatal(s[i], protected, fate) && (gone == lost || gone == lost + {s[i].path})
    ensures Thwarted(s, protected, fate, max, gone)
  {
    EarlierGone(s, lost, i, i);
    assert lost * PathsOf(s[..i]) == lost;
  }

  lemma NotThwarted(s: seq<Entry>, protected: set<Path>, fate: Path -> Fate, max: U64, i: nat, gone: set<Path>)
    requires i <= |s| && NoneFatal(s, protected, fate, i) && gone <= PathsOf(s[..i])
    requires i == |s| || Left(s, gone) <= max
    ensures !Thwarted(s, protected, fate, max, gone)
  {
    forall j | i <= j < |s| ensures gone * PathsOf(s[..j]) == gone {
      assert s[..i] == s[..j][..i];
    }
  }

  class Cache {
    var disk: set<Path>
    const maxBytes: U64

    constructor (disk: set<Path>, maxBytes: U64)
      ensures this.disk == disk && this.maxBytes == maxBytes
    {
      this.disk, this.maxBytes := disk, maxBytes;
    }

    /** One turn of the loop, over budget. */
    method EvictNext(s: seq<Entry>, i: nat, size: U64, protected: set<Path>, fate: Path -> Fate,
                     before: seq<Entry>, lost: set<Path>)
      returns (attempt: Attempt, total: U64, removed: seq<Entry>, gone: set<Path>)
      requires Distinct(s) && Ordered(s) && i < |s| && maxBytes < size <= Left(s, lost)
      requires Progress(s, protected, fate, maxBytes, i, before, lost)
      modifies this
      ensures attempt == AttemptOn(s[i], protected, fate)
      ensures attempt.Stop? ==> total == size && removed == before && gone == lost && disk == old(disk)
      ensures !attempt.Stop? ==> Progress(s, protected, fate, maxBytes, i + 1, removed, gone)
      ensures lost <= gone && disk == old(disk) - (gone - lost)
      ensures gone == lost || gone == lost + {s[i].path}
      ensures total <= Left(s, gone) && (size == Left(s, lost) ==> total == Left(s, gone))
    {
      attempt, total, removed, gone := AttemptOn(s[i], protected, fate), size, before, lost;
      if attempt.Keep? {
        KeepProgress(s, protected, fate, maxBytes, i, before, lost);
      } else if attempt.Drop? {
        removed := if attempt.found then before + [s[i]] else before;
        DropProgress(s, protected, fate, maxBytes, i, before, lost, removed);
        gone := lost + {s[i].path};
        disk := disk - {s[i].path};
        total := SaturatingSub(size, s[i].size);
      }
    }

    /** The loop over the files in order of age. */
    method EvictInOrder(s: seq<Entry>, size: U64, protected: set<Path>, fate: Path -> Fate)
      returns (verdict: Verdict, removed: seq<Entry>, gone: set<Path>)
      requires Distinct(s) && Ordered(s) && size <= Left(s, {})
      modifies this
      ensures disk == old(disk) - gone
      ensures OldestFirst(s, protected, fate, removed, gone)
      ensures Frugal(s, protected, fate, maxBytes, verdict, gone)
      ensures AllBenign(s, fate) ==> verdict != Failed
      ensures size == Left(s, {}) ==> (verdict == Failed <==> Thwarted(s, protected, fate, maxBytes, gone))
      ensures size == Left(s, {}) && verdict == WithinBudget ==> Left(s, gone) <= maxBytes
      ensures size == Left(s, {}) && verdict.OverBudget? ==> verdict.required == Left(s, gone)
    {
      removed, gone := [], {};
      var total: U64 := size;
      var i, stopped := 0, false;
      while i < |s| && total > maxBytes && !stopped
        invariant i <= |s| && disk == old(disk) - gone && Progress(s, protected, fate, maxBytes, i, removed, gone)
        invariant total <= Left(s, gone) && (size == Left(s, {}) ==> total == Left(s, gone))
        invariant if stopped then !AllBenign(s, fate) else NoneFatal(s, protected, fate, i)
        invariant stopped && size == Left(s, {}) ==> Thwarted(s, protected, fate, maxBytes, gone)
        decreases |s| - i, !stopped
      {
        ghost var lost := gone;
        var attempt;
        attempt, total, removed, gone := EvictNext(s, i, total, protected, fate, removed, gone);
        stopped := attempt.Stop? || (attempt.Drop? && attempt.late);
        if stopped && size == Left(s, {}) {
          ThwartedHere(s, protected, fate, maxBytes, i, lost, gone);
        }
        i := if attempt.Stop? then i else i + 1;
      }
      verdict := if stopped then Failed else if total > maxBytes then OverBudget(total) else WithinBudget;
      ProgressIsFair(s, protected, fate, maxBytes, i, verdict, removed, gone);
      if !stopped && size == Left(s, {}) {
        NotThwarted(s, protected, fate, maxBytes, i, gone);
      }
    }

    /**
     `evict_to_budget`.  Sizes are added with saturation, so the amounts are
     exact for caches below two to the sixty-fourth bytes.
     */
    method EvictToBudget(listing: seq<Listed>, protected: set<Path>, fate: Path -> Fate, lateBefore: bool, lateAfter: bool)
      returns (verdict: Verdict, removed: seq<Entry>, gone: set<Path>)
      requires Distinct(FilesOf(listing))
      modifies this
      ensures disk == old(disk) - gone
      ensures OldestFirst(Sorted(FilesOf(listing)), protected, fate, removed, gone)
      ensures Frugal(Sorted(FilesOf(listing)), protected, fate, maxBytes, verdict, gone)
      ensures Left(FilesOf(listing), {}) < U64_LIMIT ==>
                && (verdict == WithinBudget ==> Left(Sorted(FilesOf(listing)), gone) <= maxBytes)
                && (verdict.OverBudget? ==> verdict.required == Left(Sorted(FilesOf(listing)), gone))
                && (verdict != Failed ==>
                      (verdict.OverBudget? <==> Left(FilesOf(listing), Movable(FilesOf(listing), protected, fate)) > maxBytes))
      ensures !lateBefore && !lateAfter && Unreadable !in listing && AllBenign(Sorted(FilesOf(listing)), fate) ==> verdict != Failed
      ensures !lateBefore && Unreadable !in listing && Left(FilesOf(listing), {}) < U64_LIMIT ==>
                (verdict == Failed <==>
                   || Thwarted(Sorted(FilesOf(listing)), protected, fate, maxBytes, gone)
                   || (lateAfter && Left(Sorted(FilesOf(listing)), gone) <= maxBytes))
      ensures lateBefore || Unreadable in listing ==> verdict == Failed && gone == {}
      ensures lateAfter ==> verdict != WithinBudget
    {
      removed, gone, verdict := [], {}, Failed;
      var scanned, files, total := Scan(listing);
      if !scanned || lateBefore {
        return;
      }
      LeftSorted(files, {});
      if total > maxBytes {
        SortedIsOrdered(files);
        SortedDistinct(files);
        verdict, removed, gone := EvictInOrder(Sorted(files), total, protected, fate);
      } else {
        verdict := WithinBudget;
        if Left(files, {}) < U64_LIMIT {
          NotThwarted(Sorted(files), protected, fate, maxBytes, 0, {});
        }
      }
      if verdict == WithinBudget && lateAfter {
        verdict := Failed;
      }
      if verdict != Failed && Left(files, {}) < U64_LIMIT {
        OverBudgetExactly(Sorted(files), protected, fate, maxBytes, verdict, removed, gone);
        MovableSorted(files, protected, fate);
      }
    }

    /** What `evict_for_result` protects: the artifact, and its manifest and signature if all fit. */
    function ResultPaths(artifact: Path, manifest: Path, signature: Path,
                         artifactSize: U64, pairSize: U64, pairPresent: bool): (protected: set<Path>)
      ensures var fits := artifactSize + pairSize <= maxBytes || maxBytes == 0xFFFF_FFFF_FFFF_FFFF;
              protected == if pairPresent && fits then {artifact, manifest, signature} else {artifact}
    {
      if SaturatingAdd(artifactSize, pairSize) <= maxBytes && pairPresent then {artifact, manifest, signature} else {artifact}
    }

    /** `evict_for_result`: the artifact asked for stays, and its manifest and signature if all fit. */
    method EvictForResult(listing: seq<Listed>, artifact: Path, manifest: Path, signature: Path,
                          artifactSize: U64, pairSize: U64, pairPresent: bool,
                          fate: Path -> Fate, lateBefore: bool, lateAfter: bool)
      returns (verdict: Verdict, removed: seq<Entry>, gone: set<Path>)
      requires Distinct(FilesOf(listing))
      modifies this
      ensures disk == old(disk) - gone && artifact !in gone
      ensures pairPresent && artifactSize + pairSize <= maxBytes ==> manifest !in gone && signature !in gone
      ensures var protected := ResultPaths(artifact, manifest, signature, artifactSize, pairSize, pairPresent);
              && OldestFirst(Sorted(FilesOf(listing)), protected, fate, removed, gone)
              && Frugal(Sorted(FilesOf(listing)), protected, fate, maxBytes, verdict, gone)
              && (Left(FilesOf(listing), {}) < U64_LIMIT ==>
                    && (verdict == WithinBudget ==> Left(Sorted(FilesOf(listing)), gone) <= maxBytes)
                    && (verdict != Failed ==>
                          (verdict.OverBudget? <==> Left(FilesOf(listing), Movable(FilesOf(listing), protected, fate)) > maxBytes)))
    {
      var protected := ResultPaths(artifact, manifest, signature, artifactSize, pairSize, pairPresent);
      verdict, removed, gone := EvictToBudget(listing, protected, fate, lateBefore, lateAfter);
    }
  }
}
