/**
 Replacing a file on Windows (crates/nrm-agent/src/main.rs): `ReplaceFileW` in
 its documented outcomes, the removal of the backup, and the recovery after
 either goes wrong.  Any look at a file and any change may fail.  The staging
 name may hold another program's file from the start.  Other programs may put
 files of their own under the target's or the backup's name whenever that name
 is free after the replacing call, but do not take files away; the checks of
 the pinned parent chain pass.
 */
module WindowsReplace {
  import opened Protocol

  /** A file as told apart by its volume and file number. */
  datatype File = File(id: nat, content: seq<Byte>)

  datatype Name = Target | Staging | Backup

  /** What the three names lead to. */
  datatype Names = Names(target: Option<File>, staging: Option<File>, backup: Option<File>) {
    function At(n: Name): (file: Option<File>) {
      match n
      case Target => target
      case Staging => staging
      case Backup => backup
    }

    function With(n: Name, file: Option<File>): (names: Names)
      ensures forall m :: names.At(m) == if m == n then file else At(m)
    {
      match n
      case Target => this.(target := file)
      case Staging => this.(staging := file)
      case Backup => this.(backup := file)
    }
  }

  /** `ReplaceFileW` with a backup name: done; error 1177; any other error, 1175 and 1176 included. */
  datatype ReplaceOutcome = Replaced | MovedAside | Untouched

  datatype Outcome = Success | OrdinaryError | RollbackFailed

  /** What goes wrong on the way, and which files others create in the meantime. */
  datatype Faults = Faults(
    early: bool,
    sourceGuard: bool,
    targetGuard: bool,
    replace: ReplaceOutcome,
    move: bool,
    removal: bool,
    targetIntruder: Option<File>,
    backupIntruder: Option<File>,
    inspectTarget: bool,
    inspectBackup: bool,
    recoveryRemoval: bool,
    guards: bool,
    lateIntruder: Option<File>,
    restore: bool,
    verification: bool,
    cleanup: bool)

  class Folder {
    var names: Names
    const original: File
    const candidate: File

    /** Another program's file. */
    predicate Foreign(file: Option<File>) {
      file.Some? && file.value.id != original.id && file.value.id != candidate.id
    }

    predicate Known(file: Option<File>) {
      file.Some? ==> Foreign(file) || file.value == original || file.value == candidate
    }

    predicate Valid()
      reads this
    {
      original.id != candidate.id && Known(names.target) && Known(names.staging) && Known(names.backup)
    }

    /** Another program's file under this name is still there. */
    twostate predicate ForeignKeptAt(n: Name)
      reads this
    {
      Foreign(old(names).At(n)) ==> names.At(n) == old(names).At(n)
    }

    twostate predicate ForeignKept()
      reads this
    {
      ForeignKeptAt(Target) && ForeignKeptAt(Staging) && ForeignKeptAt(Backup)
    }

    constructor (names: Names, original: File, candidate: File)
      requires original.id != candidate.id
      requires forall n :: names.At(n).Some? ==>
                 && (names.At(n).value.id == original.id ==> names.At(n).value == original)
                 && (names.At(n).value.id == candidate.id ==> names.At(n).value == candidate)
      ensures Valid() && this.names == names && this.original == original && this.candidate == candidate
    {
      assert names.At(Target) == names.target && names.At(Staging) == names.staging && names.At(Backup) == names.backup;
      this.names, this.original, this.candidate := names, original, candidate;
    }

    /** Another program creates a file, if the name is free. */
    method Intrude(n: Name, file: Option<File>)
      requires Valid()
      modifies this
      ensures Valid() && ForeignKept()
      ensures names == if old(names).At(n).None? && Foreign(file) then old(names).With(n, file) else old(names)
    {
      if names.At(n).None? && Foreign(file) {
        names := names.With(n, file);
      }
    }

    /** `MoveFileExW` within the folder. */
    method Move(source: Name, to: Name, replace: bool, fault: bool) returns (ok: bool)
      requires Valid() && source != to
      modifies this
      ensures Valid()
      ensures ok <==> !fault && old(names).At(source).Some? && (replace || old(names).At(to).None?)
      ensures names == if ok then old(names).With(to, old(names).At(source)).With(source, None) else old(names)
    {
      ok := !fault && names.At(source).Some? && (replace || names.At(to).None?);
      if ok {
        names := names.With(to, names.At(source)).With(source, None);
      }
    }

    /** `remove_windows_file_with_identity`. */
    method RemoveOriginal(n: Name, fault: bool) returns (ok: bool)
      requires Valid()
      modifies this
      ensures Valid()
      ensures ok <==> !fault && old(names).At(n) == Some(original)
      ensures names == if ok then old(names).With(n, None) else old(names)
    {
      ok := !fault && names.At(n).Some? && names.At(n).value.id == original.id;
      if ok {
        names := names.With(n, None);
      }
    }

    /** Recovery gets as far as moving the backup, and the move goes through. */
    predicate MovesBack(names: Names, w: Faults) {
      && !w.inspectTarget && !w.inspectBackup && !w.guards && !w.restore
      && names.backup == Some(original)
      && (names.target == Some(candidate) || (names.target == None && !Foreign(w.lateIntruder)))
    }

    /** Recovery sees the original at the target. */
    predicate FindsOriginal(names: Names, w: Faults) {
      !w.inspectTarget && !w.inspectBackup && names.target == Some(original)
    }

    /** Somebody takes the free target before recovery moves the backup there. */
    predicate Forestalled(names: Names, w: Faults) {
      && !w.inspectTarget && !w.inspectBackup && !w.guards
      && names.backup == Some(original) && names.target == None && Foreign(w.lateIntruder)
    }

    /**
     `recover_windows_replace_failure`, from whatever the folder holds: it
     succeeds exactly if the original is seen at the target without a backup
     left, or is moved back there and seen.
     */
    method Recover(w: Faults) returns (ok: bool)
      requires Valid()
      modifies this
      ensures Valid() && ForeignKept()
      ensures ok <==>
                || (MovesBack(old(names), w) && !w.verification)
                || (FindsOriginal(old(names), w)
                    && (old(names.backup) == None || (old(names.backup) == Some(original) && !w.recoveryRemoval)))
      ensures ok ==> names.target == Some(original) && names.backup == None
      ensures names ==
              if MovesBack(old(names), w) then old(names).(target := Some(original), backup := None)
              else if ok then old(names).(backup := None)
              else if Forestalled(old(names), w) then old(names).(target := w.lateIntruder)
              else old(names)
    {
      if w.inspectTarget || w.inspectBackup {
        return false;
      }
      var target := if names.target.Some? then Some(names.target.value.id) else None;
      var backup := if names.backup.Some? then Some(names.backup.value.id) else None;
      if target == Some(original.id) {
        match backup
        case None => return true;
        case Some(id) =>
          if id != original.id {
            return false;
          }
          ok := RemoveOriginal(Backup, w.recoveryRemoval);
          return;
      }
      if target.Some? && target.value != candidate.id {
        return false;
      }
      if backup != Some(original.id) || w.guards {
        return false;
      }
      ok := Restore(w, target == Some(candidate.id));
    }

    /** The rollback itself: over the candidate if that is at the target, and over nothing else. */
    method Restore(w: Faults, replace: bool) returns (ok: bool)
      requires Valid() && names.backup == Some(original) && names.target == if replace then Some(candidate) else None
      modifies this
      ensures Valid() && ForeignKept()
      ensures var moves := !w.restore && (replace || !Foreign(w.lateIntruder));
              && (ok <==> moves && !w.verification)
              && names == if moves then old(names).(target := Some(original), backup := None)
                          else if !replace && Foreign(w.lateIntruder) then old(names).(target := w.lateIntruder)
                          else old(names)
    {
      Intrude(Target, w.lateIntruder);
      ok := Move(Backup, Target, replace, w.restore);
      ok := ok && !w.verification && names.target.Some? && names.target.value.id == original.id;
    }

    /** `ReplaceFileW`. */
    method ReplaceFile(outcome: ReplaceOutcome) returns (ok: bool)
      requires Valid() && names == Names(Some(original), Some(candidate), None)
      modifies this
      ensures Valid()
      ensures ok <==> outcome == Replaced
      ensures names == match outcome
                       case Replaced => Names(Some(candidate), None, Some(original))
                       case MovedAside => Names(None, Some(candidate), Some(original))
                       case Untouched => old(names)
    {
      match outcome {
        case Replaced => names := Names(names.staging, None, names.target);
        case MovedAside => names := Names(None, names.staging, names.target);
        case Untouched =>
      }
      ok := outcome == Replaced;
    }

    // ---- which faults lead where ---------------------------------------------------------------

    /** The backup is moved back, but the look at it afterwards fails. */
    predicate Unseen(w: Faults) {
      !w.inspectTarget && !w.inspectBackup && !w.guards && !w.restore && w.verification
    }

    /** Nobody's file is at the target when `ReplaceFileW` has moved the original aside. */
    predicate TargetStaysFree(w: Faults) {
      !Foreign(w.targetIntruder) && !Foreign(w.lateIntruder)
    }

    predicate Committed(w: Faults) {
      w.replace == Replaced && !w.removal
    }

    /** What `ReplaceFileW` left is undone, and seen to be. */
    predicate Undone(w: Faults) {
      && !w.inspectTarget && !w.inspectBackup
      && match w.replace
         case Untouched => !Foreign(w.backupIntruder)
         case MovedAside => TargetStaysFree(w) && !w.guards && !w.restore && !w.verification
         case Replaced => w.removal && !w.guards && !w.restore && !w.verification
    }

    /** An unseen rollback overwrites the candidate that had been committed. */
    predicate LosesCandidate(w: Faults) {
      w.replace == Replaced && w.removal && Unseen(w)
    }

    /** An unseen rollback uses up the backup, over the candidate or over nothing. */
    predicate LosesBackup(w: Faults) {
      && Unseen(w)
      && match w.replace
         case Replaced => w.removal
         case MovedAside => TargetStaysFree(w)
         case Untouched => false
    }

    /** `ReplaceFileW` made no backup, and recovery fails over a look or over another program's file. */
    predicate MadeNoBackup(w: Faults) {
      w.replace == Untouched && (w.inspectTarget || w.inspectBackup || Foreign(w.backupIntruder))
    }

    /** The files that turn up on the way are there at the end. */
    predicate NewcomersStay(w: Faults)
      reads this
    {
      match w.replace
      case Untouched => Foreign(w.backupIntruder) ==> names.backup == w.backupIntruder
      case MovedAside =>
        if Foreign(w.targetIntruder) then names.target == w.targetIntruder
        else Foreign(w.lateIntruder) && !w.inspectTarget && !w.inspectBackup && !w.guards ==> names.target == w.lateIntruder
      case Replaced => true
    }

    /**
     Replacing an existing target, once every check has passed: which of the
     three outcomes it has, and what is then under the names.  A failed rollback
     keeps the original, at the target or the backup; the last two clauses say
     exactly when it loses the candidate and when there is no backup.
     */
    predicate ReplacedExisting(w: Faults, outcome: Outcome)
      reads this
    {
      && NewcomersStay(w)
      && outcome == (if Committed(w) then Success else if Undone(w) then OrdinaryError else RollbackFailed)
      && (outcome == Success ==> names == Names(Some(candidate), None, None))
      && (outcome == OrdinaryError ==> names.target == Some(original) && names.backup == None)
      && (outcome == RollbackFailed ==> names.target == Some(original) || names.backup == Some(original))
      && (outcome == RollbackFailed && names.staging != Some(candidate) && names.target != Some(candidate) <==> LosesCandidate(w))
      && (outcome == RollbackFailed && names.backup != Some(original) <==> LosesBackup(w) || MadeNoBackup(w))
    }

    /** Both steps over an existing target, once the guards have been taken. */
    method ReplaceExisting(w: Faults) returns (outcome: Outcome)
      requires Valid() && names == Names(Some(original), Some(candidate), None)
      modifies this
      ensures Valid() && ReplacedExisting(w, outcome)
    {
      var ok := ReplaceFile(w.replace);
      Intrude(Target, w.targetIntruder);
      Intrude(Backup, w.backupIntruder);
      if ok {
        var removed := RemoveOriginal(Backup, w.removal);
        if removed {
          return Success;
        }
      }
      var recovered := Recover(w);
      outcome := if recovered then OrdinaryError else RollbackFailed;
    }

    /** The checks before the replacing call pass. */
    predicate Ready(names: Names, w: Faults) {
      && !w.early && names.backup == None && !w.sourceGuard && names.staging == Some(candidate)
      && (names.target.Some? ==> !w.targetGuard)
    }

    /** `replace_temp_into_path_raw`: nobody's file is overwritten or removed. */
    method ReplaceRaw(w: Faults) returns (outcome: Outcome)
      requires Valid() && (names.target == None || names.target == Some(original))
      modifies this
      ensures Valid() && ForeignKept()
      ensures !Ready(old(names), w) ==> outcome == OrdinaryError && names == old(names)
      ensures Ready(old(names), w) && old(names.target).Some? ==> ReplacedExisting(w, outcome)
      ensures Ready(old(names), w) && old(names.target) == None ==>
                && outcome == (if Foreign(w.targetIntruder) || w.move then OrdinaryError else Success)
                && names == if outcome == Success then Names(Some(candidate), None, None)
                            else if Foreign(w.targetIntruder) then old(names).(target := w.targetIntruder)
                            else old(names)
    {
      if w.early || names.backup.Some? || w.sourceGuard || !(names.staging.Some? && names.staging.value.id == candidate.id) {
        return OrdinaryError;
      }
      if names.target.Some? {
        if w.targetGuard {
          return OrdinaryError;
        }
        outcome := ReplaceExisting(w);
      } else {
        Intrude(Target, w.targetIntruder);
        var ok := Move(Staging, Target, false, w.move);
        outcome := if ok then Success else OrdinaryError;
      }
    }

    /**
     `rename_temp_into_path`: the same with the cleanup.  Replacing an existing target
     ends in one of three ways: done, with no backup left; an ordinary error
     with the original in place and the staged file gone unless that removal
     failed; or a failed rollback with the original at the target or the backup.
     Other programs' files at the target and the backup stay.  One that took the
     staging name beforehand is removed by the cleanup, exactly if that works.
     */
    method ReplaceTemp(w: Faults) returns (outcome: Outcome)
      requires Valid() && (names.target == None || names.target == Some(original))
      modifies this
      ensures Valid() && ForeignKeptAt(Target) && ForeignKeptAt(Backup)
      ensures Foreign(old(names.staging)) ==>
                outcome == OrdinaryError && names == if w.cleanup then old(names) else old(names).(staging := None)
      ensures !Ready(old(names), w) ==>
                outcome == OrdinaryError && names == if w.cleanup then old(names) else old(names).(staging := None)
      ensures Ready(old(names), w) && old(names.target).Some? ==> ReplacedExisting(w, outcome)
      ensures outcome == OrdinaryError ==>
                && (w.cleanup || names.staging == None)
                && (old(names.target).Some? ==> names.target == Some(original))
                && (old(names.target) == None ==> names.target == None || Foreign(names.target))
      ensures Ready(old(names), w) && old(names.target) == None ==>
                && outcome == (if Foreign(w.targetIntruder) || w.move then OrdinaryError else Success)
                && (outcome == Success ==> names == Names(Some(candidate), None, None))
    {
      outcome := ReplaceRaw(w);
      if outcome == OrdinaryError && !w.cleanup {
        names := names.(staging := None);
      }
    }
  }
}
