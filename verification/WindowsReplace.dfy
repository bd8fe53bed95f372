/**
Crash-safe replacement of several files (internal/update/replace_windows.go).

For every file the transaction names a staged source, a target and a reserved
backup.  The helper moves the old target to its backup, moves the source to the
target, and when every target is new deletes the backups.  It may be killed at
any point and started again from the same transaction.
*/
module WindowsReplace {
  import opened Common
  import opened Volume

  /** `image` stands for the recorded SHA-256: the hash is taken to be collision free. */
  datatype Replacement = Replacement(source: Path, target: Path, image: Content, backup: Path)

  datatype Record = Record(file: Replacement, oldExisted: bool, installed: bool)

  /** What validateWindowsTransaction and CreateTemp establish about the paths. */
  ghost predicate DistinctPaths(files: seq<Replacement>) {
    && (forall i, j :: 0 <= i < |files| && 0 <= j < |files| ==>
      files[i].source != files[j].target && files[i].source != files[j].backup && files[i].target != files[j].backup)
    && (forall i, j :: 0 <= i < j < |files| ==>
      files[i].source != files[j].source && files[i].target != files[j].target && files[i].backup != files[j].backup)
  }

  /** The directory as installStagedExecutable leaves it. */
  ghost predicate FreshlyStaged(files: seq<Replacement>, staged: Files) {
    && |files| > 0 && DistinctPaths(files)
    && files[0].target in staged
    && (forall i :: 0 <= i < |files| ==>
      At(staged, files[i].source) == Some(files[i].image) && files[i].backup !in staged)
  }

  predicate AlreadyNew(f: Replacement, staged: Files) {
    At(staged, f.target) == Some(f.image)
  }

  // ----- The states a transaction passes through -----

  datatype Stage = Waiting | OldMoved | Installed | Swept

  ghost predicate FileIs(f: Replacement, staged: Files, fs: Files, stage: Stage) {
    match stage
    case Waiting =>
      At(fs, f.source) == Some(f.image) && At(fs, f.target) == At(staged, f.target) && f.backup !in fs
    case OldMoved =>
      && f.target in staged && !AlreadyNew(f, staged)
      && At(fs, f.source) == Some(f.image) && f.target !in fs && At(fs, f.backup) == At(staged, f.target)
    case Installed =>
      && At(fs, f.target) == Some(f.image)
      && (if AlreadyNew(f, staged) then At(fs, f.source) == Some(f.image) && f.backup !in fs
          else f.source !in fs && At(fs, f.backup) == At(staged, f.target))
    case Swept =>
      && At(fs, f.target) == Some(f.image) && f.backup !in fs
      && (if AlreadyNew(f, staged) then At(fs, f.source) == Some(f.image) else f.source !in fs)
  }

  ghost predicate InTransaction(files: seq<Replacement>, p: Path) {
    exists i :: 0 <= i < |files| && (p == files[i].source || p == files[i].target || p == files[i].backup)
  }

  ghost predicate OthersKept(files: seq<Replacement>, staged: Files, fs: Files) {
    forall p :: !InTransaction(files, p) ==> At(fs, p) == At(staged, p)
  }

  /** Every file is at its own stage; a crash, or a rollback that failed, can leave any mixture. */
  ghost predicate Reached(files: seq<Replacement>, staged: Files, fs: Files, stages: seq<Stage>) {
    && |stages| == |files|
    && (forall i :: 0 <= i < |files| ==> FileIs(files[i], staged, fs, stages[i]))
    && OthersKept(files, staged, fs)
  }

  /** Backups are deleted only once every target is new. */
  predicate Coherent(stages: seq<Stage>) {
    || (forall i :: 0 <= i < |stages| ==> stages[i] != Swept)
    || (forall i :: 0 <= i < |stages| ==> stages[i] in {Installed, Swept})
  }

  /** Files are replaced in order: before one that has been touched all are in place. */
  predicate Contiguous(stages: seq<Stage>) {
    forall i, j :: 0 <= i < j < |stages| ==> stages[j] == Waiting || stages[i] in {Installed, Swept}
  }

  /** A target that existed and was not yet new: the old bytes are at target or backup, or the new ones at target. */
  ghost predicate Safe(f: Replacement, staged: Files, fs: Files) {
    f.target in staged && !AlreadyNew(f, staged) ==>
      At(fs, f.target) == At(staged, f.target) || At(fs, f.backup) == At(staged, f.target)
        || At(fs, f.target) == Some(f.image)
  }

  ghost predicate AllSafe(files: seq<Replacement>, staged: Files, fs: Files) {
    forall i :: 0 <= i < |files| ==> Safe(files[i], staged, fs)
  }

  /** Every content the directory has had since the history was `start` long is safe. */
  ghost predicate SafeSince(files: seq<Replacement>, staged: Files, history: seq<Files>, start: nat) {
    forall n :: start <= n < |history| ==> AllSafe(files, staged, history[n])
  }

  ghost predicate SameAt(f: Replacement, fs: Files, fs': Files) {
    && At(fs, f.source) == At(fs', f.source) && At(fs, f.target) == At(fs', f.target)
    && At(fs, f.backup) == At(fs', f.backup)
  }

  /** fs and fs' differ at most on the three paths of f. */
  ghost predicate OnlyTouches(f: Replacement, fs: Files, fs': Files) {
    forall q :: q != f.source && q != f.target && q != f.backup ==> At(fs, q) == At(fs', q)
  }

  // ----- Validation before a run -----

  predicate FileAccepted(f: Replacement, fs: Files) {
    && (if f.source in fs then fs[f.source] == f.image else At(fs, f.target) == Some(f.image))
    && (f.target in fs && f.backup in fs ==> fs[f.target] == f.image)
  }

  predicate Accepted(files: seq<Replacement>, fs: Files) {
    && (forall i :: 0 <= i < |files| ==> FileAccepted(files[i], fs))
    && (|files| > 0 ==> files[0].target in fs || files[0].backup in fs)
  }

  /** Just one more operation has failed, and nobody was killed. */
  predicate OneFailure(before: Troubles, now: Troubles) {
    && now.kills == before.kills && |now.failures| == |before.failures| + 1
    && now.failures == before.failures + [now.failures[|before.failures|]]
  }

  /** The process was killed, and nothing else went wrong. */
  predicate JustKilled(before: Troubles, now: Troubles) {
    now == Troubles(before.failures, before.kills + 1)
  }

  /** What came of a validation: it was killed, it refused what it saw, or it could not see it. */
  predicate CheckTold(o: Outcome, before: Troubles, now: Troubles) {
    match o
    case Done => now == before
    case Failed =>
      now == before || (OneFailure(before, now)
        && var op := now.failures[|before.failures|]; op.Inspecting? || op.Reading?)
    case Killed => JustKilled(before, now)
  }

  /**
  validateWindowsTransactionSources: changes nothing.  Done exactly if the directory is
  acceptable and nothing fails on the way.
  */
  method ValidateSources(dir: Directory, files: seq<Replacement>) returns (o: Outcome)
    modifies dir`faults, dir`troubles
    ensures dir.faults >= old(dir.faults)
    ensures o.Done? <==> Accepted(files, dir.files) && dir.faults == old(dir.faults)
    ensures CheckTold(o, old(dir.troubles), dir.troubles)
    ensures dir.faults == old(dir.faults) <==> dir.troubles == old(dir.troubles)
  {
    for i := 0 to |files|
      invariant dir.faults == old(dir.faults) && dir.troubles == old(dir.troubles)
      invariant forall j :: 0 <= j < i ==> FileAccepted(files[j], dir.files)
      invariant i > 0 ==> files[0].target in dir.files || files[0].backup in dir.files
    {
      o := ValidateOne(dir, files[i], i == 0);
      if !o.Done? { return; }
    }
    return Done;
  }

  /** The body of its loop. */
  method ValidateOne(dir: Directory, file: Replacement, executable: bool) returns (o: Outcome)
    modifies dir`faults, dir`troubles
    ensures dir.faults >= old(dir.faults)
    ensures var fs := dir.files; var present := file.target in fs || file.backup in fs;
      o.Done? <==> FileAccepted(file, fs) && (executable ==> present) && dir.faults == old(dir.faults)
    ensures CheckTold(o, old(dir.troubles), dir.troubles)
    ensures dir.faults == old(dir.faults) <==> dir.troubles == old(dir.troubles)
  {
    var sourceExists, targetExists, backupExists;
    o, sourceExists := dir.Inspect(file.source);
    if !o.Done? { return; }
    o, targetExists := dir.Inspect(file.target);
    if !o.Done? { return; }
    o, backupExists := dir.Inspect(file.backup);
    if !o.Done? { return; }
    var targetMatches := false;
    if targetExists {
      var c;
      o, c := dir.Read(file.target);
      if !o.Done? { return; }
      targetMatches := c == file.image;
    }
    if sourceExists {
      var c;
      o, c := dir.Read(file.source);
      if !o.Done? { return; }
      if c != file.image { return Failed; }
    } else if !targetMatches {
      return Failed;
    }
    if targetExists && backupExists && !targetMatches { return Failed; }
    if executable && !targetExists && !backupExists { return Failed; }
    return Done;
  }

  lemma ReachedIsAccepted(files: seq<Replacement>, staged: Files, fs: Files, stages: seq<Stage>)
    requires FreshlyStaged(files, staged) && Reached(files, staged, fs, stages)
    ensures Accepted(files, fs)
  {
    forall i | 0 <= i < |files| ensures FileAccepted(files[i], fs) {
      assert FileIs(files[i], staged, fs, stages[i]);
    }
    assert FileIs(files[0], staged, fs, stages[0]);
  }

  // ----- Frame reasoning: one file's operations do not touch another's paths -----

  lemma OneFileMoves(files: seq<Replacement>, staged: Files, fs: Files, fs': Files, stages: seq<Stage>, k: nat,
                     stage: Stage)
    requires DistinctPaths(files) && k < |files| && Reached(files, staged, fs, stages)
    requires FileIs(files[k], staged, fs', stage) && OnlyTouches(files[k], fs, fs')
    ensures Reached(files, staged, fs', stages[k := stage])
  {
    forall i | 0 <= i < |files| ensures FileIs(files[i], staged, fs', stages[k := stage][i]) {
      if i != k {
        assert FileIs(files[i], staged, fs, stages[i]);
        assert SameAt(files[i], fs, fs');
      }
    }
    UnnamedPathsKept(files, staged, fs, fs', k);
  }

  lemma ReachedIsSafe(files: seq<Replacement>, staged: Files, fs: Files, stages: seq<Stage>)
    requires Reached(files, staged, fs, stages)
    ensures AllSafe(files, staged, fs)
  {
    forall i | 0 <= i < |files| ensures Safe(files[i], staged, fs) {
      assert FileIs(files[i], staged, fs, stages[i]);
    }
  }

  lemma OthersStaySafe(files: seq<Replacement>, staged: Files, fs: Files, fs': Files, k: nat)
    requires DistinctPaths(files) && k < |files| && OnlyTouches(files[k], fs, fs')
    requires forall i :: 0 <= i < |files| && i != k ==> Safe(files[i], staged, fs)
    requires Safe(files[k], staged, fs')
    ensures AllSafe(files, staged, fs')
  {
    forall i | 0 <= i < |files| ensures Safe(files[i], staged, fs') {
      assert i != k ==> Safe(files[i], staged, fs) && SameAt(files[i], fs, fs');
    }
  }

  // ----- Rollback -----

  /** Where rollback leaves a file whose record says `installed`. */
  ghost predicate UndoneTo(f: Replacement, staged: Files, fs: Files, installed: bool) {
    && (if AlreadyNew(f, staged) && installed then f.target !in fs else At(fs, f.target) == At(staged, f.target))
    && f.backup !in fs
    && At(fs, f.source) == (if installed && !AlreadyNew(f, staged) then None else Some(f.image))
  }

  /** The records of a run that failed on file k. */
  ghost predicate RecordsFit(records: seq<Record>, files: seq<Replacement>, fs: Files, k: nat) {
    && k < |files| && |records| == k + 1
    && (forall i :: 0 <= i <= k ==>
      records[i] == Record(files[i], files[i].backup in fs, i < k))
  }

  /** The files before the failing one are in place, it is not, and no backup has been deleted. */
  predicate Failing(stages: seq<Stage>, k: nat) {
    && k < |stages| && stages[k] in {Waiting, OldMoved}
    && (forall i :: 0 <= i < k ==> stages[i] == Installed) && (forall i :: k < i < |stages| ==> stages[i] != Swept)
  }

  /** The directory after a rollback without errors of a run that failed on file k; later files are where they were. */
  ghost predicate RolledBackFrom(files: seq<Replacement>, staged: Files, fs: Files, k: nat, stages: seq<Stage>) {
    && |stages| == |files| && Failing(stages, k)
    && (forall i :: 0 <= i <= k ==> UndoneTo(files[i], staged, fs, i < k))
    && (forall i :: k < i < |files| ==> FileIs(files[i], staged, fs, stages[i]))
    && OthersKept(files, staged, fs)
  }

  /** A file that held its new bytes before the update, was deleted, and can still be installed. */
  ghost predicate LostNew(f: Replacement, staged: Files, fs: Files) {
    AlreadyNew(f, staged) && At(fs, f.source) == Some(f.image) && f.target !in fs && f.backup !in fs
  }

  /** Where an undo that may have failed, or been cut short anywhere, leaves a file that was at this stage. */
  ghost predicate LeftFrom(f: Replacement, staged: Files, fs: Files, stage: Stage) {
    || FileIs(f, staged, fs, stage) || (stage == OldMoved && FileIs(f, staged, fs, Waiting))
    || LostNew(f, staged, fs) || !FileAccepted(f, fs)
  }

  ghost predicate AllLeft(files: seq<Replacement>, staged: Files, fs: Files, stages: seq<Stage>) {
    |stages| == |files| && forall i :: 0 <= i < |files| ==> LeftFrom(files[i], staged, fs, stages[i])
  }

  datatype Result = Completed | Stopped | Interrupted | RolledBack | RollbackFailed | RollbackInterrupted

  /** The walk has dealt with the records from i on; the ones before it are untouched. */
  ghost predicate Unwound(files: seq<Replacement>, staged: Files, fs: Files, stages: seq<Stage>, k: nat, i: nat,
                          clean: bool) {
    && |stages| == |files| && Failing(stages, k) && i <= k + 1
    && (forall j :: 0 <= j < i ==> FileIs(files[j], staged, fs, stages[j]))
    && (clean ==> forall j :: i <= j <= k ==> UndoneTo(files[j], staged, fs, j < k))
    && (forall j :: i <= j <= k ==> LeftFrom(files[j], staged, fs, stages[j]))
    && (forall j :: k < j < |files| ==> FileIs(files[j], staged, fs, stages[j]))
    && OthersKept(files, staged, fs) && AllSafe(files, staged, fs)
  }

  lemma UnwoundIsLeft(files: seq<Replacement>, staged: Files, fs: Files, stages: seq<Stage>, k: nat, i: nat,
                      clean: bool)
    requires Unwound(files, staged, fs, stages, k, i, clean)
    ensures AllLeft(files, staged, fs, stages)
  {
    forall j | 0 <= j < |files| ensures LeftFrom(files[j], staged, fs, stages[j]) {
      if j < i || j > k { assert FileIs(files[j], staged, fs, stages[j]); }
    }
  }

  lemma UnwindOne(files: seq<Replacement>, staged: Files, fs: Files, fs': Files, stages: seq<Stage>, k: nat, i: nat,
                  clean: bool, lost: bool)
    requires DistinctPaths(files) && i <= k && Unwound(files, staged, fs, stages, k, i + 1, clean)
    requires OnlyTouches(files[i], fs, fs') && Safe(files[i], staged, fs')
    requires LeftFrom(files[i], staged, fs', stages[i])
    requires !lost ==> UndoneTo(files[i], staged, fs', i < k)
    ensures Unwound(files, staged, fs', stages, k, i, clean && !lost)
  {
    UnnamedPathsKept(files, staged, fs, fs', i);
    OthersStaySafe(files, staged, fs, fs', i);
    OthersSame(files, fs, fs', i);
    hide DistinctPaths, OnlyTouches, Safe, UndoneTo, LeftFrom, Failing, OthersKept, AllSafe;
    forall j | 0 <= j < |files| && (j < i || j > k) ensures FileIs(files[j], staged, fs', stages[j]) {
      assert FileIs(files[j], staged, fs, stages[j]) && SameAt(files[j], fs, fs');
    }
    hide FileIs;
    forall j | i <= j <= k ensures LeftFrom(files[j], staged, fs', stages[j]) {
      if j != i { LeftStays(files[j], staged, fs, fs', stages[j]); }
    }
    if clean && !lost {
      forall j | i <= j <= k ensures UndoneTo(files[j], staged, fs', j < k) {
        if j != i { UndoneStays(files[j], staged, fs, fs', j < k); }
      }
    }
  }

  lemma UndoneStays(f: Replacement, staged: Files, fs: Files, fs': Files, installed: bool)
    requires UndoneTo(f, staged, fs, installed) && SameAt(f, fs, fs')
    ensures UndoneTo(f, staged, fs', installed)
  {}

  lemma LeftStays(f: Replacement, staged: Files, fs: Files, fs': Files, stage: Stage)
    requires LeftFrom(f, staged, fs, stage) && SameAt(f, fs, fs')
    ensures LeftFrom(f, staged, fs', stage)
  {}

  /** The two halves of an undo: the target is gone or untouched, then the backup is back in its place or not. */
  lemma LeftAfterUndo(f: Replacement, staged: Files, fs: Files, mid: Files, fs': Files, stage: Stage)
    requires DistinctPaths([f]) && FileIs(f, staged, fs, stage) && stage != Swept
    requires TargetGone(f, fs, mid, stage == Installed) && BackupBack(f, mid, fs')
    ensures LeftFrom(f, staged, fs', stage) && Safe(f, staged, fs')
  {
    assert [f][0] == f;
  }

  ghost predicate TargetGone(f: Replacement, fs: Files, fs': Files, installed: bool) {
    || SameAt(f, fs, fs')
    || (installed && f.target !in fs' && At(fs', f.source) == At(fs, f.source)
        && At(fs', f.backup) == At(fs, f.backup))
  }

  ghost predicate BackupBack(f: Replacement, fs: Files, fs': Files) {
    || SameAt(f, fs, fs')
    || (f.backup in fs && At(fs', f.target) == At(fs, f.backup) && f.backup !in fs'
        && At(fs', f.source) == At(fs, f.source))
  }

  lemma HistoryStaysSafe(files: seq<Replacement>, staged: Files, fs: Files, history: seq<Files>, mark: nat, i: nat)
    requires DistinctPaths(files) && i < |files| && AllSafe(files, staged, fs)
    requires forall n :: mark <= n < |history| ==>
      OnlyTouches(files[i], fs, history[n]) && Safe(files[i], staged, history[n])
    ensures SafeSince(files, staged, history, mark)
  {
    forall n | mark <= n < |history| ensures AllSafe(files, staged, history[n]) {
      OthersStaySafe(files, staged, fs, history[n], i);
    }
  }

  lemma UnnamedPathsKept(files: seq<Replacement>, staged: Files, fs: Files, fs': Files, k: nat)
    requires k < |files| && OnlyTouches(files[k], fs, fs') && OthersKept(files, staged, fs)
    ensures OthersKept(files, staged, fs')
  {
    forall q | !InTransaction(files, q) ensures At(fs', q) == At(staged, q) {
      assert q != files[k].source && q != files[k].target && q != files[k].backup;
    }
  }

  // ----- What becomes of a run whose operations fail -----

  /** The operations on a file whose failure makes the run roll back. */
  predicate Undoes(f: Replacement, op: Operation) {
    op == Inspecting(f.source) || op == Renaming(f.target, f.backup) || op == Renaming(f.source, f.target)
  }

  ghost predicate UndoesAny(files: seq<Replacement>, op: Operation) {
    exists i :: 0 <= i < |files| && Undoes(files[i], op)
  }

  /** The operations of a rollback on one file. */
  predicate RollsBack(f: Replacement, op: Operation) {
    || op == Checking(f.target) || op == Removing(f.target)
    || op == Checking(f.backup) || op == Removing(f.backup) || op == Renaming(f.backup, f.target)
  }

  /** Every failure of a rollback is noted, but for the removal of a backup that was not made. */
  predicate Noted(f: Replacement, op: Operation) { RollsBack(f, op) && op != Removing(f.backup) }

  ghost predicate NotedAny(files: seq<Replacement>, op: Operation) {
    exists i :: 0 <= i < |files| && Noted(files[i], op)
  }

  /** What rolling back one file met with, and whether an error was noted. */
  ghost predicate UndoTold(f: Replacement, o: Outcome, lost: bool, before: Troubles, now: Troubles) {
    && |before.failures| <= |now.failures| && now.failures[..|before.failures|] == before.failures
    && now.kills == before.kills + (if o.Killed? then 1 else 0)
    && (forall n :: |before.failures| <= n < |now.failures| ==> RollsBack(f, now.failures[n]))
    && (o.Done? ==> (lost <==> exists n :: |before.failures| <= n < |now.failures| && Noted(f, now.failures[n])))
  }

  function Survived(o: Outcome): Outcome { if o.Killed? then Killed else Done }

  /** One operation of a rollback. */
  lemma UndoToldOne(f: Replacement, o: Outcome, op: Operation, before: Troubles, now: Troubles)
    requires now.Tell(o, op, before) && RollsBack(f, op)
    ensures UndoTold(f, Survived(o), o.Failed? && Noted(f, op), before, now)
  {
    if o.Failed? { assert now.failures[|before.failures|] == op; }
  }

  lemma BackupOps(f: Replacement)
    requires DistinctPaths([f])
    ensures Noted(f, Checking(f.backup)) && Noted(f, Renaming(f.backup, f.target)) && Noted(f, Checking(f.target))
    ensures RollsBack(f, Removing(f.backup)) && !Noted(f, Removing(f.backup)) && Noted(f, Removing(f.target))
    ensures forall op :: Noted(f, op) ==> RollsBack(f, op)
  {
    assert [f][0] == f;
  }

  lemma UndoToldNothing(f: Replacement, t: Troubles)
    ensures UndoTold(f, Done, false, t, t)
  {}

  lemma UndoToldBoth(f: Replacement, lost: bool, o: Outcome, stuck: bool, a: Troubles, b: Troubles, c: Troubles)
    requires UndoTold(f, Done, lost, a, b) && UndoTold(f, o, stuck, b, c)
    ensures UndoTold(f, o, lost || stuck, a, c)
  {
    hide Noted, RollsBack;
    assert forall n :: 0 <= n < |b.failures| ==> c.failures[n] == b.failures[n];
  }

  /** The second half of a rollback step: the backup returns to the target, or is deleted. */
  method PutBack(dir: Directory, file: Replacement, oldExisted: bool, ghost staged: Files)
    returns (o: Outcome, lost: bool)
    requires DistinctPaths([file]) && Safe(file, staged, dir.files) && oldExisted == (file.backup in dir.files)
    requires oldExisted ==> At(dir.files, file.backup) == At(staged, file.target)
    modifies dir
    ensures o == Done || o == Killed
    ensures dir.faults >= old(dir.faults) && (lost || o.Killed? ==> dir.faults > old(dir.faults))
    ensures UndoTold(file, o, lost, old(dir.troubles), dir.troubles)
    ensures o.Done? && !lost ==> file.backup !in dir.files
    ensures o.Done? && !lost ==>
      At(dir.files, file.target) == (if oldExisted then At(staged, file.target) else At(old(dir.files), file.target))
    ensures file.target !in old(dir.files) ==> dir.overwrites == old(dir.overwrites)
    ensures !oldExisted ==> dir.overwrites == old(dir.overwrites)
    ensures OnlyTouches(file, old(dir.files), dir.files) && Safe(file, staged, dir.files)
    ensures BackupBack(file, old(dir.files), dir.files)
    ensures old(dir.history) <= dir.history
    ensures forall n :: |old(dir.history)| <= n < |dir.history| ==>
      OnlyTouches(file, old(dir.files), dir.history[n]) && Safe(file, staged, dir.history[n])
  {
    assert [file][0] == file;
    hide UndoTold, Noted, RollsBack;
    BackupOps(file);
    lost := false;
    if oldExisted {
      o := dir.Permit(file.backup);
      UndoToldOne(file, o, Checking(file.backup), old(dir.troubles), dir.troubles);
      if o.Done? {
        ghost var told := dir.troubles;
        o := dir.Rename(file.backup, file.target);
        UndoToldOne(file, o, Renaming(file.backup, file.target), told, dir.troubles);
        UndoToldBoth(file, false, Survived(o), o.Failed?, old(dir.troubles), told, dir.troubles);
      }
      if o.Killed? { return; }
      lost := o.Failed?;
    } else {
      o := dir.Remove(file.backup);
      UndoToldOne(file, o, Removing(file.backup), old(dir.troubles), dir.troubles);
      if o.Killed? { return; }
    }
    o := Done;
  }

  /** The first half of a rollback step: the new file is deleted. */
  method RemoveNew(dir: Directory, file: Replacement) returns (o: Outcome)
    requires DistinctPaths([file])
    modifies dir`files, dir`history, dir`faults, dir`troubles
    ensures UndoTold(file, Survived(o), o.Failed?, old(dir.troubles), dir.troubles)
    ensures dir.faults >= old(dir.faults) && (!o.Done? ==> dir.faults > old(dir.faults))
    ensures o.Done? ==> dir.files == Without(old(dir.files), file.target)
    ensures dir.files == old(dir.files) || (!o.Failed? && dir.files == Without(old(dir.files), file.target))
    ensures dir.history == old(dir.history) || dir.history == old(dir.history) + [dir.files]
  {
    hide UndoTold, Noted, RollsBack;
    BackupOps(file);
    o := dir.Permit(file.target);
    UndoToldOne(file, o, Checking(file.target), old(dir.troubles), dir.troubles);
    if !o.Done? { return; }
    ghost var told := dir.troubles;
    o := dir.Remove(file.target);
    UndoToldOne(file, o, Removing(file.target), told, dir.troubles);
    UndoToldBoth(file, false, Survived(o), o.Failed?, old(dir.troubles), told, dir.troubles);
  }

  /** One step of the rollback walk; `lost` says an error was noted. */
  method UndoOne(dir: Directory, record: Record, ghost staged: Files, ghost stage: Stage)
    returns (o: Outcome, lost: bool)
    requires FileIs(record.file, staged, dir.files, stage) && stage in {Waiting, OldMoved, Installed}
    requires record.oldExisted == (record.file.backup in dir.files) && record.installed == (stage == Installed)
    requires DistinctPaths([record.file])
    modifies dir
    ensures o == Done || o == Killed
    ensures dir.faults >= old(dir.faults) && (lost || o.Killed? ==> dir.faults > old(dir.faults))
    ensures UndoTold(record.file, o, lost, old(dir.troubles), dir.troubles)
    ensures !lost && o.Done? ==> UndoneTo(record.file, staged, dir.files, record.installed)
    ensures !lost && o.Done? ==> dir.overwrites == old(dir.overwrites)
    ensures OnlyTouches(record.file, old(dir.files), dir.files) && Safe(record.file, staged, dir.files)
    ensures LeftFrom(record.file, staged, dir.files, stage)
    ensures old(dir.history) <= dir.history
    ensures forall n :: |old(dir.history)| <= n < |dir.history| ==>
      OnlyTouches(record.file, old(dir.files), dir.history[n]) && Safe(record.file, staged, dir.history[n])
  {
    var file := record.file;
    assert [file][0] == file;
    UndoToldNothing(file, dir.troubles);
    hide UndoTold;
    lost, o := false, Done;
    ghost var before := dir.files;
    if record.installed {
      o := RemoveNew(dir, file);
      if o.Killed? {
        LeftAfterUndo(file, staged, before, dir.files, dir.files, stage);
        return;
      }
      lost := o.Failed?;
    }
    ghost var mid, told := dir.files, dir.troubles;
    var stuck;
    o, stuck := PutBack(dir, file, record.oldExisted, staged);
    UndoToldBoth(file, lost, o, stuck, old(dir.troubles), told, dir.troubles);
    LeftAfterUndo(file, staged, before, mid, dir.files, stage);
    lost := lost || stuck;
  }

  lemma OthersSame(files: seq<Replacement>, fs: Files, fs': Files, i: nat)
    requires DistinctPaths(files) && i < |files| && OnlyTouches(files[i], fs, fs')
    ensures forall j :: 0 <= j < |files| && j != i ==> SameAt(files[j], fs, fs')
  {}

  /** UndoOne for record i, with what it means for the others. */
  method UndoNext(dir: Directory, record: Record, ghost files: seq<Replacement>, ghost staged: Files,
                  ghost stages: seq<Stage>, ghost k: nat, ghost i: nat, ghost clean: bool)
    returns (o: Outcome, lost: bool)
    requires DistinctPaths(files) && i <= k && Unwound(files, staged, dir.files, stages, k, i + 1, clean)
    requires record == Record(files[i], files[i].backup in dir.files, i < k)
    modifies dir
    ensures o == Done || o == Killed
    ensures dir.faults >= old(dir.faults) && (lost || o.Killed? ==> dir.faults > old(dir.faults))
    ensures UndoTold(files[i], o, lost, old(dir.troubles), dir.troubles)
    ensures !lost && o.Done? ==> dir.overwrites == old(dir.overwrites)
    ensures Unwound(files, staged, dir.files, stages, k, i, clean && !lost && o.Done?)
    ensures forall j :: 0 <= j < i ==> SameAt(files[j], old(dir.files), dir.files)
    ensures old(dir.history) <= dir.history && SafeSince(files, staged, dir.history, |old(dir.history)|)
  {
    hide UndoTold, SameAt;
    ghost var before, mark := dir.files, dir.history;
    assert DistinctPaths([files[i]]);
    o, lost := UndoOne(dir, record, staged, stages[i]);
    HistoryStaysSafe(files, staged, before, dir.history, |mark|, i);
    UnwindOne(files, staged, before, dir.files, stages, k, i, clean, lost || o.Killed?);
    OthersSame(files, before, dir.files, i);
  }

  /** The result of a rollback is exactly what the operations that failed in it make of it. */
  ghost predicate RollbackTold(files: seq<Replacement>, r: Result, before: Troubles, now: Troubles) {
    && |before.failures| <= |now.failures| && now.failures[..|before.failures|] == before.failures
    && match r
       case RolledBack => now.kills == before.kills && !AnyNoted(files, |before.failures|, now)
       case RollbackFailed => now.kills == before.kills && AnyNoted(files, |before.failures|, now)
       case RollbackInterrupted => now.kills == before.kills + 1
       case _ => false
  }

  ghost predicate AnyNoted(files: seq<Replacement>, start: nat, now: Troubles) {
    exists n :: start <= n < |now.failures| && NotedAny(files, now.failures[n])
  }

  lemma NotedOnce(files: seq<Replacement>, i: nat, op: Operation)
    requires DistinctPaths(files) && i < |files| && RollsBack(files[i], op)
    ensures NotedAny(files, op) <==> Noted(files[i], op)
  {}

  lemma RollbackGoesOn(files: seq<Replacement>, i: nat, o: Outcome, lost: bool, failed: bool,
                       a: Troubles, b: Troubles, c: Troubles)
    requires DistinctPaths(files) && i < |files| && UndoTold(files[i], o, lost, b, c)
    requires RollbackTold(files, if failed then RollbackFailed else RolledBack, a, b)
    ensures o.Killed? ==> RollbackTold(files, RollbackInterrupted, a, c)
    ensures o.Done? ==> RollbackTold(files, if failed || lost then RollbackFailed else RolledBack, a, c)
  {
    hide Noted, RollsBack, NotedAny, DistinctPaths;
    assert forall n :: 0 <= n < |b.failures| ==> c.failures[n] == b.failures[n];
    assert c.failures[..|a.failures|] == b.failures[..|a.failures|];
    forall n | |b.failures| <= n < |c.failures|
      ensures NotedAny(files, c.failures[n]) <==> Noted(files[i], c.failures[n])
    {
      NotedOnce(files, i, c.failures[n]);
    }
  }

  /** rollbackWindowsFiles: newest record first; every error is noted and the walk goes on. */
  method Rollback(dir: Directory, records: seq<Record>, ghost files: seq<Replacement>, ghost staged: Files,
                  ghost stages: seq<Stage>, ghost k: nat)
    returns (r: Result)
    requires FreshlyStaged(files, staged) && Reached(files, staged, dir.files, stages) && Failing(stages, k)
    requires RecordsFit(records, files, dir.files, k)
    modifies dir
    ensures r in {RolledBack, RollbackFailed, RollbackInterrupted}
    ensures dir.faults >= old(dir.faults)
    ensures dir.faults == old(dir.faults) ==> r.RolledBack?
    ensures RollbackTold(files, r, old(dir.troubles), dir.troubles)
    ensures r.RolledBack? ==> RolledBackFrom(files, staged, dir.files, k, stages)
    ensures r.RolledBack? ==> dir.overwrites == old(dir.overwrites)
    ensures AllLeft(files, staged, dir.files, stages) && OthersKept(files, staged, dir.files)
    ensures old(dir.history) <= dir.history
    ensures SafeSince(files, staged, dir.history, |old(dir.history)|)
  {
    assert RollbackTold(files, RolledBack, dir.troubles, dir.troubles);
    hide RollbackTold, UndoTold;
    var failed := false;
    var i := |records|;
    ReachedIsSafe(files, staged, dir.files, stages);
    while i > 0
      invariant 0 <= i <= |records|
      invariant dir.faults >= old(dir.faults) && (failed ==> dir.faults > old(dir.faults))
      invariant !failed ==> dir.overwrites == old(dir.overwrites)
      invariant RollbackTold(files, if failed then RollbackFailed else RolledBack, old(dir.troubles), dir.troubles)
      invariant Unwound(files, staged, dir.files, stages, k, i, !failed)
      invariant forall j :: 0 <= j < i ==> records[j].oldExisted == (files[j].backup in dir.files)
      invariant old(dir.history) <= dir.history && SafeSince(files, staged, dir.history, |old(dir.history)|)
    {
      i := i - 1;
      ghost var mark, told := dir.history, dir.troubles;
      var o, lost := UndoNext(dir, records[i], files, staged, stages, k, i, !failed);
      SafeSinceGrows(files, staged, mark, dir.history, |old(dir.history)|);
      RollbackGoesOn(files, i, o, lost, failed, old(dir.troubles), told, dir.troubles);
      if o.Killed? {
        UnwoundIsLeft(files, staged, dir.files, stages, k, i, false);
        return RollbackInterrupted;
      }
      failed := failed || lost;
    }
    UnwoundIsLeft(files, staged, dir.files, stages, k, 0, !failed);
    return if failed then RollbackFailed else RolledBack;
  }

  // ----- One run of the helper -----

  /** Next: on to the next file.  Abort: return an error as is.  Undo: roll back, then return an error. */
  datatype Step = Next | Abort | Undo | Dead

  /** The answer of a turn is exactly what the operation that failed in it, if any, makes of it. */
  predicate StepTold(f: Replacement, step: Step, before: Troubles, now: Troubles) {
    match step
    case Next => now == before
    case Dead => JustKilled(before, now)
    case Abort => OneFailure(before, now) && GivesUp(f, now.failures[|before.failures|])
    case Undo => OneFailure(before, now) && Undoes(f, now.failures[|before.failures|])
  }

  /** The operations on a file, or before it, whose failure ends the run as it stands. */
  predicate GivesUp(f: Replacement, op: Operation) {
    op in {Cancelling, Inspecting(f.target), Inspecting(f.backup), Checking(f.target), Reading(f.target)}
  }

  function GivenUp(o: Outcome): Step { if o.Killed? then Dead else Abort }

  function AfterStep(stage: Stage): Stage {
    if stage == Swept then Swept else Installed
  }

  lemma MoveOld(f: Replacement, staged: Files, fs: Files)
    requires DistinctPaths([f]) && FileIs(f, staged, fs, Waiting) && !AlreadyNew(f, staged) && f.target in fs
    ensures FileIs(f, staged, Moved(fs, f.target, f.backup), OldMoved)
    ensures OnlyTouches(f, fs, Moved(fs, f.target, f.backup))
  {
    assert [f][0] == f;
  }

  lemma PlaceNew(f: Replacement, staged: Files, fs: Files, stage: Stage)
    requires DistinctPaths([f]) && FileIs(f, staged, fs, stage) && stage in {Waiting, OldMoved}
    requires !AlreadyNew(f, staged) && f.target !in fs
    ensures f.source in fs && FileIs(f, staged, Moved(fs, f.source, f.target), Installed)
    ensures OnlyTouches(f, fs, Moved(fs, f.source, f.target))
  {
    assert [f][0] == f;
  }

  lemma StageIsSafe(f: Replacement, staged: Files, fs: Files, stage: Stage)
    requires FileIs(f, staged, fs, stage)
    ensures Safe(f, staged, fs)
  {}

  /** The two renames of one replacement. */
  method HandOver(dir: Directory, file: Replacement, targetExists: bool, ghost staged: Files, ghost stage: Stage)
    returns (step: Step, ghost stage': Stage)
    requires DistinctPaths([file]) && FileIs(file, staged, dir.files, stage) && stage in {Waiting, OldMoved}
    requires !AlreadyNew(file, staged) && targetExists == (file.target in dir.files)
    modifies dir
    ensures !step.Abort?
    ensures dir.faults >= old(dir.faults) && dir.overwrites == old(dir.overwrites)
    ensures dir.faults == old(dir.faults) ==> step.Next?
    ensures StepTold(file, step, old(dir.troubles), dir.troubles)
    ensures FileIs(file, staged, dir.files, stage') && OnlyTouches(file, old(dir.files), dir.files)
    ensures step.Next? ==> stage' == Installed
    ensures step.Undo? ==> stage' in {Waiting, OldMoved}
    ensures stage' != Swept
    ensures old(dir.history) <= dir.history
    ensures forall n :: |old(dir.history)| <= n < |dir.history| ==>
      OnlyTouches(file, old(dir.files), dir.history[n]) && Safe(file, staged, dir.history[n])
  {
    stage' := stage;
    assert [file][0] == file;
    if targetExists {
      MoveOld(file, staged, dir.files);
      ghost var before := dir.files;
      var o := dir.Rename(file.target, file.backup);
      if dir.files != before { stage' := OldMoved; }
      StageIsSafe(file, staged, dir.files, stage');
      if !o.Done? {
        return (if o.Failed? then Undo else Dead), stage';
      }
    }
    PlaceNew(file, staged, dir.files, stage');
    ghost var before := dir.files;
    var o := dir.Rename(file.source, file.target);
    if dir.files != before { stage' := Installed; }
    StageIsSafe(file, staged, dir.files, stage');
    return (match o case Done => Next case Failed => Undo case Killed => Dead), stage';
  }

  /** The first part of the loop of applyWindowsFiles: what is there, and whether it may be replaced. */
  method Examine(dir: Directory, file: Replacement)
    returns (o: Outcome, targetExists: bool, backupExists: bool, targetMatches: bool)
    modifies dir`faults, dir`troubles
    ensures if o.Done? then dir.faults == old(dir.faults) else dir.faults > old(dir.faults)
    ensures StepTold(file, if o.Done? then Next else GivenUp(o), old(dir.troubles), dir.troubles)
    ensures o.Done? ==> targetExists == (file.target in dir.files) && backupExists == (file.backup in dir.files)
    ensures o.Done? ==> targetMatches == (At(dir.files, file.target) == Some(file.image))
  {
    targetExists, backupExists, targetMatches := false, false, false;
    o := dir.Cancelled();
    if !o.Done? { return; }
    o, targetExists := dir.Inspect(file.target);
    if !o.Done? { return; }
    o, backupExists := dir.Inspect(file.backup);
    if !o.Done? { return; }
    o := dir.Permit(file.target);
    if !o.Done? { return; }
    if targetExists {
      var content;
      o, content := dir.Read(file.target);
      if !o.Done? { return; }
      targetMatches := content == file.image;
    }
  }

  /** The body of applyWindowsFiles' loop for one file; `executable` marks the first one. */
  method ReplaceOne(dir: Directory, file: Replacement, executable: bool, ghost staged: Files, ghost stage: Stage)
    returns (step: Step, record: Record, ghost stage': Stage)
    requires DistinctPaths([file]) && FileIs(file, staged, dir.files, stage)
    requires executable ==> file.target in staged
    modifies dir
    ensures dir.faults >= old(dir.faults) && dir.overwrites == old(dir.overwrites)
    ensures dir.faults == old(dir.faults) ==> step.Next?
    ensures StepTold(file, step, old(dir.troubles), dir.troubles)
    ensures FileIs(file, staged, dir.files, stage') && OnlyTouches(file, old(dir.files), dir.files)
    ensures step.Next? ==> stage' == AfterStep(stage)
    ensures step.Abort? ==> stage' == stage && dir.files == old(dir.files)
    ensures step.Undo? ==> stage' in {Waiting, OldMoved} && stage in {Waiting, OldMoved} && !AlreadyNew(file, staged)
    ensures step.Dead? ==> stage' == stage || (stage in {Waiting, OldMoved} && stage' in {Waiting, OldMoved, Installed})
    ensures step.Next? || step.Undo? ==> record == Record(file, file.backup in dir.files, step.Next?)
    ensures old(dir.history) <= dir.history
    ensures forall n :: |old(dir.history)| <= n < |dir.history| ==>
      OnlyTouches(file, old(dir.files), dir.history[n]) && Safe(file, staged, dir.history[n])
  {
    hide Safe, CheckTold;
    record, stage' := Record(file, false, false), stage;
    var o, targetExists, backupExists, targetMatches := Examine(dir, file);
    if !o.Done? { return GivenUp(o), record, stage'; }
    if executable && !targetExists && !backupExists {
      return Abort, record, stage';
    }
    record := Record(file, backupExists, false);
    if targetMatches {
      record := record.(installed := true);
      stage' := AfterStep(stage);
      return Next, record, stage';
    }
    if targetExists && backupExists {
      return Undo, record, stage';
    }
    var sourceExists;
    o, sourceExists := dir.Inspect(file.source);
    if o.Killed? { return Dead, record, stage'; }
    if o.Failed? || !sourceExists { return Undo, record, stage'; }
    step, stage' := HandOver(dir, file, targetExists, staged, stage);
    record := Record(file, file.backup in dir.files, step.Next?);
  }

  predicate Settled(stages: seq<Stage>) {
    forall i :: 0 <= i < |stages| ==> stages[i] in {Installed, Swept}
  }

  lemma SweepOne(files: seq<Replacement>, staged: Files, fs: Files, stages: seq<Stage>, k: nat)
    requires DistinctPaths(files) && Reached(files, staged, fs, stages) && Settled(stages) && k < |files|
    ensures Reached(files, staged, Without(fs, files[k].backup), stages[k := Swept])
    ensures AllSafe(files, staged, Without(fs, files[k].backup))
  {
    var fs' := Without(fs, files[k].backup);
    assert FileIs(files[k], staged, fs, stages[k]);
    OneFileMoves(files, staged, fs, fs', stages, k, Swept);
    ReachedIsSafe(files, staged, fs', stages[k := Swept]);
  }

  /**
  The result of a run is exactly what the operations that failed in it make of it: the
  first decides whether it is rolled back, and the others how that went.
  */
  ghost predicate ResultTold(files: seq<Replacement>, r: Result, before: Troubles, now: Troubles) {
    match r
    case Completed => now == before
    case Stopped => OneFailure(before, now) && !UndoesAny(files, now.failures[|before.failures|])
    case Interrupted => JustKilled(before, now)
    case _ =>
      && |before.failures| < |now.failures| && now.failures[..|before.failures|] == before.failures
      && UndoesAny(files, now.failures[|before.failures|])
      && var first := Troubles(now.failures[..|before.failures| + 1], before.kills);
         RollbackTold(files, r, first, now)
  }

  /** Deleting the backups once every target is new. */
  method Sweep(dir: Directory, files: seq<Replacement>, ghost staged: Files, ghost stages0: seq<Stage>)
    returns (r: Result, ghost stages: seq<Stage>)
    requires DistinctPaths(files) && Reached(files, staged, dir.files, stages0) && Settled(stages0)
    modifies dir
    ensures r in {Completed, Stopped, Interrupted} && Reached(files, staged, dir.files, stages) && Settled(stages)
    ensures r.Completed? ==> forall i :: 0 <= i < |stages| ==> stages[i] == Swept
    ensures dir.faults >= old(dir.faults) && dir.overwrites == old(dir.overwrites)
    ensures dir.faults == old(dir.faults) ==> r.Completed?
    ensures ResultTold(files, r, old(dir.troubles), dir.troubles)
    ensures old(dir.history) <= dir.history && SafeSince(files, staged, dir.history, |old(dir.history)|)
  {
    stages := stages0;
    for j := 0 to |files|
      invariant Reached(files, staged, dir.files, stages) && Settled(stages)
      invariant forall i :: 0 <= i < j ==> stages[i] == Swept
      invariant dir.faults == old(dir.faults) && dir.overwrites == old(dir.overwrites)
      invariant dir.troubles == old(dir.troubles)
      invariant old(dir.history) <= dir.history && SafeSince(files, staged, dir.history, |old(dir.history)|)
    {
      ghost var before := dir.files;
      SweepOne(files, staged, before, stages, j);
      ReachedIsSafe(files, staged, before, stages);
      var o := dir.Remove(files[j].backup);
      if o.Done? || dir.files != before { stages := stages[j := Swept]; }
      if !o.Done? {
        return (if o.Killed? then Interrupted else Stopped), stages;
      }
    }
    return Completed, stages;
  }

  lemma SafeSinceGrows(files: seq<Replacement>, staged: Files, history: seq<Files>, history': seq<Files>, start: nat)
    requires SafeSince(files, staged, history, start) && history <= history'
    requires SafeSince(files, staged, history', |history|)
    ensures SafeSince(files, staged, history', start)
  {
    forall n | start <= n < |history'| ensures AllSafe(files, staged, history'[n]) {
      assert n < |history| ==> history'[n] == history[n];
    }
  }

  ghost predicate DoneRecords(records: seq<Record>, files: seq<Replacement>, fs: Files) {
    && |records| <= |files|
    && (forall j :: 0 <= j < |records| ==> records[j] == Record(files[j], files[j].backup in fs, true))
  }

  /** What one run keeps, however it ends. */
  twostate predicate RunKept(dir: Directory, files: seq<Replacement>, staged: Files)
    reads dir
  {
    && dir.faults >= old(dir.faults)
    && OthersKept(files, staged, dir.files)
    && old(dir.history) <= dir.history && SafeSince(files, staged, dir.history, |old(dir.history)|)
  }

  /** What ReplaceOne promises about file i, carried over to the whole transaction. */
  lemma Booked(files: seq<Replacement>, staged: Files, fs: Files, fs': Files, stages: seq<Stage>, i: nat,
               step: Step, stage: Stage, records: seq<Record>, record: Record)
    requires DistinctPaths(files) && i < |files| && |records| == i
    requires Reached(files, staged, fs, stages) && DoneRecords(records, files, fs)
    requires OnlyTouches(files[i], fs, fs') && FileIs(files[i], staged, fs', stage)
    requires step.Next? || step.Undo? ==> record == Record(files[i], files[i].backup in fs', step.Next?)
    ensures Reached(files, staged, fs', stages[i := stage])
    ensures step.Next? ==> DoneRecords(records + [record], files, fs')
    ensures step.Undo? ==> RecordsFit(records + [record], files, fs', i)
  {
    OneFileMoves(files, staged, fs, fs', stages, i, stage);
    RecordsStay(files, fs, fs', i, records);
  }

  lemma RecordsStay(files: seq<Replacement>, fs: Files, fs': Files, i: nat, records: seq<Record>)
    requires DistinctPaths(files) && i < |files| && |records| == i
    requires DoneRecords(records, files, fs) && OnlyTouches(files[i], fs, fs')
    ensures DoneRecords(records, files, fs')
  {
    forall j | 0 <= j < i ensures SameAt(files[j], fs, fs') {}
  }

  /** How one turn at file i changes the stages. */
  predicate Onward(stages: seq<Stage>, i: nat, stage: Stage, step: Step)
    requires i < |stages|
  {
    && (step.Next? ==> stage == AfterStep(stages[i]))
    && (step.Abort? ==> stage == stages[i])
    && (step.Undo? ==> stage in {Waiting, OldMoved} && stages[i] in {Waiting, OldMoved})
    && (step.Dead? ==> stage == stages[i] || (stages[i] in {Waiting, OldMoved} && stage != Swept))
  }

  lemma StagesGoOn(stages: seq<Stage>, i: nat, stage: Stage, step: Step)
    requires i < |stages| && Coherent(stages) && Settled(stages[..i]) && Onward(stages, i, stage, step)
    ensures Coherent(stages[i := stage]) && (Contiguous(stages) ==> Contiguous(stages[i := stage]))
    ensures step.Next? ==> Settled(stages[i := stage][..i + 1])
    ensures step.Undo? ==> Failing(stages[i := stage], i)
  {
    assert forall j :: 0 <= j < i ==> stages[..i][j] == stages[j];
  }

  /** One turn of the loop, with the bookkeeping of where the transaction now is. */
  method Turn(dir: Directory, files: seq<Replacement>, i: nat, records: seq<Record>, ghost staged: Files,
              ghost stages: seq<Stage>)
    returns (step: Step, records': seq<Record>, ghost stages': seq<Stage>)
    requires FreshlyStaged(files, staged) && i < |files| && |records| == i
    requires Reached(files, staged, dir.files, stages) && Coherent(stages) && Settled(stages[..i])
    requires DoneRecords(records, files, dir.files)
    modifies dir
    ensures RunKept(dir, files, staged) && dir.overwrites == old(dir.overwrites)
    ensures dir.faults == old(dir.faults) ==> step.Next?
    ensures StepTold(files[i], step, old(dir.troubles), dir.troubles)
    ensures Reached(files, staged, dir.files, stages') && Coherent(stages')
    ensures Contiguous(stages) ==> Contiguous(stages')
    ensures forall j :: i < j < |files| ==> stages'[j] == stages[j]
    ensures step.Next? ==> DoneRecords(records', files, dir.files) && |records'| == i + 1 && Settled(stages'[..i + 1])
    ensures step.Undo? ==> Failing(stages', i) && RecordsFit(records', files, dir.files, i)
    ensures step.Undo? ==> !AlreadyNew(files[i], staged)
  {
    ghost var before, mark := dir.files, dir.history;
    assert DistinctPaths([files[i]]);
    ReachedIsSafe(files, staged, before, stages);
    var record;
    ghost var stage;
    step, record, stage := ReplaceOne(dir, files[i], i == 0, staged, stages[i]);
    HistoryStaysSafe(files, staged, before, dir.history, |mark|, i);
    stages' := stages[i := stage];
    records' := records + [record];
    Booked(files, staged, before, dir.files, stages, i, step, stage, records, record);
    StagesGoOn(stages, i, stage, step);
  }

  /** The four ways a run ends without having rolled back leave a mixture of stages, and completion leaves all swept. */
  ghost predicate RunEnds(files: seq<Replacement>, staged: Files, fs: Files, r: Result, stages: seq<Stage>, k: nat) {
    if r in {Completed, Stopped, Interrupted} then
      && Reached(files, staged, fs, stages) && Coherent(stages)
      && (r.Completed? ==> forall i :: 0 <= i < |stages| ==> stages[i] == Swept)
    else
      && |stages| == |files| && Failing(stages, k) && !AlreadyNew(files[k], staged)
      && AllLeft(files, staged, fs, stages) && OthersKept(files, staged, fs)
      && (r.RolledBack? ==> RolledBackFrom(files, staged, fs, k, stages))
  }

  /** What one turn's answer means for the whole run. */
  lemma TurnTold(files: seq<Replacement>, i: nat, step: Step, before: Troubles, now: Troubles)
    requires DistinctPaths(files) && i < |files| && StepTold(files[i], step, before, now)
    ensures step.Abort? ==> ResultTold(files, Stopped, before, now)
    ensures step.Dead? ==> ResultTold(files, Interrupted, before, now)
    ensures step.Next? ==> now == before
    ensures step.Undo? ==> OneFailure(before, now) && UndoesAny(files, now.failures[|before.failures|])
  {}

  lemma RollbackIsTold(files: seq<Replacement>, r: Result, before: Troubles, first: Troubles, now: Troubles)
    requires OneFailure(before, first) && UndoesAny(files, first.failures[|before.failures|])
    requires RollbackTold(files, r, first, now)
    ensures ResultTold(files, r, before, now)
  {
    var n := |before.failures|;
    assert now.failures[..n] == now.failures[..n + 1][..n];
    assert now.failures[n] == now.failures[..n + 1][n];
  }

  /**
  applyWindowsFiles.  From any state a crash or a failed rollback can leave, a run
  without faults completes; a run that is cut short leaves such a state again.
  */
  method Apply(dir: Directory, files: seq<Replacement>, ghost staged: Files, ghost stages0: seq<Stage>)
    returns (r: Result, ghost stages: seq<Stage>, ghost k: nat)
    requires FreshlyStaged(files, staged) && Reached(files, staged, dir.files, stages0) && Coherent(stages0)
    modifies dir
    ensures dir.faults == old(dir.faults) ==> r.Completed?
    ensures ResultTold(files, r, old(dir.troubles), dir.troubles)
    ensures RunEnds(files, staged, dir.files, r, stages, k)
    ensures Contiguous(stages0) ==> Contiguous(stages)
    ensures r !in {RollbackFailed, RollbackInterrupted} ==> dir.overwrites == old(dir.overwrites)
    ensures RunKept(dir, files, staged)
  {
    assert SafeSince(files, staged, dir.history, |dir.history|);
    hide FileIs, AllSafe, DistinctPaths, Failing, AllLeft, RolledBackFrom, ResultTold, RunEnds, SafeSince,
      OthersKept, Contiguous;
    stages, k := stages0, 0;
    var records: seq<Record> := [];
    var ended := false;
    ghost var mark := dir.history;
    for i := 0 to |files|
      invariant Reached(files, staged, dir.files, stages) && Coherent(stages) && Settled(stages[..i])
      invariant Contiguous(stages0) ==> Contiguous(stages)
      invariant |records| == i && DoneRecords(records, files, dir.files)
      invariant RunKept(dir, files, staged) && dir.overwrites == old(dir.overwrites)
      invariant dir.troubles == old(dir.troubles)
    {
      mark := dir.history;
      ended, r, records, stages, k := NextFile(dir, files, i, records, staged, stages);
      SafeSinceGrows(files, staged, mark, dir.history, |old(dir.history)|);
      if ended { return; }
    }
    mark := dir.history;
    assert stages[..|files|] == stages;
    r, stages := Sweep(dir, files, staged, stages);
    SafeSinceGrows(files, staged, mark, dir.history, |old(dir.history)|);
    SweptEnds(files, staged, dir.files, r, stages, k);
  }

  lemma SweptEnds(files: seq<Replacement>, staged: Files, fs: Files, r: Result, stages: seq<Stage>, k: nat)
    requires r in {Completed, Stopped, Interrupted} && Reached(files, staged, fs, stages) && Settled(stages)
    requires r.Completed? ==> forall i :: 0 <= i < |stages| ==> stages[i] == Swept
    ensures RunEnds(files, staged, fs, r, stages, k)
  {}

  /** One turn of the loop, and the end of the run if it comes with it. */
  method NextFile(dir: Directory, files: seq<Replacement>, i: nat, records: seq<Record>, ghost staged: Files,
                  ghost stages: seq<Stage>)
    returns (ended: bool, r: Result, records': seq<Record>, ghost stages': seq<Stage>, ghost k: nat)
    requires FreshlyStaged(files, staged) && i < |files| && |records| == i
    requires Reached(files, staged, dir.files, stages) && Coherent(stages) && Settled(stages[..i])
    requires DoneRecords(records, files, dir.files)
    modifies dir
    ensures RunKept(dir, files, staged) && (Contiguous(stages) ==> Contiguous(stages'))
    ensures ended ==> dir.faults > old(dir.faults) && RunEnds(files, staged, dir.files, r, stages', k)
    ensures ended ==> ResultTold(files, r, old(dir.troubles), dir.troubles)
    ensures !ended || r !in {RollbackFailed, RollbackInterrupted} ==> dir.overwrites == old(dir.overwrites)
    ensures !ended ==> Reached(files, staged, dir.files, stages') && Coherent(stages') && Settled(stages'[..i + 1])
    ensures !ended ==> |records'| == i + 1 && DoneRecords(records', files, dir.files)
    ensures !ended ==> dir.troubles == old(dir.troubles)
  {
    hide FileIs, AllSafe, DistinctPaths, Failing, AllLeft, RolledBackFrom, StepTold, ResultTold, RollbackTold,
      Contiguous;
    var step;
    step, records', stages' := Turn(dir, files, i, records, staged, stages);
    TurnTold(files, i, step, old(dir.troubles), dir.troubles);
    ended, r, k := !step.Next?, (if step.Abort? then Stopped else Interrupted), i;
    if step.Undo? {
      ghost var mark, told := dir.history, dir.troubles;
      r := Rollback(dir, records', files, staged, stages', i);
      RollbackIsTold(files, r, old(dir.troubles), told, dir.troubles);
      SafeSinceGrows(files, staged, mark, dir.history, |old(dir.history)|);
    }
  }

  /** What a run met with, and its result: validation did not pass, or the loop ran. */
  ghost predicate RunTold(files: seq<Replacement>, r: Result, checked: bool, before: Troubles, now: Troubles) {
    if checked then ResultTold(files, r, before, now)
    else (r.Stopped? && CheckTold(Failed, before, now)) || (r.Interrupted? && CheckTold(Killed, before, now))
  }

  /** applyWindowsTransaction, from the checks of the sources on; `checked` says that they passed. */
  method RunHelper(dir: Directory, files: seq<Replacement>, ghost staged: Files, ghost stages0: seq<Stage>)
    returns (r: Result, ghost stages: seq<Stage>, ghost k: nat, ghost checked: bool)
    requires FreshlyStaged(files, staged) && OthersKept(files, staged, dir.files)
    requires Accepted(files, dir.files) ==> Reached(files, staged, dir.files, stages0) && Coherent(stages0)
    modifies dir
    ensures RunTold(files, r, checked, old(dir.troubles), dir.troubles)
    ensures Accepted(files, old(dir.files)) && dir.faults == old(dir.faults) ==> r.Completed?
    ensures checked ==> Accepted(files, old(dir.files)) && RunEnds(files, staged, dir.files, r, stages, k)
    ensures !checked ==> dir.files == old(dir.files) && stages == stages0
    ensures !checked ==> !Accepted(files, old(dir.files)) || dir.faults > old(dir.faults)
    ensures Contiguous(stages0) ==> Contiguous(stages)
    ensures r !in {RollbackFailed, RollbackInterrupted} ==> dir.overwrites == old(dir.overwrites)
    ensures RunKept(dir, files, staged)
  {
    var o := ValidateSources(dir, files);
    if !o.Done? {
      return (if o.Killed? then Interrupted else Stopped), stages0, 0, false;
    }
    checked := true;
    r, stages, k := Apply(dir, files, staged, stages0);
  }

  // ----- Starting again after a rollback, however it went -----

  /** cur is what was staged, except that targets which held their new bytes already may be gone. */
  ghost predicate OnlyNewLost(files: seq<Replacement>, staged: Files, cur: Files) {
    forall p :: At(cur, p) == At(staged, p) || (p !in cur && IsNewTarget(files, staged, p))
  }

  ghost predicate IsNewTarget(files: seq<Replacement>, staged: Files, p: Path) {
    exists i :: 0 <= i < |files| && p == files[i].target && AlreadyNew(files[i], staged)
  }

  ghost predicate IsLost(files: seq<Replacement>, cur: Files, fs: Files, p: Path) {
    exists i :: 0 <= i < |files| && p == files[i].target && LostNew(files[i], cur, fs)
  }

  /** The staging a later run starts from: the targets that have been lost were never there. */
  ghost function Restaged(files: seq<Replacement>, cur: Files, fs: Files): Files {
    map p | p in cur && !IsLost(files, cur, fs, p) :: cur[p]
  }

  ghost function StageNow(f: Replacement, cur: Files, fs: Files, stage: Stage): Stage {
    if FileIs(f, cur, fs, stage) then stage else Waiting
  }

  ghost function StagesNow(files: seq<Replacement>, cur: Files, fs: Files, stages: seq<Stage>): seq<Stage>
    requires |stages| == |files|
  {
    seq(|files|, i requires 0 <= i < |files| => StageNow(files[i], cur, fs, stages[i]))
  }

  lemma OneRecovers(files: seq<Replacement>, cur: Files, fs: Files, stages: seq<Stage>, i: nat)
    requires DistinctPaths(files) && AllLeft(files, cur, fs, stages) && i < |files| && FileAccepted(files[i], fs)
    ensures FileIs(files[i], Restaged(files, cur, fs), fs, StageNow(files[i], cur, fs, stages[i]))
  {
    var f := files[i];
    assert LeftFrom(f, cur, fs, stages[i]);
    if LostNew(f, cur, fs) {
      assert IsLost(files, cur, fs, f.target);
    } else {
      assert !IsLost(files, cur, fs, f.target);
      assert At(Restaged(files, cur, fs), f.target) == At(cur, f.target);
    }
  }

  lemma StagesNowCohere(files: seq<Replacement>, cur: Files, fs: Files, stages: seq<Stage>, k: nat)
    requires |stages| == |files| && Failing(stages, k)
    ensures Coherent(StagesNow(files, cur, fs, stages))
  {
    forall i | 0 <= i < |files| ensures StagesNow(files, cur, fs, stages)[i] != Swept { assert stages[i] != Swept; }
  }

  lemma RestagedIsStaged(files: seq<Replacement>, cur: Files, fs: Files)
    requires FreshlyStaged(files, cur) && OthersKept(files, cur, fs) && !LostNew(files[0], cur, fs)
    ensures FreshlyStaged(files, Restaged(files, cur, fs)) && OnlyNewLost(files, cur, Restaged(files, cur, fs))
  {
    var cur' := Restaged(files, cur, fs);
    forall p | At(cur', p) != At(cur, p) ensures p !in cur' && IsNewTarget(files, cur, p) {
      assert IsLost(files, cur, fs, p);
    }
    assert !IsLost(files, cur, fs, files[0].target);
    forall i | 0 <= i < |files| ensures At(cur', files[i].source) == Some(files[i].image) && files[i].backup !in cur' {
      assert !IsLost(files, cur, fs, files[i].source);
    }
  }

  lemma RestagedIsReached(files: seq<Replacement>, cur: Files, fs: Files, stages: seq<Stage>)
    requires FreshlyStaged(files, cur) && AllLeft(files, cur, fs, stages) && OthersKept(files, cur, fs)
    requires Accepted(files, fs)
    ensures Reached(files, Restaged(files, cur, fs), fs, StagesNow(files, cur, fs, stages))
  {
    var cur' := Restaged(files, cur, fs);
    forall i | 0 <= i < |files| ensures FileIs(files[i], cur', fs, StagesNow(files, cur, fs, stages)[i]) {
      OneRecovers(files, cur, fs, stages, i);
    }
    forall p | At(cur', p) != At(cur, p) ensures InTransaction(files, p) {
      assert IsLost(files, cur, fs, p);
    }
  }

  /**
  After any rollback, clean, failed or interrupted, the next validation refuses the
  directory, or the directory is a mixture of stages again, for a staging that lacks
  at most targets which held their new bytes from the start.
  */
  lemma Recovers(files: seq<Replacement>, cur: Files, fs: Files, stages: seq<Stage>, k: nat)
    requires FreshlyStaged(files, cur) && AllLeft(files, cur, fs, stages)
    requires OthersKept(files, cur, fs) && Failing(stages, k)
    requires Accepted(files, fs)
    ensures FreshlyStaged(files, Restaged(files, cur, fs)) && OnlyNewLost(files, cur, Restaged(files, cur, fs))
    ensures Reached(files, Restaged(files, cur, fs), fs, StagesNow(files, cur, fs, stages))
    ensures Coherent(StagesNow(files, cur, fs, stages))
  {
    StagesNowCohere(files, cur, fs, stages, k);
    RestagedIsStaged(files, cur, fs);
    RestagedIsReached(files, cur, fs, stages);
  }

  /** If no target was new from the start nothing can be lost, and files stay in order. */
  lemma NothingNewLost(files: seq<Replacement>, cur: Files, fs: Files, stages: seq<Stage>, k: nat)
    requires FreshlyStaged(files, cur) && AllLeft(files, cur, fs, stages) && Failing(stages, k) && Accepted(files, fs)
    requires forall i :: 0 <= i < |files| ==> !AlreadyNew(files[i], cur)
    ensures Restaged(files, cur, fs) == cur
    ensures Contiguous(stages) ==> Contiguous(StagesNow(files, cur, fs, stages))
  {
    forall i | 0 <= i < |files| && stages[i] == Installed ensures StagesNow(files, cur, fs, stages)[i] == Installed {
      assert LeftFrom(files[i], cur, fs, stages[i]);
    }
    assert forall p :: !IsLost(files, cur, fs, p);
  }

  lemma LossesAddUp(files: seq<Replacement>, staged: Files, cur: Files, cur': Files)
    requires OnlyNewLost(files, staged, cur) && OnlyNewLost(files, cur, cur')
    ensures OnlyNewLost(files, staged, cur')
  {
    forall p | At(cur', p) != At(staged, p) ensures p !in cur' && IsNewTarget(files, staged, p) {
      if At(cur', p) != At(cur, p) {
        var i :| 0 <= i < |files| && p == files[i].target && AlreadyNew(files[i], cur);
        assert AlreadyNew(files[i], staged);
      }
    }
  }

  /** What is safe for the staging of a later run is safe for the original one. */
  lemma SafeForOriginal(files: seq<Replacement>, staged: Files, cur: Files, history: seq<Files>, start: nat)
    requires DistinctPaths(files) && OnlyNewLost(files, staged, cur) && SafeSince(files, cur, history, start)
    ensures SafeSince(files, staged, history, start)
  {
    forall n, i | start <= n < |history| && 0 <= i < |files| ensures Safe(files[i], staged, history[n]) {
      assert AllSafe(files, cur, history[n]);
      assert Safe(files[i], cur, history[n]);
      if !AlreadyNew(files[i], staged) {
        assert !IsNewTarget(files, staged, files[i].target);
      }
    }
  }

  lemma OthersForOriginal(files: seq<Replacement>, staged: Files, cur: Files, fs: Files)
    requires OnlyNewLost(files, staged, cur) && OthersKept(files, cur, fs)
    ensures OthersKept(files, staged, fs)
  {
    forall p | !InTransaction(files, p) ensures At(fs, p) == At(staged, p) {
      assert !IsNewTarget(files, staged, p);
    }
  }

  lemma OthersForCurrent(files: seq<Replacement>, staged: Files, cur: Files, fs: Files)
    requires OnlyNewLost(files, staged, cur) && OthersKept(files, staged, fs)
    ensures OthersKept(files, cur, fs)
  {
    forall p | !InTransaction(files, p) ensures At(fs, p) == At(cur, p) {
      assert !IsNewTarget(files, staged, p);
    }
  }

  predicate NoneNew(files: seq<Replacement>, staged: Files) {
    forall i :: 0 <= i < |files| ==> !AlreadyNew(files[i], staged)
  }

  /**
  Where a transaction stands between two runs: acceptable, and then a mixture of
  stages for some staging; or refused by every validation from now on.
  */
  ghost predicate Standing(files: seq<Replacement>, staged: Files, fs: Files, cur: Files, stages: seq<Stage>) {
    && FreshlyStaged(files, cur) && OnlyNewLost(files, staged, cur) && OthersKept(files, staged, fs)
    && (Accepted(files, fs) ==> Reached(files, cur, fs, stages) && Coherent(stages))
    && (NoneNew(files, staged) ==> cur == staged && Contiguous(stages))
  }

  lemma StandsAfterRun(files: seq<Replacement>, staged: Files, fs: Files, cur: Files, r: Result, stages: seq<Stage>,
                       k: nat)
    returns (cur': Files, stages': seq<Stage>)
    requires FreshlyStaged(files, cur) && OnlyNewLost(files, staged, cur) && RunEnds(files, cur, fs, r, stages, k)
    requires NoneNew(files, staged) ==> cur == staged && Contiguous(stages)
    ensures Standing(files, staged, fs, cur', stages')
    ensures r in {Completed, Stopped, Interrupted} ==> cur' == cur && stages' == stages
    ensures r in {Completed, Stopped, Interrupted} ==> Reached(files, cur, fs, stages)
    ensures r.RolledBack? && NoneNew(files, staged) ==> TargetsAsStaged(files, staged, fs)
  {
    cur', stages' := cur, stages;
    OthersForOriginal(files, staged, cur, fs);
    if r !in {Completed, Stopped, Interrupted} && Accepted(files, fs) {
      cur', stages' := Restaged(files, cur, fs), StagesNow(files, cur, fs, stages);
      Recovers(files, cur, fs, stages, k);
      LossesAddUp(files, staged, cur, cur');
      if NoneNew(files, staged) { NothingNewLost(files, cur, fs, stages, k); }
    }
    if r.RolledBack? && NoneNew(files, staged) { RollbackRestoresIff(files, cur, fs, k, stages); }
  }

  ghost predicate AllSwept(files: seq<Replacement>, cur: Files, fs: Files, stages: seq<Stage>) {
    Reached(files, cur, fs, stages) && forall i :: 0 <= i < |stages| ==> stages[i] == Swept
  }

  ghost predicate TargetsAsStaged(files: seq<Replacement>, staged: Files, fs: Files) {
    forall i :: 0 <= i < |files| ==> At(fs, files[i].target) == At(staged, files[i].target)
  }

  /** What an end result says of the directory. */
  ghost predicate Means(files: seq<Replacement>, staged: Files, fs: Files, r: Result, cur: Files, stages: seq<Stage>) {
    && Standing(files, staged, fs, cur, stages)
    && (r.Completed? ==> AllSwept(files, cur, fs, stages))
    && (r.RolledBack? && NoneNew(files, staged) ==> TargetsAsStaged(files, staged, fs))
  }

  /** One run of the helper from wherever the transaction stands. */
  method RunOnce(dir: Directory, files: seq<Replacement>, ghost staged: Files, ghost cur0: Files,
                 ghost stages0: seq<Stage>)
    returns (r: Result, ghost cur: Files, ghost stages: seq<Stage>, ghost checked: bool)
    requires FreshlyStaged(files, staged) && Standing(files, staged, dir.files, cur0, stages0)
    modifies dir
    ensures Means(files, staged, dir.files, r, cur, stages)
    ensures RunTold(files, r, checked, old(dir.troubles), dir.troubles)
    ensures Accepted(files, old(dir.files)) && dir.faults == old(dir.faults) ==> r.Completed?
    ensures !Accepted(files, old(dir.files)) ==> !checked
    ensures !checked ==> dir.files == old(dir.files)
    ensures !checked ==> !Accepted(files, old(dir.files)) || dir.faults > old(dir.faults)
    ensures Accepted(files, old(dir.files)) && r in {Completed, Stopped, Interrupted} ==> Accepted(files, dir.files)
    ensures r !in {RollbackFailed, RollbackInterrupted} ==> dir.overwrites == old(dir.overwrites)
    ensures RunKept(dir, files, staged)
  {
    cur, stages := cur0, stages0;
    OthersForCurrent(files, staged, cur, dir.files);
    ghost var k;
    r, stages, k, checked := RunHelper(dir, files, cur, stages);
    SafeForOriginal(files, staged, cur, dir.history, |old(dir.history)|);
    if checked {
      if r in {Completed, Stopped, Interrupted} { ReachedIsAccepted(files, cur, dir.files, stages); }
      cur, stages := StandsAfterRun(files, staged, dir.files, cur, r, stages, k);
    }
  }

  /**
  Of the runs so far: whether validation accepted at the start of the last one and
  whether nothing failed in it; whether any of them rolled back, and whether a
  rollback noted an error or was cut short.
  */
  datatype Past = Past(accepted: bool, quiet: bool, undone: bool, spoiled: bool) {
    function After(r: Result, accepted: bool, quiet: bool): Past {
      Past(accepted, quiet, undone || r in {RolledBack, RollbackFailed, RollbackInterrupted},
           spoiled || r in {RollbackFailed, RollbackInterrupted})
    }
  }

  /** The result of one run, and the failures and kills up to its end. */
  datatype Told = Told(r: Result, checked: bool, now: Troubles)

  /** Every run has just the result that what failed in it makes of it. */
  ghost predicate Tells(files: seq<Replacement>, told: seq<Told>, start: Troubles, now: Troubles) {
    if told == [] then now == start
    else
      var n := |told| - 1;
      var before := if n == 0 then start else told[n - 1].now;
      told[n].now == now && RunTold(files, told[n].r, told[n].checked, before, now)
        && Tells(files, told[..n], start, before)
  }

  lemma TellsOn(files: seq<Replacement>, told: seq<Told>, start: Troubles, before: Troubles, t: Told)
    returns (told': seq<Told>)
    requires Tells(files, told, start, before) && RunTold(files, t.r, t.checked, before, t.now)
    ensures told' == told + [t] && Tells(files, told', start, t.now)
  {
    told' := told + [t];
    assert told'[..|told|] == told;
  }

  /** What the runs so far have to do with the last result and with whether validation accepts now. */
  predicate Tally(past: Past, r: Result, accepts: bool, ran: bool, faultless: bool) {
    && (!past.undone ==> accepts)
    && (ran && past.quiet && !past.undone ==> r.Completed?) && (past.quiet && past.accepted ==> r.Completed?)
    && (faultless ==> !past.undone && (ran ==> past.quiet))
  }

  lemma TallyGoesOn(past: Past, accepted: bool, r: Result, accepts: bool, quiet: bool)
    requires !past.undone ==> accepted
    requires (accepted && quiet ==> r.Completed?) && (!accepted ==> r in {Stopped, Interrupted})
    requires accepted && r in {Completed, Stopped, Interrupted} ==> accepts
    ensures Tally(past.After(r, accepted, quiet), r, accepts, true, !past.undone && quiet)
  {}

  lemma MeansStanding(files: seq<Replacement>, staged: Files, fs: Files, r: Result, cur: Files, stages: seq<Stage>)
    requires Means(files, staged, fs, r, cur, stages)
    ensures Standing(files, staged, fs, cur, stages)
  {}

  /**
  Any number of runs, each started after the last was killed, gave up, or rolled back
  with or without errors: no old file is ever lost, other files are untouched, the
  transaction stands as described, and a run without faults on a directory that
  validation accepts completes.  Until a run has rolled anything back validation goes
  on accepting, so that after kills alone any later run without faults completes.  If
  no target was new from the start, a rollback that reports no error restores every
  target.
  */
  method RunRepeatedly(dir: Directory, files: seq<Replacement>, runs: nat, ghost staged: Files)
    returns (r: Result, ghost cur: Files, ghost stages: seq<Stage>, ghost past: Past, ghost told: seq<Told>)
    requires FreshlyStaged(files, staged) && dir.files == staged
    modifies dir
    ensures Means(files, staged, dir.files, r, cur, stages)
    ensures |told| == runs && Progress(files, r, past, told, Accepted(files, dir.files),
                                       dir.faults == old(dir.faults), old(dir.troubles), dir.troubles)
    ensures !past.spoiled ==> dir.overwrites == old(dir.overwrites)
    ensures RunKept(dir, files, staged)
  {
    r, cur, stages, past := Stopped, staged, seq(|files|, _ => Waiting), Past(false, false, false, false);
    told := [];
    FreshIsStanding(files, staged);
    assert Progress(files, r, past, told, Accepted(files, dir.files), true, dir.troubles, dir.troubles);
    assert SafeSince(files, staged, dir.history, |dir.history|);
    hide Means, Accepted, OthersKept, FreshlyStaged, Progress, RunTold, SafeSince, Tally, Tells, Standing;
    for n := 0 to runs
      invariant Means(files, staged, dir.files, r, cur, stages) && |told| == n
      invariant Progress(files, r, past, told, Accepted(files, dir.files), dir.faults == old(dir.faults),
                         old(dir.troubles), dir.troubles)
      invariant !past.spoiled ==> dir.overwrites == old(dir.overwrites)
      invariant RunKept(dir, files, staged)
    {
      ghost var faults, accepted, before := dir.faults, Accepted(files, dir.files), dir.troubles;
      ghost var checked, mark := false, dir.history;
      MeansStanding(files, staged, dir.files, r, cur, stages);
      r, cur, stages, checked := RunOnce(dir, files, staged, cur, stages);
      SafeSinceGrows(files, staged, mark, dir.history, |old(dir.history)|);
      past, told := ProgressGoesOn(files, past, told, accepted, faults == old(dir.faults), old(dir.troubles), before,
                                   Told(r, checked, dir.troubles), Accepted(files, dir.files), dir.faults == faults);
    }
  }

  /** How the runs so far, their results, and what validation would say now hang together. */
  ghost predicate Progress(files: seq<Replacement>, r: Result, past: Past, told: seq<Told>, accepts: bool,
                           faultless: bool, start: Troubles, now: Troubles) {
    && Tells(files, told, start, now) && (told != [] ==> told[|told| - 1].r == r)
    && Tally(past, r, accepts, told != [], faultless)
  }

  lemma ProgressGoesOn(files: seq<Replacement>, past: Past, told: seq<Told>, accepted: bool, faultless: bool,
                       start: Troubles, before: Troubles, t: Told, accepts: bool, quiet: bool)
    returns (past': Past, told': seq<Told>)
    requires exists r :: Progress(files, r, past, told, accepted, faultless, start, before)
    requires RunTold(files, t.r, t.checked, before, t.now)
    requires (accepted && quiet ==> t.r.Completed?) && (!accepted ==> t.r in {Stopped, Interrupted})
    requires accepted && t.r in {Completed, Stopped, Interrupted} ==> accepts
    ensures past' == past.After(t.r, accepted, quiet) && told' == told + [t]
    ensures Progress(files, t.r, past', told', accepts, faultless && quiet, start, t.now)
  {
    hide RunTold;
    told' := TellsOn(files, told, start, before, t);
    past' := past.After(t.r, accepted, quiet);
    TallyGoesOn(past, accepted, t.r, accepts, quiet);
  }

  lemma FreshIsStanding(files: seq<Replacement>, staged: Files)
    requires FreshlyStaged(files, staged)
    ensures Standing(files, staged, staged, staged, seq(|files|, _ => Waiting)) && Accepted(files, staged)
    ensures OthersKept(files, staged, staged)
    ensures Means(files, staged, staged, Stopped, staged, seq(|files|, _ => Waiting))
  {
    FreshIsReached(files, staged);
    ReachedIsAccepted(files, staged, staged, seq(|files|, _ => Waiting));
  }

  lemma FreshIsReached(files: seq<Replacement>, staged: Files)
    requires FreshlyStaged(files, staged)
    ensures Reached(files, staged, staged, seq(|files|, _ => Waiting)) && Contiguous(seq(|files|, _ => Waiting))
  {}

  // ----- What the end states mean -----

  /** A completed transaction: new bytes at every target, no backup left, nothing else touched. */
  lemma CompletedInstallsAll(files: seq<Replacement>, staged: Files, fs: Files, stages: seq<Stage>)
    requires Reached(files, staged, fs, stages) && forall i :: 0 <= i < |stages| ==> stages[i] == Swept
    ensures forall i :: 0 <= i < |files| ==>
      At(fs, files[i].target) == Some(files[i].image) && files[i].backup !in fs
      && (files[i].source in fs <==> AlreadyNew(files[i], staged))
    ensures OthersKept(files, staged, fs)
  {
    forall i | 0 <= i < |files| ensures FileIs(files[i], staged, fs, Swept) {
      assert FileIs(files[i], staged, fs, stages[i]);
    }
  }

  /** Whether a rollback without errors of a run that failed on file k puts back file i. */
  predicate PutsBack(files: seq<Replacement>, staged: Files, k: nat, stages: seq<Stage>, i: nat)
    requires i < |files| == |stages|
  {
    if i < k then !AlreadyNew(files[i], staged) else i == k || stages[i] == Waiting || AlreadyNew(files[i], staged)
  }

  /**
  A rollback without errors puts back what was at a target unless the file comes
  before the failing one and already had its new bytes (it is recorded as installed,
  deleted, and has no backup), or comes after it and had been replaced by an earlier
  run.  From a directory left by crashes alone the second cannot happen.
  */
  lemma RollbackRestoresIff(files: seq<Replacement>, staged: Files, fs: Files, k: nat, stages: seq<Stage>)
    requires RolledBackFrom(files, staged, fs, k, stages)
    ensures forall i :: 0 <= i < |files| ==>
      (At(fs, files[i].target) == At(staged, files[i].target) <==> PutsBack(files, staged, k, stages, i))
    ensures Contiguous(stages) ==>
      ((forall i :: 0 <= i < |files| ==> At(fs, files[i].target) == At(staged, files[i].target))
        <==> (forall i :: 0 <= i < k ==> !AlreadyNew(files[i], staged)))
  {
    forall i | 0 <= i < |files|
      ensures At(fs, files[i].target) == At(staged, files[i].target) <==> PutsBack(files, staged, k, stages, i)
    {
      if i > k { assert FileIs(files[i], staged, fs, stages[i]); }
      if i <= k { assert UndoneTo(files[i], staged, fs, i < k); }
    }
    if Contiguous(stages) {
      forall i | k < i < |files| ensures PutsBack(files, staged, k, stages, i) { assert stages[i] == Waiting; }
    }
  }

  /** The same transaction can be run again after a rollback without errors only if nothing had been installed. */
  lemma RetryAfterRollbackIff(files: seq<Replacement>, staged: Files, fs: Files, k: nat, stages: seq<Stage>)
    requires FreshlyStaged(files, staged) && RolledBackFrom(files, staged, fs, k, stages)
    ensures Accepted(files, fs) <==> k == 0
  {
    assert UndoneTo(files[0], staged, fs, 0 < k);
    if k == 0 {
      forall i | 0 <= i < |files| ensures FileAccepted(files[i], fs) {
        if i > 0 { assert FileIs(files[i], staged, fs, stages[i]); }
      }
    } else {
      assert !FileAccepted(files[0], fs) || (files[0].target !in fs && files[0].backup !in fs);
    }
  }

  /** An update of three files, the second of which holds its new bytes already, that fails on the third. */
  lemma LosesTheSecond(exe: Replacement, dll: Replacement, txt: Replacement, staged: Files, fs: Files)
    requires DistinctPaths([exe, dll, txt]) && FreshlyStaged([exe, dll, txt], staged)
    requires AlreadyNew(dll, staged) && !AlreadyNew(exe, staged) && !AlreadyNew(txt, staged) && txt.target in staged
    requires fs == staged - {exe.source, dll.target}
    ensures RolledBackFrom([exe, dll, txt], staged, fs, 2, [Installed, Installed, Waiting])
  {
    var files := [exe, dll, txt];
    assert files[0] == exe && files[1] == dll && files[2] == txt;
    assert UndoneTo(exe, staged, fs, true) && UndoneTo(dll, staged, fs, true) && UndoneTo(txt, staged, fs, false);
    assert InTransaction(files, exe.source) && InTransaction(files, dll.target);
  }

  const EXE := Replacement("1", "exe", [2], "2")
  const DLL := Replacement("3", "wintun.dll", [7], "4")
  const TXT := Replacement("5", "txt", [9], "6")
  const STAGED: Files := map["1" := [2], "exe" := [1], "3" := [7], "wintun.dll" := [7], "5" := [9], "txt" := [8]]

  lemma ExamplePaths()
    ensures DistinctPaths([EXE, DLL, TXT])
  {}

  lemma ExampleContents()
    ensures STAGED["exe"] == [1] && STAGED["wintun.dll"] == [7] && STAGED["txt"] == [8]
    ensures STAGED["1"] == [2] && STAGED["3"] == [7] && STAGED["5"] == [9]
    ensures "2" !in STAGED && "4" !in STAGED && "6" !in STAGED
  {}

  /** The unchanged runtime library of an update whose licence file cannot be moved is lost. */
  lemma UnchangedRuntimeIsLost() returns (files: seq<Replacement>, staged: Files, fs: Files)
    ensures FreshlyStaged(files, staged) && RolledBackFrom(files, staged, fs, 2, [Installed, Installed, Waiting])
    ensures "wintun.dll" in staged && "wintun.dll" !in fs
  {
    hide DistinctPaths, RolledBackFrom;
    files, staged, fs := [EXE, DLL, TXT], STAGED, STAGED - {EXE.source, DLL.target};
    ExamplePaths();
    ExampleContents();
    LosesTheSecond(EXE, DLL, TXT, staged, fs);
  }
}
