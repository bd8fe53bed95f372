/**
The directory the update helper works in: file contents by path, changed only by
atomic renames and removals, any of which may fail or be the last thing the
process does before it is killed.
*/
module Volume {
  import opened Common

  type Path = string
  type Content = Bytes
  type Files = map<Path, Content>

  function At(fs: Files, p: Path): Option<Content> {
    if p in fs then Some(fs[p]) else None
  }

  function Without(fs: Files, p: Path): Files {
    fs - {p}
  }

  /** What one successful rename does: the destination, if any, is replaced. */
  function Moved(fs: Files, from: Path, to: Path): Files
    requires from in fs
  {
    (fs - {from})[to := fs[from]]
  }

  /** Failed: the call returned an error. Killed: the process died around the call. */
  datatype Outcome = Done | Failed | Killed

  /** What the program asks of the system; Checking is any test of ownership, permissions or links. */
  datatype Operation = Cancelling | Inspecting(p: Path) | Reading(p: Path) | Checking(p: Path)
                     | Renaming(from: Path, to: Path) | Removing(p: Path)

  /** The failures and kills up to now, and up to an earlier moment. */
  datatype Troubles = Troubles(failures: seq<Operation>, kills: nat) {
    /** What came of an operation. */
    predicate Tell(o: Outcome, op: Operation, before: Troubles) {
      match o
      case Done => this == before
      case Failed => this == Troubles(before.failures + [op], before.kills)
      case Killed => this == Troubles(before.failures, before.kills + 1)
    }
  }

  class Directory {
    var files: Files
    /** Every content the directory has had after an operation on it, oldest first. */
    ghost var history: seq<Files>
    /** Operations that failed, or were cut short, for a reason outside the program. */
    ghost var faults: nat
    /** The operations that returned an error, in order, and how often the process was killed. */
    ghost var troubles: Troubles
    /** Renames whose destination existed. */
    ghost var overwrites: nat

    constructor (initial: Files)
      ensures files == initial && history == [initial] && faults == 0 && overwrites == 0
      ensures troubles == Troubles([], 0)
    {
      files, history, faults, overwrites, troubles := initial, [initial], 0, 0, Troubles([], 0);
    }

    ghost method Note(o: Outcome, op: Operation)
      modifies this`troubles
      ensures troubles.Tell(o, op, old(troubles))
    {
      match o
      case Done =>
      case Failed => troubles := Troubles(troubles.failures + [op], troubles.kills);
      case Killed => troubles := Troubles(troubles.failures, troubles.kills + 1);
    }

    /** Whether the context was cancelled, which counts as a failure. */
    method Cancelled() returns (o: Outcome)
      modifies this`faults, this`troubles
      ensures if o.Done? then faults == old(faults) else faults == old(faults) + 1
      ensures troubles.Tell(o, Cancelling, old(troubles))
    {
      var fault: bool := *;
      var killed: bool := *;
      o := if !fault then Done else if killed then Killed else Failed;
      if fault { faults := faults + 1; }
      Note(o, Cancelling);
    }

    /** Lstat plus the regular-file test; it may fail, and then says nothing. */
    method Inspect(p: Path) returns (o: Outcome, exists_: bool)
      modifies this`faults, this`troubles
      ensures troubles.Tell(o, Inspecting(p), old(troubles))
      ensures o.Done? ==> exists_ == (p in files) && faults == old(faults)
      ensures !o.Done? ==> faults == old(faults) + 1
    {
      var fault: bool := *;
      var killed: bool := *;
      o := if !fault then Done else if killed then Killed else Failed;
      if fault { faults := faults + 1; }
      exists_ := !fault && p in files;
      Note(o, Inspecting(p));
    }

    /** Open, read and hash a file; reading an absent file is an error of its own. */
    method Read(p: Path) returns (o: Outcome, c: Content)
      modifies this`faults, this`troubles
      ensures troubles.Tell(o, Reading(p), old(troubles))
      ensures o.Done? ==> p in files && c == files[p] && faults == old(faults)
      ensures !o.Done? && p in files ==> faults == old(faults) + 1
      ensures faults >= old(faults)
    {
      var fault: bool := *;
      var killed: bool := *;
      o := if fault && killed then Killed else if fault || p !in files then Failed else Done;
      if fault { faults := faults + 1; }
      c := if o.Done? then files[p] else [];
      Note(o, Reading(p));
    }

    /** An ownership, permission or link check by the operating system; it changes nothing. */
    method Permit(p: Path) returns (o: Outcome)
      modifies this`faults, this`troubles
      ensures troubles.Tell(o, Checking(p), old(troubles))
      ensures o.Done? ==> faults == old(faults)
      ensures !o.Done? ==> faults == old(faults) + 1
    {
      var fault: bool := *;
      var killed: bool := *;
      o := if !fault then Done else if killed then Killed else Failed;
      if fault { faults := faults + 1; }
      Note(o, Checking(p));
    }

    method Rename(from: Path, to: Path) returns (o: Outcome)
      modifies this
      ensures history == old(history) + [files]
      ensures troubles.Tell(o, Renaming(from, to), old(troubles))
      ensures faults >= old(faults) && overwrites >= old(overwrites)
      ensures o.Done? ==> from in old(files) && files == Moved(old(files), from, to) && faults == old(faults)
      ensures o.Failed? ==> files == old(files)
      ensures o.Killed? ==> files == old(files) || (from in old(files) && files == Moved(old(files), from, to))
      ensures !o.Done? && from in old(files) ==> faults > old(faults)
      ensures o.Killed? ==> faults > old(faults)
      ensures to !in old(files) ==> overwrites == old(overwrites)
    {
      var fault: bool := *;
      var killed: bool := *;
      var reached: bool := *;
      var present := from in files;
      if fault { faults := faults + 1; }
      if present && (!fault || (killed && reached)) {
        if to in files { overwrites := overwrites + 1; }
        files := Moved(files, from, to);
      }
      o := if fault && killed then Killed else if fault || !present then Failed else Done;
      history := history + [files];
      Note(o, Renaming(from, to));
    }

    /** removeWindowsRegularFile: an absent file counts as removed. */
    method Remove(p: Path) returns (o: Outcome)
      modifies this`files, this`history, this`faults, this`troubles
      ensures troubles.Tell(o, Removing(p), old(troubles))
      ensures history == old(history) + [files]
      ensures o.Done? ==> files == Without(old(files), p) && faults == old(faults)
      ensures o.Failed? ==> files == old(files)
      ensures o.Killed? ==> files == old(files) || files == Without(old(files), p)
      ensures !o.Done? ==> faults > old(faults)
    {
      var fault: bool := *;
      var killed: bool := *;
      var reached: bool := *;
      if fault { faults := faults + 1; }
      if !fault || (killed && reached) {
        files := Without(files, p);
      }
      o := if fault && killed then Killed else if fault then Failed else Done;
      history := history + [files];
      Note(o, Removing(p));
    }
  }
}
