/**
 * The Gradle test fixture that owns a directory of test files: it snapshots files before
 * a test changes them, rolls them back afterwards, records unexpected modifications as
 * errors, and decides on set-up whether the cached files can be reused.
 */
module FileTestFixture {
  import opened Wrappers

  /** A path relative to the fixture root. */
  type Path = string

  /** `State`: what the state file holds; each field may be missing. */
  datatype StoredState = StoredState(
    isInitialized: Option<bool>,
    isSuppressedErrors: Option<bool>,
    errors: Option<seq<string>>,
    snapshots: Option<map<Path, Option<string>>>)

  /** `State()`: the state read back when the state file cannot be parsed. */
  const Unreadable := StoredState(None, None, None, None)

  /** `loadText`: the text of a file, or nothing when there is no such file. */
  function TextIn(files: map<Path, string>, p: Path): (r: Option<string>)
    ensures r.Some? <==> p in files
    ensures r.Some? ==> r.value == files[p]
  {
    Get(files, p)
  }

  /** `revertFile`: writes the text back, or deletes the file when absence was recorded; no other file changes. */
  function Revert(files: map<Path, string>, p: Path, text: Option<string>): (r: map<Path, string>)
    ensures TextIn(r, p) == text
    ensures forall q :: q != p ==> TextIn(r, q) == TextIn(files, q)
  {
    if text.Some? then files[p := text.value] else files - {p}
  }

  /** The text of `p` once every snapshot in `snaps` has been reverted. */
  function RevertedText(files: map<Path, string>, snaps: map<Path, Option<string>>, p: Path): Option<string> {
    if p in snaps then snaps[p] else TextIn(files, p)
  }

  /** `deleteChildren { it != fixtureStateFile }`: every file but the state file is deleted. */
  function KeepOnly(files: map<Path, string>, keep: Path): (r: map<Path, string>)
    ensures TextIn(r, keep) == TextIn(files, keep)
    ensures forall q :: q != keep ==> TextIn(r, q).None?
  {
    map p | p in files && p == keep :: files[p]
  }

  /** The set-up decision: the cached files are thrown away unless the last run finished initialising, without suppressed errors and with no error. */
  predicate NeedsInvalidation(s: StoredState) {
    !s.isInitialized.GetOr(false) || s.isSuppressedErrors.GetOr(false) || s.errors.GetOr([]) != []
  }

  /**
   * A missing or unreadable state file always invalidates; a state written by a fixture
   * invalidates exactly when it was not initialised, suppressed errors, or recorded one.
   */
  lemma InvalidationDecision(init: bool, suppressed: bool, errs: seq<string>, snaps: map<Path, Option<string>>)
    ensures NeedsInvalidation(Unreadable)
    ensures var written := StoredState(Some(init), Some(suppressed), Some(errs), Some(snaps));
      NeedsInvalidation(written) <==> !init || suppressed || |errs| > 0
  {
  }

  /** Reverting two different files commutes, so the order in which snapshots are reverted does not matter. */
  lemma RevertCommutes(files: map<Path, string>, p: Path, a: Option<string>, q: Path, b: Option<string>)
    requires p != q
    ensures Revert(Revert(files, p, a), q, b) == Revert(Revert(files, q, b), p, a)
  {
    var l := Revert(Revert(files, p, a), q, b);
    var r := Revert(Revert(files, q, b), p, a);
    forall x ensures TextIn(l, x) == TextIn(r, x) {
    }
    assert forall x :: x in l <==> TextIn(l, x).Some?;
    assert l.Keys == r.Keys;
  }

  /** The fixture's mutable state; `files` is the abstract file store under the fixture root. */
  class Fixture {
    const stateFile: Path
    var files: map<Path, string>
    var snapshots: map<Path, Option<string>>
    var errors: seq<string>
    var isSuppressedErrors: bool
    var isInitialized: bool
    /** The content of the state file. */
    var persisted: StoredState

    /** The field resets at the start of `setUp`, over an existing file store and state file. */
    constructor(stateFile: Path, files: map<Path, string>, persisted: StoredState)
      ensures this.stateFile == stateFile && this.files == files && this.persisted == persisted
      ensures snapshots == map[] && errors == [] && !isSuppressedErrors && !isInitialized
    {
      this.stateFile := stateFile;
      this.files := files;
      this.persisted := persisted;
      snapshots := map[];
      errors := [];
      isSuppressedErrors := false;
      isInitialized := false;
    }

    /** The state `dumpFixtureState` writes. */
    function Dumped(): StoredState
      reads this`isInitialized, this`isSuppressedErrors, this`errors, this`snapshots
    {
      StoredState(Some(isInitialized), Some(isSuppressedErrors), Some(errors), Some(snapshots))
    }

    /** `dumpFixtureState`. */
    method Dump()
      modifies this`persisted
      ensures persisted == Dumped()
    {
      persisted := Dumped();
    }

    function LoadText(p: Path): Option<string>
      reads this`files
    {
      TextIn(files, p)
    }

    /** `isModified`: some snapshot is recorded. */
    function IsModified(): (r: bool)
      reads this`snapshots
      ensures r <==> exists p :: p in snapshots
    {
      snapshots != map[]
    }

    /** `hasErrors`. */
    function HasErrors(): (r: bool)
      reads this`errors
      ensures r <==> |errors| > 0
    {
      errors != []
    }

    /** `snapshot`: records the current text, or its absence, the first time only. */
    method Snapshot(p: Path)
      modifies this`snapshots, this`persisted
      ensures p in old(snapshots) ==> snapshots == old(snapshots) && persisted == old(persisted)
      ensures p !in old(snapshots) ==> snapshots == old(snapshots)[p := LoadText(p)] && persisted == Dumped()
      ensures IsModified() && p in snapshots
    {
      if p in snapshots {
        return;
      }
      snapshots := snapshots[p := LoadText(p)];
      Dump();
    }

    /** `revertFile`. */
    method RevertFile(p: Path, text: Option<string>)
      modifies this`files
      ensures files == Revert(old(files), p, text)
    {
      if text.Some? {
        files := files[p := text.value];
      } else {
        files := files - {p};
      }
    }

    /** `rollback`: fails without a snapshot; otherwise reverts the file and forgets only that snapshot. */
    method Rollback(p: Path) returns (r: Result<(), string>)
      modifies this`files, this`snapshots, this`persisted
      ensures p !in old(snapshots) ==>
        r == Err("Cannot find snapshot for " + p) && files == old(files) && snapshots == old(snapshots) && persisted == old(persisted)
      ensures p in old(snapshots) ==>
        r.Ok? && files == Revert(old(files), p, old(snapshots)[p]) && snapshots == old(snapshots) - {p} && persisted == Dumped()
    {
      if p !in snapshots {
        return Err("Cannot find snapshot for " + p);
      }
      RevertFile(p, snapshots[p]);
      snapshots := snapshots - {p};
      Dump();
      return Ok(());
    }

    /** `rollbackAll`: rolls back every snapshot, in any order; none is left and every snapshotted file has its recorded text again. */
    method RollbackAll()
      modifies this`files, this`snapshots, this`persisted
      ensures snapshots == map[] && !IsModified()
      ensures forall q :: LoadText(q) == RevertedText(old(files), old(snapshots), q)
      ensures old(snapshots) != map[] ==> persisted == Dumped()
      ensures old(snapshots) == map[] ==> persisted == old(persisted)
    {
      if snapshots == map[] {
        return;
      }
      var paths := snapshots.Keys;
      assert snapshots.Keys != {} by {
        var p :| p in snapshots;
      }
      ghost var rolledBack := false;
      while paths != {}
        invariant snapshots.Keys == paths
        invariant forall q :: q in snapshots ==> q in old(snapshots) && snapshots[q] == old(snapshots)[q]
        invariant forall q :: LoadText(q) == (if q in old(snapshots) && q !in paths then old(snapshots)[q] else TextIn(old(files), q))
        invariant rolledBack ==> persisted == Dumped()
        invariant rolledBack || paths != {}
        decreases |paths|
      {
        var p := RollbackOneOf(paths);
        paths := paths - {p};
        rolledBack := true;
      }
    }

    /** One pass of the loop of `rollbackAll`: rolls back one of the remaining snapshots. */
    method RollbackOneOf(paths: set<Path>) returns (p: Path)
      requires paths != {} && snapshots.Keys == paths
      modifies this`files, this`snapshots, this`persisted
      ensures p in paths && snapshots == old(snapshots) - {p} && persisted == Dumped()
      ensures files == Revert(old(files), p, old(snapshots)[p])
    {
      p :| p in paths;
      var r := Rollback(p);
    }

    /** The loop of `repairFixtureCaches` over stored snapshots. */
    method RevertAll(snaps: map<Path, Option<string>>)
      modifies this`files
      ensures forall q :: LoadText(q) == RevertedText(old(files), snaps, q)
    {
      var paths := snaps.Keys;
      while paths != {}
        invariant paths <= snaps.Keys
        invariant forall q :: LoadText(q) == (if q in snaps && q !in paths then snaps[q] else TextIn(old(files), q))
        decreases |paths|
      {
        var p :| p in paths;
        RevertFile(p, snaps[p]);
        paths := paths - {p};
      }
    }

    /** `invalidateFixtureCaches`. */
    method Invalidate()
      modifies this`files
      ensures files == KeepOnly(old(files), stateFile)
    {
      files := KeepOnly(files, stateFile);
    }

    /** `repairFixtureCaches`: deletes the cached files after a bad run, and otherwise reverts what the last run left snapshotted. */
    method RepairFixtureCaches()
      modifies this`files
      ensures NeedsInvalidation(persisted) ==> files == KeepOnly(old(files), stateFile)
      ensures !NeedsInvalidation(persisted) ==>
        forall q :: LoadText(q) == RevertedText(old(files), persisted.snapshots.GetOr(map[]), q)
    {
      var state := persisted;
      if NeedsInvalidation(state) {
        Invalidate();
      } else {
        RevertAll(state.snapshots.GetOr(map[]));
      }
    }

    /** `areContentsEqual`: every expected file has exactly its expected text. */
    method AreContentsEqual(expected: map<Path, string>) returns (r: bool)
      ensures r <==> forall p :: p in expected ==> LoadText(p) == Some(expected[p])
    {
      var paths := expected.Keys;
      while paths != {}
        invariant paths <= expected.Keys
        invariant forall p :: p in expected && p !in paths ==> LoadText(p) == Some(expected[p])
        decreases |paths|
      {
        var p :| p in paths;
        if LoadText(p) != Some(expected[p]) {
          return false;
        }
        paths := paths - {p};
      }
      return true;
    }

    /** `createFiles`: writes every expected file. */
    method CreateFiles(expected: map<Path, string>)
      modifies this`files
      ensures forall q :: LoadText(q) == if q in expected then Some(expected[q]) else TextIn(old(files), q)
    {
      var paths := expected.Keys;
      while paths != {}
        invariant paths <= expected.Keys
        invariant forall q :: LoadText(q) == (if q in expected && q !in paths then Some(expected[q]) else TextIn(old(files), q))
        decreases |paths|
      {
        var p :| p in paths;
        files := files[p := expected[p]];
        paths := paths - {p};
      }
    }

    /**
     * `configureFixtureCaches`: when some expected file differs, deletes everything but the
     * state file and writes the expected files; either way every expected file then has its text.
     */
    method ConfigureFixtureCaches(expected: map<Path, string>)
      modifies this`files
      ensures (forall p :: p in expected ==> old(LoadText(p)) == Some(expected[p])) ==> files == old(files)
      ensures (exists p :: p in expected && old(LoadText(p)) != Some(expected[p])) ==>
        forall q :: LoadText(q) ==
          if q in expected then Some(expected[q]) else if q == stateFile then TextIn(old(files), q) else None
      ensures forall p :: p in expected ==> LoadText(p) == Some(expected[p])
    {
      var equal := AreContentsEqual(expected);
      if !equal {
        Invalidate();
        CreateFiles(expected);
      }
    }

    /** `suppressErrors`. */
    method SuppressErrors(suppressed: bool)
      modifies this`isSuppressedErrors, this`persisted
      ensures isSuppressedErrors == suppressed && persisted == Dumped()
    {
      isSuppressedErrors := suppressed;
      Dump();
    }

    /** `addIllegalOperationError`: one more error unless errors are suppressed. */
    method AddIllegalOperationError(message: string)
      modifies this`errors, this`persisted
      ensures old(isSuppressedErrors) ==> errors == old(errors) && persisted == old(persisted)
      ensures !old(isSuppressedErrors) ==> errors == old(errors) + [message] && persisted == Dumped()
    {
      if !isSuppressedErrors {
        errors := errors + [message];
        Dump();
      }
    }

    /** The watcher's `isRelevant`: a change matters for a non-directory under the root that is neither the state file nor snapshotted. */
    function IsRelevant(p: Path, isDirectory: bool, underRoot: bool): (r: bool)
      reads this`snapshots
      ensures r ==> !isDirectory && p !in snapshots && p != stateFile && underRoot
      ensures !isDirectory && underRoot && p != stateFile && p !in snapshots ==> r
    {
      !isDirectory && p != stateFile && underRoot && p !in snapshots
    }

    /** The watcher's `updateFile`, reached for relevant changes only: an unexpected modification is recorded as an error, which dumps the state. */
    method OnFileChanged(p: Path, isDirectory: bool, underRoot: bool, event: string)
      modifies this`errors, this`persisted
      ensures errors == if IsRelevant(p, isDirectory, underRoot) && !isSuppressedErrors
                        then old(errors) + ["Unexpected project modification " + event] else old(errors)
      ensures persisted == if IsRelevant(p, isDirectory, underRoot) && !isSuppressedErrors then Dumped() else old(persisted)
    {
      if IsRelevant(p, isDirectory, underRoot) {
        AddIllegalOperationError("Unexpected project modification " + event);
      }
    }
  }
}
