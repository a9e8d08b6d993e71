/**
 * The virtual file system's refresh worker: it compares what the VFS remembers about a
 * directory with what the file system reports now, and turns the differences into events
 * (deletions, creations, renames, attribute checks). Directories to visit wait in a queue;
 * each is refreshed until one attempt succeeds; a cancellation re-dirties whatever is left.
 */
module RefreshWorker {
  import opened Wrappers

  type FileId = nat

  /** `FileAttributes` as the file system reports them now. */
  datatype Attributes = Attributes(
    isDirectory: bool, isSymlink: bool, isSpecial: bool, isWritable: bool, isHidden: bool,
    lastModified: int, length: int)

  /** What the VFS remembers about a file: its record and the persisted stamps. */
  datatype VfsFile = VfsFile(
    name: string, parent: Option<FileId>,
    isDirectory: bool, isSymlink: bool, isSpecial: bool, isHidden: bool,
    isWritable: bool, timeStamp: int, recordedLength: int,
    canonicalPath: Option<string>, allChildrenLoaded: bool)

  /** The file system, the VFS records and the flags the worker consults; none of them is part of this model. */
  datatype Environment = Environment(
    vfs: FileId -> VfsFile,
    attributesOf: FileId -> Option<Attributes>,
    resolveSymlink: FileId -> Option<string>,
    findChild: (FileId, string) -> Option<FileId>,
    isWindows: bool,
    /** The `refresh.ignore.file.type.changes` system property. */
    ignoreFileTypeChanges: bool)

  /** `ChildInfo`: a child found on disk that the VFS does not know yet. */
  datatype ChildInfo = ChildInfo(name: string, attributes: Attributes, symlinkTarget: Option<string>)

  /** The calls the worker makes on its event-generation helper, in order. */
  datatype Event =
    | Deletion(file: FileId)
    | Creation(parent: FileId, name: string, attributes: Attributes, symlinkTarget: Option<string>)
    | NameChange(file: FileId, oldName: string, newName: string)
    | WritableCheck(file: FileId, wasWritable: bool, isWritable: bool)
    | HiddenCheck(file: FileId, wasHidden: bool, isHidden: bool)
    | SymlinkCheck(file: FileId, canonicalPath: Option<string>, target: Option<string>)
    | ContentCheck(file: FileId, oldStamp: int, newStamp: int, oldLength: int, newLength: int)

  /**
   * The outcome of one refresh attempt of a directory, with the subdirectories it queued: an
   * invalid-file access, which abandons the directory but keeps what was queued before it, or a
   * finished attempt that succeeded or asks for a retry.
   */
  datatype Outcome = InvalidAccess(queued: seq<FileId>) | Attempt(succeeded: bool, queued: seq<FileId>)

  function Elems(s: seq<FileId>): set<FileId> {
    if s == [] then {} else {s[0]} + Elems(s[1..])
  }

  /** The number of successful attempts in an attempt script. */
  function Successes(s: seq<Outcome>): nat {
    if s == [] then 0 else Successes(s[..|s| - 1]) + (if s[|s| - 1].Attempt? && s[|s| - 1].succeeded then 1 else 0)
  }

  /** ASCII case folding, as `equalsIgnoreCase` treats the letters A to Z. */
  function FoldChar(c: char): char {
    if 'A' <= c <= 'Z' then (c as int + 32) as char else c
  }

  predicate EqualsIgnoreCase(a: string, b: string) {
    |a| == |b| && forall i :: 0 <= i < |a| ==> FoldChar(a[i]) == FoldChar(b[i])
  }

  /** `actualNames.get(name)` on a case-insensitive name set: the first stored name equal to `name` ignoring case. */
  function FindIgnoringCase(names: seq<string>, name: string): (r: Option<string>)
    ensures r.Some? ==> r.value in names && EqualsIgnoreCase(r.value, name)
    ensures r.None? ==> forall i :: 0 <= i < |names| ==> !EqualsIgnoreCase(names[i], name)
  {
    if names == [] then None
    else if EqualsIgnoreCase(names[0], name) then Some(names[0])
    else FindIgnoringCase(names[1..], name)
  }

  /**
   * The new spelling `checkAndScheduleFileNameChange` reports for a child: only for a
   * case-insensitive directory (`actualNames` present) whose listing spells the name differently.
   */
  function RenameTarget(actualNames: Option<seq<string>>, name: string): (r: Option<string>)
    ensures actualNames.None? ==> r.None?
    ensures r.Some? ==> r.value != name && EqualsIgnoreCase(r.value, name) && r.value in actualNames.value
  {
    if actualNames.None? then None
    else
      var found := FindIgnoringCase(actualNames.value, name);
      if found.Some? && found.value != name then found else None
  }

  /**
   * A listing that holds the name in its exact spelling, before any other spelling equal to it
   * ignoring case, never asks for a rename; one that lists another such spelling first renames
   * to that spelling.
   */
  lemma {:induction false} NoRenameForExactSpelling(names: seq<string>, name: string, i: nat)
    requires i < |names| && forall j :: 0 <= j < i ==> !EqualsIgnoreCase(names[j], name)
    ensures names[i] == name ==> RenameTarget(Some(names), name).None?
    ensures names[i] != name && EqualsIgnoreCase(names[i], name) ==> RenameTarget(Some(names), name) == Some(names[i])
  {
    FirstMatch(names, name, i);
  }

  /** `FindIgnoringCase` returns the first listed name equal ignoring case. */
  lemma {:induction false} FirstMatch(names: seq<string>, name: string, i: nat)
    requires i < |names| && forall j :: 0 <= j < i ==> !EqualsIgnoreCase(names[j], name)
    ensures EqualsIgnoreCase(names[i], name) ==> FindIgnoringCase(names, name) == Some(names[i])
  {
    if i > 0 {
      assert !EqualsIgnoreCase(names[0], name);
      FirstMatch(names[1..], name, i - 1);
    }
  }

  /**
   * The file-type test of `checkAndScheduleFileTypeChange`: directory-ness differs, or the
   * symlink or special flag differs and type changes are not ignored.
   */
  predicate TypeChanged(env: Environment, child: FileId, attrs: Attributes) {
    var f := env.vfs(child);
    f.isDirectory != attrs.isDirectory
    || ((f.isSymlink != attrs.isSymlink || f.isSpecial != attrs.isSpecial) && !env.ignoreFileTypeChanges)
  }

  /**
   * The name diffing of `fullDirRefresh`: the new names are the up-to-date names the VFS does
   * not know, and the deleted names are the persisted names no longer listed.
   */
  method NameDiff(upToDate: seq<string>, persisted: seq<string>, childNames: seq<string>, allChildrenLoaded: bool)
    returns (newNames: set<string>, deletedNames: set<string>)
    ensures newNames <= set n | n in upToDate
    ensures allChildrenLoaded && |childNames| < |upToDate| ==>
      forall n :: n in newNames <==> n in upToDate && n !in childNames
    ensures !(allChildrenLoaded && |childNames| < |upToDate|) ==>
      forall n :: n in newNames <==> n in upToDate && n !in persisted
    ensures forall n :: n in deletedNames <==> n in persisted && n !in upToDate
  {
    newNames := {};
    for i := 0 to |upToDate|
      invariant forall n :: n in newNames <==> n in upToDate[..i]
    {
      newNames := newNames + {upToDate[i]};
    }
    assert upToDate[..|upToDate|] == upToDate;
    ghost var listed := newNames;
    var removed := if allChildrenLoaded && |childNames| < |upToDate| then childNames else persisted;
    for i := 0 to |removed|
      invariant forall n :: n in newNames <==> n in listed && n !in removed[..i]
    {
      newNames := newNames - {removed[i]};
    }
    assert removed[..|removed|] == removed;
    deletedNames := {};
    for i := 0 to |persisted|
      invariant forall n :: n in deletedNames <==> n in persisted[..i]
    {
      deletedNames := deletedNames + {persisted[i]};
    }
    assert persisted[..|persisted|] == persisted;
    ghost var known := deletedNames;
    for i := 0 to |upToDate|
      invariant forall n :: n in deletedNames <==> n in known && n !in upToDate[..i]
    {
      deletedNames := deletedNames - {upToDate[i]};
    }
    assert upToDate[..|upToDate|] == upToDate;
  }

  /**
   * When the VFS compares against its persisted names, every listed or persisted name is new,
   * deleted or kept, and no name is both new and deleted.
   */
  lemma NameDiffPartition(upToDate: seq<string>, persisted: seq<string>, newNames: set<string>, deletedNames: set<string>, n: string)
    requires forall n :: n in newNames <==> n in upToDate && n !in persisted
    requires forall n :: n in deletedNames <==> n in persisted && n !in upToDate
    ensures n !in newNames || n !in deletedNames
    ensures n in upToDate || n in persisted <==> n in newNames || n in deletedNames || (n in upToDate && n in persisted)
  {
  }

  /** The helper calls for the deleted names, in the order they are visited. */
  function DeletedNameEvents(env: Environment, dir: FileId, actualNames: Option<seq<string>>, names: seq<string>): seq<Event> {
    if names == [] then []
    else
      var rest := DeletedNameEvents(env, dir, actualNames, names[..|names| - 1]);
      match env.findChild(dir, names[|names| - 1])
      case None => rest
      case Some(child) =>
        var target := RenameTarget(actualNames, env.vfs(child).name);
        rest + (if target.Some? then [NameChange(child, env.vfs(child).name, target.value)] else [Deletion(child)])
  }

  /** The children among `names` that only changed the case of their name. */
  function RenamedChildren(env: Environment, dir: FileId, actualNames: Option<seq<string>>, names: seq<string>): seq<FileId> {
    if names == [] then []
    else
      var rest := RenamedChildren(env, dir, actualNames, names[..|names| - 1]);
      match env.findChild(dir, names[|names| - 1])
      case None => rest
      case Some(child) => if RenameTarget(actualNames, env.vfs(child).name).Some? then rest + [child] else rest
  }

  /** `newKids.removeIf(..)`: drops the new children equal, ignoring case, to `name`. */
  function DropMatching(kids: seq<ChildInfo>, name: string): (r: seq<ChildInfo>)
    ensures forall k :: k in r <==> k in kids && !EqualsIgnoreCase(k.name, name)
  {
    if kids == [] then []
    else if EqualsIgnoreCase(kids[0].name, name) then DropMatching(kids[1..], name)
    else [kids[0]] + DropMatching(kids[1..], name)
  }

  /** The new children left once the renamed children's names are dropped. */
  function KidsAfterRenames(env: Environment, dir: FileId, actualNames: Option<seq<string>>, names: seq<string>, kids: seq<ChildInfo>): seq<ChildInfo> {
    if names == [] then kids
    else
      var rest := KidsAfterRenames(env, dir, actualNames, names[..|names| - 1], kids);
      match env.findChild(dir, names[|names| - 1])
      case None => rest
      case Some(child) => if RenameTarget(actualNames, env.vfs(child).name).Some? then DropMatching(rest, env.vfs(child).name) else rest
  }

  /**
   * A new child survives the deleted-name pass exactly when no renamed child has its name
   * ignoring case: a case-only rename is reported as a rename, not as a deletion plus a creation.
   */
  lemma {:induction false} KidsAfterRenamesSpec(env: Environment, dir: FileId, actualNames: Option<seq<string>>,
                                                names: seq<string>, kids: seq<ChildInfo>, k: ChildInfo)
    ensures k in KidsAfterRenames(env, dir, actualNames, names, kids) <==>
      k in kids && forall c :: c in RenamedChildren(env, dir, actualNames, names) ==> !EqualsIgnoreCase(k.name, env.vfs(c).name)
  {
    if names != [] {
      KidsAfterRenamesSpec(env, dir, actualNames, names[..|names| - 1], kids, k);
    }
  }

  /** Every deleted name whose child exists yields exactly one helper call: a rename for a renamed child, a deletion otherwise. */
  lemma {:induction false} DeletedNameEventsCount(env: Environment, dir: FileId, actualNames: Option<seq<string>>, names: seq<string>)
    ensures |DeletedNameEvents(env, dir, actualNames, names)| == |set i | 0 <= i < |names| && env.findChild(dir, names[i]).Some?|
    ensures forall e :: e in DeletedNameEvents(env, dir, actualNames, names) ==> e.Deletion? || e.NameChange?
  {
    if names != [] {
      var init := names[..|names| - 1];
      DeletedNameEventsCount(env, dir, actualNames, init);
      var s := set i | 0 <= i < |init| && env.findChild(dir, init[i]).Some?;
      var t := set i | 0 <= i < |names| && env.findChild(dir, names[i]).Some?;
      if env.findChild(dir, names[|names| - 1]).Some? {
        assert t == s + {|names| - 1};
      } else {
        assert t == s;
      }
    }
  }

  /** Whether an attempt ends the retries of its directory: it succeeded or hit an invalid-file access. */
  predicate Finishes(o: Outcome) {
    o.InvalidAccess? || o.succeeded
  }

  /** The number of attempts in `s` that ended their directory's retries. */
  function Finished(s: seq<Outcome>): nat {
    if s == [] then 0 else Finished(s[..|s| - 1]) + (if Finishes(s[|s| - 1]) then 1 else 0)
  }

  /** The number of directories the attempts `s` took off the queue: the finished ones and the one still being retried. */
  function Turns(s: seq<Outcome>): nat {
    Finished(s) + (if s != [] && !Finishes(s[|s| - 1]) then 1 else 0)
  }

  /** The subdirectories the attempts `s` append to the queue, in recursive mode only. */
  function Queued(isRecursive: bool, s: seq<Outcome>): seq<FileId> {
    if s == [] then []
    else Queued(isRecursive, s[..|s| - 1]) + (if isRecursive then s[|s| - 1].queued else [])
  }

  /** The directories `dirs[i]` whose attempt `s[i]` succeeded. */
  function SucceededDirs(s: seq<Outcome>, dirs: seq<FileId>): set<FileId>
    requires |s| == |dirs|
  {
    if s == [] then {}
    else SucceededDirs(s[..|s| - 1], dirs[..|dirs| - 1]) + (if s[|s| - 1].Attempt? && s[|s| - 1].succeeded then {dirs[|dirs| - 1]} else {})
  }

  /** The counts above after one more attempt. */
  lemma OneMoreAttempt(s: seq<Outcome>, n: nat, isRecursive: bool)
    requires n < |s|
    ensures Finished(s[..n + 1]) == Finished(s[..n]) + (if Finishes(s[n]) then 1 else 0)
    ensures Successes(s[..n + 1]) == Successes(s[..n]) + (if s[n].Attempt? && s[n].succeeded then 1 else 0)
    ensures Queued(isRecursive, s[..n + 1]) == Queued(isRecursive, s[..n]) + (if isRecursive then s[n].queued else [])
    ensures Turns(s[..n + 1]) == Finished(s[..n + 1]) + (if Finishes(s[n]) then 0 else 1)
  {
    assert s[..n + 1][..n] == s[..n];
  }

  /** `SucceededDirs` after one more attempt. */
  lemma OneMoreSucceeded(s: seq<Outcome>, dirs: seq<FileId>, n: nat, d: FileId)
    requires n < |s| && |dirs| == n
    ensures SucceededDirs(s[..n + 1], dirs + [d]) ==
      SucceededDirs(s[..n], dirs) + (if s[n].Attempt? && s[n].succeeded then {d} else {})
  {
    assert s[..n + 1][..n] == s[..n];
    assert (dirs + [d])[..n] == dirs;
  }

  /**
   * With attempt j refreshing the directory of turn `Finished(s[..j])` in queue order, attempt
   * i + 1 refreshes the same directory as attempt i unless attempt i finished it, and otherwise
   * the next directory in queue order: a directory is retried on consecutive attempts until one
   * succeeds or hits an invalid-file access.
   */
  lemma {:induction false} RetryUntilFinished(order: seq<FileId>, s: seq<Outcome>, refreshed: seq<FileId>, i: nat)
    requires |refreshed| == |s| && i + 1 < |s|
    requires forall j :: 0 <= j < |s| ==> Finished(s[..j]) < |order| && refreshed[j] == order[Finished(s[..j])]
    ensures !Finishes(s[i]) ==> refreshed[i + 1] == refreshed[i]
    ensures Finishes(s[i]) ==> Finished(s[..i + 1]) == Finished(s[..i]) + 1 && refreshed[i + 1] == order[Finished(s[..i + 1])]
  {
    OneMoreAttempt(s, i, false);
  }

  /** A directory is among the succeeded ones exactly when one of its attempts succeeded. */
  lemma {:induction false} SucceededDirsSpec(s: seq<Outcome>, dirs: seq<FileId>, d: FileId)
    requires |s| == |dirs|
    ensures d in SucceededDirs(s, dirs) <==> exists i :: 0 <= i < |s| && s[i].Attempt? && s[i].succeeded && dirs[i] == d
  {
    if s != [] {
      var n := |s| - 1;
      assert s[..n + 1] == s && dirs[..n] + [dirs[n]] == dirs;
      OneMoreSucceeded(s, dirs[..n], n, dirs[n]);
      SucceededDirsSpec(s[..n], dirs[..n], d);
      if d in SucceededDirs(s[..n], dirs[..n]) {
        var i :| 0 <= i < n && s[..n][i].Attempt? && s[..n][i].succeeded && dirs[..n][i] == d;
        assert s[i].Attempt? && s[i].succeeded && dirs[i] == d;
      }
      if exists i :: 0 <= i < |s| && s[i].Attempt? && s[i].succeeded && dirs[i] == d {
        var i :| 0 <= i < |s| && s[i].Attempt? && s[i].succeeded && dirs[i] == d;
        if i < n {
          assert s[..n][i] == s[i] && dirs[..n][i] == dirs[i];
        }
      }
    }
  }

  /** The part of the worker's state `processQueue` works on; `scans` counts full and partial scans together. */
  datatype QueueState = QueueState(queue: seq<FileId>, dirty: set<FileId>, attempts: seq<Outcome>, processed: nat, scans: nat)

  /**
   * One refresh attempt of `dir` that was not cancelled: the next outcome is consumed and a
   * scan counted; in recursive mode the subdirectories the attempt queued stay queued, even when
   * it hit an invalid-file access; a success counts as processed and, in recursive mode, marks
   * the directory clean.
   */
  function Attempted(isRecursive: bool, st: QueueState, dir: FileId): QueueState
    requires st.attempts != []
  {
    var o := st.attempts[0];
    QueueState(st.queue + (if isRecursive then o.queued else []),
               if isRecursive && o.Attempt? && o.succeeded then st.dirty - {dir} else st.dirty,
               st.attempts[1..],
               st.processed + (if o.Attempt? && o.succeeded then 1 else 0),
               st.scans + 1)
  }

  /**
   * What `processQueue` promises, from the state `s` it started in to the state `now` it ends
   * in, with `refreshed` the directory each consumed attempt refreshed:
   * - it consumes a prefix of the attempt script, counts one scan per attempt (and one for an
   *   abort) and one processed directory per success;
   * - it aborts exactly when cancelled with work to do, and then marks every queued directory
   *   dirty, empties the queue and consumes nothing; cancelled without work, it changes nothing;
   * - otherwise it runs until the queue or the script is exhausted, and stops with outcomes
   *   left only when the queue is empty and no retry is pending (the last attempt finished its
   *   directory); with `order` the starting queue followed by what the attempts queued,
   *   attempt i refreshes the directory of turn `Finished(s.attempts[..i])` in `order`, the
   *   directories not yet taken stay queued, and in recursive mode exactly the directories that
   *   succeeded are marked clean.
   */
  ghost predicate ProcessedFrom(isRecursive: bool, cancelled: bool, s: QueueState, now: QueueState, refreshed: seq<FileId>, aborted: bool) {
    && |now.attempts| <= |s.attempts|
    && now.attempts == s.attempts[|s.attempts| - |now.attempts|..]
    && var outs := s.attempts[..|s.attempts| - |now.attempts|];
    && now.processed == s.processed + Successes(outs)
    && now.scans == s.scans + |outs| + (if aborted then 1 else 0)
    && aborted == (cancelled && s.queue != [] && s.attempts != [])
    && (cancelled ==>
          && outs == [] && refreshed == []
          && (if aborted then now.queue == [] && now.dirty == s.dirty + Elems(s.queue) else now.queue == s.queue && now.dirty == s.dirty))
    && (!cancelled ==>
          && (now.queue == [] || now.attempts == [])
          && (now.attempts != [] ==> now.queue == [] && Turns(outs) == Finished(outs))
          && |refreshed| == |outs|
          && var order := s.queue + Queued(isRecursive, outs);
          && Turns(outs) <= |order|
          && now.queue == order[Turns(outs)..]
          && (forall i :: 0 <= i < |outs| ==> Finished(s.attempts[..i]) < |order| && refreshed[i] == order[Finished(s.attempts[..i])])
          && now.dirty == (if isRecursive then s.dirty - SucceededDirs(outs, refreshed) else s.dirty))
  }

  /** The directories taken so far, then the queue, are the starting queue followed by what the attempts queued. */
  ghost predicate QueueOrder(isRecursive: bool, s: QueueState, queue: seq<FileId>, consumed: nat, current: Option<FileId>, taken: seq<FileId>)
    requires consumed <= |s.attempts|
  {
    && taken + queue == s.queue + Queued(isRecursive, s.attempts[..consumed])
    && |taken| == Turns(s.attempts[..consumed])
    && (current.Some? <==> consumed > 0 && !Finishes(s.attempts[consumed - 1]))
    && (current.Some? ==> current.value == taken[|taken| - 1])
  }

  /** Attempt i refreshed the directory of turn `Finished(attempts[..i])`. */
  ghost predicate RefreshLog(attempts: seq<Outcome>, consumed: nat, taken: seq<FileId>, refreshed: seq<FileId>)
    requires consumed <= |attempts|
  {
    && |refreshed| == consumed
    && forall i :: 0 <= i < consumed ==> Finished(attempts[..i]) < |taken| && refreshed[i] == taken[Finished(attempts[..i])]
  }

  /**
   * The loop invariant of `processQueue` after `consumed` attempts: `taken` are the directories
   * taken off the queue so far, `current` the one being retried.
   */
  ghost predicate Accounted(isRecursive: bool, cancelled: bool, s: QueueState, now: QueueState, consumed: nat,
                            current: Option<FileId>, taken: seq<FileId>, refreshed: seq<FileId>) {
    && consumed <= |s.attempts|
    && now.attempts == s.attempts[consumed..]
    && now.processed == s.processed + Successes(s.attempts[..consumed])
    && now.scans == s.scans + consumed
    && (cancelled ==> consumed == 0 && current.None? && taken == [] && refreshed == [] && now.queue == s.queue && now.dirty == s.dirty)
    && (!cancelled ==>
          && QueueOrder(isRecursive, s, now.queue, consumed, current, taken)
          && RefreshLog(s.attempts, consumed, taken, refreshed)
          && now.dirty == (if isRecursive then s.dirty - SucceededDirs(s.attempts[..consumed], refreshed) else s.dirty))
  }

  /** One attempt on `dir`, taken off the queue unless it was being retried, keeps `QueueOrder`. */
  lemma AttemptQueueOrder(isRecursive: bool, s: QueueState, queue: seq<FileId>, consumed: nat, current: Option<FileId>, taken: seq<FileId>)
    requires consumed < |s.attempts| && QueueOrder(isRecursive, s, queue, consumed, current, taken)
    requires current.Some? || queue != []
    ensures var dir := if current.Some? then current.value else queue[0];
      var o := s.attempts[consumed];
      QueueOrder(isRecursive, s, (if current.Some? then queue else queue[1..]) + (if isRecursive then o.queued else []),
                 consumed + 1, if Finishes(o) then None else Some(dir), if current.Some? then taken else taken + [dir])
  {
    var dir := if current.Some? then current.value else queue[0];
    var taken' := if current.Some? then taken else taken + [dir];
    var queue1 := if current.Some? then queue else queue[1..];
    var o := s.attempts[consumed];
    OneMoreAttempt(s.attempts, consumed, isRecursive);
    assert taken' + queue1 == taken + queue by {
      if current.None? {
        assert queue == [dir] + queue1;
      }
    }
    var added := if isRecursive then o.queued else [];
    assert taken' + (queue1 + added) == (taken' + queue1) + added;
  }

  /** One attempt on the directory of the current turn extends `RefreshLog`. */
  lemma AttemptRefreshLog(attempts: seq<Outcome>, consumed: nat, taken: seq<FileId>, taken': seq<FileId>, refreshed: seq<FileId>, dir: FileId)
    requires consumed < |attempts| && RefreshLog(attempts, consumed, taken, refreshed)
    requires taken' == taken || taken' == taken + [dir]
    requires |taken'| == Finished(attempts[..consumed]) + 1 && taken'[|taken'| - 1] == dir
    ensures RefreshLog(attempts, consumed + 1, taken', refreshed + [dir])
  {
    forall i | 0 <= i < consumed + 1
      ensures Finished(attempts[..i]) < |taken'| && (refreshed + [dir])[i] == taken'[Finished(attempts[..i])]
    {
      if i < consumed {
        assert (refreshed + [dir])[i] == refreshed[i];
      }
    }
  }

  /**
   * One pass of the loop keeps the invariant: the directory being retried, or else the head of
   * the queue, gets the next attempt, and stays current exactly when that attempt did not finish it.
   */
  lemma AttemptAccounted(isRecursive: bool, s: QueueState, now: QueueState, consumed: nat,
                         current: Option<FileId>, taken: seq<FileId>, refreshed: seq<FileId>,
                         dir: FileId, queue1: seq<FileId>, taken': seq<FileId>)
    requires Accounted(isRecursive, false, s, now, consumed, current, taken, refreshed) && now.attempts != []
    requires current.Some? ==> dir == current.value && queue1 == now.queue && taken' == taken
    requires current.None? ==> now.queue != [] && dir == now.queue[0] && queue1 == now.queue[1..] && taken' == taken + [dir]
    ensures Accounted(isRecursive, false, s, Attempted(isRecursive, now.(queue := queue1), dir), consumed + 1,
                      if Finishes(now.attempts[0]) then None else Some(dir), taken', refreshed + [dir])
  {
    var next := Attempted(isRecursive, now.(queue := queue1), dir);
    var o := s.attempts[consumed];
    assert now.attempts[0] == o;
    assert next.attempts == s.attempts[consumed + 1..] by {
      assert s.attempts[consumed..][1..] == s.attempts[consumed + 1..];
    }
    assert next.processed == s.processed + Successes(s.attempts[..consumed + 1]) && next.scans == s.scans + consumed + 1 by {
      OneMoreAttempt(s.attempts, consumed, isRecursive);
    }
    assert QueueOrder(isRecursive, s, next.queue, consumed + 1, if Finishes(o) then None else Some(dir), taken') by {
      AttemptQueueOrder(isRecursive, s, now.queue, consumed, current, taken);
    }
    assert RefreshLog(s.attempts, consumed + 1, taken', refreshed + [dir]) by {
      assert QueueOrder(isRecursive, s, now.queue, consumed, current, taken);
      OneMoreAttempt(s.attempts, consumed, isRecursive);
      AttemptRefreshLog(s.attempts, consumed, taken, taken', refreshed, dir);
    }
    assert next.dirty == (if isRecursive then s.dirty - SucceededDirs(s.attempts[..consumed + 1], refreshed + [dir]) else s.dirty) by {
      OneMoreSucceeded(s.attempts, refreshed, consumed, dir);
    }
  }

  /** A cancelled first attempt aborts: the queue, the taken directory included, is marked dirty and emptied. */
  lemma AbortedProcessed(isRecursive: bool, s: QueueState, now: QueueState, after: QueueState, dir: FileId, queue1: seq<FileId>)
    requires Accounted(isRecursive, true, s, now, 0, None, [], [])
    requires now.queue != [] && now.attempts != [] && dir == now.queue[0] && queue1 == now.queue[1..]
    requires after == now.(queue := [], dirty := now.dirty + {dir} + Elems(queue1), scans := now.scans + 1)
    ensures ProcessedFrom(isRecursive, true, s, after, [], true)
  {
    assert Elems(s.queue) == {dir} + Elems(queue1);
    assert s.attempts[..0] == [];
  }

  /** When the loop stops, its invariant gives what `processQueue` promises. */
  lemma AccountedDone(isRecursive: bool, cancelled: bool, s: QueueState, now: QueueState, consumed: nat,
                      current: Option<FileId>, taken: seq<FileId>, refreshed: seq<FileId>)
    requires Accounted(isRecursive, cancelled, s, now, consumed, current, taken, refreshed)
    requires !((current.Some? || now.queue != []) && now.attempts != [])
    ensures ProcessedFrom(isRecursive, cancelled, s, now, refreshed, false)
  {
    assert |s.attempts| - |now.attempts| == consumed;
    if !cancelled {
      assert QueueOrder(isRecursive, s, now.queue, consumed, current, taken);
      assert RefreshLog(s.attempts, consumed, taken, refreshed);
      var order := s.queue + Queued(isRecursive, s.attempts[..consumed]);
      assert order[..|taken|] == taken && order[|taken|..] == now.queue;
    }
  }

  /** The worker's state: its queue, the cancel flag, the dirty flags, the helper's calls and the counters. */
  class Worker {
    const env: Environment
    const isRecursive: bool
    var queue: seq<FileId>
    var cancelled: bool
    var dirty: set<FileId>
    var events: seq<Event>
    /** The outcomes the coming directory refresh attempts will have, in order. */
    var attempts: seq<Outcome>
    var fullScans: nat
    var partialScans: nat
    var processed: nat

    /** `RefreshWorker(refreshRoot, isRecursive)`: the root is the only queued file. */
    constructor(env: Environment, root: FileId, isRecursive: bool, dirty: set<FileId>, attempts: seq<Outcome>)
      ensures this.env == env && this.isRecursive == isRecursive
      ensures queue == [root] && !cancelled && this.dirty == dirty && events == [] && this.attempts == attempts
      ensures fullScans == 0 && partialScans == 0 && processed == 0
    {
      this.env := env;
      this.isRecursive := isRecursive;
      queue := [root];
      cancelled := false;
      this.dirty := dirty;
      events := [];
      this.attempts := attempts;
      fullScans, partialScans, processed := 0, 0, 0;
    }

    /** `cancel`. */
    method Cancel()
      modifies this`cancelled
      ensures cancelled
    {
      cancelled := true;
    }

    /** `forceMarkDirty`: clean, then dirty again, so that the dirty mark takes effect. */
    method ForceMarkDirty(f: FileId)
      modifies this`dirty
      ensures dirty == old(dirty) + {f}
    {
      dirty := dirty - {f};
      dirty := dirty + {f};
    }

    /**
     * `checkCancelled`: once cancelled, marks `stopAt` and every queued file dirty, empties
     * the queue and aborts; otherwise changes nothing.
     */
    method CheckCancelled(stopAt: FileId) returns (aborted: bool)
      modifies this`dirty, this`queue
      ensures aborted == cancelled
      ensures cancelled ==> queue == [] && dirty == old(dirty) + {stopAt} + Elems(old(queue))
      ensures !cancelled ==> queue == old(queue) && dirty == old(dirty)
    {
      if !cancelled {
        return false;
      }
      ForceMarkDirty(stopAt);
      while queue != []
        invariant dirty + Elems(queue) == old(dirty) + {stopAt} + Elems(old(queue))
        decreases |queue|
      {
        var f := queue[0];
        queue := queue[1..];
        ForceMarkDirty(f);
      }
      return true;
    }

    /** `queueDirectory`: only a directory of the VFS is queued. */
    method QueueDirectory(f: FileId)
      modifies this`queue
      ensures queue == old(queue) + (if env.vfs(f).isDirectory then [f] else [])
    {
      if env.vfs(f).isDirectory {
        queue := queue + [f];
      }
    }

    /** The helper calls of a type change: a deletion, then a creation under the parent when there is one. */
    function TypeChangeEvents(parent: Option<FileId>, child: FileId, attrs: Attributes): seq<Event> {
      [Deletion(child)] +
      (if parent.Some? then [Creation(parent.value, env.vfs(child).name, attrs, if attrs.isSymlink then env.resolveSymlink(child) else None)] else [])
    }

    /**
     * `checkAndScheduleFileTypeChange`: on a type change, a deletion and, when there is a
     * parent, a creation with the new attributes; otherwise nothing.
     */
    method FileTypeChange(parent: Option<FileId>, child: FileId, attrs: Attributes) returns (changed: bool)
      modifies this`events
      ensures changed <==> TypeChanged(env, child, attrs)
      ensures changed ==> events == old(events) + TypeChangeEvents(parent, child, attrs)
      ensures !changed ==> events == old(events)
    {
      var f := env.vfs(child);
      var isFileTypeChanged := f.isSymlink != attrs.isSymlink || f.isSpecial != attrs.isSpecial;
      if f.isDirectory != attrs.isDirectory || (isFileTypeChanged && !env.ignoreFileTypeChanges) {
        events := events + [Deletion(child)];
        if parent.Some? {
          var target := if attrs.isSymlink then env.resolveSymlink(child) else None;
          events := events + [Creation(parent.value, f.name, attrs, target)];
        }
        return true;
      }
      return false;
    }

    /** `checkAndScheduleFileNameChange`: reports a case-only rename, and says whether it did. */
    method FileNameChange(actualNames: Option<seq<string>>, child: FileId) returns (scheduled: bool)
      modifies this`events
      ensures var target := RenameTarget(actualNames, env.vfs(child).name);
        scheduled == target.Some? &&
        events == old(events) + (if scheduled then [NameChange(child, env.vfs(child).name, target.value)] else [])
    {
      if actualNames.Some? {
        var currentName := env.vfs(child).name;
        var actualName := FindIgnoringCase(actualNames.value, currentName);
        if actualName.Some? && currentName != actualName.value {
          events := events + [NameChange(child, currentName, actualName.value)];
          return true;
        }
      }
      return false;
    }

    /**
     * The deleted-name pass of `fullDirRefresh`: a deleted name whose child only changed case
     * becomes a rename and drops the matching new children; any other existing child is deleted.
     */
    method ScheduleDeletedNames(dir: FileId, deleted: seq<string>, actualNames: Option<seq<string>>, newKids: seq<ChildInfo>)
      returns (kids: seq<ChildInfo>)
      modifies this`events
      ensures events == old(events) + DeletedNameEvents(env, dir, actualNames, deleted)
      ensures kids == KidsAfterRenames(env, dir, actualNames, deleted, newKids)
    {
      kids := newKids;
      for i := 0 to |deleted|
        invariant events == old(events) + DeletedNameEvents(env, dir, actualNames, deleted[..i])
        invariant kids == KidsAfterRenames(env, dir, actualNames, deleted[..i], newKids)
      {
        assert deleted[..i + 1][..i] == deleted[..i];
        var child := env.findChild(dir, deleted[i]);
        if child.Some? {
          var renamed := FileNameChange(actualNames, child.value);
          if renamed {
            kids := DropMatching(kids, env.vfs(child.value).name);
          } else {
            events := events + [Deletion(child.value)];
          }
        }
      }
      assert deleted[..|deleted|] == deleted;
    }

    /** The attribute checks of `checkAndScheduleChildRefresh` for a child whose type did not change. */
    function AttributeChecks(child: FileId, attrs: Attributes): seq<Event> {
      var f := env.vfs(child);
      [WritableCheck(child, f.isWritable, attrs.isWritable)]
      + (if env.isWindows then [HiddenCheck(child, f.isHidden, attrs.isHidden)] else [])
      + (if attrs.isSymlink then [SymlinkCheck(child, f.canonicalPath, env.resolveSymlink(child))] else [])
      + (if !attrs.isDirectory then [ContentCheck(child, f.timeStamp, attrs.lastModified, f.recordedLength, attrs.length)] else [])
    }

    /** The helper calls `checkAndScheduleChildRefresh` makes for `child`, given the dirty set before it. */
    function RefreshEvents(dirty: set<FileId>, parent: Option<FileId>, child: FileId, attrs: Attributes): seq<Event> {
      if child !in dirty then []
      else if TypeChanged(env, child, attrs) then TypeChangeEvents(parent, child, attrs)
      else AttributeChecks(child, attrs)
    }

    /** The dirty set after `checkAndScheduleChildRefresh`: a dirty child ends clean unless it is a directory whose type did not change. */
    function RefreshedDirty(dirty: set<FileId>, child: FileId, attrs: Attributes): set<FileId> {
      if child in dirty && (TypeChanged(env, child, attrs) || !attrs.isDirectory) then dirty - {child} else dirty
    }

    /** The queue after `checkAndScheduleChildRefresh`: a dirty directory whose type did not change is queued in recursive mode. */
    function RefreshedQueue(queue: seq<FileId>, dirty: set<FileId>, child: FileId, attrs: Attributes): seq<FileId> {
      queue + (if child in dirty && !TypeChanged(env, child, attrs) && attrs.isDirectory && isRecursive && env.vfs(child).isDirectory
               then [child] else [])
    }

    /**
     * The cases of `checkAndScheduleChildRefresh`: a clean child is left alone; a type change is
     * reported and leaves the child clean and unqueued; otherwise the attributes are checked, a
     * regular file ends clean, and a directory stays dirty and is queued in recursive mode only.
     */
    lemma ChildRefreshCases(dirty: set<FileId>, queue: seq<FileId>, parent: Option<FileId>, child: FileId, attrs: Attributes)
      ensures child !in dirty ==>
        RefreshEvents(dirty, parent, child, attrs) == [] && RefreshedDirty(dirty, child, attrs) == dirty &&
        RefreshedQueue(queue, dirty, child, attrs) == queue
      ensures child in dirty && TypeChanged(env, child, attrs) ==>
        RefreshEvents(dirty, parent, child, attrs) == TypeChangeEvents(parent, child, attrs) &&
        RefreshedDirty(dirty, child, attrs) == dirty - {child} && RefreshedQueue(queue, dirty, child, attrs) == queue
      ensures child in dirty && !TypeChanged(env, child, attrs) ==>
        RefreshEvents(dirty, parent, child, attrs) == AttributeChecks(child, attrs) &&
        (!attrs.isDirectory ==> RefreshedDirty(dirty, child, attrs) == dirty - {child} && RefreshedQueue(queue, dirty, child, attrs) == queue) &&
        (attrs.isDirectory ==>
          RefreshedDirty(dirty, child, attrs) == dirty &&
          RefreshedQueue(queue, dirty, child, attrs) == queue + (if isRecursive && env.vfs(child).isDirectory then [child] else []))
      ensures child !in RefreshedDirty(dirty, child, attrs) ==> RefreshedQueue(queue, dirty, child, attrs) == queue
    {
    }

    /** `checkAndScheduleChildRefresh`. */
    method ChildRefresh(parent: Option<FileId>, child: FileId, attrs: Attributes)
      modifies this`events, this`dirty, this`queue
      ensures events == old(events) + RefreshEvents(old(dirty), parent, child, attrs)
      ensures dirty == RefreshedDirty(old(dirty), child, attrs)
      ensures queue == RefreshedQueue(old(queue), old(dirty), child, attrs)
    {
      if child !in dirty {
        return;
      }
      var changed := FileTypeChange(parent, child, attrs);
      if changed {
        dirty := dirty - {child};
        return;
      }
      ScheduleAttributeChecks(child, attrs);
      if !attrs.isDirectory {
        dirty := dirty - {child};
      } else if isRecursive {
        QueueDirectory(child);
      }
    }

    /** The attribute checks of `checkAndScheduleChildRefresh`, one helper call after the other. */
    method ScheduleAttributeChecks(child: FileId, attrs: Attributes)
      modifies this`events
      ensures events == old(events) + AttributeChecks(child, attrs)
    {
      var f := env.vfs(child);
      events := events + [WritableCheck(child, f.isWritable, attrs.isWritable)];
      if env.isWindows {
        events := events + [HiddenCheck(child, f.isHidden, attrs.isHidden)];
      }
      if attrs.isSymlink {
        events := events + [SymlinkCheck(child, f.canonicalPath, env.resolveSymlink(child))];
      }
      if !attrs.isDirectory {
        events := events + [ContentCheck(child, f.timeStamp, attrs.lastModified, f.recordedLength, attrs.length)];
      }
    }

    /**
     * One pass of the retry loop of `processQueue` for `dir`: counts the scan, looks at
     * cancellation, then takes the next outcome. A success counts as processed and, in
     * recursive mode, leaves the directory clean; `finished` says the loop moves on.
     */
    method RefreshOnce(dir: FileId, fullSync: bool) returns (aborted: bool, finished: bool)
      requires attempts != []
      modifies this`queue, this`dirty, this`attempts, this`fullScans, this`partialScans, this`processed
      ensures aborted == cancelled
      ensures aborted ==> State() == old(State()).(queue := [], dirty := old(dirty) + {dir} + Elems(old(queue)), scans := old(State()).scans + 1)
      ensures !aborted ==> State() == Attempted(isRecursive, old(State()), dir) && finished == Finishes(old(attempts)[0])
    {
      if fullSync {
        fullScans := fullScans + 1;
      } else {
        partialScans := partialScans + 1;
      }
      finished := false;
      aborted := CheckCancelled(dir);
      if aborted {
        return;
      }
      var outcome := attempts[0];
      attempts := attempts[1..];
      if isRecursive {
        queue := queue + outcome.queued;
      }
      match outcome
      case InvalidAccess(_) =>
        finished := true;
      case Attempt(succeeded, _) =>
        if succeeded {
          processed := processed + 1;
          if isRecursive {
            dirty := dirty - {dir};
          }
        }
        finished := succeeded;
    }

    /** The state `processQueue` works on. */
    function State(): QueueState
      reads this`queue, this`dirty, this`attempts, this`processed, this`fullScans, this`partialScans
    {
      QueueState(queue, dirty, attempts, processed, fullScans + partialScans)
    }

    /**
     * One pass of the loop of `processQueue`: takes the next directory when none is being
     * retried, then makes one attempt on it; the directory stays current exactly when the
     * attempt neither succeeded nor hit an invalid-file access.
     */
    method QueueStep(current: Option<FileId>, fullSync: bool) returns (aborted: bool, current': Option<FileId>, fullSync': bool, ghost dir: FileId)
      requires (current.Some? || queue != []) && attempts != []
      modifies this`queue, this`dirty, this`attempts, this`fullScans, this`partialScans, this`processed
      ensures dir == if current.Some? then current.value else old(queue)[0]
      ensures aborted == cancelled
      ensures var queue1 := if current.Some? then old(queue) else old(queue)[1..];
        aborted ==> State() == old(State()).(queue := [], dirty := old(dirty) + {dir} + Elems(queue1), scans := old(State()).scans + 1)
      ensures var queue1 := if current.Some? then old(queue) else old(queue)[1..];
        !aborted ==> State() == Attempted(isRecursive, old(State()).(queue := queue1), dir) &&
                     current' == (if Finishes(old(attempts)[0]) then None else Some(dir))
    {
      current', fullSync' := current, fullSync;
      if current'.None? {
        current' := Some(queue[0]);
        queue := queue[1..];
        fullSync' := env.vfs(current'.value).allChildrenLoaded;
      }
      var d := current'.value;
      dir := d;
      var finished;
      aborted, finished := RefreshOnce(d, fullSync');
      if !aborted && finished {
        current' := None;
      }
    }

    /**
     * `processQueue`: takes directories off the queue in order and refreshes each until an
     * attempt succeeds or hits an invalid-file access; cancellation is looked at before each
     * attempt. The model stops when the attempt script runs out.
     */
    method ProcessQueue() returns (aborted: bool, ghost refreshed: seq<FileId>)
      modifies this`queue, this`dirty, this`attempts, this`fullScans, this`partialScans, this`processed
      ensures ProcessedFrom(isRecursive, cancelled, old(State()), State(), refreshed, aborted)
    {
      ghost var s := State();
      ghost var consumed := 0;
      ghost var taken: seq<FileId> := [];
      refreshed := [];
      aborted := false;
      var current: Option<FileId> := None;
      var fullSync := false;
      while (current.Some? || queue != []) && attempts != []
        invariant Accounted(isRecursive, cancelled, s, State(), consumed, current, taken, refreshed)
        decreases |attempts|
      {
        ghost var now := State();
        ghost var queue1 := if current.Some? then queue else queue[1..];
        ghost var taken' := if current.Some? then taken else taken + [queue[0]];
        var current';
        ghost var dir;
        aborted, current', fullSync, dir := QueueStep(current, fullSync);
        if aborted {
          AbortedProcessed(isRecursive, s, now, State(), dir, queue1);
          refreshed := [];
          return;
        }
        AttemptAccounted(isRecursive, s, now, consumed, current, taken, refreshed, dir, queue1, taken');
        current, taken, refreshed := current', taken', refreshed + [dir];
        consumed := consumed + 1;
      }
      AccountedDone(isRecursive, cancelled, s, State(), consumed, current, taken, refreshed);
    }

    /**
     * `scan`: takes the root off the queue. A root the file system no longer has is reported
     * deleted and marked clean, and nothing else happens. Otherwise the root itself is
     * refreshed, queued again when it is a still dirty directory and nothing else is queued, and
     * the queue is processed from there.
     */
    method Scan() returns (aborted: bool, ghost refreshed: seq<FileId>)
      requires queue != []
      modifies this`queue, this`dirty, this`events, this`attempts, this`fullScans, this`partialScans, this`processed
      ensures var root := old(queue)[0];
        env.attributesOf(root).None? ==>
          !aborted && refreshed == [] && events == old(events) + [Deletion(root)] && dirty == old(dirty) - {root} &&
          queue == old(queue)[1..] && attempts == old(attempts) && processed == old(processed) &&
          fullScans == old(fullScans) && partialScans == old(partialScans)
      ensures var root := old(queue)[0];
        env.attributesOf(root).Some? ==>
          var attrs := env.attributesOf(root).value;
          var dirty1 := RefreshedDirty(old(dirty), root, attrs);
          var queue1 := RefreshedQueue(old(queue)[1..], old(dirty), root, attrs);
          events == old(events) + RefreshEvents(old(dirty), env.vfs(root).parent, root, attrs) &&
          ProcessedFrom(isRecursive, cancelled,
                        QueueState(queue1 + (if root in dirty1 && env.vfs(root).isDirectory && queue1 == [] then [root] else []),
                                   dirty1, old(attempts), old(processed), old(fullScans) + old(partialScans)),
                        State(), refreshed, aborted)
    {
      var root := queue[0];
      queue := queue[1..];
      var attrs := env.attributesOf(root);
      if attrs.None? {
        events := events + [Deletion(root)];
        dirty := dirty - {root};
        return false, [];
      }
      ChildRefresh(env.vfs(root).parent, root, attrs.value);
      ghost var dirty1, queue1 := dirty, queue;
      if root in dirty && env.vfs(root).isDirectory && queue == [] {
        QueueDirectory(root);
      }
      assert queue == queue1 + (if root in dirty1 && env.vfs(root).isDirectory && queue1 == [] then [root] else []);
      aborted, refreshed := ProcessQueue();
    }
  }
}
