/**
 * A committed Subversion change list: the paths of one log entry sorted into added,
 * deleted and changed sets, the `Change` list derived from them, value equality, and
 * the cache record written to and read back from a data stream.
 */
module SvnHistory {
  import opened Wrappers
  import opened SvnLocation

  /** What `checkPath` reports for a path at a revision. */
  datatype NodeKind = Dir | FileNode | NoNode | UnknownNode

  /**
   * The two repository calls the change list makes; `None` stands for the
   * `SVNException` they may throw. `list` answers what a recursive `doList` reports:
   * the relative paths of every entry below the path.
   */
  datatype Repository = Repository(
    checkPath: (string, int) -> Option<NodeKind>,
    list: (string, int) -> Option<set<string>>)

  /** One changed path of a log entry: its path, its change type letter and the path it was copied from. */
  datatype LogEntryPath = LogEntryPath(path: string, kind: char, copyPath: Option<string>)

  /** A log entry; its changed paths are listed in the order the entry's map yields them. */
  datatype LogEntry = LogEntry(
    revision: int,
    author: Option<string>,
    date: int,
    message: Option<string>,
    changedPaths: seq<LogEntryPath>)

  /** The set a log-entry path is sorted into. */
  datatype PathKind = Added | Deleted | Changed

  function KindOf(e: LogEntryPath): PathKind {
    if e.kind == 'A' then Added else if e.kind == 'D' then Deleted else Changed
  }

  /** Whether `checkPath` succeeded, and if so whether the path is a directory. */
  function DirectoryFlag(repo: Option<Repository>, path: string, revision: int): Option<bool> {
    if repo.None? then None
    else
      var kind := repo.value.checkPath(path, revision);
      if kind.None? then None else Some(kind.value == Dir)
  }

  /** `getChildren`: the entries below a directory, or nothing when there is no repository, the path is not a directory or a call fails. */
  function Children(repo: Option<Repository>, path: string, revision: int): (r: Option<set<string>>)
    ensures r.Some? ==> DirectoryFlag(repo, path, revision) == Some(true)
  {
    if DirectoryFlag(repo, path, revision) != Some(true) then None
    else repo.value.list(path, revision)
  }

  /** `parent/name` for every name. */
  function ChildPaths(parent: string, names: set<string>): set<string> {
    set n | n in names :: parent + "/" + n
  }

  /** The state the log-entry loop of the constructor builds. */
  datatype Classification = Classification(
    added: set<string>,
    deleted: set<string>,
    changed: set<string>,
    directories: map<string, bool>,
    deletedChildren: map<string, set<string>>,
    copiedAdded: map<string, string>)

  const Unclassified := Classification({}, {}, {}, map[], map[], map[])

  /** One step of the loop: an added path (remembering its copy source), a deleted path with its former children, or a changed path. */
  function ClassifyEntry(c: Classification, e: LogEntryPath, repo: Option<Repository>, revision: int): Classification {
    match KindOf(e)
    case Added =>
      c.(added := c.added + {e.path},
         copiedAdded := if e.copyPath.Some? then c.copiedAdded[e.copyPath.value := e.path] else c.copiedAdded)
    case Deleted =>
      var flag := DirectoryFlag(repo, e.path, revision - 1);
      var children := Children(repo, e.path, revision - 1);
      c.(deleted := c.deleted + {e.path} + (if children.Some? then ChildPaths(e.path, children.value) else {}),
         directories := if flag.Some? then c.directories[e.path := flag.value] else c.directories,
         deletedChildren := if children.Some? then c.deletedChildren[e.path := children.value] else c.deletedChildren)
    case Changed =>
      c.(changed := c.changed + {e.path})
  }

  /** The loop over the entry's paths, as a fold. */
  function ClassifyAll(entries: seq<LogEntryPath>, repo: Option<Repository>, revision: int): Classification {
    if entries == [] then Unclassified
    else ClassifyEntry(ClassifyAll(entries[..|entries| - 1], repo, revision), entries[|entries| - 1], repo, revision)
  }

  /** The paths of the entries of one kind. */
  function PathsOfKind(entries: seq<LogEntryPath>, k: PathKind): set<string> {
    set i | 0 <= i < |entries| && KindOf(entries[i]) == k :: entries[i].path
  }

  /** `path/c` for every deleted directory `path` and every child `c` it had one revision earlier. */
  function DeletedChildPaths(entries: seq<LogEntryPath>, repo: Option<Repository>, revision: int): set<string> {
    set i, n | 0 <= i < |entries| && KindOf(entries[i]) == Deleted && Children(repo, entries[i].path, revision - 1).Some?
                 && n in Children(repo, entries[i].path, revision - 1).value
             :: entries[i].path + "/" + n
  }

  /** The contents of renamed folders: `target/c` for every copy source that was deleted with children `c`. */
  function RenamedContents(copiedAdded: map<string, string>, deletedChildren: map<string, set<string>>, sources: set<string>): set<string> {
    set src, n | src in sources && src in copiedAdded && src in deletedChildren && n in deletedChildren[src] :: copiedAdded[src] + "/" + n
  }

  /** Every renamed-folder path marked as a directory. */
  function DirectoryMarks(paths: set<string>): map<string, bool> {
    map p | p in paths :: true
  }

  /** Appending an entry adds its path to the paths of its kind only. */
  lemma PathsOfKindSnoc(init: seq<LogEntryPath>, e: LogEntryPath, k: PathKind)
    ensures PathsOfKind(init + [e], k) == PathsOfKind(init, k) + (if KindOf(e) == k then {e.path} else {})
  {
    var entries := init + [e];
    assert forall i :: 0 <= i < |init| ==> entries[i] == init[i];
    assert entries[|init|] == e;
  }

  /** Appending an entry adds the former children of a deleted directory, and nothing else. */
  lemma DeletedChildPathsSnoc(init: seq<LogEntryPath>, e: LogEntryPath, repo: Option<Repository>, revision: int)
    ensures var children := Children(repo, e.path, revision - 1);
      DeletedChildPaths(init + [e], repo, revision) ==
        DeletedChildPaths(init, repo, revision)
        + (if KindOf(e) == Deleted && children.Some? then ChildPaths(e.path, children.value) else {})
  {
    var entries := init + [e];
    var children := Children(repo, e.path, revision - 1);
    assert forall i :: 0 <= i < |init| ==> entries[i] == init[i];
    assert entries[|init|] == e;
    forall x | x in DeletedChildPaths(entries, repo, revision)
      ensures x in DeletedChildPaths(init, repo, revision)
              || (KindOf(e) == Deleted && children.Some? && x in ChildPaths(e.path, children.value))
    {
      var i, n :| 0 <= i < |entries| && KindOf(entries[i]) == Deleted && Children(repo, entries[i].path, revision - 1).Some?
                  && n in Children(repo, entries[i].path, revision - 1).value && x == entries[i].path + "/" + n;
      if i < |init| {
        assert init[i] == entries[i];
      }
    }
    forall x | x in DeletedChildPaths(init, repo, revision)
      ensures x in DeletedChildPaths(entries, repo, revision)
    {
      var i, n :| 0 <= i < |init| && KindOf(init[i]) == Deleted && Children(repo, init[i].path, revision - 1).Some?
                  && n in Children(repo, init[i].path, revision - 1).value && x == init[i].path + "/" + n;
      assert entries[i] == init[i];
    }
    if KindOf(e) == Deleted && children.Some? {
      forall x | x in ChildPaths(e.path, children.value)
        ensures x in DeletedChildPaths(entries, repo, revision)
      {
        var n :| n in children.value && x == e.path + "/" + n;
        assert entries[|init|] == e;
      }
    }
  }

  /** The fold over a non-empty list is one more step after the fold over all but its last entry. */
  lemma ClassifyAllSnoc(init: seq<LogEntryPath>, e: LogEntryPath, repo: Option<Repository>, revision: int)
    ensures ClassifyAll(init + [e], repo, revision) == ClassifyEntry(ClassifyAll(init, repo, revision), e, repo, revision)
  {
    assert (init + [e])[..|init + [e]| - 1] == init;
  }

  /**
   * The three sets the log-entry loop builds: added and changed are the paths of type `A`
   * and of any type but `A` and `D`; deleted holds the paths of type `D` and every child
   * a deleted directory had one revision earlier.
   */
  lemma {:induction false} ClassifiedSets(entries: seq<LogEntryPath>, repo: Option<Repository>, revision: int)
    ensures var c := ClassifyAll(entries, repo, revision);
      && c.added == PathsOfKind(entries, Added)
      && c.changed == PathsOfKind(entries, Changed)
      && c.deleted == PathsOfKind(entries, Deleted) + DeletedChildPaths(entries, repo, revision)
  {
    if entries != [] {
      var init := entries[..|entries| - 1];
      var e := entries[|entries| - 1];
      assert entries == init + [e];
      ClassifiedSets(init, repo, revision);
      ClassifyAllSnoc(init, e, repo, revision);
      PathsOfKindSnoc(init, e, Added);
      PathsOfKindSnoc(init, e, Deleted);
      PathsOfKindSnoc(init, e, Changed);
      DeletedChildPathsSnoc(init, e, repo, revision);
    }
  }

  /** The directory flags and former children the loop records are what the repository reports for the deleted paths. */
  lemma {:induction false} ClassifiedDirectories(entries: seq<LogEntryPath>, repo: Option<Repository>, revision: int)
    ensures var c := ClassifyAll(entries, repo, revision);
      && (forall p :: p in c.directories <==> p in PathsOfKind(entries, Deleted) && DirectoryFlag(repo, p, revision - 1).Some?)
      && (forall p :: p in c.directories ==> Some(c.directories[p]) == DirectoryFlag(repo, p, revision - 1))
      && (forall p :: p in c.deletedChildren <==> p in PathsOfKind(entries, Deleted) && Children(repo, p, revision - 1).Some?)
      && (forall p :: p in c.deletedChildren ==> Some(c.deletedChildren[p]) == Children(repo, p, revision - 1))
  {
    if entries != [] {
      var init := entries[..|entries| - 1];
      var e := entries[|entries| - 1];
      assert entries == init + [e];
      ClassifiedDirectories(init, repo, revision);
      ClassifyAllSnoc(init, e, repo, revision);
      PathsOfKindSnoc(init, e, Deleted);
    }
  }

  /** Every copy source the loop records points to an added path that was copied from it. */
  lemma {:induction false} ClassifiedCopies(entries: seq<LogEntryPath>, repo: Option<Repository>, revision: int)
    ensures var c := ClassifyAll(entries, repo, revision);
      forall src :: src in c.copiedAdded ==>
        exists i :: 0 <= i < |entries| && entries[i] == LogEntryPath(c.copiedAdded[src], 'A', Some(src))
  {
    if entries != [] {
      var init := entries[..|entries| - 1];
      var e := entries[|entries| - 1];
      assert entries == init + [e];
      ClassifiedCopies(init, repo, revision);
      ClassifyAllSnoc(init, e, repo, revision);
      var c0 := ClassifyAll(init, repo, revision);
      var c := ClassifyAll(entries, repo, revision);
      forall src | src in c.copiedAdded
        ensures exists i :: 0 <= i < |entries| && entries[i] == LogEntryPath(c.copiedAdded[src], 'A', Some(src))
      {
        if KindOf(e) == Added && e.copyPath == Some(src) {
          assert entries[|entries| - 1] == LogEntryPath(c.copiedAdded[src], 'A', Some(src));
        } else {
          var i :| 0 <= i < |init| && init[i] == LogEntryPath(c0.copiedAdded[src], 'A', Some(src));
          assert entries[i] == init[i];
        }
      }
    }
  }

  /** Log-entry paths are the keys of the entry's map, so no two are equal. */
  ghost predicate DistinctPaths(entries: seq<LogEntryPath>) {
    forall i, j :: 0 <= i < j < |entries| ==> entries[i].path != entries[j].path
  }

  /** Every log-entry path is sorted into the set of its type, and into no other set of types. */
  lemma EntrySortedOnce(entries: seq<LogEntryPath>, i: int, k: PathKind)
    requires DistinctPaths(entries)
    requires 0 <= i < |entries|
    ensures entries[i].path in PathsOfKind(entries, KindOf(entries[i]))
    ensures entries[i].path in PathsOfKind(entries, k) <==> k == KindOf(entries[i])
  {
    if entries[i].path in PathsOfKind(entries, k) {
      var j :| 0 <= j < |entries| && KindOf(entries[j]) == k && entries[j].path == entries[i].path;
      assert j == i;
    }
  }

  /** Renamed-folder contents of a larger set of sources: those of the smaller set and those of the new source. */
  lemma RenamedContentsStep(copiedAdded: map<string, string>, deletedChildren: map<string, set<string>>,
                            sources: set<string>, src: string)
    requires src in copiedAdded
    ensures RenamedContents(copiedAdded, deletedChildren, sources + {src}) ==
      RenamedContents(copiedAdded, deletedChildren, sources)
      + (if src in deletedChildren then ChildPaths(copiedAdded[src], deletedChildren[src]) else {})
  {
    var lhs := RenamedContents(copiedAdded, deletedChildren, sources + {src});
    var rhs := RenamedContents(copiedAdded, deletedChildren, sources)
      + (if src in deletedChildren then ChildPaths(copiedAdded[src], deletedChildren[src]) else {});
    forall x | x in lhs ensures x in rhs {
      var s, n :| s in sources + {src} && s in copiedAdded && s in deletedChildren && n in deletedChildren[s]
                  && x == copiedAdded[s] + "/" + n;
      if s != src {
        assert x in RenamedContents(copiedAdded, deletedChildren, sources);
      }
    }
    forall x | x in rhs ensures x in lhs {
      if x in RenamedContents(copiedAdded, deletedChildren, sources) {
        var s, n :| s in sources && s in copiedAdded && s in deletedChildren && n in deletedChildren[s]
                    && x == copiedAdded[s] + "/" + n;
        assert s in sources + {src};
      } else {
        var n :| n in deletedChildren[src] && x == copiedAdded[src] + "/" + n;
        assert src in sources + {src};
      }
    }
  }

  /** Before the first copy source, nothing is added or marked. */
  lemma RenamedStart(added0: set<string>, dirs0: map<string, bool>,
                     copiedAdded: map<string, string>, deletedChildren: map<string, set<string>>)
    ensures added0 == added0 + RenamedContents(copiedAdded, deletedChildren, {})
    ensures dirs0 == dirs0 + DirectoryMarks(RenamedContents(copiedAdded, deletedChildren, {}))
  {
    assert RenamedContents(copiedAdded, deletedChildren, {}) == {};
    assert DirectoryMarks({}) == map[];
  }

  /** One copy source of the renamed-folder pass: its folder's contents, if it was deleted with children, are added and marked. */
  lemma RenamedStep(added0: set<string>, dirs0: map<string, bool>, added: set<string>, dirs: map<string, bool>,
                    copiedAdded: map<string, string>, deletedChildren: map<string, set<string>>,
                    done: set<string>, src: string)
    requires src in copiedAdded
    requires added == added0 + RenamedContents(copiedAdded, deletedChildren, done)
    requires dirs == dirs0 + DirectoryMarks(RenamedContents(copiedAdded, deletedChildren, done))
    ensures src in deletedChildren ==>
      var c := ChildPaths(copiedAdded[src], deletedChildren[src]);
      && added + c == added0 + RenamedContents(copiedAdded, deletedChildren, done + {src})
      && dirs + DirectoryMarks(c) == dirs0 + DirectoryMarks(RenamedContents(copiedAdded, deletedChildren, done + {src}))
    ensures src !in deletedChildren ==>
      && added == added0 + RenamedContents(copiedAdded, deletedChildren, done + {src})
      && dirs == dirs0 + DirectoryMarks(RenamedContents(copiedAdded, deletedChildren, done + {src}))
  {
    RenamedContentsStep(copiedAdded, deletedChildren, done, src);
    var r := RenamedContents(copiedAdded, deletedChildren, done);
    if src in deletedChildren {
      DirectoryMarksUnion(dirs0, r, ChildPaths(copiedAdded[src], deletedChildren[src]));
    }
  }

  /** One more name gives one more child path. */
  lemma ChildPathsAdd(parent: string, names: set<string>, name: string)
    ensures ChildPaths(parent, names + {name}) == ChildPaths(parent, names) + {parent + "/" + name}
  {
  }

  /** Marking one path is adding its mark. */
  lemma DirectoryMarksOne(base: map<string, bool>, p: string)
    ensures base[p := true] == base + DirectoryMarks({p})
  {
  }

  /** Marking two sets one after the other marks their union. */
  lemma DirectoryMarksUnion(base: map<string, bool>, a: set<string>, b: set<string>)
    ensures base + DirectoryMarks(a) + DirectoryMarks(b) == base + DirectoryMarks(a + b)
  {
  }

  /** One `Change` end: the repository path at a revision and the local file it maps to. */
  datatype ContentRevision = ContentRevision(root: string, path: string, localPath: Option<FilePath>, revision: int)

  /** `Change`: a before and an after revision, either of which may be absent. */
  datatype Change = Change(before: Option<ContentRevision>, after: Option<ContentRevision>)

  /** The repository path a change is about. */
  function ChangePath(c: Change): string {
    if c.after.Some? then c.after.value.path else if c.before.Some? then c.before.value.path else ""
  }

  /** The paths of the changes in `s[lo..hi]`. */
  ghost function PathsIn(s: seq<Change>, lo: nat, hi: nat): set<string>
    requires lo <= hi <= |s|
    decreases hi - lo
  {
    if hi == lo then {} else PathsIn(s, lo, hi - 1) + {ChangePath(s[hi - 1])}
  }

  /** One more change adds its path. */
  lemma PathsInSnoc(s: seq<Change>, lo: nat, c: Change)
    requires lo <= |s|
    ensures PathsIn(s + [c], lo, |s| + 1) == PathsIn(s, lo, |s|) + {ChangePath(c)}
  {
    PathsInPrefix(s, s + [c], lo, |s|);
  }

  /** The paths of a range do not change when the list grows behind it. */
  lemma {:induction false} PathsInPrefix(x: seq<Change>, y: seq<Change>, lo: nat, hi: nat)
    requires lo <= hi <= |x| <= |y| && y[..|x|] == x
    ensures PathsIn(y, lo, hi) == PathsIn(x, lo, hi)
    decreases hi - lo
  {
    if hi > lo {
      assert y[hi - 1] == x[hi - 1];
      PathsInPrefix(x, y, lo, hi - 1);
    }
  }

  /** Token of a data stream: `writeUTF`, `writeLong` and `writeInt` values. */
  datatype Token = Utf(text: string) | Long(long: int) | Int(int32: int)

  /** The most bytes `DataOutput.writeUTF` writes for one string: its length goes in an unsigned 16-bit prefix. */
  const UtfLimit := 65535

  /**
   * The length of a string in the modified UTF-8 `writeUTF` uses: one byte for a character
   * from U+0001 to U+007F, two for U+0000 and up to U+07FF, three up to U+FFFF, and a
   * character beyond U+FFFF is a surrogate pair in Java, three bytes per half.
   */
  function EncodedLength(s: string): (n: nat)
    ensures |s| <= n <= 6 * |s|
  {
    if s == [] then 0
    else
      var c := s[|s| - 1] as int;
      EncodedLength(s[..|s| - 1]) + (if 1 <= c <= 0x7F then 1 else if c <= 0x7FF then 2 else if c <= 0xFFFF then 3 else 6)
  }

  /** `writeUTF` writes the string, rather than throwing `UTFDataFormatException`. */
  predicate Writable(s: string) {
    EncodedLength(s) <= UtfLimit
  }

  /** Every path of a set can be written by `writeUTF`. */
  predicate AllWritable(paths: set<string>) {
    forall p :: p in paths ==> Writable(p)
  }

  /**
   * `IOUtil.writeUTFTruncated`: the message cut to its first `limit` characters. That helper is
   * not part of this model, so its cut is the parameter `limit`.
   */
  function Truncate(s: string, limit: nat): (r: string)
    ensures |r| <= limit
    ensures StartsWith(s, r)
    ensures r == s <==> |s| <= limit
  {
    if |s| <= limit then s else s[..limit]
  }

  /** The fields the cache stream carries. */
  datatype Stored = Stored(
    repositoryRoot: string,
    revision: int,
    author: string,
    date: int,
    message: string,
    changed: set<string>,
    added: set<string>,
    deleted: set<string>)

  /** The texts of the string tokens among the `n` tokens from `start`. */
  ghost function Texts(t: seq<Token>, start: nat, n: nat): set<string>
    requires start + n <= |t|
  {
    if n == 0 then {}
    else Texts(t, start, n - 1) + (if t[start + n - 1].Utf? then {t[start + n - 1].text} else {})
  }

  /** `writeFiles`' output for a set, at position `pos`: its size, then each member once, in any order. */
  ghost predicate ListingAt(t: seq<Token>, pos: nat, paths: set<string>) {
    && pos + |paths| + 1 <= |t|
    && t[pos] == Int(|paths|)
    && (forall i :: pos < i <= pos + |paths| ==> t[i].Utf?)
    && Texts(t, pos + 1, |paths|) == paths
  }

  /** `writeToStream`'s output: the five header values, then the changed, added and deleted listings. */
  ghost predicate Encodes(t: seq<Token>, s: Stored) {
    var a := 5 + |s.changed| + 1;
    var b := a + |s.added| + 1;
    && |t| == b + |s.deleted| + 1
    && t[0] == Utf(s.repositoryRoot) && t[1] == Long(s.revision) && t[2] == Utf(s.author)
    && t[3] == Long(s.date) && t[4] == Utf(s.message)
    && ListingAt(t, 5, s.changed)
    && ListingAt(t, a, s.added)
    && ListingAt(t, b, s.deleted)
  }

  /** Texts are unchanged when tokens are put before and after. */
  lemma {:induction false} TextsShift(pre: seq<Token>, l: seq<Token>, post: seq<Token>, start: nat, n: nat)
    requires start + n <= |l|
    ensures Texts(pre + l + post, |pre| + start, n) == Texts(l, start, n)
  {
    if n > 0 {
      TextsShift(pre, l, post, start, n - 1);
      assert (pre + l + post)[|pre| + start + n - 1] == l[start + n - 1];
    }
  }

  /** A listing stays a listing when tokens are put before and after it. */
  lemma ListingShift(pre: seq<Token>, l: seq<Token>, post: seq<Token>, paths: set<string>)
    requires ListingAt(l, 0, paths) && |l| == |paths| + 1
    ensures ListingAt(pre + l + post, |pre|, paths)
  {
    var t := pre + l + post;
    assert forall i :: 0 <= i < |l| ==> t[|pre| + i] == l[i];
    TextsShift(pre, l, post, 1, |paths|);
  }

  /** `readFiles`' loop: the set of the `n` strings from position `start`, or nothing when a token is missing or not a string. */
  function ReadStrings(t: seq<Token>, start: nat, n: nat): Option<set<string>> {
    if n == 0 then Some({})
    else
      var prev := ReadStrings(t, start, n - 1);
      if prev.None? || start + n - 1 >= |t| || !t[start + n - 1].Utf? then None
      else Some(prev.value + {t[start + n - 1].text})
  }

  /** `readFiles`: a count, then that many strings (none for a count below one); the set read and the next position. */
  function ParseFiles(t: seq<Token>, pos: nat): Option<(set<string>, nat)> {
    if pos >= |t| || !t[pos].Int? then None
    else
      var n: nat := if t[pos].int32 <= 0 then 0 else t[pos].int32;
      var paths := ReadStrings(t, pos + 1, n);
      if paths.None? then None else Some((paths.value, pos + 1 + n))
  }

  /** `readFromStream`: the header values and the three path sets; a missing or mistyped token is an `IOException`. */
  function Parse(t: seq<Token>): Option<Stored> {
    if |t| < 5 || !t[0].Utf? || !t[1].Long? || !t[2].Utf? || !t[3].Long? || !t[4].Utf? then None
    else
      var changed := ParseFiles(t, 5);
      if changed.None? then None
      else
        var added := ParseFiles(t, changed.value.1);
        if added.None? then None
        else
          var deleted := ParseFiles(t, added.value.1);
          if deleted.None? then None
          else Some(Stored(t[0].text, t[1].long, t[2].text, t[3].long, t[4].text,
                           changed.value.0, added.value.0, deleted.value.0))
  }

  /** Reading `n` strings that are all there gives the set of their texts. */
  lemma {:induction false} ReadStringsOfUtf(t: seq<Token>, start: nat, n: nat)
    requires start + n <= |t|
    requires forall i :: start <= i < start + n ==> t[i].Utf?
    ensures ReadStrings(t, start, n) == Some(Texts(t, start, n))
  {
    if n > 0 {
      ReadStringsOfUtf(t, start, n - 1);
      assert t[start + n - 1].Utf?;
    }
  }

  /** A listing reads back as the set it lists, ending just after it. */
  lemma ParseListing(t: seq<Token>, pos: nat, paths: set<string>)
    requires ListingAt(t, pos, paths)
    ensures ParseFiles(t, pos) == Some((paths, pos + |paths| + 1))
  {
    ReadStringsOfUtf(t, pos + 1, |paths|);
  }

  /** Reading what was written restores every field written. */
  lemma ReadWhatWasWritten(t: seq<Token>, s: Stored)
    requires Encodes(t, s)
    ensures Parse(t) == Some(s)
  {
    var a := 5 + |s.changed| + 1;
    var b := a + |s.added| + 1;
    ParseListing(t, 5, s.changed);
    ParseListing(t, a, s.added);
    ParseListing(t, b, s.deleted);
    ParseFromParts(t, s, a, b);
  }

  /** A stream whose header and three listings read back as the fields of `s` parses as `s`. */
  lemma ParseFromParts(t: seq<Token>, s: Stored, a: nat, b: nat)
    requires |t| >= 5 && t[0] == Utf(s.repositoryRoot) && t[1] == Long(s.revision) && t[2] == Utf(s.author)
    requires t[3] == Long(s.date) && t[4] == Utf(s.message)
    requires ParseFiles(t, 5) == Some((s.changed, a))
    requires ParseFiles(t, a) == Some((s.added, b))
    requires ParseFiles(t, b).Some? && ParseFiles(t, b).value.0 == s.deleted
    ensures Parse(t) == Some(s)
  {
  }

  /** The five header values followed by the three listings encode the stored fields. */
  lemma EncodesFromParts(header: seq<Token>, changed: seq<Token>, added: seq<Token>, deleted: seq<Token>, s: Stored)
    requires header == [Utf(s.repositoryRoot), Long(s.revision), Utf(s.author), Long(s.date), Utf(s.message)]
    requires |changed| == |s.changed| + 1 && ListingAt(changed, 0, s.changed)
    requires |added| == |s.added| + 1 && ListingAt(added, 0, s.added)
    requires |deleted| == |s.deleted| + 1 && ListingAt(deleted, 0, s.deleted)
    ensures Encodes(header + changed + added + deleted, s)
  {
    var out := header + changed + added + deleted;
    ListingShift(header, changed, added + deleted, s.changed);
    ListingShift(header + changed, added, deleted, s.added);
    ListingShift(header + changed + added, deleted, [], s.deleted);
    assert header + changed + (added + deleted) == out;
    assert header + changed + added + deleted + [] == out;
    assert out[..5] == header;
    assert out[0] == header[0] && out[1] == header[1] && out[2] == header[2] && out[3] == header[3] && out[4] == header[4];
  }

  /** `Java`'s 32-bit int arithmetic, as the unsigned bit pattern. */
  const TwoTo32 := 0x1_0000_0000
  const TwoTo64 := 0x1_0000_0000_0000_0000

  /** `(int)(v ^ (v >>> 32))`: `Long.hashCode` of a 64-bit value. */
  function LongHash(v: int): (h: int)
    ensures 0 <= h < TwoTo32
  {
    var bits := v % TwoTo64;
    ((bits % TwoTo32) as bv32 ^ (bits / TwoTo32) as bv32) as int
  }

  /** One step of `String.hashCode`, over the UTF-16 code units of a character. */
  function HashChar(h: int, c: char): (r: int)
    ensures 0 <= r < TwoTo32
  {
    var code := c as int;
    if code < 0x1_0000 then (31 * h + code) % TwoTo32
    else
      var high := 0xD800 + (code - 0x1_0000) / 0x400;
      var low := 0xDC00 + (code - 0x1_0000) % 0x400;
      (31 * ((31 * h + high) % TwoTo32) + low) % TwoTo32
  }

  /** `String.hashCode`. */
  function StringHash(s: string): (h: int)
    ensures 0 <= h < TwoTo32
  {
    if s == [] then 0 else HashChar(StringHash(s[..|s| - 1]), s[|s| - 1])
  }

  /** The combination `hashCode` computes from the four compared fields. */
  function HashOf(revision: int, author: string, date: int, message: string): (h: int)
    ensures 0 <= h < TwoTo32
  {
    var h0 := LongHash(revision);
    var h1 := (31 * h0 + StringHash(author)) % TwoTo32;
    var h2 := (31 * h1 + LongHash(date)) % TwoTo32;
    (31 * h2 + StringHash(message)) % TwoTo32
  }

  /** `SvnChangeList`. */
  class SvnChangeList {
    const location: SvnRepositoryLocation
    const repositoryRoot: string
    const revision: int
    const author: string
    const date: int
    const message: string
    /** The repository created for the root; `None` when creating it failed. */
    const repository: Option<Repository>
    /** `LocationDetector.filePathByUrlAndPath`. */
    const locate: Locator<bool>

    var changedPaths: set<string>
    var addedPaths: set<string>
    var deletedPaths: set<string>
    var directories: map<string, bool>
    /** `myChanges`; `None` until loaded. */
    var changes: Option<seq<Change>>

    /**
     * The log-entry constructor: a missing author or message becomes empty; the paths
     * are classified, renamed-folder contents are added, and the change list is loaded
     * (the branch-info update that follows asks for the changes).
     */
    constructor FromLogEntry(location: SvnRepositoryLocation, logEntry: LogEntry, repositoryRoot: string,
                             repository: Option<Repository>, locate: Locator<bool>)
      ensures this.location == location && this.repositoryRoot == repositoryRoot
      ensures this.repository == repository && this.locate == locate
      ensures revision == logEntry.revision && date == logEntry.date
      ensures author == logEntry.author.GetOr("") && message == logEntry.message.GetOr("")
      ensures var c := ClassifyAll(logEntry.changedPaths, repository, logEntry.revision);
        var renamed := RenamedContents(c.copiedAdded, c.deletedChildren, c.copiedAdded.Keys);
        && changedPaths == c.changed
        && deletedPaths == c.deleted
        && addedPaths == c.added + renamed
        && directories == c.directories + DirectoryMarks(renamed)
      ensures changes.Some? && LoadedFrom(changes.value)
    {
      this.location := location;
      this.repositoryRoot := repositoryRoot;
      this.repository := repository;
      this.locate := locate;
      revision := logEntry.revision;
      date := logEntry.date;
      author := logEntry.author.GetOr("");
      message := logEntry.message.GetOr("");
      changedPaths, addedPaths, deletedPaths := {}, {}, {};
      directories := map[];
      changes := None;
      new;
      var deletedChildren, copiedAdded := ClassifyEntries(logEntry.changedPaths);
      AddRenamedFolderContents(copiedAdded, deletedChildren);
      LoadChanges();
    }

    /** The stream constructor, once the fields are read: no directory flags yet; the change list is loaded. */
    constructor Restored(location: SvnRepositoryLocation, s: Stored, repository: Option<Repository>, locate: Locator<bool>)
      ensures this.location == location && this.repository == repository && this.locate == locate
      ensures Snapshot() == s
      ensures directories == map[]
      ensures changes.Some? && LoadedFrom(changes.value)
    {
      this.location := location;
      this.repository := repository;
      this.locate := locate;
      repositoryRoot := s.repositoryRoot;
      revision := s.revision;
      author := s.author;
      date := s.date;
      message := s.message;
      changedPaths, addedPaths, deletedPaths := s.changed, s.added, s.deleted;
      directories := map[];
      changes := None;
      new;
      LoadChanges();
    }

    /** `getChildren`: records whether the path is a directory when the repository could tell, and lists its entries. */
    method GetChildren(path: string, rev: int) returns (r: Option<set<string>>)
      modifies this
      ensures r == Children(repository, path, rev)
      ensures var flag := DirectoryFlag(repository, path, rev);
        directories == if flag.Some? then old(directories)[path := flag.value] else old(directories)
      ensures changedPaths == old(changedPaths) && addedPaths == old(addedPaths) && deletedPaths == old(deletedPaths)
      ensures changes == old(changes)
    {
      if repository.None? {
        return None;
      }
      var kind := repository.value.checkPath(path, rev);
      if kind.None? {
        return None;
      }
      var isDir := kind.value == Dir;
      directories := directories[path := isDir];
      if !isDir {
        return None;
      }
      r := repository.value.list(path, rev);
    }

    /** The loop's state is the classification `c` with the given former children and copy sources. */
    ghost predicate Holds(c: Classification, deletedChildren: map<string, set<string>>, copiedAdded: map<string, string>)
      reads this`changedPaths, this`addedPaths, this`deletedPaths, this`directories
    {
      && changedPaths == c.changed && addedPaths == c.added && deletedPaths == c.deleted
      && directories == c.directories && deletedChildren == c.deletedChildren && copiedAdded == c.copiedAdded
    }

    /** The first loop of the log-entry constructor, over the entry's paths in order. */
    method ClassifyEntries(entries: seq<LogEntryPath>) returns (deletedChildren: map<string, set<string>>, copiedAdded: map<string, string>)
      modifies this
      requires changedPaths == {} && addedPaths == {} && deletedPaths == {} && directories == map[]
      ensures Holds(ClassifyAll(entries, repository, revision), deletedChildren, copiedAdded)
      ensures changes == old(changes)
    {
      deletedChildren, copiedAdded := map[], map[];
      var k := 0;
      while k < |entries|
        invariant 0 <= k <= |entries|
        invariant Holds(ClassifyAll(entries[..k], repository, revision), deletedChildren, copiedAdded)
        invariant changes == old(changes)
      {
        assert entries[..k + 1] == entries[..k] + [entries[k]];
        ClassifyAllSnoc(entries[..k], entries[k], repository, revision);
        var e := entries[k];
        var path := e.path;
        if e.kind == 'A' {
          addedPaths := addedPaths + {path};
          if e.copyPath.Some? {
            copiedAdded := copiedAdded[e.copyPath.value := path];
          }
        } else if e.kind == 'D' {
          var deleted := MarkDeleted(path);
          if deleted.Some? {
            deletedChildren := deletedChildren[path := deleted.value];
          }
        } else {
          changedPaths := changedPaths + {path};
        }
        k := k + 1;
      }
      assert entries[..k] == entries;
    }

    /** The `D` branch of the loop: the path, and every entry it had one revision earlier when it was a directory, are deleted. */
    method MarkDeleted(path: string) returns (children: Option<set<string>>)
      modifies this
      ensures children == Children(repository, path, revision - 1)
      ensures deletedPaths == old(deletedPaths) + {path} + (if children.Some? then ChildPaths(path, children.value) else {})
      ensures var flag := DirectoryFlag(repository, path, revision - 1);
        directories == if flag.Some? then old(directories)[path := flag.value] else old(directories)
      ensures changedPaths == old(changedPaths) && addedPaths == old(addedPaths) && changes == old(changes)
    {
      deletedPaths := deletedPaths + {path};
      children := GetChildren(path, revision - 1);
      if children.Some? {
        var names := children.value;
        while names != {}
          invariant names <= children.value
          invariant deletedPaths == old(deletedPaths) + {path} + ChildPaths(path, children.value - names)
          invariant directories == old(directories[path := DirectoryFlag(repository, path, revision - 1).value])
          invariant changedPaths == old(changedPaths) && addedPaths == old(addedPaths) && changes == old(changes)
          decreases |names|
        {
          var name :| name in names;
          deletedPaths := deletedPaths + {path + "/" + name};
          ChildPathsAdd(path, children.value - names, name);
          assert children.value - (names - {name}) == (children.value - names) + {name};
          names := names - {name};
        }
        assert children.value - names == children.value;
      }
    }

    /** The second loop of the log-entry constructor: the contents of every folder copied from a deleted folder are added and marked as directories. */
    method AddRenamedFolderContents(copiedAdded: map<string, string>, deletedChildren: map<string, set<string>>)
      modifies this`addedPaths, this`directories
      ensures var renamed := RenamedContents(copiedAdded, deletedChildren, copiedAdded.Keys);
        addedPaths == old(addedPaths) + renamed && directories == old(directories) + DirectoryMarks(renamed)
    {
      var sources := copiedAdded.Keys;
      ghost var done: set<string> := {};
      RenamedStart(old(addedPaths), old(directories), copiedAdded, deletedChildren);
      while sources != {}
        invariant done + sources == copiedAdded.Keys
        invariant addedPaths == old(addedPaths) + RenamedContents(copiedAdded, deletedChildren, done)
        invariant directories == old(directories) + DirectoryMarks(RenamedContents(copiedAdded, deletedChildren, done))
        decreases |sources|
      {
        var src :| src in sources;
        RenamedStep(old(addedPaths), old(directories), addedPaths, directories, copiedAdded, deletedChildren, done, src);
        if src in deletedChildren {
          AddFolderContents(copiedAdded[src], deletedChildren[src]);
        }
        sources := sources - {src};
        done := done + {src};
      }
    }

    /** The inner loop over a renamed folder's former children. */
    method AddFolderContents(target: string, names: set<string>)
      modifies this`addedPaths, this`directories
      ensures addedPaths == old(addedPaths) + ChildPaths(target, names)
      ensures directories == old(directories) + DirectoryMarks(ChildPaths(target, names))
    {
      var rest := names;
      ghost var done: set<string> := {};
      while rest != {}
        invariant done + rest == names
        invariant addedPaths == old(addedPaths) + ChildPaths(target, done)
        invariant directories == old(directories) + DirectoryMarks(ChildPaths(target, done))
        decreases |rest|
      {
        var name :| name in rest;
        var path := target + "/" + name;
        ChildPathsAdd(target, done, name);
        DirectoryMarksUnion(old(directories), ChildPaths(target, done), {path});
        DirectoryMarksOne(directories, path);
        addedPaths := addedPaths + {path};
        directories := directories[path := true];
        rest := rest - {name};
        done := done + {name};
      }
    }

    /** Whether `path` is a directory: the recorded flag, else what the repository reports (false on failure). */
    function IsDirectory(path: string, rev: int): bool
      reads this`directories
    {
      if path in directories then directories[path]
      else repository.Some? && repository.value.checkPath(path, rev) == Some(Dir)
    }

    /** `getLocalPath`: the local file of a repository path at a revision. */
    function LocalPath(path: string, rev: int): Option<FilePath>
      reads this`directories
    {
      GetLocalPath(location, repositoryRoot + path, IsDirectory(path, rev), locate)
    }

    /** The content revision of a path at a revision. */
    function RevisionOf(path: string, rev: int): ContentRevision
      reads this`directories
    {
      ContentRevision(repositoryRoot, path, LocalPath(path, rev), rev)
    }

    /** The change `loadChanges` makes for a path of each set. */
    function ChangeFor(kind: PathKind, path: string): (c: Change)
      reads this`directories
      ensures ChangePath(c) == path
      ensures kind == Added <==> c.before.None?
      ensures kind == Deleted <==> c.after.None?
      ensures c.before.Some? ==> c.before.value.revision == revision - 1
      ensures c.after.Some? ==> c.after.value.revision == revision
    {
      match kind
      case Added => Change(None, Some(RevisionOf(path, revision)))
      case Deleted => Change(Some(RevisionOf(path, revision - 1)), None)
      case Changed => Change(Some(RevisionOf(path, revision - 1)), Some(RevisionOf(path, revision)))
    }

    /** `s[lo..hi]` holds one change of `kind` per path of `paths`, and nothing else. */
    ghost predicate ChangesAt(s: seq<Change>, lo: nat, hi: nat, kind: PathKind, paths: set<string>)
      reads this`directories
    {
      && lo <= hi <= |s|
      && hi - lo == |paths|
      && (forall i :: lo <= i < hi ==> s[i] == ChangeFor(kind, ChangePath(s[i])))
      && PathsIn(s, lo, hi) == paths
    }

    /** The change list `loadChanges` builds from the current sets: added, then deleted, then changed. */
    ghost predicate LoadedFrom(s: seq<Change>)
      reads this`addedPaths, this`deletedPaths, this`changedPaths, this`directories
    {
      var a := |addedPaths|;
      var d := |deletedPaths|;
      && |s| == a + d + |changedPaths|
      && ChangesAt(s, 0, a, Added, addedPaths)
      && ChangesAt(s, a, a + d, Deleted, deletedPaths)
      && ChangesAt(s, a + d, |s|, Changed, changedPaths)
    }

    /** What holds of a list holds of any list it is a prefix of. */
    lemma ChangesAtPrefix(x: seq<Change>, y: seq<Change>, lo: nat, hi: nat, kind: PathKind, paths: set<string>)
      requires ChangesAt(x, lo, hi, kind, paths)
      requires |x| <= |y| && y[..|x|] == x
      ensures ChangesAt(y, lo, hi, kind, paths)
    {
      assert forall i :: 0 <= i < |x| ==> y[i] == x[i];
      PathsInPrefix(x, y, lo, hi);
    }

    /** An empty range lists no paths. */
    lemma ChangesAtEmpty(r: seq<Change>, kind: PathKind)
      ensures ChangesAt(r, |r|, |r|, kind, {})
    {
      assert PathsIn(r, |r|, |r|) == {};
    }

    /** One more change, for a path not yet listed, extends a well-formed range by that path. */
    lemma ChangesAtSnoc(r: seq<Change>, lo: nat, kind: PathKind, done: set<string>, p: string)
      requires ChangesAt(r, lo, |r|, kind, done) && p !in done
      ensures ChangesAt(r + [ChangeFor(kind, p)], lo, |r| + 1, kind, done + {p})
    {
      PathsInSnoc(r, lo, ChangeFor(kind, p));
      var u := r + [ChangeFor(kind, p)];
      assert forall i :: lo <= i < |r| ==> u[i] == r[i];
    }

    /** One `for` loop of `loadChanges`: appends one change per path, in the set's iteration order. */
    method AppendChanges(acc: seq<Change>, kind: PathKind, paths: set<string>) returns (r: seq<Change>)
      ensures |r| == |acc| + |paths|
      ensures r[..|acc|] == acc
      ensures ChangesAt(r, |acc|, |r|, kind, paths)
    {
      r := acc;
      var remaining := paths;
      ghost var done: set<string> := {};
      ChangesAtEmpty(r, kind);
      while remaining != {}
        invariant done + remaining == paths && done !! remaining
        invariant acc <= r
        invariant ChangesAt(r, |acc|, |r|, kind, done)
        decreases |remaining|
      {
        var p :| p in remaining;
        ChangesAtSnoc(r, |acc|, kind, done, p);
        r := r + [ChangeFor(kind, p)];
        remaining := remaining - {p};
        done := done + {p};
      }
    }

    /** `loadChanges`: one change per added, deleted and changed path, in that order. */
    method LoadChanges()
      modifies this`changes
      ensures changes.Some? && LoadedFrom(changes.value)
    {
      var s := AppendChanges([], Added, addedPaths);
      var s1 := AppendChanges(s, Deleted, deletedPaths);
      var s2 := AppendChanges(s1, Changed, changedPaths);
      assert s2[..|s|] == s by {
        assert s2[..|s|] == s2[..|s1|][..|s|];
      }
      ChangesAtPrefix(s, s2, 0, |s|, Added, addedPaths);
      ChangesAtPrefix(s1, s2, |s|, |s1|, Deleted, deletedPaths);
      changes := Some(s2);
    }

    /** `getChanges`: loads the change list on first use, then keeps it. */
    method GetChanges() returns (r: seq<Change>)
      modifies this
      ensures old(changes).Some? ==> r == old(changes).value && changes == old(changes)
      ensures old(changes).None? ==> LoadedFrom(r)
      ensures changes == Some(r)
      ensures changedPaths == old(changedPaths) && addedPaths == old(addedPaths) && deletedPaths == old(deletedPaths)
      ensures directories == old(directories)
    {
      if changes.None? {
        LoadChanges();
      }
      r := changes.value;
    }

    /** `equals`: the same object, or a change list with the same revision, author, date and message. */
    function Equals(that: SvnChangeList?): (r: bool)
      ensures r <==> that != null && revision == that.revision && author == that.author
                     && date == that.date && message == that.message
    {
      this == that
      || (that != null && revision == that.revision && author == that.author && date == that.date && message == that.message)
    }

    /** `hashCode`, from the four fields `equals` compares. */
    function HashCode(): (h: int)
      ensures 0 <= h < TwoTo32
    {
      HashOf(revision, author, date, message)
    }

    /** The fields the cache stream carries, with the message as it is. */
    function Snapshot(): Stored
      reads this
    {
      Stored(repositoryRoot, revision, author, date, message, changedPaths, addedPaths, deletedPaths)
    }

    /**
     * `writeToStream`: the header values, the message truncated to `limit` characters, then the
     * three listings; `writeUTF` throws `UTFDataFormatException` for a root, author or path too
     * long to encode.
     */
    method WriteToStream(limit: nat) returns (r: Result<seq<Token>, string>)
      ensures r.Ok? <==> Writable(repositoryRoot) && Writable(author)
                         && AllWritable(changedPaths) && AllWritable(addedPaths) && AllWritable(deletedPaths)
      ensures r.Ok? ==> Encodes(r.value, Snapshot().(message := Truncate(message, limit)))
      ensures r.Err? ==> r.error == "UTFDataFormatException"
    {
      if !Writable(repositoryRoot) || !Writable(author) {
        return Err("UTFDataFormatException");
      }
      var header := [Utf(repositoryRoot), Long(revision), Utf(author), Long(date), Utf(Truncate(message, limit))];
      var changedOut := WriteFiles(changedPaths);
      if changedOut.Err? {
        return changedOut;
      }
      var addedOut := WriteFiles(addedPaths);
      if addedOut.Err? {
        return addedOut;
      }
      var deletedOut := WriteFiles(deletedPaths);
      if deletedOut.Err? {
        return deletedOut;
      }
      var out := header + changedOut.value + addedOut.value + deletedOut.value;
      EncodesFromParts(header, changedOut.value, addedOut.value, deletedOut.value, Snapshot().(message := Truncate(message, limit)));
      return Ok(out);
    }
  }

  /** One more string token adds its text. */
  lemma {:induction false} TextsSnoc(t: seq<Token>, start: nat, n: nat, x: string)
    requires start + n <= |t|
    ensures Texts(t + [Utf(x)], start, n) == Texts(t, start, n)
    ensures start + n == |t| ==> Texts(t + [Utf(x)], start, n + 1) == Texts(t, start, n) + {x}
  {
    if n > 0 {
      TextsSnoc(t, start, n - 1, x);
      assert (t + [Utf(x)])[start + n - 1] == t[start + n - 1];
    }
    if start + n == |t| {
      assert (t + [Utf(x)])[start + n] == Utf(x);
    }
  }

  /** `out` is a count token followed by one string token per member of `done`. */
  ghost predicate WrittenSoFar(out: seq<Token>, count: int, done: set<string>) {
    && |out| == 1 + |done|
    && out[0] == Int(count)
    && (forall i :: 0 < i < |out| ==> out[i].Utf?)
    && Texts(out, 1, |done|) == done
  }

  /** Writing one more member, not yet written, keeps the listing. */
  lemma WrittenSoFarStep(out: seq<Token>, count: int, done: set<string>, p: string)
    requires WrittenSoFar(out, count, done) && p !in done
    ensures WrittenSoFar(out + [Utf(p)], count, done + {p})
  {
    TextsSnoc(out, 1, |done|, p);
  }

  /**
   * `writeFiles`: the size of the set, then each member, in the set's iteration order; the
   * first member too long for `writeUTF` ends the write with `UTFDataFormatException`.
   */
  method WriteFiles(paths: set<string>) returns (r: Result<seq<Token>, string>)
    ensures r.Ok? <==> AllWritable(paths)
    ensures r.Ok? ==> |r.value| == |paths| + 1 && ListingAt(r.value, 0, paths)
    ensures r.Err? ==> r.error == "UTFDataFormatException"
  {
    var out := [Int(|paths|)];
    var remaining := paths;
    ghost var done: set<string> := {};
    assert Texts(out, 1, 0) == {};
    while remaining != {}
      invariant done + remaining == paths && done !! remaining
      invariant AllWritable(done)
      invariant WrittenSoFar(out, |paths|, done)
      decreases |remaining|
    {
      var p :| p in remaining;
      if !Writable(p) {
        return Err("UTFDataFormatException");
      }
      WrittenSoFarStep(out, |paths|, done, p);
      out := out + [Utf(p)];
      remaining := remaining - {p};
      done := done + {p};
    }
    return Ok(out);
  }

  /** `readFiles`: reads a count, then that many strings into a set. */
  method ReadFiles(t: seq<Token>, pos: nat) returns (r: Option<(set<string>, nat)>)
    ensures r == ParseFiles(t, pos)
  {
    if pos >= |t| || !t[pos].Int? {
      return None;
    }
    var count := t[pos].int32;
    var n: nat := if count <= 0 then 0 else count;
    var paths: set<string> := {};
    var i := 0;
    while i < n
      invariant 0 <= i <= n
      invariant ReadStrings(t, pos + 1, i) == Some(paths)
    {
      var at := pos + 1 + i;
      if at >= |t| || !t[at].Utf? {
        ReadStringsFailurePersists(t, pos + 1, i + 1, n);
        return None;
      }
      paths := paths + {t[at].text};
      i := i + 1;
    }
    return Some((paths, pos + 1 + n));
  }

  /** Once a string is missing, reading more of them fails too. */
  lemma {:induction false} ReadStringsFailurePersists(t: seq<Token>, start: nat, m: nat, n: nat)
    requires m <= n
    requires ReadStrings(t, start, m).None?
    ensures ReadStrings(t, start, n).None?
    decreases n - m
  {
    if m < n {
      ReadStringsFailurePersists(t, start, m + 1, n);
    }
  }

  /**
   * The stream constructor: `readFromStream` reads the fields in the order they were
   * written, and an `IOException` ends construction.
   */
  method ReadFromStream(location: SvnRepositoryLocation, t: seq<Token>, repository: Option<Repository>, locate: Locator<bool>)
    returns (r: Result<SvnChangeList, string>)
    ensures r.Ok? <==> Parse(t).Some?
    ensures r.Ok? ==> fresh(r.value) && r.value.Snapshot() == Parse(t).value && r.value.location == location
    ensures r.Ok? ==> r.value.directories == map[] && r.value.changes.Some? && r.value.LoadedFrom(r.value.changes.value)
  {
    if |t| < 5 || !t[0].Utf? || !t[1].Long? || !t[2].Utf? || !t[3].Long? || !t[4].Utf? {
      return Err("IOException");
    }
    var changed := ReadFiles(t, 5);
    if changed.None? {
      return Err("IOException");
    }
    var added := ReadFiles(t, changed.value.1);
    if added.None? {
      return Err("IOException");
    }
    var deleted := ReadFiles(t, added.value.1);
    if deleted.None? {
      return Err("IOException");
    }
    var s := Stored(t[0].text, t[1].long, t[2].text, t[3].long, t[4].text, changed.value.0, added.value.0, deleted.value.0);
    var list := new SvnChangeList.Restored(location, s, repository, locate);
    return Ok(list);
  }

  /** `equals` is an equivalence, and equal change lists have equal hash codes. */
  lemma EqualsIsEquivalence(a: SvnChangeList, b: SvnChangeList, c: SvnChangeList)
    ensures a.Equals(a)
    ensures a.Equals(b) ==> b.Equals(a)
    ensures a.Equals(b) && b.Equals(c) ==> a.Equals(c)
    ensures a.Equals(b) ==> a.HashCode() == b.HashCode()
    ensures !a.Equals(null)
  {
  }

  /** A change list written and read back equals the original and carries the same path sets; the message survives when it fits the limit. */
  lemma StreamRoundTrip(list: SvnChangeList, t: seq<Token>, limit: nat)
    requires Encodes(t, list.Snapshot().(message := Truncate(list.message, limit)))
    ensures Parse(t).Some?
    ensures var s := Parse(t).value;
      && s.repositoryRoot == list.repositoryRoot && s.revision == list.revision && s.author == list.author
      && s.date == list.date && s.changed == list.changedPaths && s.added == list.addedPaths
      && s.deleted == list.deletedPaths
      && (s.message == list.message <==> |list.message| <= limit)
  {
    ReadWhatWasWritten(t, list.Snapshot().(message := Truncate(list.message, limit)));
  }
}
