/**
 * JPS path and URL rendering of the Kotlin project-model updater: a path is a macro
 * root (`$PROJECT_DIR$` or `$MAVEN_REPOSITORY$`) followed by a relative path, and a URL
 * is a `file://` or `jar://` form of such a path.
 */
module JpsPaths {
  import opened Wrappers

  const ProjectDirRoot := "$PROJECT_DIR$"
  const MavenRepositoryRoot := "$MAVEN_REPOSITORY$"
  const CommunityPrefix := "community/"

  /**
   * `JpsPath`: a directory of the project, or a jar in the local Maven repository.
   * The jar's repository-relative path is computed from a Maven id by code that is not
   * part of this model, so it is given here as a string.
   */
  datatype JpsPath =
    | ProjectDir(givenPath: string, isCommunity: bool)
    | MavenRepository(jarPath: string)

  /** `JpsUrl`: a plain file URL, or a URL into a jar with the path of an entry inside it. */
  datatype JpsUrl =
    | File(path: JpsPath)
    | Jar(path: JpsPath, pathInsideJar: string)

  /** The macro a path is rooted at. */
  function Root(p: JpsPath): string {
    match p
    case ProjectDir(_, _) => ProjectDirRoot
    case MavenRepository(_) => MavenRepositoryRoot
  }

  /** The path below the root; a project directory outside the community part, and not above the project, lives under `community/`. */
  function RelativePath(p: JpsPath): string {
    match p
    case ProjectDir(path, isCommunity) =>
      if isCommunity || StartsWith(path, "..") then path else CommunityPrefix + path
    case MavenRepository(jarPath) => jarPath
  }

  /** `toString`: root, slash, relative path. */
  function Render(p: JpsPath): string {
    Root(p) + "/" + RelativePath(p)
  }

  /** `JpsUrl.url`. */
  function Url(u: JpsUrl): string {
    match u
    case File(path) => "file://" + Render(path)
    case Jar(path, pathInsideJar) => "jar://" + Render(path) + "!/" + pathInsideJar
  }

  /** A jar URL with the default (empty) path inside the jar. */
  function JarOf(p: JpsPath): JpsUrl {
    Jar(p, "")
  }

  /** Position of the first slash in `s`, or `|s|` when there is none. */
  function IndexOfSlash(s: string): (i: nat)
    ensures i <= |s|
    ensures i < |s| ==> s[i] == '/'
    ensures forall j :: 0 <= j < i ==> s[j] != '/'
  {
    if s == [] then 0
    else if s[0] == '/' then 0
    else 1 + IndexOfSlash(s[1..])
  }

  /** Splits a rendered path into its root and its relative path at the first slash. */
  function SplitRendered(s: string): Option<(string, string)> {
    var i := IndexOfSlash(s);
    if i == |s| then None else Some((s[..i], s[i + 1..]))
  }

  /** A project path given to `ProjectDir`, recovered from its relative path. */
  function GivenPathOf(relative: string, isCommunity: bool): string {
    if isCommunity || StartsWith(relative, "..") || !StartsWith(relative, CommunityPrefix) then relative
    else relative[|CommunityPrefix|..]
  }

  /**
   * The relative path of a project directory is the given path when the directory is in
   * the community part or starts with `..`, and `community/` + the given path otherwise;
   * either way the given path can be read back from it.
   */
  lemma ProjectDirRelativePath(path: string, isCommunity: bool)
    ensures var r := RelativePath(ProjectDir(path, isCommunity));
      && (isCommunity || StartsWith(path, "..") ==> r == path)
      && (!isCommunity && !StartsWith(path, "..") ==> r == CommunityPrefix + path)
      && EndsWith(r, path)
      && GivenPathOf(r, isCommunity) == path
  {
    var r := RelativePath(ProjectDir(path, isCommunity));
    if !isCommunity && !StartsWith(path, "..") {
      assert r[..|CommunityPrefix|] == CommunityPrefix;
      assert r[..2] == "co";
      assert r[|CommunityPrefix|..] == path;
    }
  }

  /** Neither root contains a slash. */
  lemma RootHasNoSlash(p: JpsPath)
    ensures forall j :: 0 <= j < |Root(p)| ==> Root(p)[j] != '/'
  {
  }

  /** A rendered path splits back into its root and its relative path. */
  lemma RenderRoundTrip(p: JpsPath)
    ensures SplitRendered(Render(p)) == Some((Root(p), RelativePath(p)))
  {
    var s := Render(p);
    var root := Root(p);
    RootHasNoSlash(p);
    assert s[|root|] == '/';
    assert forall j :: 0 <= j < |root| ==> s[j] == root[j];
    assert IndexOfSlash(s) == |root|;
    assert s[..|root|] == root;
    assert s[|root| + 1..] == RelativePath(p);
  }

  /** Two project directories of the same part render equally only when their given paths are equal. */
  lemma ProjectDirRenderInjective(a: string, b: string, isCommunity: bool)
    requires Render(ProjectDir(a, isCommunity)) == Render(ProjectDir(b, isCommunity))
    ensures a == b
  {
    RenderRoundTrip(ProjectDir(a, isCommunity));
    RenderRoundTrip(ProjectDir(b, isCommunity));
    ProjectDirRelativePath(a, isCommunity);
    ProjectDirRelativePath(b, isCommunity);
  }

  /** A file URL is `file://` followed by the rendered path. */
  lemma FileUrlShape(p: JpsPath)
    ensures var f := Url(File(p)); StartsWith(f, "file://") && f[7..] == Render(p)
  {
    var f := Url(File(p));
    assert f[..7] == "file://";
  }

  /** A jar URL is `jar://`, the rendered path, `!/` and the path inside the jar; by default it ends with `!/`. */
  lemma JarUrlShape(p: JpsPath, inside: string)
    ensures var j := Url(Jar(p, inside));
      StartsWith(j, "jar://") && j[6..6 + |Render(p)|] == Render(p) && EndsWith(j, "!/" + inside)
    ensures EndsWith(Url(JarOf(p)), "!/")
  {
    var r := Render(p);
    var j := Url(Jar(p, inside));
    assert j == "jar://" + r + ("!/" + inside);
    assert j[..6] == "jar://";
    assert j[6..6 + |r|] == r;
    assert j[|j| - |"!/" + inside|..] == "!/" + inside;
    var d := Url(JarOf(p));
    assert d[|d| - 2..] == "!/";
  }

  /** A file URL and a jar URL never coincide. */
  lemma FileAndJarUrlsDiffer(p: JpsPath, q: JpsPath, inside: string)
    ensures Url(File(p)) != Url(Jar(q, inside))
  {
    assert Url(File(p))[0] == 'f';
    assert Url(Jar(q, inside))[0] == 'j';
  }

  /** Two file URLs are equal only when their paths render equally. */
  lemma FileUrlInjective(p: JpsPath, q: JpsPath)
    requires Url(File(p)) == Url(File(q))
    ensures Render(p) == Render(q)
  {
    FileUrlShape(p);
    FileUrlShape(q);
  }
}
