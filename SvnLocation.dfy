/**
 * The location of a Subversion repository as the history browser sees it: a URL and,
 * optionally, the local file that is the root of its working copy.
 */
module SvnLocation {
  import opened Wrappers

  /** A local file path; only its presentable URL matters here. */
  datatype FilePath = FilePath(presentableUrl: string)

  /**
   * `LocationDetector.filePathByUrlAndPath` is not part of this model: it maps a full
   * repository path, the location URL, the root's presentable URL and a directory
   * detector to a local path (or none).
   */
  type Locator<!D> = (string, string, string, D) -> Option<FilePath>

  /** `SvnRepositoryLocation`: an optional working-copy root and a URL. */
  datatype SvnRepositoryLocation = SvnRepositoryLocation(rootFile: Option<FilePath>, url: string)

  /** The two-argument constructor (a `null` root is allowed). */
  function WithRoot(rootFile: Option<FilePath>, url: string): (l: SvnRepositoryLocation)
    ensures GetRootFile(l) == rootFile && GetUrl(l) == url
  {
    SvnRepositoryLocation(rootFile, url)
  }

  /** The one-argument constructor: no working-copy root. */
  function WithoutRoot(url: string): (l: SvnRepositoryLocation)
    ensures GetRootFile(l).None? && GetUrl(l) == url
  {
    SvnRepositoryLocation(None, url)
  }

  /** `getRootFile`: the working-copy root the location was built with, if any. */
  function GetRootFile(l: SvnRepositoryLocation): (r: Option<FilePath>)
    ensures r == l.rootFile
  {
    l.rootFile
  }

  /** `getURL`: the repository URL the location was built with. */
  function GetUrl(l: SvnRepositoryLocation): (u: string)
    ensures u == l.url
  {
    l.url
  }

  /** `toString`: the location's URL. */
  function ToString(l: SvnRepositoryLocation): (s: string)
    ensures s == GetUrl(l)
  {
    l.url
  }

  /** `toPresentableString`: the location's URL, the same text as `toString`. */
  function ToPresentableString(l: SvnRepositoryLocation): (s: string)
    ensures s == GetUrl(l) && s == ToString(l)
  {
    l.url
  }

  /** `detectWhenNoRoot`: the base location finds nothing without a root. */
  function DetectWhenNoRoot<D>(fullPath: string, detector: D): Option<FilePath> {
    None
  }

  /**
   * `getLocalPath`: without a root, whatever `detectWhenNoRoot` finds; with a root, the
   * locator's answer for a full path under the URL, and nothing for any other path.
   */
  function GetLocalPath<D>(l: SvnRepositoryLocation, fullPath: string, detector: D, locate: Locator<D>): (r: Option<FilePath>)
    ensures l.rootFile.None? ==> r.None?
    ensures !StartsWith(fullPath, l.url) ==> r.None?
    ensures l.rootFile.Some? && StartsWith(fullPath, l.url) ==>
              r == locate(fullPath, l.url, l.rootFile.value.presentableUrl, detector)
  {
    if l.rootFile.None? then DetectWhenNoRoot(fullPath, detector)
    else if StartsWith(fullPath, l.url) then locate(fullPath, l.url, l.rootFile.value.presentableUrl, detector)
    else None
  }

  /**
   * The detector and the locator are consulted only when there is a root and the full
   * path lies under the URL: otherwise any two detectors and locators give the same answer.
   */
  lemma LocatorConsultedOnlyUnderUrl<D>(l: SvnRepositoryLocation, fullPath: string,
                                        d1: D, d2: D, locate1: Locator<D>, locate2: Locator<D>)
    requires l.rootFile.None? || !StartsWith(fullPath, l.url)
    ensures GetLocalPath(l, fullPath, d1, locate1) == GetLocalPath(l, fullPath, d2, locate2)
  {
  }

  /** A path found below a location lies under its URL, and that location has a root. */
  lemma LocalPathFoundUnderUrl<D>(l: SvnRepositoryLocation, fullPath: string, d: D, locate: Locator<D>)
    requires GetLocalPath(l, fullPath, d, locate).Some?
    ensures l.rootFile.Some? && StartsWith(fullPath, l.url)
    ensures |l.url| <= |fullPath| && fullPath[..|l.url|] == l.url
  {
  }
}
