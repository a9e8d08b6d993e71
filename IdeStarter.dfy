/**
 * The description of an IDE build used by the IDE starter test tooling: which product
 * it is, and how its installer file is named on each operating system.
 */
module IdeStarter {
  import opened Wrappers

  /** `IdeInfo`: a product code, launcher details, the CI build type, the build number and an optional tag. */
  datatype IdeInfo = IdeInfo(
    productCode: string,
    platformPrefix: string,
    executableFileName: string,
    buildType: string,
    buildNumber: string,
    tag: Option<string>)

  /** What the host operating system reports about itself; the flags are tested in this order. */
  datatype HostSystem = HostSystem(isWindows: bool, isLinux: bool, isMac: bool, osArch: Option<string>)

  /** `Char.isWhitespace` on the JVM: Java whitespace or a Unicode space separator. */
  predicate IsWhitespace(c: char) {
    c == ' ' || c == '\t' || c == '\n' || c == '\r' || c == '\U{B}' || c == '\U{C}'
    || ('\U{1C}' <= c <= '\U{1F}') || c == '\U{A0}' || c == '\U{1680}'
    || ('\U{2000}' <= c <= '\U{200A}') || c == '\U{2028}' || c == '\U{2029}'
    || c == '\U{202F}' || c == '\U{205F}' || c == '\U{3000}'
  }

  /** `isNullOrBlank`: absent, or made only of whitespace. */
  predicate IsNullOrBlank(s: Option<string>) {
    s.None? || forall i :: 0 <= i < |s.value| ==> IsWhitespace(s.value[i])
  }

  /**
   * `IdeInfo.new`: keeps the CI build type only when it is present and not blank, and
   * stores the empty string otherwise; no tag.
   */
  function New(productCode: string, platformPrefix: string, executableFileName: string,
               jetBrainsCIBuildType: Option<string> := None, buildNumber: string := ""): (r: IdeInfo)
    ensures r.productCode == productCode && r.platformPrefix == platformPrefix
    ensures r.executableFileName == executableFileName && r.buildNumber == buildNumber
    ensures r.tag.None?
    ensures !IsNullOrBlank(jetBrainsCIBuildType) ==> r.buildType == jetBrainsCIBuildType.value
    ensures IsNullOrBlank(jetBrainsCIBuildType) ==> r.buildType == ""
    ensures r.buildType == "" || !IsNullOrBlank(Some(r.buildType))
  {
    IdeInfo(productCode, platformPrefix, executableFileName,
            if !IsNullOrBlank(jetBrainsCIBuildType) then jetBrainsCIBuildType.value else "",
            buildNumber, None)
  }

  /** The product codes the starter knows. */
  const KnownProductCodes: set<string> := {"IU", "IC", "WS", "PS", "DB", "GO", "RM", "PY"}

  /** `installerFilePrefix`: the leading part of the installer file name; unknown codes are an error. */
  function InstallerFilePrefix(info: IdeInfo): (r: Result<string, string>)
    ensures r.Ok? <==> info.productCode in KnownProductCodes
    ensures r.Err? ==> r.error == "Unknown product code: " + info.productCode
  {
    match info.productCode
    case "IU" => Ok("ideaIU")
    case "IC" => Ok("ideaIC")
    case "WS" => Ok("WebStorm")
    case "PS" => Ok("PhpStorm")
    case "DB" => Ok("datagrip")
    case "GO" => Ok("goland")
    case "RM" => Ok("RubyMine")
    case "PY" => Ok("pycharmPY")
    case _ => Err("Unknown product code: " + info.productCode)
  }

  /** `installerProductName`: four products have a name of their own, the others use the file prefix. */
  function InstallerProductName(info: IdeInfo): (r: Result<string, string>)
    ensures r.Ok? <==> info.productCode in KnownProductCodes
    ensures info.productCode !in {"IU", "IC", "RM", "PY"} ==> r == InstallerFilePrefix(info)
  {
    match info.productCode
    case "IU" => Ok("intellij")
    case "IC" => Ok("intellij.ce")
    case "RM" => Ok("rubymine")
    case "PY" => Ok("pycharm")
    case _ => InstallerFilePrefix(info)
  }

  /** Distinct known products have distinct installer file prefixes and distinct product names. */
  lemma InstallerNamesDistinct(a: IdeInfo, b: IdeInfo)
    requires a.productCode in KnownProductCodes && b.productCode in KnownProductCodes
    requires a.productCode != b.productCode
    ensures InstallerFilePrefix(a) != InstallerFilePrefix(b)
    ensures InstallerProductName(a) != InstallerProductName(b)
  {
  }

  /** `installerFileExt`: the archive extension of the host; a Mac of an unknown architecture and an unknown system are errors. */
  function InstallerFileExt(host: HostSystem): (r: Result<string, string>)
    ensures r.Ok? <==> host.isWindows || host.isLinux || (host.isMac && host.osArch in {Some("x86_64"), Some("aarch64")})
    ensures r.Ok? ==> r.value in {".win.zip", ".tar.gz", ".dmg", "-aarch64.dmg"}
    ensures r == Err("Unknown architecture of Mac OS") <==> !host.isWindows && !host.isLinux && host.isMac && host.osArch !in {Some("x86_64"), Some("aarch64")}
    ensures r == Err("Unknown OS") <==> !host.isWindows && !host.isLinux && !host.isMac
  {
    if host.isWindows then Ok(".win.zip")
    else if host.isLinux then Ok(".tar.gz")
    else if host.isMac then
      if host.osArch == Some("x86_64") then Ok(".dmg")
      else if host.osArch == Some("aarch64") then Ok("-aarch64.dmg")
      else Err("Unknown architecture of Mac OS")
    else Err("Unknown OS")
  }

  /** Windows wins over every other flag, and Linux over Mac: the extension depends only on the first flag that is set. */
  lemma InstallerFileExtPrecedence(host: HostSystem)
    ensures host.isWindows ==> InstallerFileExt(host) == Ok(".win.zip")
    ensures !host.isWindows && host.isLinux ==> InstallerFileExt(host) == Ok(".tar.gz")
    ensures InstallerFileExt(host).Ok? && EndsWith(InstallerFileExt(host).value, ".dmg") ==> host.isMac && !host.isWindows && !host.isLinux
  {
  }
}
