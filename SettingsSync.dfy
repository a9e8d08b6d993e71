/**
 * The settings-sync client's bookkeeping of the snapshot file's version on the cloud config
 * server: a per-call header context that carries the version to and from the server, the
 * version remembered from the last call, and the decisions taken from the server's answers.
 */
module SettingsSync {
  import opened Wrappers

  const SnapshotName: string := "settings.sync.snapshot"
  /** The one path this client reads and writes on the server. */
  const SnapshotPath: string := SnapshotName + ".zip"

  const DefaultProductionUrl: string := "https://cloudconfig.jetbrains.com/cloudconfig"
  const DefaultDebugUrl: string := "https://stgn.cloudconfig.jetbrains.com/cloudconfig"
  const UrlProperty: string := "idea.settings.sync.cloud.url"

  const DefaultErrorMessage: string := "Error during communication with server"

  /** What a server call can throw: an I/O error (possibly "file not found"), with or without a message, or anything else. */
  datatype Failure =
    | IOError(message: Option<string>, fileNotFound: bool)
    | OtherError

  /** `ServerState`. */
  datatype ServerState = FileNotExists | UpToDate | UpdateNeeded | Error(message: string)

  /**
   * A server call: it sees the header context (path to version) and answers with its
   * outcome and the header context it leaves behind.
   */
  type ServerCall<T> = map<string, string> -> (Result<T, Failure>, map<string, string>)

  /** `url`: the explicit property when set, else the debug URL when running from sources, else the production URL. */
  function Url(explicitUrl: Option<string>, runningFromSources: bool): (r: string)
    ensures explicitUrl.Some? ==> r == explicitUrl.value
    ensures explicitUrl.None? && runningFromSources ==> r == DefaultDebugUrl
    ensures explicitUrl.None? && !runningFromSources ==> r == DefaultProductionUrl
  {
    if explicitUrl.Some? then explicitUrl.value
    else if runningFromSources then DefaultDebugUrl
    else DefaultProductionUrl
  }

  /** `handleRemoteError`: an I/O error's message, or the default text when it has none; the default text for anything else. */
  function HandleRemoteError(e: Failure): (r: string)
    ensures e.IOError? && e.message.Some? ==> r == e.message.value
    ensures e.IOError? && e.message.None? ==> r == DefaultErrorMessage
    ensures e.OtherError? ==> r == DefaultErrorMessage
  {
    if e.IOError? then e.message.GetOr(DefaultErrorMessage) else DefaultErrorMessage
  }

  /** The header context the server call sees: the given version, when there is one, stored for the snapshot path. */
  function ContextForCall(context: map<string, string>, version: Option<string>): (r: map<string, string>)
    ensures version.Some? ==> SnapshotPath in r && r[SnapshotPath] == version.value
    ensures version.None? ==> r == context
    ensures forall p :: p != SnapshotPath ==> (p in r <==> p in context) && (p in r ==> r[p] == context[p])
  {
    if version.Some? then context[SnapshotPath := version.value] else context
  }

  /**
   * The remembered versions after `doWithVersion`: only the snapshot path can change, and
   * only when the call returned and left a version in the context, which becomes the
   * remembered one; a failed call changes nothing.
   */
  function RememberedAfter<T>(current: map<string, string>, context: map<string, string>, version: Option<string>,
                              call: ServerCall<T>): (r: map<string, string>)
    ensures forall p :: p != SnapshotPath ==> (p in r <==> p in current) && (p in r ==> r[p] == current[p])
    ensures var (outcome, after) := call(ContextForCall(context, version));
      (outcome.Err? || SnapshotPath !in after ==> r == current) &&
      (outcome.Ok? && SnapshotPath in after ==> SnapshotPath in r && r[SnapshotPath] == after[SnapshotPath])
  {
    var (outcome, after) := call(ContextForCall(context, version));
    if outcome.Ok? && SnapshotPath in after then current[SnapshotPath := after[SnapshotPath]] else current
  }

  /** A version given to a call that the server leaves in place becomes the remembered version when the call returns. */
  lemma GivenVersionRemembered<T>(current: map<string, string>, context: map<string, string>, v: string, call: ServerCall<T>)
    requires call(ContextForCall(context, Some(v))).0.Ok?
    requires call(ContextForCall(context, Some(v))).1 == ContextForCall(context, Some(v))
    ensures var r := RememberedAfter(current, context, Some(v), call);
      SnapshotPath in r && r[SnapshotPath] == v
  {
  }

  /** `CloudConfigServerCommunicator` with its `VersionContext`. */
  class Communicator {
    /** The version of each file as of the last call that reported one. */
    var currentVersionOfFiles: map<string, string>
    /** `VersionContext.contextVersionMap`: the headers of the call in progress. */
    var contextVersionMap: map<string, string>

    constructor()
      ensures currentVersionOfFiles == map[] && contextVersionMap == map[]
    {
      currentVersionOfFiles := map[];
      contextVersionMap := map[];
    }

    /** `VersionContext.get`. */
    function Get(path: string): (r: Option<string>)
      reads this`contextVersionMap
      ensures r.Some? <==> path in contextVersionMap
      ensures r.Some? ==> r.value == contextVersionMap[path]
    {
      if path in contextVersionMap then Some(contextVersionMap[path]) else None
    }

    /** `VersionContext.store`. */
    method Store(path: string, value: string)
      modifies this`contextVersionMap
      ensures contextVersionMap == old(contextVersionMap)[path := value]
    {
      contextVersionMap := contextVersionMap[path := value];
    }

    /** `VersionContext.remove`. */
    method Remove(path: string)
      modifies this`contextVersionMap
      ensures contextVersionMap == old(contextVersionMap) - {path}
    {
      contextVersionMap := contextVersionMap - {path};
    }

    /** The version remembered for the snapshot, if any. */
    function Remembered(): (r: Option<string>)
      reads this`currentVersionOfFiles
      ensures r.Some? <==> SnapshotPath in currentVersionOfFiles
      ensures r.Some? ==> r.value == currentVersionOfFiles[SnapshotPath]
    {
      if SnapshotPath in currentVersionOfFiles then Some(currentVersionOfFiles[SnapshotPath]) else None
    }

    /**
     * `VersionContext.doWithVersion`: runs the call with the given version in the context;
     * when the call returns, the version the context then holds (if any) becomes the
     * remembered one; whether the call returned or failed, the context ends empty.
     */
    method DoWithVersion<T>(version: Option<string>, call: ServerCall<T>) returns (r: Result<T, Failure>)
      modifies this`contextVersionMap, this`currentVersionOfFiles
      ensures r == call(ContextForCall(old(contextVersionMap), version)).0
      ensures contextVersionMap == map[]
      ensures currentVersionOfFiles == RememberedAfter(old(currentVersionOfFiles), old(contextVersionMap), version, call)
    {
      if version.Some? {
        Store(SnapshotPath, version.value);
      }
      var (outcome, after) := call(contextVersionMap);
      contextVersionMap := after;
      if outcome.Err? {
        contextVersionMap := map[];
        return outcome;
      }
      var actualVersion := Get(SnapshotPath);
      if actualVersion.Some? {
        currentVersionOfFiles := currentVersionOfFiles[SnapshotPath := actualVersion.value];
      }
      contextVersionMap := map[];
      return outcome;
    }

    /**
     * `getCurrentVersion`, given what asking the server for its latest version would give:
     * the remembered version if any, else the server's latest; "file not found" counts as no
     * version and any other failure propagates.
     */
    function GetCurrentVersion(latest: Result<Option<string>, Failure>): (r: Result<Option<string>, Failure>)
      reads this`currentVersionOfFiles
      ensures Remembered().Some? ==> r == Ok(Remembered())
      ensures Remembered().None? && latest.Ok? ==> r == latest
      ensures Remembered().None? && latest.Err? && latest.error.IOError? && latest.error.fileNotFound ==> r == Ok(None)
      ensures Remembered().None? && latest.Err? && !(latest.error.IOError? && latest.error.fileNotFound) ==> r == latest
    {
      if SnapshotPath in currentVersionOfFiles then Ok(Some(currentVersionOfFiles[SnapshotPath]))
      else if latest.Err? then
        if latest.error.IOError? && latest.error.fileNotFound then Ok(None) else Err(latest.error)
      else latest
    }

    /**
     * `checkServerState`, given the server's answer: no file, the remembered version, a
     * different version, or a failure reported through `handleRemoteError`.
     */
    function CheckServerState(latest: Result<Option<string>, Failure>): (s: ServerState)
      reads this`currentVersionOfFiles
      ensures s == FileNotExists <==> latest == Ok(None)
      ensures s == UpToDate <==> latest.Ok? && latest.value.Some? && latest.value == Remembered()
      ensures s == UpdateNeeded <==> latest.Ok? && latest.value.Some? && latest.value != Remembered()
      ensures latest.Err? ==> s == Error(HandleRemoteError(latest.error))
    {
      match latest
      case Err(e) => Error(HandleRemoteError(e))
      case Ok(None) => FileNotExists
      case Ok(Some(v)) => if SnapshotPath in currentVersionOfFiles && currentVersionOfFiles[SnapshotPath] == v then UpToDate else UpdateNeeded
    }

    /** When the server is up to date, the version a write would send is the server's own. */
    lemma UpToDateSendsServerVersion(latest: Result<Option<string>, Failure>)
      requires CheckServerState(latest) == UpToDate
      ensures GetCurrentVersion(latest) == latest
      ensures GetCurrentVersion(latest).Ok? && GetCurrentVersion(latest).value.Some?
    {
    }

    /** With nothing remembered, every existing file on the server needs an update. */
    lemma NothingRememberedNeedsUpdate(latest: Result<Option<string>, Failure>)
      requires Remembered().None? && latest.Ok? && latest.value.Some?
      ensures CheckServerState(latest) == UpdateNeeded
    {
    }

    /**
     * `delete`: forgets the remembered version first, so it is gone even when the server call
     * fails; the call's outcome is what `delete` reports.
     */
    method Delete(call: Result<(), Failure>) returns (r: Result<(), Failure>)
      modifies this`currentVersionOfFiles
      ensures currentVersionOfFiles == old(currentVersionOfFiles) - {SnapshotPath}
      ensures Remembered().None? && r == call
      ensures forall latest :: CheckServerState(latest) != UpToDate
    {
      currentVersionOfFiles := currentVersionOfFiles - {SnapshotPath};
      r := call;
    }
  }
}
