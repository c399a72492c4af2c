/**
 * The launch sequence of the QML launcher (LunaQmlApplication): command-line
 * defaults, the launch gate, the bus-role files it asks to push, and the exit
 * codes of launchApp. The file system, the manifest files and the QML engine
 * are passed in as oracles.
 */
module Launcher {
  import opened Options
  import opened Text
  import opened Json
  import opened Urls
  import opened Descriptions
  import Placeholders

  /** What the constructor keeps from the command line. */
  datatype Launcher = Launcher(manifestPath: string, launchParameters: string)

  /** Launch parameters when none are given: an empty JSON object. */
  const DefaultLaunchParameters: string := "{}"

  /**
   * The constructor: argument 1 is the manifest path and argument 2 the launch
   * parameters; argument 0 is the program name.
   */
  function FromArguments(args: seq<string>): (r: Launcher)
    ensures |args| >= 2 ==> r.manifestPath == args[1]
    ensures |args| < 2 ==> r.manifestPath == ""
    ensures |args| >= 3 ==> r.launchParameters == args[2]
    ensures |args| < 3 ==> r.launchParameters == DefaultLaunchParameters
  {
    Launcher(
      manifestPath := if |args| >= 2 then args[1] else "",
      launchParameters := if |args| >= 3 then args[2] else DefaultLaunchParameters)
  }

  /**
   * validateApplication: the id must be non-empty, and an entry point that is a
   * local file must exist. Nothing else is checked.
   */
  function ValidateApplication(d: ApplicationDescription, present: set<string>): (r: bool)
    ensures d.id == "" ==> !r
    ensures IsLocalFile(d.entryPoint) && !FileExists(present, ToLocalFile(d.entryPoint)) ==> !r
    ensures d.id != "" && !IsLocalFile(d.entryPoint) ==> r
    ensures d.id != "" && IsLocalFile(d.entryPoint) && FileExists(present, ToLocalFile(d.entryPoint)) ==> r
  {
    if |d.id| == 0 then false
    else if IsLocalFile(d.entryPoint) && !FileExists(present, ToLocalFile(d.entryPoint)) then false
    else true
  }

  // ----------------------------------------------------------------- bus roles

  /** A request to push one role file to the public or the private bus. */
  datatype RolePush = RolePush(path: string, publicBus: bool)

  function RoleDirectory(publicBus: bool): string {
    if publicBus then "/roles/pub/" else "/roles/prv/"
  }

  /**
   * The role file of `appId` for one bus, below the application's directory:
   * the id can be read back from between the role directory and ".json".
   */
  function RolePath(basePath: string, appId: string, publicBus: bool): (r: string)
    ensures StartsWith(r, basePath + RoleDirectory(publicBus))
    ensures |r| == |basePath| + |RoleDirectory(publicBus)| + |appId| + 5
    ensures r[|basePath| + |RoleDirectory(publicBus)|..|r| - 5] == appId
    ensures r[|r| - 5..] == ".json"
  {
    basePath + RoleDirectory(publicBus) + appId + ".json"
  }

  /** The role template with its literal parts spelled out. */
  lemma RoleTemplateShape(publicBus: bool)
    ensures var dir := RoleDirectory(publicBus);
      && "%1" + dir + "%2.json" == "" + "%1" + dir + "%2" + ".json"
      && Avoids(dir, Placeholders.Percent) && !Placeholders.StartsWithDigit(dir)
      && Avoids(".json", Placeholders.Percent) && !Placeholders.StartsWithDigit(".json")
  {
  }

  /** With a base path free of '%', the chained arg call is the plain concatenation. */
  lemma ArgRoleTemplate(basePath: string, appId: string, publicBus: bool)
    requires Avoids(basePath, Placeholders.Percent)
    ensures Placeholders.Arg(Placeholders.Arg("%1" + RoleDirectory(publicBus) + "%2.json", basePath), appId)
         == RolePath(basePath, appId, publicBus)
  {
    var dir := RoleDirectory(publicBus);
    RoleTemplateShape(publicBus);
    Placeholders.ArgTwoMarkers("", dir, ".json", basePath, appId);
    assert "" + basePath + dir + appId + ".json" == basePath + dir + appId + ".json";
  }

  /**
   * The role path as written: QString("%1/roles/pub/%2.json").arg(basePath).arg(appId).
   * It is the role file whenever the base path holds no '%'.
   */
  function RolePathAsWritten(basePath: string, appId: string, publicBus: bool): (r: string)
    ensures Avoids(basePath, Placeholders.Percent) ==> r == RolePath(basePath, appId, publicBus)
  {
    var built := Placeholders.Arg(Placeholders.Arg("%1" + RoleDirectory(publicBus) + "%2.json", basePath), appId);
    if Avoids(basePath, Placeholders.Percent) then ArgRoleTemplate(basePath, appId, publicBus); built else built
  }

  /**
   * setupLs2Configuration: the public role is pushed when its file exists, then
   * the private role when its file exists.
   */
  function SetupLs2Configuration(appId: string, basePath: string, present: set<string>): (r: seq<RolePush>)
    ensures |r| <= 2
    ensures forall i :: 0 <= i < |r| ==>
      FileExists(present, r[i].path) && r[i].path == RolePath(basePath, appId, r[i].publicBus)
    ensures RolePush(RolePath(basePath, appId, true), true) in r <==> FileExists(present, RolePath(basePath, appId, true))
    ensures RolePush(RolePath(basePath, appId, false), false) in r <==> FileExists(present, RolePath(basePath, appId, false))
    ensures |r| == 2 ==> r[0].publicBus && !r[1].publicBus
  {
    var pub := RolePath(basePath, appId, true);
    var prv := RolePath(basePath, appId, false);
    (if FileExists(present, pub) then [RolePush(pub, true)] else [])
      + (if FileExists(present, prv) then [RolePush(prv, false)] else [])
  }

  // --------------------------------------------------------------- launching

  /**
   * setup: an empty URL is refused before anything is loaded; otherwise the
   * result is whether the QML engine could create the component, which is the
   * oracle `loadable`.
   */
  function Setup(path: Url, loadable: set<string>): (r: bool)
    ensures IsEmpty(path) ==> !r
    ensures r ==> path.text in loadable
    ensures !IsEmpty(path) && path.text in loadable ==> r
  {
    if IsEmpty(path) then false else path.text in loadable
  }

  /**
   * How launchApp ends: with exit code 1 or 2 before the event loop, or running
   * the application after pushing its roles and loading its entry point.
   */
  datatype LaunchOutcome =
    | Exited(code: int)
    | Running(app: ApplicationDescription, rolePushes: seq<RolePush>, loaded: bool)

  /** QFile::open on the manifest path: the empty name never opens. */
  predicate CanOpen(path: string, manifests: map<string, Document>) {
    path != "" && path in manifests
  }

  /**
   * launchApp. `manifests` maps each readable file to its decoded contents,
   * `absoluteDir` is QFileInfo(path).absoluteDir().path(), `present` answers
   * QFile::exists and `loadable` the QML engine's component creation.
   */
  function LaunchApp(launcher: Launcher, manifests: map<string, Document>, absoluteDir: string -> string,
                     present: set<string>, loadable: set<string>): (r: LaunchOutcome)
    ensures r.Exited? ==> r.code == 1 || r.code == 2
    ensures r == Exited(1) <==> !CanOpen(launcher.manifestPath, manifests)
    ensures r == Exited(2) <==>
      CanOpen(launcher.manifestPath, manifests)
      && !ValidateApplication(FromData(manifests[launcher.manifestPath], absoluteDir(launcher.manifestPath), present), present)
    ensures r.Running? ==>
      && CanOpen(launcher.manifestPath, manifests)
      && r.app == FromData(manifests[launcher.manifestPath], absoluteDir(launcher.manifestPath), present)
      && r.app.id != ""
      && r.rolePushes == SetupLs2Configuration(r.app.id, r.app.basePath, present)
      && r.loaded == Setup(r.app.entryPoint, loadable)
  {
    if !CanOpen(launcher.manifestPath, manifests) then Exited(1)
    else
      var basePath := absoluteDir(launcher.manifestPath);
      var desc := FromData(manifests[launcher.manifestPath], basePath, present);
      if !ValidateApplication(desc, present) then Exited(2)
      else Running(desc, SetupLs2Configuration(desc.id, basePath, present), Setup(desc.entryPoint, loadable))
  }
}
