/** Properties of the launch sequence, from manifest to launch outcome. */
module LauncherProperties {
  import opened Options
  import opened Text
  import opened Json
  import opened Urls
  import opened Descriptions
  import opened DescriptionProperties
  import opened Launcher
  import Placeholders

  // -------------------------------------------------------------- arguments

  /** The program name and any argument past the second are never read. */
  lemma ArgumentsBeyondParametersIgnored(args: seq<string>, program: string, more: seq<string>)
    requires |args| >= 3
    ensures FromArguments([program] + args[1..] + more) == FromArguments(args)
  {
    var a := [program] + args[1..] + more;
    assert a[1] == args[1] && a[2] == args[2];
  }

  /** Without a manifest argument the launcher stops with exit code 1. */
  lemma NoManifestArgumentExitsOne(args: seq<string>, manifests: map<string, Document>,
                                   absoluteDir: string -> string, present: set<string>, loadable: set<string>)
    requires |args| < 2
    ensures LaunchApp(FromArguments(args), manifests, absoluteDir, present, loadable) == Exited(1)
  {
  }

  // ------------------------------------------------------------- launch gate

  /**
   * For a manifest with an id and a scheme-less `main`, the application is
   * launchable exactly when basePath + "/" + main exists. With no '%' in the
   * path, the arg-built entry point is the same URL, so this holds of the
   * resolver as written too.
   */
  lemma RelativeEntryPointGate(o: map<string, JsonValue>, id: string, main: string, basePath: string, present: set<string>)
    requires "id" in o && o["id"] == JString(id) && id != ""
    requires "main" in o && o["main"] == JString(main) && SchemeOf(main) == ""
    requires StartsWith(basePath, "/") && Avoids(basePath + "/" + main, {'?', '#', '%'})
    ensures ValidateApplication(FromData(Some(JObject(o)), basePath, present), present)
        <==> basePath + "/" + main in present
    ensures LocateEntryPointAsWritten(basePath, main) == LocateEntryPoint(basePath, main)
  {
    RelativeEntryPointPath(basePath, main);
    assert Avoids(basePath, Placeholders.Percent) by {
      forall i | 0 <= i < |basePath| ensures basePath[i] !in Placeholders.Percent {
        assert (basePath + "/" + main)[i] == basePath[i];
      }
    }
  }

  /** A manifest that is not an object, or has no string id, is never launchable. */
  lemma MissingIdNeverLaunchable(doc: Document, basePath: string, present: set<string>)
    requires !IsObject(doc) || !("id" in doc.value.members && doc.value.members["id"].JString?)
             || doc.value.members["id"] == JString("")
    ensures !ValidateApplication(FromData(doc, basePath, present), present)
  {
  }

  /** A remote entry point passes the gate whenever the id is non-empty: nothing is fetched. */
  lemma RemoteEntryPointPasses(o: map<string, JsonValue>, main: string, basePath: string, present: set<string>)
    requires "id" in o && o["id"].JString? && o["id"].str != ""
    requires "main" in o && o["main"] == JString(main)
    requires SchemeOf(main) == "http" || SchemeOf(main) == "https"
    ensures var d := FromData(Some(JObject(o)), basePath, present);
      HasRemoteEntryPoint(d) && ValidateApplication(d, present)
  {
    RemoteEntryPointIffRemoteScheme(FromData(Some(JObject(o)), basePath, present), main);
  }

  /**
   * A manifest object with a non-empty id but no string `main` leaves the empty
   * entry point, which is not a local file: the gate lets it through, and only
   * setup refuses it, so launchApp reaches the event loop with nothing loaded.
   */
  lemma MissingEntryPointPassesGate(launcher: Launcher, manifests: map<string, Document>, absoluteDir: string -> string,
                                    present: set<string>, loadable: set<string>, o: map<string, JsonValue>)
    requires launcher.manifestPath != "" && launcher.manifestPath in manifests
    requires manifests[launcher.manifestPath] == Some(JObject(o))
    requires StringAt(o, "id") && o["id"].str != ""
    requires !StringAt(o, "main")
    ensures var r := LaunchApp(launcher, manifests, absoluteDir, present, loadable);
      && r.Running?
      && r.app.entryPoint == Empty
      && !r.loaded
  {
  }

  /** The same holds when `main` names a scheme other than file, http or https. */
  lemma ForeignEntryPointPassesGate(launcher: Launcher, manifests: map<string, Document>, absoluteDir: string -> string,
                                    present: set<string>, loadable: set<string>, o: map<string, JsonValue>)
    requires launcher.manifestPath != "" && launcher.manifestPath in manifests
    requires manifests[launcher.manifestPath] == Some(JObject(o))
    requires StringAt(o, "id") && o["id"].str != ""
    requires StringAt(o, "main") && SchemeOf(o["main"].str) != "" && !IsAcceptedScheme(SchemeOf(o["main"].str))
    ensures var r := LaunchApp(launcher, manifests, absoluteDir, present, loadable);
      && r.Running?
      && r.app.entryPoint == Empty
      && !r.loaded
  {
  }

  // -------------------------------------------------------------- role paths

  /** The public and the private role file of an application are different files. */
  lemma RolePathsDiffer(basePath: string, appId: string)
    ensures RolePath(basePath, appId, true) != RolePath(basePath, appId, false)
  {
    var i := |basePath| + 8;
    assert RolePath(basePath, appId, true)[i] == 'u';
    assert RolePath(basePath, appId, false)[i] == 'r';
  }

  /** Within one base directory and bus, the role path determines the application id. */
  lemma RolePathDeterminesId(basePath: string, id1: string, id2: string, publicBus: bool)
    requires RolePath(basePath, id1, publicBus) == RolePath(basePath, id2, publicBus)
    ensures id1 == id2
  {
    var prefix := basePath + RoleDirectory(publicBus);
    var p1 := RolePath(basePath, id1, publicBus);
    assert p1 == prefix + id1 + ".json";
    assert |id1| == |id2|;
    assert p1[|prefix|..|prefix| + |id1|] == id1;
    assert RolePath(basePath, id2, publicBus)[|prefix|..|prefix| + |id2|] == id2;
  }

  /** Each push asks for a distinct file, so no role is pushed twice. */
  lemma RolePushesDistinct(appId: string, basePath: string, present: set<string>)
    ensures var r := SetupLs2Configuration(appId, basePath, present);
      forall i, j :: 0 <= i < j < |r| ==> r[i].path != r[j].path
  {
    RolePathsDiffer(basePath, appId);
  }

  /**
   * With the base directory "/%1" the arg-built role path puts the application
   * id in place of the directory's "%1", followed by the role directory and a
   * literal "%2.json".
   */
  lemma RolePathAsWrittenValue(basePath: string, appId: string, publicBus: bool)
    requires basePath == "/%1"
    ensures RolePathAsWritten(basePath, appId, publicBus) == "/" + appId + RoleDirectory(publicBus) + "%2.json"
  {
    var dir := RoleDirectory(publicBus);
    RoleTemplateShape(publicBus);
    assert Avoids("/", Placeholders.Percent) && basePath == "/" + "%1";
    Placeholders.MarkerArgumentSwallowsSecond("", dir, ".json", "/", basePath, appId);
    assert "" + "/" + appId + dir + "%2" + ".json" == "/" + appId + dir + "%2.json";
  }

  /**
   * With the base directory "/%1" the arg-built role path names a file below a
   * directory called after the application id, not the application's role file.
   */
  lemma RolePathAsWrittenMisplaces(basePath: string, appId: string, publicBus: bool)
    requires basePath == "/%1" && appId != [] && appId[0] != '%'
    ensures RolePathAsWritten(basePath, appId, publicBus) != RolePath(basePath, appId, publicBus)
  {
    RolePathAsWrittenValue(basePath, appId, publicBus);
    assert RolePathAsWritten(basePath, appId, publicBus)[1] == appId[0];
    assert RolePath(basePath, appId, publicBus)[1] == '%';
  }
}
