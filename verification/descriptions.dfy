/**
 * The application description built from a decoded manifest and the
 * directory that holds it (luna::ApplicationDescription). Construction never
 * fails: a document that is not an object leaves every field at its
 * constructor default, and a key that is missing or holds a value of the
 * wrong JSON type leaves its field at the default.
 */
module Descriptions {
  import opened Options
  import opened Text
  import opened Json
  import opened Urls
  import Placeholders

  /** The scope the launcher grants. Only the system scope is ever assigned. */
  datatype TrustScope = TrustScopeSystem | TrustScopeDefault

  datatype ApplicationDescription = ApplicationDescription(
    id: string,
    title: string,
    icon: Url,
    entryPoint: Url,
    headless: bool,
    basePath: string,
    trustScope: TrustScope,
    pluginName: string,
    flickable: bool,
    internetConnectivityRequired: bool,
    urlsAllowed: seq<string>,
    userAgent: string,
    useLuneOSStyle: bool)

  /** The icon bundled with the launcher, used when the manifest names no usable icon. */
  const DefaultIcon: Url := Url("qrc:///qml/images/default-app-icon.png")

  /** The manifest keys the parser reads; every other key is ignored. */
  const RecognisedKeys: set<string> :=
    {"id", "main", "noWindow", "title", "icon", "flickable", "internetConnectivityRequired",
     "urlsAllowed", "plugin", "userAgent", "useLuneOSStyle"}

  datatype Kind = StringKind | BoolKind | ArrayKind

  /** The JSON type each recognised key must hold to be adopted. */
  function KindOf(key: string): Kind
    requires key in RecognisedKeys
  {
    if key in {"noWindow", "flickable", "internetConnectivityRequired", "useLuneOSStyle"} then BoolKind
    else if key == "urlsAllowed" then ArrayKind
    else StringKind
  }

  predicate HasKind(v: JsonValue, k: Kind) {
    match k
    case StringKind => v.JString?
    case BoolKind => v.JBool?
    case ArrayKind => v.JArray?
  }

  /** The member initialisers of the parsing constructor. */
  function Initial(basePath: string): ApplicationDescription {
    ApplicationDescription(
      id := "", title := "", icon := Empty, entryPoint := Empty, headless := false,
      basePath := basePath, trustScope := TrustScopeSystem, pluginName := "",
      flickable := false, internetConnectivityRequired := false, urlsAllowed := [],
      userAgent := "", useLuneOSStyle := false)
  }

  // ---------------------------------------------------------------- entry point

  /** The schemes an entry point may keep as written. */
  predicate IsAcceptedScheme(scheme: string) {
    scheme == "file" || scheme == "http" || scheme == "https"
  }

  /**
   * locateEntryPoint: a file, http or https URL is kept, any other scheme is
   * rejected as the empty URL, and a scheme-less path is taken relative to the
   * base directory.
   */
  function LocateEntryPoint(basePath: string, entry: string): (r: Url)
    ensures IsAcceptedScheme(SchemeOf(entry)) ==> r == Url(entry)
    ensures SchemeOf(entry) != "" && !IsAcceptedScheme(SchemeOf(entry)) ==> r == Empty
    ensures SchemeOf(entry) == "" ==> r == Url(FilePrefix + basePath + "/" + entry)
  {
    var scheme := SchemeOf(entry);
    if IsAcceptedScheme(scheme) then Url(entry)
    else if scheme != "" then Empty
    else Url(FilePrefix + basePath + "/" + entry)
  }

  /** With a base path free of '%', the chained arg call is the plain concatenation. */
  lemma ArgEntryTemplate(basePath: string, entry: string)
    requires Avoids(basePath, Placeholders.Percent)
    ensures Placeholders.Arg(Placeholders.Arg(FilePrefix + "%1/%2", basePath), entry) == FilePrefix + basePath + "/" + entry
  {
    assert FilePrefix + "%1/%2" == "file://" + "%1" + "/" + "%2" + "";
    assert Avoids("file://", Placeholders.Percent) && Avoids("/", Placeholders.Percent) && Avoids("", Placeholders.Percent);
    assert !Placeholders.StartsWithDigit("/") && !Placeholders.StartsWithDigit("");
    Placeholders.ArgTwoMarkers("file://", "/", "", basePath, entry);
    assert "file://" + basePath + "/" + entry + "" == FilePrefix + basePath + "/" + entry;
  }

  /**
   * locateEntryPoint as written: the scheme-less case builds its URL with
   * QString("file://%1/%2").arg(basePath).arg(entry). It agrees with
   * LocateEntryPoint on every entry with a scheme, and on every entry when the
   * base path holds no '%'.
   */
  function LocateEntryPointAsWritten(basePath: string, entry: string): (r: Url)
    ensures SchemeOf(entry) != "" ==> r == LocateEntryPoint(basePath, entry)
    ensures Avoids(basePath, Placeholders.Percent) ==> r == LocateEntryPoint(basePath, entry)
  {
    var scheme := SchemeOf(entry);
    if IsAcceptedScheme(scheme) then Url(entry)
    else if scheme != "" then Empty
    else
      var built := Url(Placeholders.Arg(Placeholders.Arg(FilePrefix + "%1/%2", basePath), entry));
      if Avoids(basePath, Placeholders.Percent) then ArgEntryTemplate(basePath, entry); built else built
  }

  /** hasRemoteEntryPoint: the entry point is an http or https URL, so never a local file. */
  predicate HasRemoteEntryPoint(d: ApplicationDescription): (r: bool)
    ensures r ==> !IsEmpty(d.entryPoint) && !IsLocalFile(d.entryPoint)
  {
    Scheme(d.entryPoint) == "http" || Scheme(d.entryPoint) == "https"
  }

  // ----------------------------------------------------------------------- icon

  /** The icon string with "file://" put in front unless it is already there. */
  function WithFileScheme(path: string): (r: string)
    ensures StartsWith(r, FilePrefix)
    ensures StartsWith(path, FilePrefix) ==> r == path
    ensures !StartsWith(path, FilePrefix) ==> r == FilePrefix + path
  {
    if StartsWith(path, FilePrefix) then path else FilePrefix + path
  }

  /**
   * QFile::exists against the oracle `present`, the set of paths that exist:
   * the empty name never exists.
   */
  predicate FileExists(present: set<string>, path: string) {
    path != "" && path in present
  }

  /** The icon survives only when it is a non-empty file URL naming an existing file. */
  predicate IconUsable(icon: Url, present: set<string>) {
    !IsEmpty(icon) && IsLocalFile(icon) && FileExists(present, ToLocalFile(icon))
  }

  // ------------------------------------------------------------ allowed URLs

  /** The string elements of a JSON array, in order; other elements are skipped. */
  function StringElements(items: seq<JsonValue>): (r: seq<string>)
    ensures |r| <= |items|
    ensures forall i :: 0 <= i < |r| ==> JString(r[i]) in items
    decreases |items|
  {
    if items == [] then []
    else (if items[0].JString? then [items[0].str] else []) + StringElements(items[1..])
  }

  /** Filtering distributes over concatenation: the kept strings stay in array order. */
  lemma {:induction false} StringElementsAppend(a: seq<JsonValue>, b: seq<JsonValue>)
    ensures StringElements(a + b) == StringElements(a) + StringElements(b)
    decreases |a|
  {
    if a == [] {
      assert a + b == b;
    } else {
      assert (a + b)[0] == a[0];
      assert (a + b)[1..] == a[1..] + b;
      StringElementsAppend(a[1..], b);
    }
  }

  /** A string is allowed exactly when the array holds it as a string element. */
  lemma {:induction false} StringElementsMembership(items: seq<JsonValue>, s: string)
    ensures s in StringElements(items) <==> JString(s) in items
    decreases |items|
  {
    if items != [] {
      StringElementsMembership(items[1..], s);
      assert items == [items[0]] + items[1..];
    }
  }

  /** An array of strings only is kept whole, element for element. */
  lemma {:induction false} StringElementsAllStrings(items: seq<JsonValue>)
    requires forall i :: 0 <= i < |items| ==> items[i].JString?
    ensures |StringElements(items)| == |items|
    ensures forall i :: 0 <= i < |items| ==> StringElements(items)[i] == items[i].str
    decreases |items|
  {
    if items != [] {
      StringElementsAllStrings(items[1..]);
    }
  }

  /** The urlsAllowed loop: appends each string element, skipping the others. */
  method CollectUrlsAllowed(items: seq<JsonValue>) returns (urls: seq<string>)
    ensures urls == StringElements(items)
  {
    urls := [];
    var n := 0;
    while n < |items|
      invariant 0 <= n <= |items|
      invariant urls == StringElements(items[..n])
    {
      StringElementsAppend(items[..n], [items[n]]);
      assert items[..n + 1] == items[..n] + [items[n]];
      if items[n].JString? {
        urls := urls + [items[n].str];
      }
      n := n + 1;
    }
    assert items[..n] == items;
  }

  // ------------------------------------------------------------ construction

  function StringOr(o: map<string, JsonValue>, key: string, default: string): string {
    match StringMember(o, key)
    case Some(s) => s
    case None => default
  }

  function BoolOr(o: map<string, JsonValue>, key: string, default: bool): bool {
    match BoolMember(o, key)
    case Some(b) => b
    case None => default
  }

  /** initializeFromData on a document that is an object. */
  function FromObject(o: map<string, JsonValue>, basePath: string, present: set<string>): ApplicationDescription {
    var init := Initial(basePath);
    var entryPoint :=
      match StringMember(o, "main")
      case Some(main) => LocateEntryPoint(basePath, main)
      case None => init.entryPoint;
    var icon :=
      match StringMember(o, "icon")
      case Some(path) => Url(WithFileScheme(path))
      case None => init.icon;
    var urlsAllowed :=
      match ArrayMember(o, "urlsAllowed")
      case Some(items) => init.urlsAllowed + StringElements(items)
      case None => init.urlsAllowed;
    init.(
      id := StringOr(o, "id", init.id),
      entryPoint := entryPoint,
      headless := BoolOr(o, "noWindow", init.headless),
      title := StringOr(o, "title", init.title),
      icon := if IconUsable(icon, present) then icon else DefaultIcon,
      flickable := BoolOr(o, "flickable", init.flickable),
      internetConnectivityRequired := BoolOr(o, "internetConnectivityRequired", init.internetConnectivityRequired),
      urlsAllowed := urlsAllowed,
      pluginName := StringOr(o, "plugin", init.pluginName),
      userAgent := StringOr(o, "userAgent", init.userAgent),
      useLuneOSStyle := BoolOr(o, "useLuneOSStyle", init.useLuneOSStyle))
  }

  /** True when `key` is present in `o` and holds a string. */
  predicate StringAt(o: map<string, JsonValue>, key: string) {
    key in o && o[key].JString?
  }

  predicate BoolAt(o: map<string, JsonValue>, key: string) {
    key in o && o[key].JBool?
  }

  /**
   * Field by field, what a manifest object yields: each recognised key is
   * adopted when present with its JSON type, and its default stays otherwise.
   */
  ghost predicate FollowsManifest(o: map<string, JsonValue>, basePath: string, present: set<string>, r: ApplicationDescription) {
    && r.id == (if StringAt(o, "id") then o["id"].str else "")
    && r.title == (if StringAt(o, "title") then o["title"].str else "")
    && r.pluginName == (if StringAt(o, "plugin") then o["plugin"].str else "")
    && r.userAgent == (if StringAt(o, "userAgent") then o["userAgent"].str else "")
    && r.entryPoint == (if StringAt(o, "main") then LocateEntryPoint(basePath, o["main"].str) else Empty)
    && r.headless == (BoolAt(o, "noWindow") && o["noWindow"].b)
    && r.flickable == (BoolAt(o, "flickable") && o["flickable"].b)
    && r.internetConnectivityRequired == (BoolAt(o, "internetConnectivityRequired") && o["internetConnectivityRequired"].b)
    && r.useLuneOSStyle == (BoolAt(o, "useLuneOSStyle") && o["useLuneOSStyle"].b)
    && r.urlsAllowed == (if "urlsAllowed" in o && o["urlsAllowed"].JArray? then StringElements(o["urlsAllowed"].items) else [])
    && r.icon == (if StringAt(o, "icon") && IconUsable(Url(WithFileScheme(o["icon"].str)), present)
                  then Url(WithFileScheme(o["icon"].str)) else DefaultIcon)
  }

  /**
   * The parsing constructor: ApplicationDescription(data, applicationBasePath)
   * with `data` already decoded. `present` is the set of paths QFile::exists
   * reports as existing.
   */
  function FromData(doc: Document, basePath: string, present: set<string>): (r: ApplicationDescription)
    ensures r.basePath == basePath && r.trustScope == TrustScopeSystem
    ensures !IsObject(doc) ==> r == Initial(basePath)
    ensures IsObject(doc) ==> FollowsManifest(doc.value.members, basePath, present, r)
  {
    if IsObject(doc) then FromObject(doc.value.members, basePath, present) else Initial(basePath)
  }

  /** The copy constructor carries every field over. */
  function Copy(other: ApplicationDescription): (r: ApplicationDescription)
    ensures r == other
  {
    ApplicationDescription(
      other.id, other.title, other.icon, other.entryPoint, other.headless, other.basePath,
      other.trustScope, other.pluginName, other.flickable, other.internetConnectivityRequired,
      other.urlsAllowed, other.userAgent, other.useLuneOSStyle)
  }
}
