# luna-qml-launcher: manifest resolution and launch gate

This project is a Dafny model of how the QML application launcher turns an
application manifest into an application description, decides whether that
description may be launched, and derives the bus-role files it asks to push.

- `ApplicationDescription(data, applicationBasePath)` reads each recognised manifest key
  only when the key holds the expected JSON type (RFC 8259 section 3). A wrong type or a
  missing key leaves the field at its constructor default. A document that is not an
  object leaves every field at its default.
- `locateEntryPoint` keeps `file`, `http` and `https` URLs. It turns any other scheme
  into the empty URL. A scheme-less `main` becomes `file://<base>/<main>`. The scheme is
  taken as in section 3.1 of RFC 3986.
- The icon gets a `file://` prefix and falls back to a bundled `qrc:` icon unless the file
  exists. `urlsAllowed` keeps the string elements of its array, in order.
- `validateApplication` needs a non-empty id and, for a local-file entry point, an
  existing file. `setupLs2Configuration` builds `<base>/roles/pub/<id>.json` and
  `<base>/roles/prv/<id>.json` and requests a push for each one that exists.
  `launchApp` returns 1 when the manifest cannot be opened and 2 when validation fails.

Modules, one per concern:

| file | module | models |
|---|---|---|
| options.dfy | Options | absent values |
| text.dfy | Text | prefixes, scanning up to a stop character, ASCII lower-casing |
| json.dfy | Json | the decoded JSON tree and the typed `contains && isX` lookups |
| placeholders.dfy | Placeholders | `QString::arg` place-marker substitution |
| urls.dfy | Urls | the part of `QUrl` used: scheme, emptiness, `isLocalFile`, `toLocalFile` |
| descriptions.dfy | Descriptions | `src/applicationdescription.cpp` |
| description_properties.dfy | DescriptionProperties | properties of the description across calls |
| launcher.dfy | Launcher | `src/lunaqmlapplication.cpp` |
| launcher_properties.dfy | LauncherProperties | properties of the launch sequence |

The environment is passed in as parameters:

- `present: set<string>` is the set of paths `QFile::exists` reports. The empty name never
  exists, whatever the set holds (`Descriptions.FileExists`).
- `manifests: map<string, Document>` maps each file that opens to its decoded contents.
- `absoluteDir` stands for `QFileInfo(path).absoluteDir().path()`.
- `loadable: set<string>` is the set of entry-point URLs for which the QML engine can
  create the component.

What the code does that a reader may not expect:

- An empty `main` has no scheme, so it resolves to `file://<base>/`, not to the empty URL.
- A foreign-scheme entry point becomes the empty URL. The empty URL is not a local file,
  so validation passes it. Only `setup` refuses it (`LauncherProperties.MissingEntryPointPassesGate`,
  `LauncherProperties.ForeignEntryPointPassesGate`).
- The icon path is not joined with the base directory. A relative icon `Images/a.png`
  becomes `file://Images/a.png`, whose first segment is the URL's host. QUrl lower-cases
  the host, so the file checked is `//images/a.png`
  (`DescriptionProperties.IconIsNotRelativeToBase`).
- A document that is not an object returns before the icon fallback, so its icon stays empty.
- There is no privilege classifier in the code. The trust scope is always `TrustScopeSystem`.
  The header that declares the enum is not part of this model, so the second constructor
  `TrustScopeDefault` is a stand-in name and is never produced.

## Model

| member | source | states |
|---|---|---|
| Descriptions.FromData | src/applicationdescription.cpp:53-130 | basePath is the argument and trustScope is TrustScopeSystem. A non-object document gives exactly the constructor defaults. For an object, each recognised field takes the manifest value iff the key is present with its JSON type and otherwise keeps its default; the icon falls back to the bundled icon |
| Descriptions.Copy | src/applicationdescription.cpp:36-51 | the copy constructor gives a description equal to the original in every field |
| Descriptions.LocateEntryPoint | src/applicationdescription.cpp:132-149 | a file/http/https URL is returned unchanged, any other non-empty scheme gives the empty URL, and a scheme-less entry gives file:// + base + "/" + entry, the intended form of the arg-built URL (see Findings) |
| Descriptions.WithFileScheme | src/applicationdescription.cpp:97-100 | the icon string always starts with file://; one that already did is unchanged, any other gets exactly one prefix |
| Descriptions.LocateEntryPointAsWritten | src/applicationdescription.cpp:132-149 | the resolver as written, with the chained arg call at :148, equals LocateEntryPoint on every entry that has a scheme, and on every entry when the base path holds no '%' |
| Descriptions.ArgEntryTemplate | src/applicationdescription.cpp:148 | with a base path free of '%', "file://%1/%2" filled by arg(base).arg(entry) is file:// + base + "/" + entry |
| Descriptions.HasRemoteEntryPoint | src/applicationdescription.cpp:151-155 | an entry point reported remote is never empty and never a local file |
| Descriptions.StringElements | src/applicationdescription.cpp:112-120 | the allowed URLs are no more than the array's elements, and each one is a string element of the array |
| Descriptions.StringElementsAppend | src/applicationdescription.cpp:112-120 | filtering an array distributes over concatenation, so the kept strings stay in array order |
| Descriptions.StringElementsMembership | src/applicationdescription.cpp:112-120 | a string is allowed iff the array holds it as a string element; non-strings are skipped |
| Descriptions.StringElementsAllStrings | src/applicationdescription.cpp:112-120 | an array of strings only is kept whole, element for element |
| Descriptions.CollectUrlsAllowed | src/applicationdescription.cpp:112-120 | the loop that appends each string element and skips the rest computes exactly the filtered list |
| DescriptionProperties.UnknownKeyIgnored | src/applicationdescription.cpp:78-129 | adding or changing a key the parser does not recognise leaves the description unchanged |
| DescriptionProperties.OnlyTypedReadsMatter | src/applicationdescription.cpp:80-129 | two manifest objects that answer every typed lookup alike give the same description |
| DescriptionProperties.MistypedKeyIsAbsent | src/applicationdescription.cpp:80-129 | a recognised key with the wrong JSON type gives the same description as the key being absent |
| DescriptionProperties.WithFileSchemeIdempotent | src/applicationdescription.cpp:97-98 | prefixing twice is prefixing once, so file:// is never doubled |
| DescriptionProperties.IconAfterParse | src/applicationdescription.cpp:73-110 | after a successful parse the icon is non-empty and is either a file URL naming an existing, non-empty path or the bundled icon; after a failed parse it is empty |
| DescriptionProperties.IconIsNotRelativeToBase | src/applicationdescription.cpp:92-110 | for an icon path without "?", "#" or "%": an absolute path is kept iff it exists; a relative one is kept iff "//" + its lower-cased first segment + the rest exists, never base + path; an empty icon falls back to the bundled one |
| DescriptionProperties.ResolvedEntryPointScheme | src/applicationdescription.cpp:132-149 | a resolved entry point has no scheme or an accepted one, and it has no scheme iff it is the empty URL |
| DescriptionProperties.ResolvedEntryPointIsFixed | src/applicationdescription.cpp:132-149 | resolving a non-empty resolved entry point again returns it unchanged |
| DescriptionProperties.RelativeEntryPointPath | src/applicationdescription.cpp:148 | a scheme-less entry, the empty one included, under an absolute base resolves to a local file whose path is base + "/" + entry, for paths without "?", "#" or "%" |
| DescriptionProperties.RemoteEntryPointIffRemoteScheme | src/applicationdescription.cpp:151-155 | hasRemoteEntryPoint holds iff the manifest's main had scheme http or https, and a remote entry point is never a local file |
| DescriptionProperties.ArgEntryWithMarkerBase | src/applicationdescription.cpp:148 | for a base of a '%'-free lead followed by "%1", the chained arg call puts the entry in place of that "%1" and leaves "%2" literal |
| DescriptionProperties.EntryPointAsWrittenValue | src/applicationdescription.cpp:148 | with the absolute base path "/%1", the arg-built URL is "file:///" + main + "/%2" |
| DescriptionProperties.EntryPointAsWrittenMisplaces | src/applicationdescription.cpp:148 | with the absolute base path "/%1", the arg-built URL differs from the intended one for every scheme-less main not starting with '%' |
| DescriptionProperties.RelativeEntryPointExample | src/applicationdescription.cpp:148 | "index.html" under /apps/foo resolves to file:///apps/foo/index.html |
| DescriptionProperties.AcceptedSchemeKept | src/applicationdescription.cpp:136-139 | any entry point whose scheme is file, http or https is returned unchanged, whatever follows the colon |
| DescriptionProperties.ForeignSchemeExample | src/applicationdescription.cpp:141-145 | "ftp://ex.com/a" gives the empty URL |
| DescriptionProperties.EmptyEntryPointExample | src/applicationdescription.cpp:148 | an empty main under /apps/foo resolves to file:///apps/foo/ |
| DescriptionProperties.UrlsAllowedExample | src/applicationdescription.cpp:112-120 | ["https://a", 3, "https://b"] gives ["https://a", "https://b"] |
| Placeholders.ArgTwoMarkers | src/applicationdescription.cpp:148 | chained arg(a).arg(b) on a "%1 … %2" template splices both arguments in place when a holds no '%' |
| Placeholders.MarkerArgumentSwallowsSecond | src/applicationdescription.cpp:148 | when the first argument is a '%'-free lead followed by "%1", the second argument lands in place of that "%1" and "%2" stays literal |
| Urls.FilePrefixScheme | src/applicationdescription.cpp:97-100 | any text with file:// in front parses with scheme file |
| Urls.LocalFileOfFilePrefix | src/applicationdescription.cpp:109 | for a p without "?", "#" or "%", toLocalFile of file:// + p is p for an absolute or empty p, and for a relative p it is "//" + the lower-cased host (p up to its first "/") + the rest of p |
| Launcher.FromArguments | src/lunaqmlapplication.cpp:49-61 | the manifest path is argument 1 when there are at least 2 arguments, else empty; the launch parameters are argument 2 when there are at least 3, else "{}" |
| Launcher.ValidateApplication | src/lunaqmlapplication.cpp:139-148 | false for an empty id; false for a local-file entry point whose path is empty or does not exist; true otherwise |
| Launcher.SetupLs2Configuration | src/lunaqmlapplication.cpp:99-114 | at most two pushes. Each push names an existing role file of its own bus. The public push happens iff base/roles/pub/id.json exists, the private one iff base/roles/prv/id.json exists, and public comes first. The paths are the intended concatenation (see Findings) |
| Launcher.RolePath | src/lunaqmlapplication.cpp:101-110 | the intended role file: it starts with base + the bus's role directory, ends in ".json", and the id can be read back from between them |
| Launcher.ArgRoleTemplate | src/lunaqmlapplication.cpp:101-110 | with a base path free of '%', the role template filled by arg(base).arg(id) is RolePath |
| Launcher.RolePathAsWritten | src/lunaqmlapplication.cpp:101-110 | the role path as written equals RolePath whenever the base path holds no '%' |
| Launcher.Setup | src/lunaqmlapplication.cpp:159-192 | an empty URL is refused before anything is loaded; otherwise the result is the engine's verdict |
| Launcher.LaunchApp | src/lunaqmlapplication.cpp:63-97 | exit 1 iff the manifest cannot be opened, exit 2 iff it opens but fails validation; otherwise it runs with a validated description of non-empty id, the role pushes for that id and base, and the setup result |
| LauncherProperties.ArgumentsBeyondParametersIgnored | src/lunaqmlapplication.cpp:53-60 | the program name and arguments after the second are never read |
| LauncherProperties.NoManifestArgumentExitsOne | src/lunaqmlapplication.cpp:53-70 | with fewer than two arguments launchApp exits with 1 |
| LauncherProperties.RelativeEntryPointGate | src/lunaqmlapplication.cpp:139-148 | for a manifest with an id and a scheme-less main under an absolute base, with no "?", "#" or "%" in the path, the app is launchable iff base + "/" + main exists; the arg-built entry point is then the same URL |
| LauncherProperties.MissingIdNeverLaunchable | src/lunaqmlapplication.cpp:141-142 | a non-object manifest, or one without a non-empty string id, is never launchable |
| LauncherProperties.RemoteEntryPointPasses | src/lunaqmlapplication.cpp:144-147 | with a non-empty id, an http/https entry point is remote and passes without any existence check |
| LauncherProperties.MissingEntryPointPassesGate | src/lunaqmlapplication.cpp:63-97 | with a non-empty id and no string main, launchApp passes validation and runs with the empty entry point, and nothing is loaded |
| LauncherProperties.ForeignEntryPointPassesGate | src/lunaqmlapplication.cpp:63-97 | the same holds when main has a scheme other than file, http or https |
| LauncherProperties.RolePathsDiffer | src/lunaqmlapplication.cpp:101-110 | the public and the private role path of one app differ |
| LauncherProperties.RolePathDeterminesId | src/lunaqmlapplication.cpp:101-110 | for one base and bus, equal role paths mean equal app ids |
| LauncherProperties.RolePushesDistinct | src/lunaqmlapplication.cpp:99-114 | no role file is pushed twice |
| LauncherProperties.RolePathAsWrittenValue | src/lunaqmlapplication.cpp:101-110 | with the absolute base path "/%1", the arg-built role path is "/" + id + "/roles/pub/" (or prv) + "%2.json" |
| LauncherProperties.RolePathAsWrittenMisplaces | src/lunaqmlapplication.cpp:101-110 | with the absolute base path "/%1", the arg-built role path is not the role file for any id not starting with '%' |

## Findings

| source | as written | input that shows it | evidently intended | confidence | as-written member | corrected member |
|---|---|---|---|---|---|---|
| src/applicationdescription.cpp:148 | `QString("file://%1/%2").arg(base).arg(main)`: the second `arg` rescans the base path and replaces the lowest marker it finds there | base directory `/%1`, main `index.html` gives `file:///index.html/%2` | `file:///%1/index.html` | medium, not executed (rests on Qt 5's documented lowest-marker rule) | DescriptionProperties.EntryPointAsWrittenMisplaces | Descriptions.LocateEntryPoint |
| src/lunaqmlapplication.cpp:101-110 | `QString("%1/roles/pub/%2.json").arg(base).arg(appId)`, same rescanning | base directory `/%1`, id `org.example.app` gives `/org.example.app/roles/pub/%2.json` | `/%1/roles/pub/org.example.app.json` | medium, not executed | LauncherProperties.RolePathAsWrittenMisplaces | Launcher.RolePath |

The as-written definitions are `Descriptions.LocateEntryPointAsWritten` and
`Launcher.RolePathAsWritten`. The rest of the model uses the concatenating
`Descriptions.LocateEntryPoint` and `Launcher.RolePath`. The two agree whenever the base
path holds no `%`, as the as-written functions' contracts state. A base path holding a
marker numbered 0, 1 or 2 shows the effect. With `%2`, both markers take the second
argument: base `/%2` and main `a` give `file:///a/a`.

## Left out

- JSON text decoding (`QJsonDocument::fromJson`) is done by the toolkit. The model starts
  from the decoded tree, with `None` for text that does not parse. Number values are kept
  as `real`; only their type matters here.
- `QUrl` is modelled only as far as the launcher uses it. Left out: percent-decoding,
  tolerant-mode input fixups, and dropping userinfo and port from the host in
  `toLocalFile`. Schemes, the split at `?`/`#` and ASCII lower-casing of the host are
  modelled.
- Urls.ToLocalFile: does not model QUrl's host validation. A host that is not a valid
  reg-name, such as one holding a space, and non-ASCII hosts, which QUrl converts by IDNA,
  are kept as lower-cased text. QUrl would reject or convert them.
- Urls.LocalFileOfFilePrefix: its relative-path clause inherits that gap. It states the
  local path only for hosts QUrl accepts as written. It is also stated only for a p free of
  "%": `toLocalFile` percent-decodes the path, so `/a%20b.png` names `/a b.png`, and the
  URL model does not decode.
- DescriptionProperties.IconIsNotRelativeToBase: the same host gap applies to a relative
  icon whose first segment is not a valid ASCII host. It is also stated only for an icon
  path free of "%", because the code checks the percent-decoded path.
- Descriptions.LocateEntryPoint: models the intended concatenation, not the chained arg
  call at src/applicationdescription.cpp:148. The two differ only for a base path holding
  a `%` marker numbered 0 to 2 (see Findings). `Descriptions.LocateEntryPointAsWritten`
  models the code as written.
- Descriptions.FromData: resolves `main` through LocateEntryPoint, so the same gap applies.
- Launcher.SetupLs2Configuration: builds role paths with the intended concatenation, not
  the chained arg call at src/lunaqmlapplication.cpp:101-110. The two differ only for a
  base path holding such a marker. `Launcher.RolePathAsWritten` models the code as written.
- Launcher.LaunchApp: builds on FromData and SetupLs2Configuration, so it inherits both
  gaps for a base path holding a `%` marker.
- LauncherProperties.RelativeEntryPointGate: is stated only for an entry path free of "%".
  `toLocalFile` percent-decodes the path, so in the code `my%20app.html` names
  `my app.html`. The URL model does not decode.
- DescriptionProperties.RelativeEntryPointPath: is stated only for an entry path free of
  "%", for the same reason.
- `QString::arg` is modelled for ASCII digits only. Other Unicode decimal digits, which Qt
  also reads as markers, and field width are left out.
- File system access (`QFile::exists`, opening and reading the manifest,
  `QFileInfo::absoluteDir`) is replaced by the oracles described above.
- The bus client calls `LSRegister`, `LSPushRole` and `LSUnregister` are foreign IPC. The model only
  records which role file is requested for which bus (`RolePush`).
- QML engine and component creation, window properties, the glib main loop,
  `webos_application_init`/`attach` and `setApplicationName` are UI and event-loop plumbing.
  Component creation is the `loadable` oracle.
- The relaunch callback and `relaunched` signal are a foreign callback with no logic to model.
- `src/main.cpp` only sets two environment variables and starts the launcher.
- The default constructor leaves several boolean fields uninitialised; only the parsing
  and copy constructors are modelled.
- Logging through `qWarning` and `qDebug` is left out.
- Qt removes its own command-line options from `arguments()` before the constructor reads
  them. The model takes the argument list after that removal.
- Launcher.LaunchApp: `launchApp` calls `setupLs2Configuration(applicationBasePath)` with
  one argument at src/lunaqmlapplication.cpp:89, but the definition at :99 takes
  `(appId, applicationBasePath)`. The model supplies the description's id and the base path.
- Launcher.LaunchApp: the exit status of the event loop (`exec()`) in the running case is not modelled;
  the outcome records what was set up instead.
- Launcher.Setup: component creation errors after the empty-URL guard are one oracle answer, not
  modelled step by step.
