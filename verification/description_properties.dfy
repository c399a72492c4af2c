/** Properties of the application description, stated across several calls. */
module DescriptionProperties {
  import opened Options
  import opened Text
  import opened Json
  import opened Urls
  import opened Descriptions
  import Placeholders

  // ------------------------------------------------------------ tolerant parsing

  /** A key the parser does not recognise changes nothing, whatever it holds. */
  lemma UnknownKeyIgnored(o: map<string, JsonValue>, key: string, v: JsonValue, basePath: string, present: set<string>)
    requires key !in RecognisedKeys
    ensures FromData(Some(JObject(o[key := v])), basePath, present) == FromData(Some(JObject(o)), basePath, present)
  {
    var o' := o[key := v];
    forall k | k in RecognisedKeys
      ensures ReadAgrees(o', o, k)
    {
      assert k != key;
    }
    OnlyTypedReadsMatter(o', o, basePath, present);
  }

  /** `o1` and `o2` answer the parser's typed lookup for `key` alike. */
  predicate ReadAgrees(o1: map<string, JsonValue>, o2: map<string, JsonValue>, key: string)
    requires key in RecognisedKeys
  {
    match KindOf(key)
    case StringKind => StringMember(o1, key) == StringMember(o2, key)
    case BoolKind => BoolMember(o1, key) == BoolMember(o2, key)
    case ArrayKind => ArrayMember(o1, key) == ArrayMember(o2, key)
  }

  /** The description depends on a manifest object only through the typed lookups. */
  lemma OnlyTypedReadsMatter(o1: map<string, JsonValue>, o2: map<string, JsonValue>, basePath: string, present: set<string>)
    requires forall k :: k in RecognisedKeys ==> ReadAgrees(o1, o2, k)
    ensures FromData(Some(JObject(o1)), basePath, present) == FromData(Some(JObject(o2)), basePath, present)
  {
    assert ReadAgrees(o1, o2, "id") && ReadAgrees(o1, o2, "main") && ReadAgrees(o1, o2, "title");
    assert ReadAgrees(o1, o2, "icon") && ReadAgrees(o1, o2, "plugin") && ReadAgrees(o1, o2, "userAgent");
    assert ReadAgrees(o1, o2, "noWindow") && ReadAgrees(o1, o2, "flickable");
    assert ReadAgrees(o1, o2, "internetConnectivityRequired") && ReadAgrees(o1, o2, "useLuneOSStyle");
    assert ReadAgrees(o1, o2, "urlsAllowed");
  }

  /** A recognised key holding the wrong JSON type is treated as if it were absent. */
  lemma MistypedKeyIsAbsent(o: map<string, JsonValue>, key: string, v: JsonValue, basePath: string, present: set<string>)
    requires key in RecognisedKeys && !HasKind(v, KindOf(key))
    ensures FromData(Some(JObject(o[key := v])), basePath, present) == FromData(Some(JObject(o - {key})), basePath, present)
  {
    var o1 := o[key := v];
    var o2 := o - {key};
    forall k | k in RecognisedKeys
      ensures ReadAgrees(o1, o2, k)
    {
      if k != key {
        assert (k in o1 <==> k in o2) && (k in o1 ==> o1[k] == o2[k]);
      }
    }
    OnlyTypedReadsMatter(o1, o2, basePath, present);
  }

  // ----------------------------------------------------------------------- icon

  /** The "file://" prefix is never doubled: prefixing twice is prefixing once. */
  lemma WithFileSchemeIdempotent(path: string)
    ensures WithFileScheme(WithFileScheme(path)) == WithFileScheme(path)
  {
  }

  /**
   * After a successful parse the icon is never empty: it is either a file URL
   * naming an existing file or the bundled default. A document that is not an
   * object returns before the fallback, so its icon stays empty.
   */
  lemma IconAfterParse(doc: Document, basePath: string, present: set<string>)
    ensures var r := FromData(doc, basePath, present);
      && (IsObject(doc) ==> !IsEmpty(r.icon))
      && (IsObject(doc) ==> r.icon == DefaultIcon
                            || (StartsWith(r.icon.text, FilePrefix) && IsLocalFile(r.icon) && FileExists(present, ToLocalFile(r.icon))))
      && (!IsObject(doc) ==> r.icon == Empty)
  {
  }

  /**
   * The icon path is not joined with the base directory: an absolute path is
   * checked as given, and a relative one becomes the file URL's host, so its
   * first segment is checked lower-cased after "//".
   */
  lemma IconIsNotRelativeToBase(o: map<string, JsonValue>, path: string, basePath: string, present: set<string>)
    requires "icon" in o && o["icon"] == JString(path)
    requires Avoids(path, {'?', '#', '%'}) && !StartsWith(path, FilePrefix)
    ensures StartsWith(path, "/") ==>
      FromData(Some(JObject(o)), basePath, present).icon
        == (if path in present then Url(FilePrefix + path) else DefaultIcon)
    ensures path != [] && path[0] != '/' ==>
      var host := TakeUntil(path, {'/'});
      FromData(Some(JObject(o)), basePath, present).icon
        == (if "//" + AsciiLower(host) + path[|host|..] in present then Url(FilePrefix + path) else DefaultIcon)
    ensures path == [] ==> FromData(Some(JObject(o)), basePath, present).icon == DefaultIcon
  {
    LocalFileOfFilePrefix(path);
  }

  // ---------------------------------------------------------------- entry point

  /**
   * A resolved entry point is either the empty URL or carries one of the
   * accepted schemes, and it is empty exactly when it has no scheme.
   */
  lemma ResolvedEntryPointScheme(basePath: string, entry: string)
    ensures var r := LocateEntryPoint(basePath, entry);
      && (Scheme(r) == "" || IsAcceptedScheme(Scheme(r)))
      && (Scheme(r) == "" <==> r == Empty)
  {
    if SchemeOf(entry) == "" {
      assert FilePrefix + basePath + "/" + entry == FilePrefix + (basePath + "/" + entry);
      FilePrefixScheme(basePath + "/" + entry);
    }
  }

  /** Resolving a resolved, non-empty entry point again gives it back unchanged. */
  lemma ResolvedEntryPointIsFixed(basePath: string, entry: string)
    requires LocateEntryPoint(basePath, entry) != Empty
    ensures var r := LocateEntryPoint(basePath, entry);
      LocateEntryPoint(basePath, r.text) == r
  {
    ResolvedEntryPointScheme(basePath, entry);
  }

  /**
   * A scheme-less entry point, the empty one included, names the file
   * basePath + "/" + entry. A path holding '%' is left aside: toLocalFile
   * percent-decodes it, which the URL model does not.
   */
  lemma RelativeEntryPointPath(basePath: string, entry: string)
    requires SchemeOf(entry) == ""
    requires StartsWith(basePath, "/") && Avoids(basePath + "/" + entry, {'?', '#', '%'})
    ensures IsLocalFile(LocateEntryPoint(basePath, entry))
    ensures ToLocalFile(LocateEntryPoint(basePath, entry)) == basePath + "/" + entry
  {
    var p := basePath + "/" + entry;
    assert FilePrefix + basePath + "/" + entry == FilePrefix + p;
    assert StartsWith(p, "/") by { assert p[..1] == basePath[..1]; }
    LocalFileOfFilePrefix(p);
  }

  /** The entry point is remote exactly when the manifest named an http or https URL. */
  lemma RemoteEntryPointIffRemoteScheme(d: ApplicationDescription, entry: string)
    requires d.entryPoint == LocateEntryPoint(d.basePath, entry)
    ensures HasRemoteEntryPoint(d) <==> SchemeOf(entry) == "http" || SchemeOf(entry) == "https"
    ensures HasRemoteEntryPoint(d) ==> !IsLocalFile(d.entryPoint)
  {
    ResolvedEntryPointScheme(d.basePath, entry);
  }

  // ---------------------------------------- entry point built with QString::arg

  /** A lower-case scheme followed by ':' is the URL's scheme. */
  lemma SchemeOfDelimited(scheme: string, rest: string)
    requires Avoids(scheme, {':'}) && ValidScheme(scheme)
    requires forall i :: 0 <= i < |scheme| ==> !IsAsciiUpper(scheme[i])
    ensures SchemeOf(scheme + ":" + rest) == scheme
  {
    assert scheme + ":" + rest == scheme + (":" + rest);
    TakeUntilStopsAt(scheme, ":" + rest, {':'});
    assert AsciiLower(scheme) == scheme;
  }

  /** Text without ':' has no scheme. */
  lemma NoSchemeWithoutColon(s: string)
    requires Avoids(s, {':'})
    ensures SchemeOf(s) == ""
  {
    TakeUntilStopsAt(s, [], {':'});
    assert s + [] == s;
  }

  /**
   * A base directory ending in "%1" after a '%'-free lead D: the entry point
   * takes the place of that "%1", and the template's "%2" stays literal.
   */
  lemma ArgEntryWithMarkerBase(d: string, main: string)
    requires Avoids(d, Placeholders.Percent)
    ensures Placeholders.Arg(Placeholders.Arg(FilePrefix + "%1/%2", d + "%1"), main) == FilePrefix + d + main + "/%2"
  {
    assert FilePrefix + "%1/%2" == "file://" + "%1" + "/" + "%2" + "";
    assert Avoids("file://", Placeholders.Percent) && Avoids("/", Placeholders.Percent) && Avoids("", Placeholders.Percent);
    assert !Placeholders.StartsWithDigit("/") && !Placeholders.StartsWithDigit("");
    Placeholders.MarkerArgumentSwallowsSecond("file://", "/", "", d, d + "%1", main);
    assert "file://" + d + main + "/" + "%2" + "" == FilePrefix + d + main + "/%2";
  }

  /**
   * With the base directory "/%1", the chained arg call puts the entry point in
   * place of the directory's "%1" and leaves a literal "%2" behind.
   */
  lemma EntryPointAsWrittenValue(basePath: string, main: string)
    requires basePath == "/%1" && SchemeOf(main) == ""
    ensures LocateEntryPointAsWritten(basePath, main) == Url("file:///" + main + "/%2")
  {
    var d := "/";
    assert Avoids(d, Placeholders.Percent) && basePath == d + "%1";
    assert LocateEntryPointAsWritten(basePath, main)
        == Url(Placeholders.Arg(Placeholders.Arg(FilePrefix + "%1/%2", basePath), main));
    ArgEntryWithMarkerBase(d, main);
    assert FilePrefix + d + main + "/%2" == "file:///" + main + "/%2";
  }

  /**
   * With the base directory "/%1" the arg-built URL differs from the intended
   * "file:///%1/" + main for every scheme-less entry point not starting with '%'.
   */
  lemma EntryPointAsWrittenMisplaces(basePath: string, main: string)
    requires basePath == "/%1" && SchemeOf(main) == ""
    requires main != [] && main[0] != '%'
    ensures LocateEntryPointAsWritten(basePath, main) != LocateEntryPoint(basePath, main)
  {
    EntryPointAsWrittenValue(basePath, main);
    assert LocateEntryPointAsWritten(basePath, main).text[8] == main[0];
    assert LocateEntryPoint(basePath, main).text[8] == '%';
  }

  // ------------------------------------------------------------ worked examples
  //
  // The example strings enter as parameters pinned by `requires` rather than
  // as literals in the ensures: a literal argument makes the verifier unfold
  // the scheme scan character by character, which is far slower.

  /** A bare file name is taken relative to the base directory. */
  lemma RelativeEntryPointExample(basePath: string, main: string)
    requires basePath == "/apps/foo" && main == "index.html"
    ensures LocateEntryPoint(basePath, main) == Url("file:///apps/foo/index.html")
  {
    NoSchemeWithoutColon(main);
    assert FilePrefix + basePath + "/" + main == "file:///apps/foo/index.html";
  }

  /** A URL whose scheme is file, http or https is kept as written, whatever follows the ':'. */
  lemma AcceptedSchemeKept(basePath: string, scheme: string, rest: string)
    requires Avoids(scheme, {':'}) && ValidScheme(scheme) && IsAcceptedScheme(scheme)
    ensures LocateEntryPoint(basePath, scheme + ":" + rest) == Url(scheme + ":" + rest)
  {
    assert forall i :: 0 <= i < |scheme| ==> !IsAsciiUpper(scheme[i]) by {
      assert forall i :: 0 <= i < |scheme| ==> scheme[i] in "fileshtp";
    }
    SchemeOfDelimited(scheme, rest);
  }

  /** An ftp entry point is rejected as the empty URL. */
  lemma ForeignSchemeExample(basePath: string, main: string)
    requires basePath == "/apps/foo" && main == "ftp://ex.com/a"
    ensures LocateEntryPoint(basePath, main) == Empty
  {
    SchemeOfDelimited("ftp", "//ex.com/a");
    assert "ftp" + ":" + "//ex.com/a" == main;
    assert SchemeOf(main) == "ftp";
    assert !IsAcceptedScheme("ftp") by {
      assert |"ftp"| == 3 && "ftp"[1] == 't';
    }
  }

  /** An empty `main` has no scheme, so it names the base directory itself. */
  lemma EmptyEntryPointExample()
    ensures LocateEntryPoint("/apps/foo", "") == Url("file:///apps/foo/")
  {
    NoSchemeWithoutColon("");
  }

  /** urlsAllowed ["https://a", 3, "https://b"] keeps the two strings in order. */
  lemma UrlsAllowedExample()
    ensures StringElements([JString("https://a"), JNumber(3.0), JString("https://b")]) == ["https://a", "https://b"]
  {
    var items := [JString("https://a"), JNumber(3.0), JString("https://b")];
    assert items == [items[0]] + [items[1]] + [items[2]];
    StringElementsAppend([items[0]] + [items[1]], [items[2]]);
    StringElementsAppend([items[0]], [items[1]]);
  }
}
