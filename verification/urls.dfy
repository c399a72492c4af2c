/**
 * The part of QUrl the launcher relies on: the scheme (section 3.1 of
 * RFC 3986), emptiness, isLocalFile and toLocalFile. A URL is kept as the
 * text it was built from.
 */
module Urls {
  import opened Text

  datatype Url = Url(text: string)

  /** QUrl("") and a default-constructed QUrl. */
  const Empty: Url := Url("")

  const FilePrefix: string := "file://"

  predicate IsEmpty(u: Url) {
    u.text == []
  }

  /** ALPHA *( ALPHA / DIGIT / "+" / "-" / "." ), except that QUrl accepts an empty scheme. */
  predicate ValidScheme(s: string) {
    forall i :: 0 <= i < |s| ==>
      IsAsciiLetter(s[i]) || (0 < i && (IsAsciiDigit(s[i]) || s[i] == '+' || s[i] == '-' || s[i] == '.'))
  }

  /** The text before the first ':'. */
  function SchemePart(s: string): string {
    TakeUntil(s, {':'})
  }

  /** True when `s` has a ':' whose prefix parses as a scheme. */
  predicate HasSchemeDelimiter(s: string) {
    |SchemePart(s)| < |s| && ValidScheme(SchemePart(s))
  }

  /**
   * QUrl::scheme on the URL parsed from `s`: the lower-cased prefix before the
   * first ':' when that prefix is a valid scheme, otherwise "" (the whole text
   * is then a relative reference).
   */
  function SchemeOf(s: string): (r: string)
    ensures r != [] ==> |r| < |s| && s[|r|] == ':' && r == AsciiLower(s[..|r|])
    ensures r != [] ==> Avoids(r, {':', '/', '?', '#'})
  {
    if HasSchemeDelimiter(s) then AsciiLower(SchemePart(s)) else ""
  }

  function Scheme(u: Url): string {
    SchemeOf(u.text)
  }

  predicate IsLocalFile(u: Url) {
    Scheme(u) == "file"
  }

  /** Everything after the scheme's ':' up to a query or fragment. */
  function HierPart(s: string): string
    requires HasSchemeDelimiter(s)
  {
    TakeUntil(s[|SchemePart(s)| + 1..], {'?', '#'})
  }

  /** The authority of a hierarchical part "//authority/path": the text up to the next '/'. */
  function Authority(h: string): (r: string)
    requires StartsWith(h, "//")
    ensures StartsWith(h[2..], r) && Avoids(r, {'/'})
    ensures 2 + |r| < |h| ==> h[2 + |r|] == '/'
  {
    TakeUntil(h[2..], {'/'})
  }

  /**
   * QUrl::toLocalFile: the path of a file URL. An empty authority ("file:///p")
   * is dropped; a named one is kept in the "//host/p" form, with the host
   * lower-cased as QUrl normalises it.
   */
  function ToLocalFile(u: Url): string {
    if !IsLocalFile(u) then ""
    else
      var h := HierPart(u.text);
      if !StartsWith(h, "//") then h
      else
        var host := Authority(h);
        if host == "" then h[2..] else "//" + AsciiLower(host) + h[2 + |host|..]
  }

  /** Prefixing "file://" always yields a file URL, whatever follows. */
  lemma FilePrefixScheme(x: string)
    ensures HasSchemeDelimiter(FilePrefix + x)
    ensures SchemePart(FilePrefix + x) == "file"
    ensures Scheme(Url(FilePrefix + x)) == "file"
  {
    assert FilePrefix + x == "file" + ("://" + x);
    TakeUntilStopsAt("file", "://" + x, {':'});
    assert AsciiLower("file") == "file";
  }

  /** The hierarchical part of "file://" + p is "//" + p when p has no query or fragment. */
  lemma HierPartOfFilePrefix(p: string)
    requires Avoids(p, {'?', '#'})
    ensures IsLocalFile(Url(FilePrefix + p))
    ensures HierPart(FilePrefix + p) == "//" + p
  {
    FilePrefixScheme(p);
    var s := FilePrefix + p;
    assert s[|SchemePart(s)| + 1..] == "//" + p;
    assert Avoids("//" + p, {'?', '#'}) by {
      forall i | 0 <= i < |"//" + p| ensures ("//" + p)[i] !in {'?', '#'} {
        if i >= 2 { assert ("//" + p)[i] == p[i - 2]; }
      }
    }
    TakeUntilStopsAt("//" + p, [], {'?', '#'});
    assert ("//" + p) + [] == "//" + p;
  }

  /**
   * The local path of "file://" + p: p itself for an absolute path, and for a
   * relative one the "//host/rest" form whose host, the text up to the first
   * '/', is lower-cased; nothing else is added. A p holding '%' is left aside:
   * toLocalFile percent-decodes it, which this model does not.
   */
  lemma LocalFileOfFilePrefix(p: string)
    requires Avoids(p, {'?', '#', '%'})
    ensures IsLocalFile(Url(FilePrefix + p))
    ensures StartsWith(p, "/") || p == [] ==> ToLocalFile(Url(FilePrefix + p)) == p
    ensures p != [] && p[0] != '/' ==>
      var host := TakeUntil(p, {'/'});
      ToLocalFile(Url(FilePrefix + p)) == "//" + AsciiLower(host) + p[|host|..]
  {
    HierPartOfFilePrefix(p);
    var u := Url(FilePrefix + p);
    var h := "//" + p;
    assert StartsWith(h, "//") && h[2..] == p;
    var host := Authority(h);
    assert host == TakeUntil(p, {'/'});
    assert ToLocalFile(u) == (if host == "" then p else "//" + AsciiLower(host) + p[|host|..]);
    if p != [] && p[0] != '/' {
      assert host != [] by { assert p[0] !in {'/'}; }
    } else if p != [] {
      assert host == [] by { assert p[0] in {'/'}; }
    }
  }
}
