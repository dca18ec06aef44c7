/** Documentation version prefixes: adding, stripping, detecting, scoping, and moving between versions. */
module DocsVersions {
  import opened Text

  /** A registered version; only the identifier decides routing. */
  datatype Version = Version(id: string)
  {
    predicate IsLatest() {
      id == "latest"
    }
  }

  const DOCS_VERSIONS := [Version("latest"), Version("1.6")]

  /** What routing needs of a list of versions: the latest first, then distinct path segments. */
  ghost predicate Registered(versions: seq<Version>) {
    && versions != [] && versions[0].IsLatest()
    && (forall i, j | 0 <= i < j < |versions| :: versions[i].id != versions[j].id)
    && (forall v | v in versions :: v.id != "" && '/' !in v.id && '?' !in v.id && '#' !in v.id)
  }

  lemma DocsVersionsRegistered()
    ensures Registered(DOCS_VERSIONS)
  {
    assert DOCS_VERSIONS[0].id[0] == 'l' && DOCS_VERSIONS[1].id[0] == '1';
  }

  // ----- Adding and stripping prefixes -----

  /** The query or fragment after the docs root; `None` for every other path. */
  function RootSuffix(path: string): Option<string> {
    if !("/docs" <= path) then None
    else
      var rest := if "/docs/" <= path then path[6..] else path[5..];
      if rest == "" then Some("")
      else if rest[0] in "?#" && forall c | c in rest[1..] :: !IsLineTerminator(c) then Some(rest)
      else None
  }

  /** A path without a leading `/docs`. */
  function Tail(path: string): string {
    if "/docs" <= path then path[5..] else path
  }

  function Prefix(v: Version): string {
    "/docs/" + v.id
  }

  function VersionedDocsHref(path: string, v: Version): string {
    if v.IsLatest() then path
    else
      var suffix := RootSuffix(path);
      if suffix.Some? then Prefix(v) + "/introduction" + suffix.value
      else Prefix(v) + Tail(path)
  }

  function StripVersionPrefix(pathname: string, v: Version): string {
    if v.IsLatest() then pathname
    else if pathname == Prefix(v) || pathname == Prefix(v) + "/" then "/docs"
    else if Prefix(v) + "/" <= pathname then "/docs" + pathname[|Prefix(v)|..]
    else pathname
  }

  /** A path below the docs root that names a page. */
  predicate IsCanonicalPage(path: string) {
    "/docs/" <= path && RootSuffix(path).None?
  }

  /** Stripping undoes adding a prefix exactly on pages below the docs root. */
  lemma StripUndoesVersioned(path: string, v: Version)
    requires '/' !in v.id
    ensures StripVersionPrefix(VersionedDocsHref(path, v), v) == path <==> v.IsLatest() || IsCanonicalPage(path)
  {
    if !v.IsLatest() {
      if RootSuffix(path).Some? {
        StripOfRoot(path, v, RootSuffix(path).value);
      } else if "/docs/" <= path {
        assert Tail(path)[0] == '/' && |path| > 6;
        StripOfTail(v, Tail(path));
        assert "/docs" + Tail(path) == path;
      } else {
        StripOfOther(path, v);
      }
    }
  }

  /** Stripping a version's prefix leaves the page's path, or the docs root, and other paths as they are. */
  lemma StripExact(pathname: string, v: Version)
    ensures v.id == "latest" || !("/docs/" + v.id <= pathname) ==> StripVersionPrefix(pathname, v) == pathname
    ensures v.id != "latest" && "/docs/" + v.id <= pathname ==>
              var rest := pathname[|"/docs/" + v.id|..];
              StripVersionPrefix(pathname, v) == if rest in ["", "/"] then "/docs" else if rest[0]
                == '/' then "/docs" + rest
                                                 else pathname
  {
    if Prefix(v) <= pathname {
      var rest := pathname[|Prefix(v)|..];
      assert pathname == Prefix(v) + rest;
      if rest != "" && rest[0] == '/' {
        assert rest == "/" + rest[1..];
        assert Prefix(v) + "/" <= pathname;
      }
    }
  }

  lemma StripOfTail(v: Version, tail: string)
    requires !v.IsLatest() && |tail| > 1 && tail[0] == '/'
    ensures StripVersionPrefix(Prefix(v) + tail, v) == "/docs" + tail
  {
    var href := Prefix(v) + tail;
    assert href[|Prefix(v)|..] == tail && Prefix(v) + "/" <= href && |href| > |Prefix(v)| + 1;
  }

  lemma StripOfRoot(path: string, v: Version, suffix: string)
    requires !v.IsLatest() && RootSuffix(path) == Some(suffix)
    ensures StripVersionPrefix(VersionedDocsHref(path, v), v) != path
  {
    var tail := "/introduction" + suffix;
    assert tail[0] == '/' && tail[1] == 'i';
    assert VersionedDocsHref(path, v) == Prefix(v) + tail by {
      Associative(Prefix(v), "/introduction", suffix);
    }
    StripOfTail(v, tail);
    assert ("/docs" + tail)[6] == 'i';
  }

  lemma StripOfOther(path: string, v: Version)
    requires !v.IsLatest() && RootSuffix(path).None? && !("/docs/" <= path)
    ensures StripVersionPrefix(VersionedDocsHref(path, v), v) != path
  {
    var href := VersionedDocsHref(path, v);
    assert href[|Prefix(v)|..] == Tail(path);
    if "/docs" <= path {
      assert Tail(path) != "" && Tail(path)[0] != '/';
      assert href[|Prefix(v)|] != '/';
      assert |href| > |path|;
    } else {
      assert "/docs" <= StripVersionPrefix(href, v);
    }
  }

  // ----- Detecting the version -----

  /** Matches on a full path segment. */
  predicate IsUnder(pathname: string, v: Version) {
    pathname == Prefix(v) || Prefix(v) + "/" <= pathname
  }

  function FindVersion(versions: seq<Version>, pathname: string): Option<Version> {
    if versions == [] then None
    else if !versions[0].IsLatest() && IsUnder(pathname, versions[0]) then Some(versions[0])
    else FindVersion(versions[1..], pathname)
  }

  function GetVersionFromPathname(versions: seq<Version>, pathname: string): Version
    requires versions != []
  {
    var found := FindVersion(versions, pathname);
    if found.Some? then found.value else versions[0]
  }

  lemma {:induction false} UnderNamesSegment(pathname: string, v: Version)
    requires '/' !in v.id && IsUnder(pathname, v)
    ensures |Split(pathname, '/')| > 2 && Split(pathname, '/')[2] == v.id
  {
    var rest := pathname[|Prefix(v)|..];
    assert pathname == Prefix(v) + rest == "/docs/" + (v.id + rest);
    SplitDocsPath(v.id + rest);
    SplitId(v, rest);
  }

  lemma {:induction false} SplitDocsPath(tail: string)
    ensures Split("/docs/" + tail, '/') == ["", "docs"] + Split(tail, '/')
  {
    assert "/docs/" + tail == "" + "/" + ("docs" + "/" + tail);
    SplitAtSeparator("", '/', "docs" + "/" + tail);
    SplitAtSeparator("docs", '/', tail);
  }

  lemma {:induction false} SplitId(v: Version, rest: string)
    requires '/' !in v.id && (rest == "" || rest[0] == '/')
    ensures Split(v.id + rest, '/')[0] == v.id
  {
    if rest == "" {
      assert v.id + rest == v.id;
      SplitPlain(v.id, '/');
    } else {
      assert rest == "/" + rest[1..];
      assert v.id + rest == v.id + "/" + rest[1..];
      SplitAtSeparator(v.id, '/', rest[1..]);
    }
  }

  /** No path lies under two versions. */
  lemma UnderOne(pathname: string, v: Version, w: Version)
    requires '/' !in v.id && '/' !in w.id && IsUnder(pathname, v) && IsUnder(pathname, w)
    ensures v == w
  {
    UnderNamesSegment(pathname, v);
    UnderNamesSegment(pathname, w);
  }

  /** Detection finds exactly the version that a path lies under. */
  lemma {:induction false} FindVersionExact(versions: seq<Version>, pathname: string, v: Version)
    requires forall w | w in versions :: '/' !in w.id
    requires '/' !in v.id
    ensures FindVersion(versions, pathname) == Some(v) <==> v in versions && !v.IsLatest() && IsUnder(pathname, v)
  {
    if versions != [] {
      FindVersionExact(versions[1..], pathname, v);
      var first := versions[0];
      assert v in versions <==> v == first || v in versions[1..];
      if !first.IsLatest() && IsUnder(pathname, first) && IsUnder(pathname, v) {
        UnderOne(pathname, first, v);
      }
    }
  }

  /** A version's own href lies under it exactly when the path kept a full segment of its own. */
  lemma VersionedIsUnder(path: string, v: Version)
    requires !v.IsLatest()
    ensures IsUnder(VersionedDocsHref(path, v), v)
            <==> RootSuffix(path).Some? || Tail(path) == "" || Tail(path)[0] == '/'
  {
    var href := VersionedDocsHref(path, v);
    if RootSuffix(path).Some? {
      var rest := "/introduction" + RootSuffix(path).value;
      assert href == Prefix(v) + rest && rest[0] == '/';
      assert Prefix(v) + "/" <= href;
    } else if Tail(path) == "" {
      assert href == Prefix(v);
    } else {
      assert href[|Prefix(v)|] == Tail(path)[0];
    }
  }

  /** Detection returns the version that was added exactly when the path kept a full segment of its own. */
  lemma DetectVersioned(versions: seq<Version>, path: string, v: Version)
    requires Registered(versions) && v in versions
    ensures GetVersionFromPathname(versions, VersionedDocsHref(path, v)) == v
            <==> if v.IsLatest() then forall w | w in versions && !w.IsLatest() :: !IsUnder(path, w)
                 else RootSuffix(path).Some? || Tail(path) == "" || Tail(path)[0] == '/'
  {
    if v.IsLatest() {
      FindVersionSound(versions, path);
      forall w | w in versions && !w.IsLatest() && IsUnder(path, w) ensures FindVersion(versions, path) == Some(w) {
        FindVersionExact(versions, path, w);
      }
    } else {
      VersionedIsUnder(path, v);
      FindVersionExact(versions, VersionedDocsHref(path, v), v);
      assert versions[0] != v;
    }
  }

  // ----- Scoping links -----

  /** `/docs` itself, or `/docs` followed by a slash, query or fragment. */
  predicate IsDocsHref(href: string) {
    "/docs" <= href && (|href| == 5 || href[5] in "/?#")
  }

  /** The part of a link before its query and fragment. */
  function PathOnly(href: string): (path: string)
    ensures path <= href
    ensures forall c | c in path :: c !in "?#"
  {
    if href == "" || href[0] in "?#" then "" else [href[0]] + PathOnly(href[1..])
  }

  predicate TargetsVersion(versions: seq<Version>, href: string) {
    var segments := Split(PathOnly(href), '/');
    |segments| > 2 && exists v | v in versions :: !v.IsLatest() && v.id == segments[2]
  }

  function ScopeDocsHref(versions: seq<Version>, href: string, v: Version): string {
    if href == "" || v.IsLatest() then href
    else if !IsDocsHref(href) then href
    else if TargetsVersion(versions, href) then href
    else VersionedDocsHref(href, v)
  }

  lemma {:induction false} PathOnlyAppend(left: string, right: string)
    requires '?' !in left && '#' !in left
    ensures PathOnly(left + right) == left + PathOnly(right)
  {
    if left == "" {
      assert left + right == right;
    } else {
      assert (left + right)[1..] == left[1..] + right;
      PathOnlyAppend(left[1..], right);
    }
  }

  /** A link that starts with a version prefix and a segment boundary targets that version. */
  lemma PrefixTargets(versions: seq<Version>, v: Version, rest: string)
    requires Registered(versions) && v in versions && !v.IsLatest()
    requires rest == "" || rest[0] in "/?#"
    ensures IsDocsHref(Prefix(v) + rest) && TargetsVersion(versions, Prefix(v) + rest)
  {
    PathOnlyAppend(Prefix(v), rest);
    var path := Prefix(v) + PathOnly(rest);
    assert IsUnder(path, v) by {
      if PathOnly(rest) != "" {
        assert PathOnly(rest)[0] == '/';
      }
    }
    UnderNamesSegment(path, v);
  }

  /** Scoping any link twice is scoping it once. */
  lemma ScopeIdempotent(versions: seq<Version>, href: string, v: Version)
    requires Registered(versions) && v in versions
    ensures ScopeDocsHref(versions, ScopeDocsHref(versions, href, v), v) == ScopeDocsHref(versions, href, v)
  {
    var scoped := ScopeDocsHref(versions, href, v);
    if scoped != href {
      var rest := if RootSuffix(href).Some? then "/introduction" + RootSuffix(href).value else Tail(href);
      assert scoped == Prefix(v) + rest;
      assert rest == "" || rest[0] in "/?#" by {
        if RootSuffix(href).None? && Tail(href) != "" {
          assert Tail(href)[0] == href[5];
        }
      }
      PrefixTargets(versions, v, rest);
    }
  }

  /** A scoped page link strips back to the link the author wrote. */
  lemma ScopedPageStripsBack(versions: seq<Version>, href: string, v: Version)
    requires Registered(versions) && v in versions && IsCanonicalPage(href) && !TargetsVersion(versions, href)
    ensures StripVersionPrefix(ScopeDocsHref(versions, href, v), v) == href
  {
    StripUndoesVersioned(href, v);
  }

  // ----- Which links are scoped, and to what -----

  /** A link into the documentation: its root, alone or followed by a slash, query or fragment. */
  predicate IsDocsLink(href: string) {
    href == "/docs" || "/docs/" <= href || "/docs?" <= href || "/docs#" <= href
  }

  /** A link to the version's own part of the documentation, whatever its query and fragment. */
  predicate LiesUnder(href: string, v: Version) {
    "/docs/" + v.id <= href && (|href| == |"/docs/" + v.id| || href[|"/docs/" + v.id|] in "/?#")
  }

  predicate LiesUnderSome(versions: seq<Version>, href: string) {
    exists v | v in versions :: v.id != "latest" && LiesUnder(href, v)
  }

  /** A link to the docs root: all that follows is a query or fragment. */
  predicate IsRootLink(href: string, suffix: string) {
    && (href == "/docs" + suffix || href == "/docs/" + suffix)
    && (suffix == "" || (suffix[0] in "?#" && forall c | c in suffix[1..] :: !IsLineTerminator(c)))
  }

  lemma RootSuffixExact(href: string, suffix: string)
    ensures RootSuffix(href) == Some(suffix) <==> IsRootLink(href, suffix)
  {
    if "/docs" <= href {
      assert href == "/docs" + href[5..];
      if "/docs/" <= href {
        assert href == "/docs/" + href[6..] && href[5] == '/';
      }
    }
    if href == "/docs" + suffix {
      assert href[5..] == suffix;
    }
    if href == "/docs/" + suffix {
      assert href[6..] == suffix;
    }
  }

  /**
   What a version's prefix makes of a path: the docs root becomes the introduction with its query and
   fragment, and any other path keeps everything after its `/docs`.
   */
  lemma VersionedExact(path: string, v: Version)
    ensures v.id == "latest" ==> VersionedDocsHref(path, v) == path
    ensures forall suffix | v.id != "latest" && IsRootLink(path, suffix) ::
              VersionedDocsHref(path, v) == "/docs/" + v.id + "/introduction" + suffix
    ensures v.id != "latest" && (forall suffix :: !IsRootLink(path, suffix)) ==>
              VersionedDocsHref(path, v) == "/docs/" + v.id + (if "/docs" <= path then path[5..] else path)
  {
    forall suffix | v.id != "latest" && IsRootLink(path, suffix)
      ensures VersionedDocsHref(path, v) == "/docs/" + v.id + "/introduction" + suffix
    {
      RootSuffixExact(path, suffix);
    }
    if RootSuffix(path).Some? {
      RootSuffixExact(path, RootSuffix(path).value);
    }
  }

  lemma {:induction false} FirstPart(s: string, sep: char)
    ensures var head := Split(s, sep)[0]; head <= s && (|head| == |s| || s[|head|] == sep)
  {
    if s != "" && s[0] != sep {
      FirstPart(s[1..], sep);
    }
  }

  lemma {:induction false} PathOnlyEnds(href: string)
    ensures |PathOnly(href)| == |href| || href[|PathOnly(href)|] in "?#"
  {
    if href != "" && href[0] !in "?#" {
      PathOnlyEnds(href[1..]);
    }
  }

  /** The third segment of a docs path decides what it lies under. */
  lemma {:induction false} ThirdSegment(tail: string, rest: string, v: Version)
    requires Split("/docs/" + tail, '/')[2..] != [] && Split("/docs/" + tail, '/')[2] == v.id
    requires rest == "" || rest[0] in "?#"
    ensures LiesUnder("/docs/" + tail + rest, v)
  {
    SplitDocsPath(tail);
    FirstPart(tail, '/');
    var href := "/docs/" + tail + rest;
    assert tail[..|v.id|] == v.id;
    assert href[..|"/docs/" + v.id|] == "/docs/" + tail[..|v.id|];
    if |v.id| < |tail| {
      assert href[|"/docs/" + v.id|] == tail[|v.id|];
    } else if rest != "" {
      assert href[|"/docs/" + v.id|] == rest[0];
    }
  }

  lemma TargetedLiesUnder(versions: seq<Version>, href: string)
    requires IsDocsHref(href) && TargetsVersion(versions, href)
    ensures LiesUnderSome(versions, href)
  {
    var path := PathOnly(href);
    PathOnlyEnds(href);
    var rest := href[|path|..];
    assert href == path + rest;
    MoreSegments(path);
    TargetedPath(href, path);
    var v :| v in versions && !v.IsLatest() && v.id == Split(path, '/')[2];
    ThirdSegment(path[6..], rest, v);
  }

  lemma TargetedPath(href: string, path: string)
    requires IsDocsHref(href) && path <= href && '?' !in path && '#' !in path && path != "/docs"
    requires |path| == |href| || href[|path|] in "?#"
    ensures "/docs/" <= path && path == "/docs/" + path[6..]
  {
    PathHasRoot(href, path);
    assert path[5] == href[5] && path[5] in path;
  }

  lemma PathHasRoot(href: string, path: string)
    requires "/docs" <= href && path <= href && (|path| == |href| || href[|path|] in "?#")
    ensures "/docs" <= path && (|path| == 5 ==> path == "/docs")
  {
    assert forall k | 0 <= k < 5 :: href[k] in href[..5];
    assert '?' !in "/docs" && '#' !in "/docs";
  }

  lemma {:induction false} MoreSegments(path: string)
    requires |Split(path, '/')| > 2
    ensures path != "/docs"
  {
    RootHasTwoSegments();
  }

  lemma RootHasTwoSegments()
    ensures Split("/docs", '/') == ["", "docs"]
  {
    assert "/docs" == "" + "/" + "docs";
    SplitAtSeparator("", '/', "docs");
    SplitPlain("docs", '/');
  }

  lemma TargetsExact(versions: seq<Version>, href: string)
    requires Registered(versions) && IsDocsHref(href)
    ensures TargetsVersion(versions, href) <==> LiesUnderSome(versions, href)
  {
    if TargetsVersion(versions, href) {
      TargetedLiesUnder(versions, href);
    }
    if v :| v in versions && v.id != "latest" && LiesUnder(href, v) {
      var rest := href[|Prefix(v)|..];
      assert href == Prefix(v) + rest;
      PrefixTargets(versions, v, rest);
    }
  }

  lemma DocsLinkExact(href: string)
    ensures IsDocsHref(href) <==> IsDocsLink(href)
  {
    if "/docs" <= href && |href| > 5 {
      assert href[..6] == "/docs" + [href[5]];
    }
  }

  /** A link that starts with a version's prefix is not one that scoping keeps. */
  lemma VersionedDiffers(versions: seq<Version>, href: string, v: Version)
    requires Registered(versions) && v in versions && !v.IsLatest() && IsDocsHref(href)
             && !TargetsVersion(versions, href)
    ensures LiesUnder(VersionedDocsHref(href, v), v) && VersionedDocsHref(href, v) != href
  {
    var rest := if RootSuffix(href).Some? then "/introduction" + RootSuffix(href).value else Tail(href);
    assert VersionedDocsHref(href, v) == Prefix(v) + rest;
    assert rest == "" || rest[0] in "/?#" by {
      if RootSuffix(href).None? && Tail(href) != "" {
        assert Tail(href)[0] == href[5];
      }
    }
    PrefixTargets(versions, v, rest);
  }

  /**
   For a version other than the latest, a link is changed if and only if it leads into the
   documentation and under no registered version; then it leads under this one.
   */
  lemma ScopedExactly(versions: seq<Version>, href: string, v: Version)
    requires Registered(versions) && v in versions
    ensures ScopeDocsHref(versions, href, v) != href
            <==> v.id != "latest" && IsDocsLink(href) && !LiesUnderSome(versions, href)
    ensures var scoped := ScopeDocsHref(versions, href, v);
            scoped != href ==>
              && LiesUnder(scoped, v)
              && (forall suffix | IsRootLink(href, suffix) :: scoped == "/docs/" + v.id + "/introduction" + suffix)
              && ((forall suffix :: !IsRootLink(href, suffix)) ==> scoped == "/docs/" + v.id + href[5..])
  {
    DocsLinkExact(href);
    VersionedExact(href, v);
    if IsDocsHref(href) {
      TargetsExact(versions, href);
      if !v.IsLatest() && !TargetsVersion(versions, href) {
        VersionedDiffers(versions, href, v);
      }
    }
  }

  // ----- Slugs -----

  function GetVersionById(versions: seq<Version>, id: string): Option<Version> {
    if versions == [] then None
    else if versions[0].id == id then Some(versions[0])
    else GetVersionById(versions[1..], id)
  }

  function ResolveVersionFromSlug(versions: seq<Version>, slug: seq<string>): (Version, seq<string>)
    requires versions != []
  {
    if slug != [] && slug[0] != "" && slug[0] != "latest" && GetVersionById(versions, slug[0]).Some? then
      (GetVersionById(versions, slug[0]).value, slug[1..])
    else
      (versions[0], slug)
  }

  /** The pathname that a slug belongs to. */
  function SlugPath(slug: seq<string>): string {
    if slug == [] then "/docs" else "/docs/" + Join(slug, "/")
  }

  lemma {:induction false} GetVersionByIdExact(versions: seq<Version>, id: string)
    ensures GetVersionById(versions, id) == if Version(id) in versions then Some(Version(id)) else None
  {
    if versions != [] {
      GetVersionByIdExact(versions[1..], id);
      assert Version(id) in versions <==> versions[0] == Version(id) || Version(id) in versions[1..];
    }
  }

  /** A slug's path lies under a version exactly when its first segment is the version's identifier. */
  lemma SlugUnder(slug: seq<string>, v: Version)
    requires AreSegments(slug) && '/' !in v.id && v.id != ""
    ensures IsUnder(SlugPath(slug), v) <==> slug != [] && slug[0] == v.id
  {
    assert |Prefix(v)| > |"/docs"|;
    if IsUnder(SlugPath(slug), v) {
      UnderNamesSegment(SlugPath(slug), v);
      if slug != [] {
        SlugPathSplits(slug);
      }
    }
    if slug != [] && slug[0] == v.id {
      SlugStartsUnder(slug, v);
    }
  }

  lemma SlugPathSplits(slug: seq<string>)
    requires AreSegments(slug) && slug != []
    ensures Split(SlugPath(slug), '/') == ["", "docs"] + slug
  {
    SplitJoin(slug, '/');
    SplitDocsPath(Join(slug, "/"));
  }

  lemma SlugStartsUnder(slug: seq<string>, v: Version)
    requires slug != [] && slug[0] == v.id
    ensures IsUnder(SlugPath(slug), v)
  {
    if |slug| == 1 {
      assert SlugPath(slug) == Prefix(v);
    } else {
      assert SlugPath(slug) == Prefix(v) + "/" + Join(slug[1..], "/");
    }
  }

  lemma {:induction false} SlugOfLatest(versions: seq<Version>, slug: seq<string>)
    requires Registered(versions) && AreSegments(slug) && ResolveVersionFromSlug(versions, slug).0.IsLatest()
    ensures ResolveVersionFromSlug(versions, slug) == (versions[0], slug)
    ensures FindVersion(versions, SlugPath(slug)).None?
  {
    if slug != [] {
      GetVersionByIdExact(versions, slug[0]);
    }
    FindVersionSound(versions, SlugPath(slug));
    if FindVersion(versions, SlugPath(slug)).Some? {
      SlugUnder(slug, FindVersion(versions, SlugPath(slug)).value);
    }
  }

  lemma ResolvedNamesFirst(versions: seq<Version>, slug: seq<string>)
    requires Registered(versions) && !ResolveVersionFromSlug(versions, slug).0.IsLatest()
    ensures var (v, rest) := ResolveVersionFromSlug(versions, slug);
            v in versions && slug == [v.id] + rest
  {
    GetVersionByIdExact(versions, slug[0]);
  }

  lemma {:induction false} SlugOfVersion(versions: seq<Version>, slug: seq<string>)
    requires Registered(versions) && AreSegments(slug) && !ResolveVersionFromSlug(versions, slug).0.IsLatest()
    ensures var (v, rest) := ResolveVersionFromSlug(versions, slug);
            v in versions && slug == [v.id] + rest && FindVersion(versions, SlugPath(slug)) == Some(v)
  {
    ResolvedNamesFirst(versions, slug);
    SlugNamesVersion(versions, slug, ResolveVersionFromSlug(versions, slug).0);
  }

  lemma {:induction false} SlugNamesVersion(versions: seq<Version>, slug: seq<string>, v: Version)
    requires Registered(versions) && AreSegments(slug) && v in versions && !v.IsLatest()
    requires slug != [] && slug[0] == v.id
    ensures FindVersion(versions, SlugPath(slug)) == Some(v)
  {
    SlugUnder(slug, v);
    FindVersionExact(versions, SlugPath(slug), v);
  }

  lemma SegmentsTail(slug: seq<string>)
    requires AreSegments(slug) && |slug| > 1
    ensures AreSegments(slug[1..]) && Join(slug[1..], "/") != ""
  {
    assert slug[1] in slug;
    forall segment | segment in slug[1..] ensures segment != "" && '/' !in segment {
      assert segment in slug;
    }
  }

  lemma StripOf(v: Version, page: string)
    requires !v.IsLatest() && page != ""
    ensures StripVersionPrefix(Prefix(v) + ("/" + page), v) == "/docs" + ("/" + page)
  {
    var pathname := Prefix(v) + ("/" + page);
    assert pathname[|Prefix(v)|..] == "/" + page;
    assert |pathname| > |Prefix(v) + "/"|;
  }

  lemma SlugStrips(slug: seq<string>, v: Version)
    requires AreSegments(slug) && slug != [] && slug[0] == v.id && !v.IsLatest()
    ensures StripVersionPrefix(SlugPath(slug), v) == SlugPath(slug[1..])
  {
    if |slug| > 1 {
      SegmentsTail(slug);
      StripOf(v, Join(slug[1..], "/"));
      Associative("/docs/", v.id + "/", Join(slug[1..], "/"));
      Associative(Prefix(v), "/", Join(slug[1..], "/"));
    }
  }

  /** Slug resolution and pathname detection agree, and stripping leaves the path of the remaining slug. */
  lemma SlugAgreesWithPathname(versions: seq<Version>, slug: seq<string>)
    requires Registered(versions) && AreSegments(slug)
    ensures var (v, rest) := ResolveVersionFromSlug(versions, slug);
            && GetVersionFromPathname(versions, SlugPath(slug)) == v
            && StripVersionPrefix(SlugPath(slug), v) == SlugPath(rest)
  {
    var (v, rest) := ResolveVersionFromSlug(versions, slug);
    if v.IsLatest() {
      SlugOfLatest(versions, slug);
    } else {
      SlugOfVersion(versions, slug);
      SlugStrips(slug, v);
    }
  }

  lemma {:induction false} FindVersionSound(versions: seq<Version>, pathname: string)
    ensures var found := FindVersion(versions, pathname);
            found.Some? ==> found.value in versions && !found.value.IsLatest() && IsUnder(pathname, found.value)
  {
    if versions != [] {
      FindVersionSound(versions[1..], pathname);
    }
  }

  // ----- The closest page -----

  /** The path segments after the first one. */
  function PageSegments(path: string): seq<string> {
    var segments := NonEmpty(Split(path, '/'));
    if segments == [] then [] else segments[1..]
  }

  lemma {:induction false} PageSegmentsOf(first: string, rest: seq<string>)
    requires AreSegments([first] + rest)
    ensures PageSegments("/" + Join([first] + rest, "/")) == rest
  {
    PathSegments([first] + rest);
  }

  /** The score of two paths is the number of segments they share from the second one on. */
  lemma {:induction false} ScoreCounts(first: string, rest: seq<string>, first': string, rest': seq<string>)
    requires AreSegments([first] + rest) && AreSegments([first'] + rest')
    ensures var n := Score("/" + Join([first] + rest, "/"), "/" + Join([first'] + rest', "/"));
            && n <= |rest| && n <= |rest'| && rest[..n] == rest'[..n]
            && (n < |rest| && n < |rest'| ==> rest[n] != rest'[n])
  {
    PageSegmentsOf(first, rest);
    PageSegmentsOf(first', rest');
  }

  /** The length of the longest common prefix of two segment lists. */
  function CommonPrefix(left: seq<string>, right: seq<string>): (n: nat)
    ensures n <= |left| && n <= |right| && left[..n] == right[..n]
    ensures n < |left| && n < |right| ==> left[n] != right[n]
  {
    if left != [] && right != [] && left[0] == right[0] then
      var n := CommonPrefix(left[1..], right[1..]);
      assert left[..n + 1] == [left[0]] + left[1..][..n] && right[..n + 1] == [right[0]] + right[1..][..n];
      n + 1
    else 0
  }

  function Score(canonicalPath: string, path: string): nat {
    CommonPrefix(PageSegments(canonicalPath), PageSegments(path))
  }

  lemma CommonStep(left: seq<string>, right: seq<string>, n: nat)
    requires n < |left| && n < |right| && left[n] == right[n]
    ensures CommonPrefix(left[n..], right[n..]) == 1 + CommonPrefix(left[n + 1..], right[n + 1..])
  {
    assert left[n..][1..] == left[n + 1..] && right[n..][1..] == right[n + 1..];
  }

  method MatchingPathSegments(left: string, right: string) returns (matches: nat)
    ensures matches == Score(left, right)
  {
    var leftSegments, rightSegments := PageSegments(left), PageSegments(right);
    matches := 0;
    assert leftSegments[0..] == leftSegments && rightSegments[0..] == rightSegments;
    while matches < |leftSegments| && matches < |rightSegments| && leftSegments[matches] == rightSegments[matches]
      invariant matches <= |leftSegments| && matches <= |rightSegments|
      invariant CommonPrefix(leftSegments, rightSegments)
                == matches + CommonPrefix(leftSegments[matches..], rightSegments[matches..])
    {
      CommonStep(leftSegments, rightSegments, matches);
      matches := matches + 1;
    }
  }

  /** `path` is the first of the paths that share the most segments with the canonical path, and shares at least one. */
  predicate IsClosest(canonicalPath: string, paths: seq<string>, i: nat) {
    && i < |paths| && Score(canonicalPath, paths[i]) > 0
    && (forall j | 0 <= j < |paths| :: Score(canonicalPath, paths[j]) <= Score(canonicalPath, paths[i]))
    && (forall j | 0 <= j < i :: Score(canonicalPath, paths[j]) < Score(canonicalPath, paths[i]))
  }

  function Scores(canonicalPath: string, paths: seq<string>): (scores: seq<nat>)
    ensures |scores| == |paths|
  {
    if paths == [] then [] else [Score(canonicalPath, paths[0])] + Scores(canonicalPath, paths[1..])
  }

  lemma {:induction false} ScoreAt(canonicalPath: string, paths: seq<string>, i: nat)
    requires i < |paths|
    ensures Scores(canonicalPath, paths)[i] == Score(canonicalPath, paths[i])
  {
    if i > 0 {
      ScoreAt(canonicalPath, paths[1..], i - 1);
    }
  }

  lemma {:induction false} ScoresDecide(canonicalPath: string, paths: seq<string>)
    ensures forall i | 0 <= i < |paths| :: Scores(canonicalPath, paths)[i] == Score(canonicalPath, paths[i])
  {
    forall i | 0 <= i < |paths| ensures Scores(canonicalPath, paths)[i] == Score(canonicalPath, paths[i]) {
      ScoreAt(canonicalPath, paths, i);
    }
  }

  method ReadScore(canonicalPath: string, paths: seq<string>, i: nat) returns (score: nat)
    requires i < |paths|
    ensures score == Scores(canonicalPath, paths)[i]
  {
    score := MatchingPathSegments(canonicalPath, paths[i]);
    ScoreAt(canonicalPath, paths, i);
  }

  /** The loop over the target paths, with its running best. */
  method SearchClosest(canonicalPath: string, paths: seq<string>) returns (closest: Option<string>, ghost best: nat)
    ensures var scores := Scores(canonicalPath, paths);
            if closest.None? then forall j | 0 <= j < |paths| :: scores[j] == 0
            else best < |paths| && closest.value == paths[best] && IsBest(scores, best)
  {
    closest := None;
    best := 0;
    var closestScore := 0;
    ghost var scores := Scores(canonicalPath, paths);
    for index := 0 to |paths|
      invariant AtMost(scores, index, closestScore)
      invariant closest.None? ==> closestScore == 0
      invariant closest.Some? ==> best < index && closest.value == paths[best] && IsNew(scores, best, closestScore)
    {
      var score := ReadScore(canonicalPath, paths, index);
      AtMostNext(scores, index, closestScore);
      if score > closestScore {
        closest := Some(paths[index]);
        closestScore := score;
        best := index;
      }
    }
  }

  predicate AtMost(scores: seq<nat>, n: nat, bound: nat)
    requires n <= |scores|
  {
    forall j | 0 <= j < n :: scores[j] <= bound
  }

  /** A positive score that is greater than all before it. */
  predicate IsNew(scores: seq<nat>, best: nat, score: nat) {
    best < |scores| && scores[best] == score > 0 && forall j | 0 <= j < best :: scores[j] < score
  }

  lemma AtMostNext(scores: seq<nat>, n: nat, bound: nat)
    requires n < |scores| && AtMost(scores, n, bound)
    ensures scores[n] <= bound ==> AtMost(scores, n + 1, bound)
    ensures scores[n] > bound ==> AtMost(scores, n + 1, scores[n]) && IsNew(scores, n, scores[n])
  {
  }

  predicate IsBest(scores: seq<nat>, best: nat) {
    && best < |scores| && scores[best] > 0
    && (forall j | 0 <= j < |scores| :: scores[j] <= scores[best])
    && (forall j | 0 <= j < best :: scores[j] < scores[best])
  }

  lemma {:induction false} BestIsClosest(canonicalPath: string, paths: seq<string>, best: nat)
    requires IsBest(Scores(canonicalPath, paths), best)
    ensures IsClosest(canonicalPath, paths, best)
  {
    ScoresDecide(canonicalPath, paths);
    var scores := Scores(canonicalPath, paths);
    forall j | 0 <= j < |paths| ensures Score(canonicalPath, paths[j]) <= Score(canonicalPath, paths[best]) {
      assert scores[j] <= scores[best];
    }
    forall j | 0 <= j < best ensures Score(canonicalPath, paths[j]) < Score(canonicalPath, paths[best]) {
      assert scores[j] < scores[best];
    }
  }

  lemma {:induction false} NoneScores(canonicalPath: string, paths: seq<string>)
    requires forall j | 0 <= j < |paths| :: Scores(canonicalPath, paths)[j] == 0
    ensures forall path | path in paths :: Score(canonicalPath, path) == 0
  {
    ScoresDecide(canonicalPath, paths);
    forall path | path in paths ensures Score(canonicalPath, path) == 0 {
      var j :| 0 <= j < |paths| && paths[j] == path;
      assert Scores(canonicalPath, paths)[j] == 0;
    }
  }

  method FindClosest(canonicalPath: string, paths: seq<string>) returns (closest: Option<string>)
    ensures closest.Some? ==> exists i: nat | i < |paths| ::
            IsClosest(canonicalPath, paths, i) && closest.value == paths[i]
    ensures closest.None? ==> forall path | path in paths :: Score(canonicalPath, path) == 0
  {
    ghost var best;
    closest, best := SearchClosest(canonicalPath, paths);
    if closest.None? {
      NoneScores(canonicalPath, paths);
    } else {
      BestIsClosest(canonicalPath, paths, best);
    }
  }

  const INTRODUCTION := "/docs/introduction"

  method GetVersionTargetHref(pathname: string, current: Version, target: Version, paths: seq<string>)
    returns (href: string)
    ensures var canonicalPath := StripVersionPrefix(pathname, current);
            && (canonicalPath in paths ==> href == VersionedDocsHref(canonicalPath, target))
            && (canonicalPath !in paths && (exists path | path in paths :: Score(canonicalPath, path) > 0) ==>
                  exists i: nat | i < |paths| ::
                    IsClosest(canonicalPath, paths, i) && href == VersionedDocsHref(paths[i], target))
            && (canonicalPath !in paths && (forall path | path in paths :: Score(canonicalPath, path) == 0) ==>
                  && ("/docs/introduction" in paths ==> href == VersionedDocsHref("/docs/introduction", target))
                  && ("/docs/introduction" !in paths && paths != [] ==>
                        href == if paths[0] == "" then "" else VersionedDocsHref(paths[0], target))
                  && (paths == [] ==> href == VersionedDocsHref("/docs", target)))
    ensures paths != [] && paths[0] != "" ==> exists path | path in paths :: href == VersionedDocsHref(path, target)
  {
    var canonicalPath := StripVersionPrefix(pathname, current);
    if canonicalPath in paths {
      return VersionedDocsHref(canonicalPath, target);
    }
    var closestPath := FindClosest(canonicalPath, paths);
    if closestPath.Some? && closestPath.value != "" {
      return VersionedDocsHref(closestPath.value, target);
    }
    EmptyPathScoresNothing(canonicalPath);
    if INTRODUCTION in paths {
      return VersionedDocsHref(INTRODUCTION, target);
    }
    if |paths| > 0 {
      return if paths[0] == "" then "" else VersionedDocsHref(paths[0], target);
    }
    return VersionedDocsHref("/docs", target);
  }

  lemma EmptyPathScoresNothing(canonicalPath: string)
    ensures Score(canonicalPath, "") == 0
  {
    assert Split("", '/') == [""];
    assert NonEmpty([""]) == [];
  }
}
