/** Where a link is rewritten, said of the text that an author wrote. */
module MarkdownSites {
  import opened Text
  import opened DocsVersions
  import opened MarkdownLinks

  /** Where a link ends up being replaced: at its destination, or elsewhere or not at all. */
  datatype Place = InPlace | Astray

  /** In place, the site's only replacement is that of the link at offset `at` of its raw text. */
  function Rewritten(content: string, versions: seq<Version>, v: Version, site: Site, at: nat): Place
    requires InContent(content, site.span) && IsRewritten(versions, v, site)
  {
    var href, start := Href(site).value, site.span.value.start + at;
    if FromSite(content, versions, v, site) == [Replacement(start, start + |href|, ScopeDocsHref(versions, href, v))]
    then InPlace else Astray
  }

  /** The raw text of a site. */
  function Raw(content: string, site: Site): string
    requires InContent(content, site.span) && site.span.Some?
  {
    content[site.span.value.start..site.span.value.end]
  }

  /** A link that scoping changes starts with a slash. */
  lemma RewrittenStartsWithSlash(versions: seq<Version>, v: Version, site: Site)
    requires IsRewritten(versions, v, site)
    ensures Href(site).value != "" && Href(site).value[0] == '/'
  {
    assert "/docs" <= Href(site).value;
  }

  /** The search finds the copy at offset `at`. */
  function Found(content: string, span: Span, href: string, value: string, searchFrom: nat, at: nat): Place
    requires InContent(content, Some(span))
  {
    if Find(content, span, href, value, searchFrom) == [Replacement(span.start + at, span.start + at + |href|, value)]
    then InPlace else Astray
  }

  lemma RewrittenWhenFound(content: string, versions: seq<Version>, v: Version, site: Site, href: string, value: string,
                           searchFrom: nat, at: nat, place: Place)
    requires InContent(content, site.span) && IsRewritten(versions, v, site)
    requires href == Href(site).value && value == ScopeDocsHref(versions, href, v)
    requires searchFrom == SearchStart(site, Raw(content, site))
    requires Found(content, site.span.value, href, value, searchFrom, at) == place
    ensures Rewritten(content, versions, v, site, at) == place
  {
    FromSiteFinds(content, versions, v, site, value, searchFrom);
  }

  /** From `from` on, up to the destination, there is no slash and no bracket: spaces, line ends or `<`. */
  predicate IsGap(raw: string, from: nat, at: nat)
    requires at <= |raw|
  {
    forall i | from <= i < at :: raw[i] != '/' && raw[i] != ']'
  }

  lemma NoLinkInGap(raw: string, from: nat, at: nat, href: string)
    requires at <= |raw| && IsGap(raw, from, at) && href != "" && href[0] == '/'
    ensures forall i: nat | from <= i < at :: !OccursAt(raw, href, i)
    ensures forall i: nat | from <= i < at :: !OccursAt(raw, "](", i)
  {
    forall i: nat | from <= i < at ensures !OccursAt(raw, href, i) && !OccursAt(raw, "](", i) {
      StartsDiffer(raw, href, i);
      StartsDiffer(raw, "](", i);
    }
  }

  // ----- Definitions -----

  /** `[label]:` and a destination, in whatever spelling: the label ends at `close`, the destination starts at `at`. */
  predicate IsDefinitionText(raw: string, close: nat, at: nat) {
    && 0 < close && close + 2 <= at <= |raw| && raw[0] == '[' && OccursAt(raw, "]:", close)
    && IsGap(raw, close + 2, at)
  }

  predicate AfterColon(raw: string, i: nat)
    requires i <= |raw|
  {
    exists c | 0 < c < i :: raw[c] == ':'
  }

  /** No copy of the link starts in the label after the label's first colon. */
  predicate LabelHoldsNoCopy(raw: string, close: nat, href: string)
    requires close <= |raw|
  {
    forall i {:trigger AfterColon(raw, i)} | 0 < i < close && AfterColon(raw, i) :: !OccursAt(raw, href, i)
  }

  function DefinitionPlace(raw: string, close: nat, at: nat, href: string): Place
    requires close <= |raw|
  {
    if OccursAt(raw, href, at) && LabelHoldsNoCopy(raw, close, href) then InPlace else Astray
  }

  /** The first colon is the one after the label, unless the label holds one. */
  lemma {:induction false} FirstColon(raw: string, close: nat, at: nat)
    requires IsDefinitionText(raw, close, at)
    ensures var first := IndexOf(raw, ":", 0);
            0 < first <= close + 1 && forall i | 0 < i < close :: AfterColon(raw, i) <==> first < i
  {
    var first := IndexOf(raw, ":", 0);
    assert raw[close..close + 2][1] == ':' && OccursAt(raw, ":", close + 1);
    assert raw[first..first + 1][0] == ':';
    forall i | 0 < i < close ensures AfterColon(raw, i) <==> first < i {
      if c :| 0 < c < i && raw[c] == ':' {
        assert OccursAt(raw, ":", c);
      }
    }
  }

  lemma {:induction false} DefinitionSearch(raw: string, close: nat, at: nat, href: string)
    requires IsDefinitionText(raw, close, at) && href != "" && href[0] == '/'
    ensures IsFirstOccurrence(raw, href, IndexOf(raw, ":", 0) + 1, at)
            <==> OccursAt(raw, href, at) && LabelHoldsNoCopy(raw, close, href)
  {
    var first := IndexOf(raw, ":", 0);
    FirstColon(raw, close, at);
    NoLinkInGap(raw, close + 2, at, href);
    assert raw[close..close + 2][0] == ']' && raw[close..close + 2][1] == ':';
    forall i: nat | close <= i < close + 2 ensures !OccursAt(raw, href, i) {
      StartsDiffer(raw, href, i);
    }
    if LabelHoldsNoCopy(raw, close, href) {
      forall i: nat | first + 1 <= i < at ensures !OccursAt(raw, href, i) {
        assert i < close ==> AfterColon(raw, i);
      }
    }
  }

  lemma {:induction false} DefinitionFound(content: string, span: Span, raw: string, close: nat, at: nat, href: string,
                                           value: string,
                        from: nat)
    requires InContent(content, Some(span)) && raw == content[span.start..span.end]
    requires IsDefinitionText(raw, close, at) && href != "" && href[0] == '/' && from == IndexOf(raw, ":", 0) + 1
    ensures Found(content, span, href, value, from, at) == DefinitionPlace(raw, close, at, href)
  {
    DefinitionSearch(raw, close, at, href);
    FindAtDestination(content, span, href, value, from, at);
  }

  /**
   A definition's destination is rewritten in its place if and only if it is written as the link
   itself, without an escape or an entity, and no copy of the link starts in the label after the
   label's first colon; a label without a colon is always safe.
   */
  lemma DefinitionRewritten(content: string, versions: seq<Version>, v: Version, site: Site, close: nat, at: nat)
    requires site.Definition? && InContent(content, site.span) && IsRewritten(versions, v, site)
    requires IsDefinitionText(Raw(content, site), close, at)
    ensures Rewritten(content, versions, v, site, at) == DefinitionPlace(Raw(content, site), close, at, site.url)
  {
    var raw, value := Raw(content, site), ScopeDocsHref(versions, site.url, v);
    var from := IndexOf(raw, ":", 0) + 1;
    RewrittenStartsWithSlash(versions, v, site);
    DefinitionFound(content, site.span.value, raw, close, at, site.url, value, from);
    RewrittenWhenFound(content, versions, v, site, site.url, value, from, at,
                       DefinitionPlace(raw, close, at, site.url));
  }

  // ----- Links -----

  /** `[text](` and a destination, in whatever spelling: the text ends at `close`, the destination starts at `at`. */
  predicate IsLinkText(raw: string, close: nat, at: nat) {
    close + 2 <= at <= |raw| && OccursAt(raw, "](", close) && IsGap(raw, close + 2, at)
  }

  /** `](` occurs nowhere in the destination and in what follows it. */
  predicate NoBracketFrom(raw: string, at: nat) {
    forall i | at <= i < |raw| :: !OccursAt(raw, "](", i)
  }

  function LinkPlace(raw: string, at: nat, href: string): Place {
    if OccursAt(raw, href, at) && NoBracketFrom(raw, at) then InPlace else Astray
  }

  /** The last `](` is the link's own exactly when there is none from the destination on. */
  lemma {:induction false} LastBracket(raw: string, close: nat, at: nat, href: string)
    requires IsLinkText(raw, close, at) && href != "" && href[0] == '/'
    ensures var last := LastIndexOf(raw, "](", |raw|);
            if NoBracketFrom(raw, at) then last == close else last >= at
  {
    NoLinkInGap(raw, close + 2, at, href);
    assert raw[close..close + 2][1] == '(';
    StartsDiffer(raw, "](", close + 1);
  }

  lemma SearchFromBracket(raw: string, close: nat, at: nat, href: string, last: nat)
    requires IsLinkText(raw, close, at) && href != "" && href[0] == '/' && (last == close || last >= at)
    ensures IsFirstOccurrence(raw, href, last + 2, at) <==> OccursAt(raw, href, at) && last == close
  {
    if last == close {
      NoLinkInGap(raw, close + 2, at, href);
    }
  }

  lemma {:induction false} LinkSearch(raw: string, close: nat, at: nat, href: string, last: nat)
    requires IsLinkText(raw, close, at) && href != "" && href[0] == '/' && last == LastIndexOf(raw, "](", |raw|)
    ensures IsFirstOccurrence(raw, href, last + 2, at) <==> OccursAt(raw, href, at) && NoBracketFrom(raw, at)
  {
    LastBracket(raw, close, at, href);
    SearchFromBracket(raw, close, at, href, last);
  }

  lemma {:induction false} LinkFound(content: string, span: Span, raw: string, close: nat, at: nat, href: string,
                                     value: string, from: nat)
    requires InContent(content, Some(span)) && raw == content[span.start..span.end]
    requires IsLinkText(raw, close, at) && href != "" && href[0] == '/'
             && from == LastIndexOf(raw, "](", |raw|) + 2
    ensures Found(content, span, href, value, from, at) == LinkPlace(raw, at, href)
  {
    LinkSearch(raw, close, at, href, from - 2);
    FindAtDestination(content, span, href, value, from, at);
  }

  /**
   An inline link's destination is rewritten in its place if and only if it is written as the link
   itself, without an escape or an entity, and `](` occurs neither in it nor after it: in a title it
   makes the search start too late.
   */
  lemma LinkRewritten(content: string, versions: seq<Version>, v: Version, site: Site, close: nat, at: nat)
    requires site.Link? && InContent(content, site.span) && IsRewritten(versions, v, site)
    requires IsLinkText(Raw(content, site), close, at)
    ensures Rewritten(content, versions, v, site, at) == LinkPlace(Raw(content, site), at, site.url)
  {
    var raw, value := Raw(content, site), ScopeDocsHref(versions, site.url, v);
    var from := LastIndexOf(raw, "](", |raw|) + 2;
    RewrittenStartsWithSlash(versions, v, site);
    LinkFound(content, site.span.value, raw, close, at, site.url, value, from);
    RewrittenWhenFound(content, versions, v, site, site.url, value, from, at, LinkPlace(raw, at, site.url));
  }

  // ----- Attributes -----

  function AttributePlace(raw: string, at: nat, href: string): Place {
    if OccursAt(raw, href, at) then InPlace else Astray
  }

  /**
   An attribute's value, with no slash before it, is rewritten in its place if and only if it is
   written as the link itself, without an entity.
   */
  lemma AttributeRewritten(content: string, versions: seq<Version>, v: Version, site: Site, at: nat)
    requires site.Attribute? && InContent(content, site.span) && IsRewritten(versions, v, site)
    requires at <= |Raw(content, site)| && forall i | 0 <= i < at :: Raw(content, site)[i] != '/'
    ensures Rewritten(content, versions, v, site, at) == AttributePlace(Raw(content, site), at, Href(site).value)
  {
    var href, raw := Href(site).value, Raw(content, site);
    RewrittenStartsWithSlash(versions, v, site);
    AttributeFound(content, site.span.value, raw, at, href, ScopeDocsHref(versions, href, v));
    RewrittenWhenFound(content, versions, v, site, href, ScopeDocsHref(versions, href, v), 0, at,
                       AttributePlace(raw, at, href));
  }

  lemma AttributeFound(content: string, span: Span, raw: string, at: nat, href: string, value: string)
    requires InContent(content, Some(span)) && raw == content[span.start..span.end] && href != "" && href[0] == '/'
    requires at <= |raw| && forall i | 0 <= i < at :: raw[i] != '/'
    ensures Found(content, span, href, value, 0, at) == AttributePlace(raw, at, href)
  {
    forall i: nat | i < at ensures !OccursAt(raw, href, i) {
      StartsDiffer(raw, href, i);
    }
    FindAtDestination(content, span, href, value, 0, at);
  }

  // ----- Titles that hide the link -----

  const V1_6 := Version("1.6")

  lemma ExampleLink(end: nat)
    ensures IsRewritten(DOCS_VERSIONS, V1_6, Link("/docs/x", Some(Span(0, end))))
  {
    ExampleIsRewritten("x", "/docs/x", Link("/docs/x", Some(Span(0, end))));
  }

  /** A title that holds `](`: the search starts inside the title, and the link is not scoped at all. */
  lemma TitleHidesLink()
    ensures var content := "[a](/docs/x \"](y\")";
            var site := Link("/docs/x", Some(Span(0, 18)));
            IsRewritten(DOCS_VERSIONS, V1_6, site) && FromSite(content, DOCS_VERSIONS, V1_6, site) == []
  {
    var content := "[a](/docs/x \"](y\")";
    var site := Link("/docs/x", Some(Span(0, 18)));
    assert content[0..18] == content;
    ExampleLink(18);
    HiddenSearch();
    FromSiteFinds(content, DOCS_VERSIONS, V1_6, site, ScopeDocsHref(DOCS_VERSIONS, "/docs/x", V1_6), 15);
  }

  lemma HiddenSearch()
    ensures var content := "[a](/docs/x \"](y\")";
            LastIndexOf(content, "](", |content|) == 13 && IndexOf(content, "/docs/x", 15) == -1
  {
    var content := "[a](/docs/x \"](y\")";
    assert content[13..15] == "](";
    assert OccursAt(content, "](", 13);
    forall i: nat | 13 < i < 18 ensures !OccursAt(content, "](", i) {
      assert content[i] != ']';
      StartsDiffer(content, "](", i);
    }
    assert forall i: nat | 15 <= i :: !OccursAt(content, "/docs/x", i);
  }

  /** A title that holds `](` and a copy of the link: the title is rewritten, not the destination. */
  lemma TitleRewritten()
    ensures var content := "[a](/docs/x \"](/docs/x\")";
            FromSite(content, DOCS_VERSIONS, V1_6, Link("/docs/x", Some(Span(0, 24))))
            == [Replacement(15, 22, ScopeDocsHref(DOCS_VERSIONS, "/docs/x", V1_6))]
  {
    var content := "[a](/docs/x \"](/docs/x\")";
    var site := Link("/docs/x", Some(Span(0, 24)));
    assert content[0..24] == content;
    ExampleLink(24);
    TitleSearch();
    DestinationRewritten(content, DOCS_VERSIONS, V1_6, site, content, ScopeDocsHref(DOCS_VERSIONS, "/docs/x", V1_6), 15,
                         15);
  }

  lemma TitleSearch()
    ensures var content := "[a](/docs/x \"](/docs/x\")";
            LastIndexOf(content, "](", |content|) == 13 && OccursAt(content, "/docs/x", 15)
  {
    var content := "[a](/docs/x \"](/docs/x\")";
    assert content[13..15] == "](" && content[15..22] == "/docs/x";
    assert OccursAt(content, "](", 13);
    forall i: nat | 13 < i < 24 ensures !OccursAt(content, "](", i) {
      assert content[i] != ']';
      StartsDiffer(content, "](", i);
    }
  }

  // ----- Destinations with an escape -----

  /** A destination written with an escape: the link is nowhere in the text, and is not scoped at all. */
  lemma EscapeHidesLink()
    ensures var content := "[a](/docs/x\\_y)";
            var site := Link("/docs/x_y", Some(Span(0, 15)));
            IsRewritten(DOCS_VERSIONS, V1_6, site) && FromSite(content, DOCS_VERSIONS, V1_6, site) == []
  {
    var content := "[a](/docs/x\\_y)";
    var site := Link("/docs/x_y", Some(Span(0, 15)));
    assert content[0..15] == content;
    ExampleIsRewritten("x_y", "/docs/x_y", site);
    EscapedSearch();
    FromSiteFinds(content, DOCS_VERSIONS, V1_6, site, ScopeDocsHref(DOCS_VERSIONS, "/docs/x_y", V1_6), 4);
  }

  lemma EscapedSearch()
    ensures var content := "[a](/docs/x\\_y)";
            LastIndexOf(content, "](", |content|) == 2 && IndexOf(content, "/docs/x_y", 4) == -1
  {
    var content := "[a](/docs/x\\_y)";
    assert content[2..4] == "](";
    assert OccursAt(content, "](", 2);
    forall i: nat | 2 < i < 15 ensures !OccursAt(content, "](", i) {
      assert content[i] != ']';
      StartsDiffer(content, "](", i);
    }
    forall i: nat | 4 <= i ensures !OccursAt(content, "/docs/x_y", i) {
      assert i == 4 ==> content[4..13][7] != '_';
      assert i <= 6 ==> content[i] != '/' || i == 4;
    }
  }
}
