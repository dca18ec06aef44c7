/** Scoping the links of a Markdown document: collected spans, sorted and spliced from the right. */
module MarkdownLinks {
  import opened Text
  import opened DocsVersions

  datatype Replacement = Replacement(start: nat, end: nat, value: string)

  datatype Span = Span(start: nat, end: nat)

  /**
   What the two tree visits come across, in the order they do: links, link definitions, and
   attributes of component elements. An attribute's value is `None` unless it is a string.
   */
  datatype Site =
    | Link(url: string, span: Option<Span>)
    | Definition(url: string, span: Option<Span>)
    | Attribute(isPlain: bool, name: string, value: Option<string>, span: Option<Span>)

  predicate InContent(content: string, span: Option<Span>) {
    span.Some? ==> span.value.start <= span.value.end <= |content|
  }

  // ----- What is collected -----

  /** The first occurrence of `href` in the span, at or after `searchFrom`. */
  function Find(content: string, span: Span, href: string, value: string, searchFrom: nat): seq<Replacement>
    requires InContent(content, Some(span))
  {
    var at := IndexOf(content[span.start..span.end], href, searchFrom);
    if at == -1 then [] else [Replacement(span.start + at, span.start + at + |href|, value)]
  }

  /** The link that a site holds, if it is one the visits look at. */
  function Href(site: Site): Option<string> {
    match site
    case Link(url, _) => Some(url)
    case Definition(url, _) => Some(url)
    case Attribute(isPlain, name, value, _) => if isPlain && name == "href" then value else None
  }

  /** Where the search for the destination starts inside the raw text of a site. */
  function SearchStart(site: Site, raw: string): nat {
    match site
    case Link(_, _) => LastIndexOf(raw, "](", |raw|) + 2
    case Definition(_, _) => IndexOf(raw, ":", 0) + 1
    case Attribute(_, _, _, _) => 0
  }

  /** Whether a site holds a link that the version changes, at a known place. */
  predicate IsRewritten(versions: seq<Version>, v: Version, site: Site) {
    && Href(site).Some? && site.span.Some?
    && ScopeDocsHref(versions, Href(site).value, v) !in ["", Href(site).value]
  }

  function FromSite(content: string, versions: seq<Version>, v: Version, site: Site): seq<Replacement>
    requires InContent(content, site.span)
  {
    if !IsRewritten(versions, v, site) then []
    else
      var href, span := Href(site).value, site.span.value;
      Find(content, span, href, ScopeDocsHref(versions, href, v), SearchStart(site, content[span.start..span.end]))
  }

  predicate SitesInContent(content: string, sites: seq<Site>) {
    forall site | site in sites :: InContent(content, site.span)
  }

  function FromSites(content: string, versions: seq<Version>, v: Version, sites: seq<Site>): seq<Replacement>
    requires SitesInContent(content, sites)
  {
    if sites == [] then []
    else
      FromSites(content, versions, v, sites[..|sites| - 1]) + FromSite(content, versions, v, sites[|sites| - 1])
  }

  /** A replacement covers exactly an old link, and carries that link scoped to the version. */
  predicate ReplacesLink(content: string, versions: seq<Version>, v: Version, r: Replacement) {
    && r.start < r.end <= |content|
    && r.value == ScopeDocsHref(versions, content[r.start..r.end], v)
    && r.value != content[r.start..r.end]
  }

  lemma SliceOfSlice(s: string, start: nat, end: nat, i: nat, j: nat)
    requires start <= end <= |s| && i <= j <= end - start
    ensures s[start..end][i..j] == s[start + i..start + j]
  {
    forall k | 0 <= k < j - i ensures s[start..end][i..j][k] == s[start + i..start + j][k] {
      assert s[start..end][i + k] == s[start + i + k];
    }
  }

  lemma FindHoldsLink(content: string, span: Span, href: string, value: string, searchFrom: nat)
    requires InContent(content, Some(span))
    ensures var found := Find(content, span, href, value, searchFrom);
            && |found| <= 1
            && (found != [] ==>
                  && found[0].value == value && span.start <= found[0].start <= found[0].end <= span.end
                  && content[found[0].start..found[0].end] == href)
  {
    var raw := content[span.start..span.end];
    var at := IndexOf(raw, href, searchFrom);
    if at != -1 {
      SliceOfSlice(content, span.start, span.end, at, at + |href|);
    }
  }

  lemma FromSiteReplacesLink(content: string, versions: seq<Version>, v: Version, site: Site)
    requires InContent(content, site.span)
    ensures var found := FromSite(content, versions, v, site);
            && |found| <= 1
            && (found != [] ==>
                  && site.span.Some? && site.span.value.start <= found[0].start && found[0].end <= site.span.value.end
                  && ReplacesLink(content, versions, v, found[0]))
  {
    if IsRewritten(versions, v, site) {
      var href, span := Href(site).value, site.span.value;
      FindHoldsLink(content, span, href, ScopeDocsHref(versions, href, v),
                    SearchStart(site, content[span.start..span.end]));
      assert href != "";
    }
  }

  /** Every collected replacement holds exactly an old link of the document. */
  lemma {:induction false} CollectedReplaceLinks(content: string, versions: seq<Version>, v: Version, sites: seq<Site>)
    requires SitesInContent(content, sites)
    ensures forall r | r in FromSites(content, versions, v, sites) :: ReplacesLink(content, versions, v, r)
  {
    if sites != [] {
      CollectedReplaceLinks(content, versions, v, sites[..|sites| - 1]);
      FromSiteReplacesLink(content, versions, v, sites[|sites| - 1]);
    }
  }

  /** A copy stands here, the search starts no later, and it meets no earlier copy. */
  predicate IsFirstOccurrence(raw: string, href: string, searchFrom: nat, at: nat) {
    searchFrom <= at && OccursAt(raw, href, at) && forall i: nat | searchFrom <= i < at :: !OccursAt(raw, href, i)
  }

  /**
   A site is rewritten at offset `at` of its raw text if and only if its link stands there word for
   word, and the search starts no later and meets no earlier copy of the link.
   */
  lemma DestinationRewritten(content: string, versions: seq<Version>, v: Version, site: Site, raw: string,
                             value: string, searchFrom: nat, at: nat)
    requires InContent(content, site.span) && IsRewritten(versions, v, site)
    requires raw == content[site.span.value.start..site.span.value.end] && searchFrom == SearchStart(site, raw)
    requires value == ScopeDocsHref(versions, Href(site).value, v)
    ensures var start := site.span.value.start + at;
            FromSite(content, versions, v, site) == [Replacement(start, start + |Href(site).value|, value)]
            <==> IsFirstOccurrence(raw, Href(site).value, searchFrom, at)
  {
    FromSiteFinds(content, versions, v, site, value, searchFrom);
    FindAtDestination(content, site.span.value, Href(site).value, value, searchFrom, at);
  }

  lemma FromSiteFinds(content: string, versions: seq<Version>, v: Version, site: Site, value: string, searchFrom: nat)
    requires InContent(content, site.span) && IsRewritten(versions, v, site)
    requires value == ScopeDocsHref(versions, Href(site).value, v)
    requires searchFrom == SearchStart(site, content[site.span.value.start..site.span.value.end])
    ensures FromSite(content, versions, v, site) == Find(content, site.span.value, Href(site).value, value, searchFrom)
  {
  }

  lemma FindAtDestination(content: string, span: Span, href: string, value: string, searchFrom: nat, at: nat)
    requires InContent(content, Some(span))
    ensures Find(content, span, href, value, searchFrom)
            == [Replacement(span.start + at, span.start + at + |href|, value)]
            <==> IsFirstOccurrence(content[span.start..span.end], href, searchFrom, at)
  {
  }

  /** The link of a site that scoping is for: of a link, a definition, or a plain `href` with a string. */
  predicate HoldsLink(site: Site, href: string) {
    || (site.Link? && site.url == href) || (site.Definition? && site.url == href)
    || (site.Attribute? && site.isPlain && site.name == "href" && site.value == Some(href))
  }

  /**
   A site is rewritten if and only if its place is known, the version is not the latest, and it holds
   a link that leads into the documentation and under no registered version.
   */
  lemma RewrittenExactly(versions: seq<Version>, v: Version, site: Site, href: string)
    requires Registered(versions) && v in versions && HoldsLink(site, href)
    ensures IsRewritten(versions, v, site)
            <==> site.span.Some? && v.id != "latest" && IsDocsLink(href) && !LiesUnderSome(versions, href)
  {
    ScopedExactly(versions, href, v);
  }

  lemma OnlyHeldLinks(versions: seq<Version>, v: Version, site: Site)
    requires IsRewritten(versions, v, site)
    ensures HoldsLink(site, Href(site).value)
  {
  }

  // ----- Simultaneous substitution -----

  predicate Disjoint(rs: seq<Replacement>) {
    forall i, j | 0 <= i < j < |rs| :: rs[i].end <= rs[j].start || rs[j].end <= rs[i].start
  }

  predicate InRange(content: string, rs: seq<Replacement>) {
    forall r | r in rs :: r.start < r.end <= |content|
  }

  ghost predicate StartsAt(rs: set<Replacement>, i: nat) {
    exists r | r in rs :: r.start == i
  }

  /**
   All replacements at once: the text is read from position `i` on, and a position where a
   replacement starts yields its value and skips the replaced span. No order is involved.
   */
  ghost function Substitute(content: string, rs: set<Replacement>, i: nat): string
    requires forall r | r in rs :: r.start < r.end <= |content|
    requires i <= |content|
    decreases |content| - i
  {
    if StartsAt(rs, i) then
      var r :| r in rs && r.start == i;
      r.value + Substitute(content, rs, r.end)
    else if i == |content| then ""
    else [content[i]] + Substitute(content, rs, i + 1)
  }

  ghost function SetOf(rs: seq<Replacement>): set<Replacement> {
    set r | r in rs
  }

  /** The one replacement that starts here is taken. */
  lemma {:induction false} SubstituteAt(content: string, rs: set<Replacement>, q: Replacement)
    requires forall r | r in rs :: r.start < r.end <= |content|
    requires q in rs && forall r | r in rs && r.start == q.start :: r == q
    ensures Substitute(content, rs, q.start) == q.value + Substitute(content, rs, q.end)
  {
    assert StartsAt(rs, q.start);
  }

  ghost predicate IsOnlyAt(rs: set<Replacement>, q: Replacement) {
    forall r | r in rs && r.start == q.start :: r == q
  }

  ghost predicate DistinctStarts(rs: set<Replacement>) {
    forall q | q in rs :: IsOnlyAt(rs, q)
  }

  lemma SameStarts(rs: set<Replacement>, all: set<Replacement>, r: Replacement, i: nat)
    requires all == rs + {r} && r.start != i
    ensures StartsAt(all, i) <==> StartsAt(rs, i)
  {
    if StartsAt(rs, i) {
      var q :| q in rs && q.start == i;
      assert q in all;
    }
  }

  lemma {:induction false} SubstituteLater(content: string, rs: set<Replacement>, all: set<Replacement>, r: Replacement,
                                           i: nat)
    requires all == rs + {r} && forall q | q in all :: q.start < q.end <= |content|
    requires DistinctStarts(rs)
    requires r.end <= i <= |content|
    ensures Substitute(content, all, i) == Substitute(content, rs, i)
    decreases |content| - i
  {
    SameStarts(rs, all, r, i);
    if StartsAt(rs, i) {
      var q :| q in rs && q.start == i;
      SubstituteLater(content, rs, all, r, q.end);
      assert IsOnlyAt(rs, q);
      SubstituteBoth(content, rs, all, q);
    } else if i < |content| {
      SubstituteLater(content, rs, all, r, i + 1);
    }
  }

  lemma {:induction false} SubstituteBoth(content: string, rs: set<Replacement>, all: set<Replacement>, q: Replacement)
    requires rs <= all && q in rs && forall r | r in all :: r.start < r.end <= |content|
    requires forall r | r in all && r.start == q.start :: r == q
    requires Substitute(content, all, q.end) == Substitute(content, rs, q.end)
    ensures Substitute(content, all, q.start) == Substitute(content, rs, q.start)
  {
    SubstituteAt(content, rs, q);
    SubstituteAt(content, all, q);
  }

  /** Text before every replacement is copied. */
  lemma {:induction false} SubstituteCopies(content: string, rs: set<Replacement>, i: nat, j: nat)
    requires forall q | q in rs :: q.start < q.end <= |content|
    requires i <= j <= |content| && forall q | q in rs :: j <= q.start
    ensures Substitute(content, rs, i) == content[i..j] + Substitute(content, rs, j)
    decreases j - i
  {
    if i < j {
      SubstituteCopies(content, rs, i + 1, j);
      assert content[i..j] == [content[i]] + content[i + 1..j];
    }
  }

  /** Replacing each span by the text it already holds changes nothing. */
  lemma {:induction false} SubstituteIdentity(content: string, rs: set<Replacement>, i: nat)
    requires forall q | q in rs :: q.start < q.end <= |content| && q.value == content[q.start..q.end]
    requires i <= |content|
    ensures Substitute(content, rs, i) == content[i..]
    decreases |content| - i
  {
    if StartsAt(rs, i) {
      forall q | q in rs && q.start == i ensures q.value + Substitute(content, rs, q.end) == content[i..] {
        SubstituteIdentity(content, rs, q.end);
        assert content[i..] == content[i..q.end] + content[q.end..];
      }
    } else if i < |content| {
      SubstituteIdentity(content, rs, i + 1);
    }
  }

  // ----- The rewriter -----

  predicate Descending(rs: seq<Replacement>) {
    forall i, j | 0 <= i < j < |rs| :: rs[i].start >= rs[j].start
  }

  function Splice(text: string, r: Replacement): string {
    (if r.start <= |text| then text[..r.start] else text) + r.value + (if r.end <= |text| then text[r.end..] else "")
  }

  class LinkRewriter {
    const content: string
    const versions: seq<Version>
    const version: Version
    var replacements: seq<Replacement>

    constructor (content: string, versions: seq<Version>, version: Version)
      ensures this.content == content && this.versions == versions && this.version == version && replacements == []
    {
      this.content, this.versions, this.version := content, versions, version;
      replacements := [];
    }

    method AddReplacement(span: Span, href: string, scopedHref: string, searchFrom: nat)
      requires InContent(content, Some(span))
      modifies this
      ensures replacements == old(replacements) + Find(content, span, href, scopedHref, searchFrom)
    {
      var valueStart := IndexOf(content[span.start..span.end], href, searchFrom);
      if valueStart == -1 {
        return;
      }
      replacements := replacements
      + [Replacement(span.start + valueStart, span.start + valueStart + |href|, scopedHref)];
    }

    method Visit(site: Site)
      requires InContent(content, site.span)
      modifies this
      ensures replacements == old(replacements) + FromSite(content, versions, version, site)
    {
      var href := Href(site);
      if href.None? {
        return;
      }
      var scopedHref := ScopeDocsHref(versions, href.value, version);
      if scopedHref == "" || scopedHref == href.value || site.span.None? {
        return;
      }
      var span := site.span.value;
      AddReplacement(span, href.value, scopedHref, SearchStart(site, content[span.start..span.end]));
    }

    /** Puts the replacements in descending order of their starts, keeping equal starts in order. */
    method SortReplacements()
      modifies this
      ensures Descending(replacements) && multiset(replacements) == multiset(old(replacements))
    {
      var found := replacements;
      replacements := [];
      for n := 0 to |found|
        invariant Descending(replacements) && multiset(replacements) == multiset(found[..n])
      {
        var at := InsertionPoint(replacements, found[n]);
        InsertKeepsOrder(replacements, at, found[n]);
        InsertKeepsAll(replacements, at, found[n]);
        assert found[..n + 1] == found[..n] + [found[n]];
        replacements := InsertAt(replacements, at, found[n]);
      }
      assert found[..|found|] == found;
    }

    /** Folds the splices over the content, from the last span to the first. */
    method ApplyReplacements() returns (result: string)
      ensures result == SpliceAll(content, replacements, |replacements|)
    {
      result := content;
      for n := 0 to |replacements|
        invariant result == SpliceAll(content, replacements, n)
      {
        result := Splice(result, replacements[n]);
      }
    }
  }

  method InsertionPoint(rs: seq<Replacement>, r: Replacement) returns (at: nat)
    ensures at <= |rs|
    ensures at > 0 ==> rs[at - 1].start >= r.start
    ensures forall i | at <= i < |rs| :: rs[i].start < r.start
  {
    at := |rs|;
    while at > 0 && rs[at - 1].start < r.start
      invariant at <= |rs|
      invariant forall i | at <= i < |rs| :: rs[i].start < r.start
    {
      at := at - 1;
    }
  }

  function InsertAt(rs: seq<Replacement>, at: nat, r: Replacement): seq<Replacement>
    requires at <= |rs|
  {
    rs[..at] + [r] + rs[at..]
  }

  lemma InsertKeepsOrder(rs: seq<Replacement>, at: nat, r: Replacement)
    requires Descending(rs) && at <= |rs|
    requires at > 0 ==> rs[at - 1].start >= r.start
    requires forall i | at <= i < |rs| :: rs[i].start < r.start
    ensures Descending(InsertAt(rs, at, r))
  {
    assert forall i | 0 <= i < at :: rs[i].start >= r.start;
  }

  lemma InsertKeepsAll(rs: seq<Replacement>, at: nat, r: Replacement)
    requires at <= |rs|
    ensures multiset(InsertAt(rs, at, r)) == multiset(rs) + multiset{r}
  {
    assert rs == rs[..at] + rs[at..];
  }

  /** One splice, left of all earlier ones, turns the substitution of those into that of one more. */
  lemma {:induction false} SpliceStep(content: string, applied: set<Replacement>, r: Replacement)
    requires r.start < r.end <= |content|
    requires forall q | q in applied :: r.end <= q.start < q.end <= |content|
    requires DistinctStarts(applied)
    ensures Splice(Substitute(content, applied, 0), r) == Substitute(content, applied + {r}, 0)
  {
    var rest := Substitute(content, applied, r.end);
    var all := applied + {r};
    SubstituteCopies(content, applied, 0, r.end);
    SpliceInto(content, rest, r);
    SubstituteLater(content, applied, all, r, r.end);
    SubstituteCopies(content, all, 0, r.start);
    SubstituteHere(content, all, r);
  }

  lemma SpliceInto(content: string, rest: string, r: Replacement)
    requires r.start < r.end <= |content|
    ensures Splice(content[0..r.end] + rest, r) == content[0..r.start] + (r.value + rest)
  {
    var text := content[0..r.end] + rest;
    assert text[..r.start] == content[0..r.start] && text[r.end..] == rest;
  }

  lemma {:induction false} SubstituteHere(content: string, rs: set<Replacement>, r: Replacement)
    requires forall q | q in rs :: q.start < q.end <= |content|
    requires r in rs && forall q | q in rs && q.start == r.start :: q == r
    ensures Substitute(content, rs, r.start) == r.value + Substitute(content, rs, r.end)
  {
    assert StartsAt(rs, r.start);
  }

  /** The fold over the first `n` replacements. */
  function SpliceAll(content: string, rs: seq<Replacement>, n: nat): string
    requires n <= |rs|
  {
    if n == 0 then content else Splice(SpliceAll(content, rs, n - 1), rs[n - 1])
  }

  lemma EarlierApart(content: string, rs: seq<Replacement>, n: nat, applied: set<Replacement>)
    requires Descending(rs) && Disjoint(rs) && InRange(content, rs) && n < |rs| && applied == SetOf(rs[..n])
    ensures forall q | q in applied :: rs[n].end <= q.start < q.end <= |content|
    ensures DistinctStarts(applied)
  {
    forall q | q in applied ensures rs[n].end <= q.start < q.end <= |content| {
      var i :| 0 <= i < n && rs[i] == q;
      assert rs[i] in rs && rs[n] in rs;
    }
    forall q, q' | q in applied && q' in applied && q.start == q'.start ensures q == q' {
      var i :| 0 <= i < n && rs[i] == q;
      var j :| 0 <= j < n && rs[j] == q';
      assert rs[i] in rs && rs[j] in rs;
    }
  }

  lemma {:induction false} SpliceNext(content: string, rs: seq<Replacement>, n: nat, applied: set<Replacement>)
    requires Descending(rs) && Disjoint(rs) && InRange(content, rs) && n < |rs| && applied == SetOf(rs[..n])
    ensures forall q | q in applied + {rs[n]} :: q.start < q.end <= |content|
    ensures Splice(Substitute(content, applied, 0), rs[n]) == Substitute(content, applied + {rs[n]}, 0)
  {
    assert rs[n] in rs;
    EarlierApart(content, rs, n, applied);
    SpliceStep(content, applied, rs[n]);
  }

  lemma SetOfNext(rs: seq<Replacement>, n: nat)
    requires n < |rs|
    ensures SetOf(rs[..n + 1]) == SetOf(rs[..n]) + {rs[n]}
  {
    assert rs[..n + 1] == rs[..n] + [rs[n]];
  }

  lemma SetInRange(content: string, rs: seq<Replacement>, n: nat)
    requires InRange(content, rs) && n <= |rs|
    ensures forall r | r in SetOf(rs[..n]) :: r.start < r.end <= |content|
  {
  }

  lemma {:induction false} NoneSpliced(content: string, rs: seq<Replacement>)
    ensures SpliceAll(content, rs, 0) == Substitute(content, SetOf(rs[..0]), 0)
  {
    SubstituteIdentity(content, SetOf(rs[..0]), 0);
  }

  /** From the last span to the first, single splices add up to the substitution of all spans at once. */
  lemma {:induction false} SplicesSubstitute(content: string, rs: seq<Replacement>, n: nat)
    requires Descending(rs) && Disjoint(rs) && InRange(content, rs) && n <= |rs|
    ensures forall r | r in SetOf(rs[..n]) :: r.start < r.end <= |content|
    ensures SpliceAll(content, rs, n) == Substitute(content, SetOf(rs[..n]), 0)
  {
    SetInRange(content, rs, n);
    if n == 0 {
      NoneSpliced(content, rs);
    } else {
      SplicesSubstitute(content, rs, n - 1);
      SpliceNext(content, rs, n - 1, SetOf(rs[..n - 1]));
      SetOfNext(rs, n - 1);
    }
  }

  lemma PermutedDisjoint(rs: seq<Replacement>, sorted: seq<Replacement>, content: string)
    requires multiset(rs) == multiset(sorted) && Disjoint(rs) && InRange(content, rs)
    ensures Disjoint(sorted) && InRange(content, sorted) && SetOf(sorted) == SetOf(rs)
  {
    forall r ensures r in sorted <==> r in rs {
      assert r in multiset(sorted) <==> r in multiset(rs);
    }
    forall i, j | 0 <= i < j < |sorted|
      ensures sorted[i].end <= sorted[j].start || sorted[j].end <= sorted[i].start
    {
      PermutedPair(rs, sorted, i, j);
    }
  }

  lemma PermutedPair(rs: seq<Replacement>, sorted: seq<Replacement>, i: nat, j: nat)
    requires multiset(rs) == multiset(sorted) && i < j < |sorted|
    ensures exists k, l | 0 <= k < |rs| && 0 <= l < |rs| && k != l :: rs[k] == sorted[i] && rs[l] == sorted[j]
  {
    var a, b := sorted[i], sorted[j];
    if a != b {
      assert a in multiset(rs) && b in multiset(rs);
    } else {
      assert sorted == sorted[..j] + [b] + sorted[j + 1..];
      assert a in multiset(sorted[..j]) by { assert sorted[..j][i] == a; }
      assert multiset(rs)[a] >= 2;
      var k :| 0 <= k < |rs| && rs[k] == a;
      assert rs == rs[..k] + [a] + rs[k + 1..];
      assert a in multiset(rs[..k]) || a in multiset(rs[k + 1..]);
    }
  }

  /** However the replacements are ordered, folding any descending arrangement substitutes them all at once. */
  lemma {:induction false} SortedSplicesSubstitute(content: string, rs: seq<Replacement>, sorted: seq<Replacement>)
    requires multiset(rs) == multiset(sorted) && Disjoint(rs) && InRange(content, rs) && Descending(sorted)
    ensures forall r | r in SetOf(rs) :: r.start < r.end <= |content|
    ensures SpliceAll(content, sorted, |sorted|) == Substitute(content, SetOf(rs), 0)
  {
    PermutedDisjoint(rs, sorted, content);
    SplicesSubstitute(content, sorted, |sorted|);
    assert sorted[..|sorted|] == sorted;
  }

  // ----- Sites whose replacements do not overlap -----

  predicate SpansApart(a: Span, b: Span) {
    a.end <= b.start || b.end <= a.start
  }

  /** The first span ends no later than a `](` in the second one, such as the one after a link's text. */
  predicate IsInText(content: string, a: Span, b: Span)
    requires InContent(content, Some(b))
  {
    exists close: nat | close < |content| && OccursAt(content[b.start..b.end], "](", close) :: a.end <= b.start + close
  }

  /** The sites do not overlap, or one is in the text of the other, as a component inside a link is. */
  predicate PairApart(content: string, a: Site, b: Site)
    requires InContent(content, a.span) && InContent(content, b.span)
  {
    a.span.Some? && b.span.Some? ==>
      || SpansApart(a.span.value, b.span.value)
      || (b.Link? && IsInText(content, a.span.value, b.span.value))
      || (a.Link? && IsInText(content, b.span.value, a.span.value))
  }

  predicate SitesApart(content: string, sites: seq<Site>)
    requires SitesInContent(content, sites)
  {
    forall i, j | 0 <= i < j < |sites| :: PairApart(content, sites[i], sites[j])
  }

  /** A link is never replaced before a `](` of its raw text. */
  lemma ReplacedAfterText(content: string, versions: seq<Version>, v: Version, a: Span, site: Site, r: Replacement)
    requires InContent(content, site.span) && site.Link? && site.span.Some?
    requires IsInText(content, a, site.span.value) && r in FromSite(content, versions, v, site)
    ensures a.end <= r.start
  {
    var b := site.span.value;
    var raw := content[b.start..b.end];
    var close: nat :| close < |content| && OccursAt(raw, "](", close) && a.end <= b.start + close;
    NotAfterLast(raw, close);
    var value := ScopeDocsHref(versions, Href(site).value, v);
    FromSiteFinds(content, versions, v, site, value, LastIndexOf(raw, "](", |raw|) + 2);
  }

  lemma {:induction false} NotAfterLast(raw: string, close: nat)
    requires OccursAt(raw, "](", close)
    ensures close <= LastIndexOf(raw, "](", |raw|)
  {
  }

  predicate ReplacementsApart(rs: seq<Replacement>, rs': seq<Replacement>) {
    forall r, r' | r in rs && r' in rs' :: r.end <= r'.start || r'.end <= r.start
  }

  lemma ReplacedWithin(content: string, versions: seq<Version>, v: Version, site: Site, r: Replacement)
    requires InContent(content, site.span) && r in FromSite(content, versions, v, site)
    ensures site.span.Some? && site.span.value.start <= r.start && r.end <= site.span.value.end
  {
    FromSiteReplacesLink(content, versions, v, site);
  }

  lemma PairDisjoint(content: string, versions: seq<Version>, v: Version, a: Site, b: Site, r: Replacement,
                     r': Replacement)
    requires InContent(content, a.span) && InContent(content, b.span) && PairApart(content, a, b)
    requires r in FromSite(content, versions, v, a) && r' in FromSite(content, versions, v, b)
    ensures r.end <= r'.start || r'.end <= r.start
  {
    ReplacedWithin(content, versions, v, a, r);
    ReplacedWithin(content, versions, v, b, r');
    var p, q := a.span.value, b.span.value;
    if !SpansApart(p, q) {
      if b.Link? && IsInText(content, p, q) {
        ReplacedAfterText(content, versions, v, p, b, r');
      } else {
        ReplacedAfterText(content, versions, v, q, a, r);
      }
    }
  }

  lemma AppendApart(rs: seq<Replacement>, found: seq<Replacement>)
    requires Disjoint(rs) && |found| <= 1
    requires found != [] ==> forall r | r in rs :: r.end <= found[0].start || found[0].end <= r.start
    ensures Disjoint(rs + found)
  {
    forall i, j | 0 <= i < j < |rs + found|
      ensures (rs + found)[i].end <= (rs + found)[j].start || (rs + found)[j].end <= (rs + found)[i].start
    {
      assert i < |rs| && (rs + found)[i] in rs;
    }
  }

  predicate WithinSomeSite(r: Replacement, sites: seq<Site>) {
    exists i | 0 <= i < |sites| ::
      sites[i].span.Some? && sites[i].span.value.start <= r.start && r.end <= sites[i].span.value.end
  }

  lemma EarlierSite(sites: seq<Site>, n: nat, r: Replacement)
    requires n < |sites| && WithinSomeSite(r, sites[..n])
    ensures WithinSomeSite(r, sites)
  {
    var i :| 0 <= i < n && sites[..n][i].span.Some? && sites[..n][i].span.value.start <= r.start
      && r.end <= sites[..n][i].span.value.end;
    assert sites[i] == sites[..n][i];
  }

  lemma {:induction false} ApartFromSites(content: string, versions: seq<Version>, v: Version, sites: seq<Site>,
                                          last: Site)
    requires SitesInContent(content, sites) && InContent(content, last.span)
    requires forall i | 0 <= i < |sites| :: PairApart(content, sites[i], last)
    ensures ReplacementsApart(FromSites(content, versions, v, sites), FromSite(content, versions, v, last))
  {
    if sites != [] {
      var n := |sites| - 1;
      ApartFromSites(content, versions, v, sites[..n], last);
      forall r, r' | r in FromSite(content, versions, v, sites[n]) && r' in FromSite(content, versions, v, last)
        ensures r.end <= r'.start || r'.end <= r.start
      {
        PairDisjoint(content, versions, v, sites[n], last, r, r');
      }
    }
  }

  /** Sites that do not overlap, or of which one is in the text of another, yield replacements that do not. */
  lemma {:induction false} CollectedDisjoint(content: string, versions: seq<Version>, v: Version, sites: seq<Site>)
    requires SitesInContent(content, sites) && SitesApart(content, sites)
    ensures Disjoint(FromSites(content, versions, v, sites))
    ensures forall r | r in FromSites(content, versions, v, sites) :: WithinSomeSite(r, sites)
  {
    if sites != [] {
      var n := |sites| - 1;
      CollectedDisjoint(content, versions, v, sites[..n]);
      ApartFromSites(content, versions, v, sites[..n], sites[n]);
      FromSiteReplacesLink(content, versions, v, sites[n]);
      var before, found := FromSites(content, versions, v, sites[..n]), FromSite(content, versions, v, sites[n]);
      AppendApart(before, found);
      forall r | r in before ensures WithinSomeSite(r, sites) {
        EarlierSite(sites, n, r);
      }
      assert found != [] ==> WithinSomeSite(found[0], sites);
    }
  }

  /**
   The scoped document is the simultaneous substitution of all collected links, whatever order they
   were found in, as long as the replaced spans do not overlap.
   */
  method ScopeMarkdownLinks(content: string, versions: seq<Version>, version: Version, sites: seq<Site>)
    returns (result: string)
    requires SitesInContent(content, sites)
    ensures version.IsLatest() ==> result == content
    ensures forall r | r in SetOf(FromSites(content, versions, version, sites)) :: r.start < r.end <= |content|
    ensures !version.IsLatest() && Disjoint(FromSites(content, versions, version, sites)) ==>
              result == Substitute(content, SetOf(FromSites(content, versions, version, sites)), 0)
  {
    CollectedReplaceLinks(content, versions, version, sites);
    if version.IsLatest() {
      return content;
    }
    var rewriter := new LinkRewriter(content, versions, version);
    for n := 0 to |sites|
      invariant rewriter.replacements == FromSites(content, versions, version, sites[..n])
    {
      assert sites[..n + 1][..n] == sites[..n];
      rewriter.Visit(sites[n]);
    }
    assert sites[..|sites|] == sites;
    ghost var collected := rewriter.replacements;
    rewriter.SortReplacements();
    result := rewriter.ApplyReplacements();
    if Disjoint(collected) {
      SortedSplicesSubstitute(content, collected, rewriter.replacements);
    }
  }

  predicate IsExamplePage(page: string) {
    AreSegments([page]) && '?' !in page && '#' !in page && page !in ["1.6", "latest"]
  }

  lemma {:induction false} ExampleSegments(page: string, href: string)
    requires IsExamplePage(page) && href == "/docs/" + page
    ensures PathOnly(href) == href && Split(href, '/') == ["", "docs", page]
  {
    PathOnlyAppend(href, "");
    assert href + "" == href;
    assert SlugPath([page]) == href;
    SlugPathSplits([page]);
  }

  /** A link to a page of the latest version is rewritten for the other one. */
  lemma ExampleIsRewritten(page: string, href: string, site: Site)
    requires IsExamplePage(page) && href == "/docs/" + page && Href(site) == Some(href) && site.span.Some?
    ensures IsRewritten(DOCS_VERSIONS, Version("1.6"), site)
  {
    ExampleSegments(page, href);
    assert !TargetsVersion(DOCS_VERSIONS, href);
    assert RootSuffix(href).None?;
    assert |Prefix(Version("1.6")) + Tail(href)| > |href|;
  }

  /** A label that holds a colon and a copy of the link: the label is rewritten, not the destination. */
  lemma LabelRewritten()
    ensures var content := "[:/docs/x]: /docs/x";
            var site := Definition("/docs/x", Some(Span(0, 19)));
            var v := Version("1.6");
            && OccursAt(content, "/docs/x", 12)
            && FromSite(content, DOCS_VERSIONS, v, site)
               == [Replacement(2, 9, ScopeDocsHref(DOCS_VERSIONS, "/docs/x", v))]
  {
    var content := "[:/docs/x]: /docs/x";
    assert content[0..19] == content;
    assert content[2..9] == "/docs/x" && content[12..19] == "/docs/x";
    assert content[0..1][0] == '[' && content[1..2] == ":";
    assert !OccursAt(content, ":", 0) && OccursAt(content, ":", 1);
    ExampleIsRewritten("x", "/docs/x", Definition("/docs/x", Some(Span(0, 19))));
    DestinationRewritten(content, DOCS_VERSIONS, Version("1.6"), Definition("/docs/x", Some(Span(0, 19))), content,
                         ScopeDocsHref(DOCS_VERSIONS, "/docs/x", Version("1.6")), 2, 2);
  }
}
