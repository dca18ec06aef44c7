/** Which restrictions a property should have, and exactly when the parser's flags say so. */
module ApiRestrictions {
  import opened ApiLines
  import opened PropertyForest
  import opened ApiParser
  import opened ParsedForest

  // ----- A property's own comment -----

  /**
   The comment that stands directly above each declared property: unlike the parser's record of the
   comment, it starts anew after a closer and after a line that the parser skips.
   */
  function Owned(events: seq<Event>, path: seq<string>, own: Doc): seq<Doc> {
    if events == [] then []
    else
      match events[0]
      case Closer =>
        if path == [] then [] else Owned(events[1..], path[..|path| - 1], NO_DOC)
      case Skipped =>
        Owned(events[1..], path, NO_DOC)
      case Member(line) =>
        [own] + Owned(events[1..], Declaration(line, own, path).Inner(), NO_DOC)
      case _ =>
        Owned(events[1..], path, Amend(own, events[0]))
  }

  /** The own comments of the declarations behind `Parse(source).properties`. */
  function OwnComments(source: string): seq<Doc> {
    var lines := SourceLines(source);
    var start := TypeStart(lines);
    if start == -1 then []
    else
      var events := Events(lines[start + 1..]);
      if EndOfType(events, 0) == -1 then [] else Owned(events, [], NO_DOC)
  }

  predicate Restricts(doc: Doc, audience: Audience) {
    match audience
    case Client => doc.serverOnly
    case Server => doc.clientOnly
  }

  predicate Within(own: Doc, doc: Doc) {
    forall audience :: Restricts(own, audience) ==> Restricts(doc, audience)
  }

  /** One own comment for each declaration, and the parser's record of the comment restricts no less. */
  predicate Matches(ds: seq<Declaration>, owns: seq<Doc>) {
    |owns| == |ds| && forall k | 0 <= k < |ds| :: Within(owns[k], ds[k].doc)
  }

  lemma AmendWithin(own: Doc, doc: Doc, e: Event)
    requires Within(own, doc)
    ensures Within(Amend(own, e), Amend(doc, e)) && Within(NO_DOC, doc)
  {
    assert Restricts(own, Client) ==> Restricts(doc, Client);
    assert Restricts(own, Server) ==> Restricts(doc, Server);
  }

  lemma MatchesFirst(d: Declaration, own: Doc, ds: seq<Declaration>, owns: seq<Doc>)
    requires Within(own, d.doc) && Matches(ds, owns)
    ensures Matches([d] + ds, [own] + owns)
  {
  }

  lemma {:induction false} OwnedMatches(events: seq<Event>, path: seq<string>, own: Doc, doc: Doc)
    requires Within(own, doc)
    ensures Matches(Declared(events, path, doc), Owned(events, path, own))
  {
    if events != [] {
      AmendWithin(own, doc, events[0]);
      match events[0] {
        case Closer =>
          if path != [] {
            OwnedMatches(events[1..], path[..|path| - 1], NO_DOC, doc);
          }
        case Skipped => OwnedMatches(events[1..], path, NO_DOC, doc);
        case Member(line) =>
          var inner := Declaration(line, doc, path).Inner();
          OwnedMatches(events[1..], inner, NO_DOC, NO_DOC);
          MatchesFirst(Declaration(line, doc, path), own, Declared(events[1..], inner, NO_DOC),
                       Owned(events[1..], inner, NO_DOC));
        case _ => OwnedMatches(events[1..], path, Amend(own, events[0]), Amend(doc, events[0]));
      }
    }
  }

  lemma OwnCommentsMatch(source: string)
    ensures Matches(Declarations(source), OwnComments(source))
  {
    var lines := SourceLines(source);
    var start := TypeStart(lines);
    if start != -1 {
      OwnedMatches(Events(lines[start + 1..]), [], NO_DOC, NO_DOC);
    }
  }

  // ----- Own and inherited restrictions -----

  /** Hidden by its own directive or by that of an object it is nested in. */
  predicate InheritsHidden(ds: seq<Declaration>, owns: seq<Doc>, k: nat, audience: Audience)
    requires k < |ds| == |owns|
  {
    || Restricts(owns[k], audience)
    || exists e | 0 <= e < k :: Encloses(Properties(ds), e, k) && Restricts(owns[e], audience)
  }

  /** An object that nothing hides repeats the dotted path of an earlier object with its own directive. */
  predicate RepeatsHiddenObject(ds: seq<Declaration>, owns: seq<Doc>, j: nat, k: nat, audience: Audience)
    requires |ds| == |owns|
  {
    && j < k < |ds|
    && ds[j].IsNested() && Restricts(owns[j], audience)
    && ds[k].IsNested() && ds[k].Inner() == ds[j].Inner()
    && !InheritsHidden(ds, owns, k, audience)
  }

  predicate RepeatsHidden(ds: seq<Declaration>, owns: seq<Doc>, audience: Audience)
    requires |ds| == |owns|
  {
    exists j: nat, k: nat | j < k < |ds| :: RepeatsHiddenObject(ds, owns, j, k, audience)
  }

  /** A directive from before a closer or a skipped line reaches a property that nothing else hides. */
  predicate CarriesHiddenTo(ds: seq<Declaration>, owns: seq<Doc>, k: nat, audience: Audience)
    requires |ds| == |owns|
  {
    k < |ds| && ds[k].Hides(audience) && !InheritsHidden(ds, owns, k, audience)
  }

  predicate CarriesHidden(ds: seq<Declaration>, owns: seq<Doc>, audience: Audience)
    requires |ds| == |owns|
  {
    exists k: nat | k < |ds| :: CarriesHiddenTo(ds, owns, k, audience)
  }

  /** The object at or above `k` whose inner path is the given prefix of `k`'s. */
  lemma ObjectAtPrefix(ds: seq<Declaration>, k: nat, depth: nat) returns (e: nat)
    requires Nests(ds, []) && k < |ds| && 0 < depth <= |ds[k].Inner()|
    ensures e <= k && ds[e].IsNested() && ds[e].Inner() == ds[k].Inner()[..depth]
    ensures e == k || Encloses(Properties(ds), e, k)
    ensures forall i | e < i <= k :: |ds[i].path| >= depth
  {
    if depth > |ds[k].path| {
      e := k;
    } else {
      NestsIsPreorder(ds);
      e := EnclosingObject(Properties(ds), k, depth);
      EnclosingIsNested(ds, e, k);
      assert ds[k].path[..depth] == ds[k].Inner()[..depth];
      forall i | e < i <= k ensures |ds[i].path| >= depth {
        assert Properties(ds)[e].Inner() <= Properties(ds)[i].path;
      }
    }
  }

  lemma InheritedFromObject(ds: seq<Declaration>, owns: seq<Doc>, e: nat, k: nat, audience: Audience)
    requires k < |ds| == |owns| && Encloses(Properties(ds), e, k) && InheritsHidden(ds, owns, e, audience)
    ensures InheritsHidden(ds, owns, k, audience)
  {
    if !Restricts(owns[e], audience) {
      var f :| 0 <= f < e && Encloses(Properties(ds), f, e) && Restricts(owns[f], audience);
      var ps := Properties(ds);
      assert ps[f].Inner() <= ps[e].path;
      forall i | f < i <= k ensures ps[f].Inner() <= ps[i].path {
        assert i > e ==> ps[e].Inner() <= ps[i].path;
      }
      assert Encloses(ps, f, k);
    }
  }

  /** Without repeats, a later object of the same inner path inherits. */
  lemma SameObjectInherits(ds: seq<Declaration>, owns: seq<Doc>, j: nat, e: nat, audience: Audience)
    requires j <= e < |ds| == |owns| && ds[j].IsNested() && ds[e].IsNested() && ds[e].Inner() == ds[j].Inner()
    requires Restricts(owns[j], audience) && !RepeatsHidden(ds, owns, audience)
    ensures InheritsHidden(ds, owns, e, audience)
  {
    if j < e {
      assert !RepeatsHiddenObject(ds, owns, j, e, audience);
    }
  }

  lemma HiddenObject(ds: seq<Declaration>, k: nat, audience: Audience) returns (j: nat)
    requires k < |ds| && IsHidden(ds, k, audience) && !ds[k].Hides(audience)
    ensures j <= k && ds[j].IsNested() && ds[j].Hides(audience) && ds[j].Inner() <= ds[k].Inner()
  {
    j :| 0 <= j <= k && ds[j].IsNested() && ds[j].Hides(audience) && ds[j].Inner() <= ds[k].Inner();
  }

  /** Where nothing is carried, an object that hides something is, or lies in, one with its own directive. */
  lemma RestrictingObject(ds: seq<Declaration>, owns: seq<Doc>, j: nat, audience: Audience) returns (o: nat)
    requires Nests(ds, []) && j < |ds| == |owns| && ds[j].IsNested() && InheritsHidden(ds, owns, j, audience)
    ensures o <= j && ds[o].IsNested() && Restricts(owns[o], audience) && ds[o].Inner() <= ds[j].Inner()
  {
    o := j;
    if !Restricts(owns[j], audience) {
      o :| 0 <= o < j && Encloses(Properties(ds), o, j) && Restricts(owns[o], audience);
      EnclosingIsNested(ds, o, j);
    }
  }

  lemma HiddenByObject(ds: seq<Declaration>, owns: seq<Doc>, o: nat, k: nat, audience: Audience)
    requires Nests(ds, []) && o <= k < |ds| == |owns| && !RepeatsHidden(ds, owns, audience)
    requires ds[o].IsNested() && Restricts(owns[o], audience) && ds[o].Inner() <= ds[k].Inner()
    ensures InheritsHidden(ds, owns, k, audience)
  {
    var e := ObjectAtPrefix(ds, k, |ds[o].Inner()|);
    SameObjectInherits(ds, owns, o, e, audience);
    if e < k {
      InheritedFromObject(ds, owns, e, k, audience);
    }
  }

  lemma HiddenIsInherited(ds: seq<Declaration>, owns: seq<Doc>, k: nat, audience: Audience)
    requires Nests(ds, []) && k < |ds| == |owns| && IsHidden(ds, k, audience)
    requires !RepeatsHidden(ds, owns, audience) && !CarriesHidden(ds, owns, audience)
    ensures InheritsHidden(ds, owns, k, audience)
  {
    if ds[k].Hides(audience) {
      assert !CarriesHiddenTo(ds, owns, k, audience);
    } else {
      var j := HiddenObject(ds, k, audience);
      assert !CarriesHiddenTo(ds, owns, j, audience);
      var o := RestrictingObject(ds, owns, j, audience);
      HiddenByObject(ds, owns, o, k, audience);
    }
  }

  lemma InheritedIsHidden(ds: seq<Declaration>, owns: seq<Doc>, k: nat, audience: Audience)
    requires Nests(ds, []) && Matches(ds, owns) && k < |ds| && InheritsHidden(ds, owns, k, audience)
    ensures IsHidden(ds, k, audience)
  {
    if Restricts(owns[k], audience) {
      assert Within(owns[k], ds[k].doc);
    } else {
      var e :| 0 <= e < k && Encloses(Properties(ds), e, k) && Restricts(owns[e], audience);
      assert Within(owns[e], ds[e].doc);
      EnclosingIsNested(ds, e, k);
      assert ds[e].Inner() <= ds[k].Inner();
    }
  }

  /** Each property is hidden exactly when its own directive or that of an enclosing object says so. */
  predicate FlagsInherited(ds: seq<Declaration>, owns: seq<Doc>, ps: seq<Property>, audience: Audience) {
    && |ds| == |ps| == |owns|
    && forall k | 0 <= k < |ds| :: Hidden(ps[k], audience) <==> InheritsHidden(ds, owns, k, audience)
  }

  lemma InheritedWithoutLeaks(ds: seq<Declaration>, owns: seq<Doc>, audience: Audience)
    requires Nests(ds, []) && Matches(ds, owns)
    requires !RepeatsHidden(ds, owns, audience) && !CarriesHidden(ds, owns, audience)
    ensures FlagsInherited(ds, owns, Properties(ds), audience)
  {
    forall k | 0 <= k < |ds| ensures IsHidden(ds, k, audience) <==> InheritsHidden(ds, owns, k, audience) {
      if IsHidden(ds, k, audience) {
        HiddenIsInherited(ds, owns, k, audience);
      } else if InheritsHidden(ds, owns, k, audience) {
        InheritedIsHidden(ds, owns, k, audience);
      }
    }
  }

  lemma RepeatedNotInherited(ds: seq<Declaration>, owns: seq<Doc>, j: nat, k: nat, audience: Audience)
    requires Matches(ds, owns) && RepeatsHiddenObject(ds, owns, j, k, audience)
    ensures IsHidden(ds, k, audience) && !InheritsHidden(ds, owns, k, audience)
  {
    assert Within(owns[j], ds[j].doc);
    assert ds[j].Inner() <= ds[k].Inner();
  }

  /**
   The parser's restriction flags are exactly the own and inherited ones if and only if no
   unrestricted object repeats the path of an earlier restricted one, as the parser never forgets a
   restricted path, and no directive from before a closer or a skipped line reaches a property that
   nothing else restricts, as the parser forgets a comment only at a property.
   */
  lemma FlagsAreInherited(source: string, audience: Audience)
    ensures var ds, owns := Declarations(source), OwnComments(source);
            && |ds| == |owns|
            && (FlagsInherited(ds, owns, Parse(source).properties, audience)
                <==> !RepeatsHidden(ds, owns, audience) && !CarriesHidden(ds, owns, audience))
  {
    ParsedProperties(source);
    OwnCommentsMatch(source);
    var ds, owns := Declarations(source), OwnComments(source);
    if RepeatsHidden(ds, owns, audience) {
      var j: nat, k: nat :| RepeatsHiddenObject(ds, owns, j, k, audience);
      RepeatedNotInherited(ds, owns, j, k, audience);
      assert Hidden(Properties(ds)[k], audience);
    } else if k: nat :| k < |ds| && CarriesHiddenTo(ds, owns, k, audience) {
      assert Hidden(Properties(ds)[k], audience);
    } else {
      InheritedWithoutLeaks(ds, owns, audience);
    }
  }
}
