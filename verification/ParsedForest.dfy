/** What every parsed property list satisfies, whatever the source text. */
module ParsedForest {
  import opened Text
  import opened ApiLines
  import opened PropertyForest
  import opened ApiParser

  /** The declarations behind `Parse(source).properties`. */
  function Declarations(source: string): seq<Declaration> {
    var lines := SourceLines(source);
    var start := TypeStart(lines);
    if start == -1 then []
    else
      var events := Events(lines[start + 1..]);
      if EndOfType(events, 0) == -1 then [] else Declared(events, [], NO_DOC)
  }

  function OpenDeclaration(ds: seq<Declaration>, path: seq<string>, n: nat): seq<string>
    requires n <= |ds|
  {
    if n == 0 then path else ds[n - 1].Inner()
  }

  /** Each declaration continues the path that the one before it left open; the first continues `path`. */
  predicate Nests(ds: seq<Declaration>, path: seq<string>) {
    forall k {:trigger OpenDeclaration(ds, path, k)} | 0 <= k < |ds| :: ds[k].path <= OpenDeclaration(ds, path, k)
  }

  lemma {:induction false} DeclaredNests(events: seq<Event>, path: seq<string>, doc: Doc)
    ensures Nests(Declared(events, path, doc), path)
  {
    if events == [] {
    } else if events[0] == Closer {
      if path != [] {
        var shorter := path[..|path| - 1];
        DeclaredNests(events[1..], shorter, doc);
        NestsFrom(Declared(events[1..], shorter, doc), shorter, path);
      }
    } else if events[0].Member? {
      var d := Declaration(events[0].line, doc, path);
      var later := Declared(events[1..], d.Inner(), NO_DOC);
      DeclaredNests(events[1..], d.Inner(), NO_DOC);
      var ds := [d] + later;
      forall k | 0 <= k < |ds| ensures ds[k].path <= OpenDeclaration(ds, path, k) {
        assert k > 0 ==> OpenDeclaration(ds, path, k) == OpenDeclaration(later, d.Inner(), k - 1);
      }
    } else {
      DeclaredNests(events[1..], path, Amend(doc, events[0]));
    }
  }

  lemma NestsFrom(ds: seq<Declaration>, shorter: seq<string>, path: seq<string>)
    requires Nests(ds, shorter) && shorter <= path
    ensures Nests(ds, path)
  {
    forall k | 0 <= k < |ds| ensures ds[k].path <= OpenDeclaration(ds, path, k) {
      assert ds[k].path <= OpenDeclaration(ds, shorter, k);
    }
  }

  lemma NestsIsPreorder(ds: seq<Declaration>)
    requires Nests(ds, [])
    ensures IsPreorder(Properties(ds))
  {
    var ps := Properties(ds);
    forall k | 0 <= k < |ps| ensures ps[k].path <= OpenPath(ps, k) {
      assert OpenDeclaration(ds, [], k) <= OpenPath(ps, k);
    }
  }

  /** Only a nested declaration encloses later ones, however its type is spelled. */
  lemma EnclosingIsNested(ds: seq<Declaration>, e: nat, k: nat)
    requires Nests(ds, []) && k < |ds| && Encloses(Properties(ds), e, k)
    ensures e < k && ds[e].IsNested() && ds[e].Inner() <= ds[k].path
  {
    var ps := Properties(ds);
    assert OpenDeclaration(ds, [], e + 1) == ds[e].Inner();
    assert ps[e].Inner() <= ps[e + 1].path;
    assert ps[e].Inner() <= ps[k].path;
  }

  lemma NestsHidesSubtrees(ds: seq<Declaration>, audience: Audience)
    requires Nests(ds, [])
    ensures HidesSubtrees(Properties(ds), audience)
  {
    var ps := Properties(ds);
    forall e, k | 0 <= e < k < |ps| && Encloses(ps, e, k) && Hidden(ps[e], audience)
      ensures Hidden(ps[k], audience)
    {
      EnclosingIsNested(ds, e, k);
      HiddenBelow(ds, e, k, audience);
    }
  }

  lemma HiddenBelow(ds: seq<Declaration>, e: nat, k: nat, audience: Audience)
    requires e < k < |ds| && ds[e].IsNested() && ds[e].Inner() <= ds[k].path && IsHidden(ds, e, audience)
    ensures IsHidden(ds, k, audience)
  {
    if ds[e].Hides(audience) {
      assert ds[e].Inner() <= ds[k].Inner();
    } else {
      var j :| 0 <= j <= e && ds[j].IsNested() && ds[j].Hides(audience) && ds[j].Inner() <= ds[e].Inner();
      assert ds[j].Inner() <= ds[k].Inner();
    }
  }

  lemma FinishedProperties(source: string, lines: seq<string>, start: nat, read: Option<(nat, seq<Property>)>)
    requires start < |lines| && IsTypeLine(lines[start])
    requires read.Some? ==> start + 1 + read.value.0 < |lines|
    ensures Finish(source, lines, start, read).properties == if read.Some? then read.value.1 else []
  {
  }

  lemma ParsedProperties(source: string)
    ensures Parse(source).properties == Properties(Declarations(source))
    ensures Nests(Declarations(source), [])
  {
    var lines := SourceLines(source);
    var start := TypeStart(lines);
    if start != -1 {
      var events := Events(lines[start + 1..]);
      DeclaredNests(events, [], NO_DOC);
      FinishedProperties(source, lines, start, ReadType(events));
    }
  }

  /** Every source text parses to the preorder of a forest, and each audience loses whole subtrees. */
  lemma ParseGivesForest(source: string)
    ensures IsPreorder(Parse(source).properties)
    ensures forall audience :: HidesSubtrees(Parse(source).properties, audience)
    ensures forall audience :: IsPreorder(Visible(Parse(source).properties, audience))
  {
    ParsedProperties(source);
    var ds := Declarations(source);
    NestsIsPreorder(ds);
    forall audience
      ensures HidesSubtrees(Properties(ds), audience)
      ensures IsPreorder(Visible(Properties(ds), audience))
    {
      NestsHidesSubtrees(ds, audience);
      VisibleIsPreorder(Properties(ds), audience);
    }
  }
}
