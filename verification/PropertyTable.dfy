/** The recursive property table: grouping by path prefix rebuilds the forest. */
module PropertyTable {
  import opened Text
  import opened PropertyForest
  import opened ApiParser
  import opened ParsedForest

  /** A rendered property with the rows nested under it, and the rows after it. */
  datatype Rows = End | Row(property: Property, nested: Rows, next: Rows)

  /** Whether `p` lies below the object at `prefix`: the length test and the segment-wise test. */
  predicate StartsWith(path: seq<string>, prefix: seq<string>) {
    |path| >= |prefix| && forall i | 0 <= i < |prefix| :: path[i] == prefix[i]
  }

  /** How many properties from the front lie below `prefix`. */
  function RunBelow(ps: seq<Property>, prefix: seq<string>): (n: nat)
    ensures n <= |ps|
  {
    if ps == [] || !StartsWith(ps[0].path, prefix) then 0 else 1 + RunBelow(ps[1..], prefix)
  }

  lemma {:induction false} RunBelowIsMaximal(ps: seq<Property>, prefix: seq<string>)
    ensures var n := RunBelow(ps, prefix);
            && (forall i | 0 <= i < n :: prefix <= ps[i].path)
            && (n < |ps| ==> !(prefix <= ps[n].path))
  {
    if ps != [] && StartsWith(ps[0].path, prefix) {
      RunBelowIsMaximal(ps[1..], prefix);
    }
  }

  function ChildCount(ps: seq<Property>): (n: nat)
    requires ps != []
    ensures n < |ps|
  {
    if ps[0].IsObject() then RunBelow(ps[1..], ps[0].path + [ps[0].name]) else 0
  }

  /** The table of a property list, by regrouping on every level. */
  function Table(ps: seq<Property>): Rows
    decreases |ps|
  {
    if ps == [] then End
    else
      var n := ChildCount(ps);
      Row(ps[0], Table(ps[1..n + 1]), Table(ps[n + 1..]))
  }

  datatype Group = Group(property: Property, children: seq<Property>)

  function Groups(ps: seq<Property>): seq<Group>
    decreases |ps|
  {
    if ps == [] then []
    else
      var n := ChildCount(ps);
      [Group(ps[0], ps[1..n + 1])] + Groups(ps[n + 1..])
  }

  // ----- The component -----

  method TakeChildren(ps: seq<Property>, from: nat, parentSegments: seq<string>) returns (children: seq<Property>)
    requires from <= |ps|
    ensures |children| == RunBelow(ps[from..], parentSegments)
    ensures from + |children| <= |ps| && children == ps[from..from + |children|]
  {
    children := [];
    var index := from;
    while index < |ps| && StartsWith(ps[index].path, parentSegments)
      invariant from <= index <= |ps| && children == ps[from..index]
      invariant RunBelow(ps[from..], parentSegments) == |children| + RunBelow(ps[index..], parentSegments)
    {
      assert ps[index..][1..] == ps[index + 1..];
      children := children + [ps[index]];
      index := index + 1;
    }
  }

  lemma GroupsFrom(ps: seq<Property>, index: nat, group: Group, next: nat)
    requires index < next <= |ps| && group.property == ps[index] && group.children == ps[index + 1..next]
    requires next - index - 1 ==
             if ps[index].IsObject() then RunBelow(ps[index + 1..], ps[index].path + [ps[index].name]) else 0
    ensures Groups(ps[index..]) == [group] + Groups(ps[next..])
  {
    var rest := ps[index..];
    assert rest[1..] == ps[index + 1..];
    assert rest[1..next - index] == group.children && rest[next - index..] == ps[next..];
  }

  method TakeGroup(ps: seq<Property>, index: nat) returns (group: Group, next: nat)
    requires index < |ps|
    ensures index < next <= |ps| && Groups(ps[index..]) == [group] + Groups(ps[next..])
  {
    var p := ps[index];
    group := Group(p, []);
    if p.ty == "Object" {
      var children := TakeChildren(ps, index + 1, p.path + [p.name]);
      group := Group(p, children);
    }
    next := index + 1 + |group.children|;
    GroupsFrom(ps, index, group, next);
  }

  method CollectGroups(ps: seq<Property>) returns (groups: seq<Group>)
    ensures groups == Groups(ps)
  {
    groups := [];
    var index := 0;
    assert ps[0..] == ps;
    while index < |ps|
      invariant 0 <= index <= |ps|
      invariant Groups(ps) == groups + Groups(ps[index..])
    {
      var group, next := TakeGroup(ps, index);
      Associative(groups, [group], Groups(ps[next..]));
      groups := groups + [group];
      index := next;
    }
  }

  method RenderList(ps: seq<Property>) returns (rows: Rows)
    ensures rows == Table(ps)
    decreases |ps|, 1
  {
    var groups := CollectGroups(ps);
    rows := RenderGroups(groups, ps);
  }

  method RenderGroups(groups: seq<Group>, ghost ps: seq<Property>) returns (rows: Rows)
    requires groups == Groups(ps)
    ensures rows == Table(ps)
    decreases |ps|, 0
  {
    if groups == [] {
      rows := End;
    } else {
      ghost var n := ChildCount(ps);
      var nested := RenderList(groups[0].children);
      var next := RenderGroups(groups[1..], ps[n + 1..]);
      rows := Row(groups[0].property, nested, next);
    }
  }

  // ----- What the table shows -----

  /** Each rendered property with the number of lists it is nested in, top to bottom. */
  function Outline(rows: Rows, level: nat): seq<(Property, nat)> {
    match rows
    case End => []
    case Row(p, nested, next) => [(p, level)] + Outline(nested, level + 1) + Outline(next, level)
  }

  function Levels(ps: seq<Property>): (ls: seq<(Property, nat)>)
    ensures |ls| == |ps|
    ensures forall k | 0 <= k < |ps| :: ls[k] == (ps[k], |ps[k].path|)
  {
    seq(|ps|, k requires 0 <= k < |ps| => (ps[k], |ps[k].path|))
  }

  /** The rendered properties, top to bottom. */
  function Rendered(rows: Rows): seq<Property> {
    match rows
    case End => []
    case Row(p, nested, next) => [p] + (Rendered(nested) + Rendered(next))
  }

  /** Every property of any list is rendered once and in order, however the list is nested. */
  lemma {:induction false} TableKeepsAll(ps: seq<Property>)
    ensures Rendered(Table(ps)) == ps
    decreases |ps|
  {
    if ps != [] {
      var n := ChildCount(ps);
      TableKeepsAll(ps[1..n + 1]);
      TableKeepsAll(ps[n + 1..]);
      assert ps == [ps[0]] + (ps[1..n + 1] + ps[n + 1..]);
    }
  }

  lemma LevelsSplit(ps: seq<Property>, n: nat)
    requires n < |ps|
    ensures Levels(ps) == [(ps[0], |ps[0].path|)] + Levels(ps[1..n + 1]) + Levels(ps[n + 1..])
  {
  }

  /** The preorder of the part of a forest that lies below `path`. */
  predicate IsPreorderBelow(ps: seq<Property>, path: seq<string>) {
    forall k {:trigger OpenBelow(ps, path, k)} | 0 <= k < |ps| :: path <= ps[k].path <= OpenBelow(ps, path, k)
  }

  function OpenBelow(ps: seq<Property>, path: seq<string>, k: nat): seq<string>
    requires k <= |ps|
  {
    if k == 0 then path else ps[k - 1].Inner()
  }

  lemma PrefixesOfOne(a: seq<string>, b: seq<string>, whole: seq<string>)
    requires a <= whole && b <= whole && |a| <= |b|
    ensures a <= b
  {
  }

  lemma KidsBelow(ps: seq<Property>, path: seq<string>)
    requires ps != [] && IsPreorderBelow(ps, path)
    ensures IsPreorderBelow(ps[1..ChildCount(ps) + 1], ps[0].Inner())
  {
    var inner := ps[0].Inner();
    var kids := ps[1..ChildCount(ps) + 1];
    RunBelowIsMaximal(ps[1..], inner);
    forall k | 0 <= k < |kids| ensures inner <= kids[k].path <= OpenBelow(kids, inner, k) {
      assert inner <= ps[1..][k].path;
      assert OpenBelow(kids, inner, k) == OpenBelow(ps, path, k + 1);
    }
  }

  /** The first property after the children of an object is not deeper than the object. */
  lemma AfterKids(ps: seq<Property>, path: seq<string>)
    requires ps != [] && IsPreorderBelow(ps, path) && ChildCount(ps) + 1 < |ps|
    ensures path <= ps[ChildCount(ps) + 1].path <= path
  {
    var n := ChildCount(ps);
    var inner, next := ps[0].Inner(), ps[n + 1].path;
    assert ps[0].path == path by { assert ps[0].path <= OpenBelow(ps, path, 0); }
    assert path <= next <= ps[n].Inner() by { assert next <= OpenBelow(ps, path, n + 1); }
    if ps[0].IsObject() {
      RunBelowIsMaximal(ps[1..], inner);
      assert !(inner <= next) by { assert ps[1..][n] == ps[n + 1]; }
      assert inner <= ps[n].Inner() by {
        if n > 0 {
          assert inner <= ps[1..][n - 1].path;
        }
      }
      if |inner| <= |next| {
        PrefixesOfOne(inner, next, ps[n].Inner());
      }
    }
  }

  lemma LaterBelow(ps: seq<Property>, path: seq<string>)
    requires ps != [] && IsPreorderBelow(ps, path)
    ensures IsPreorderBelow(ps[ChildCount(ps) + 1..], path)
  {
    var n := ChildCount(ps);
    var later := ps[n + 1..];
    forall k | 0 <= k < |later| ensures path <= later[k].path <= OpenBelow(later, path, k) {
      if k == 0 {
        AfterKids(ps, path);
      } else {
        assert OpenBelow(later, path, k) == OpenBelow(ps, path, n + 1 + k);
      }
    }
  }

  lemma {:induction false} LevelsJoin(ps: seq<Property>, kids: seq<Property>, later: seq<Property>)
    requires ps != [] && kids == ps[1..ChildCount(ps) + 1] && later == ps[ChildCount(ps) + 1..]
    requires Outline(Table(kids), |ps[0].Inner()|) == Levels(kids)
    requires Outline(Table(later), |ps[0].path|) == Levels(later)
    ensures Outline(Table(ps), |ps[0].path|) == Levels(ps)
  {
    LevelsSplit(ps, ChildCount(ps));
    assert Table(ps) == Row(ps[0], Table(kids), Table(later));
    assert kids != [] ==> |ps[0].Inner()| == |ps[0].path| + 1;
  }

  lemma {:induction false} TableLevels(ps: seq<Property>, path: seq<string>)
    requires IsPreorderBelow(ps, path)
    ensures Outline(Table(ps), |path|) == Levels(ps)
    decreases |ps|
  {
    if ps != [] {
      var n := ChildCount(ps);
      var kids, later := ps[1..n + 1], ps[n + 1..];
      assert ps[0].path == path by { assert ps[0].path <= OpenBelow(ps, path, 0); }
      KidsBelow(ps, path);
      LaterBelow(ps, path);
      TableLevels(later, path);
      TableLevels(kids, ps[0].Inner());
      LevelsJoin(ps, kids, later);
    }
  }

  /** The preorder of a table without properties that are not objects but have rows under them. */
  predicate OnlyObjectsNest(rows: Rows) {
    rows.Row? ==>
      && (rows.nested.Row? ==> rows.property.IsObject())
      && OnlyObjectsNest(rows.nested) && OnlyObjectsNest(rows.next)
  }

  /** For any source text and audience, the table shows each visible property once, in order, at its own depth. */
  lemma {:induction false} TableOfSource(source: string, audience: Audience)
    ensures var vs := Visible(Parse(source).properties, audience);
            Outline(Table(vs), 0) == Levels(vs) && Rendered(Table(vs)) == vs && OnlyObjectsNest(Table(vs))
  {
    ParseGivesForest(source);
    var vs := Visible(Parse(source).properties, audience);
    assert IsPreorderBelow(vs, []) by {
      forall k | 0 <= k < |vs| ensures [] <= vs[k].path <= OpenBelow(vs, [], k) {
        assert vs[k].path <= OpenPath(vs, k);
      }
    }
    TableLevels(vs, []);
    TableKeepsAll(vs);
    TableNests(vs);
  }

  lemma {:induction false} TableNests(ps: seq<Property>)
    ensures OnlyObjectsNest(Table(ps))
    decreases |ps|
  {
    if ps != [] {
      var n := ChildCount(ps);
      TableNests(ps[1..n + 1]);
      TableNests(ps[n + 1..]);
    }
  }

  /** Rows whose properties carry the paths of the rows they are nested in. */
  predicate PathsFollow(rows: Rows, path: seq<string>) {
    rows.Row? ==>
      && rows.property.path == path
      && (rows.nested.Row? ==> rows.property.IsObject() && PathsFollow(rows.nested, rows.property.Inner()))
      && PathsFollow(rows.next, path)
  }

  lemma {:induction false} RenderedBelow(rows: Rows, path: seq<string>)
    requires PathsFollow(rows, path)
    ensures forall p | p in Rendered(rows) :: path <= p.path
  {
    if rows.Row? {
      if rows.nested.Row? {
        RenderedBelow(rows.nested, rows.property.Inner());
      }
      RenderedBelow(rows.next, path);
    }
  }

  lemma {:induction false} RunBelowExact(below: seq<Property>, after: seq<Property>, prefix: seq<string>)
    requires forall p | p in below :: prefix <= p.path
    requires after != [] ==> !(prefix <= after[0].path)
    ensures RunBelow(below + after, prefix) == |below|
  {
    if below == [] {
      assert below + after == after;
    } else {
      assert (below + after)[1..] == below[1..] + after;
      RunBelowExact(below[1..], after, prefix);
    }
  }

  lemma RowSplits(p: Property, below: seq<Property>, after: seq<Property>)
    requires below != [] ==> p.IsObject() && forall q | q in below :: p.Inner() <= q.path
    requires after != [] ==> after[0].path == p.path
    ensures var ps := [p] + (below + after);
            ChildCount(ps) == |below| && ps[1..|below| + 1] == below && ps[|below| + 1..] == after
  {
    var ps := [p] + (below + after);
    assert ps[1..] == below + after;
    if p.IsObject() {
      RunBelowExact(below, after, p.Inner());
    }
  }

  lemma {:induction false} RenderedFirst(rows: Rows, path: seq<string>)
    requires PathsFollow(rows, path) && rows.Row?
    ensures Rendered(rows) != [] && Rendered(rows)[0].path == path
  {
  }

  /** Grouping the listing of any nested rows rebuilds exactly those rows: a listing has one table. */
  lemma {:induction false} TableOfRendered(rows: Rows, path: seq<string>)
    requires PathsFollow(rows, path)
    ensures Table(Rendered(rows)) == rows
  {
    if rows.Row? {
      var p := rows.property;
      var below, after := Rendered(rows.nested), Rendered(rows.next);
      TableOfRendered(rows.next, path);
      if rows.next.Row? {
        RenderedFirst(rows.next, path);
      }
      if rows.nested.Row? {
        TableOfRendered(rows.nested, p.Inner());
        RenderedBelow(rows.nested, p.Inner());
      }
      RowSplits(p, below, after);
    }
  }
}
