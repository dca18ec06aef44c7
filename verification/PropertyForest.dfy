/**
 The flat property list of a parsed type declaration, and what makes such a list the preorder of a
 forest: every path continues the path that the previous property left open.
 */
module PropertyForest {
  import opened Text

  datatype Property = Property(
    name: string,
    optional: bool,
    ty: string,
    example: Option<string>,
    description: Option<string>,
    serverOnly: bool,
    clientOnly: bool,
    nullable: bool,
    path: seq<string>)
  {
    predicate IsObject() {
      ty == "Object"
    }

    /** The path of the properties nested in this one, or this one's own path when it nests none. */
    function Inner(): (inner: seq<string>)
      ensures path <= inner
    {
      if IsObject() then path + [name] else path
    }
  }

  /** The reader an example or table is made for. */
  datatype Audience = Client | Server

  predicate Hidden(p: Property, audience: Audience) {
    match audience
    case Client => p.serverOnly
    case Server => p.clientOnly
  }

  /** The path left open after the first `n` properties. */
  function OpenPath(ps: seq<Property>, n: nat): seq<string>
    requires n <= |ps|
  {
    if n == 0 then [] else ps[n - 1].Inner()
  }

  predicate IsPreorder(ps: seq<Property>) {
    forall k {:trigger OpenPath(ps, k)} | 0 <= k < |ps| :: ps[k].path <= OpenPath(ps, k)
  }

  /** Property `k` lies in the subtree of the earlier object `e`. */
  predicate Encloses(ps: seq<Property>, e: nat, k: nat)
    requires k < |ps|
  {
    && e < k
    && ps[e].IsObject()
    && forall i | e < i <= k :: ps[e].Inner() <= ps[i].path
  }

  predicate HidesSubtrees(ps: seq<Property>, audience: Audience) {
    forall e, k {:trigger Encloses(ps, e, k)} | 0 <= e < k < |ps| && Encloses(ps, e, k) ::
      Hidden(ps[e], audience) ==> Hidden(ps[k], audience)
  }

  function Visible(ps: seq<Property>, audience: Audience): (vs: seq<Property>)
    ensures forall v | v in vs :: v in ps && !Hidden(v, audience)
    ensures forall p | p in ps && !Hidden(p, audience) :: p in vs
  {
    if ps == [] then []
    else
      var before := Visible(ps[..|ps| - 1], audience);
      var last := ps[|ps| - 1];
      assert ps == ps[..|ps| - 1] + [last];
      if Hidden(last, audience) then before else before + [last]
  }

  /** The path left open by the last visible property. */
  function VisibleOpenPath(ps: seq<Property>, audience: Audience): seq<string> {
    var vs := Visible(ps, audience);
    OpenPath(vs, |vs|)
  }

  predicate InHiddenSubtree(ps: seq<Property>, audience: Audience, path: seq<string>) {
    exists e: nat | e < |ps| ::
      && Hidden(ps[e], audience) && ps[e].IsObject() && ps[e].Inner() <= path
      && forall i | e < i < |ps| :: ps[e].Inner() <= ps[i].path
  }

  /**
   A path that continues the whole list either continues its visible part or points into a hidden
   subtree that is still open.
   */
  lemma {:induction false} OpenPathSplits(ps: seq<Property>, audience: Audience, path: seq<string>)
    requires IsPreorder(ps) && HidesSubtrees(ps, audience)
    requires path <= OpenPath(ps, |ps|)
    ensures path <= VisibleOpenPath(ps, audience) || InHiddenSubtree(ps, audience, path)
  {
    if ps != [] {
      var n := |ps| - 1;
      var before, last := ps[..n], ps[n];
      assert ps == before + [last];
      if Hidden(last, audience) {
        if |path| > |last.path| {
          assert path == last.Inner();
        } else {
          assert OpenPath(before, n) == OpenPath(ps, n);
          assert path <= last.path;
          PrefixKeeps(ps, audience, n);
          OpenPathSplits(before, audience, path);
          if InHiddenSubtree(before, audience, path) {
            HiddenSubtreeGrows(before, audience, path, last);
          }
        }
      }
    }
  }

  lemma HiddenSubtreeGrows(ps: seq<Property>, audience: Audience, path: seq<string>, last: Property)
    requires InHiddenSubtree(ps, audience, path) && path <= last.path
    ensures InHiddenSubtree(ps + [last], audience, path)
  {
    var e: nat :| e < |ps| && Hidden(ps[e], audience) && ps[e].IsObject() && ps[e].Inner() <= path
      && forall i | e < i < |ps| :: ps[e].Inner() <= ps[i].path;
    var all := ps + [last];
    assert all[e] == ps[e];
    assert forall i | e < i < |all| :: all[e].Inner() <= all[i].path;
  }

  lemma PreorderPrefix(ps: seq<Property>, n: nat)
    requires IsPreorder(ps) && n <= |ps|
    ensures IsPreorder(ps[..n])
  {
    forall k | 0 <= k < n ensures ps[..n][k].path <= OpenPath(ps[..n], k) {
      assert OpenPath(ps[..n], k) == OpenPath(ps, k);
    }
  }

  lemma EnclosesInPrefix(ps: seq<Property>, n: nat, e: nat, k: nat)
    requires e < k < n <= |ps| && Encloses(ps[..n], e, k)
    ensures Encloses(ps, e, k)
  {
    forall i | e < i <= k ensures ps[e].Inner() <= ps[i].path {
      assert ps[..n][i] == ps[i];
    }
  }

  lemma PrefixKeeps(ps: seq<Property>, audience: Audience, n: nat)
    requires IsPreorder(ps) && HidesSubtrees(ps, audience) && n <= |ps|
    ensures IsPreorder(ps[..n]) && HidesSubtrees(ps[..n], audience)
  {
    PreorderPrefix(ps, n);
    forall e, k | 0 <= e < k < n && Encloses(ps[..n], e, k)
      ensures Hidden(ps[e], audience) ==> Hidden(ps[k], audience)
    {
      EnclosesInPrefix(ps, n, e, k);
    }
  }

  /** Hiding whole subtrees leaves the preorder of a forest. */
  lemma {:induction false} VisibleIsPreorder(ps: seq<Property>, audience: Audience)
    requires IsPreorder(ps) && HidesSubtrees(ps, audience)
    ensures IsPreorder(Visible(ps, audience))
  {
    if ps != [] {
      var n := |ps| - 1;
      var before, last := ps[..n], ps[n];
      PrefixKeeps(ps, audience, n);
      VisibleIsPreorder(before, audience);
      if !Hidden(last, audience) {
        assert OpenPath(before, n) == OpenPath(ps, n);
        OpenPathSplits(before, audience, last.path);
        assert !InHiddenSubtree(before, audience, last.path) by {
          NotInHiddenSubtree(ps, audience);
        }
        AppendPreorder(Visible(before, audience), last);
      }
    }
  }

  lemma NotInHiddenSubtree(ps: seq<Property>, audience: Audience)
    requires ps != [] && HidesSubtrees(ps, audience) && !Hidden(ps[|ps| - 1], audience)
    ensures !InHiddenSubtree(ps[..|ps| - 1], audience, ps[|ps| - 1].path)
  {
    var n := |ps| - 1;
    var before := ps[..n];
    if InHiddenSubtree(before, audience, ps[n].path) {
      var e: nat :| e < n && Hidden(before[e], audience) && before[e].IsObject() && before[e].Inner() <= ps[n].path
        && forall i | e < i < n :: before[e].Inner() <= before[i].path;
      forall i | e < i <= n ensures ps[e].Inner() <= ps[i].path {
        assert i < n ==> before[i] == ps[i];
      }
      assert Encloses(ps, e, n);
    }
  }

  lemma AppendPreorder(vs: seq<Property>, last: Property)
    requires IsPreorder(vs) && last.path <= OpenPath(vs, |vs|)
    ensures IsPreorder(vs + [last])
  {
    var all := vs + [last];
    forall k | 0 <= k < |all| ensures all[k].path <= OpenPath(all, k) {
      assert OpenPath(all, k) == OpenPath(vs, k);
    }
  }

  /** The enclosing objects of property `k`, found without looking at names of siblings. */
  lemma {:induction false} EnclosingObject(ps: seq<Property>, k: nat, depth: nat) returns (e: nat)
    requires IsPreorder(ps) && k < |ps| && 0 < depth <= |ps[k].path|
    ensures e < k && Encloses(ps, e, k) && ps[e].Inner() == ps[k].path[..depth]
  {
    var previous := ps[k - 1];
    assert OpenPath(ps, k) == previous.Inner();
    if depth <= |previous.path| {
      e := EnclosingObject(ps, k - 1, depth);
      assert previous.path[..depth] == ps[k].path[..depth];
    } else {
      e := k - 1;
    }
  }

  /** Each nested property has its parent object earlier in the list. */
  lemma HasParent(ps: seq<Property>, k: nat)
    requires IsPreorder(ps) && k < |ps| && ps[k].path != []
    ensures exists e: nat | e < k :: Encloses(ps, e, k) && ps[e].IsObject() && ps[k].path == ps[e].path + [ps[e].name]
  {
    var e := EnclosingObject(ps, k, |ps[k].path|);
    assert ps[k].path[..|ps[k].path|] == ps[k].path;
  }
}
