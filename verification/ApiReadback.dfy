/** Reading a printed example back with a stack of open braces. */
module ApiReadback {
  import opened Text
  import opened PropertyForest
  import opened ApiParser
  import opened ParsedForest
  import opened ApiPrinter

  datatype Frame = Frame(name: string, indent: nat)

  /** What the braces alone say about one printed property. */
  datatype Entry = Entry(name: string, path: seq<string>, isObject: bool, example: Option<string>,
                         comments: seq<string>)

  datatype Reader = Reading(open: seq<Frame>, entries: seq<Entry>) | Stuck

  const READER_START := Reading([], [])

  function Names(frames: seq<Frame>): seq<string> {
    seq(|frames|, i requires 0 <= i < |frames| => frames[i].name)
  }

  /**
   A line belongs at the depth of the open braces; a closer must have the indentation of the line
   it closes.
   */
  function ReadToken(r: Reader, t: Token, base: nat): Reader {
    if r.Stuck? then Stuck
    else
      match t
      case Open(indent, name, example, comments) =>
        if indent != |r.open| + base then Stuck
        else Reading(r.open + [Frame(name, indent)], r.entries + [Entry(name, Names(r.open), true, example, comments)])
      case Field(indent, name, example, comments) =>
        if indent != |r.open| + base then Stuck
        else Reading(r.open, r.entries + [Entry(name, Names(r.open), false, example, comments)])
      case Close(indent) =>
        if r.open == [] || r.open[|r.open| - 1].indent != indent then Stuck
        else Reading(r.open[..|r.open| - 1], r.entries)
  }

  function ReadTokens(r: Reader, ts: seq<Token>, base: nat): Reader
    decreases |ts|
  {
    if ts == [] then r else ReadTokens(ReadToken(r, ts[0], base), ts[1..], base)
  }

  /** The properties of a balanced body, in order, with the paths its braces give them. */
  function ReadBody(ts: seq<Token>, base: nat): Option<seq<Entry>> {
    var r := ReadTokens(READER_START, ts, base);
    if r.Reading? && r.open == [] then Some(r.entries) else None
  }

  function PrintedEntry(p: Property, additional: seq<string>): Entry {
    Entry(p.name, p.path, p.IsObject(), p.example, PropertyComments(p, additional))
  }

  function PrintedEntries(ps: seq<Property>, n: nat, additional: seq<seq<string>>): (es: seq<Entry>)
    requires n <= |ps| == |additional|
    ensures |es| == n
  {
    if n == 0 then [] else PrintedEntries(ps, n - 1, additional) + [PrintedEntry(ps[n - 1], additional[n - 1])]
  }

  // ----- Proof -----

  function Frames(path: seq<string>, base: nat): (fs: seq<Frame>)
    ensures |fs| == |path|
    ensures forall i | 0 <= i < |path| :: fs[i] == Frame(path[i], base + i)
    ensures Names(fs) == path
  {
    seq(|path|, i requires 0 <= i < |path| => Frame(path[i], base + i))
  }

  lemma {:induction false} ReadAppend(r: Reader, left: seq<Token>, right: seq<Token>, base: nat)
    ensures ReadTokens(r, left + right, base) == ReadTokens(ReadTokens(r, left, base), right, base)
    decreases |left|
  {
    if left == [] {
      assert left + right == right;
    } else {
      assert (left + right)[1..] == left[1..] + right;
      ReadAppend(ReadToken(r, left[0], base), left[1..], right, base);
    }
  }

  lemma {:induction false} StuckStays(ts: seq<Token>, base: nat)
    ensures ReadTokens(Stuck, ts, base) == Stuck
  {
    if ts != [] {
      StuckStays(ts[1..], base);
    }
  }

  /** The path left open once the closers down to depth `next` have been read. */
  function Closed(path: seq<string>, next: nat): seq<string> {
    if next < |path| then path[..next] else path
  }

  lemma {:induction false} ClosersRead(path: seq<string>, entries: seq<Entry>, next: nat, base: nat)
    ensures ReadTokens(Reading(Frames(path, base), entries), Closers(|path|, next, base), base)
            == Reading(Frames(Closed(path, next), base), entries)
    decreases |path|
  {
    if |path| > next {
      var shorter := path[..|path| - 1];
      assert Frames(path, base)[..|path| - 1] == Frames(shorter, base);
      ClosersRead(shorter, entries, next, base);
      assert Closed(shorter, next) == Closed(path, next);
    }
  }

  /** One property adds exactly its own entry, provided it continues the open path. */
  lemma {:induction false} EmitOneReads(ps: seq<Property>, n: nat, base: nat, additional: seq<seq<string>>,
                                        open: seq<string>,
                     entries: seq<Entry>)
    requires n < |ps| == |additional|
    requires |open| <= |ps[n].path|
    ensures var entry := PrintedEntry(ps[n], additional[n]);
            var r := ReadTokens(Reading(Frames(open, base), entries), EmitOne(ps, n, base, additional), base);
            if open == ps[n].path then
              r == Reading(Frames(Closed(ps[n].Inner(), NextDepth(ps, n + 1)), base), entries + [entry])
            else r.Reading? ==> |r.entries| == |entries| + 1 && r.entries[|entries|] != entry
  {
    var p := ps[n];
    var line := PropertyToken(p, |p.path| + base, additional[n]);
    var closers := Closers(|p.Inner()|, NextDepth(ps, n + 1), base);
    var start := Reading(Frames(open, base), entries);
    assert ([line] + closers)[1..] == closers;
    assert ReadTokens(start, [line] + closers, base) == ReadTokens(ReadToken(start, line, base), closers, base);
    if |open| != |p.path| {
      StuckStays(closers, base);
    } else {
      var inner := if p.IsObject() then open + [p.name] else open;
      assert Frames(open + [p.name], base) == Frames(open, base) + [Frame(p.name, |p.path| + base)];
      ClosersRead(inner, entries + [PrintedEntry(p, additional[n]).(path := open)], NextDepth(ps, n + 1), base);
      assert |inner| == |p.Inner()|;
    }
  }

  lemma {:induction false} ClosersKeepEntries(r: Reader, current: nat, next: nat, base: nat)
    ensures var r' := ReadTokens(r, Closers(current, next, base), base);
            r'.Stuck? || (r.Reading? && r'.entries == r.entries)
    decreases current
  {
    if r.Stuck? {
      StuckStays(Closers(current, next, base), base);
    } else if current > next {
      var closer := Close(current - 1 + base);
      assert Closers(current, next, base)[1..] == Closers(current - 1, next, base);
      ClosersKeepEntries(ReadToken(r, closer, base), current - 1, next, base);
    }
  }

  lemma {:induction false} EmitOneAppends(ps: seq<Property>, n: nat, base: nat, additional: seq<seq<string>>, r: Reader)
    requires n < |ps| == |additional|
    ensures var r' := ReadTokens(r, EmitOne(ps, n, base, additional), base);
            r'.Stuck? || (r.Reading? && |r'.entries| == |r.entries| + 1 && r.entries <= r'.entries)
  {
    var line := PropertyToken(ps[n], |ps[n].path| + base, additional[n]);
    var closers := Closers(|ps[n].Inner()|, NextDepth(ps, n + 1), base);
    assert ([line] + closers)[1..] == closers;
    ClosersKeepEntries(ReadToken(r, line, base), |ps[n].Inner()|, NextDepth(ps, n + 1), base);
  }

  lemma PreorderNext(ps: seq<Property>, n: nat)
    requires n < |ps|
    ensures IsPreorder(ps[..n + 1]) <==> IsPreorder(ps[..n]) && ps[n].path <= OpenPath(ps, n)
  {
    if IsPreorder(ps[..n + 1]) {
      PreorderPrefix(ps[..n + 1], n);
      assert ps[..n + 1][..n] == ps[..n];
      assert OpenPath(ps[..n + 1], n) == OpenPath(ps, n);
      assert ps[..n + 1][n].path <= OpenPath(ps[..n + 1], n);
    }
    if IsPreorder(ps[..n]) && ps[n].path <= OpenPath(ps, n) {
      assert OpenPath(ps[..n], n) == OpenPath(ps, n);
      AppendPreorder(ps[..n], ps[n]);
      assert ps[..n] + [ps[n]] == ps[..n + 1];
    }
  }

  /** After `n` properties the reader has their exact entries if and only if they form a preorder. */
  lemma {:induction false} EmitReads(ps: seq<Property>, n: nat, base: nat, additional: seq<seq<string>>)
    requires n <= |ps| == |additional|
    ensures var r := ReadTokens(READER_START, Emit(ps, n, base, additional), base);
            if IsPreorder(ps[..n]) then
              r == Reading(Frames(Closed(OpenPath(ps, n), NextDepth(ps, n)), base), PrintedEntries(ps, n, additional))
            else
              r.Stuck? || (|r.entries| == n && r.entries != PrintedEntries(ps, n, additional))
  {
    if n > 0 {
      var m := n - 1;
      var before := ReadTokens(READER_START, Emit(ps, m, base, additional), base);
      EmitReads(ps, m, base, additional);
      ReadAppend(READER_START, Emit(ps, m, base, additional), EmitOne(ps, m, base, additional), base);
      PreorderNext(ps, m);
      if IsPreorder(ps[..m]) {
        EmitOneReads(ps, m, base, additional, Closed(OpenPath(ps, m), NextDepth(ps, m)), before.entries);
      } else {
        EmitOneAppends(ps, m, base, additional, before);
      }
    }
  }

  /**
   A printed body reads back as the printed properties with their own paths if and only if the
   list is the preorder of a forest: then its braces balance, each closer has the indentation of
   its opener, and no property changes its parent.
   */
  lemma {:induction false} ReadBack(ps: seq<Property>, base: nat, additional: seq<seq<string>>)
    requires |ps| == |additional|
    ensures ReadBody(Emit(ps, |ps|, base, additional), base) == Some(PrintedEntries(ps, |ps|, additional))
            <==> IsPreorder(ps)
  {
    EmitReads(ps, |ps|, base, additional);
    assert ps[..|ps|] == ps;
  }

  /** The client example of any source text reads back as its client-visible properties. */
  lemma ClientExampleReadsBack(source: string, options: Options)
    ensures var vs := Visible(Parse(source).properties, Client);
            ReadBody(ClientTokens(Parse(source).properties, options), if UsesQuery(options) then 2 else 1)
            == Some(PrintedEntries(vs, |vs|, NoComments(|vs|)))
  {
    ParseGivesForest(source);
    var vs := Visible(Parse(source).properties, Client);
    ReadBack(vs, if UsesQuery(options) then 2 else 1, NoComments(|vs|));
  }

  /** The server example of any source text reads back as its server-visible properties. */
  lemma ServerExampleReadsBack(source: string)
    ensures var ps := Parse(source).properties;
            var vs := Visible(ps, Server);
            ReadBody(ServerTokens(ps), 2) == Some(PrintedEntries(vs, |vs|, ServerComments(ps, vs)))
  {
    ParseGivesForest(source);
    var ps := Parse(source).properties;
    ReadBack(Visible(ps, Server), 2, ServerComments(ps, Visible(ps, Server)));
  }

  /**
   Every nested property finds its parent, so the `server-only` comment marks exactly the
   server-only properties at the top level, and never a nested one.
   */
  lemma ServerOnlyComment(source: string)
    ensures var ps := Parse(source).properties;
            forall p | p in ps :: InheritedServerOnly(ps, p) <==> p.serverOnly && p.path == []
  {
    ParseGivesForest(source);
    var ps := Parse(source).properties;
    forall p | p in ps ensures InheritedServerOnly(ps, p) <==> p.serverOnly && p.path == [] {
      NestedIsNotMarked(ps, p);
    }
  }

  lemma NestedIsNotMarked(ps: seq<Property>, p: Property)
    requires IsPreorder(ps) && p in ps
    ensures InheritedServerOnly(ps, p) <==> p.serverOnly && p.path == []
  {
    if p.path != [] {
      var k: nat :| k < |ps| && ps[k] == p;
      HasParent(ps, k);
      var e: nat :| e < k && Encloses(ps, e, k) && ps[k].path == ps[e].path + [ps[e].name];
      assert ps[e] in ps && p.path[..|p.path| - 1] == ps[e].path;
    }
  }
}
