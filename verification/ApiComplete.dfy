/** Every source whose declaration closes has lines that spell a forest. */
module ApiComplete {
  import opened Text
  import opened ApiLines
  import opened ApiParser
  import opened ApiSpelling
  import opened ApiAccepted
  import opened ApiForest
  import opened ApiSource

  /** Where the closer `depth + 1` levels up is, the closer `depth` levels up comes first. */
  lemma {:induction false} InnerEnd(events: seq<Event>, inner: nat, depth: nat)
    requires EndOfType(events, inner + 1 + depth) != -1
    ensures var n := EndOfType(events, inner);
            && n != -1 && events[n] == Closer && EndOfType(events[n + 1..], depth) != -1
            && EndOfType(events, inner + 1 + depth) == n + 1 + EndOfType(events[n + 1..], depth)
  {
    if !(events[0] == Closer && inner == 0) {
      var next :=
        if events[0] == Closer then inner - 1
        else if events[0].Member? && events[0].line.ty == "{" then inner + 1
        else inner;
      InnerEnd(events[1..], next, depth);
      var n := EndOfType(events[1..], next);
      assert events[1..][n + 1..] == events[n + 2..];
    }
  }

  lemma {:induction false} EndIsCloser(events: seq<Event>, depth: nat)
    requires EndOfType(events, depth) != -1
    ensures events[EndOfType(events, depth)] == Closer
  {
    if !(events[0] == Closer && depth == 0) {
      var next :=
        if events[0] == Closer then depth - 1
        else if events[0].Member? && events[0].line.ty == "{" then depth + 1
        else depth;
      EndIsCloser(events[1..], next);
    }
  }

  lemma CloserIsSpelled(text: string)
    requires ReadLine(text) == Closer
    ensures text in CLOSERS
  {
  }

  /** The texts are those of a forest and comments after it. */
  predicate IsBuilt(texts: seq<string>, f: Forest, closing: seq<Comment>) {
    ValidForest(f) && ValidComments(closing) && ForestTexts(f) + CommentTexts(closing) == texts
  }

  lemma ReadAsRest(texts: seq<string>, events: seq<Event>, n: nat)
    requires ReadAs(texts, events) && n <= |texts|
    ensures |events| == |texts| && ReadAs(texts[n..], events[n..])
  {
    MapAllSlice(ReadLine, texts, n, |texts|);
    assert texts[n..|texts|] == texts[n..] && events[n..|texts|] == events[n..];
  }

  lemma ReadAt(texts: seq<string>, events: seq<Event>, k: nat)
    requires ReadAs(texts, events) && k < |texts|
    ensures |events| == |texts| && ReadLine(texts[k]) == events[k]
  {
  }

  lemma AddComment(texts: seq<string>, c: Comment, f: Forest, closing: seq<Comment>)
    returns (f': Forest, closing': seq<Comment>)
    requires IsBuilt(texts, f, closing) && ValidComment(c)
    ensures IsBuilt([CommentText(c)] + texts, f', closing')
  {
    if f.Nil? {
      f', closing' := f, [c] + closing;
      MapAllAppend(CommentText, [c], closing);
    } else {
      f', closing' := f.(entry := f.entry.(comments := [c] + f.entry.comments)), closing;
      FirstComment(f, c);
      Associative([CommentText(c)], ForestTexts(f), CommentTexts(closing));
    }
  }

  lemma {:induction false} FirstComment(f: Forest, c: Comment)
    requires f.Cons? && ValidForest(f) && ValidComment(c)
    ensures var f' := f.(entry := f.entry.(comments := [c] + f.entry.comments));
            ValidForest(f') && ForestTexts(f') == [CommentText(c)] + ForestTexts(f)
  {
    var f' := f.(entry := f.entry.(comments := [c] + f.entry.comments));
    assert CommentTexts(f'.entry.comments) == [CommentText(c)] + CommentTexts(f.entry.comments);
    Associative([CommentText(c)], CommentTexts(f.entry.comments), [PropertyText(f.entry.line, f.entry.layout)]);
    assert EntryTexts(f'.entry) == [CommentText(c)] + EntryTexts(f.entry);
    var later := (if f.IsNested() then ForestTexts(f.kids) + ClosingTexts(f) else []) + ForestTexts(f.rest);
    assert ForestTexts(f') == EntryTexts(f'.entry) + later;
    Associative([CommentText(c)], EntryTexts(f.entry), later);
  }

  lemma {:induction false} FieldTexts(line: PropertyLine, layout: Layout, rest: Forest)
    requires ValidProperty(line, layout) && line.ty != "{" && ValidForest(rest)
    ensures var f := Cons(Entry(line, layout, []), Nil, [], "", rest);
            ValidForest(f) && ForestTexts(f) == [PropertyText(line, layout)] + ForestTexts(rest)
  {
    var f := Cons(Entry(line, layout, []), Nil, [], "", rest);
    assert EntryTexts(f.entry) == [PropertyText(line, layout)];
    assert [] + ForestTexts(rest) == ForestTexts(rest);
  }

  lemma AddField(texts: seq<string>, line: PropertyLine, layout: Layout, f: Forest, closing: seq<Comment>)
    requires IsBuilt(texts, f, closing) && ValidProperty(line, layout) && line.ty != "{"
    ensures IsBuilt([PropertyText(line, layout)] + texts, Cons(Entry(line, layout, []), Nil, [], "", f), closing)
  {
    FieldTexts(line, layout, f);
    Associative([PropertyText(line, layout)], ForestTexts(f), CommentTexts(closing));
  }

  lemma {:induction false} ObjectTexts(line: PropertyLine, layout: Layout, kids: Forest, closing: seq<Comment>,
                                       closer: string,
                    rest: Forest)
    requires ValidProperty(line, layout) && line.ty == "{" && ValidForest(kids) && ValidForest(rest)
    requires ValidComments(closing) && closer in CLOSERS
    ensures var f := Cons(Entry(line, layout, []), kids, closing, closer, rest);
            && ValidForest(f)
            && ForestTexts(f)
               == [PropertyText(line, layout)]
                  + (((ForestTexts(kids) + CommentTexts(closing)) + [closer]) + ForestTexts(rest))
  {
    var f := Cons(Entry(line, layout, []), kids, closing, closer, rest);
    assert EntryTexts(f.entry) == [PropertyText(line, layout)];
    Associative(ForestTexts(kids), CommentTexts(closing), [closer]);
  }

  lemma AddObject(line: PropertyLine, layout: Layout, inner: seq<string>, kids: Forest, closing: seq<Comment>,
                  closer: string, later: seq<string>, rest: Forest, closing': seq<Comment>)
    requires ValidProperty(line, layout) && line.ty == "{" && closer in CLOSERS
    requires IsBuilt(inner, kids, closing) && IsBuilt(later, rest, closing')
    ensures IsBuilt([PropertyText(line, layout)] + ((inner + [closer]) + later),
                    Cons(Entry(line, layout, []), kids, closing, closer, rest), closing')
  {
    ObjectTexts(line, layout, kids, closing, closer, rest);
    var text, nested := [PropertyText(line, layout)], inner + [closer];
    Associative(text, nested + ForestTexts(rest), CommentTexts(closing'));
    Associative(nested, ForestTexts(rest), CommentTexts(closing'));
  }

  lemma {:induction false} FirstIsPart(events: seq<Event>)
    requires EndOfType(events, 0) != -1 && events[0] != Closer
    requires events[0].Member? ==> events[0].line.ty != "{"
    ensures EndOfType(events[1..], 0) != -1 && EndOfType(events, 0) == 1 + EndOfType(events[1..], 0)
  {
  }

  lemma {:induction false} ObjectOpens(events: seq<Event>)
    requires EndOfType(events, 0) != -1 && events[0].Member? && events[0].line.ty == "{"
    ensures EndOfType(events[1..], 1) != -1 && EndOfType(events, 0) == 1 + EndOfType(events[1..], 1)
  {
  }

  /** Where what is nested in an object ends, and what comes after it. */
  lemma {:induction false} ObjectEnds(events: seq<Event>, rest: seq<Event>)
    requires |events| > 0 && rest == events[1..] && EndOfType(rest, 1) != -1
    ensures var n := EndOfType(rest, 0);
            && 0 <= n && n + 2 <= |events| && events[n + 1] == Closer && EndOfType(events[n + 2..], 0) != -1
            && EndOfType(rest, 1) == n + 1 + EndOfType(events[n + 2..], 0)
  {
    InnerEnd(rest, 0, 0);
    var n := EndOfType(rest, 0);
    assert rest[n + 1..] == events[n + 2..];
  }

  lemma TrimmedRest(texts: seq<string>, n: nat)
    requires n <= |texts| && AllTrimmed(texts)
    ensures AllTrimmed(texts[n..])
  {
  }

  /** The texts read as the events, up to a closer that nothing among them opens. */
  predicate IsClosed(texts: seq<string>, events: seq<Event>) {
    AllTrimmed(texts) && ReadAs(texts, events) && EndOfType(events, 0) != -1
  }

  lemma ClosedRest(texts: seq<string>, events: seq<Event>, n: nat)
    requires IsClosed(texts, events) && n <= |events| && EndOfType(events[n..], 0) != -1
    ensures |events| == |texts| && IsClosed(texts[n..], events[n..])
  {
    ReadAsRest(texts, events, n);
    TrimmedRest(texts, n);
  }

  lemma FirstThen(texts: seq<string>, n: nat)
    requires n < |texts|
    ensures texts[..1 + n] == [texts[0]] + texts[1..][..n]
  {
  }

  /** Trimmed lines up to an unmatched closer spell a forest and comments after it. */
  lemma {:induction false} BuildForest(texts: seq<string>, events: seq<Event>) returns (f: Forest,
      closing: seq<Comment>)
    requires IsClosed(texts, events)
    ensures EndOfType(events, 0) < |texts| && IsBuilt(texts[..EndOfType(events, 0)], f, closing)
    decreases |texts|, 2
  {
    ReadAt(texts, events, 0);
    if events[0] == Closer {
      f, closing := Nil, [];
    } else if events[0].Member? && events[0].line.ty == "{" {
      f, closing := BuildObject(texts, events);
    } else {
      FirstIsPart(events);
      ClosedRest(texts, events, 1);
      f, closing := BuildForest(texts[1..], events[1..]);
      f, closing := AddFirst(texts[0], events[0], texts[1..][..EndOfType(events[1..], 0)], f, closing);
      FirstThen(texts, EndOfType(events[1..], 0));
    }
  }

  /** A field or a comment line before a forest. */
  lemma AddFirst(text: string, event: Event, texts: seq<string>, f: Forest, closing: seq<Comment>)
    returns (f': Forest, closing': seq<Comment>)
    requires IsTrimmed(text) && ReadLine(text) == event && event != Closer && (event.Member? ==> event.line.ty != "{")
    requires IsBuilt(texts, f, closing)
    ensures IsBuilt([text] + texts, f', closing')
  {
    if event.Member? {
      var layout := PropertySpelled(text, event.line);
      AddField(texts, event.line, layout, f, closing);
      f', closing' := Cons(Entry(event.line, layout, []), Nil, [], "", f), closing;
    } else {
      var c := CommentSpelled(text);
      f', closing' := AddComment(texts, c, f, closing);
    }
  }

  lemma SplitObject(texts: seq<string>, n: nat, m: nat)
    requires n + 2 <= |texts| && m <= |texts| - n - 2
    ensures texts[..n + 2 + m] == [texts[0]] + ((texts[1..][..n] + [texts[n + 1]]) + texts[n + 2..][..m])
  {
    assert texts[..n + 2] == [texts[0]] + (texts[1..][..n] + [texts[n + 1]]);
    assert texts[..n + 2 + m] == texts[..n + 2] + texts[n + 2..][..m];
    Associative([texts[0]], texts[1..][..n] + [texts[n + 1]], texts[n + 2..][..m]);
  }

  /** The closed parts of an object: what is nested in it, and what comes after it. */
  lemma ObjectParts(texts: seq<string>, events: seq<Event>) returns (n: nat, m: nat)
    requires IsClosed(texts, events) && events[0].Member? && events[0].line.ty == "{"
    ensures n + 2 + m < |texts| == |events| && EndOfType(events, 0) == n + 2 + m
    ensures n == EndOfType(events[1..], 0) && m == EndOfType(events[n + 2..], 0)
    ensures IsClosed(texts[1..], events[1..]) && IsClosed(texts[n + 2..], events[n + 2..])
    ensures ReadLine(texts[0]) == events[0] && ReadLine(texts[n + 1]) == Closer
  {
    ObjectOpens(events);
    ObjectEnds(events, events[1..]);
    n := EndOfType(events[1..], 0);
    m := EndOfType(events[n + 2..], 0);
    ClosedRest(texts, events, 1);
    ClosedRest(texts, events, n + 2);
    ReadAt(texts, events, 0);
    ReadAt(texts, events, n + 1);
  }

  lemma {:induction false} BuildObject(texts: seq<string>, events: seq<Event>) returns (f: Forest,
      closing: seq<Comment>)
    requires IsClosed(texts, events) && events[0].Member? && events[0].line.ty == "{"
    ensures EndOfType(events, 0) < |texts| && IsBuilt(texts[..EndOfType(events, 0)], f, closing)
    decreases |texts|, 1
  {
    var n, m := ObjectParts(texts, events);
    var kids, inner := BuildForest(texts[1..], events[1..]);
    var later;
    later, closing := BuildForest(texts[n + 2..], events[n + 2..]);
    f := JoinObject(texts[0], events[0].line, texts[1..][..n], kids, inner, texts[n + 1], texts[n + 2..][..m], later,
                    closing);
    SplitObject(texts, n, m);
  }

  lemma JoinObject(text: string, line: PropertyLine, inner: seq<string>, kids: Forest, closing: seq<Comment>,
                   closer: string,
                   later: seq<string>, rest: Forest, closing': seq<Comment>) returns (f: Forest)
    requires IsTrimmed(text) && ReadLine(text) == Member(line) && line.ty == "{" && ReadLine(closer) == Closer
    requires IsBuilt(inner, kids, closing) && IsBuilt(later, rest, closing')
    ensures IsBuilt([text] + ((inner + [closer]) + later), f, closing')
  {
    var layout := PropertySpelled(text, line);
    CloserIsSpelled(closer);
    AddObject(line, layout, inner, kids, closing, closer, later, rest, closing');
    f := Cons(Entry(line, layout, []), kids, closing, closer, rest);
  }

  lemma {:induction false} TypeStartLeast(lines: seq<string>)
    ensures forall k | 0 <= k < |lines| && (TypeStart(lines) == -1 || k < TypeStart(lines)) :: !IsTypeLine(lines[k])
  {
    if lines != [] && !IsTypeLine(lines[0]) {
      TypeStartLeast(lines[1..]);
      forall k | 0 < k < |lines| && (TypeStart(lines) == -1 || k < TypeStart(lines)) ensures !IsTypeLine(lines[k]) {
        assert lines[1..][k - 1] == lines[k];
      }
    }
  }

  lemma {:induction false} TrimmedReads(lines: seq<string>)
    ensures AllTrimmed(MapAll(Trim, lines)) && ReadAs(MapAll(Trim, lines), Events(lines))
  {
    forall k | 0 <= k < |lines| ensures MapAll(ReadLine, MapAll(Trim, lines))[k] == Events(lines)[k] {
      EventAt(lines, k);
    }
    forall k | 0 <= k < |lines| ensures IsTrimmed(MapAll(Trim, lines)[k]) {
      TrimIsTrimmed(lines[k]);
    }
  }

  lemma ClosingAreComments(lines: seq<string>, closing: seq<Comment>)
    requires ValidComments(closing) && Spells(lines, CommentTexts(closing))
    ensures forall line | line in lines :: IsComment(line)
  {
    forall k | 0 <= k < |lines| ensures IsComment(lines[k]) {
      CommentReads(closing[k]);
    }
  }

  lemma SplitBuilt(left: seq<string>, right: seq<string>, texts: seq<string>, n: nat)
    requires n <= |texts| && left + right == texts[..n]
    ensures |left| + |right| == n && texts[0..|left|] == left && texts[|left|..n] == right
  {
    assert |left + right| == n;
    assert texts[0..|left|] == (left + right)[..|left|];
    assert texts[|left|..n] == (left + right)[|left|..];
  }

  /** The parts of the lines after a header that were read as a forest, comments and a closer. */
  lemma {:induction false} BuiltParts(rest: seq<string>, left: seq<string>, right: seq<string>, n: nat)
    requires n < |rest| && left + right == MapAll(Trim, rest)[..n]
    ensures var m := |left|;
            m <= n && Spells(rest[0..m], left) && Spells(rest[m..n], right)
  {
    SplitBuilt(left, right, MapAll(Trim, rest), n);
    MapAllSlice(Trim, rest, 0, |left|);
    MapAllSlice(Trim, rest, |left|, n);
  }

  lemma SplitLines(lines: seq<string>, start: nat, m: nat, n: nat)
    requires start < |lines| && m <= n < |lines| - start - 1
    ensures var rest := lines[start + 1..];
            Lines(Listing(lines[..start], lines[start], rest[0..m], rest[m..n], rest[n], rest[n + 1..])) == lines
  {
    var rest := lines[start + 1..];
    assert rest[0..m] + rest[m..n] == rest[..n];
    assert rest[..n] + ([rest[n]] + rest[n + 1..]) == rest;
    assert [lines[start]] + rest == lines[start..];
  }

  lemma ListingOf(lines: seq<string>, start: nat) returns (l: Listing, f: Forest)
    requires start < |lines| && EndOfType(Events(lines[start + 1..]), 0) != -1
    ensures l.before == lines[..start] && l.header == lines[start] && Lines(l) == lines
    ensures ValidForest(f) && Spells(l.body, ForestTexts(f)) && Trim(l.closer) in CLOSERS
    ensures forall line | line in l.closing :: IsComment(line)
  {
    var rest := lines[start + 1..];
    var n := EndOfType(Events(rest), 0);
    TrimmedReads(rest);
    var closing;
    f, closing := BuildForest(MapAll(Trim, rest), Events(rest));
    BuiltParts(rest, ForestTexts(f), CommentTexts(closing), n);
    var m := |ForestTexts(f)|;
    l := Listing(lines[..start], lines[start], rest[0..m], rest[m..n], rest[n], rest[n + 1..]);
    ClosingAreComments(rest[m..n], closing);
    SplitLines(lines, start, m, n);
    CloserLine(rest, n);
  }

  lemma CloserLine(rest: seq<string>, n: nat)
    requires n < |rest| && EndOfType(Events(rest), 0) == n
    ensures Trim(rest[n]) in CLOSERS
  {
    EndIsCloser(Events(rest), 0);
    EventAt(rest, n);
    CloserIsSpelled(Trim(rest[n]));
  }

  lemma {:induction false} ListingDeclares(lines: seq<string>, start: nat, l: Listing, name: string, f: Forest)
    requires start < |lines| && l.before == lines[..start] && l.header == lines[start]
    requires TypeName(Trim(lines[start])) == Some(name) && forall k | 0 <= k < start :: !IsTypeLine(lines[k])
    requires ValidForest(f) && Spells(l.body, ForestTexts(f)) && Trim(l.closer) in CLOSERS
    requires forall line | line in l.closing :: IsComment(line)
    ensures Declares(l, name, f)
  {
    forall line | line in l.before ensures !IsTypeLine(line) {
      var k :| 0 <= k < start && l.before[k] == line;
    }
  }

  /** Every source whose declaration closes has lines that spell a forest. */
  lemma EverySourceSpelled(source: string) returns (l: Listing, name: string, f: Forest)
    requires Closes(source)
    ensures SourceLines(source) == Lines(l) && Declares(l, name, f)
  {
    var lines := SourceLines(source);
    var start := TypeStart(lines);
    l, f := ListingOf(lines, start);
    name := TypeName(Trim(lines[start])).value;
    TypeStartLeast(lines);
    ListingDeclares(lines, start, l, name, f);
  }
}
