/** Source texts whose lines spell a forest, and what the parser makes of them. */
module ApiSource {
  import opened Text
  import opened ApiLines
  import opened PropertyForest
  import opened ApiParser
  import opened ParsedForest
  import opened ApiRestrictions
  import opened ApiSpelling
  import opened ApiForest

  // ----- Lines with margins -----

  /** The lines are the given texts, with any white space around each. */
  predicate Spells(lines: seq<string>, texts: seq<string>) {
    MapAll(Trim, lines) == texts
  }

  predicate AllTrimmed(texts: seq<string>) {
    forall text | text in texts :: IsTrimmed(text)
  }

  lemma CommentsTrimmed(comments: seq<Comment>)
    requires ValidComments(comments)
    ensures AllTrimmed(CommentTexts(comments))
  {
    forall c | c in comments ensures IsTrimmed(CommentText(c)) {
      CommentReads(c);
    }
  }

  lemma {:induction false} ForestTrimmed(f: Forest)
    requires ValidForest(f)
    ensures AllTrimmed(ForestTexts(f))
  {
    if f.Cons? {
      CommentsTrimmed(f.entry.comments);
      PropertyReads(f.entry.line, f.entry.layout);
      ForestTrimmed(f.kids);
      ForestTrimmed(f.rest);
      if f.IsNested() {
        CommentsTrimmed(f.closing);
        CloserReads(f.closer);
      }
    }
  }

  /** A forest's lines with any margins: indentation, trailing spaces, in any mixture. */
  lemma {:induction false} MarginsSpell(body: seq<string>, f: Forest, left: seq<string>, right: seq<string>)
    requires ValidForest(f) && |body| == |left| == |right| == |ForestTexts(f)|
    requires forall k | 0 <= k < |body| ::
               AllSpace(left[k]) && AllSpace(right[k]) && body[k] == left[k] + ForestTexts(f)[k] + right[k]
    ensures Spells(body, ForestTexts(f))
  {
    ForestTrimmed(f);
    forall k | 0 <= k < |body| ensures MapAll(Trim, body)[k] == ForestTexts(f)[k] {
      TrimMargins(left[k], ForestTexts(f)[k], right[k]);
    }
  }

  /** Lines that spell a forest, whatever white space is around them, read as its events. */
  lemma {:induction false} BodyReads(body: seq<string>, f: Forest)
    requires ValidForest(f) && Spells(body, ForestTexts(f))
    ensures Events(body) == ForestEvents(f)
  {
    ForestReads(f);
    forall k | 0 <= k < |body| ensures Events(body)[k] == ForestEvents(f)[k] {
      EventAt(body, k);
    }
  }

  // ----- A whole declaration among other lines -----

  /** A type declaration, with the lines before and after it; `closing` ones follow its last entry. */
  datatype Listing = Listing(
    before: seq<string>,
    header: string,
    body: seq<string>,
    closing: seq<string>,
    closer: string,
    after: seq<string>)

  function Inside(l: Listing): seq<string> {
    l.body + l.closing
  }

  function Lines(l: Listing): seq<string> {
    l.before + ([l.header] + (Inside(l) + ([l.closer] + l.after)))
  }

  function DefinitionLines(l: Listing): seq<string> {
    [l.header] + (Inside(l) + [l.closer])
  }

  /** A line that is neither a property nor a closer. */
  predicate IsComment(line: string) {
    ReadTrimmed(line) != Closer && !ReadTrimmed(line).Member?
  }

  /** The first type declaration among the lines has the given name and spells the forest. */
  predicate Declares(l: Listing, name: string, f: Forest) {
    && (forall line | line in l.before :: !IsTypeLine(line))
    && TypeName(Trim(l.header)) == Some(name)
    && ValidForest(f) && Spells(l.body, ForestTexts(f))
    && (forall line | line in l.closing :: IsComment(line))
    && Trim(l.closer) in CLOSERS
  }

  function PrefixText(lines: seq<string>): string {
    var text := Trim(Join(lines, "\n"));
    if text == "" then "" else text + "\n"
  }

  function SuffixText(lines: seq<string>): string {
    var text := Trim(Join(lines, "\n"));
    if text == "" then "" else "\n" + text
  }

  lemma HeaderFirst(l: Listing, name: string, f: Forest)
    requires Declares(l, name, f)
    ensures TypeStart(Lines(l)) == |l.before| && IsTypeLine(l.header)
  {
    forall k | 0 <= k < |l.before| ensures !IsTypeLine(Lines(l)[k]) {
      assert Lines(l)[k] == l.before[k] && l.before[k] in l.before;
    }
    assert Lines(l)[|l.before|] == l.header;
    TypeStartFirst(Lines(l), |l.before|);
  }

  lemma AfterHeader(l: Listing)
    ensures Lines(l)[|l.before| + 1..] == Inside(l) + ([l.closer] + l.after)
  {
    var rest := Inside(l) + ([l.closer] + l.after);
    Associative(l.before, [l.header], rest);
    assert Lines(l) == (l.before + [l.header]) + rest;
  }

  lemma {:induction false} EndedType(f: Forest, closing: seq<Event>, after: seq<Event>)
    requires ValidForest(f) && AreComments(closing)
    ensures var events := ForestEvents(f) + (closing + ([Closer] + after));
            && Declared(events, [], NO_DOC) == Preorder(f, [], []) && Owned(events, [], NO_DOC) == OwnForest(f)
            && EndOfType(events, 0) == |ForestEvents(f)| + |closing|
  {
    var ended := [Closer] + after;
    var doc := DocOf(Left(f, []));
    assert DocOf([]) == NO_DOC && ended[0] == Closer;
    ForestDeclares(f, [], closing + ended, [], 0);
    CommentsCollect(closing, ended, [], doc, 0);
    assert Preorder(f, [], []) + [] == Preorder(f, [], []);
    ForestOwns(f, closing + ended, []);
    OwnedCollect(closing, ended, [], NO_DOC);
    assert OwnForest(f) + [] == OwnForest(f);
  }

  lemma ClosingEvents(lines: seq<string>)
    requires forall line | line in lines :: IsComment(line)
    ensures AreComments(Events(lines))
  {
    forall k | 0 <= k < |lines| ensures Events(lines)[k] != Closer && !Events(lines)[k].Member? {
      assert IsComment(lines[k]);
    }
  }

  lemma {:induction false} InsideReads(l: Listing, name: string, f: Forest)
    requires Declares(l, name, f)
    ensures Events(Inside(l) + ([l.closer] + l.after))
            == ForestEvents(f) + (Events(l.closing) + ([Closer] + Events(l.after)))
  {
    BodyReads(l.body, f);
    Associative(l.body, l.closing, [l.closer] + l.after);
    MapAllAppend(ReadTrimmed, l.body, l.closing + ([l.closer] + l.after));
    MapAllAppend(ReadTrimmed, l.closing, [l.closer] + l.after);
    MapAllAppend(ReadTrimmed, [l.closer], l.after);
    CloserReads(Trim(l.closer));
    OneTrimmed(l.closer);
  }

  lemma {:induction false} ReadTypeIs(events: seq<Event>, n: nat, ds: seq<Declaration>)
    requires EndOfType(events, 0) == n && Declared(events, [], NO_DOC) == ds
    ensures ReadType(events) == Some((n, Properties(ds)))
  {
  }

  /** The events of the lines inside a declaration read as what the forest declares and owns. */
  predicate ReadsForest(events: seq<Event>, f: Forest, size: nat) {
    && Declared(events, [], NO_DOC) == Preorder(f, [], []) && Owned(events, [], NO_DOC) == OwnForest(f)
    && EndOfType(events, 0) == size
  }

  lemma TypeReads(l: Listing, name: string, f: Forest)
    requires Declares(l, name, f)
    ensures ReadsForest(Events(Inside(l) + ([l.closer] + l.after)), f, |Inside(l)|)
  {
    InsideReads(l, name, f);
    InsideSize(l, name, f);
    ClosingEvents(l.closing);
    EndedType(f, Events(l.closing), Events(l.after));
  }

  lemma {:induction false} InsideSize(l: Listing, name: string, f: Forest)
    requires Declares(l, name, f)
    ensures |Inside(l)| == |ForestEvents(f)| + |Events(l.closing)|
  {
    BodyReads(l.body, f);
  }

  lemma OneTrimmed(line: string)
    ensures Events([line]) == [ReadLine(Trim(line))]
  {
  }

  lemma AssembledParts(l: Listing, name: string, ps: seq<Property>)
    ensures Assemble(Lines(l), |l.before|, |l.before| + 1 + |Inside(l)|, name, ps)
            == ParsedApiMethod(name, ps, PrefixText(l.before), SuffixText(l.after), Join(DefinitionLines(l), "\n"))
  {
    PartsOf(l);
  }

  lemma PartsOf(l: Listing)
    ensures var lines, start, end := Lines(l), |l.before|, |l.before| + 1 + |Inside(l)|;
            lines[..start] == l.before && lines[end + 1..] == l.after && lines[start..end + 1] == DefinitionLines(l)
  {
    var definition := DefinitionLines(l);
    Associative([l.header], Inside(l), [l.closer] + l.after);
    Associative([l.header] + Inside(l), [l.closer], l.after);
    assert definition == [l.header] + Inside(l) + [l.closer];
    assert Lines(l) == l.before + (definition + l.after);
  }

  lemma HeaderAt(l: Listing)
    ensures |l.before| + 1 + |Inside(l)| < |Lines(l)| && Lines(l)[|l.before|] == l.header
  {
  }

  lemma FinishUnfolds(source: string, lines: seq<string>, start: nat, end: nat, ps: seq<Property>)
    requires start < end < |lines| && IsTypeLine(lines[start])
    ensures Finish(source, lines, start, Some((end - start - 1, ps)))
            == Assemble(lines, start, end, TypeName(Trim(lines[start])).value, ps)
  {
  }

  lemma FinishIs(source: string, lines: seq<string>, header: string, start: nat, end: nat, name: string,
                 ps: seq<Property>)
    requires start < end < |lines| && lines[start] == header && TypeName(Trim(header)) == Some(name)
    ensures IsTypeLine(lines[start])
    ensures Finish(source, lines, start, Some((end - start - 1, ps))) == Assemble(lines, start, end, name, ps)
  {
    FinishUnfolds(source, lines, start, end, ps);
  }

  lemma FinishedType(source: string, l: Listing, name: string, ps: seq<Property>)
    requires TypeName(Trim(l.header)) == Some(name)
    ensures |l.before| + 1 + |Inside(l)| < |Lines(l)| && IsTypeLine(Lines(l)[|l.before|])
    ensures Finish(source, Lines(l), |l.before|, Some((|Inside(l)|, ps)))
            == ParsedApiMethod(name, ps, PrefixText(l.before), SuffixText(l.after), Join(DefinitionLines(l), "\n"))
  {
    HeaderAt(l);
    var start, end := |l.before|, |l.before| + 1 + |Inside(l)|;
    FinishIs(source, Lines(l), l.header, start, end, name, ps);
    AssembledParts(l, name, ps);
  }

  /**
   Any source whose lines hold a type declaration that spells a forest, in whatever layout, parses
   to the forest's exact preorder, with the paths, marks and comments it was written with, and keeps
   the lines before, of and after the declaration.
   */
  lemma {:induction false} ParseOfSource(source: string, l: Listing, name: string, f: Forest)
    requires SourceLines(source) == Lines(l) && Declares(l, name, f)
    ensures Declarations(source) == Preorder(f, [], []) && OwnComments(source) == OwnForest(f)
    ensures Parse(source) ==
            ParsedApiMethod(name, Properties(Preorder(f, [], [])), PrefixText(l.before), SuffixText(l.after),
                            Join(DefinitionLines(l), "\n"))
    ensures Closes(source)
  {
    HeaderFirst(l, name, f);
    AfterHeader(l);
    TypeReads(l, name, f);
    FinishedType(source, l, name, Properties(Preorder(f, [], [])));
    ParsedAs(source, l, f);
  }

  lemma {:induction false} ParsedAs(source: string, l: Listing, f: Forest)
    requires |l.before| + 1 + |Inside(l)| < |Lines(l)|
    requires SourceLines(source) == Lines(l) && TypeStart(Lines(l)) == |l.before| && IsTypeLine(Lines(l)[|l.before|])
    requires Lines(l)[|l.before| + 1..] == Inside(l) + ([l.closer] + l.after)
    requires ReadsForest(Events(Inside(l) + ([l.closer] + l.after)), f, |Inside(l)|)
    ensures Declarations(source) == Preorder(f, [], []) && OwnComments(source) == OwnForest(f) && Closes(source)
    ensures Parse(source) == Finish(source, Lines(l), |l.before|, Some((|Inside(l)|, Properties(Preorder(f, [], [])))))
  {
    ReadTypeIs(Events(Inside(l) + ([l.closer] + l.after)), |Inside(l)|, Preorder(f, [], []));
  }

  /** The source has a type declaration, and it closes. */
  predicate Closes(source: string) {
    var lines := SourceLines(source);
    var start := TypeStart(lines);
    start != -1 && EndOfType(Events(lines[start + 1..]), 0) != -1
  }

  // ----- A text for any lines -----

  predicate HasNoLineEnd(line: string) {
    '\n' !in line && '\r' !in line
  }

  /** Lines as the text's split gives them: no line ends inside, and no outer white space. */
  predicate AreLines(lines: seq<string>) {
    && lines != [] && (forall line | line in lines :: HasNoLineEnd(line))
    && IsTrimmed(Join(lines, "\n"))
  }

  lemma {:induction false} ReplaceInJoin(lines: seq<string>)
    requires lines != [] && forall line | line in lines :: '\r' !in line
    ensures ReplaceCRLF(Join(lines, "\r\n")) == Join(lines, "\n")
  {
    if |lines| == 1 {
      ReplaceCRLFAbsent(lines[0]);
    } else {
      ReplaceInJoin(lines[1..]);
      ReplaceFirst(lines[0], Join(lines[1..], "\r\n"));
      Associative(lines[0], "\r\n", Join(lines[1..], "\r\n"));
      Associative(lines[0], "\n", Join(lines[1..], "\n"));
    }
  }

  lemma {:induction false} ReplaceEnd(rest: string)
    ensures ReplaceCRLF("\r\n" + rest) == "\n" + ReplaceCRLF(rest)
  {
    assert ("\r\n" + rest)[2..] == rest;
  }

  lemma {:induction false} ReplaceOther(c: char, s: string)
    requires c != '\r' && s != ""
    ensures ReplaceCRLF([c] + s) == [c] + ReplaceCRLF(s)
  {
    assert ([c] + s)[1..] == s;
  }

  lemma {:induction false} ReplaceFirst(line: string, rest: string)
    requires '\r' !in line
    ensures ReplaceCRLF(line + ("\r\n" + rest)) == line + ("\n" + ReplaceCRLF(rest))
  {
    var tail := "\r\n" + rest;
    if line == "" {
      ReplaceEnd(rest);
      assert line + tail == tail;
    } else {
      ReplaceFirst(line[1..], rest);
      ReplaceOther(line[0], line[1..] + tail);
      assert line + tail == [line[0]] + (line[1..] + tail);
    }
  }

  lemma {:induction false} JoinedText(lines: seq<string>)
    requires forall line | line in lines :: '\r' !in line
    ensures '\r' !in Join(lines, "\n")
  {
    if |lines| > 1 {
      JoinedText(lines[1..]);
    }
  }

  /** Lines joined by either kind of line end are the lines of their text. */
  lemma {:induction false} LinesOfText(lines: seq<string>, newline: string)
    requires AreLines(lines) && newline in ["\n", "\r\n"]
    ensures SourceLines(Join(lines, newline)) == lines
  {
    if newline == "\n" {
      JoinedText(lines);
      ReplaceCRLFAbsent(Join(lines, "\n"));
    } else {
      ReplaceInJoin(lines);
    }
    TrimOfTrimmed(Join(lines, "\n"));
    SplitJoin(lines, '\n');
  }
}
