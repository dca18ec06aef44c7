/** The text of the client and server examples reads back as the properties they were made for. */
module ApiExampleText {
  import opened Text
  import opened PropertyForest
  import opened ApiPrinter
  import opened ApiReadback
  import opened ApiText

  // ----- What a reader is shown -----

  /** What an example shows of one entry: its place, whether it opens an object, its value and its remarks. */
  datatype Shown = Shown(
    name: string,
    path: seq<string>,
    isObject: bool,
    example: Option<string>,
    isServerOnly: bool,
    isRequired: bool,
    description: Option<string>)

  /** The word leads the remark, alone or before a comma. */
  predicate Leads(remark: string, word: string) {
    remark == word || word + ", " <= remark
  }

  function Without(remark: string, word: string): string {
    if remark == word then "" else if word + ", " <= remark then remark[|word| + 2..] else remark
  }

  function ShownBy(e: Entry): Shown {
    var remark := if e.comments == [] then "" else e.comments[0];
    var later := Without(remark, "server-only");
    var last := Without(later, "required");
    Shown(e.name, e.path, e.isObject, e.example, Leads(remark, "server-only"), Leads(later, "required"),
          if last == "" then None else Some(last))
  }

  /** The entries that the text of an example shows, read line by line with a stack of braces. */
  function ReadShown(body: string): Option<seq<Shown>> {
    var entries := ReadExample(body);
    if entries.None? then None else Some(MapAll(ShownBy, entries.value))
  }

  /** A property as an example should show it, below the given objects. */
  function ShownProperty(p: Property, isServerOnly: bool, below: seq<string>): Shown {
    Shown(p.name, below + p.path, p.IsObject(), NonEmptyText(p.example), isServerOnly, !p.optional,
          NonEmptyText(p.description))
  }

  /** A name, a value and a description that stay on one line and hold no sign of the layout. */
  predicate IsPrintable(p: Property) {
    && IsPlainName(p.name)
    && (p.example.Some? ==> IsPlainValue(p.example.value))
    && (p.description.Some? ==> '\n' !in p.description.value)
  }

  /** The description cannot be taken for one of the words that the printer puts before it. */
  predicate IsUnmistakable(p: Property, isServerOnly: bool) {
    p.optional && p.description.Some? ==>
      && !Leads(p.description.value, "required")
      && (isServerOnly || !Leads(p.description.value, "server-only"))
  }

  function Marks(isServerOnly: bool): seq<string> {
    if isServerOnly then ["server-only"] else []
  }

  // ----- Remarks -----

  lemma LeadingWord(word: string, rest: string)
    ensures Leads(word + ", " + rest, word) && Without(word + ", " + rest, word) == rest
  {
    var remark := word + ", " + rest;
    assert remark[..|word| + 2] == word + ", ";
    assert |remark| > |word|;
  }

  /** The remark of a line: the words that the printer puts first, and the description. */
  function RemarkOf(isServerOnly: bool, required: string): string {
    if !isServerOnly then required else if required == "" then "server-only" else "server-only, " + required
  }

  function RequiredOf(optional: bool, description: string): string {
    if optional then description else if description == "" then "required" else "required, " + description
  }

  function DescriptionText(p: Property): string {
    if p.description.None? then "" else p.description.value
  }

  function RequiredComments(optional: bool, description: string): seq<string> {
    (if optional then [] else ["required"]) + (if description == "" then [] else [description])
  }

  lemma CommentsAre(p: Property, marks: seq<string>)
    ensures PropertyComments(p, marks) == marks + RequiredComments(p.optional, DescriptionText(p))
  {
    Associative(marks, if p.optional then [] else ["required"],
                if DescriptionText(p) == "" then [] else [DescriptionText(p)]);
  }

  lemma JoinedRequired(optional: bool, description: string)
    ensures var required := RequiredComments(optional, description);
            Join(required, ", ") == RequiredOf(optional, description)
              && (required == [] <==> optional && description == "")
  {
    JoinedTwo(if optional then [] else ["required"], if description == "" then [] else [description]);
  }

  lemma {:induction false} JoinedMarks(isServerOnly: bool, required: seq<string>, text: string)
    requires Join(required, ", ") == text && (required == [] <==> text == "")
    ensures var comments := Marks(isServerOnly) + required;
            if comments == [] then RemarkOf(isServerOnly, text) == ""
            else Join(comments, ", ") == RemarkOf(isServerOnly, text)
  {
    JoinedTwo(Marks(isServerOnly), required);
  }

  lemma JoinedComments(p: Property, isServerOnly: bool)
    ensures var comments := PropertyComments(p, Marks(isServerOnly));
            var remark := RemarkOf(isServerOnly, RequiredOf(p.optional, DescriptionText(p)));
            if comments == [] then remark == "" else Join(comments, ", ") == remark
  {
    CommentsAre(p, Marks(isServerOnly));
    JoinedRequired(p.optional, DescriptionText(p));
    JoinedMarks(isServerOnly, RequiredComments(p.optional, DescriptionText(p)),
                RequiredOf(p.optional, DescriptionText(p)));
  }

  lemma {:induction false} JoinedTwo(first: seq<string>, rest: seq<string>)
    requires |first| <= 1
    ensures Join(first + rest, ", ") ==
            if first == [] then Join(rest, ", ")
            else if rest == [] then first[0]
            else first[0] + ", " + Join(rest, ", ")
  {
    if first == [] {
      assert first + rest == rest;
    } else {
      assert (first + rest)[1..] == rest;
    }
  }

  lemma RequiredReads(optional: bool, description: string)
    ensures var text := RequiredOf(optional, description);
            (Leads(text, "required") == !optional && Without(text, "required") == description)
            <==> !optional || !Leads(description, "required")
  {
    if !optional {
      LeadingWord("required", description);
    }
  }

  lemma NotServerOnly(description: string)
    ensures !Leads("required", "server-only") && !Leads("required, " + description, "server-only")
  {
    assert "required"[0] == 'r' && ("required, " + description)[0] == 'r' && "server-only"[0] == 's';
  }

  lemma RemarkReads(isServerOnly: bool, optional: bool, description: string)
    ensures var required := RequiredOf(optional, description);
            var remark := RemarkOf(isServerOnly, required);
            (Leads(remark, "server-only") == isServerOnly && Without(remark, "server-only") == required)
            <==> isServerOnly || !optional || !Leads(description, "server-only")
  {
    if isServerOnly {
      LeadingWord("server-only", RequiredOf(optional, description));
    } else if !optional {
      NotServerOnly(description);
    }
  }

  /** One property is shown as it should be if and only if its description is not mistaken. */
  lemma EntryShows(p: Property, isServerOnly: bool, below: seq<string>)
    ensures ShownBy(ReadableEntry(PrintedEntry(p, Marks(isServerOnly)).(path := below + p.path)))
            == ShownProperty(p, isServerOnly, below)
            <==> IsUnmistakable(p, isServerOnly)
  {
    JoinedComments(p, isServerOnly);
    RemarkReads(isServerOnly, p.optional, DescriptionText(p));
    RequiredReads(p.optional, DescriptionText(p));
  }

  // ----- Printed tokens are plain -----

  lemma PropertyTokenPlain(p: Property, indent: nat, isServerOnly: bool)
    requires IsPrintable(p)
    ensures IsPlain(PropertyToken(p, indent, Marks(isServerOnly)))
  {
    assert '\n' !in "required" && '\n' !in "server-only";
  }

  lemma {:induction false} ClosersPlain(current: nat, next: nat, base: nat)
    ensures ArePlain(Closers(current, next, base))
  {
    if current > next {
      ClosersPlain(current - 1, next, base);
    }
  }

  predicate ArePrintable(ps: seq<Property>) {
    forall p | p in ps :: IsPrintable(p)
  }

  /** The additional comments mark the given properties. */
  predicate AreMarks(marked: seq<bool>, additional: seq<seq<string>>) {
    |marked| == |additional| && forall k | 0 <= k < |marked| :: additional[k] == Marks(marked[k])
  }

  lemma {:induction false} EmitPlain(ps: seq<Property>, n: nat, base: nat, additional: seq<seq<string>>,
                                     marked: seq<bool>)
    requires n <= |ps| == |additional| && ArePrintable(ps) && AreMarks(marked, additional)
    ensures ArePlain(Emit(ps, n, base, additional))
  {
    if n > 0 {
      var p := ps[n - 1];
      assert p in ps;
      EmitPlain(ps, n - 1, base, additional, marked);
      PropertyTokenPlain(p, |p.path| + base, marked[n - 1]);
      ClosersPlain(|p.Inner()|, NextDepth(ps, n), base);
    }
  }

  // ----- From lines to text -----

  function NotesText(notes: seq<string>): string {
    if notes == [] then "" else "    // " + notes[0] + "\n" + NotesText(notes[1..])
  }

  function NoteLines(notes: seq<string>): seq<string> {
    if notes == [] then [] else ["    // " + notes[0]] + NoteLines(notes[1..])
  }

  predicate OneLineEach(notes: seq<string>) {
    forall note | note in notes :: '\n' !in note
  }

  lemma {:induction false} NotesSplit(notes: seq<string>, rest: string)
    requires OneLineEach(notes)
    ensures Split(NotesText(notes) + rest, '\n') == NoteLines(notes) + Split(rest, '\n')
  {
    if notes == [] {
      assert NotesText(notes) + rest == rest;
    } else {
      assert notes[0] in notes;
      var line, later := "    // " + notes[0], NotesText(notes[1..]) + rest;
      NotesSplit(notes[1..], rest);
      SplitAtSeparator(line, '\n', later);
      assert NotesText(notes) + rest == line + ['\n'] + later;
      Associative([line], NoteLines(notes[1..]), Split(rest, '\n'));
    }
  }

  lemma NoteReads(note: string)
    ensures ReadPrinted("    // " + note) == Some([]) && NotesIn("    // " + note) == [note]
  {
    var rest := "// " + note;
    FourSpaces(rest);
    assert "    // " + note == INDENTATION + rest;
    assert (INDENTATION + rest)[4..] == rest && (INDENTATION + rest)[7..] == note;
  }

  lemma FirstNote(note: string, lines: seq<string>)
    requires ReadTexts(lines).Some?
    ensures ReadTexts(["    // " + note] + lines) == ReadTexts(lines)
    ensures NoteTexts(["    // " + note] + lines) == [note] + NoteTexts(lines)
  {
    NoteReads(note);
    FirstReads("    // " + note, [], [note], lines);
    assert [] + ReadTexts(lines).value == ReadTexts(lines).value;
  }

  lemma {:induction false} NotesRead(notes: seq<string>, lines: seq<string>)
    requires ReadTexts(lines).Some?
    ensures ReadTexts(NoteLines(notes) + lines) == ReadTexts(lines)
    ensures NoteTexts(NoteLines(notes) + lines) == notes + NoteTexts(lines)
    decreases |notes|
  {
    if notes == [] {
      assert NoteLines(notes) + lines == lines;
      assert notes + NoteTexts(lines) == NoteTexts(lines);
    } else {
      NotesRead(notes[1..], lines);
      FirstNote(notes[0], NoteLines(notes[1..]) + lines);
      Associative(["    // " + notes[0]], NoteLines(notes[1..]), lines);
      Associative([notes[0]], notes[1..], NoteTexts(lines));
      assert notes == [notes[0]] + notes[1..];
    }
  }

  lemma {:induction false} InnerOf(body: string, lines: seq<string>)
    requires Split(body, '\n') == ["{"] + (lines + ["}"])
    ensures InnerLines(body) == Some(lines)
  {
    var all := Split(body, '\n');
    assert all[1..|all| - 1] == lines;
  }

  lemma ClosingBrace()
    ensures Split("}", '\n') == ["}"]
  {
    SplitPlain("}", '\n');
  }

  /** A body of printed lines, comment lines and further printed lines. */
  lemma {:induction false} BodyLines(body: string, front: seq<Token>, notes: seq<string>, back: seq<Token>)
    requires ArePlain(front) && OneLineEach(notes) && ArePlain(back)
    requires body == "{" + ['\n'] + (TokensText(front) + (NotesText(notes) + (TokensText(back) + "}")))
    ensures InnerLines(body) == Some(LinesOf(front) + (NoteLines(notes) + LinesOf(back)))
  {
    var last := TokensText(back) + "}";
    ClosingBrace();
    TextSplits(back, "}");
    NotesSplit(notes, last);
    TextSplits(front, NotesText(notes) + last);
    SplitAtSeparator("{", '\n', TokensText(front) + (NotesText(notes) + last));
    Associative(NoteLines(notes), LinesOf(back), ["}"]);
    Associative(LinesOf(front), NoteLines(notes) + LinesOf(back), ["}"]);
    InnerOf(body, LinesOf(front) + (NoteLines(notes) + LinesOf(back)));
  }

  lemma {:induction false} TokensRead(ts: seq<Token>)
    requires ArePlain(ts)
    ensures ReadTexts(LinesOf(ts)) == Some(MapAll(Readable, ts)) && NoteTexts(LinesOf(ts)) == []
  {
    NothingReads();
    LinesRead(ts, []);
    assert LinesOf(ts) + [] == LinesOf(ts) && MapAll(Readable, ts) + [] == MapAll(Readable, ts);
  }

  lemma NothingReads()
    ensures ReadTexts([]) == Some([]) && NoteTexts([]) == []
  {
  }

  lemma {:induction false} BodyReads(body: string, front: seq<Token>, notes: seq<string>, back: seq<Token>)
    requires ArePlain(front) && OneLineEach(notes) && ArePlain(back)
    requires body == "{" + ['\n'] + (TokensText(front) + (NotesText(notes) + (TokensText(back) + "}")))
    ensures ReadExample(body) == ReadBody(MapAll(Readable, front + back), 1)
    ensures ReadNotes(body) == notes
  {
    BodyLines(body, front, notes, back);
    TokensRead(back);
    NotesRead(notes, LinesOf(back));
    LinesRead(front, NoteLines(notes) + LinesOf(back));
    MapAllAppend(Readable, front, back);
    assert notes + [] == notes;
  }

  // ----- From tokens to what is shown -----

  /** What the tokens of a body show, read with the stack of braces. */
  lemma {:induction false} TokensShow(ts: seq<Token>, base: nat)
    ensures var es := ReadBody(ts, base);
            ReadBody(MapAll(Readable, ts), base) == if es.None? then None else Some(MapAll(ReadableEntry, es.value))
  {
    assert MapAll(ReadableEntry, []) == [];
    ReadableTokens(READER_START, ts, base);
  }

  /** An object around the tokens of a body. */
  function Framed(name: string, ts: seq<Token>): seq<Token> {
    [Open(1, name, None, [])] + (ts + [Close(1)])
  }

  function FrameEntry(name: string): Entry {
    Entry(name, [], true, None, [])
  }

  lemma FrameOpens(name: string)
    ensures ReadToken(READER_START, Open(1, name, None, []), 1)
            == UnderFrame(Frame(name, 1), [FrameEntry(name)], READER_START)
  {
    assert Names([]) == [];
    assert [] + [Frame(name, 1)] == [Frame(name, 1)] + [];
    assert [] + [FrameEntry(name)] == [FrameEntry(name)] + AllInside(name, []);
  }

  lemma {:induction false} FirstTokenReads(r: Reader, t: Token, ts: seq<Token>, base: nat)
    ensures ReadTokens(r, [t] + ts, base) == ReadTokens(ReadToken(r, t, base), ts, base)
  {
    assert ([t] + ts)[1..] == ts;
  }

  lemma FrameCloses(name: string, entries: seq<Entry>)
    ensures ReadToken(Reading([Frame(name, 1)], entries), Close(1), 1) == Reading([], entries)
  {
  }

  /** A balanced body one level deeper is the contents of the object around it. */
  lemma FramedReads(name: string, ts: seq<Token>, es: seq<Entry>)
    requires ReadBody(ts, 2) == Some(es)
    ensures ReadTokens(READER_START, Framed(name, ts), 1) == Reading([], [FrameEntry(name)] + AllInside(name, es))
  {
    var frame, entries := Frame(name, 1), [FrameEntry(name)] + AllInside(name, es);
    FrameOpens(name);
    FirstTokenReads(READER_START, Open(1, name, None, []), ts + [Close(1)], 1);
    ReadAppend(UnderFrame(frame, [FrameEntry(name)], READER_START), ts, [Close(1)], 1);
    UnderFrameTokens(frame, [FrameEntry(name)], READER_START, ts, 1);
    assert [frame] + [] == [frame];
    FirstTokenReads(Reading([frame], entries), Close(1), [], 1);
    FrameCloses(name, entries);
    assert [Close(1)] + [] == [Close(1)];
  }

  // ----- What the printed entries show -----

  lemma {:induction false} PrintedAt(ps: seq<Property>, n: nat, additional: seq<seq<string>>, k: nat)
    requires k < n <= |ps| == |additional|
    ensures PrintedEntries(ps, n, additional)[k] == PrintedEntry(ps[k], additional[k])
  {
    if k < n - 1 {
      PrintedAt(ps, n - 1, additional, k);
    }
  }

  /** The properties, as an example should show them below the given objects. */
  function ShownAll(ps: seq<Property>, marked: seq<bool>, below: seq<string>): (shown: seq<Shown>)
    requires |marked| == |ps|
    ensures |shown| == |ps| && forall k | 0 <= k < |ps| :: shown[k] == ShownProperty(ps[k], marked[k], below)
  {
    seq(|ps|, k requires 0 <= k < |ps| => ShownProperty(ps[k], marked[k], below))
  }

  predicate AllUnmistakable(ps: seq<Property>, marked: seq<bool>)
    requires |marked| == |ps|
  {
    forall k | 0 <= k < |ps| :: IsUnmistakable(ps[k], marked[k])
  }

  function ShownByAll(es: seq<Entry>): (shown: seq<Shown>)
    ensures |shown| == |es| && forall k | 0 <= k < |es| :: shown[k] == ShownBy(ReadableEntry(es[k]))
  {
    MapAll(ShownBy, MapAll(ReadableEntry, es))
  }

  lemma EntriesShow(ps: seq<Property>, es: seq<Entry>, marked: seq<bool>, below: seq<string>)
    requires |es| == |ps| == |marked|
    requires forall k | 0 <= k < |ps| ::
               es[k] == PrintedEntry(ps[k], Marks(marked[k])).(path := below + ps[k].path)
    ensures ShownByAll(es) == ShownAll(ps, marked, below) <==> AllUnmistakable(ps, marked)
  {
    var read, shown := ShownByAll(es), ShownAll(ps, marked, below);
    forall k | 0 <= k < |ps| ensures read[k] == shown[k] <==> IsUnmistakable(ps[k], marked[k]) {
      EntryShows(ps[k], marked[k], below);
    }
    if AllUnmistakable(ps, marked) {
      assert forall k | 0 <= k < |ps| :: read[k] == shown[k];
    }
  }

  lemma {:induction false} PrintedShow(ps: seq<Property>, additional: seq<seq<string>>, marked: seq<bool>)
    requires |ps| == |additional| && AreMarks(marked, additional)
    ensures ShownByAll(PrintedEntries(ps, |ps|, additional)) == ShownAll(ps, marked, [])
            <==> AllUnmistakable(ps, marked)
  {
    var es := PrintedEntries(ps, |ps|, additional);
    forall k | 0 <= k < |ps| ensures es[k] == PrintedEntry(ps[k], Marks(marked[k])).(path := [] + ps[k].path) {
      PrintedAt(ps, |ps|, additional, k);
      assert [] + ps[k].path == ps[k].path;
    }
    EntriesShow(ps, es, marked, []);
  }

  lemma {:induction false} FramedShow(ps: seq<Property>, additional: seq<seq<string>>, marked: seq<bool>, name: string)
    requires |ps| == |additional| && AreMarks(marked, additional)
    ensures ShownByAll(AllInside(name, PrintedEntries(ps, |ps|, additional))) == ShownAll(ps, marked, [name])
            <==> AllUnmistakable(ps, marked)
  {
    var es := AllInside(name, PrintedEntries(ps, |ps|, additional));
    forall k | 0 <= k < |ps| ensures es[k] == PrintedEntry(ps[k], Marks(marked[k])).(path := [name] + ps[k].path) {
      PrintedAt(ps, |ps|, additional, k);
    }
    EntriesShow(ps, es, marked, [name]);
  }

  lemma ShownByAppend(left: seq<Entry>, right: seq<Entry>)
    ensures ShownByAll(left + right) == ShownByAll(left) + ShownByAll(right)
  {
    MapAllAppend(ReadableEntry, left, right);
    MapAllAppend(ShownBy, MapAll(ReadableEntry, left), MapAll(ReadableEntry, right));
  }

  lemma {:induction false} ShownExample(body: string, front: seq<Token>, notes: seq<string>, back: seq<Token>,
                                        es: seq<Entry>)
    requires ArePlain(front) && OneLineEach(notes) && ArePlain(back)
    requires body == "{" + ['\n'] + (TokensText(front) + (NotesText(notes) + (TokensText(back) + "}")))
    requires ReadBody(front + back, 1) == Some(es)
    ensures ReadShown(body) == Some(ShownByAll(es)) && ReadNotes(body) == notes
  {
    BodyReads(body, front, notes, back);
    TokensShow(front + back, 1);
  }

  // ----- The frame of an example -----

  /** Where the request's fields go: the query for a `GET` unless an option says otherwise. */
  predicate GoesInQuery(options: Options) {
    options.forceAsQuery || (options.httpMethod == GET && !options.forceAsBody && !options.forceAsParam)
  }

  function ShownFrame(name: string): Shown {
    Shown(name, [], true, None, false, false, None)
  }

  function ShownField(name: string, path: seq<string>, value: Option<string>): Shown {
    Shown(name, path, false, value, false, false, None)
  }

  lemma FrameShows(name: string)
    ensures ShownByAll([FrameEntry(name)]) == [ShownFrame(name)]
  {
    assert ShownByAll([FrameEntry(name)])[0] == ShownFrame(name);
  }

  // ----- The client example -----

  /** What the client example shows: its properties, in a query object or at the top. */
  function ClientShows(vs: seq<Property>, options: Options): seq<Shown> {
    if GoesInQuery(options) then [ShownFrame("query")] + ShownAll(vs, Unmarked(|vs|), ["query"])
    else ShownAll(vs, Unmarked(|vs|), [])
  }

  function Unmarked(n: nat): (marked: seq<bool>)
    ensures |marked| == n && forall k | 0 <= k < n :: !marked[k]
  {
    seq(n, _ => false)
  }

  lemma NoneMarked(n: nat)
    ensures AreMarks(Unmarked(n), NoComments(n))
  {
    forall k | 0 <= k < n ensures NoComments(n)[k] == Marks(Unmarked(n)[k]) {
      assert NoComments(n)[k] in NoComments(n);
    }
  }

  lemma QueryExact(options: Options)
    ensures UsesQuery(options) <==> GoesInQuery(options)
  {
  }

  lemma OpenFrameText(name: string)
    ensures TokenText(Open(1, name, None, [])) == "    " + name + ": {\n" && TokenText(Close(1)) == "    },\n"
  {
    assert Repeat(INDENTATION, 1) == "    " by {
      assert Repeat(INDENTATION, 0) == "";
      assert INDENTATION + "" == INDENTATION;
    }
  }

  lemma FramedText(name: string, ts: seq<Token>)
    ensures TokensText(Framed(name, ts)) == "    " + name + ": {\n" + (TokensText(ts) + "    },\n")
  {
    ConcatAppend(TokenText, [Open(1, name, None, [])], ts + [Close(1)]);
    ConcatAppend(TokenText, ts, [Close(1)]);
    ConcatOne(TokenText, Open(1, name, None, []));
    ConcatOne(TokenText, Close(1));
    OpenFrameText(name);
  }

  lemma FramedPlain(name: string, ts: seq<Token>)
    requires ArePlain(ts) && IsPlainName(name)
    ensures ArePlain(Framed(name, ts))
  {
  }

  lemma NoBack(front: seq<Token>)
    ensures front + [] == front && TokensText([]) == "" && NotesText([]) == ""
  {
  }

  lemma QueryText(text: string)
    ensures "{\n    query: " + ("{\n" + text + "    },\n}")
            == "{" + ['\n'] + ("    " + "query" + ": {\n" + (text + "    },\n") + "}")
  {
  }

  lemma QueryIsPlain()
    ensures IsPlainName("query") && IsPlainName("params") && IsPlainName("body")
  {
  }

  /** The printed properties inside a frame are plain, and read as entries of the frame. */
  lemma {:induction false} FrameHolds(vs: seq<Property>, additional: seq<seq<string>>, marked: seq<bool>, name: string)
    requires |vs| == |additional| && AreMarks(marked, additional)
    requires IsPreorder(vs) && ArePrintable(vs) && IsPlainName(name)
    ensures var framed := Framed(name, Emit(vs, |vs|, 2, additional));
            && ArePlain(framed)
            && ReadTokens(READER_START, framed, 1)
               == Reading([], [FrameEntry(name)] + AllInside(name, PrintedEntries(vs, |vs|, additional)))
  {
    EmitPlain(vs, |vs|, 2, additional, marked);
    ReadBack(vs, 2, additional);
    FramedReads(name, Emit(vs, |vs|, 2, additional), PrintedEntries(vs, |vs|, additional));
    FramedPlain(name, Emit(vs, |vs|, 2, additional));
  }

  /** What the entries of a frame show. */
  lemma {:induction false} FrameShowsAll(vs: seq<Property>, additional: seq<seq<string>>, marked: seq<bool>,
                                         name: string)
    requires |vs| == |additional| && AreMarks(marked, additional)
    ensures ShownByAll([FrameEntry(name)] + AllInside(name, PrintedEntries(vs, |vs|, additional)))
            == [ShownFrame(name)] + ShownAll(vs, marked, [name])
            <==> AllUnmistakable(vs, marked)
  {
    var inside := AllInside(name, PrintedEntries(vs, |vs|, additional));
    ShownByAppend([FrameEntry(name)], inside);
    FrameShows(name);
    FramedShow(vs, additional, marked, name);
    FirstThenSame(ShownFrame(name), ShownByAll(inside), ShownAll(vs, marked, [name]));
  }

  lemma QueryBody(ts: seq<Token>, body: string, es: seq<Entry>)
    requires ArePlain(Framed("query", ts)) && ReadBody(Framed("query", ts), 1) == Some(es)
    requires body == "{\n    query: " + ("{\n" + TokensText(ts) + "    },\n}")
    ensures ReadShown(body) == Some(ShownByAll(es)) && ReadNotes(body) == []
  {
    FramedText("query", ts);
    NoBack(Framed("query", ts));
    QueryText(TokensText(ts));
    var text := TokensText(Framed("query", ts));
    assert text + ("" + ("" + "}")) == text + "}";
    ShownExample(body, Framed("query", ts), [], [], es);
  }

  lemma TopBody(ts: seq<Token>, body: string, es: seq<Entry>)
    requires ArePlain(ts) && ReadBody(ts, 1) == Some(es)
    requires body == "{\n" + TokensText(ts) + "}"
    ensures ReadShown(body) == Some(ShownByAll(es)) && ReadNotes(body) == []
  {
    NoBack(ts);
    assert body == "{" + ['\n'] + (TokensText(ts) + ("" + ("" + "}")));
    ShownExample(body, ts, [], [], es);
  }

  /** The client example of properties that go into a query object. */
  lemma {:induction false} QueryShown(vs: seq<Property>, body: string)
    requires IsPreorder(vs) && ArePrintable(vs)
    requires body == "{\n    query: " + ("{\n" + TokensText(Emit(vs, |vs|, 2, NoComments(|vs|))) + "    },\n}")
    ensures ReadNotes(body) == [] && ReadShown(body).Some?
    ensures ReadShown(body).value == [ShownFrame("query")] + ShownAll(vs, Unmarked(|vs|), ["query"])
            <==> AllUnmistakable(vs, Unmarked(|vs|))
  {
    NoneMarked(|vs|);
    QueryIsPlain();
    FrameHolds(vs, NoComments(|vs|), Unmarked(|vs|), "query");
    FrameShowsAll(vs, NoComments(|vs|), Unmarked(|vs|), "query");
    QueryBody(Emit(vs, |vs|, 2, NoComments(|vs|)), body,
              [FrameEntry("query")] + AllInside("query", PrintedEntries(vs, |vs|, NoComments(|vs|))));
  }

  lemma FirstThenSame(first: Shown, left: seq<Shown>, right: seq<Shown>)
    ensures [first] + left == [first] + right <==> left == right
  {
    assert ([first] + left)[1..] == left && ([first] + right)[1..] == right;
  }

  /** The client example of properties at the top. */
  lemma {:induction false} TopShown(vs: seq<Property>, body: string)
    requires IsPreorder(vs) && ArePrintable(vs)
    requires body == "{\n" + TokensText(Emit(vs, |vs|, 1, NoComments(|vs|))) + "}"
    ensures ReadNotes(body) == [] && ReadShown(body).Some?
    ensures ReadShown(body).value == ShownAll(vs, Unmarked(|vs|), []) <==> AllUnmistakable(vs, Unmarked(|vs|))
  {
    NoneMarked(|vs|);
    EmitPlain(vs, |vs|, 1, NoComments(|vs|), Unmarked(|vs|));
    ReadBack(vs, 1, NoComments(|vs|));
    TopBody(Emit(vs, |vs|, 1, NoComments(|vs|)), body, PrintedEntries(vs, |vs|, NoComments(|vs|)));
    PrintedShow(vs, NoComments(|vs|), Unmarked(|vs|));
  }

  /**
   The text of the client example shows exactly the client's properties, each with its own name, path,
   value, description and required mark, in a query object exactly when they go there, if and only if
   no description begins with a word that the printer writes.
   */
  lemma {:induction false} ClientShown(ps: seq<Property>, options: Options)
    requires IsPreorder(Visible(ps, Client)) && ArePrintable(Visible(ps, Client))
    ensures var vs, body := Visible(ps, Client), ClientBody(ps, options);
            if vs == [] then body == ""
            else
              && ReadNotes(body) == []
              && (ReadShown(body) == Some(ClientShows(vs, options)) <==> AllUnmistakable(vs, Unmarked(|vs|)))
  {
    var vs, body := Visible(ps, Client), ClientBody(ps, options);
    QueryExact(options);
    if vs != [] {
      if UsesQuery(options) {
        QueryShown(vs, body);
      } else {
        TopShown(vs, body);
      }
    }
  }

  const LIMITED := Property("limit", true, "number", None, Some("required"), false, false, false, [])

  /** An optional property whose description is the word itself is shown as a required one. */
  lemma RequiredIsMistaken(options: Options)
    ensures ReadShown(ClientBody([LIMITED], options)) != Some(ClientShows([LIMITED], options))
  {
    assert Visible([LIMITED], Client) == [LIMITED];
    assert IsPrintable(LIMITED) && '\n' !in "required";
    assert Leads("required", "required") && !IsUnmistakable(LIMITED, false);
    ClientShown([LIMITED], options);
    assert !AllUnmistakable([LIMITED], Unmarked(1));
  }

  // ----- The headers of the server example -----

  predicate NeedsSession(options: Options) {
    options.requireSession || options.requireHeaders
  }

  function SessionNotes(options: Options): seq<string> {
    if options.requireSession then [SESSION_NOTE]
    else if !options.requireHeaders then []
    else if options.headersComment.Some? then [options.headersComment.value]
    else [HEADERS_NOTE]
  }

  function BearerNotes(options: Options): seq<string> {
    if options.requireBearerToken then [BEARER_NOTE] else []
  }

  /** The comment lines before the headers. */
  function HeaderNotes(options: Options): seq<string> {
    SessionNotes(options) + BearerNotes(options)
  }

  /** The headers that an example shows: the request's own, a bearer token, or both in one object. */
  function HeadersShown(options: Options): seq<Shown> {
    if NeedsSession(options) && options.requireBearerToken then
      [ShownFrame("headers"), ShownField("...(await headers())", ["headers"], None),
       ShownField("authorization", ["headers"], Some("'Bearer <token>'"))]
    else if NeedsSession(options) then [ShownField("headers", [], Some("await headers()"))]
    else if options.requireBearerToken then [ShownField("headers", [], Some("{ authorization: 'Bearer <token>' }"))]
    else []
  }

  const OWN_HEADERS := Field(2, "...(await headers())", None, [])
  const BEARER := Field(2, "authorization", Some("'Bearer <token>'"), [])
  const ONLY_OWN := Field(1, "headers", Some("await headers()"), [])
  const ONLY_BEARER := Field(1, "headers", Some("{ authorization: 'Bearer <token>' }"), [])

  function HeaderTokens(options: Options): seq<Token> {
    if NeedsSession(options) && options.requireBearerToken then Framed("headers", [OWN_HEADERS, BEARER])
    else if NeedsSession(options) then [ONLY_OWN]
    else if options.requireBearerToken then [ONLY_BEARER]
    else []
  }

  lemma PlainWithoutSlash(value: string)
    requires '/' !in value && '\n' !in value
    ensures IsPlainValue(value)
  {
    var spaced := " " + value;
    forall i | 0 <= i < |spaced| ensures !OccursAt(spaced, " // ", i) {
      SlashesAt(spaced, i);
      assert i + 1 < |spaced| ==> spaced[i + 1] == value[i];
    }
  }

  lemma HeaderNamesPlain()
    ensures IsPlainName("headers") && IsPlainName("authorization") && IsPlainName("...(await headers())")
  {
  }

  lemma PlainField(indent: nat, name: string, example: Option<string>)
    requires IsPlainName(name) && (example.Some? ==> IsPlainValue(example.value))
    ensures IsPlain(Field(indent, name, example, []))
  {
  }

  lemma HeaderValuesPlain()
    ensures IsPlainValue("'Bearer <token>'") && IsPlainValue("await headers()")
  {
    PlainWithoutSlash("'Bearer <token>'");
    PlainWithoutSlash("await headers()");
  }

  lemma BearerValuePlain()
    ensures IsPlainValue("{ authorization: 'Bearer <token>' }")
  {
    PlainWithoutSlash("{ authorization: 'Bearer <token>' }");
  }

  lemma HeaderTokensPlain(options: Options)
    ensures ArePlain(HeaderTokens(options))
  {
    HeaderNamesPlain();
    HeaderValuesPlain();
    BearerValuePlain();
    PlainField(2, "...(await headers())", None);
    PlainField(2, "authorization", Some("'Bearer <token>'"));
    PlainField(1, "headers", Some("await headers()"));
    PlainField(1, "headers", Some("{ authorization: 'Bearer <token>' }"));
    FramedPlain("headers", [OWN_HEADERS, BEARER]);
  }

  function HeaderEntries(options: Options): seq<Entry> {
    if NeedsSession(options) && options.requireBearerToken then
      [FrameEntry("headers")]
      + AllInside("headers", [Entry("...(await headers())", [], false, None, []),
                              Entry("authorization", [], false, Some("'Bearer <token>'"), [])])
    else if NeedsSession(options) then [Entry("headers", [], false, Some("await headers()"), [])]
    else if options.requireBearerToken then
      [Entry("headers", [], false, Some("{ authorization: 'Bearer <token>' }"), [])]
    else []
  }

  lemma FieldReads(entries: seq<Entry>, indent: nat, name: string, example: Option<string>)
    ensures ReadToken(Reading([], entries), Field(indent, name, example, []), indent)
            == Reading([], entries + [Entry(name, [], false, example, [])])
  {
    assert Names([]) == [];
  }

  lemma BothHeadersRead()
    ensures ReadBody([OWN_HEADERS, BEARER], 2)
            == Some([Entry("...(await headers())", [], false, None, []),
                     Entry("authorization", [], false, Some("'Bearer <token>'"), [])])
  {
    var first := Entry("...(await headers())", [], false, None, []);
    var second := Entry("authorization", [], false, Some("'Bearer <token>'"), []);
    FieldReads([], 2, "...(await headers())", None);
    FieldReads([first], 2, "authorization", Some("'Bearer <token>'"));
    FirstTokenReads(READER_START, OWN_HEADERS, [BEARER], 2);
    FirstTokenReads(Reading([], [first]), BEARER, [], 2);
    assert [OWN_HEADERS] + [BEARER] == [OWN_HEADERS, BEARER] && [BEARER] + [] == [BEARER];
    assert [] + [first] == [first] && [first] + [second] == [first, second];
  }

  lemma OneHeaderReads(value: string)
    ensures ReadTokens(READER_START, [Field(1, "headers", Some(value), [])], 1)
            == Reading([], [Entry("headers", [], false, Some(value), [])])
  {
    FieldReads([], 1, "headers", Some(value));
    FirstTokenReads(READER_START, Field(1, "headers", Some(value), []), [], 1);
    assert [Field(1, "headers", Some(value), [])] + [] == [Field(1, "headers", Some(value), [])];
  }

  lemma HeadersRead(options: Options)
    ensures ReadTokens(READER_START, HeaderTokens(options), 1) == Reading([], HeaderEntries(options))
  {
    if NeedsSession(options) && options.requireBearerToken {
      BothHeadersRead();
      FramedReads("headers", [OWN_HEADERS, BEARER],
                  [Entry("...(await headers())", [], false, None, []),
                   Entry("authorization", [], false, Some("'Bearer <token>'"), [])]);
    } else {
      OneHeaderReads("await headers()");
      OneHeaderReads("{ authorization: 'Bearer <token>' }");
    }
  }

  lemma BareEntryShows(e: Entry)
    requires e.comments == [] && e.example != Some("")
    ensures ShownBy(ReadableEntry(e)) == Shown(e.name, e.path, e.isObject, e.example, false, false, None)
  {
  }

  lemma BareEntriesShow(es: seq<Entry>, shown: seq<Shown>)
    requires |es| == |shown|
    requires forall k | 0 <= k < |es| ::
               es[k].comments == [] && es[k].example != Some("")
               && shown[k] == Shown(es[k].name, es[k].path, es[k].isObject, es[k].example, false, false, None)
    ensures ShownByAll(es) == shown
  {
    forall k | 0 <= k < |es| ensures ShownByAll(es)[k] == shown[k] {
      BareEntryShows(es[k]);
    }
  }

  lemma HeaderEntriesShow(options: Options)
    ensures ShownByAll(HeaderEntries(options)) == HeadersShown(options)
  {
    BareEntriesShow(HeaderEntries(options), HeadersShown(options));
  }

  lemma ReadTokenAfter(before: seq<Entry>, r: Reader, t: Token, base: nat)
    requires r.Reading?
    ensures var r' := ReadToken(r, t, base);
            ReadToken(Reading(r.open, before + r.entries), t, base)
            == if r'.Stuck? then Stuck else Reading(r'.open, before + r'.entries)
  {
  }

  /** What was read before stays in front. */
  lemma {:induction false} ReadTokensAfter(before: seq<Entry>, r: Reader, ts: seq<Token>, base: nat)
    requires r.Reading?
    ensures var r' := ReadTokens(r, ts, base);
            ReadTokens(Reading(r.open, before + r.entries), ts, base)
            == if r'.Stuck? then Stuck else Reading(r'.open, before + r'.entries)
    decreases |ts|
  {
    if ts != [] {
      ReadTokenAfter(before, r, ts[0], base);
      if ReadToken(r, ts[0], base).Stuck? {
        StuckStays(ts[1..], base);
      } else {
        ReadTokensAfter(before, ReadToken(r, ts[0], base), ts[1..], base);
      }
    }
  }

  /** The headers follow whatever was read in full before them. */
  lemma {:induction false} HeadersFollow(front: seq<Token>, es: seq<Entry>, options: Options)
    requires ReadTokens(READER_START, front, 1) == Reading([], es)
    ensures ReadBody(front + HeaderTokens(options), 1) == Some(es + HeaderEntries(options))
  {
    ReadAppend(READER_START, front, HeaderTokens(options), 1);
    ReadTokensAfter(es, READER_START, HeaderTokens(options), 1);
    HeadersRead(options);
    assert es + [] == es;
  }

  // ----- The text of the headers -----

  /** The same lines, each after a line end instead of before one. */
  function LeadNotes(notes: seq<string>): string {
    if notes == [] then "" else "\n    // " + notes[0] + LeadNotes(notes[1..])
  }

  lemma {:induction false} NotesShift(notes: seq<string>)
    ensures LeadNotes(notes) + "\n" == "\n" + NotesText(notes)
  {
    if notes != [] {
      NotesShift(notes[1..]);
      assert LeadNotes(notes) + "\n" == "\n    // " + notes[0] + (LeadNotes(notes[1..]) + "\n");
    }
  }

  lemma {:induction false} NotesAppend(left: seq<string>, right: seq<string>)
    ensures LeadNotes(left + right) == LeadNotes(left) + LeadNotes(right)
  {
    if left == [] {
      assert left + right == right;
    } else {
      assert (left + right)[1..] == left[1..] + right;
      NotesAppend(left[1..], right);
    }
  }

  lemma OneNote(note: string, text: string)
    requires text == "\n    // " + note
    ensures LeadNotes([note]) == text
  {
    assert [note][1..] == [] && LeadNotes([]) == "";
  }

  lemma SessionLeads(options: Options, text: string)
    requires text == SessionText(options)
    ensures text == LeadNotes(SessionNotes(options))
  {
    if options.requireSession || options.requireHeaders {
      OneNote(SessionNotes(options)[0], text);
    }
  }

  lemma BearerLeads(options: Options, text: string)
    requires text == BearerText(options)
    ensures text == LeadNotes(BearerNotes(options))
  {
    if options.requireBearerToken {
      OneNote(BEARER_NOTE, text);
    }
  }

  lemma TwoLevels()
    ensures Repeat(INDENTATION, 1) == "    " && Repeat(INDENTATION, 2) == "        "
  {
    assert Repeat(INDENTATION, 0) == "";
    assert INDENTATION + "" == INDENTATION;
  }

  lemma {:induction false} ValueText(t: Token, indent: nat, name: string, value: string)
    requires t == Field(indent, name, Some(value), []) && value != ""
    ensures TokenText(t) == Repeat(INDENTATION, indent) + name + ": " + value + ",\n"
  {
  }

  lemma {:induction false} BareText(t: Token, indent: nat, name: string)
    requires t == Field(indent, name, None, [])
    ensures TokenText(t) == Repeat(INDENTATION, indent) + name + ",\n"
  {
  }

  lemma TwoTexts(first: Token, second: Token)
    ensures TokensText([first, second]) == TokenText(first) + TokenText(second)
  {
    ConcatAppend(TokenText, [first], [second]);
    ConcatOne(TokenText, first);
    ConcatOne(TokenText, second);
    assert [first] + [second] == [first, second];
  }

  lemma OwnHeadersText(indentation: string, text: string)
    requires indentation == "        " && text == "\n        ...(await headers()),"
    ensures text + "\n" == "\n" + (indentation + "...(await headers())" + ",\n")
  {
  }

  lemma AuthorizationText(indentation: string, text: string)
    requires indentation == "        " && text == "\n        authorization: 'Bearer <token>',"
    ensures text + "\n" == "\n" + (indentation + "authorization" + ": " + "'Bearer <token>'" + ",\n")
  {
  }

  lemma HeadersFrameText(opening: string, closing: string)
    requires opening == "\n    headers: {" && closing == "\n    },"
    ensures opening + "\n" == "\n" + ("    " + "headers" + ": {\n") && closing + "\n" == "\n" + "    },\n"
  {
  }

  /** Line ends move from before four lines to after them. */
  lemma FourShift(a: string, b: string, c: string, d: string, a': string, b': string, c': string, d': string)
    requires a + "\n" == "\n" + a' && b + "\n" == "\n" + b' && c + "\n" == "\n" + c' && d + "\n" == "\n" + d'
    ensures (a + (b + (c + d))) + "\n" == "\n" + (a' + ((b' + c') + d'))
  {
    ShiftBoth(c, c', d, d');
    ShiftBoth(b, b', c + d, c' + d');
    ShiftBoth(a, a', b + (c + d), b' + (c' + d'));
    Associative(b', c', d');
  }

  lemma BothHeadersText(first: Token, second: Token)
    requires first == OWN_HEADERS && second == BEARER
    ensures ("\n    headers: {" + ("\n        ...(await headers())," + ("\n        authorization: 'Bearer <token>',"
            + "\n    },"))) + "\n"
            == "\n" + TokensText(Framed("headers", [first, second]))
  {
    TwoLevels();
    FramedText("headers", [first, second]);
    TwoTexts(first, second);
    BareText(first, 2, "...(await headers())");
    ValueText(second, 2, "authorization", "'Bearer <token>'");
    OwnHeadersText("        ", "\n        ...(await headers()),");
    AuthorizationText("        ", "\n        authorization: 'Bearer <token>',");
    HeadersFrameText("\n    headers: {", "\n    },");
    FourShift("\n    headers: {", "\n        ...(await headers()),", "\n        authorization: 'Bearer <token>',",
              "\n    },", "    " + "headers" + ": {\n", TokenText(first), TokenText(second), "    },\n");
  }

  lemma OneHeaderText(t: Token, value: string, indentation: string)
    requires t == Field(1, "headers", Some(value), []) && value != "" && indentation == Repeat(INDENTATION, 1)
    ensures TokensText([t]) == indentation + "headers" + ": " + value + ",\n"
  {
    ConcatOne(TokenText, t);
    ValueText(t, 1, "headers", value);
  }

  lemma ValueShifts(value: string, indentation: string, opening: string)
    requires indentation == "    " && opening == "\n    headers: "
    ensures (opening + (value + ",")) + "\n" == "\n" + (indentation + "headers" + ": " + value + ",\n")
  {
    assert opening == "\n" + (indentation + "headers" + ": ");
    assert "," + "\n" == ",\n";
  }

  lemma FieldShifts(options: Options)
    ensures HeadersField(options) + "\n" == "\n" + TokensText(HeaderTokens(options))
  {
    TwoLevels();
    if NeedsSession(options) && options.requireBearerToken {
      BothHeadersText(OWN_HEADERS, BEARER);
    } else if NeedsSession(options) {
      OneHeaderText(ONLY_OWN, "await headers()", "    ");
      ValueShifts("await headers()", "    ", "\n    headers: ");
    } else if options.requireBearerToken {
      OneHeaderText(ONLY_BEARER, "{ authorization: 'Bearer <token>' }", "    ");
      ValueShifts("{ authorization: 'Bearer <token>' }", "    ", "\n    headers: ");
    }
  }

  /** The text of the headers, moved by one line end. */
  lemma HeadersShift(options: Options)
    ensures HeadersText(options) + "\n"
            == "\n" + (NotesText(HeaderNotes(options)) + TokensText(HeaderTokens(options)))
  {
    var notes, tokens := HeaderNotes(options), TokensText(HeaderTokens(options));
    SessionLeads(options, SessionText(options));
    BearerLeads(options, BearerText(options));
    NotesAppend(SessionNotes(options), BearerNotes(options));
    FieldShifts(options);
    NotesShift(notes);
    ShiftBoth(LeadNotes(notes), NotesText(notes), HeadersField(options), tokens);
  }

  lemma ShiftBoth(lead: string, notes: string, field: string, tokens: string)
    requires lead + "\n" == "\n" + notes && field + "\n" == "\n" + tokens
    ensures (lead + field) + "\n" == "\n" + (notes + tokens)
  {
    Associative(lead, field, "\n");
    Associative(lead, "\n", tokens);
    Associative("\n", notes, tokens);
  }

  // ----- The server example -----

  function FrameName(options: Options): string {
    if GoesInQuery(options) then "query" else if options.forceAsParam then "params" else "body"
  }

  lemma FrameNameExact(options: Options)
    ensures ServerParameter(options) == FrameName(options) && IsPlainName(FrameName(options))
  {
    QueryIsPlain();
  }

  /** The properties that the server example marks: server-only ones at the top level. */
  function Marked(vs: seq<Property>): (marked: seq<bool>)
    ensures |marked| == |vs| && forall k | 0 <= k < |vs| :: marked[k] == (vs[k].serverOnly && vs[k].path == [])
  {
    seq(|vs|, k requires 0 <= k < |vs| => vs[k].serverOnly && vs[k].path == [])
  }

  lemma ServerMarks(ps: seq<Property>, vs: seq<Property>)
    requires IsPreorder(ps) && forall v | v in vs :: v in ps
    ensures AreMarks(Marked(vs), ServerComments(ps, vs))
  {
    forall k | 0 <= k < |vs| ensures ServerComments(ps, vs)[k] == Marks(Marked(vs)[k]) {
      assert vs[k] in vs;
      NestedIsNotMarked(ps, vs[k]);
    }
  }

  /** What the server example shows: its properties in one object, and the headers after it. */
  function ServerShows(vs: seq<Property>, options: Options): seq<Shown> {
    (if vs == [] then [] else [ShownFrame(FrameName(options))] + ShownAll(vs, Marked(vs), [FrameName(options)]))
    + HeadersShown(options)
  }

  predicate HeadersPrintable(options: Options) {
    options.headersComment.Some? ==> '\n' !in options.headersComment.value
  }

  lemma ShortNotesPrintable()
    ensures '\n' !in SESSION_NOTE && '\n' !in BEARER_NOTE
  {
  }

  lemma LongNotePrintable()
    ensures '\n' !in HEADERS_NOTE
  {
    LongNoteStart();
    LongNoteEnd();
  }

  lemma LongNoteStart()
    ensures '\n' !in "Pass the current request headers "
  {
  }

  lemma LongNoteEnd()
    ensures '\n' !in "so Better Auth can read and set cookies."
  {
  }

  lemma HeaderNotesPrintable(options: Options)
    requires HeadersPrintable(options)
    ensures OneLineEach(HeaderNotes(options))
  {
    ShortNotesPrintable();
    LongNotePrintable();
    assert forall note | note in SessionNotes(options) :: '\n' !in note;
  }

  lemma MovedLineEnd(before: string, headers: string, moved: string)
    requires headers + "\n" == "\n" + moved
    ensures before + headers + "\n}" == before + "\n" + (moved + "}")
  {
    assert "\n}" == "\n" + "}";
    Associative(before, headers + "\n", "}");
    Associative(before, "\n", moved + "}");
    Associative("\n", moved, "}");
    assert before + headers + "\n}" == before + ((headers + "\n") + "}");
  }

  lemma ServerFrameText(name: string, text: string)
    ensures "{\n    " + name + ": " + ("{\n" + text + "    },") + "\n"
            == "{" + ['\n'] + ("    " + name + ": {\n" + (text + "    },\n"))
  {
    assert "    }," + "\n" == "    },\n" && ": " + "{\n" == ": {\n" && "{\n    " == "{" + ['\n'] + "    ";
  }

  lemma ServerText(name: string, ts: seq<Token>, options: Options, body: string)
    requires body == "{\n    " + name + ": " + ("{\n" + TokensText(ts) + "    },") + HeadersText(options) + "\n}"
    ensures body == "{" + ['\n'] + (TokensText(Framed(name, ts))
                    + (NotesText(HeaderNotes(options)) + (TokensText(HeaderTokens(options)) + "}")))
  {
    var before := "{\n    " + name + ": " + ("{\n" + TokensText(ts) + "    },");
    var notes, tokens := NotesText(HeaderNotes(options)), TokensText(HeaderTokens(options));
    HeadersShift(options);
    MovedLineEnd(before, HeadersText(options), notes + tokens);
    ServerFrameText(name, TokensText(ts));
    FramedText(name, ts);
    Associative(notes, tokens, "}");
    Associative("{" + ['\n'], TokensText(Framed(name, ts)), (notes + tokens) + "}");
  }

  lemma HeadersOnlyText(options: Options, body: string)
    requires body == "{" + HeadersText(options) + "\n}"
    ensures body == "{" + ['\n'] + (TokensText([])
                    + (NotesText(HeaderNotes(options)) + (TokensText(HeaderTokens(options)) + "}")))
  {
    var notes, tokens := NotesText(HeaderNotes(options)), TokensText(HeaderTokens(options));
    HeadersShift(options);
    MovedLineEnd("{", HeadersText(options), notes + tokens);
    Associative(notes, tokens, "}");
    NoBack([]);
  }

  lemma HeadersEmpty(options: Options)
    ensures HeadersText(options) == "" <==> !NeedsSession(options) && !options.requireBearerToken
  {
    assert "" + "" == "";
  }

  /** The server example of some properties. */
  lemma {:induction false} PropertiesShown(vs: seq<Property>, additional: seq<seq<string>>, options: Options,
                                           body: string)
    requires |additional| == |vs| && AreMarks(Marked(vs), additional) && vs != []
    requires IsPreorder(vs) && ArePrintable(vs) && HeadersPrintable(options)
    requires body == "{\n    " + FrameName(options) + ": "
                     + ("{\n" + TokensText(Emit(vs, |vs|, 2, additional)) + "    },") + HeadersText(options) + "\n}"
    ensures ReadNotes(body) == HeaderNotes(options)
    ensures ReadShown(body) == Some(ServerShows(vs, options)) <==> AllUnmistakable(vs, Marked(vs))
  {
    var name, ts := FrameName(options), Emit(vs, |vs|, 2, additional);
    var es := [FrameEntry(name)] + AllInside(name, PrintedEntries(vs, |vs|, additional));
    FrameNameExact(options);
    FrameHolds(vs, additional, Marked(vs), name);
    FrameShowsAll(vs, additional, Marked(vs), name);
    HeadersFollow(Framed(name, ts), es, options);
    HeaderTokensPlain(options);
    HeaderNotesPrintable(options);
    ServerText(name, ts, options, body);
    ShownExample(body, Framed(name, ts), HeaderNotes(options), HeaderTokens(options), es + HeaderEntries(options));
    ShownByAppend(es, HeaderEntries(options));
    HeaderEntriesShow(options);
    SameBefore(ShownByAll(es), [ShownFrame(name)] + ShownAll(vs, Marked(vs), [name]), HeadersShown(options));
  }

  lemma SameBefore(left: seq<Shown>, right: seq<Shown>, back: seq<Shown>)
    ensures left + back == right + back <==> left == right
  {
    if left + back == right + back {
      assert |left| == |right|;
      assert (left + back)[..|left|] == left && (right + back)[..|right|] == right;
    }
  }

  /** The server example without properties. */
  lemma HeadersAlone(options: Options, body: string)
    requires HeadersPrintable(options) && body == "{" + HeadersText(options) + "\n}"
    ensures ReadNotes(body) == HeaderNotes(options) && ReadShown(body) == Some(HeadersShown(options))
  {
    HeadersFollow([], [], options);
    HeaderTokensPlain(options);
    HeaderNotesPrintable(options);
    HeadersOnlyText(options, body);
    assert [] + HeaderEntries(options) == HeaderEntries(options);
    ShownExample(body, [], HeaderNotes(options), HeaderTokens(options), HeaderEntries(options));
    HeaderEntriesShow(options);
  }

  /**
   The text of the server example shows exactly the server's properties, each with its own name, path,
   value, description, required and server-only marks, in an object named for where they go, and the
   headers that the endpoint needs, if and only if no description begins with a word that the printer
   writes.
   */
  lemma {:induction false} ServerShown(ps: seq<Property>, options: Options)
    requires IsPreorder(ps) && IsPreorder(Visible(ps, Server)) && ArePrintable(Visible(ps, Server))
    requires HeadersPrintable(options)
    ensures var vs, body := Visible(ps, Server), ServerBody(ps, options);
            if vs == [] && !NeedsSession(options) && !options.requireBearerToken then body == ""
            else
              && ReadNotes(body) == HeaderNotes(options)
              && (ReadShown(body) == Some(ServerShows(vs, options)) <==> AllUnmistakable(vs, Marked(vs)))
  {
    var vs, body := Visible(ps, Server), ServerBody(ps, options);
    FrameNameExact(options);
    HeadersEmpty(options);
    if vs != [] {
      ServerMarks(ps, vs);
      PropertiesShown(vs, ServerComments(ps, vs), options, body);
    } else if HeadersText(options) != "" {
      HeadersAlone(options, body);
      assert [] + HeadersShown(options) == HeadersShown(options);
    }
  }
}
