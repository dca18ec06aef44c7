/** Reading the text of a printed example, line by line: indentation, name, value, braces and comments. */
module ApiText {
  import opened Text
  import opened ApiPrinter
  import opened ApiReadback

  // ----- The reader -----

  function Spaces(line: string): (n: nat)
    ensures n <= |line|
  {
    if line != "" && line[0] == ' ' then 1 + Spaces(line[1..]) else 0
  }

  predicate EndsWith(s: string, end: string) {
    |end| <= |s| && s[|s| - |end|..] == end
  }

  function WithoutEnd(s: string, end: string): string
    requires EndsWith(s, end)
  {
    s[..|s| - |end|]
  }

  /** What stands before the first colon with a space after it. */
  function NameOf(head: string): string {
    var at := IndexOf(head, ": ", 0);
    if at == -1 then head else head[..at]
  }

  /** What stands after it. */
  function ValueOf(head: string): Option<string> {
    var at := IndexOf(head, ": ", 0);
    if at == -1 then None else Some(head[at + 2..])
  }

  /** A line without its indentation and its comment: an object that opens, one that closes, or a field. */
  function ReadCode(indent: nat, code: string, remarks: seq<string>): Option<Token> {
    if code == "}," then Some(Close(indent))
    else if EndsWith(code, ": {") then
      var head := WithoutEnd(code, ": {");
      Some(Open(indent, NameOf(head), ValueOf(head), remarks))
    else if EndsWith(code, ",") then
      var head := WithoutEnd(code, ",");
      Some(Field(indent, NameOf(head), ValueOf(head), remarks))
    else None
  }

  /** A line without its indentation; a comment starts at the first ` // `. */
  function ReadRest(indent: nat, rest: string): Option<Token> {
    var at := IndexOf(rest, " // ", 0);
    if at == -1 then ReadCode(indent, rest, []) else ReadCode(indent, rest[..at], [rest[at + 4..]])
  }

  /** A line that is a comment and nothing else. */
  predicate IsNote(line: string) {
    "// " <= line[Spaces(line)..]
  }

  /** The token of a line, with four spaces for each level; a comment line has none. */
  function ReadPrinted(line: string): Option<seq<Token>> {
    var n := Spaces(line);
    if IsNote(line) then Some([])
    else if n % 4 != 0 || ReadRest(n / 4, line[n..]).None? then None
    else Some([ReadRest(n / 4, line[n..]).value])
  }

  function NotesIn(line: string): seq<string> {
    if IsNote(line) then [line[Spaces(line) + 3..]] else []
  }

  function AllOf<T>(parts: seq<Option<seq<T>>>): Option<seq<T>> {
    if parts == [] then Some([])
    else
      var later := AllOf(parts[1..]);
      if parts[0].None? || later.None? then None else Some(parts[0].value + later.value)
  }

  function Flat<T>(parts: seq<seq<T>>): seq<T> {
    if parts == [] then [] else parts[0] + Flat(parts[1..])
  }

  function ReadTexts(lines: seq<string>): Option<seq<Token>> {
    AllOf(MapAll(ReadPrinted, lines))
  }

  function NoteTexts(lines: seq<string>): seq<string> {
    Flat(MapAll(NotesIn, lines))
  }

  /** The lines between an opening brace and the closing one on lines of their own. */
  function InnerLines(body: string): Option<seq<string>> {
    var lines := Split(body, '\n');
    var n := |lines| - 1;
    if n > 0 && lines[0] == "{" && lines[n] == "}" then Some(lines[1..n]) else None
  }

  /** The nested entries of an example's text. */
  function ReadExample(body: string): Option<seq<Entry>> {
    var lines := InnerLines(body);
    if lines.None? then None
    else
      var tokens := ReadTexts(lines.value);
      if tokens.None? then None else ReadBody(tokens.value, 1)
  }

  /** The comment lines of an example's text. */
  function ReadNotes(body: string): seq<string> {
    var lines := InnerLines(body);
    if lines.None? then [] else NoteTexts(lines.value)
  }

  // ----- Which tokens can be read -----

  predicate IsPlainName(name: string) {
    name != "" && name[0] !in " }" && forall c | c in name :: c !in ":/\n"
  }

  predicate NoRemark(s: string) {
    forall i | 0 <= i < |s| :: !OccursAt(s, " // ", i)
  }

  /** One line, and nothing in it looks like the start of a comment, even at its start. */
  predicate IsPlainValue(value: string) {
    '\n' !in value && NoRemark(" " + value)
  }

  predicate IsPlain(t: Token) {
    t.Close? ||
    (&& IsPlainName(t.name)
     && (t.example.Some? ==> IsPlainValue(t.example.value))
     && forall c | c in t.comments :: '\n' !in c)
  }

  function NonEmptyText(value: Option<string>): Option<string> {
    if value == Some("") then None else value
  }

  /** What can be read of comments: their text, when there are any. */
  function Remarks(comments: seq<string>): seq<string> {
    if comments == [] then [] else [Join(comments, ", ")]
  }

  /** What can be read of a token. */
  function Readable(t: Token): Token {
    match t
    case Open(indent, name, example, comments) => Open(indent, name, NonEmptyText(example), Remarks(comments))
    case Field(indent, name, example, comments) => Field(indent, name, NonEmptyText(example), Remarks(comments))
    case Close(indent) => Close(indent)
  }

  // ----- One line reads back -----

  lemma {:induction false} OneSpace(rest: string)
    ensures Spaces(" " + rest) == 1 + Spaces(rest)
  {
    assert (" " + rest)[1..] == rest;
  }

  lemma {:induction false} FourSpaces(rest: string)
    ensures Spaces(INDENTATION + rest) == 4 + Spaces(rest)
  {
    var one := " " + rest;
    var two := " " + one;
    var three := " " + two;
    OneSpace(rest);
    OneSpace(one);
    OneSpace(two);
    OneSpace(three);
    assert INDENTATION + rest == " " + three;
  }

  lemma {:induction false} IndentedSpaces(indent: nat, rest: string)
    requires rest != "" && rest[0] != ' '
    ensures |Repeat(INDENTATION, indent)| == 4 * indent
    ensures Spaces(Repeat(INDENTATION, indent) + rest) == 4 * indent
    decreases indent
  {
    if indent == 0 {
      assert Repeat(INDENTATION, indent) + rest == rest;
    } else {
      IndentedSpaces(indent - 1, rest);
      FourSpaces(Repeat(INDENTATION, indent - 1) + rest);
      Associative(INDENTATION, Repeat(INDENTATION, indent - 1), rest);
    }
  }

  function HeadText(name: string, example: Option<string>): string {
    name + ExampleText(example)
  }

  lemma HeadReads(name: string, example: Option<string>)
    requires IsPlainName(name)
    ensures NameOf(HeadText(name, example)) == name
    ensures ValueOf(HeadText(name, example)) == NonEmptyText(example)
  {
    var head := HeadText(name, example);
    forall i: nat | i < |name| ensures !OccursAt(head, ": ", i) {
      assert head[i] == name[i] && name[i] in name;
      StartsDiffer(head, ": ", i);
    }
    if NonEmptyText(example).Some? {
      ValueFollows(head, name, example.value);
      assert IndexOf(head, ": ", 0) == |name|;
    } else {
      assert head == name;
      forall i: nat ensures !OccursAt(head, ": ", i) {
      }
    }
  }

  lemma ValueFollows(head: string, name: string, value: string)
    requires head == name + (": " + value)
    ensures OccursAt(head, ": ", |name|) && head[..|name|] == name && head[|name| + 2..] == value
  {
    assert head[|name|..|name| + 2] == ": ";
  }

  lemma SlashesAt(s: string, i: nat)
    ensures OccursAt(s, " // ", i)
            <==> i + 3 < |s| && s[i] == ' ' && s[i + 1] == '/' && s[i + 2] == '/' && s[i + 3] == ' '
  {
    if i + 3 < |s| {
      assert s[i..i + 4] == [s[i], s[i + 1], s[i + 2], s[i + 3]];
    }
  }

  /** No comment starts in a name, a value or the end of a line's code. */
  lemma CodeHoldsNoRemark(name: string, value: string, end: string, tail: string)
    requires IsPlainName(name) && (value == "" || (": " <= value && NoRemark(value[1..]))) && end in [": {", ","]
    requires tail == "" || " // " <= tail
    ensures var code := name + value + end;
            forall i: nat | i < |code| :: !OccursAt(code + tail, " // ", i)
  {
    var code := name + value + end;
    forall i: nat | i < |code| ensures !OccursAt(code + tail, " // ", i) {
      RemarkNotAt(name, value, end, tail, i);
    }
  }

  lemma RemarkNotAt(name: string, value: string, end: string, tail: string, i: nat)
    requires IsPlainName(name) && (value == "" || (": " <= value && NoRemark(value[1..]))) && end in [": {", ","]
    requires i < |name + value + end|
    ensures !OccursAt(name + value + end + tail, " // ", i)
  {
    var line := name + value + end + tail;
    if i < |name| {
      assert line[i] == name[i];
      if i + 2 < |name| {
        assert line[i + 1] == name[i + 1] && name[i + 1] in name;
      }
    } else if i + 3 < |name + value| && i > |name| {
      var j := i - |name| - 1;
      assert !OccursAt(value[1..], " // ", j);
      SlashesAt(value[1..], j);
    }
    SlashesAt(line, i);
  }

  lemma RestReads(indent: nat, code: string, comments: seq<string>)
    requires forall i: nat | i < |code| :: !OccursAt(code + CommentText(comments), " // ", i)
    ensures ReadRest(indent, code + CommentText(comments)) == ReadCode(indent, code, Remarks(comments))
  {
    var rest := code + CommentText(comments);
    if comments == [] {
      assert rest == code;
      forall i: nat ensures !OccursAt(rest, " // ", i) {
      }
    } else {
      var remark := Join(comments, ", ");
      RemarkFollows(rest, code, remark);
      assert IndexOf(rest, " // ", 0) == |code|;
    }
  }

  lemma RemarkFollows(rest: string, code: string, remark: string)
    requires rest == code + (" // " + remark)
    ensures OccursAt(rest, " // ", |code|) && rest[..|code|] == code && rest[|code| + 4..] == remark
  {
    assert rest[|code|..|code| + 4] == " // ";
  }

  lemma EndsIn(head: string, end: string)
    ensures EndsWith(head + end, end) && WithoutEnd(head + end, end) == head
  {
  }

  /** Neither end of a line can be taken for the other, nor for a closer. */
  lemma CodeReads(indent: nat, head: string, end: string, remarks: seq<string>)
    requires head != "" && head[0] != '}' && end in [": {", ","]
    ensures ReadCode(indent, head + end, remarks)
            == if end == "," then Some(Field(indent, NameOf(head), ValueOf(head), remarks))
               else Some(Open(indent, NameOf(head), ValueOf(head), remarks))
  {
    var code := head + end;
    EndsIn(head, end);
    assert code[0] == head[0];
    assert code != "},";
    assert code[|code| - 1] == end[|end| - 1];
    if end == "," && |code| >= 3 {
      assert code[|code| - 3..][2] == ',';
    }
  }

  /** The text of a line, without the end of the line. */
  function TokenLine(t: Token): string {
    match t
    case Open(indent, name, example, comments) =>
      Repeat(INDENTATION, indent) + (name + ExampleText(example) + ": {" + CommentText(comments))
    case Field(indent, name, example, comments) =>
      Repeat(INDENTATION, indent) + (name + ExampleText(example) + "," + CommentText(comments))
    case Close(indent) =>
      Repeat(INDENTATION, indent) + "},"
  }

  lemma Regrouped(indentation: string, name: string, value: string, end: string, comment: string, last: string)
    ensures indentation + name + value + end + comment + last == indentation + (name + value + end + comment) + last
  {
  }

  lemma TokenLineEnds(t: Token)
    ensures TokenText(t) == TokenLine(t) + "\n"
  {
    match t {
      case Open(indent, name, example, comments) =>
        Regrouped(Repeat(INDENTATION, indent), name, ExampleText(example), ": {", CommentText(comments), "\n");
      case Field(indent, name, example, comments) =>
        Regrouped(Repeat(INDENTATION, indent), name, ExampleText(example), ",", CommentText(comments), "\n");
      case Close(indent) => assert "}," + "\n" == "},\n";
    }
  }

  lemma ExampleIsPlain(example: Option<string>)
    requires example.Some? ==> IsPlainValue(example.value)
    ensures var value := ExampleText(example);
            value == "" || (": " <= value && NoRemark(value[1..]))
  {
    if ExampleText(example) != "" {
      assert ExampleText(example)[1..] == " " + example.value;
    }
  }

  lemma MemberReads(indent: nat, name: string, example: Option<string>, end: string, comments: seq<string>)
    requires IsPlainName(name) && (example.Some? ==> IsPlainValue(example.value)) && end in [": {", ","]
    ensures var rest := name + ExampleText(example) + end + CommentText(comments);
            ReadRest(indent, rest)
            == if end == "," then Some(Field(indent, name, NonEmptyText(example), Remarks(comments)))
               else Some(Open(indent, name, NonEmptyText(example), Remarks(comments)))
  {
    ExampleIsPlain(example);
    CodeHoldsNoRemark(name, ExampleText(example), end, CommentText(comments));
    RestReads(indent, name + ExampleText(example) + end, comments);
    HeadReads(name, example);
    CodeReads(indent, HeadText(name, example), end, Remarks(comments));
  }

  lemma CloserReads(indent: nat)
    ensures ReadRest(indent, "},") == Some(Close(indent))
  {
    forall i: nat ensures !OccursAt("},", " // ", i) {
    }
  }

  /** The text of a plain token reads as what can be read of it, and is no comment line. */
  lemma RestOf(t: Token) returns (rest: string)
    requires IsPlain(t)
    ensures TokenLine(t) == Repeat(INDENTATION, t.indent) + rest && rest != "" && rest[0] != ' ' && rest[0] != '/'
    ensures ReadRest(t.indent, rest) == Some(Readable(t))
  {
    match t {
      case Open(indent, name, example, comments) =>
        rest := name + ExampleText(example) + ": {" + CommentText(comments);
        MemberReads(indent, name, example, ": {", comments);
        assert rest[0] == name[0] && name[0] in name;
      case Field(indent, name, example, comments) =>
        rest := name + ExampleText(example) + "," + CommentText(comments);
        MemberReads(indent, name, example, ",", comments);
        assert rest[0] == name[0] && name[0] in name;
      case Close(indent) =>
        rest := "},";
        CloserReads(indent);
    }
  }

  lemma {:induction false} IndentedReads(line: string, indent: nat, rest: string, t: Token)
    requires Spaces(line) == 4 * indent && line[4 * indent..] == rest && rest != "" && rest[0] != '/'
    requires ReadRest(indent, rest) == Some(t)
    ensures ReadPrinted(line) == Some([t]) && NotesIn(line) == []
  {
    assert !("// " <= rest);
    assert Spaces(line) / 4 == indent && Spaces(line) % 4 == 0;
  }

  lemma LineShape(t: Token, line: string)
    requires IsPlain(t) && line == TokenLine(t)
    ensures ReadPrinted(line) == Some([Readable(t)]) && NotesIn(line) == []
  {
    var rest := RestOf(t);
    IndentedSpaces(t.indent, rest);
    IndentedReads(line, t.indent, rest, Readable(t));
  }

  lemma {:induction false} AllOfFirst<T>(first: seq<T>, parts: seq<Option<seq<T>>>)
    requires AllOf(parts).Some?
    ensures AllOf([Some(first)] + parts) == Some(first + AllOf(parts).value)
  {
    assert ([Some(first)] + parts)[1..] == parts;
  }

  lemma {:induction false} FlatFirst<T>(first: seq<T>, parts: seq<seq<T>>)
    ensures Flat([first] + parts) == first + Flat(parts)
  {
    assert ([first] + parts)[1..] == parts;
  }

  lemma {:induction false} MapFirst<S, T>(f: S -> T, first: S, rest: seq<S>)
    ensures MapAll(f, [first] + rest) == [f(first)] + MapAll(f, rest)
  {
    assert ([first] + rest)[1..] == rest;
  }

  /** A line in front of others. */
  lemma FirstReads(line: string, tokens: seq<Token>, notes: seq<string>, lines: seq<string>)
    requires ReadPrinted(line) == Some(tokens) && NotesIn(line) == notes && ReadTexts(lines).Some?
    ensures ReadTexts([line] + lines) == Some(tokens + ReadTexts(lines).value)
    ensures NoteTexts([line] + lines) == notes + NoteTexts(lines)
  {
    MapFirst(ReadPrinted, line, lines);
    MapFirst(NotesIn, line, lines);
    AllOfFirst(tokens, MapAll(ReadPrinted, lines));
    FlatFirst(notes, MapAll(NotesIn, lines));
  }

  // ----- All lines -----

  predicate ArePlain(ts: seq<Token>) {
    forall t | t in ts :: IsPlain(t)
  }

  function LinesOf(ts: seq<Token>): seq<string> {
    MapAll(TokenLine, ts)
  }

  lemma {:induction false} LinesRead(ts: seq<Token>, lines: seq<string>)
    requires ArePlain(ts) && ReadTexts(lines).Some?
    ensures ReadTexts(LinesOf(ts) + lines) == Some(MapAll(Readable, ts) + ReadTexts(lines).value)
    ensures NoteTexts(LinesOf(ts) + lines) == NoteTexts(lines)
    decreases |ts|
  {
    if ts == [] {
      assert LinesOf(ts) + lines == lines;
      assert MapAll(Readable, ts) + ReadTexts(lines).value == ReadTexts(lines).value;
    } else {
      var line := TokenLine(ts[0]);
      assert ts[0] in ts;
      FirstLine(ts, lines);
      LinesRead(ts[1..], lines);
      LineShape(ts[0], line);
      FirstReads(line, [Readable(ts[0])], [], LinesOf(ts[1..]) + lines);
      Associative([Readable(ts[0])], MapAll(Readable, ts[1..]), ReadTexts(lines).value);
    }
  }

  lemma {:induction false} FirstLine(ts: seq<Token>, lines: seq<string>)
    requires ts != []
    ensures LinesOf(ts) + lines == [TokenLine(ts[0])] + (LinesOf(ts[1..]) + lines)
    ensures MapAll(Readable, ts) == [Readable(ts[0])] + MapAll(Readable, ts[1..])
  {
    Associative([TokenLine(ts[0])], LinesOf(ts[1..]), lines);
  }

  lemma {:induction false} NoLineEndInJoin(parts: seq<string>, separator: string)
    requires '\n' !in separator && forall part | part in parts :: '\n' !in part
    ensures '\n' !in Join(parts, separator)
  {
    if |parts| > 1 {
      NoLineEndInJoin(parts[1..], separator);
    }
  }

  lemma {:induction false} NoLineEndInRepeat(indent: nat)
    ensures '\n' !in Repeat(INDENTATION, indent)
  {
    if indent > 0 {
      NoLineEndInRepeat(indent - 1);
    }
  }

  lemma OneLineOf(t: Token)
    requires IsPlain(t)
    ensures '\n' !in TokenLine(t)
  {
    NoLineEndInRepeat(t.indent);
    if !t.Close? {
      NoLineEndInJoin(t.comments, ", ");
      NoLineEndInParts(t.name, t.example, t.comments);
    }
  }

  lemma {:induction false} NoLineEndInParts(name: string, example: Option<string>, comments: seq<string>)
    requires IsPlainName(name) && (example.Some? ==> '\n' !in example.value) && '\n' !in Join(comments, ", ")
    ensures '\n' !in name && '\n' !in ExampleText(example) && '\n' !in CommentText(comments)
  {
    assert forall c | c in name :: c != '\n';
  }

  lemma LastText(ts: seq<Token>, last: string, rest: string)
    requires ts != [] && last == TokenLine(ts[|ts| - 1])
    ensures TokensText(ts) + rest == TokensText(ts[..|ts| - 1]) + (last + ['\n'] + rest)
    ensures LinesOf(ts) == LinesOf(ts[..|ts| - 1]) + [last]
  {
    var n := |ts| - 1;
    TokenLineEnds(ts[n]);
    Associative(TokensText(ts[..n]), last + ['\n'], rest);
    MapAllAppend(TokenLine, ts[..n], [ts[n]]);
    assert ts == ts[..n] + [ts[n]] && LinesOf([ts[n]]) == [last];
  }

  /** The text of plain tokens splits into their lines. */
  lemma {:induction false} TextSplits(ts: seq<Token>, rest: string)
    requires ArePlain(ts)
    ensures Split(TokensText(ts) + rest, '\n') == LinesOf(ts) + Split(rest, '\n')
    decreases |ts|
  {
    if ts == [] {
      assert TokensText(ts) + rest == rest;
    } else {
      var n := |ts| - 1;
      var last := TokenLine(ts[n]);
      assert ts[n] in ts;
      OneLineOf(ts[n]);
      SplitAtSeparator(last, '\n', rest);
      LastText(ts, last, rest);
      TextSplits(ts[..n], last + ['\n'] + rest);
      Associative(LinesOf(ts[..n]), [last], Split(rest, '\n'));
    }
  }

  // ----- Reading what can be read -----

  function ReadableEntry(e: Entry): Entry {
    e.(example := NonEmptyText(e.example), comments := Remarks(e.comments))
  }

  function ReadableReader(r: Reader): Reader {
    if r.Stuck? then Stuck else Reading(r.open, MapAll(ReadableEntry, r.entries))
  }

  lemma ReadableToken(r: Reader, t: Token, base: nat)
    ensures ReadToken(ReadableReader(r), Readable(t), base) == ReadableReader(ReadToken(r, t, base))
  {
    var r' := ReadToken(r, t, base);
    if r'.Reading? && !t.Close? {
      var last := r'.entries[|r.entries|];
      MapAllAppend(ReadableEntry, r.entries, [last]);
      assert MapAll(ReadableEntry, [last]) == [ReadableEntry(last)];
    }
  }

  /** The stack of braces makes the same of what can be read as of the tokens. */
  lemma {:induction false} ReadableTokens(r: Reader, ts: seq<Token>, base: nat)
    ensures ReadTokens(ReadableReader(r), MapAll(Readable, ts), base) == ReadableReader(ReadTokens(r, ts, base))
    decreases |ts|
  {
    if ts != [] {
      ReadableToken(r, ts[0], base);
      ReadableTokens(ReadToken(r, ts[0], base), ts[1..], base);
      assert MapAll(Readable, ts)[1..] == MapAll(Readable, ts[1..]);
    }
  }

  /** Entries that are nested in one more object. */
  function Inside(name: string, e: Entry): Entry {
    e.(path := [name] + e.path)
  }

  function AllInside(name: string, es: seq<Entry>): (inside: seq<Entry>)
    ensures |inside| == |es| && forall k | 0 <= k < |es| :: inside[k] == Inside(name, es[k])
  {
    seq(|es|, k requires 0 <= k < |es| => Inside(name, es[k]))
  }

  function UnderFrame(frame: Frame, before: seq<Entry>, r: Reader): Reader {
    if r.Stuck? then Stuck else Reading([frame] + r.open, before + AllInside(frame.name, r.entries))
  }

  lemma NamesUnder(frame: Frame, open: seq<Frame>)
    ensures Names([frame] + open) == [frame.name] + Names(open)
  {
  }

  lemma InsideAppend(name: string, before: seq<Entry>, es: seq<Entry>, e: Entry)
    ensures before + AllInside(name, es + [e]) == before + AllInside(name, es) + [Inside(name, e)]
  {
  }

  lemma UnderFrameToken(frame: Frame, before: seq<Entry>, r: Reader, t: Token, base: nat)
    requires ReadToken(r, t, base + 1).Reading?
    ensures ReadToken(UnderFrame(frame, before, r), t, base) == UnderFrame(frame, before, ReadToken(r, t, base + 1))
  {
    var open := [frame] + r.open;
    NamesUnder(frame, r.open);
    if t.Close? {
      assert open[..|open| - 1] == [frame] + r.open[..|r.open| - 1];
    } else {
      var e := Entry(t.name, Names(r.open), t.Open?, t.example, t.comments);
      InsideAppend(frame.name, before, r.entries, e);
      assert open + [Frame(t.name, t.indent)] == [frame] + (r.open + [Frame(t.name, t.indent)]);
    }
  }

  /** Below an object that stays open, tokens one level deeper read as entries nested in it. */
  lemma {:induction false} UnderFrameTokens(frame: Frame, before: seq<Entry>, r: Reader, ts: seq<Token>, base: nat)
    requires ReadTokens(r, ts, base + 1).Reading?
    ensures ReadTokens(UnderFrame(frame, before, r), ts, base)
            == UnderFrame(frame, before, ReadTokens(r, ts, base + 1))
    decreases |ts|
  {
    if ts != [] {
      if ReadToken(r, ts[0], base + 1).Stuck? {
        StuckStays(ts[1..], base + 1);
      } else {
        UnderFrameToken(frame, before, r, ts[0], base);
        UnderFrameTokens(frame, before, ReadToken(r, ts[0], base + 1), ts[1..], base);
      }
    }
  }
}
