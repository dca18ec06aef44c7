/** The spellings of one trimmed line of a type declaration, and what each of them reads as. */
module ApiSpelling {
  import opened Text
  import opened ApiLines

  predicate OneLine(s: string) {
    forall c | c in s :: !IsLineTerminator(c)
  }

  // ----- Comment lines -----

  datatype Mark = ServerMark | ClientMark | NullMark

  function MarkText(mark: Mark): string {
    match mark
    case ServerMark => "@serverOnly"
    case ClientMark => "@clientOnly"
    case NullMark => "@nullable"
  }

  /** What stands between a directive and its text: nothing, spaces, or a dash with spaces around it. */
  datatype Joint = Bare | Spaced(spaces: string) | Dashed(before: string, after: string)

  function JointText(joint: Joint): string {
    match joint
    case Bare => ""
    case Spaced(spaces) => " " + spaces
    case Dashed(before, after) => " " + before + "-" + after
  }

  /** A line above a property that is not a property itself; `Unread` is text that fits no pattern. */
  datatype Comment =
    | Delimiter(text: string)
    | Blank
    | Star
    | Unread(text: string)
    | Note(gap: string, text: string)
    | Directive(gap: string, mark: Mark, joint: Joint, text: string)

  function CommentText(c: Comment): string {
    match c
    case Delimiter(text) => text
    case Blank => ""
    case Star => "*"
    case Unread(text) => text
    case Note(gap, text) => "*" + gap + text
    case Directive(gap, mark, joint, text) => "*" + gap + (MarkText(mark) + (JointText(joint) + text))
  }

  predicate NamesNoDirective(value: string) {
    && ReadDirective(value, "@serverOnly").None?
    && ReadDirective(value, "@clientOnly").None?
    && ReadDirective(value, "@nullable").None?
  }

  predicate ValidJoint(joint: Joint, text: string) {
    match joint
    case Bare => text == ""
    case Spaced(spaces) => AllSpace(spaces) && text != "" && text[0] != '-'
    case Dashed(before, after) => AllSpace(before) && AllSpace(after) && (text == "" ==> after == "")
  }

  predicate ValidComment(c: Comment) {
    match c
    case Delimiter(text) => ("/*" <= text || "*/" <= text) && IsTrimmed(text)
    case Blank => true
    case Star => true
    case Unread(text) => IsTrimmed(text) && ReadLine(text) == Skipped
    case Note(gap, text) =>
      AllSpace(gap) && text != "" && IsTrimmed(text) && NamesNoDirective(text) && (gap == "" ==> text[0] != '/')
    case Directive(gap, mark, joint, text) => AllSpace(gap) && IsTrimmed(text) && ValidJoint(joint, text)
  }

  function CommentEvent(c: Comment): Event {
    match c
    case Note(_, text) => Remark(text)
    case Directive(_, ServerMark, _, text) => ServerOnly(text)
    case Directive(_, ClientMark, _, text) => ClientOnly(text)
    case Directive(_, NullMark, _, text) => Nullable(text)
    case Unread(_) => Skipped
    case _ => Ignored
  }

  lemma StarredValue(gap: string, value: string)
    requires AllSpace(gap) && value != "" && IsTrimmed(value)
    ensures var line := "*" + gap + value;
            IsTrimmed(line) && line[0] == '*' && Trim(line[1..]) == value && |line| > 1
              && (line[1] == '/' ==> gap == "" && value[0] == '/')
  {
    var line := "*" + gap + value;
    assert line[1..] == gap + value + "";
    TrimMargins(gap, value, "");
    assert line[|line| - 1] == value[|value| - 1];
    if gap != "" {
      assert line[1] == gap[0] && IsSpace(gap[0]);
    }
  }

  lemma SpacedReads(gap: string, text: string)
    requires AllSpace(gap) && IsTrimmed(text) && text != "" && text[0] != '-'
    ensures Trim(DropDash(gap + text)) == text
  {
    TrimStartGap(gap, text);
    assert gap + text == gap + text + "";
    TrimMargins(gap, text, "");
  }

  lemma DashedReads(gap: string, after: string, text: string)
    requires AllSpace(gap) && AllSpace(after) && IsTrimmed(text) && (text == "" ==> after == "")
    ensures Trim(DropDash(gap + ("-" + (after + text)))) == text
  {
    var rest := "-" + (after + text);
    TrimStartGap(gap, rest);
    assert rest[1..] == after + text;
    TrimStartGap(after, text);
    TrimOfTrimmed(text);
  }

  lemma JointReads(joint: Joint, text: string)
    requires IsTrimmed(text) && ValidJoint(joint, text)
    ensures Trim(DropDash(JointText(joint) + text)) == text
  {
    match joint {
      case Bare => assert JointText(joint) + text == "";
      case Spaced(spaces) => SpacedReads(" " + spaces, text);
      case Dashed(before, after) =>
        DashedReads(" " + before, after, text);
        assert JointText(joint) + text == (" " + before) + ("-" + (after + text));
    }
  }

  lemma JointEnds(joint: Joint, text: string)
    requires IsTrimmed(text) && ValidJoint(joint, text) && !joint.Bare?
    ensures var s := JointText(joint) + text;
            s != "" && s[0] == ' ' && !IsSpace(s[|s| - 1])
  {
    var s := JointText(joint) + text;
    if text != "" {
      assert s[|s| - 1] == text[|text| - 1];
    } else {
      assert s == " " + joint.before + "-";
    }
  }

  lemma DirectiveStarts(directive: string, rest: string)
    requires rest == "" || rest[0] == ' '
    ensures ReadDirective(directive + rest, directive) == Some(Trim(DropDash(rest)))
  {
    var value := directive + rest;
    assert value[|directive|..] == rest;
    if rest == "" {
      assert value == directive;
    } else {
      assert value[..|directive| + 1] == directive + " ";
    }
  }

  lemma MarkEnds(mark: Mark)
    ensures var text := MarkText(mark);
            |text| > 1 && text[0] == '@' && !IsSpace(text[|text| - 1])
  {
  }

  /** A directive's line starts with its own mark and no other. */
  lemma DirectiveValue(mark: Mark, joint: Joint, text: string)
    requires IsTrimmed(text) && ValidJoint(joint, text)
    ensures var value := MarkText(mark) + (JointText(joint) + text);
            && |value| > 1 && IsTrimmed(value) && value[0] == '@' && value[1] == MarkText(mark)[1]
            && ReadDirective(value, MarkText(mark)) == Some(text)
  {
    MarkEnds(mark);
    JointReads(joint, text);
    if joint.Bare? {
      assert JointText(joint) + text == "";
    } else {
      JointEnds(joint, text);
    }
    DirectiveShape(MarkText(mark), JointText(joint) + text);
    DirectiveStarts(MarkText(mark), JointText(joint) + text);
  }

  lemma DirectiveShape(directive: string, rest: string)
    requires |directive| > 1 && directive[0] == '@' && !IsSpace(directive[|directive| - 1])
    requires rest == "" || !IsSpace(rest[|rest| - 1])
    ensures var value := directive + rest;
            |value| > 1 && IsTrimmed(value) && value[0] == '@' && value[1] == directive[1]
  {
    var value := directive + rest;
    if rest != "" {
      assert value[|value| - 1] == rest[|rest| - 1];
    }
  }

  lemma OtherDirective(value: string, mark: Mark)
    requires |value| > 1 && value[1] != MarkText(mark)[1]
    ensures ReadDirective(value, MarkText(mark)).None?
  {
    assert (MarkText(mark) + " ")[1] == MarkText(mark)[1];
  }

  lemma MarksDiffer()
    ensures MarkText(ServerMark)[1] == 's' && MarkText(ClientMark)[1] == 'c' && MarkText(NullMark)[1] == 'n'
  {
  }

  lemma StarredReads(line: string, value: string)
    requires |line| > 1 && line[0] == '*' && line[1] != '/' && Trim(line[1..]) == value && value != ""
    ensures NamesNoDirective(value) ==> ReadLine(line) == Remark(value)
    ensures var server, client := ReadDirective(value, "@serverOnly"), ReadDirective(value, "@clientOnly");
            var nullable := ReadDirective(value, "@nullable");
            && (server.Some? ==> ReadLine(line) == ServerOnly(server.value))
            && (server.None? && client.Some? ==> ReadLine(line) == ClientOnly(client.value))
            && (server.None? && client.None? && nullable.Some? ==> ReadLine(line) == Nullable(nullable.value))
  {
    assert line[..1] == "*";
  }

  lemma OnlyDirective(value: string, mark: Mark)
    requires |value| > 1 && value[1] == MarkText(mark)[1]
    ensures forall other | other != mark :: ReadDirective(value, MarkText(other)).None?
  {
    MarksDiffer();
    forall other | other != mark ensures ReadDirective(value, MarkText(other)).None? {
      OtherDirective(value, other);
    }
  }

  lemma MarkedReads(line: string, value: string, mark: Mark, text: string)
    requires |line| > 1 && line[0] == '*' && line[1] != '/' && Trim(line[1..]) == value && value != ""
    requires ReadDirective(value, MarkText(mark)) == Some(text)
    requires forall other | other != mark :: ReadDirective(value, MarkText(other)).None?
    ensures ReadLine(line) == CommentEvent(Directive("", mark, Bare, text))
  {
    assert mark != ServerMark ==> ReadDirective(value, MarkText(ServerMark)).None?;
    assert mark != ClientMark ==> ReadDirective(value, MarkText(ClientMark)).None?;
    StarredReads(line, value);
  }

  lemma DirectiveReads(gap: string, mark: Mark, joint: Joint, text: string)
    requires ValidComment(Directive(gap, mark, joint, text))
    ensures var c := Directive(gap, mark, joint, text);
            ReadLine(CommentText(c)) == CommentEvent(c) && IsTrimmed(CommentText(c))
  {
    var value := MarkText(mark) + (JointText(joint) + text);
    DirectiveValue(mark, joint, text);
    StarredValue(gap, value);
    OnlyDirective(value, mark);
    MarkedReads("*" + gap + value, value, mark, text);
  }

  lemma NoteReads(gap: string, text: string)
    requires ValidComment(Note(gap, text))
    ensures ReadLine(CommentText(Note(gap, text))) == Remark(text) && IsTrimmed(CommentText(Note(gap, text)))
  {
    StarredValue(gap, text);
    StarredReads("*" + gap + text, text);
  }

  lemma DelimiterReads(text: string)
    requires "/*" <= text || "*/" <= text
    ensures ReadLine(text) == Ignored
  {
    assert text[0] in "/*" && |text| > 1;
  }

  /** Every comment line reads as what it says. */
  lemma CommentReads(c: Comment)
    requires ValidComment(c)
    ensures ReadLine(CommentText(c)) == CommentEvent(c) && IsTrimmed(CommentText(c))
  {
    match c {
      case Delimiter(text) => DelimiterReads(text);
      case Blank => assert ReadLine("") == Ignored;
      case Star =>
        assert "*"[1..] == "" && Trim("") == "";
        assert ReadLine("*") == Ignored;
      case Unread(_) =>
      case Note(gap, text) => NoteReads(gap, text);
      case Directive(gap, mark, joint, text) => DirectiveReads(gap, mark, joint, text);
    }
  }

  // ----- Property lines -----

  /** The spaces and terminators of a property line, which its reading drops. */
  datatype Layout = Layout(gap: string, end: string, before: string, after: string, valueEnd: string)

  function DeclarationText(line: PropertyLine, layout: Layout): string {
    match line.example
    case None => line.ty + layout.end
    case Some(example) => (line.ty + layout.end + layout.before) + " = " + (layout.after + example + layout.valueEnd)
  }

  function PropertyText(line: PropertyLine, layout: Layout): string {
    line.name + (if line.optional then "?" else "") + ":" + (layout.gap + DeclarationText(line, layout))
  }

  /** A text and its terminator, from which the reading gives back the text. */
  predicate EndsPlainly(text: string, end: string) {
    && end in ["", ";", ","] && text + end != "" && IsTrimmed(text + end) && DropTerminator(text + end) == text
  }

  predicate ValidProperty(line: PropertyLine, layout: Layout) {
    && IsIdentifier(line.name) && AllSpace(layout.gap)
    && EndsPlainly(line.ty, layout.end) && OneLine(DeclarationText(line, layout))
    && var separator := IndexOf(DeclarationText(line, layout), " = ", 0);
       if line.example.None? then separator == -1
       else
         && AllSpace(layout.before) && AllSpace(layout.after) && EndsPlainly(line.example.value, layout.valueEnd)
         && separator == |line.ty + layout.end + layout.before|
  }

  /** The type and the example that the declaration part of a property line reads as. */
  function ReadDeclaration(declaration: string): (string, Option<string>) {
    var separator := IndexOf(declaration, " = ", 0);
    if separator == -1 then (DropTerminator(Trim(declaration)), None)
    else (DropTerminator(Trim(declaration[..separator])), Some(DropTerminator(Trim(declaration[separator + 3..]))))
  }

  lemma DeclarationReads(line: PropertyLine, layout: Layout)
    requires ValidProperty(line, layout)
    ensures ReadDeclaration(DeclarationText(line, layout)) == (line.ty, line.example)
  {
    var declaration := DeclarationText(line, layout);
    var left := line.ty + layout.end;
    if line.example.None? {
      TrimOfTrimmed(left);
    } else {
      var right := line.example.value + layout.valueEnd;
      assert declaration[..|left + layout.before|] == "" + left + layout.before;
      assert declaration[|left + layout.before| + 3..] == layout.after + right + "";
      TrimMargins("", left, layout.before);
      TrimMargins(layout.after, right, "");
    }
  }

  lemma {:induction false} PartRunExact(name: string, tail: string)
    requires (forall c | c in name :: IsIdentifierPart(c)) && (tail == "" || !IsIdentifierPart(tail[0]))
    ensures PartRun(name + tail) == |name|
  {
    if name == "" {
      assert name + tail == tail;
    } else {
      PartRunExact(name[1..], tail);
      assert (name + tail)[1..] == name[1..] + tail;
    }
  }

  lemma PropertyShape(line: PropertyLine, layout: Layout)
    requires IsIdentifier(line.name)
    ensures var text := PropertyText(line, layout);
            var n := |line.name|;
            var colon := if line.optional then n + 1 else n;
            && IdentifierRun(text) == n && text[..n] == line.name
            && colon < |text| && text[colon] == ':' && (text[n] == '?' <==> line.optional)
            && text[colon + 1..] == layout.gap + DeclarationText(line, layout)
  {
    var rest := ":" + (layout.gap + DeclarationText(line, layout));
    var tail := if line.optional then "?" + rest else rest;
    assert PropertyText(line, layout) == line.name + tail;
    assert rest[1..] == layout.gap + DeclarationText(line, layout);
    PartRunExact(line.name, tail);
  }

  lemma DeclarationEnds(line: PropertyLine, layout: Layout)
    requires ValidProperty(line, layout)
    ensures var declaration := DeclarationText(line, layout);
            declaration != "" && !IsSpace(declaration[0]) && !IsSpace(declaration[|declaration| - 1])
  {
    var declaration, left := DeclarationText(line, layout), line.ty + layout.end;
    assert declaration[0] == left[0];
    if line.example.Some? {
      var right := line.example.value + layout.valueEnd;
      assert declaration == (left + layout.before + " = " + layout.after) + right;
      assert declaration[|declaration| - 1] == right[|right| - 1];
    }
  }

  lemma ParseShaped(text: string, line: PropertyLine)
    requires var n := IdentifierRun(text);
             var colon := if line.optional then n + 1 else n;
             && n > 0 && text[..n] == line.name && colon < |text| && text[colon] == ':'
                && (text[n] == '?' <==> line.optional)
             && var declaration := TrimStart(text[colon + 1..]);
                declaration != "" && OneLine(declaration) && ReadDeclaration(declaration) == (line.ty, line.example)
    ensures ParsePropertyLine(text) == Some(line)
  {
  }

  lemma ReadsMember(text: string, line: PropertyLine)
    requires text != "" && IsIdentifierStart(text[0]) && ParsePropertyLine(text) == Some(line)
    ensures ReadLine(text) == Member(line)
  {
  }

  lemma PropertyEnds(line: PropertyLine, layout: Layout)
    requires ValidProperty(line, layout)
    ensures var text := PropertyText(line, layout);
            text != "" && IsIdentifierStart(text[0]) && IsTrimmed(text)
  {
    var text, declaration := PropertyText(line, layout), DeclarationText(line, layout);
    DeclarationEnds(line, layout);
    assert text[0] == line.name[0] && !IsSpace(text[0]);
    assert text[|text| - 1] == declaration[|declaration| - 1];
  }

  /** Every spelling of a property line reads as its name, optional mark, type and example. */
  lemma PropertyReads(line: PropertyLine, layout: Layout)
    requires ValidProperty(line, layout)
    ensures ReadLine(PropertyText(line, layout)) == Member(line) && IsTrimmed(PropertyText(line, layout))
  {
    PropertyEnds(line, layout);
    PropertyShape(line, layout);
    DeclarationEnds(line, layout);
    TrimStartGap(layout.gap, DeclarationText(line, layout));
    DeclarationReads(line, layout);
    ParseShaped(PropertyText(line, layout), line);
    ReadsMember(PropertyText(line, layout), line);
  }

  // ----- Closing and opening lines -----

  const CLOSERS := ["}", "},", "};"]

  lemma CloserReads(text: string)
    requires text in CLOSERS
    ensures ReadLine(text) == Closer && IsTrimmed(text)
  {
  }

  /** The opening line, with spaces where the pattern allows them. */
  function OpeningText(name: string, first: string, second: string, third: string): string {
    "type" + (first + (name + (second + ("=" + (third + "{")))))
  }

  lemma OpeningReads(name: string, first: string, second: string, third: string)
    requires IsIdentifier(name) && first != "" && AllSpace(first) && AllSpace(second) && AllSpace(third)
    ensures TypeName(OpeningText(name, first, second, third)) == Some(name)
  {
    var line := OpeningText(name, first, second, third);
    var afterName := second + ("=" + (third + "{"));
    assert line[..4] == "type" && line[4..] == first + (name + afterName) && line[4] == first[0];
    assert !IsSpace(name[0]);
    TrimStartGap(first, name + afterName);
    assert second != "" ==> afterName[0] == second[0] && IsSpace(second[0]);
    PartRunExact(name, afterName);
    assert (name + afterName)[|name|..] == afterName && (name + afterName)[..|name|] == name;
    TrimStartGap(second, "=" + (third + "{"));
    assert ("=" + (third + "{"))[1..] == third + "{";
    TrimStartGap(third, "{");
  }
}
