/** The spellings are complete: every line that the reader accepts is one of them. */
module ApiAccepted {
  import opened Text
  import opened ApiLines
  import opened ApiSpelling

  // ----- What trimming takes away -----

  /** The white space that a text starts with. */
  function Lead(s: string): (gap: string)
    ensures AllSpace(gap) && s == gap + TrimStart(s)
    ensures s != "" && IsSpace(s[0]) ==> gap != "" && gap[0] == s[0]
  {
    if s != "" && IsSpace(s[0]) then [s[0]] + Lead(s[1..]) else ""
  }

  /** The white space that a text ends with. */
  function Trail(s: string): (gap: string)
    ensures AllSpace(gap) && s == TrimEnd(s) + gap
  {
    if s != "" && IsSpace(s[|s| - 1]) then
      assert s == s[..|s| - 1] + [s[|s| - 1]];
      Trail(s[..|s| - 1]) + [s[|s| - 1]]
    else ""
  }

  predicate EndsDark(s: string) {
    s != "" && !IsSpace(s[|s| - 1])
  }

  predicate StartsDark(s: string) {
    s != "" && !IsSpace(s[0])
  }

  lemma {:induction false} TrimStartEnds(s: string)
    requires EndsDark(s)
    ensures StartsDark(TrimStart(s)) && EndsDark(TrimStart(s)) && Trim(s) == TrimStart(s)
  {
    assert s == Lead(s) + TrimStart(s);
    TrimStartSpaces(s);
    if TrimStart(s) != "" {
      assert s[|s| - 1] == TrimStart(s)[|TrimStart(s)| - 1];
    }
  }

  lemma {:induction false} TrimEndStarts(s: string)
    requires StartsDark(s)
    ensures StartsDark(TrimEnd(s)) && EndsDark(TrimEnd(s)) && Trim(s) == TrimEnd(s)
  {
    assert s == TrimEnd(s) + Trail(s);
    TrimEndPrefix(s);
    if TrimEnd(s) != "" {
      assert s[0] == TrimEnd(s)[0];
    }
  }

  // ----- Properties -----

  function Terminator(s: string): string {
    s[|DropTerminator(s)|..]
  }

  lemma TerminatorEndsPlainly(s: string)
    requires StartsDark(s) && EndsDark(s)
    ensures EndsPlainly(DropTerminator(s), Terminator(s)) && DropTerminator(s) + Terminator(s) == s
  {
    if DropTerminator(s) != s {
      assert Terminator(s) == [s[|s| - 1]];
    } else {
      assert Terminator(s) == "";
    }
  }

  /** The layout that a declaration is spelled in. */
  function LayoutOf(gap: string, declaration: string): Layout {
    var separator := IndexOf(declaration, " = ", 0);
    if separator == -1 then Layout(gap, Terminator(declaration), "", "", "")
    else
      var left, right := declaration[..separator], declaration[separator + 3..];
      Layout(gap, Terminator(Trim(left)), Trail(left), Lead(right), Terminator(Trim(right)))
  }

  lemma {:induction false} SeparatedParts(declaration: string)
    requires StartsDark(declaration) && EndsDark(declaration) && IndexOf(declaration, " = ", 0) != -1
    ensures var separator := IndexOf(declaration, " = ", 0);
            && declaration == declaration[..separator] + " = " + declaration[separator + 3..]
            && StartsDark(declaration[..separator]) && EndsDark(declaration[separator + 3..])
  {
    var separator := IndexOf(declaration, " = ", 0);
    var middle := declaration[separator..separator + 3];
    assert middle == " = " && middle[0] == ' ' && middle[2] == ' ';
    assert declaration[separator] == middle[0] && declaration[separator + 2] == middle[2];
  }

  lemma {:induction false} PartsSpelled(left: string, right: string)
    requires StartsDark(left) && EndsDark(right)
    ensures EndsPlainly(DropTerminator(Trim(left)), Terminator(Trim(left)))
    ensures EndsPlainly(DropTerminator(Trim(right)), Terminator(Trim(right)))
    ensures DropTerminator(Trim(left)) + Terminator(Trim(left)) + Trail(left) == left
    ensures Lead(right) + DropTerminator(Trim(right)) + Terminator(Trim(right)) == right
  {
    TrimEndStarts(left);
    TrimStartEnds(right);
    TerminatorEndsPlainly(Trim(left));
    TerminatorEndsPlainly(Trim(right));
    assert left == Trim(left) + Trail(left);
    assert right == Lead(right) + Trim(right);
    Associative(Lead(right), DropTerminator(Trim(right)), Terminator(Trim(right)));
  }

  lemma {:induction false} SeparatedSpelled(name: string, optional: bool, gap: string, declaration: string)
    requires IsIdentifier(name) && AllSpace(gap) && StartsDark(declaration) && EndsDark(declaration)
             && OneLine(declaration)
    requires IndexOf(declaration, " = ", 0) != -1
    ensures var (ty, example) := ReadDeclaration(declaration);
            var line := PropertyLine(name, optional, ty, example);
            DeclarationText(line, LayoutOf(gap, declaration)) == declaration
              && ValidProperty(line, LayoutOf(gap, declaration))
  {
    var separator := IndexOf(declaration, " = ", 0);
    var left, right := declaration[..separator], declaration[separator + 3..];
    SeparatedParts(declaration);
    PartsSpelled(left, right);
    var (ty, example) := ReadDeclaration(declaration);
    var layout := LayoutOf(gap, declaration);
    assert ty + layout.end + layout.before == left;
    assert layout.after + example.value + layout.valueEnd == right;
  }

  lemma DeclarationSpelled(name: string, optional: bool, gap: string, declaration: string)
    requires IsIdentifier(name) && AllSpace(gap) && StartsDark(declaration) && EndsDark(declaration)
             && OneLine(declaration)
    ensures var (ty, example) := ReadDeclaration(declaration);
            var line := PropertyLine(name, optional, ty, example);
            DeclarationText(line, LayoutOf(gap, declaration)) == declaration
              && ValidProperty(line, LayoutOf(gap, declaration))
  {
    if IndexOf(declaration, " = ", 0) == -1 {
      TrimOfTrimmed(declaration);
      TerminatorEndsPlainly(declaration);
    } else {
      SeparatedSpelled(name, optional, gap, declaration);
    }
  }

  /** The name, the optional mark and the colon that a line starts with when it reads as a property. */
  function HeadText(line: PropertyLine): string {
    line.name + (if line.optional then "?" else "") + ":"
  }

  lemma PropertyHead(text: string, line: PropertyLine)
    requires ParsePropertyLine(text) == Some(line)
    ensures IsIdentifier(line.name) && |HeadText(line)| <= |text| && text[..|HeadText(line)|] == HeadText(line)
    ensures var declaration := TrimStart(text[|HeadText(line)|..]);
            declaration != "" && OneLine(declaration) && ReadDeclaration(declaration) == (line.ty, line.example)
  {
    var n := IdentifierRun(text);
    assert line.name == text[..n];
    var colon := if line.optional then n + 1 else n;
    assert |HeadText(line)| == colon + 1;
  }

  lemma DeclarationIsDark(text: string, from: nat)
    requires IsTrimmed(text) && from <= |text| && TrimStart(text[from..]) != ""
    ensures StartsDark(TrimStart(text[from..])) && EndsDark(TrimStart(text[from..]))
  {
    var rest := text[from..];
    TrimStartSpaces(rest);
    assert rest == Lead(rest) + TrimStart(rest);
    assert text[|text| - 1] == rest[|rest| - 1] == TrimStart(rest)[|TrimStart(rest)| - 1];
  }

  lemma {:induction false} SpelledFrom(line: PropertyLine, rest: string)
    requires var declaration := TrimStart(rest);
             && StartsDark(declaration) && EndsDark(declaration) && OneLine(declaration)
             && IsIdentifier(line.name) && ReadDeclaration(declaration) == (line.ty, line.example)
    ensures var layout := LayoutOf(Lead(rest), TrimStart(rest));
            ValidProperty(line, layout) && PropertyText(line, layout) == HeadText(line) + rest
  {
    DeclarationSpelled(line.name, line.optional, Lead(rest), TrimStart(rest));
    assert rest == Lead(rest) + TrimStart(rest);
  }

  lemma PrefixSplits(text: string, head: string)
    requires |head| <= |text| && text[..|head|] == head
    ensures text == head + text[|head|..]
  {
  }

  lemma MemberParses(text: string, line: PropertyLine)
    requires ReadLine(text) == Member(line)
    ensures ParsePropertyLine(text) == Some(line)
  {
  }

  /** Every line that reads as a property is a spelling of it. */
  lemma PropertySpelled(text: string, line: PropertyLine) returns (layout: Layout)
    requires IsTrimmed(text) && ReadLine(text) == Member(line)
    ensures ValidProperty(line, layout) && PropertyText(line, layout) == text
  {
    MemberParses(text, line);
    PropertyHead(text, line);
    DeclarationIsDark(text, |HeadText(line)|);
    PrefixSplits(text, HeadText(line));
    var rest := text[|HeadText(line)|..];
    SpelledFrom(line, rest);
    layout := LayoutOf(Lead(rest), TrimStart(rest));
  }

  // ----- Comments -----

  /** How a directive is joined to its text in what follows its mark. */
  function JointOf(rest: string): Joint
    requires rest == "" || rest[0] == ' '
  {
    var text := TrimStart(rest);
    if rest == "" then Bare
    else if text != "" && text[0] == '-' then Dashed(Lead(rest)[1..], Lead(text[1..]))
    else Spaced(Lead(rest)[1..])
  }

  lemma DashDropped(gap: string, dashed: string)
    requires AllSpace(gap) && EndsDark(dashed) && dashed[0] == '-'
    ensures DropDash(gap + dashed) == TrimStart(dashed[1..])
  {
    TrimStartGap(gap, dashed);
  }

  lemma DashedSpelled(gap: string, dashed: string)
    requires AllSpace(gap) && EndsDark(dashed) && dashed[0] == '-'
    ensures var text := Trim(DropDash(gap + dashed));
            && IsTrimmed(text) && (text == "" ==> Lead(dashed[1..]) == "")
            && dashed == "-" + Lead(dashed[1..]) + text
  {
    DashDropped(gap, dashed);
    var rest := dashed[1..];
    DashSpelled(rest);
    assert rest != "" ==> rest[|rest| - 1] == dashed[|dashed| - 1];
    Associative("-", Lead(rest), TrimStart(rest));
    PrefixSplits(dashed, "-");
  }

  lemma SpacedSpelled(gap: string, text: string)
    requires AllSpace(gap) && StartsDark(text) && EndsDark(text) && text[0] != '-'
    ensures Trim(DropDash(gap + text)) == text
  {
    SpacedReads(gap, text);
  }

  lemma DashedJoint(before: string, dashed: string)
    requires AllSpace(before) && EndsDark(dashed) && dashed[0] == '-'
    ensures var rest := " " + before + dashed;
            var text := Trim(DropDash(rest));
            var joint := Dashed(before, Lead(dashed[1..]));
            ValidJoint(joint, text) && JointText(joint) + text == rest && IsTrimmed(text)
  {
    DashedSpelled(" " + before, dashed);
    var text := Trim(DropDash(" " + before + dashed));
    Associative(" " + before, "-" + Lead(dashed[1..]), text);
    Associative(" " + before, "-", Lead(dashed[1..]));
  }

  lemma {:induction false} JointParts(rest: string)
    requires rest != "" && rest[0] == ' ' && EndsDark(rest)
    ensures var gap, text := Lead(rest), TrimStart(rest);
            && |gap| > 0 && AllSpace(gap[1..]) && rest == " " + gap[1..] + text && StartsDark(text) && EndsDark(text)
  {
    TrimStartEnds(rest);
    var gap := Lead(rest);
    assert gap == " " + gap[1..];
  }

  lemma JointSpelled(rest: string)
    requires rest == "" || (rest[0] == ' ' && EndsDark(rest))
    ensures var text := Trim(DropDash(rest));
            ValidJoint(JointOf(rest), text) && JointText(JointOf(rest)) + text == rest && IsTrimmed(text)
  {
    if rest != "" {
      JointParts(rest);
      if TrimStart(rest)[0] == '-' {
        DashedJoint(Lead(rest)[1..], TrimStart(rest));
      } else {
        SpacedSpelled(" " + Lead(rest)[1..], TrimStart(rest));
      }
    }
  }

  lemma {:induction false} DashSpelled(s: string)
    requires s == "" || EndsDark(s)
    ensures Trim(TrimStart(s)) == TrimStart(s) && IsTrimmed(TrimStart(s)) && (TrimStart(s) == "" ==> Lead(s) == "")
  {
    if s != "" {
      TrimStartEnds(s);
    }
    TrimOfTrimmed(TrimStart(s));
  }

  lemma DirectiveRest(value: string, mark: Mark)
    requires EndsDark(value) && ReadDirective(value, MarkText(mark)).Some?
    ensures |MarkText(mark)| <= |value|
    ensures var rest := value[|MarkText(mark)|..];
            value == MarkText(mark) + rest && (rest == "" || (rest[0] == ' ' && EndsDark(rest)))
  {
    if value != MarkText(mark) {
      assert value[..|MarkText(mark)| + 1] == MarkText(mark) + " ";
    }
  }

  function DirectiveOf(gap: string, value: string, mark: Mark, text: string): Comment
    requires |MarkText(mark)| <= |value|
    requires var rest := value[|MarkText(mark)|..]; rest == "" || rest[0] == ' '
  {
    Directive(gap, mark, JointOf(value[|MarkText(mark)|..]), text)
  }

  lemma DirectiveSpelled(gap: string, value: string, mark: Mark, text: string) returns (c: Comment)
    requires AllSpace(gap) && EndsDark(value) && ReadDirective(value, MarkText(mark)) == Some(text)
    ensures c.Directive? && c.mark == mark && c.text == text && ValidComment(c) && CommentText(c) == "*" + gap + value
  {
    DirectiveRest(value, mark);
    JointSpelled(value[|MarkText(mark)|..]);
    c := DirectiveOf(gap, value, mark, text);
  }

  predicate IsStarred(text: string) {
    |text| > 1 && text[0] == '*' && text[1] != '/' && Trim(text[1..]) != ""
  }

  /** A line that reads as a note or as a directive. */
  predicate SaysSomething(text: string) {
    var e := ReadLine(text);
    e.ServerOnly? || e.ClientOnly? || e.Nullable? || e.Remark?
  }

  lemma SaysIsStarred(text: string)
    requires SaysSomething(text)
    ensures IsStarred(text)
  {
    assert text[..1] == "*";
    assert !("*/" <= text);
  }

  lemma StarredParts(text: string)
    requires IsTrimmed(text) && IsStarred(text)
    ensures var gap, value := Lead(text[1..]), Trim(text[1..]);
            && text == "*" + gap + value && StartsDark(value) && EndsDark(value) && IsTrimmed(value)
            && (gap == "" ==> value[0] != '/')
  {
    var rest := text[1..];
    assert rest[|rest| - 1] == text[|text| - 1];
    TrimStartEnds(rest);
    assert rest == Lead(rest) + Trim(rest) && rest[0] == text[1];
  }

  /** Every line that is neither a property nor a closer is a spelling of what it reads as. */
  lemma CommentSpelled(text: string) returns (c: Comment)
    requires IsTrimmed(text) && !ReadLine(text).Member? && ReadLine(text) != Closer
    ensures ValidComment(c) && CommentText(c) == text && CommentEvent(c) == ReadLine(text)
  {
    if SaysSomething(text) {
      SaysIsStarred(text);
      StarredParts(text);
      c := StarredSpelled(text, Lead(text[1..]), Trim(text[1..]));
    } else if ReadLine(text) == Skipped {
      c := Unread(text);
    } else {
      c := IgnoredSpelled(text);
    }
  }

  lemma IgnoredSpelled(text: string) returns (c: Comment)
    requires IsTrimmed(text) && ReadLine(text) == Ignored
    ensures ValidComment(c) && CommentText(c) == text && CommentEvent(c) == Ignored
  {
    if text == "" {
      c := Blank;
    } else if "/*" <= text || "*/" <= text {
      c := Delimiter(text);
    } else {
      IgnoredStar(text);
      EmptyStar(text);
      c := Star;
    }
  }

  lemma IgnoredStar(text: string)
    requires ReadLine(text) == Ignored && text != "" && !("/*" <= text) && !("*/" <= text)
    ensures "*" <= text && Trim(text[1..]) == ""
  {
  }

  lemma EmptyStar(text: string)
    requires "*" <= text && Trim(text[1..]) == "" && IsTrimmed(text)
    ensures text == "*"
  {
    var rest := text[1..];
    if rest != "" {
      assert rest[|rest| - 1] == text[|text| - 1];
      TrimStartEnds(rest);
    }
  }

  lemma StarredSpelled(text: string, gap: string, value: string) returns (c: Comment)
    requires IsStarred(text) && Trim(text[1..]) == value && text == "*" + gap + value && AllSpace(gap)
    requires IsTrimmed(value) && EndsDark(value) && (gap == "" ==> value[0] != '/')
    ensures ValidComment(c) && CommentText(c) == text && CommentEvent(c) == ReadLine(text)
  {
    StarredReads(text, value);
    var server := ReadDirective(value, MarkText(ServerMark));
    var client := ReadDirective(value, MarkText(ClientMark));
    var nullable := ReadDirective(value, MarkText(NullMark));
    if server.Some? {
      c := DirectiveSpelled(gap, value, ServerMark, server.value);
    } else if client.Some? {
      c := DirectiveSpelled(gap, value, ClientMark, client.value);
    } else if nullable.Some? {
      c := DirectiveSpelled(gap, value, NullMark, nullable.value);
    } else {
      c := Note(gap, value);
    }
  }

  // ----- The opening line -----

  /** Every line that opens a type declaration is a spelling of its opening. */
  lemma OpeningSpelled(line: string, name: string) returns (first: string, second: string, third: string)
    requires TypeName(line) == Some(name)
    ensures IsIdentifier(name) && first != "" && AllSpace(first) && AllSpace(second) && AllSpace(third)
    ensures line == OpeningText(name, first, second, third)
  {
    var afterKeyword := TrimStart(line[4..]);
    var n := IdentifierRun(afterKeyword);
    var afterName := TrimStart(afterKeyword[n..]);
    first, second, third := Lead(line[4..]), Lead(afterKeyword[n..]), Lead(afterName[1..]);
    OpeningParts(line, first, afterKeyword, n, second, afterName, third);
  }

  lemma OpeningParts(line: string, first: string, afterKeyword: string, n: nat, second: string, afterName: string,
                     third: string)
    requires "type" <= line && line[4..] == first + afterKeyword && n <= |afterKeyword|
    requires afterKeyword[n..] == second + afterName && "=" <= afterName && afterName[1..] == third + "{"
    ensures line == OpeningText(afterKeyword[..n], first, second, third)
  {
    assert line == "type" + (first + (afterKeyword[..n] + (second + ("=" + (third + "{")))));
  }
}
