/** Source texts in which a property that neither it nor an enclosing object restricts is hidden all the same. */
module ApiExamples {
  import opened Text
  import opened ApiLines
  import opened PropertyForest
  import opened ApiParser
  import opened ParsedForest
  import opened ApiRestrictions
  import opened ApiSpelling
  import opened ApiForest
  import opened ApiSource
  import opened ApiComplete

  const PLAIN := Layout(" ", "", "", "", "")
  const DATA := PropertyLine("data", false, "{", None)
  const ID := PropertyLine("id", false, "T", None)
  const KEY := PropertyLine("key", false, "T", None)
  const MARK := Directive(" ", ServerMark, Bare, "")
  const NONSENSE := Unread("oops")

  /** A declaration with the given lines and nothing around it. */
  function Example(body: seq<string>): Listing {
    Listing([], "type T = {", body, [], "}", [])
  }

  predicate AllSingle(body: seq<string>) {
    forall k | 0 <= k < |body| :: HasNoLineEnd(body[k])
  }

  /** The given texts spell the forest, and each is a single line. */
  predicate IsBody(body: seq<string>, f: Forest) {
    ValidForest(f) && ForestTexts(f) == body && AllSingle(body)
  }

  // ----- From a body to its source text -----

  lemma ExampleOpens()
    ensures TypeName(Trim("type T = {")) == Some("T") && Trim("}") == "}"
  {
    TrimOfTrimmed("type T = {");
    TrimOfTrimmed("}");
    OpeningReads("T", " ", " ", " ");
    assert OpeningText("T", " ", " ", " ") == "type T = {";
  }

  lemma ExampleDeclares(body: seq<string>, f: Forest)
    requires IsBody(body, f)
    ensures Declares(Example(body), "T", f)
  {
    ExampleOpens();
    ForestTrimmed(f);
    forall k | 0 <= k < |body| ensures MapAll(Trim, body)[k] == body[k] {
      TrimOfTrimmed(body[k]);
    }
  }

  lemma {:induction false} JoinEnd(lines: seq<string>)
    requires lines != [] && lines[|lines| - 1] == "}"
    ensures Join(lines, "\n") != "" && Join(lines, "\n")[|Join(lines, "\n")| - 1] == '}'
  {
    if |lines| > 1 {
      JoinEnd(lines[1..]);
    }
  }

  lemma {:induction false} JoinTrimmed(lines: seq<string>)
    requires lines != [] && lines[0] == "type T = {" && lines[|lines| - 1] == "}"
    ensures IsTrimmed(Join(lines, "\n"))
  {
    JoinEnd(lines);
    assert Join(lines, "\n")[0] == lines[0][0];
  }

  lemma FrameIsSingle()
    ensures HasNoLineEnd("type T = {") && HasNoLineEnd("}")
  {
  }

  lemma ExampleLines(body: seq<string>)
    requires AllSingle(body)
    ensures AreLines(Lines(Example(body)))
  {
    var lines := Lines(Example(body));
    assert lines == ["type T = {"] + body + ["}"];
    FrameIsSingle();
    JoinTrimmed(lines);
  }

  /** What the text of a body declares, and the comments that its properties own. */
  lemma {:induction false} ExampleParses(body: seq<string>, f: Forest)
    requires IsBody(body, f)
    ensures var source := Join(Lines(Example(body)), "\n");
            Declarations(source) == Preorder(f, [], []) && OwnComments(source) == OwnForest(f)
  {
    var source := Join(Lines(Example(body)), "\n");
    ExampleLines(body);
    LinesOfText(Lines(Example(body)), "\n");
    ExampleDeclares(body, f);
    ParseOfSource(source, Example(body), "T", f);
  }

  lemma LineIsValid(line: PropertyLine)
    requires line in [DATA, ID, KEY]
    ensures ValidProperty(line, PLAIN) && PropertyText(line, PLAIN) == line.name + ": " + line.ty
  {
    assert IndexOf("{", " = ", 0) == IndexOf("T", " = ", 0) == -1;
    assert DeclarationText(line, PLAIN) == line.ty;
  }

  lemma MarkIsValid()
    ensures ValidComment(MARK) && CommentText(MARK) == "* @serverOnly"
  {
  }

  lemma LinesAreValid()
    ensures ValidProperty(DATA, PLAIN) && ValidProperty(ID, PLAIN) && ValidProperty(KEY, PLAIN) && ValidComment(MARK)
    ensures PropertyText(DATA, PLAIN) == "data: {" && PropertyText(ID, PLAIN) == "id: T"
    ensures PropertyText(KEY, PLAIN) == "key: T" && CommentText(MARK) == "* @serverOnly"
  {
    LineIsValid(DATA);
    LineIsValid(ID);
    LineIsValid(KEY);
    MarkIsValid();
  }

  lemma MarksDiffer()
    ensures Restricts(DocOf([MARK]), Client) && !Restricts(DocOf([]), Client)
            && Restricts(DocOf([MARK, NONSENSE]), Client)
    ensures !Restricts(DocOf([NONSENSE]), Client)
  {
    assert MARK in [MARK] && MARK in [MARK, NONSENSE];
  }

  // ----- A repeated object -----

  /** Two objects of one name, the first for servers only; the second holds one field. */
  function RepeatedObject(): Forest {
    Cons(Entry(DATA, PLAIN, [MARK]), Nil, [], "}",
         Cons(Entry(DATA, PLAIN, []), Cons(Entry(ID, PLAIN, []), Nil, [], "", Nil), [], "}", Nil))
  }

  const REPEATED_BODY := ["* @serverOnly", "data: {", "}", "data: {", "id: T", "}"]

  lemma RepeatedSingle()
    ensures AllSingle(REPEATED_BODY)
  {
  }

  lemma RepeatedTexts()
    ensures ValidForest(RepeatedObject()) && ForestTexts(RepeatedObject()) == REPEATED_BODY
  {
    LinesAreValid();
    var field := Cons(Entry(ID, PLAIN, []), Nil, [], "", Nil);
    var second := Cons(Entry(DATA, PLAIN, []), field, [], "}", Nil);
    FieldTexts(ID, PLAIN, Nil);
    ObjectTexts(DATA, PLAIN, field, [], "}", Nil);
    ObjectTexts(DATA, PLAIN, Nil, [], "}", second);
    FirstComment(Cons(Entry(DATA, PLAIN, []), Nil, [], "}", second), MARK);
  }

  lemma RepeatedIsBody()
    ensures IsBody(REPEATED_BODY, RepeatedObject())
  {
    RepeatedTexts();
    RepeatedSingle();
  }

  lemma RepeatedObjectRepeats()
    ensures RepeatsHidden(Preorder(RepeatedObject(), [], []), OwnForest(RepeatedObject()), Client)
  {
    var ds, owns := Preorder(RepeatedObject(), [], []), OwnForest(RepeatedObject());
    MarksDiffer();
    assert ds[0] == Declaration(DATA, DocOf([MARK]), []) && ds[1] == Declaration(DATA, DocOf([]), []);
    assert owns[0] == DocOf([MARK]) && owns[1] == DocOf([]);
    assert |Properties(ds)[0].Inner()| == 1 && Properties(ds)[1].path == [];
    assert !Encloses(Properties(ds), 0, 1);
    assert RepeatsHiddenObject(ds, owns, 0, 1, Client);
  }

  /** A source text in which an object that nothing restricts is hidden from clients all the same. */
  lemma RepeatedObjectIsHidden()
    ensures var source := Join(Lines(Example(REPEATED_BODY)), "\n");
            !FlagsInherited(Declarations(source), OwnComments(source), Parse(source).properties, Client)
  {
    RepeatedIsBody();
    ExampleParses(REPEATED_BODY, RepeatedObject());
    RepeatedObjectRepeats();
    FlagsAreInherited(Join(Lines(Example(REPEATED_BODY)), "\n"), Client);
  }

  // ----- A directive before a closer -----

  /** An object with a directive after its last field, and a field after the object. */
  function MarkedCloser(): Forest {
    Cons(Entry(DATA, PLAIN, []), Cons(Entry(ID, PLAIN, []), Nil, [], "", Nil), [MARK], "}",
         Cons(Entry(KEY, PLAIN, []), Nil, [], "", Nil))
  }

  const CLOSER_BODY := ["data: {", "id: T", "* @serverOnly", "}", "key: T"]

  lemma CloserSingle()
    ensures AllSingle(CLOSER_BODY)
  {
  }

  lemma CloserTexts()
    ensures ValidForest(MarkedCloser()) && ForestTexts(MarkedCloser()) == CLOSER_BODY
  {
    LinesAreValid();
    var key := Cons(Entry(KEY, PLAIN, []), Nil, [], "", Nil);
    FieldTexts(ID, PLAIN, Nil);
    FieldTexts(KEY, PLAIN, Nil);
    assert CommentTexts([MARK]) == ["* @serverOnly"];
    ObjectTexts(DATA, PLAIN, Cons(Entry(ID, PLAIN, []), Nil, [], "", Nil), [MARK], "}", key);
  }

  lemma CloserIsBody()
    ensures IsBody(CLOSER_BODY, MarkedCloser())
  {
    CloserTexts();
    CloserSingle();
  }

  lemma {:induction false} FieldPreorder(line: PropertyLine, path: seq<string>, pending: seq<Comment>)
    requires line.ty != "{"
    ensures Preorder(Cons(Entry(line, PLAIN, []), Nil, [], "", Nil), path, pending)
            == [Declaration(line, DocOf(pending), path)]
  {
    assert pending + [] == pending;
  }

  lemma CloserPreorder()
    ensures Preorder(MarkedCloser(), [], [])
            == [Declaration(DATA, DocOf([]), []), Declaration(ID, DocOf([]), ["data"]),
                Declaration(KEY, DocOf([MARK]), [])]
    ensures OwnForest(MarkedCloser()) == [DocOf([]), DocOf([]), DocOf([])]
  {
    FieldPreorder(ID, ["data"], []);
    FieldPreorder(KEY, [], [MARK]);
    assert LeftByFirst(MarkedCloser()) == [MARK];
    assert Declaration(DATA, DocOf([]), []).Inner() == ["data"];
  }

  lemma NoneRepeat(ds: seq<Declaration>, owns: seq<Doc>)
    requires |ds| == |owns| && forall k | 0 <= k < |owns| :: !Restricts(owns[k], Client)
    ensures !RepeatsHidden(ds, owns, Client)
    ensures forall k | 0 <= k < |ds| :: !InheritsHidden(ds, owns, k, Client)
  {
  }

  /** The field after the object is hidden, no field is restricted, and nothing is repeated. */
  lemma MarkedCloserCarries()
    ensures var ds, owns := Preorder(MarkedCloser(), [], []), OwnForest(MarkedCloser());
            |ds| == |owns| && CarriesHiddenTo(ds, owns, 2, Client) && !RepeatsHidden(ds, owns, Client)
  {
    CloserPreorder();
    MarksDiffer();
    NoneRepeat(Preorder(MarkedCloser(), [], []), OwnForest(MarkedCloser()));
  }

  /** A source text in which a directive before a closing brace hides the field after it, and nothing repeats. */
  lemma MarkedCloserIsHidden()
    ensures var source := Join(Lines(Example(CLOSER_BODY)), "\n");
            var ds, owns := Declarations(source), OwnComments(source);
            && !FlagsInherited(ds, owns, Parse(source).properties, Client)
            && |owns| == |ds| && !RepeatsHidden(ds, owns, Client)
  {
    CloserIsBody();
    ExampleParses(CLOSER_BODY, MarkedCloser());
    MarkedCloserCarries();
    FlagsAreInherited(Join(Lines(Example(CLOSER_BODY)), "\n"), Client);
  }

  // ----- A directive above a skipped line -----

  /** One field, below a directive and a line that cannot be read. */
  function MarkedNonsense(): Forest {
    Cons(Entry(ID, PLAIN, [MARK, NONSENSE]), Nil, [], "", Nil)
  }

  const NONSENSE_BODY := ["* @serverOnly", "oops", "id: T"]

  lemma NonsenseIsSkipped()
    ensures ReadLine("oops") == Skipped && ValidComment(NONSENSE)
  {
    assert IdentifierRun("oops") == 4;
  }

  lemma NonsenseSingle()
    ensures AllSingle(NONSENSE_BODY)
  {
  }

  lemma NonsenseTexts()
    ensures ValidForest(MarkedNonsense()) && ForestTexts(MarkedNonsense()) == NONSENSE_BODY
  {
    LinesAreValid();
    NonsenseIsSkipped();
    var field := Cons(Entry(ID, PLAIN, []), Nil, [], "", Nil);
    FieldTexts(ID, PLAIN, Nil);
    FirstComment(field, NONSENSE);
    FirstComment(Cons(Entry(ID, PLAIN, [NONSENSE]), Nil, [], "", Nil), MARK);
  }

  lemma NonsenseIsBody()
    ensures IsBody(NONSENSE_BODY, MarkedNonsense())
  {
    NonsenseTexts();
    NonsenseSingle();
  }

  lemma MarkedNonsenseCarries()
    ensures var ds, owns := Preorder(MarkedNonsense(), [], []), OwnForest(MarkedNonsense());
            |ds| == |owns| && CarriesHiddenTo(ds, owns, 0, Client) && !RepeatsHidden(ds, owns, Client)
  {
    MarksDiffer();
    var comments := [MARK, NONSENSE];
    assert comments[1] == NONSENSE && AfterUnread(comments) == [];
    assert [] + comments == comments;
  }

  /** A source text in which a directive above a skipped line hides the field below both. */
  lemma MarkedNonsenseIsHidden()
    ensures var source := Join(Lines(Example(NONSENSE_BODY)), "\n");
            var ds, owns := Declarations(source), OwnComments(source);
            && !FlagsInherited(ds, owns, Parse(source).properties, Client)
            && |owns| == |ds| && !RepeatsHidden(ds, owns, Client)
  {
    NonsenseIsBody();
    ExampleParses(NONSENSE_BODY, MarkedNonsense());
    MarkedNonsenseCarries();
    FlagsAreInherited(Join(Lines(Example(NONSENSE_BODY)), "\n"), Client);
  }
}
