/** What each parsed property holds, said of the lines that an author wrote for it. */
module ApiProperties {
  import opened Text
  import opened ApiLines
  import opened PropertyForest
  import opened ApiParser
  import opened ApiSpelling
  import opened ApiForest
  import opened ApiSource

  /** A property line, all comment lines since the property before it, and the objects it is written in. */
  datatype Written = Written(line: PropertyLine, comments: seq<Comment>, path: seq<string>)
  {
    predicate OpensObject() {
      line.ty == "{"
    }

    function Inner(): seq<string> {
      if OpensObject() then path + [line.name] else path
    }
  }

  /** The properties of a forest in the order they are written. */
  function WrittenIn(f: Forest, path: seq<string>, pending: seq<Comment>): seq<Written> {
    if f.Nil? then []
    else
      var first := Written(f.entry.line, pending + f.entry.comments, path);
      [first] + (WrittenIn(f.kids, first.Inner(), []) + WrittenIn(f.rest, path, LeftByFirst(f)))
  }

  /** The directive is among the comments of the property, or of an earlier object whose path leads to it. */
  predicate IsMarked(ws: seq<Written>, k: nat, mark: Mark)
    requires k < |ws|
  {
    || HasMark(ws[k].comments, mark)
    || exists j | 0 <= j < k :: ws[j].OpensObject() && HasMark(ws[j].comments, mark) && ws[j].Inner() <= ws[k].Inner()
  }

  /** The property says what was written for it. */
  predicate Tells(p: Property, w: Written) {
    && p.name == w.line.name && p.path == w.path
    && p.optional == w.line.optional && p.example == w.line.example
    && p.ty == (if w.OpensObject() then "Object" else w.line.ty)
    && (p.nullable <==> HasMark(w.comments, NullMark))
    && p.description == if Trim(DescriptionOf(w.comments)) == "" then None else Some(Trim(DescriptionOf(w.comments)))
  }

  predicate TellsAll(ps: seq<Property>, ws: seq<Written>) {
    && |ps| == |ws|
    && forall k | 0 <= k < |ps| ::
         && Tells(ps[k], ws[k])
         && (ps[k].serverOnly <==> IsMarked(ws, k, ServerMark))
         && (ps[k].clientOnly <==> IsMarked(ws, k, ClientMark))
  }

  // ----- Proof -----

  function Declare(w: Written): Declaration {
    Declaration(w.line, DocOf(w.comments), w.path)
  }

  lemma {:induction false} PreorderIsWritten(f: Forest, path: seq<string>, pending: seq<Comment>)
    ensures Preorder(f, path, pending) == MapAll(Declare, WrittenIn(f, path, pending))
    decreases f
  {
    if f.Cons? {
      var first := Written(f.entry.line, pending + f.entry.comments, path);
      var kids, rest := WrittenIn(f.kids, first.Inner(), []), WrittenIn(f.rest, path, LeftByFirst(f));
      PreorderIsWritten(f.kids, first.Inner(), []);
      PreorderIsWritten(f.rest, path, LeftByFirst(f));
      MapAllAppend(Declare, [first], kids + rest);
      MapAllAppend(Declare, kids, rest);
      assert MapAll(Declare, [first]) == [Declare(first)];
    }
  }

  predicate HidesWith(audience: Audience, mark: Mark) {
    if audience.Client? then mark == ServerMark else mark == ClientMark
  }

  /** Each declaration hides what was written with the mark, and nests what was written in braces. */
  predicate AllSameMarks(ws: seq<Written>, ds: seq<Declaration>, audience: Audience, mark: Mark) {
    |ds| == |ws| && forall j | 0 <= j < |ws| :: SameMarks(ws[j], ds[j], audience, mark)
  }

  lemma {:induction false} DeclaredMarks(ws: seq<Written>, ds: seq<Declaration>, audience: Audience, mark: Mark)
    requires ds == MapAll(Declare, ws) && HidesWith(audience, mark)
    ensures AllSameMarks(ws, ds, audience, mark)
  {
    forall j | 0 <= j < |ws| ensures SameMarks(ws[j], ds[j], audience, mark) {
      DeclaresMark(ws[j], audience, mark);
    }
  }

  lemma HiddenIsMarked(ws: seq<Written>, ds: seq<Declaration>, k: nat, audience: Audience, mark: Mark)
    requires AllSameMarks(ws, ds, audience, mark) && k < |ws|
    ensures IsHidden(ds, k, audience) <==> IsMarked(ws, k, mark)
  {
    assert SameMarks(ws[k], ds[k], audience, mark);
    if j :| 0 <= j <= k && ds[j].IsNested() && ds[j].Hides(audience) && ds[j].Inner() <= ds[k].Inner() {
      assert SameMarks(ws[j], ds[j], audience, mark);
    }
    if j :| 0 <= j < k && ws[j].OpensObject() && HasMark(ws[j].comments, mark) && ws[j].Inner() <= ws[k].Inner() {
      assert SameMarks(ws[j], ds[j], audience, mark);
    }
  }

  predicate SameMarks(w: Written, d: Declaration, audience: Audience, mark: Mark) {
    (d.Hides(audience) <==> HasMark(w.comments, mark)) && d.IsNested() == w.OpensObject() && d.Inner() == w.Inner()
  }

  lemma DeclaresMark(w: Written, audience: Audience, mark: Mark)
    requires HidesWith(audience, mark)
    ensures SameMarks(w, Declare(w), audience, mark)
  {
  }

  lemma {:induction false} PropertyTells(ws: seq<Written>, ds: seq<Declaration>, k: nat)
    requires ds == MapAll(Declare, ws) && k < |ws|
    ensures Tells(ToProperty(ds, k), ws[k])
  {
    assert ds[k] == Declare(ws[k]);
  }

  lemma {:induction false} PropertiesTell(ws: seq<Written>, ds: seq<Declaration>)
    requires ds == MapAll(Declare, ws)
    ensures TellsAll(Properties(ds), ws)
  {
    DeclaredMarks(ws, ds, Client, ServerMark);
    DeclaredMarks(ws, ds, Server, ClientMark);
    forall k | 0 <= k < |ws|
      ensures Tells(Properties(ds)[k], ws[k])
      ensures Properties(ds)[k].serverOnly <==> IsMarked(ws, k, ServerMark)
      ensures Properties(ds)[k].clientOnly <==> IsMarked(ws, k, ClientMark)
    {
      PropertyTells(ws, ds, k);
      HiddenIsMarked(ws, ds, k, Client, ServerMark);
      HiddenIsMarked(ws, ds, k, Server, ClientMark);
    }
  }

  /**
   The parsed properties of a source are those that were written, in order, and each says what its
   own line and the comments since the property before it say.
   */
  lemma {:induction false} PropertiesOfSource(source: string, l: Listing, name: string, f: Forest)
    requires SourceLines(source) == Lines(l) && Declares(l, name, f)
    ensures Parse(source).functionName == name
    ensures TellsAll(Parse(source).properties, WrittenIn(f, [], []))
  {
    ParseOfSource(source, l, name, f);
    PreorderIsWritten(f, [], []);
    PropertiesTell(WrittenIn(f, [], []), Preorder(f, [], []));
  }

  /** A source without a type declaration, or with one that never closes, is kept as it is. */
  lemma UnclosedSource(source: string)
    requires !Closes(source)
    ensures Parse(source) == ParsedApiMethod("", [], "", "", Trim(source))
  {
  }
}
