/** A forest of declarations, as lines in any accepted spelling and as what the parser makes of them. */
module ApiForest {
  import opened Text
  import opened ApiLines
  import opened ApiParser
  import opened ApiRestrictions
  import opened ApiSpelling

  /** A declaration as an author writes it: the lines above it, and the property line with its layout. */
  datatype Entry = Entry(line: PropertyLine, layout: Layout, comments: seq<Comment>)

  /**
   A first entry with the entries nested in it, the lines after these and the one that closes them,
   and the entries after it.
   */
  datatype Forest = Nil | Cons(entry: Entry, kids: Forest, closing: seq<Comment>, closer: string, rest: Forest)
  {
    predicate IsNested()
      requires Cons?
    {
      entry.line.ty == "{"
    }
  }

  predicate ValidComments(comments: seq<Comment>) {
    forall c | c in comments :: ValidComment(c)
  }

  predicate ValidEntry(entry: Entry) {
    ValidProperty(entry.line, entry.layout) && ValidComments(entry.comments)
  }

  predicate ValidForest(f: Forest) {
    f.Cons? ==>
      && ValidEntry(f.entry)
      && (if f.IsNested() then f.closer in CLOSERS && ValidComments(f.closing) else f.kids.Nil?)
      && ValidForest(f.kids)
      && ValidForest(f.rest)
  }

  // ----- Writing -----

  function CommentTexts(comments: seq<Comment>): seq<string> {
    MapAll(CommentText, comments)
  }

  function EntryTexts(entry: Entry): seq<string> {
    CommentTexts(entry.comments) + [PropertyText(entry.line, entry.layout)]
  }

  /** The lines that close a nested entry, after those of the entries in it. */
  function ClosingTexts(f: Forest): seq<string>
    requires f.Cons?
  {
    CommentTexts(f.closing) + [f.closer]
  }

  /** The lines of a forest, without the white space around them. */
  function ForestTexts(f: Forest): seq<string> {
    if f.Nil? then []
    else
      EntryTexts(f.entry)
      + ((if f.IsNested() then ForestTexts(f.kids) + ClosingTexts(f) else []) + ForestTexts(f.rest))
  }

  // ----- What was written -----

  /** What a note or a directive says. */
  function Said(c: Comment): string {
    if (c.Note? || c.Directive?) && c.text != "" then c.text + " " else ""
  }

  /** The texts of notes and directives, each followed by a space. */
  function DescriptionOf(comments: seq<Comment>): string {
    if comments == [] then "" else Said(comments[0]) + DescriptionOf(comments[1..])
  }

  predicate HasMark(comments: seq<Comment>, mark: Mark) {
    exists c | c in comments :: c.Directive? && c.mark == mark
  }

  /** What the parser makes of comment lines. */
  function DocOf(comments: seq<Comment>): Doc {
    Doc(DescriptionOf(comments), HasMark(comments, ServerMark), HasMark(comments, ClientMark),
        HasMark(comments, NullMark))
  }

  /** The comment lines since the last property of a forest, when `pending` ones come before it. */
  function Left(f: Forest, pending: seq<Comment>): seq<Comment>
    decreases f, 1
  {
    if f.Nil? then pending else Left(f.rest, LeftByFirst(f))
  }

  /** Those since the last property of the first entry and what is nested in it. */
  function LeftByFirst(f: Forest): seq<Comment>
    requires f.Cons?
    decreases f, 0
  {
    if f.IsNested() then Left(f.kids, []) + f.closing else []
  }

  /** The declarations in order: each gets all comment lines since the property before it. */
  function Preorder(f: Forest, path: seq<string>, pending: seq<Comment>): seq<Declaration> {
    if f.Nil? then []
    else
      var d := Declaration(f.entry.line, DocOf(pending + f.entry.comments), path);
      [d] + (Preorder(f.kids, d.Inner(), []) + Preorder(f.rest, path, LeftByFirst(f)))
  }

  /** The comment lines after the last one that the parser cannot read. */
  function AfterUnread(comments: seq<Comment>): seq<Comment> {
    if comments == [] then []
    else
      var n := |comments| - 1;
      if comments[n].Unread? then [] else AfterUnread(comments[..n]) + [comments[n]]
  }

  /** The comments that stand directly above each entry, in order. */
  function OwnForest(f: Forest): seq<Doc> {
    if f.Nil? then []
    else [DocOf(AfterUnread(f.entry.comments))] + (OwnForest(f.kids) + OwnForest(f.rest))
  }

  // ----- Reading a forest back -----

  function CommentEvents(comments: seq<Comment>): seq<Event> {
    MapAll(CommentEvent, comments)
  }

  function EntryEvents(entry: Entry): seq<Event> {
    CommentEvents(entry.comments) + [Member(entry.line)]
  }

  function ForestEvents(f: Forest): seq<Event>
    decreases f, 1
  {
    if f.Nil? then [] else EntryEvents(f.entry) + (NestedEvents(f) + ForestEvents(f.rest))
  }

  function NestedEvents(f: Forest): seq<Event>
    requires f.Cons?
    decreases f, 0
  {
    if f.IsNested() then ForestEvents(f.kids) + (CommentEvents(f.closing) + [Closer]) else []
  }

  /** The texts read as the events, one by one. */
  predicate ReadAs(texts: seq<string>, events: seq<Event>) {
    MapAll(ReadLine, texts) == events
  }

  lemma ReadAsAppend(texts: seq<string>, events: seq<Event>, texts': seq<string>, events': seq<Event>)
    requires ReadAs(texts, events) && ReadAs(texts', events')
    ensures ReadAs(texts + texts', events + events')
  {
    MapAllAppend(ReadLine, texts, texts');
  }

  lemma CommentsRead(comments: seq<Comment>)
    requires ValidComments(comments)
    ensures ReadAs(CommentTexts(comments), CommentEvents(comments))
  {
    var texts, events := CommentTexts(comments), CommentEvents(comments);
    forall k | 0 <= k < |comments| ensures MapAll(ReadLine, texts)[k] == events[k] {
      CommentReads(comments[k]);
    }
  }

  lemma OneReads(text: string, event: Event)
    requires ReadLine(text) == event
    ensures ReadAs([text], [event])
  {
  }

  lemma EntryReads(entry: Entry)
    requires ValidEntry(entry)
    ensures ReadAs(EntryTexts(entry), EntryEvents(entry))
  {
    CommentsRead(entry.comments);
    PropertyReads(entry.line, entry.layout);
    OneReads(PropertyText(entry.line, entry.layout), Member(entry.line));
    ReadAsAppend(CommentTexts(entry.comments), CommentEvents(entry.comments), [PropertyText(entry.line, entry.layout)],
                 [Member(entry.line)]);
  }

  lemma ClosingReads(f: Forest)
    requires f.Cons? && f.closer in CLOSERS && ValidComments(f.closing)
    ensures ReadAs(ClosingTexts(f), CommentEvents(f.closing) + [Closer])
  {
    CommentsRead(f.closing);
    CloserReads(f.closer);
    OneReads(f.closer, Closer);
    ReadAsAppend(CommentTexts(f.closing), CommentEvents(f.closing), [f.closer], [Closer]);
  }

  lemma {:induction false} ForestReads(f: Forest)
    requires ValidForest(f)
    ensures ReadAs(ForestTexts(f), ForestEvents(f))
  {
    if f.Cons? {
      EntryReads(f.entry);
      ForestReads(f.rest);
      var texts := [];
      if f.IsNested() {
        ForestReads(f.kids);
        ClosingReads(f);
        ReadAsAppend(ForestTexts(f.kids), ForestEvents(f.kids), ClosingTexts(f), CommentEvents(f.closing) + [Closer]);
        texts := ForestTexts(f.kids) + ClosingTexts(f);
      }
      ReadAsAppend(texts, NestedEvents(f), ForestTexts(f.rest), ForestEvents(f.rest));
      ReadAsAppend(EntryTexts(f.entry), EntryEvents(f.entry), texts + ForestTexts(f.rest),
                   NestedEvents(f) + ForestEvents(f.rest));
    }
  }

  predicate AreComments(events: seq<Event>) {
    forall e | e in events :: e != Closer && !e.Member?
  }

  function AmendAll(doc: Doc, events: seq<Event>): Doc
    decreases |events|
  {
    if events == [] then doc else AmendAll(Amend(doc, events[0]), events[1..])
  }

  lemma {:induction false} CommentsCollect(comments: seq<Event>, tail: seq<Event>, path: seq<string>, doc: Doc,
                                           depth: nat)
    requires AreComments(comments)
    ensures Declared(comments + tail, path, doc) == Declared(tail, path, AmendAll(doc, comments))
    ensures EndOfType(comments + tail, depth) ==
            if EndOfType(tail, depth) == -1 then -1 else |comments| + EndOfType(tail, depth)
  {
    if comments == [] {
      assert comments + tail == tail;
    } else {
      assert comments[0] in comments;
      assert (comments + tail)[1..] == comments[1..] + tail;
      CommentsCollect(comments[1..], tail, path, Amend(doc, comments[0]), depth);
    }
  }

  lemma {:induction false} AmendAllAppend(doc: Doc, left: seq<Event>, right: seq<Event>)
    ensures AmendAll(doc, left + right) == AmendAll(AmendAll(doc, left), right)
    decreases |left|
  {
    if left == [] {
      assert left + right == right;
    } else {
      assert (left + right)[1..] == left[1..] + right;
      AmendAllAppend(Amend(doc, left[0]), left[1..], right);
    }
  }

  lemma OneAmends(doc: Doc, c: Comment)
    requires c.Note? ==> c.text != ""
    ensures var next := Amend(doc, CommentEvent(c));
            && next.description == doc.description + Said(c)
            && next.serverOnly == (doc.serverOnly || HasMark([c], ServerMark))
            && next.clientOnly == (doc.clientOnly || HasMark([c], ClientMark))
            && next.nullable == (doc.nullable || HasMark([c], NullMark))
  {
    assert c in [c];
    if c.Note? || c.Directive? {
      Associative(doc.description, c.text, " ");
    }
    assert doc.description + "" == doc.description;
  }

  lemma FirstMark(comments: seq<Comment>, mark: Mark)
    requires comments != []
    ensures HasMark(comments, mark) <==> HasMark([comments[0]], mark) || HasMark(comments[1..], mark)
  {
    assert comments == [comments[0]] + comments[1..];
  }

  /** What a comment block makes of a record: its marks, and its texts in order. */
  function Marked(doc: Doc, comments: seq<Comment>): Doc {
    Doc(doc.description + DescriptionOf(comments),
        doc.serverOnly || HasMark(comments, ServerMark),
        doc.clientOnly || HasMark(comments, ClientMark),
        doc.nullable || HasMark(comments, NullMark))
  }

  lemma MarkedStep(doc: Doc, comments: seq<Comment>)
    requires comments != [] && ValidComment(comments[0])
    ensures Marked(Amend(doc, CommentEvent(comments[0])), comments[1..]) == Marked(doc, comments)
  {
    OneAmends(doc, comments[0]);
    FirstMark(comments, ServerMark);
    FirstMark(comments, ClientMark);
    FirstMark(comments, NullMark);
    Associative(doc.description, Said(comments[0]), DescriptionOf(comments[1..]));
  }

  lemma {:induction false} CommentsAmend(doc: Doc, comments: seq<Comment>)
    requires ValidComments(comments)
    ensures AmendAll(doc, CommentEvents(comments)) == Marked(doc, comments)
    decreases |comments|
  {
    var events := CommentEvents(comments);
    if comments == [] {
      assert doc.description + "" == doc.description;
    } else {
      assert events[0] == CommentEvent(comments[0]) && events[1..] == CommentEvents(comments[1..]);
      CommentsAmend(Amend(doc, events[0]), comments[1..]);
      MarkedStep(doc, comments);
    }
  }

  lemma CommentsAreComments(comments: seq<Comment>)
    ensures AreComments(CommentEvents(comments))
  {
  }

  lemma {:induction false} DescriptionAppend(left: seq<Comment>, right: seq<Comment>)
    ensures DescriptionOf(left + right) == DescriptionOf(left) + DescriptionOf(right)
  {
    if left == [] {
      assert left + right == right;
    } else {
      assert (left + right)[1..] == left[1..] + right;
      DescriptionAppend(left[1..], right);
      Associative(Said(left[0]), DescriptionOf(left[1..]), DescriptionOf(right));
    }
  }

  lemma MarkAppend(left: seq<Comment>, right: seq<Comment>, mark: Mark)
    ensures HasMark(left + right, mark) <==> HasMark(left, mark) || HasMark(right, mark)
  {
    if c :| c in left && c.Directive? && c.mark == mark {
      assert c in left + right;
    }
    if c :| c in right && c.Directive? && c.mark == mark {
      assert c in left + right;
    }
  }

  /** Comments collect on top of pending ones as if they were written in one place. */
  lemma PendingAmend(pending: seq<Comment>, comments: seq<Comment>)
    requires ValidComments(comments)
    ensures AmendAll(DocOf(pending), CommentEvents(comments)) == DocOf(pending + comments)
  {
    CommentsAmend(DocOf(pending), comments);
    DescriptionAppend(pending, comments);
    MarkAppend(pending, comments, ServerMark);
    MarkAppend(pending, comments, ClientMark);
    MarkAppend(pending, comments, NullMark);
  }

  lemma {:induction false} MemberDeclares(line: PropertyLine, tail: seq<Event>, path: seq<string>, doc: Doc, depth: nat)
    ensures var d := Declaration(line, doc, path);
            Declared([Member(line)] + tail, path, doc) == [d] + Declared(tail, d.Inner(), NO_DOC)
    ensures var n := EndOfType(tail, if line.ty == "{" then depth + 1 else depth);
            EndOfType([Member(line)] + tail, depth) == if n == -1 then -1 else n + 1
  {
    assert ([Member(line)] + tail)[1..] == tail;
  }

  lemma {:induction false} CloserEnds(tail: seq<Event>, path: seq<string>, doc: Doc, depth: nat)
    requires path != [] && depth > 0
    ensures Declared([Closer] + tail, path, doc) == Declared(tail, path[..|path| - 1], doc)
    ensures EndOfType([Closer] + tail, depth) ==
            if EndOfType(tail, depth - 1) == -1 then -1 else 1 + EndOfType(tail, depth - 1)
  {
    assert ([Closer] + tail)[1..] == tail;
  }

  lemma {:induction false} PendingCollect(pending: seq<Comment>, comments: seq<Comment>, tail: seq<Event>,
                                          path: seq<string>, depth: nat)
    requires ValidComments(comments)
    ensures Declared(CommentEvents(comments) + tail, path, DocOf(pending))
            == Declared(tail, path, DocOf(pending + comments))
    ensures EndOfType(CommentEvents(comments) + tail, depth) ==
            if EndOfType(tail, depth) == -1 then -1 else |comments| + EndOfType(tail, depth)
  {
    CommentsAreComments(comments);
    PendingAmend(pending, comments);
    CommentsCollect(CommentEvents(comments), tail, path, DocOf(pending), depth);
  }

  /** One entry, followed by what is nested in it and what comes after it. */
  lemma {:induction false} EntryDeclares(entry: Entry, pending: seq<Comment>, after: seq<Event>, path: seq<string>,
                                         depth: nat)
    requires ValidEntry(entry)
    ensures var d := Declaration(entry.line, DocOf(pending + entry.comments), path);
            Declared(EntryEvents(entry) + after, path, DocOf(pending)) == [d] + Declared(after, d.Inner(), NO_DOC)
    ensures var n := EndOfType(after, if entry.line.ty == "{" then depth + 1 else depth);
            EndOfType(EntryEvents(entry) + after, depth) == if n == -1 then -1 else |EntryEvents(entry)| + n
  {
    Associative(CommentEvents(entry.comments), [Member(entry.line)], after);
    PendingCollect(pending, entry.comments, [Member(entry.line)] + after, path, depth);
    MemberDeclares(entry.line, after, path, DocOf(pending + entry.comments), depth);
  }

  /** Comments before a closer, which stay pending after it. */
  lemma ClosingDeclares(closing: seq<Comment>, pending: seq<Comment>, after: seq<Event>, path: seq<string>,
                        name: string,
                        depth: nat)
    requires ValidComments(closing)
    ensures Declared((CommentEvents(closing) + [Closer]) + after, path + [name], DocOf(pending))
            == Declared(after, path, DocOf(pending + closing))
    ensures EndOfType((CommentEvents(closing) + [Closer]) + after, depth + 1) ==
            if EndOfType(after, depth) == -1 then -1 else |closing| + 1 + EndOfType(after, depth)
  {
    Associative(CommentEvents(closing), [Closer], after);
    PendingCollect(pending, closing, [Closer] + after, path + [name], depth + 1);
    CloserEnds(after, path + [name], DocOf(pending + closing), depth + 1);
    assert (path + [name])[..|path|] == path;
  }

  /** Inside any surroundings, the events of a forest declare its preorder and close every object they open. */
  lemma {:induction false} ForestDeclares(f: Forest, pending: seq<Comment>, tail: seq<Event>, path: seq<string>,
                                          depth: nat)
    requires ValidForest(f)
    ensures Declared(ForestEvents(f) + tail, path, DocOf(pending))
            == Preorder(f, path, pending) + Declared(tail, path, DocOf(Left(f, pending)))
    ensures EndOfType(ForestEvents(f) + tail, depth) ==
            if EndOfType(tail, depth) == -1 then -1 else |ForestEvents(f)| + EndOfType(tail, depth)
    decreases f, 1
  {
    if f.Nil? {
      assert ForestEvents(f) + tail == tail;
    } else {
      var d := Declaration(f.entry.line, DocOf(pending + f.entry.comments), path);
      var after := ForestEvents(f.rest) + tail;
      Associative(EntryEvents(f.entry), NestedEvents(f) + ForestEvents(f.rest), tail);
      Associative(NestedEvents(f), ForestEvents(f.rest), tail);
      EntryDeclares(f.entry, pending, NestedEvents(f) + after, path, depth);
      NestedDeclares(f, after, path, depth);
      ForestDeclares(f.rest, LeftByFirst(f), tail, path, depth);
      var last := Declared(tail, path, DocOf(Left(f, pending)));
      Associative([d], Preorder(f.kids, d.Inner(), []) + Preorder(f.rest, path, LeftByFirst(f)), last);
      Associative(Preorder(f.kids, d.Inner(), []), Preorder(f.rest, path, LeftByFirst(f)), last);
    }
  }

  lemma {:induction false} NestedDeclares(f: Forest, after: seq<Event>, path: seq<string>, depth: nat)
    requires ValidForest(f) && f.Cons?
    ensures var inner := Declaration(f.entry.line, NO_DOC, path).Inner();
            Declared(NestedEvents(f) + after, inner, NO_DOC)
            == Preorder(f.kids, inner, []) + Declared(after, path, DocOf(LeftByFirst(f)))
    ensures EndOfType(NestedEvents(f) + after, if f.IsNested() then depth + 1 else depth) ==
            if EndOfType(after, depth) == -1 then -1 else |NestedEvents(f)| + EndOfType(after, depth)
    decreases f, 0
  {
    assert DocOf([]) == NO_DOC;
    if f.IsNested() {
      var closing := CommentEvents(f.closing) + [Closer];
      Associative(ForestEvents(f.kids), closing, after);
      ForestDeclares(f.kids, [], closing + after, path + [f.entry.line.name], depth + 1);
      ClosingDeclares(f.closing, Left(f.kids, []), after, path, f.entry.line.name, depth);
    } else {
      assert NestedEvents(f) + after == after;
    }
  }

  // ----- The own comments of a forest -----

  /** What comment lines amount to that start anew after a skipped line. */
  function OwnAll(own: Doc, events: seq<Event>): Doc
    decreases |events|
  {
    if events == [] then own
    else OwnAll(if events[0] == Skipped then NO_DOC else Amend(own, events[0]), events[1..])
  }

  lemma {:induction false} OwnedCollect(comments: seq<Event>, tail: seq<Event>, path: seq<string>, own: Doc)
    requires AreComments(comments)
    ensures Owned(comments + tail, path, own) == Owned(tail, path, OwnAll(own, comments))
  {
    if comments == [] {
      assert comments + tail == tail;
    } else {
      assert comments[0] in comments;
      assert (comments + tail)[1..] == comments[1..] + tail;
      forall e | e in comments[1..] ensures e in comments {
      }
      OwnedCollect(comments[1..], tail, path, if comments[0] == Skipped then NO_DOC else Amend(own, comments[0]));
    }
  }

  lemma {:induction false} OwnAllLast(own: Doc, events: seq<Event>, e: Event)
    ensures OwnAll(own, events + [e]) == if e == Skipped then NO_DOC else Amend(OwnAll(own, events), e)
    decreases |events|
  {
    if events == [] {
      assert (events + [e])[1..] == [];
    } else {
      assert (events + [e])[1..] == events[1..] + [e];
      OwnAllLast(if events[0] == Skipped then NO_DOC else Amend(own, events[0]), events[1..], e);
    }
  }

  lemma UnreadIsSkipped(c: Comment)
    ensures CommentEvent(c) == Skipped <==> c.Unread?
  {
  }

  lemma AmendLast(comments: seq<Comment>, c: Comment)
    requires ValidComment(c)
    ensures Amend(DocOf(comments), CommentEvent(c)) == DocOf(comments + [c])
  {
    PendingAmend(comments, [c]);
    assert CommentEvents([c]) == [CommentEvent(c)];
    assert AmendAll(DocOf(comments), [CommentEvent(c)]) == Amend(DocOf(comments), CommentEvent(c));
  }

  lemma {:induction false} OwnStep(before: seq<Comment>, c: Comment)
    requires ValidComment(c) && OwnAll(NO_DOC, CommentEvents(before)) == DocOf(AfterUnread(before))
    ensures OwnAll(NO_DOC, CommentEvents(before + [c])) == DocOf(AfterUnread(before + [c]))
  {
    MapAllAppend(CommentEvent, before, [c]);
    assert CommentEvents([c]) == [CommentEvent(c)];
    OwnAllLast(NO_DOC, CommentEvents(before), CommentEvent(c));
    UnreadIsSkipped(c);
    AmendLast(AfterUnread(before), c);
    assert (before + [c])[..|before|] == before;
  }

  lemma {:induction false} OwnOfComments(comments: seq<Comment>)
    requires ValidComments(comments)
    ensures OwnAll(NO_DOC, CommentEvents(comments)) == DocOf(AfterUnread(comments))
  {
    if comments != [] {
      var n := |comments| - 1;
      OwnOfComments(comments[..n]);
      OwnStep(comments[..n], comments[n]);
      assert comments == comments[..n] + [comments[n]];
    }
  }

  lemma {:induction false} MemberOwns(line: PropertyLine, own: Doc, after: seq<Event>, path: seq<string>)
    ensures Owned([Member(line)] + after, path, own)
            == [own] + Owned(after, Declaration(line, NO_DOC, path).Inner(), NO_DOC)
  {
    assert ([Member(line)] + after)[1..] == after;
  }

  lemma {:induction false} EntryOwns(entry: Entry, after: seq<Event>, path: seq<string>)
    requires ValidEntry(entry)
    ensures Owned(EntryEvents(entry) + after, path, NO_DOC)
            == [DocOf(AfterUnread(entry.comments))]
               + Owned(after, Declaration(entry.line, NO_DOC, path).Inner(), NO_DOC)
  {
    Associative(CommentEvents(entry.comments), [Member(entry.line)], after);
    CommentsAreComments(entry.comments);
    OwnedCollect(CommentEvents(entry.comments), [Member(entry.line)] + after, path, NO_DOC);
    OwnOfComments(entry.comments);
    MemberOwns(entry.line, DocOf(AfterUnread(entry.comments)), after, path);
  }

  lemma {:induction false} ClosingOwns(closing: seq<Comment>, after: seq<Event>, path: seq<string>, name: string)
    ensures Owned((CommentEvents(closing) + [Closer]) + after, path + [name], NO_DOC) == Owned(after, path, NO_DOC)
  {
    Associative(CommentEvents(closing), [Closer], after);
    CommentsAreComments(closing);
    OwnedCollect(CommentEvents(closing), [Closer] + after, path + [name], NO_DOC);
    assert ([Closer] + after)[1..] == after && (path + [name])[..|path|] == path;
  }

  /** The events of a forest own its entries' own comments; those before a closer are nobody's. */
  lemma {:induction false} ForestOwns(f: Forest, tail: seq<Event>, path: seq<string>)
    requires ValidForest(f)
    ensures Owned(ForestEvents(f) + tail, path, NO_DOC) == OwnForest(f) + Owned(tail, path, NO_DOC)
    decreases f, 1
  {
    if f.Nil? {
      assert ForestEvents(f) + tail == tail;
    } else {
      var own := DocOf(AfterUnread(f.entry.comments));
      var after := ForestEvents(f.rest) + tail;
      Associative(EntryEvents(f.entry), NestedEvents(f) + ForestEvents(f.rest), tail);
      Associative(NestedEvents(f), ForestEvents(f.rest), tail);
      EntryOwns(f.entry, NestedEvents(f) + after, path);
      NestedOwns(f, after, path);
      ForestOwns(f.rest, tail, path);
      var last := Owned(tail, path, NO_DOC);
      Associative([own], OwnForest(f.kids) + OwnForest(f.rest), last);
      Associative(OwnForest(f.kids), OwnForest(f.rest), last);
    }
  }

  lemma {:induction false} NestedOwns(f: Forest, after: seq<Event>, path: seq<string>)
    requires ValidForest(f) && f.Cons?
    ensures Owned(NestedEvents(f) + after, Declaration(f.entry.line, NO_DOC, path).Inner(), NO_DOC)
            == OwnForest(f.kids) + Owned(after, path, NO_DOC)
    decreases f, 0
  {
    if f.IsNested() {
      var closing := CommentEvents(f.closing) + [Closer];
      Associative(ForestEvents(f.kids), closing, after);
      ForestOwns(f.kids, closing + after, path + [f.entry.line.name]);
      ClosingOwns(f.closing, after, path, f.entry.line.name);
    } else {
      assert NestedEvents(f) + after == after;
    }
  }
}
