/** The text of the examples of any source shows the properties that the source declares. */
module ApiSourceText {
  import opened Text
  import opened ApiLines
  import opened PropertyForest
  import opened ApiParser
  import opened ParsedForest
  import opened ApiPrinter
  import opened ApiText
  import opened ApiExampleText

  // ----- What is read of a line stays on one line -----

  predicate Single(s: string) {
    '\n' !in s
  }

  predicate SingleEvent(e: Event) {
    match e
    case ServerOnly(text) => Single(text)
    case ClientOnly(text) => Single(text)
    case Nullable(text) => Single(text)
    case Remark(text) => Single(text)
    case Member(line) =>
      IsIdentifier(line.name) && (line.example.Some? ==> Single(line.example.value))
    case _ => true
  }

  lemma {:induction false} SingleTrimStart(s: string)
    requires Single(s)
    ensures Single(TrimStart(s))
  {
    if s != "" && IsSpace(s[0]) {
      SingleTrimStart(s[1..]);
    }
  }

  lemma SingleTrim(s: string)
    requires Single(s)
    ensures Single(Trim(s))
  {
    SingleTrimStart(s);
    TrimEndPrefix(TrimStart(s));
  }

  lemma SingleDirective(value: string, directive: string)
    requires Single(value)
    ensures var read := ReadDirective(value, directive); read.Some? ==> Single(read.value)
  {
    if ReadDirective(value, directive).Some? {
      var rest := value[|directive|..];
      SingleTrimStart(rest);
      if TrimStart(rest) != "" {
        SingleTrimStart(TrimStart(rest)[1..]);
      }
      SingleTrim(DropDash(rest));
    }
  }

  lemma SingleProperty(line: string)
    requires Single(line)
    ensures var read := ParsePropertyLine(line);
            read.Some? && read.value.example.Some? ==> Single(read.value.example.value)
  {
    var read := ParsePropertyLine(line);
    if read.Some? && read.value.example.Some? {
      var n := IdentifierRun(line);
      var colon := if n < |line| && line[n] == '?' then n + 1 else n;
      SingleTrimStart(line[colon + 1..]);
      var declaration := TrimStart(line[colon + 1..]);
      var separator := IndexOf(declaration, " = ", 0);
      SingleTrim(declaration[separator + 3..]);
    }
  }

  lemma SingleLine(line: string)
    requires Single(line)
    ensures SingleEvent(ReadLine(line))
  {
    if line != "" {
      var value := Trim(line[1..]);
      SingleTrim(line[1..]);
      SingleDirective(value, "@serverOnly");
      SingleDirective(value, "@clientOnly");
      SingleDirective(value, "@nullable");
      SingleProperty(line);
    }
  }

  lemma {:induction false} SingleParts(s: string, sep: char)
    ensures forall part | part in Split(s, sep) :: sep !in part
  {
    if s != "" {
      SingleParts(s[1..], sep);
      var rest := Split(s[1..], sep);
      assert rest[0] in rest;
    }
  }

  lemma SingleEvents(source: string, start: nat)
    requires start <= |SourceLines(source)|
    ensures forall e | e in Events(SourceLines(source)[start..]) :: SingleEvent(e)
  {
    var lines := SourceLines(source)[start..];
    SingleParts(Trim(ReplaceCRLF(source)), '\n');
    forall i | 0 <= i < |lines| ensures SingleEvent(Events(lines)[i]) {
      assert lines[i] in SourceLines(source);
      SingleTrim(lines[i]);
      SingleLine(Trim(lines[i]));
      EventAt(lines, i);
    }
  }

  predicate SingleDeclaration(d: Declaration) {
    && IsIdentifier(d.line.name) && Single(d.doc.description)
    && (d.line.example.Some? ==> Single(d.line.example.value))
  }

  lemma SingleAmend(doc: Doc, e: Event)
    requires Single(doc.description) && SingleEvent(e)
    ensures Single(Amend(doc, e).description)
  {
  }

  lemma {:induction false} SingleDeclared(events: seq<Event>, path: seq<string>, doc: Doc)
    requires Single(doc.description) && forall e | e in events :: SingleEvent(e)
    ensures forall d | d in Declared(events, path, doc) :: SingleDeclaration(d)
  {
    if events != [] {
      assert SingleEvent(events[0]);
      forall e | e in events[1..] ensures SingleEvent(e) {
      }
      match events[0] {
        case Closer =>
          if path != [] {
            SingleDeclared(events[1..], path[..|path| - 1], doc);
          }
        case Member(line) => SingleDeclared(events[1..], Declaration(line, doc, path).Inner(), NO_DOC);
        case _ =>
          SingleAmend(doc, events[0]);
          SingleDeclared(events[1..], path, Amend(doc, events[0]));
      }
    }
  }

  lemma SingleDeclarations(source: string)
    ensures forall d | d in Declarations(source) :: SingleDeclaration(d)
  {
    var start := TypeStart(SourceLines(source));
    if start != -1 {
      SingleEvents(source, start + 1);
      SingleDeclared(Events(SourceLines(source)[start + 1..]), [], NO_DOC);
    }
  }

  /** A value in which nothing looks like the start of a comment. */
  predicate ValuesPlain(ps: seq<Property>) {
    forall p | p in ps :: p.example.Some? ==> NoRemark(" " + p.example.value)
  }

  lemma IdentifierIsPlain(name: string)
    requires IsIdentifier(name)
    ensures IsPlainName(name)
  {
    assert name[0] in name;
    forall c | c in name ensures c !in ":/\n" {
      assert IsIdentifierPart(c);
    }
  }

  lemma SingleDescription(description: string, text: Option<string>)
    requires Single(description) && text == if Trim(description) == "" then None else Some(Trim(description))
    ensures text.Some? ==> Single(text.value)
  {
    SingleTrim(description);
  }

  lemma ParsedPrintable(source: string, p: Property)
    requires p in Parse(source).properties && (p.example.Some? ==> NoRemark(" " + p.example.value))
    ensures IsPrintable(p)
  {
    ParsedProperties(source);
    SingleDeclarations(source);
    var ds := Declarations(source);
    var k :| 0 <= k < |ds| && Properties(ds)[k] == p;
    assert ds[k] in ds;
    IdentifierIsPlain(p.name);
    SingleDescription(ds[k].doc.description, p.description);
  }

  lemma AllPrintable(source: string, vs: seq<Property>)
    requires (forall v | v in vs :: v in Parse(source).properties) && ValuesPlain(vs)
    ensures ArePrintable(vs)
  {
    forall v | v in vs ensures IsPrintable(v) {
      ParsedPrintable(source, v);
    }
  }

  /**
   For every source text whose values hold nothing like a comment, the text of the client example
   reads back as the properties that clients see.
   */
  lemma ClientTextOfSource(source: string, options: Options)
    requires ValuesPlain(Visible(Parse(source).properties, Client))
    ensures var vs, body := Visible(Parse(source).properties, Client), ClientBody(Parse(source).properties, options);
            if vs == [] then body == ""
            else
              && ReadNotes(body) == []
              && (ReadShown(body) == Some(ClientShows(vs, options)) <==> AllUnmistakable(vs, Unmarked(|vs|)))
  {
    ParseGivesForest(source);
    AllPrintable(source, Visible(Parse(source).properties, Client));
    ClientShown(Parse(source).properties, options);
  }

  /** The same for the server example, which marks server-only properties and shows the headers. */
  lemma ServerTextOfSource(source: string, options: Options)
    requires ValuesPlain(Visible(Parse(source).properties, Server)) && HeadersPrintable(options)
    ensures var vs, body := Visible(Parse(source).properties, Server), ServerBody(Parse(source).properties, options);
            if vs == [] && !NeedsSession(options) && !options.requireBearerToken then body == ""
            else
              && ReadNotes(body) == HeaderNotes(options)
              && (ReadShown(body) == Some(ServerShows(vs, options)) <==> AllUnmistakable(vs, Marked(vs)))
  {
    ParseGivesForest(source);
    AllPrintable(source, Visible(Parse(source).properties, Server));
    ServerShown(Parse(source).properties, options);
  }
}
