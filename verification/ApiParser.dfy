/** The API-method parser: its reference reading and the line scanner that computes it. */
module ApiParser {
  import opened Text
  import opened ApiLines
  import opened PropertyForest

  datatype ParsedApiMethod = ParsedApiMethod(
    functionName: string,
    properties: seq<Property>,
    codePrefix: string,
    codeSuffix: string,
    typeDefinition: string)

  /** The comment text and directives collected since the last property. */
  datatype Doc = Doc(description: string, serverOnly: bool, clientOnly: bool, nullable: bool)

  const NO_DOC := Doc("", false, false, false)

  function AddText(doc: Doc, text: string): Doc {
    if text == "" then doc else doc.(description := doc.description + text + " ")
  }

  function Amend(doc: Doc, e: Event): Doc {
    match e
    case ServerOnly(text) => AddText(doc.(serverOnly := true), text)
    case ClientOnly(text) => AddText(doc.(clientOnly := true), text)
    case Nullable(text) => AddText(doc.(nullable := true), text)
    case Remark(text) => doc.(description := doc.description + text + " ")
    case _ => doc
  }

  // ----- Reference reading -----

  /** A declared property with the comments above it and the objects it is nested in. */
  datatype Declaration = Declaration(line: PropertyLine, doc: Doc, path: seq<string>)
  {
    predicate IsNested() {
      line.ty == "{"
    }

    function Inner(): (inner: seq<string>)
      ensures path <= inner
    {
      if IsNested() then path + [line.name] else path
    }

    /** Whether the property's own comment hides it from `audience`. */
    predicate Hides(audience: Audience) {
      match audience
      case Client => doc.serverOnly
      case Server => doc.clientOnly
    }
  }

  function ReadTrimmed(line: string): Event {
    ReadLine(Trim(line))
  }

  function Events(lines: seq<string>): (events: seq<Event>)
    ensures |events| == |lines|
  {
    MapAll(ReadTrimmed, lines)
  }

  lemma EventAt(lines: seq<string>, i: nat)
    requires i < |lines|
    ensures Events(lines)[i] == ReadLine(Trim(lines[i]))
  {
  }

  /** The properties declared before the closer that matches the type's opening brace. */
  function Declared(events: seq<Event>, path: seq<string>, doc: Doc): seq<Declaration> {
    if events == [] then []
    else
      match events[0]
      case Closer =>
        if path == [] then [] else Declared(events[1..], path[..|path| - 1], doc)
      case Member(line) =>
        var d := Declaration(line, doc, path);
        [d] + Declared(events[1..], d.Inner(), NO_DOC)
      case _ =>
        Declared(events[1..], path, Amend(doc, events[0]))
  }

  /** How many events precede the closer that ends the type; -1 when it never ends. */
  function EndOfType(events: seq<Event>, depth: nat): (n: int)
    ensures -1 <= n < |events|
  {
    if events == [] then -1
    else if events[0] == Closer && depth == 0 then 0
    else
      var next :=
        if events[0] == Closer then depth - 1
        else if events[0].Member? && events[0].line.ty == "{" then depth + 1
        else depth;
      var n := EndOfType(events[1..], next);
      if n == -1 then -1 else n + 1
  }

  /**
   A property is hidden by its own directive, or by the directive of an object declared no later
   whose dotted path leads to it.
   */
  predicate IsHidden(ds: seq<Declaration>, k: nat, audience: Audience)
    requires k < |ds|
  {
    || ds[k].Hides(audience)
    || exists j | 0 <= j <= k :: ds[j].IsNested() && ds[j].Hides(audience) && ds[j].Inner() <= ds[k].Inner()
  }

  function ToProperty(ds: seq<Declaration>, k: nat): Property
    requires k < |ds|
  {
    var d := ds[k];
    var description := Trim(d.doc.description);
    Property(
      d.line.name,
      d.line.optional,
      if d.IsNested() then "Object" else d.line.ty,
      d.line.example,
      if description == "" then None else Some(description),
      IsHidden(ds, k, Client),
      IsHidden(ds, k, Server),
      d.doc.nullable,
      d.path)
  }

  function Properties(ds: seq<Declaration>): (ps: seq<Property>)
    ensures |ps| == |ds|
    ensures forall k | 0 <= k < |ds| :: ps[k] == ToProperty(ds, k)
  {
    seq(|ds|, k requires 0 <= k < |ds| => ToProperty(ds, k))
  }

  function SourceLines(source: string): (lines: seq<string>)
    ensures |lines| > 0
  {
    Split(Trim(ReplaceCRLF(source)), '\n')
  }

  predicate IsTypeLine(line: string) {
    TypeName(Trim(line)).Some?
  }

  /** Index of the line that opens the type declaration; -1 when there is none. */
  function TypeStart(lines: seq<string>): (n: int)
    ensures -1 <= n < |lines|
    ensures n >= 0 ==> IsTypeLine(lines[n])
  {
    if lines == [] then -1
    else if IsTypeLine(lines[0]) then 0
    else
      var n := TypeStart(lines[1..]);
      if n == -1 then -1 else n + 1
  }

  function Unparsed(source: string): ParsedApiMethod {
    ParsedApiMethod("", [], "", "", Trim(source))
  }

  /** The parsed method, with the code around the declaration kept apart from it. */
  function Assemble(lines: seq<string>, start: nat, end: nat, functionName: string, properties: seq<Property>)
    : ParsedApiMethod
    requires start <= end < |lines|
  {
    var prefix := Trim(Join(lines[..start], "\n"));
    var suffix := Trim(Join(lines[end + 1..], "\n"));
    ParsedApiMethod(
      functionName,
      properties,
      if prefix == "" then "" else prefix + "\n",
      if suffix == "" then "" else "\n" + suffix,
      Join(lines[start..end + 1], "\n"))
  }

  function Parse(source: string): ParsedApiMethod {
    var lines := SourceLines(source);
    var start := TypeStart(lines);
    if start == -1 then Unparsed(source) else ParseFrom(source, lines, start)
  }

  function ParseFrom(source: string, lines: seq<string>, start: nat): ParsedApiMethod
    requires start < |lines| && IsTypeLine(lines[start])
  {
    Finish(source, lines, start, ReadType(Events(lines[start + 1..])))
  }

  /** Where the declaration closes and what it declares; nothing when it never closes. */
  function ReadType(events: seq<Event>): (r: Option<(nat, seq<Property>)>)
    ensures r.Some? ==> r.value.0 < |events|
  {
    var size := EndOfType(events, 0);
    if size == -1 then None else Some((size, Properties(Declared(events, [], NO_DOC))))
  }

  function Finish(source: string, lines: seq<string>, start: nat, read: Option<(nat, seq<Property>)>): ParsedApiMethod
    requires start < |lines| && IsTypeLine(lines[start])
    requires read.Some? ==> start + 1 + read.value.0 < |lines|
  {
    if read.None? then Unparsed(source)
    else
      var functionName := TypeName(Trim(lines[start])).value;
      Assemble(lines, start, start + 1 + read.value.0, functionName, read.value.1)
  }

  // ----- The scanner's sets of restricted paths -----

  function Key(path: seq<string>): string {
    Join(path, ".")
  }

  predicate DotFree(path: seq<string>) {
    forall name | name in path :: '.' !in name
  }

  predicate DotFreePaths(ds: seq<Declaration>) {
    forall d | d in ds :: DotFree(d.Inner())
  }

  function RestrictedKeys(ds: seq<Declaration>, audience: Audience): set<string> {
    set d | d in ds && d.IsNested() && d.Hides(audience) :: Key(d.Inner())
  }

  ghost predicate HasRestrictedPrefix(restrictedPaths: set<string>, path: seq<string>) {
    exists n :: 0 < n <= |path| && Key(path[..n]) in restrictedPaths
  }

  method IsPathRestricted(restrictedPaths: set<string>, path: seq<string>) returns (restricted: bool)
    ensures restricted <==> HasRestrictedPrefix(restrictedPaths, path)
  {
    var length := 1;
    while length <= |path|
      invariant 1 <= length <= |path| + 1
      invariant forall n :: 0 < n < length ==> Key(path[..n]) !in restrictedPaths
    {
      if Key(path[..length]) in restrictedPaths {
        return true;
      }
      length := length + 1;
    }
    return false;
  }

  /** Looking prefixes up by their dotted keys agrees with comparing the paths themselves. */
  lemma RestrictedKeysDecide(ds: seq<Declaration>, k: nat, audience: Audience)
    requires |ds| == k + 1 && DotFreePaths(ds)
    ensures IsHidden(ds, k, audience) <==>
            || ds[k].Hides(audience)
            || HasRestrictedPrefix(RestrictedKeys(ds, audience), ds[k].Inner())
  {
    var path := ds[k].Inner();
    if j :| 0 <= j <= k && ds[j].IsNested() && ds[j].Hides(audience) && ds[j].Inner() <= path {
      var n := |ds[j].Inner()|;
      assert path[..n] == ds[j].Inner();
      assert Key(path[..n]) in RestrictedKeys(ds, audience);
    }
    if n :| 0 < n <= |path| && Key(path[..n]) in RestrictedKeys(ds, audience) {
      var d :| d in ds && d.IsNested() && d.Hides(audience) && Key(d.Inner()) == Key(path[..n]);
      JoinInjective(d.Inner(), path[..n], '.');
      var j :| 0 <= j < |ds| && ds[j] == d;
      assert ds[j].Inner() <= path;
    }
  }

  lemma PropertiesAppend(ds: seq<Declaration>, d: Declaration)
    ensures Properties(ds + [d]) == Properties(ds) + [ToProperty(ds + [d], |ds|)]
  {
    var all := ds + [d];
    forall k | 0 <= k < |ds| ensures ToProperty(all, k) == ToProperty(ds, k) {
      forall audience ensures IsHidden(all, k, audience) == IsHidden(ds, k, audience) {
        assert forall j | 0 <= j <= k :: all[j] == ds[j];
      }
    }
  }

  lemma RestrictedKeysAppend(ds: seq<Declaration>, d: Declaration, audience: Audience)
    ensures RestrictedKeys(ds + [d], audience) ==
            RestrictedKeys(ds, audience) + (if d.IsNested() && d.Hides(audience) then {Key(d.Inner())} else {})
  {
    assert forall x :: x in ds + [d] <==> x in ds || x == d;
  }

  // ----- The scanner -----

  /** The scanner's variables while it is inside the type declaration. */
  datatype Scan = Scan(
    properties: seq<Property>,
    nestedPath: seq<string>,
    serverOnlyPaths: set<string>,
    clientOnlyPaths: set<string>,
    doc: Doc)

  const SCAN_START := Scan([], [], {}, {}, NO_DOC)

  /** The scanner's collections agree with the declarations read so far. */
  ghost predicate Collected(ds: seq<Declaration>, scan: Scan) {
    && scan.properties == Properties(ds)
    && scan.serverOnlyPaths == RestrictedKeys(ds, Client)
    && scan.clientOnlyPaths == RestrictedKeys(ds, Server)
    && DotFreePaths(ds)
    && DotFree(scan.nestedPath)
  }

  /** The declarations of the whole type and where it ends. */
  ghost function Whole(all: seq<Event>): (seq<Declaration>, int) {
    (Declared(all, [], NO_DOC), EndOfType(all, 0))
  }

  /** The same, from what has been read and what is still to be read. */
  ghost function ReadAndUnread(all: seq<Event>, ds: seq<Declaration>, done: nat, path: seq<string>, doc: Doc)
    : (seq<Declaration>, int)
    requires done <= |all|
  {
    var n := EndOfType(all[done..], |path|);
    (ds + Declared(all[done..], path, doc), if n == -1 then -1 else done + n)
  }

  lemma StartReading(all: seq<Event>)
    ensures Whole(all) == ReadAndUnread(all, [], 0, [], NO_DOC)
  {
    assert all[0..] == all;
    assert [] + Declared(all, [], NO_DOC) == Declared(all, [], NO_DOC);
  }

  lemma StepCloser(all: seq<Event>, ds: seq<Declaration>, done: nat, path: seq<string>, doc: Doc)
    requires done < |all| && Whole(all) == ReadAndUnread(all, ds, done, path, doc) && all[done] == Closer
    ensures path == [] ==> Whole(all) == (ds, done)
    ensures path != [] ==> Whole(all) == ReadAndUnread(all, ds, done + 1, path[..|path| - 1], doc)
  {
    assert ds + [] == ds;
    var rest := all[done..];
    assert rest[0] == all[done] && rest[1..] == all[done + 1..];
  }

  lemma StepProperty(all: seq<Event>, ds: seq<Declaration>, done: nat, path: seq<string>, doc: Doc)
    requires done < |all| && Whole(all) == ReadAndUnread(all, ds, done, path, doc) && all[done].Member?
    ensures var d := Declaration(all[done].line, doc, path);
            Whole(all) == ReadAndUnread(all, ds + [d], done + 1, d.Inner(), NO_DOC)
  {
    var rest := all[done..];
    var d := Declaration(all[done].line, doc, path);
    var unread := Declared(all[done + 1..], d.Inner(), NO_DOC);
    assert rest[0] == all[done] && rest[1..] == all[done + 1..];
    assert ds + ([d] + unread) == ds + [d] + unread;
  }

  lemma StepComment(all: seq<Event>, ds: seq<Declaration>, done: nat, path: seq<string>, doc: Doc)
    requires done < |all| && Whole(all) == ReadAndUnread(all, ds, done, path, doc) && all[done] != Closer
             && !all[done].Member?
    ensures Whole(all) == ReadAndUnread(all, ds, done + 1, path, Amend(doc, all[done]))
  {
    var rest := all[done..];
    assert rest[0] == all[done] && rest[1..] == all[done + 1..];
  }

  lemma {:induction false} NeverEnds(all: seq<Event>, ds: seq<Declaration>, path: seq<string>, doc: Doc)
    requires Whole(all) == ReadAndUnread(all, ds, |all|, path, doc)
    ensures EndOfType(all, 0) == -1
  {
    assert all[|all|..] == [];
  }

  lemma CollectedAppend(ds: seq<Declaration>, d: Declaration, scan: Scan)
    requires Collected(ds, scan) && d.path == scan.nestedPath && IsIdentifier(d.line.name)
    ensures var server := if d.IsNested() && d.Hides(Client) then {Key(d.Inner())} else {};
            var client := if d.IsNested() && d.Hides(Server) then {Key(d.Inner())} else {};
            var next := Scan(scan.properties + [ToProperty(ds + [d], |ds|)], d.Inner(),
                             scan.serverOnlyPaths + server, scan.clientOnlyPaths + client, NO_DOC);
            && Collected(ds + [d], next)
            && (IsHidden(ds + [d], |ds|, Client)
                <==> d.Hides(Client) || HasRestrictedPrefix(next.serverOnlyPaths, d.Inner()))
            && (IsHidden(ds + [d], |ds|, Server)
                <==> d.Hides(Server) || HasRestrictedPrefix(next.clientOnlyPaths, d.Inner()))
  {
    IdentifierHasNoDot(d.line.name);
    RestrictedKeysAppend(ds, d, Client);
    RestrictedKeysAppend(ds, d, Server);
    RestrictedKeysDecide(ds + [d], |ds|, Client);
    RestrictedKeysDecide(ds + [d], |ds|, Server);
    PropertiesAppend(ds, d);
  }

  /** One property line: opens its object, notes its restrictions and adds it to the list. */
  method ScanProperty(line: PropertyLine, scan: Scan, ghost ds: seq<Declaration>) returns (next: Scan)
    requires Collected(ds, scan) && IsIdentifier(line.name)
    ensures var d := Declaration(line, scan.doc, scan.nestedPath);
            Collected(ds + [d], next) && next.nestedPath == d.Inner() && next.doc == NO_DOC
  {
    CollectedAppend(ds, Declaration(line, scan.doc, scan.nestedPath), scan);

    var nestedPath := scan.nestedPath;
    var serverOnlyPaths, clientOnlyPaths := scan.serverOnlyPaths, scan.clientOnlyPaths;
    var nested := line.ty == "{";
    if nested {
      nestedPath := nestedPath + [line.name];
      if scan.doc.serverOnly {
        serverOnlyPaths := serverOnlyPaths + {Key(nestedPath)};
      }
      if scan.doc.clientOnly {
        clientOnlyPaths := clientOnlyPaths + {Key(nestedPath)};
      }
    }
    var serverRestricted := IsPathRestricted(serverOnlyPaths, nestedPath);
    var clientRestricted := IsPathRestricted(clientOnlyPaths, nestedPath);
    var description := Trim(scan.doc.description);
    var property := Property(
      line.name,
      line.optional,
      if nested then "Object" else line.ty,
      line.example,
      if description == "" then None else Some(description),
      scan.doc.serverOnly || serverRestricted,
      scan.doc.clientOnly || clientRestricted,
      scan.doc.nullable,
      scan.nestedPath);
    next := Scan(scan.properties + [property], nestedPath, serverOnlyPaths, clientOnlyPaths, NO_DOC);
  }

  /** One line inside the type declaration; `ended` when it closes the declaration itself. */
  method ScanLine(line: string, scan: Scan, ghost lines: seq<string>, ghost done: nat, ghost ds: seq<Declaration>)
    returns (ended: bool, next: Scan, ghost ds': seq<Declaration>)
    requires done < |lines| && line == Trim(lines[done])
    requires Collected(ds, scan)
    requires Whole(Events(lines)) == ReadAndUnread(Events(lines), ds, done, scan.nestedPath, scan.doc)
    ensures Collected(ds', next)
    ensures ended ==> Whole(Events(lines)) == (ds', done)
    ensures !ended ==> Whole(Events(lines)) == ReadAndUnread(Events(lines), ds', done + 1, next.nestedPath, next.doc)
  {
    EventAt(lines, done);
    next, ds', ended := scan, ds, false;
    match ReadLine(line) {
      case Closer =>
        StepCloser(Events(lines), ds, done, scan.nestedPath, scan.doc);
        if |scan.nestedPath| == 0 {
          ended := true;
        } else {
          next := scan.(nestedPath := scan.nestedPath[..|scan.nestedPath| - 1]);
        }
      case Member(property) =>
        StepProperty(Events(lines), ds, done, scan.nestedPath, scan.doc);
        ds' := ds + [Declaration(property, scan.doc, scan.nestedPath)];
        next := ScanProperty(property, scan, ds);
      case e =>
        StepComment(Events(lines), ds, done, scan.nestedPath, scan.doc);
        next := scan.(doc := Amend(scan.doc, e));
    }
  }

  lemma {:induction false} TypeStartFirst(lines: seq<string>, n: nat)
    requires n <= |lines| && forall k | 0 <= k < n :: !IsTypeLine(lines[k])
    requires n < |lines| ==> IsTypeLine(lines[n])
    ensures TypeStart(lines) == if n < |lines| then n else -1
  {
    if n > 0 {
      TypeStartFirst(lines[1..], n - 1);
    }
  }

  /** The scanner's passes over the lines before the declaration. */
  method FindType(lines: seq<string>) returns (typeStart: int)
    ensures typeStart == TypeStart(lines)
  {
    var index := 0;
    while index < |lines|
      invariant 0 <= index <= |lines| && forall k | 0 <= k < index :: !IsTypeLine(lines[k])
    {
      if TypeName(Trim(lines[index])).Some? {
        TypeStartFirst(lines, index);
        return index;
      }
      index := index + 1;
    }
    TypeStartFirst(lines, index);
    return -1;
  }

  /** The scanner's passes over the lines of the declaration. */
  method ScanType(lines: seq<string>) returns (read: Option<(nat, seq<Property>)>)
    ensures read == ReadType(Events(lines))
  {
    var scan := SCAN_START;
    ghost var ds: seq<Declaration> := [];
    StartReading(Events(lines));
    var index := 0;
    while index < |lines|
      invariant 0 <= index <= |lines| && Collected(ds, scan)
      invariant Whole(Events(lines)) == ReadAndUnread(Events(lines), ds, index, scan.nestedPath, scan.doc)
    {
      var ended;
      ended, scan, ds := ScanLine(Trim(lines[index]), scan, lines, index, ds);
      if ended {
        return Some((index, scan.properties));
      }
      index := index + 1;
    }
    NeverEnds(Events(lines), ds, scan.nestedPath, scan.doc);
    return None;
  }

  method ParseType(source: string, lines: seq<string>, typeStart: nat) returns (r: ParsedApiMethod)
    requires typeStart < |lines| && IsTypeLine(lines[typeStart])
    ensures r == ParseFrom(source, lines, typeStart)
  {
    var read := ScanType(lines[typeStart + 1..]);
    r := Finish(source, lines, typeStart, read);
  }

  /** The scanner's loop skips lines until the declaration opens and then reads it to its end. */
  method ParseApiMethod(source: string) returns (r: ParsedApiMethod)
    ensures r == Parse(source)
  {
    var lines := SourceLines(source);
    var typeStart := FindType(lines);
    if typeStart == -1 {
      return Unparsed(source);
    }
    r := ParseType(source, lines, typeStart);
  }
}
