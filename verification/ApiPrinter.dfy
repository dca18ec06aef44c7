/** The client and server example bodies: how they are printed, and how they read back. */
module ApiPrinter {
  import opened Text
  import opened PropertyForest

  const INDENTATION := "    "

  /** One printed line, before it is turned into text. */
  datatype Token =
    | Open(indent: nat, name: string, example: Option<string>, comments: seq<string>)
    | Field(indent: nat, name: string, example: Option<string>, comments: seq<string>)
    | Close(indent: nat)

  function CommentText(comments: seq<string>): string {
    if comments == [] then "" else " // " + Join(comments, ", ")
  }

  function ExampleText(example: Option<string>): string {
    if example.None? || example.value == "" then "" else ": " + example.value
  }

  function TokenText(t: Token): string {
    match t
    case Open(indent, name, example, comments) =>
      Repeat(INDENTATION, indent) + name + ExampleText(example) + ": {" + CommentText(comments) + "\n"
    case Field(indent, name, example, comments) =>
      Repeat(INDENTATION, indent) + name + ExampleText(example) + "," + CommentText(comments) + "\n"
    case Close(indent) =>
      Repeat(INDENTATION, indent) + "},\n"
  }

  function TokensText(ts: seq<Token>): string {
    Concat(TokenText, ts)
  }

  function PropertyComments(p: Property, additional: seq<string>): seq<string> {
    additional
    + (if p.optional then [] else ["required"])
    + (if p.description.None? || p.description.value == "" then [] else [p.description.value])
  }

  function PropertyToken(p: Property, indent: nat, additional: seq<string>): Token {
    if p.IsObject() then Open(indent, p.name, p.example, PropertyComments(p, additional))
    else Field(indent, p.name, p.example, PropertyComments(p, additional))
  }

  /** Closers for the objects deeper than `next`, innermost first. */
  function Closers(current: nat, next: nat, base: nat): seq<Token> {
    if current <= next then [] else [Close(current - 1 + base)] + Closers(current - 1, next, base)
  }

  function NextDepth(ps: seq<Property>, n: nat): nat {
    if n < |ps| then |ps[n].path| else 0
  }

  /** The line of property `n`, with the closers that follow it. */
  function EmitOne(ps: seq<Property>, n: nat, base: nat, additional: seq<seq<string>>): seq<Token>
    requires n < |ps| == |additional|
  {
    [PropertyToken(ps[n], |ps[n].path| + base, additional[n])] + Closers(|ps[n].Inner()|, NextDepth(ps, n + 1), base)
  }

  function Emit(ps: seq<Property>, n: nat, base: nat, additional: seq<seq<string>>): seq<Token>
    requires n <= |ps| == |additional|
  {
    if n == 0 then [] else Emit(ps, n - 1, base, additional) + EmitOne(ps, n - 1, base, additional)
  }

  // ----- The printers -----

  function BuildPropertyLine(p: Property, indentLevel: nat, additionalComments: seq<string>): (text: string)
    ensures text == TokenText(PropertyToken(p, indentLevel, additionalComments))
  {
    var comments := additionalComments;
    var comments := if !p.optional then comments + ["required"] else comments;
    var comments :=
      if p.description.Some? && p.description.value != "" then comments + [p.description.value] else comments;
    var indent := Repeat(INDENTATION, indentLevel);
    var value := if p.example.Some? && p.example.value != "" then ": " + p.example.value else "";
    var comment := if |comments| > 0 then " // " + Join(comments, ", ") else "";
    assert comments == PropertyComments(p, additionalComments);
    if p.ty == "Object" then indent + p.name + value + ": {" + comment + "\n"
    else indent + p.name + value + "," + comment + "\n"
  }

  function CloserLines(current: nat, next: nat, base: nat): string {
    if current <= next then ""
    else (Repeat(INDENTATION, current - 1 + base) + "},\n") + CloserLines(current - 1, next, base)
  }

  lemma {:induction false} CloserText(indent: nat, rest: seq<Token>)
    ensures TokensText([Close(indent)] + rest) == Repeat(INDENTATION, indent) + "},\n" + TokensText(rest)
  {
    ConcatAppend(TokenText, [Close(indent)], rest);
    ConcatOne(TokenText, Close(indent));
  }

  lemma {:induction false} ClosersText(current: nat, next: nat, base: nat)
    ensures TokensText(Closers(current, next, base)) == CloserLines(current, next, base)
  {
    if current > next {
      CloserText(current - 1 + base, Closers(current - 1, next, base));
      ClosersText(current - 1, next, base);
    }
  }

  method CloseDepths(currentDepth: nat, nextDepth: nat, baseIndentLevel: nat) returns (result: string)
    ensures result == CloserLines(currentDepth, nextDepth, baseIndentLevel)
  {
    result := "";
    var depth := currentDepth - 1;
    while depth >= nextDepth
      invariant depth == currentDepth - 1 || nextDepth - 1 <= depth < currentDepth
      invariant CloserLines(currentDepth, nextDepth, baseIndentLevel) ==
                result + (if depth < 0 then "" else CloserLines(depth + 1, nextDepth, baseIndentLevel))
    {
      var line := Repeat(INDENTATION, depth + baseIndentLevel) + "},\n";
      Associative(result, line, CloserLines(depth, nextDepth, baseIndentLevel));
      result := result + line;
      depth := depth - 1;
    }
  }

  method CloseNestedProperties(ps: seq<Property>, index: nat, baseIndentLevel: nat) returns (result: string)
    requires index < |ps|
    ensures result == TokensText(Closers(|ps[index].Inner()|, NextDepth(ps, index + 1), baseIndentLevel))
  {
    var p := ps[index];
    var currentDepth := |p.path| + if p.ty == "Object" then 1 else 0;
    var nextDepth := if index + 1 < |ps| then |ps[index + 1].path| else 0;
    assert currentDepth == |p.Inner()| && nextDepth == NextDepth(ps, index + 1);
    ClosersText(currentDepth, nextDepth, baseIndentLevel);
    if nextDepth >= currentDepth {
      result := "";
    } else {
      result := CloseDepths(currentDepth, nextDepth, baseIndentLevel);
    }
  }

  /** One property line and the closers after it. */
  method PrintProperty(ps: seq<Property>, index: nat, baseIndentLevel: nat, additional: seq<seq<string>>)
    returns (text: string)
    requires index < |ps| == |additional|
    ensures text == TokensText(EmitOne(ps, index, baseIndentLevel, additional))
  {
    var p := ps[index];
    var closers := CloseNestedProperties(ps, index, baseIndentLevel);
    text := BuildPropertyLine(p, |p.path| + baseIndentLevel, additional[index]) + closers;
    var line := PropertyToken(p, |p.path| + baseIndentLevel, additional[index]);
    ConcatAppend(TokenText, [line], Closers(|p.Inner()|, NextDepth(ps, index + 1), baseIndentLevel));
    ConcatOne(TokenText, line);
  }

  /** Every property line in turn, after an opening brace; nothing when there is no property. */
  method PrintProperties(ps: seq<Property>, baseIndentLevel: nat, additional: seq<seq<string>>)
    returns (content: string)
    requires |ps| == |additional|
    ensures content == if ps == [] then "" else "{\n" + TokensText(Emit(ps, |ps|, baseIndentLevel, additional))
  {
    content := "";
    for index := 0 to |ps|
      invariant content == if index == 0 then "" else "{\n" + TokensText(Emit(ps, index, baseIndentLevel, additional))
    {
      if content == "" {
        content := "{\n";
      }
      var text := PrintProperty(ps, index, baseIndentLevel, additional);
      var before := Emit(ps, index, baseIndentLevel, additional);
      ConcatAppend(TokenText, before, EmitOne(ps, index, baseIndentLevel, additional));
      Associative("{\n", TokensText(before), text);
      content := content + text;
    }
  }

  datatype HttpMethod = GET | POST | PUT | PATCH | DELETE

  datatype Options = Options(
    httpMethod: HttpMethod,
    forceAsBody: bool,
    forceAsParam: bool,
    forceAsQuery: bool,
    requireSession: bool,
    requireHeaders: bool,
    requireBearerToken: bool,
    headersComment: Option<string>)

  function UsesQuery(options: Options): bool {
    if options.forceAsQuery then true
    else if options.forceAsBody || options.forceAsParam then false
    else options.httpMethod == GET
  }

  function NoComments(n: nat): (cs: seq<seq<string>>)
    ensures |cs| == n && forall c | c in cs :: c == []
  {
    seq(n, _ => [])
  }

  /** The printed lines of the client example. */
  function ClientTokens(ps: seq<Property>, options: Options): seq<Token> {
    var vs := Visible(ps, Client);
    Emit(vs, |vs|, if UsesQuery(options) then 2 else 1, NoComments(|vs|))
  }

  /** The text of the client example. */
  function ClientBody(ps: seq<Property>, options: Options): string {
    if Visible(ps, Client) == [] then ""
    else if UsesQuery(options) then
      "{\n    query: " + ("{\n" + TokensText(ClientTokens(ps, options)) + "    },\n}")
    else
      "{\n" + TokensText(ClientTokens(ps, options)) + "}"
  }

  method CreateClientBody(ps: seq<Property>, options: Options) returns (body: string)
    ensures body == ClientBody(ps, options)
  {
    var query := UsesQuery(options);
    var baseIndentLevel := if query then 2 else 1;
    var clientProperties := Visible(ps, Client);
    var content := PrintProperties(clientProperties, baseIndentLevel, NoComments(|clientProperties|));
    if content == "" {
      return "";
    }
    if query {
      return "{\n    query: " + (content + "    },\n}");
    }
    return content + "}";
  }

  /** What the server printer's check decides before it writes the `server-only` comment. */
  predicate InheritedServerOnly(ps: seq<Property>, p: Property) {
    p.serverOnly &&
    !exists candidate | candidate in ps ::
        && Join(candidate.path, ".") == Join(if p.path == [] then [] else p.path[..|p.path| - 1], ".")
        && p.path != [] && candidate.name == p.path[|p.path| - 1]
  }

  function ServerComments(all: seq<Property>, ps: seq<Property>): (cs: seq<seq<string>>)
    ensures |cs| == |ps|
    ensures forall k | 0 <= k < |ps| :: cs[k] == if InheritedServerOnly(all, ps[k]) then ["server-only"] else []
  {
    seq(|ps|, k requires 0 <= k < |ps| => if InheritedServerOnly(all, ps[k]) then ["server-only"] else [])
  }

  /** The printed lines of the server example. */
  function ServerTokens(ps: seq<Property>): seq<Token> {
    var vs := Visible(ps, Server);
    Emit(vs, |vs|, 2, ServerComments(ps, vs))
  }

  const SESSION_NOTE := "This endpoint requires session cookies."
  const HEADERS_NOTE := "Pass the current request headers " + "so Better Auth can read and set cookies."
  const BEARER_NOTE := "This endpoint requires a bearer authentication token."

  function SessionText(options: Options): string {
    if options.requireSession then "\n    // " + SESSION_NOTE
    else if options.requireHeaders then
      "\n    // " + (if options.headersComment.Some? then options.headersComment.value else HEADERS_NOTE)
    else ""
  }

  function BearerText(options: Options): string {
    if options.requireBearerToken then "\n    // " + BEARER_NOTE else ""
  }

  function HeadersField(options: Options): string {
    var required := options.requireSession || options.requireHeaders;
    if required && options.requireBearerToken then
      "\n    headers: {" + ("\n        ...(await headers()),"
                            + ("\n        authorization: 'Bearer <token>'," + "\n    },"))
    else if required then "\n    headers: " + ("await headers()" + ",")
    else if options.requireBearerToken then "\n    headers: " + ("{ authorization: 'Bearer <token>' }" + ",")
    else ""
  }

  function HeadersText(options: Options): string {
    SessionText(options) + BearerText(options) + HeadersField(options)
  }

  function ServerParameter(options: Options): string {
    if UsesQuery(options) then "query" else if options.forceAsParam then "params" else "body"
  }

  /** The text of the server example. */
  function ServerBody(ps: seq<Property>, options: Options): string {
    if Visible(ps, Server) != [] then
      "{\n    " + ServerParameter(options) + ": " + ("{\n" + TokensText(ServerTokens(ps)) + "    },")
      + HeadersText(options) + "\n}"
    else if HeadersText(options) == "" then ""
    else "{" + HeadersText(options) + "\n}"
  }

  method CreateServerBody(ps: seq<Property>, options: Options) returns (body: string)
    ensures body == ServerBody(ps, options)
  {
    var serverProperties := Visible(ps, Server);
    var comments := ServerComments(ps, serverProperties);
    var content := PrintProperties(serverProperties, 2, comments);
    if content != "" {
      content := content + "    },";
    }
    var headers := HeadersText(options);
    if |serverProperties| > 0 {
      return "{\n    " + ServerParameter(options) + ": " + content + headers + "\n}";
    }
    return if headers != "" then "{" + headers + "\n}" else "";
  }
}
