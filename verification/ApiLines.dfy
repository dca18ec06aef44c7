/** How one trimmed line of a type declaration is read. */
module ApiLines {
  import opened Text

  datatype PropertyLine = PropertyLine(
    name: string,
    optional: bool,
    ty: string,
    example: Option<string>)

  /**
   What the scanner does with a line inside the type declaration. Two kinds of line change nothing:
   `Ignored` ones have nothing to say, and `Skipped` ones say something that the scanner cannot read.
   */
  datatype Event =
    | Closer
    | Ignored
    | Skipped
    | ServerOnly(text: string)
    | ClientOnly(text: string)
    | Nullable(text: string)
    | Remark(text: string)
    | Member(line: PropertyLine)

  predicate IsIdentifierStart(c: char) {
    'A' <= c <= 'Z' || 'a' <= c <= 'z' || c == '_' || c == '$'
  }

  predicate IsIdentifierPart(c: char) {
    IsIdentifierStart(c) || '0' <= c <= '9'
  }

  predicate IsIdentifier(s: string) {
    && s != ""
    && IsIdentifierStart(s[0])
    && forall c | c in s :: IsIdentifierPart(c)
  }

  /** Length of the longest run of identifier characters at the start of `s`. */
  function PartRun(s: string): (n: nat)
    ensures n <= |s|
    ensures forall c | c in s[..n] :: IsIdentifierPart(c)
    ensures n < |s| ==> !IsIdentifierPart(s[n])
  {
    if s != "" && IsIdentifierPart(s[0]) then 1 + PartRun(s[1..]) else 0
  }

  /** Length of the identifier that `s` starts with; 0 when there is none. */
  function IdentifierRun(s: string): (n: nat)
    ensures n <= |s|
    ensures n > 0 ==> IsIdentifier(s[..n])
  {
    if s != "" && IsIdentifierStart(s[0]) then PartRun(s) else 0
  }

  /** `type <name> = {`, with any white space where the pattern allows it. */
  function TypeName(line: string): (r: Option<string>)
    ensures r.Some? ==> IsIdentifier(r.value)
  {
    if !("type" <= line) || |line| == 4 || !IsSpace(line[4]) then None
    else
      var afterKeyword := TrimStart(line[4..]);
      var n := IdentifierRun(afterKeyword);
      var afterName := TrimStart(afterKeyword[n..]);
      if n == 0 || !("=" <= afterName) || TrimStart(afterName[1..]) != "{" then None
      else Some(afterKeyword[..n])
  }

  /** Drops one trailing `;` or `,`. */
  function DropTerminator(s: string): string {
    if s != "" && s[|s| - 1] in ";," then s[..|s| - 1] else s
  }

  /** `<name>?: <type> = <example>` on a trimmed line. */
  function ParsePropertyLine(line: string): (r: Option<PropertyLine>)
    ensures r.Some? ==> IsIdentifier(r.value.name)
  {
    var n := IdentifierRun(line);
    var optional := n < |line| && line[n] == '?';
    var colon := if optional then n + 1 else n;
    if n == 0 || colon >= |line| || line[colon] != ':' then None
    else
      var declaration := TrimStart(line[colon + 1..]);
      if declaration == "" || exists c | c in declaration :: IsLineTerminator(c) then None
      else
        var separator := IndexOf(declaration, " = ", 0);
        if separator == -1 then
          Some(PropertyLine(line[..n], optional, DropTerminator(Trim(declaration)), None))
        else
          Some(PropertyLine(line[..n], optional,
                            DropTerminator(Trim(declaration[..separator])),
                            Some(DropTerminator(Trim(declaration[separator + 3..])))))
  }

  /** A leading dash with white space around it, which a directive's text may start with. */
  function DropDash(s: string): string {
    var rest := TrimStart(s);
    if rest != "" && rest[0] == '-' then TrimStart(rest[1..]) else s
  }

  function ReadDirective(value: string, directive: string): Option<string> {
    if value != directive && !(directive + " " <= value) then None
    else Some(Trim(DropDash(value[|directive|..])))
  }

  /** The scanner's branches, in order. `line` is trimmed by the caller. */
  function ReadLine(line: string): (e: Event)
    ensures e.Member? ==> IsIdentifier(e.line.name)
  {
    if line in ["}", "},", "};"] then Closer
    else if "/*" <= line || "*/" <= line then Ignored
    else if "*" <= line then
      var value := Trim(line[1..]);
      if value == "" then Ignored
      else
        var serverOnly := ReadDirective(value, "@serverOnly");
        var clientOnly := ReadDirective(value, "@clientOnly");
        var nullable := ReadDirective(value, "@nullable");
        if serverOnly.Some? then ServerOnly(serverOnly.value)
        else if clientOnly.Some? then ClientOnly(clientOnly.value)
        else if nullable.Some? then Nullable(nullable.value)
        else Remark(value)
    else if line == "" then Ignored
    else
      var property := ParsePropertyLine(line);
      if property.None? then Skipped else Member(property.value)
  }

  /** Identifiers hold no dot, so dot-joined paths can be told apart. */
  lemma IdentifierHasNoDot(s: string)
    requires IsIdentifier(s)
    ensures '.' !in s
  {
    assert !IsIdentifierPart('.');
  }
}
