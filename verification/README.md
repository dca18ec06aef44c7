# Verified models of the documentation tooling and the SCIM demo sign-in

This project models five parts of the repository in Dafny and proves what they are for.

- **API method definitions** (`ApiLines`, `ApiSpelling`, `ApiAccepted`, `ApiParser`, `PropertyForest`,
  `ParsedForest`, `ApiRestrictions`, `ApiForest`, `ApiSource`, `ApiProperties`, `ApiComplete`,
  `ApiExamples`, `ApiPrinter`, `ApiReadback`, `ApiText`, `ApiExampleText`, `ApiSourceText`,
  `PropertyTable`). A line scanner turns a nested type declaration into a flat property list; two
  printers and a table turn the list back into something nested. The forest that the flat list stands
  for is never written down in the program. Here it is: `IsPreorder` says that each path continues the
  path the previous property left open. Every source text parses to such a list, every accepted
  spelling of a forest parses to that forest and each property says what its lines say, every source
  whose declaration closes spells one, both audience filters remove whole subtrees, the text of a
  printed example reads back, line by line and with a stack of braces, to exactly the printed
  properties and headers, and the table rebuilds the same nesting.
- **The workforce sign-in** (`Directory`, `SignIn`, `SignInInvariants`, `SignInUniqueness`,
  `SignInRequests`, `SignInOrder`, `SignInRows`, `SignInTheorems`, `SignInProgress`, `SignInAge`,
  `SignInVersions`, `TokenEndpoint`, `Oidc`, `OidcChecks`, `Subjects`, `Secrets`, `Base64`, `Platform`).
  `OidcChecks` says which requests and forms are accepted of the submitted fields alone. Access grant, portal token, authorization code
  and ID token, as a state machine with a clock, the verification store, the directory tables and a
  history. A request is a task that takes one store or database access per step, so requests,
  directory changes and the clock interleave at every access. The protocol is an authorization-code
  grant with PKCE (sections 4.1.2 and 4.1.3 of RFC 6749, sections 4.1 and 4.6 of RFC 7636, section
  3.1.2.1 of OpenID Connect Core 1.0).
- **Markdown link rewriting** (`MarkdownLinks`, `MarkdownSites`). Collecting spans, sorting them and
  splicing from the right is one simultaneous substitution, defined without any order; and where in
  a site's text a link is found, said of the text that its author wrote.
- **Version routing** (`DocsVersions`), for any list of versions that starts with the latest one and
  has distinct identifiers fit for a path segment; `DOCS_VERSIONS` is such a list.
- **Two small stores**: the toast store with its removal timers (`Toasts`) and the page collector
  (`Pages`).

`Text` holds the string functions the sources use. Lemmas carry `{:induction false}` wherever Dafny
would look for an induction of its own, so that every proof is the one that is written down.

What turned out differently from what the code or its documentation suggests:

- The restriction of a property is its own or that of an enclosing object except in two cases, and
  `ApiRestrictions.FlagsAreInherited` says so as an if-and-only-if. A restricted path is never
  forgotten: an unrestricted object that repeats the dotted path of an earlier restricted one is hidden
  too, with everything in it (`ApiExamples.RepeatedObjectIsHidden`). And a comment is forgotten only at
  a property: a directive before a closing brace restricts the next property outside the object
  (`ApiExamples.MarkedCloserIsHidden`), and one above a line that the scanner cannot read, and skips
  without a word, restricts the property after that line (`ApiExamples.MarkedNonsenseIsHidden`). A
  property's own comment is therefore taken to start anew after a closer and after a skipped line;
  blank lines and comment delimiters do not interrupt it.
- The `server-only` comment is written exactly for server-only properties at the top level, because
  every nested property finds its parent.
- The word `required` on a line of an example is no proof that the property is required: an optional
  property whose description begins with that word reads the same
  (`ApiExampleText.RequiredIsMistaken`). `ApiExampleText.ClientShown` and `ApiExampleText.ServerShown`
  say exactly when the text is not mistaken.
- Stripping a version prefix undoes adding it exactly on the pages below `/docs/` and for the latest
  version; `/docs` itself comes back as `/docs/introduction`.
- A link is not always rewritten in its place. A definition's label that holds a colon and then a copy
  of the link is rewritten instead (`MarkdownLinks.LabelRewritten`). A link's title that holds `](`
  hides the link or is rewritten itself (`MarkdownSites.TitleHidesLink`, `MarkdownSites.TitleRewritten`).
  A destination written with an escape or an entity differs from the link that it stands for, so it is
  not found, and the link keeps its version (`MarkdownSites.EscapeHidesLink`).
  `MarkdownSites.DefinitionRewritten`, `MarkdownSites.LinkRewritten` and
  `MarkdownSites.AttributeRewritten` say for each kind of site exactly when the destination is
  rewritten in its place.
- The fifteen-minute bound on portal identities fails when the exchange of the grant takes long: from
  any start there is a run that reaches it (`SignInAge.FifteenMinutesReached`). For a stored portal it
  holds in every continuation if and only if the portal was stored within the five minutes of its grant
  (`SignInAge.AgeBoundExact`). The time at which an answer is given has no bound, since the request that
  looks the portal up may itself take any time (`SignInAge.AnswerAgeUnbounded`).
- A check on an identity reads the connection and the source one after the other. While the directory
  stays the same they are active together (`SignInVersions.ActiveTogetherUnlessChanged`), but from any
  start there is a run whose exchange of a grant succeeds although they never are
  (`SignInVersions.TwoVersionsPass`).
- Dismissing the empty id queues all toasts for removal and closes none.

## Model

| member | source | states |
|---|---|---|
| ApiParser.ParseApiMethod | docs/lib/api-method.ts:99-216 | The scanner, with its stack, its two sets of restricted paths and its flags, computes the recursive reading of any source text: name, properties, prefix, suffix and definition text |
| ApiParser.ScanProperty | docs/lib/api-method.ts:164-197 | One property line keeps list, stack and restricted-path sets in agreement with the declarations read so far and resets the collected comment |
| ApiParser.IsPathRestricted | docs/lib/api-method.ts:92-97 | The loop finds out whether some non-empty prefix of the path has its dotted key in the set |
| ApiParser.RestrictedKeysDecide | docs/lib/api-method.ts:92-97 | For identifier names, looking up dot-joined prefixes agrees with comparing the paths segment by segment |
| ApiSpelling.PropertyReads | docs/lib/api-method.ts:52-82 | Every spelling of a property line, with any spaces and with or without terminators, reads as its name, optional mark, type and example |
| ApiSpelling.CommentReads | docs/lib/api-method.ts:133-161 | Every spelling of a comment line, with a directive's text after spaces or a dash or without one, reads as what it says |
| ApiSpelling.OpeningReads | docs/lib/api-method.ts:52 | The opening line gives its name, with any white space where the pattern allows it |
| ApiAccepted.PropertySpelled | docs/lib/api-method.ts:52-82 | The spellings are complete: every trimmed line that reads as a property is one of them |
| ApiAccepted.OpeningSpelled | docs/lib/api-method.ts:52 | Every line that opens a type declaration is one of the spellings of its opening |
| ApiAccepted.CommentSpelled | docs/lib/api-method.ts:133-164 | Every trimmed line that is neither a property nor a closer is a spelling of what it reads as |
| ApiSource.ParseOfSource | docs/lib/api-method.ts:99-216 | Any source whose lines hold a declaration that spells a forest, with any indentation, any comments above a property or before a closer, any directive texts, terminators and closers and any lines around it, parses to the forest's exact preorder with its paths, marks, descriptions and restrictions, collected from all comments since the property before, and keeps the lines before, of and after the declaration |
| ApiComplete.EverySourceSpelled | docs/lib/api-method.ts:99-216 | Conversely, every source whose type declaration closes has lines that spell a forest |
| ApiForest.ForestDeclares | docs/lib/api-method.ts:111-201 | Inside any surroundings, whatever comments are pending, a forest's lines declare its preorder, leave pending the comments since its last property, and close every object they open |
| ApiProperties.PropertiesOfSource | docs/lib/api-method.ts:66-197 | The parsed properties are those written, in order; each has its own line's name, optional mark, type (`Object` exactly when the line opens an object) and example, is nullable exactly with a `@nullable` among the comments since the property before it, is described by their trimmed text or not at all when that is empty, and is restricted exactly by its own directives or those of an earlier object whose path leads to it |
| ApiProperties.UnclosedSource | docs/lib/api-method.ts:203-211 | A source without a type declaration that closes gives no properties and is kept, trimmed, as the definition |
| ApiSource.MarginsSpell | docs/lib/api-method.ts:113-114 | A forest's lines with any white space before and after each spell the forest |
| ApiSource.LinesOfText | docs/lib/api-method.ts:100 | Lines joined by either kind of line end are the lines that the text is split into |
| ApiExamples.RepeatedObjectIsHidden | docs/lib/api-method.ts:169-184 | A concrete source text in which an unrestricted object is hidden because it repeats a restricted one |
| ApiExamples.MarkedCloserIsHidden | docs/lib/api-method.ts:127-197 | A concrete source text in which a directive before a closing brace hides the field after it, and no path is repeated |
| ApiExamples.MarkedNonsenseIsHidden | docs/lib/api-method.ts:133-197 | A concrete source text in which a directive above a skipped line hides the field below it, and no path is repeated |
| ParsedForest.ParseGivesForest | docs/lib/api-method.ts:99-216 | For every source text the property list is the preorder of a forest, each audience's hidden set is closed under descendants, and what remains is again the preorder of a forest |
| ApiRestrictions.FlagsAreInherited | docs/lib/api-method.ts:121-197 | For every source text each flag is the property's own or that of an enclosing object, if and only if no unrestricted object repeats a restricted one's path and no directive from before a closer or a skipped line reaches a property that nothing else restricts |
| PropertyForest.VisibleIsPreorder | docs/lib/api-method.ts:290-292 | Filtering out whole subtrees leaves the preorder of a forest |
| PropertyForest.HasParent | docs/lib/api-method.ts:166-188 | Each nested property has its parent object earlier in the list, enclosing it |
| ApiPrinter.BuildPropertyLine | docs/lib/api-method.ts:235-251 | One line's text is that of one opening or field token at the given indentation, with its example and its comments in order |
| ApiPrinter.CloseNestedProperties | docs/lib/api-method.ts:265-281 | The depth loop writes one closer for each object deeper than the next property, innermost first |
| ApiPrinter.CreateClientBody | docs/lib/api-method.ts:283-311 | The client example is the text of the token list of the client-visible properties, in its query or body frame, and empty when there are none |
| ApiPrinter.CreateServerBody | docs/lib/api-method.ts:313-377 | The server example is the text of the token list of the server-visible properties with the headers after it, and only headers when there are none |
| ApiReadback.ReadBack | docs/lib/api-method.ts:265-311 | Reading the printed tokens with a stack succeeds with exactly the printed properties and their paths, if and only if the list is the preorder of a forest |
| ApiReadback.ClientExampleReadsBack | docs/lib/api-method.ts:283-311 | For every source text the client example's lines, before they are text, balance, close each brace at its opener's indentation, and keep every property under its parent |
| ApiReadback.ServerExampleReadsBack | docs/lib/api-method.ts:313-377 | The same for the server example, with its comments |
| ApiText.LineShape | docs/lib/api-method.ts:240-251 | The text of one line reads back: four spaces a level, the name, the value after a colon, `{` exactly on an object, `},` exactly on a closer, and the comment |
| ApiExampleText.RemarkReads | docs/lib/api-method.ts:240-246 | The `server-only` mark and what follows it read back from a line's comment, if and only if an optional, unmarked property's description does not begin with that word |
| ApiExampleText.ClientShown | docs/lib/api-method.ts:253-311 | The returned string, read line by line with a stack of braces, shows exactly the client-visible properties with their paths, values, descriptions and required marks, in a query object exactly when they go there, if and only if no optional property's description begins with a word that the printer writes; and it is empty exactly without properties |
| ApiExampleText.RequiredIsMistaken | docs/lib/api-method.ts:240-246 | A concrete optional property whose example line reads as that of a required one |
| ApiExampleText.ServerShown | docs/lib/api-method.ts:313-377 | The same for the server string, with the object named for where the properties go, the `server-only` marks, and the comments and headers that the endpoint needs |
| ApiSourceText.ClientTextOfSource | docs/lib/api-method.ts:99-311 | For every source whose values hold nothing like a comment, the client string shows exactly the client-visible properties |
| ApiSourceText.ServerTextOfSource | docs/lib/api-method.ts:99-377 | The same for the server string |
| ApiReadback.ServerOnlyComment | docs/lib/api-method.ts:327-338 | The parent search marks exactly the server-only properties at the top level |
| PropertyTable.TakeChildren | docs/components/api-method.tsx:264-325 | The inner loop takes the longest run of properties below the object |
| PropertyTable.CollectGroups | docs/components/api-method.tsx:264-325 | The grouping loop splits the list into objects with the run of properties below each |
| PropertyTable.RenderList | docs/components/api-method.tsx:264-325 | The component's recursion, which ends since each children list is shorter, builds the table |
| PropertyTable.TableKeepsAll | docs/components/api-method.tsx:264-325 | Any list is rendered in full, each property once and in order: the groups concatenate back to the list |
| PropertyTable.TableLevels | docs/components/api-method.tsx:264-325 | For the preorder of a forest, nesting level equals path length |
| PropertyTable.TableOfSource | docs/components/api-method.tsx:203-207 | For every source text and audience, the table shows each visible property once, in order, at the level of its path, and nests rows only under objects |
| PropertyTable.TableOfRendered | docs/components/api-method.tsx:264-325 | Grouping the listing of any nested rows rebuilds those rows |
| SignInInvariants.StepKeeps | demo/nextjs/lib/scim-demo-employee.ts:297-530 | Every single access of every request, directory change and clock step keeps the provenance of every stored record, request and token (its order in time is SignInOrder.StepOrdered) |
| SignInOrder.StepOrdered | demo/nextjs/lib/scim-demo-employee.ts:297-530 | Every step keeps the order in time: a grant's portal, its lookups, their codes and tokens, and every request under way start after the part they come from has ended, and read no directory version older than their own start |
| SignInTheorems.TokenDescendsFromGrant | demo/nextjs/lib/scim-demo-employee.ts:297-530 | In every interleaving each ID token descends from one access grant made before it; connection, scim user, subject, user and user key are the same all along; grant, portal, lookup, code and token follow one another in time; during each check the connection was active in the version in which it was read, and the source in its own, in one domain; and name and address are those of the source as it was read, down to the token's address |
| SignInTheorems.TokenSubjectIsScoped | demo/nextjs/lib/scim-demo-identity.ts:99-136 | With a keyed hash that keeps the directory's messages apart, the token's subject was created for a directory user of its connection and resolves under no other |
| SignInTheorems.OnePortalPerGrant | demo/nextjs/lib/scim-demo-employee.ts:451-489 | Over every run, a grant opens at most one portal |
| SignInTheorems.OneTokenPerCode | demo/nextjs/lib/scim-demo-oidc.ts:573-661 | Over every run, a code yields at most one token response |
| SignInUniqueness.StepUnique | demo/nextjs/lib/scim-demo-employee.ts:461-489 | Every step keeps a taken grant out of the store, held by one request and opened once, and a redeemed code out of the store and redeemed once |
| SignInRequests.TokenAnswersRequest | demo/nextjs/lib/scim-demo-oidc.ts:486-661 | In every interleaving each token was redeemed within two minutes of its code, by a form with the client's secret, the code, the request's redirect URI and a verifier of the challenge parameter; its code was issued for acceptable parameters, and it carries their nonce and supported scopes and is issued at its redemption for five minutes |
| SignInRequests.ExchangeDecided | demo/nextjs/lib/scim-demo-oidc.ts:573-661 | What an exchange answers and leaves for any form and store: the error and status of the first form check that fails, with the store as it was; past them the code is spent, and the exchange succeeds if and only if the code was there, unexpired, and its record fits the form |
| SignInRows.RowsWereThere | demo/nextjs/lib/scim-demo-employee.ts:351-530 | In every interleaving each portal and lookup was stored or returned only after the subject and user rows had been found since its source was read, and a lookup with the user row there at its end |
| OidcChecks.RequestAccepted | demo/nextjs/lib/scim-demo-oidc.ts:176-252 | A request is accepted if and only if the first values of its parameters meet the listed conditions, the scope's words among them; then each field is its own parameter's first value, with an empty nonce or hint absent |
| OidcChecks.RequestRefused | demo/nextjs/lib/scim-demo-oidc.ts:192-236 | Each refusal has the error code of the first condition that fails |
| OidcChecks.TrimmedWords | demo/nextjs/lib/scim-demo-oidc.ts:182-204 | The requested scopes are exactly the words that stand between white space in the scope parameter |
| OidcChecks.CodeAuthorized | demo/nextjs/lib/scim-demo-oidc.ts:486-516 | A code is issued if and only if the request is acceptable and the subject resolves to the directory user; its record says what the parameters and the identity say |
| OidcChecks.FormChecked | demo/nextjs/lib/scim-demo-oidc.ts:573-610 | A token form passes if and only if grant type, client id, the secret's bytes, code, redirect URI and verifier are as listed, and otherwise gets the error and status of the first that is not |
| OidcChecks.ClientSecretExact | demo/nextjs/lib/scim-demo-oidc.ts:586-592 | Below the word size the presented secret has exactly the configured secret's bytes |
| OidcChecks.RecordRedeemed | demo/nextjs/lib/scim-demo-oidc.ts:619-661 | A record is redeemed if and only if it fits client, redirect URI and verifier; the ID token says what the record says, is issued at the current second and expires five minutes later |
| SignInTheorems.SpentForever | demo/nextjs/lib/scim-demo-oidc.ts:612-637 | What has left the store never returns, and a spent code yields no further token, whatever follows |
| SignInTheorems.ExchangeIsFinal | demo/nextjs/lib/scim-demo-oidc.ts:573-661 | An exchange rejected by the form checks changes nothing; any other spends the issued code it names, and no continuation yields a further token for it |
| SignInTheorems.ExchangeSucceeds | demo/nextjs/lib/scim-demo-oidc.ts:573-661 | An exchange succeeds if and only if its form passes the checks and the code is unspent, at most two minutes old, and fits the redirect URI and the verifier |
| SignInTheorems.GrantAccepted | demo/nextjs/lib/scim-demo-employee.ts:451-489 | A stored grant is accepted if and only if it is younger than five minutes and names a directory user, and is spent either way |
| SignInTheorems.LookupAge | demo/nextjs/lib/scim-demo-employee.ts:498-530 | A portal identity is returned after its grant, and less than fifteen minutes after it plus the time that the exchange and the lookup themselves took |
| SignInAge.AgeBoundExact | demo/nextjs/lib/scim-demo-employee.ts:469-519 | For a stored, unexpired portal, every lookup in every continuation is checked, and when answered at once also returned, less than fifteen minutes after the grant, if and only if the portal was stored within the grant's five minutes |
| SignInAge.AnswerAgeUnbounded | demo/nextjs/lib/scim-demo-employee.ts:498-530 | A stored, unexpired portal has a continuation in which its identity is returned at any age |
| SignInAge.FifteenMinutesReached | demo/nextjs/lib/scim-demo-employee.ts:451-530 | From any start, a run whose exchange takes two milliseconds or more returns an identity fifteen minutes after its grant, answered at once |
| SignInVersions.ActiveTogetherUnlessChanged | demo/nextjs/lib/scim-demo-employee.ts:351-405 | In every interleaving, each exchange and each lookup during which the directory stays the same saw connection and source active together, in one domain |
| SignInVersions.TwoVersionsPass | demo/nextjs/lib/scim-demo-employee.ts:351-489 | From any start, a run that stores a portal although connection and source were active together in no version between the start and the end of the exchange |
| SignInProgress.SignInCompletes | demo/nextjs/lib/scim-demo-employee.ts:420-530 | From any state, an employee whose rows stay in place and who keeps to the time limits gets a token for that employee, however long the requests take |
| SignInProgress.PortalStageCompletes | demo/nextjs/lib/scim-demo-employee.ts:451-489 | An unexpired grant becomes a portal for the same identity and leaves the store; nothing else changes |
| SignInProgress.LookupStageCompletes | demo/nextjs/lib/scim-demo-employee.ts:498-530 | An unexpired portal is looked up for the same identity and stays in the store |
| Directory.AcquiredExactly | demo/nextjs/lib/scim-demo-employee.ts:266-349 | An identity is acquired if and only if it is that of an active source with a subject, in an active connection of the organization's domain, with its link recorded, its subject resolving and the source's own name and address |
| Directory.AcquiredIsActive | demo/nextjs/lib/scim-demo-employee.ts:266-349 | An identity for a new grant was active with its connection in the organization's domain, and its subject resolves to its user key |
| TokenEndpoint.VerificationStore.ConsumeVerificationValue | packages/better-auth/src/db/internal-adapter.ts:1390-1507 | One step returns an unexpired value and removes the identifier in any case |
| TokenEndpoint.VerificationStore.CreateVerificationValue | packages/better-auth/src/db/internal-adapter.ts:1239-1279 | The store gains exactly the new entry |
| TokenEndpoint.IssueAuthorizationCode | demo/nextjs/lib/scim-demo-oidc.ts:486-526 | For an acceptable request, a record of the request's and identity's own fields enters the store for two minutes; a refusal leaves the store as it was |
| TokenEndpoint.ExchangeAuthorizationCode | demo/nextjs/lib/scim-demo-oidc.ts:573-661 | The endpoint answers and leaves the store as the state machine's exchange does, error for error; it touches the store exactly when the form, with the client's secret, passes |
| Oidc.RequestRoundTrip | demo/nextjs/lib/scim-demo-oidc.ts:289-318 | An accepted authorization request written as form fields or as a page URL parses to itself again |
| Oidc.NormalisedScope | demo/nextjs/lib/scim-demo-oidc.ts:176-252 | The normalised scope lists exactly the requested scopes, each once, in the provider's order |
| Subjects.SubjectMessageInjective | demo/nextjs/lib/scim-demo-identity.ts:81-97 | Two subject messages are equal only when connection and user key are, whatever characters these hold |
| Subjects.ResolveExact | demo/nextjs/lib/scim-demo-identity.ts:120-136 | A subject resolves to a user under a connection if and only if it was created for that user and connection |
| Subjects.ResolveUnderOther | demo/nextjs/lib/scim-demo-identity.ts:99-136 | A created subject resolves to nothing under another connection |
| Platform.IdTextInjective | demo/nextjs/lib/scim-demo-employee.ts:133-145 | Store identifiers of grants, portals and codes never coincide, whatever is presented |
| Secrets.SecretsMatch | demo/nextjs/lib/scim-demo-oidc.ts:562-571 | The accumulator is zero exactly when both byte sequences are equal, for all lengths below the 32-bit word the bit operators work on |
| Base64.EncodeBase64URLExact | demo/nextjs/lib/scim-demo-employee.ts:102-109 | The replaced and trimmed standard encoding is the URL-safe encoding without padding of section 5 of RFC 4648 |
| Base64.DecodeEncode | demo/nextjs/lib/scim-demo-employee.ts:102-109 | Decoding undoes encoding, so the encoding is injective |
| MarkdownLinks.ScopeMarkdownLinks | docs/lib/markdown-links.ts:34-111 | The scoped document is the simultaneous substitution of the collected links when their spans do not overlap; for the latest version it is the document itself |
| MarkdownLinks.RewrittenExactly | docs/lib/markdown-links.ts:43-90 | A link, definition or plain string `href` is rewritten if and only if its place is known, the version is not the latest, and it leads into the documentation and under no registered version |
| MarkdownLinks.OnlyHeldLinks | docs/lib/markdown-links.ts:43-90 | No other site is rewritten |
| MarkdownLinks.LinkRewriter.AddReplacement | docs/lib/markdown-links.ts:15-32 | A replacement for the first copy of the link at or after the search start is appended, or nothing when there is none |
| MarkdownLinks.LinkRewriter.Visit | docs/lib/markdown-links.ts:43-100 | A site adds the replacement of its link exactly when scoping changes it and its position is known |
| MarkdownLinks.LinkRewriter.SortReplacements | docs/lib/markdown-links.ts:102-103 | The array is permuted in place into descending order of starts |
| MarkdownLinks.LinkRewriter.ApplyReplacements | docs/lib/markdown-links.ts:104-109 | The fold splices each replacement in turn into the text |
| MarkdownLinks.SortedSplicesSubstitute | docs/lib/markdown-links.ts:102-110 | Splicing any descending arrangement of non-overlapping replacements is their simultaneous substitution, whatever order they were found in |
| MarkdownLinks.CollectedReplaceLinks | docs/lib/markdown-links.ts:15-32 | Every replaced span held exactly the old link and receives that link scoped |
| MarkdownLinks.CollectedDisjoint | docs/lib/markdown-links.ts:43-100 | Sites of which any two do not overlap, or of which one stands in the text of a link that is the other, give replacements that do not overlap |
| MarkdownLinks.SubstituteIdentity | docs/lib/markdown-links.ts:102-110 | Substituting what is already there changes nothing: all other text is kept in order |
| MarkdownSites.DefinitionRewritten | docs/lib/markdown-links.ts:57-71 | A definition's destination is rewritten in its place if and only if it is written as the link itself, without an escape or an entity, and no copy of the link starts in the label after the label's first colon |
| MarkdownSites.LinkRewritten | docs/lib/markdown-links.ts:57-71 | A link's destination is rewritten in its place if and only if it is written as the link itself, without an escape or an entity, and `](` occurs neither in it nor after it |
| MarkdownSites.EscapeHidesLink | docs/lib/markdown-links.ts:15-71 | A link whose destination is written with an escape and which is not scoped at all |
| MarkdownSites.AttributeRewritten | docs/lib/markdown-links.ts:74-98 | An attribute's value is rewritten in its place if and only if it is written as the link itself, without an entity |
| MarkdownSites.TitleHidesLink | docs/lib/markdown-links.ts:57-71 | A link whose title holds `](` and which is not scoped at all |
| MarkdownSites.TitleRewritten | docs/lib/markdown-links.ts:57-71 | A link whose title is rewritten instead of its destination |
| MarkdownLinks.LabelRewritten | docs/lib/markdown-links.ts:57-71 | A definition whose label is rewritten instead of its destination |
| DocsVersions.VersionedExact | docs/lib/docs-versions.ts:40-68 | A prefixed docs root becomes the version's introduction with its query and fragment; any other path keeps all that follows its `/docs` |
| DocsVersions.StripExact | docs/lib/docs-versions.ts:139-150 | Stripping gives the docs root for a version's own root, the page's path below it, and every other path as it is |
| DocsVersions.StripUndoesVersioned | docs/lib/docs-versions.ts:59-150 | Stripping undoes adding a prefix if and only if the version is the latest or the path is a page below the docs root |
| DocsVersions.DetectVersioned | docs/lib/docs-versions.ts:123-132 | The version that a path was written for is detected from it if and only if the prefix ends at a segment, and for the latest version if and only if the path lies under no other version |
| DocsVersions.FindVersionExact | docs/lib/docs-versions.ts:123-132 | Detection finds a version if and only if the path lies under its prefix |
| DocsVersions.ScopedExactly | docs/lib/docs-versions.ts:160-180 | For a registered version a link is changed if and only if the version is not the latest, the link is `/docs` alone or followed by `/`, `?` or `#`, and it leads under no registered version; a changed link leads under the version and keeps its remainder, query and fragment, with the introduction for the docs root |
| DocsVersions.ScopeIdempotent | docs/lib/docs-versions.ts:160-180 | Scoping any link twice equals scoping it once |
| DocsVersions.ScopedPageStripsBack | docs/lib/docs-versions.ts:139-180 | A scoped page link strips back to the link as written |
| DocsVersions.SlugAgreesWithPathname | docs/lib/docs-versions.ts:188-197 | Slug resolution and path detection choose the same version, and the stripped path is the join of the remaining slug |
| DocsVersions.MatchingPathSegments | docs/lib/docs-versions.ts:70-82 | The counter is the length of the longest common prefix of the segments after the first |
| DocsVersions.ScoreCounts | docs/lib/docs-versions.ts:70-82 | The score of two paths is the number of segments they share from the second one on |
| DocsVersions.FindClosest | docs/lib/docs-versions.ts:98-108 | The running best is the first of the paths with the greatest positive common prefix, and there is none only when all share nothing |
| DocsVersions.GetVersionTargetHref | docs/lib/docs-versions.ts:87-117 | The exact page when available, else the first closest one, else the introduction when available, else the first path, else the docs root; always the target version's link of an available path when the first path is not empty |
| DocsVersions.DocsVersionsRegistered | docs/lib/docs-versions.ts:20-33 | The repository's own version list meets what routing needs |
| Toasts.Store.GenId | demo/nextjs/hooks/use-toast.ts:25-30 | The counter moves on by one modulo the largest safe integer, and the id is its numeral |
| Toasts.Store.AddToRemoveQueue | demo/nextjs/hooks/use-toast.ts:58-72 | A new timeout is set and remembered only for an id that is not remembered; when map and timeouts agree they still do, and the id is pending |
| Toasts.Store.Dispatch | demo/nextjs/hooks/use-toast.ts:74-139 | List and timers become what the reducer on values gives |
| Toasts.Store.Open | demo/nextjs/hooks/use-toast.ts:143-165 | A new toast with its own content is shown, under the next id |
| Toasts.AddShows | demo/nextjs/hooks/use-toast.ts:76-80 | An added toast comes first with all it holds, the others follow in order up to the limit, and no timer changes |
| Toasts.UpdateChanges | demo/nextjs/hooks/use-toast.ts:82-88 | An update changes the fields it names on the toasts of its id and nothing else |
| Toasts.DismissCloses | demo/nextjs/hooks/use-toast.ts:90-116 | A dismissal closes the toasts it names, or all, and keeps what they hold |
| Toasts.Store.Fire | demo/nextjs/hooks/use-toast.ts:63-69 | Any pending timeout may go off: it is gone, its id is forgotten and its toast removed |
| Toasts.RunIsSound | demo/nextjs/hooks/use-toast.ts:25-139 | In every run, for any limit: no more toasts than the limit, newest ids first, all ids different until the counter has gone round, at most one pending timeout for each id, the map's ids exactly those with one, and one for every dismissed toast if no update closed it |
| Toasts.NextPending | demo/nextjs/hooks/use-toast.ts:74-127 | An event keeps a timer pending for every dismissed toast if and only if it is not an update that closes a shown toast without one |
| Toasts.FiringRemovesItsToast | demo/nextjs/hooks/use-toast.ts:63-69 | With distinct ids a timeout that goes off removes exactly its toast, and leaves no other timeout for its id |
| Toasts.FiringAll | demo/nextjs/hooks/use-toast.ts:58-72 | In whatever order the pending timers fire, the same toasts remain and no timer does |
| Toasts.NoDismissedLeft | demo/nextjs/hooks/use-toast.ts:58-139 | Once all pending timers of a run have fired, every toast left is open |
| Toasts.DismissalReaches | demo/nextjs/hooks/use-toast.ts:92-116 | In every run a dismissal queues exactly the shown toasts it closes, if and only if it does not name the empty id or nothing is shown |
| Pages.Collector.CollectPages | docs/app/docs/provider.tsx:63-79 | The walk appends the first entry of each unseen URL among the non-external pages, in preorder with a folder's own page first, and the seen set grows by exactly the URLs met |
| Pages.ListingOrder | docs/app/docs/provider.tsx:63-79 | In a listing a node's own page, unless external, comes before everything below the node, and that before the following nodes |
| Pages.LabelExact | docs/app/docs/provider.tsx:58-61 | A page without a plain name is named by the last segment of its URL, or `Documentation` when there is none |
| Pages.FirstsAreFirst | docs/app/docs/provider.tsx:76-78 | The kept entries have distinct URLs, one for each URL not seen before, and each is the first of its URL |
| Pages.FirstsAppend | docs/app/docs/provider.tsx:63-79 | Collecting two listings one after the other, with the seen set carried over, is collecting them as one |

## Left out

- JSON and ISO dates in verification records: a stored value is a datatype, and text of another kind is one constructor; decoding is assumed lossless.
- Regular expressions are written out as functions on characters; the engines themselves are not modelled.
- Secrets.SecretsMatch: equality of the sequences is stated for lengths below the 32-bit word; above it the code compares lengths modulo the word, and the contract's first clause says so.
- Strings are sequences of characters, so a length counts characters and not UTF-16 units.
- The parser's single loop is split into its passes before and after the opening line; the order of its branches is kept.
- A quirk of the scanner that the model keeps: a field whose type is written `Object` counts as an object in the printers.
- Subjects.SubjectMessageInjective: speaks of the joined text; the encoder that the hash is fed through replaces lone surrogates, which a Dafny string cannot hold.
- ApiSourceText.ClientTextOfSource: asks that no value hold ` // `, which would start a comment on its own line; nothing is asked of names, types and line ends.
- ApiSourceText.ServerTextOfSource: asks the same, and that a given headers comment stays on one line.
- In `ApiPrinter`, `pathToMethodName` and the result prefixes around the two examples are plain text assembly.
- In `PropertyTable`, keys, styles and the text of one row are not modelled, only which rows there are and how they nest.
- Markdown parsing: a document comes with the nodes and spans the parser reports, in any order; MDX itself is not modelled.
- The array sort of the JavaScript engine: an insertion sort stands in, and the theorem holds for every descending arrangement.
- DocsVersions.GetVersionTargetHref: the code returns an empty first path as it is, so the clause that the result is always the link of an available path asks for a non-empty first path.
- Hashing, signing and random values: the keyed hash and SHA-256 are functions, assumed free of collisions only between the directory's messages of two connections; new tokens and codes are assumed unused; the ID token is its claims and not a signed text.
- `acquireActiveSCIMUserLink` is a lookup by connection and external id; its own checks are not part of this model.
- A provisioning domain that is too long makes the code throw; here there is no identity.
- The branch of `acquireEmployeeIdentity` for a recorded identity, which no flow calls, and `resolveSCIMDemoSSOUser` are left out.
- The portal identity that a code is issued for is assumed to come from a portal lookup; the route handlers, cookies and the authorization view are left out.
- Other features write to the verification store under other identifiers only; identifier hashing and secondary storage of the store are left out.
- TokenEndpoint.VerificationStore.CreateVerificationValue: a second row for one identifier replaces the first, where the database keeps both and consumes the latest.
- SignInProgress.SignInCompletes: runs one request at a time and keeps the directory unchanged; the safety theorems allow every interleaving.
- An expiry time is computed in the step that stores its entry, although the code awaits a digest in between.
- The delay of removal timers: a pending timeout may go off at any time, so the theorems hold for every delay. Listeners and the React hook are left out.
- Network and file access, configuration, chat, search and all components without such logic are left out.
