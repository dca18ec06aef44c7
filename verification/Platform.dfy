/** What the sign-in needs of its deployment: configured values, hashes and text encoding. */
module Platform {
  import opened Text
  import opened Base64
  import opened Subjects

  /** What an employee record may be used for. */
  datatype Purpose = AccessPurpose | PortalPurpose

  function Audience(purpose: Purpose): string {
    match purpose
    case AccessPurpose => "better-auth:scim-demo:employee-access:v2"
    case PortalPurpose => "better-auth:scim-demo:employee-portal:v2"
  }

  datatype Config = Config(
    baseURL: string,
    clientSecret: string,
    sha256: seq<byte> -> seq<byte>,
    utf8: string -> seq<byte>,
    resolveSubject: (string, string) -> Option<string>,
    tokenDigest: (Purpose, string) -> string)

  /** The digest under which a token's record is stored. */
  function TokenDigest(mac: Mac, purpose: Purpose, token: string): string {
    Encode(mac(Audience(purpose) + ":" + token))
  }

  /** A deployment, whose subjects and token digests are both taken with one keyed hash. */
  function Deployment(baseURL: string, clientSecret: string, mac: Mac, sha256: seq<byte> -> seq<byte>,
                      utf8: string -> seq<byte>)
    : Config
  {
    Config(baseURL, clientSecret, sha256, utf8,
           (connectionId, subject) => ResolveSubject(mac, connectionId, subject),
           (purpose, token) => TokenDigest(mac, purpose, token))
  }

  // ----- Identifiers of the verification store -----

  const CODE_PREFIX := "scim-demo:oidc:code:"

  /** An identifier: of a token's digest, of a code, or of another feature's entry. */
  datatype Id = TokenId(purpose: Purpose, digest: string) | CodeId(code: string) | OtherId(text: string)

  function IdText(id: Id): string {
    match id
    case TokenId(purpose, digest) => Audience(purpose) + ":" + digest
    case CodeId(code) => CODE_PREFIX + code
    case OtherId(text) => text
  }

  /** Identifiers of other features stay out of the sign-in's families. */
  predicate IsProper(id: Id) {
    id.OtherId? ==>
      && !(Audience(AccessPurpose) + ":" <= id.text) && !(Audience(PortalPurpose) + ":" <= id.text)
         && !(CODE_PREFIX <= id.text)
  }

  lemma FamiliesApart()
    ensures Audience(AccessPurpose)[31] != Audience(PortalPurpose)[31]
    ensures |Audience(AccessPurpose)| == |Audience(PortalPurpose)| == 40
    ensures forall purpose :: CODE_PREFIX[0] != Audience(purpose)[0]
  {
    assert Audience(AccessPurpose)[31] == 'a' && Audience(PortalPurpose)[31] == 'p' && CODE_PREFIX[0] == 's';
  }

  lemma TailsEqual(head: string, tail: string, tail': string)
    requires head + tail == head + tail'
    ensures tail == tail'
  {
    assert (head + tail)[|head|..] == tail && (head + tail')[|head|..] == tail';
  }

  lemma IdTextStart(id: Id)
    ensures id.TokenId? ==> IdText(id)[0] == Audience(id.purpose)[0]
    ensures id.CodeId? ==> IdText(id)[0] == CODE_PREFIX[0]
  {
    FamiliesApart();
  }

  /** Whatever tokens and codes are presented, two identifiers with one text are one identifier. */
  lemma IdTextInjective(left: Id, right: Id)
    requires IsProper(left) && IsProper(right) && IdText(left) == IdText(right)
    ensures left == right
  {
    FamiliesApart();
    IdTextStart(left);
    IdTextStart(right);
    var text := IdText(left);
    match (left, right) {
      case (TokenId(p, d), TokenId(q, e)) =>
        assert text[31] == Audience(p)[31] && text[31] == Audience(q)[31];
        TailsEqual(Audience(p) + ":", d, e);
      case (CodeId(c), CodeId(d)) => TailsEqual(CODE_PREFIX, c, d);
      case (_, _) =>
    }
  }
}
