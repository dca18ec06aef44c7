/** The provisioning tables and the checks that tie an employee to an active connection. */
module Directory {
  import opened Text
  import opened Platform
  import opened Oidc

  datatype Status = Active | Decommissioning | Decommissioned

  datatype Connection = Connection(domain: string, status: Status)

  datatype Source = Source(
    connectionId: string,
    domain: string,
    userId: string,
    externalId: Option<string>,
    userName: string,
    displayName: string,
    active: bool)

  datatype Link = Link(scimUserId: string, userId: string)

  /** The tables, each under the key it is looked up by; links under connection and external id. */
  datatype Tables = Tables(
    connections: map<string, Connection>,
    sources: map<string, Source>,
    subjects: set<string>,
    users: map<string, Option<string>>,
    links: map<(string, string), Link>)

  function FindEligibleConnection(tables: Tables, connectionId: string): Option<Connection> {
    if connectionId in tables.connections && tables.connections[connectionId].status == Active then
      Some(tables.connections[connectionId])
    else None
  }

  function ProvisioningDomain(organizationId: string): string {
    "scim-demo-org:" + organizationId
  }

  const MAX_DOMAIN_LENGTH := 255

  /** The connection and source of one scim user in an organization; `None` also where the source throws. */
  function ResolveByOrganization(tables: Tables, organizationId: string, scimUserId: string)
    : Option<(Connection, Source)>
  {
    if scimUserId !in tables.sources || !tables.sources[scimUserId].active then None
    else
      var source := tables.sources[scimUserId];
      if IsMissing(source.externalId) then None
      else
        var connection := FindEligibleConnection(tables, source.connectionId);
        if connection.None? || |ProvisioningDomain(organizationId)| > MAX_DOMAIN_LENGTH then None
        else if connection.value.domain != ProvisioningDomain(organizationId)
          || source.domain != connection.value.domain then
          None
        else Some((connection.value, source))
  }

  /** The identity that a new access grant carries, read in one transaction. */
  function AcquireIdentity(config: Config, tables: Tables, organizationId: string, scimUserId: string)
    : Option<Identity>
  {
    var resolved := ResolveByOrganization(tables, organizationId, scimUserId);
    if resolved.None? then None
    else
      var source := resolved.value.1;
      var subject := source.externalId.value;
      var userKey := config.resolveSubject(source.connectionId, subject);
      var key := (source.connectionId, subject);
      if userKey.None? then None
      else if key !in tables.links || tables.links[key] != Link(scimUserId, source.userId) then None
      else
        Some(Identity(source.connectionId, source.displayName, source.userName, scimUserId, subject, source.userId,
                      userKey.value))
  }

  /** The row that a recorded identity still has, when it is active and in the connection's domain. */
  function FindRecordedSource(tables: Tables, recorded: Identity, connection: Connection): Option<Source> {
    if recorded.scimUserId !in tables.sources then None
    else
      var source := tables.sources[recorded.scimUserId];
      if source.connectionId == recorded.connectionId && source.userId == recorded.userId
         && source.externalId == Some(recorded.subject) && source.active && source.domain == connection.domain
      then Some(source)
      else None
  }

  /** The recorded identity with the row's current name and address. */
  function Refreshed(recorded: Identity, source: Source): Identity {
    recorded.(displayName := source.displayName, email := source.userName)
  }

  // ----- What a check establishes -----

  /** The parts of an identity that never change along a sign-in. */
  predicate SameEmployee(left: Identity, right: Identity) {
    && left.connectionId == right.connectionId
    && left.scimUserId == right.scimUserId
    && left.subject == right.subject
    && left.userId == right.userId
    && left.userKey == right.userKey
  }

  predicate ConnectionActive(tables: Tables, identity: Identity, domain: string) {
    && identity.connectionId in tables.connections
    && tables.connections[identity.connectionId] == Connection(domain, Active)
  }

  predicate SourceActive(tables: Tables, identity: Identity, domain: string) {
    && identity.scimUserId in tables.sources
    && var source := tables.sources[identity.scimUserId];
       && source.active && source.domain == domain && source.connectionId == identity.connectionId
       && source.userId == identity.userId && source.externalId == Some(identity.subject)
  }

  /** The subject is the one created for the identity's user and connection. */
  predicate SubjectResolves(config: Config, identity: Identity) {
    config.resolveSubject(identity.connectionId, identity.subject) == Some(identity.userKey)
  }

  predicate IsNamedBy(source: Source, identity: Identity) {
    identity.displayName == source.displayName && identity.email == source.userName
  }

  /**
   An identity is acquired if and only if it is that of an active source with a subject, in an active
   connection of the organization's domain, whose link is recorded and whose subject resolves.
   */
  lemma AcquiredExactly(config: Config, tables: Tables, organizationId: string, scimUserId: string, identity: Identity)
    ensures AcquireIdentity(config, tables, organizationId, scimUserId) == Some(identity)
            <==> && identity.scimUserId == scimUserId && identity.subject != ""
                 && |"scim-demo-org:" + organizationId| <= 255
                 && ConnectionActive(tables, identity, "scim-demo-org:" + organizationId)
                 && SourceActive(tables, identity, "scim-demo-org:" + organizationId)
                 && IsNamedBy(tables.sources[scimUserId], identity)
                 && (identity.connectionId, identity.subject) in tables.links
                 && tables.links[(identity.connectionId, identity.subject)] == Link(scimUserId, identity.userId)
                 && SubjectResolves(config, identity)
  {
    AcquiredIsActive(config, tables, organizationId, scimUserId);
  }

  /** An acquired identity was active, with its connection, in the organization's domain. */
  lemma AcquiredIsActive(config: Config, tables: Tables, organizationId: string, scimUserId: string)
    ensures var acquired := AcquireIdentity(config, tables, organizationId, scimUserId);
            acquired.Some? ==>
              && acquired.value.scimUserId == scimUserId && SubjectResolves(config, acquired.value)
              && ConnectionActive(tables, acquired.value, ProvisioningDomain(organizationId))
              && SourceActive(tables, acquired.value, ProvisioningDomain(organizationId))
              && IsNamedBy(tables.sources[scimUserId], acquired.value)
  {
  }
}
