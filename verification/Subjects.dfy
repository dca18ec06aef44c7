/** The opaque subjects that stand for directory users of one connection. */
module Subjects {
  import opened Text
  import opened Base64

  /** The keyed hash; each application of it gives 32 bytes. */
  type Mac = string -> seq<byte>

  const SUBJECT_PREFIX := "scim-demo:v2:"
  const SUBJECT_CONTEXT := "better-auth:scim-demo:oidc-subject:v2"
  const CLIENT_ID := "scim-demo-client"
  const CONNECTION_PREFIX := "ba_scim_connection_"
  const USER_KEYS := ["maya-chen", "julian-foster", "priya-shah"]

  predicate IsConnectionId(s: string) {
    CONNECTION_PREFIX <= s && |s| == |CONNECTION_PREFIX| + 32 && IsToken(s[|CONNECTION_PREFIX|..])
  }

  predicate IsSubject(s: string) {
    SUBJECT_PREFIX <= s && |s| == |SUBJECT_PREFIX| + 43 && IsToken(s[|SUBJECT_PREFIX|..])
  }

  /** What the hash is taken of: every part, with the length of the connection identifier. */
  function SubjectMessage(connectionId: string, userKey: string): string {
    Join([SUBJECT_CONTEXT, CLIENT_ID, Decimal(|connectionId|), connectionId, userKey], ":")
  }

  /** `None` where the source throws: the connection identifier is malformed. */
  function CreateSubject(mac: Mac, connectionId: string, userKey: string): Option<string> {
    if !IsConnectionId(connectionId) then None
    else Some(SUBJECT_PREFIX + Encode(mac(SubjectMessage(connectionId, userKey))))
  }

  function FindUser(mac: Mac, connectionId: string, subject: string, keys: seq<string>): Option<string> {
    if keys == [] then None
    else if CreateSubject(mac, connectionId, keys[0]) == Some(subject) then Some(keys[0])
    else FindUser(mac, connectionId, subject, keys[1..])
  }

  function ResolveSubject(mac: Mac, connectionId: string, subject: string): Option<string> {
    if !IsConnectionId(connectionId) || !IsSubject(subject) then None
    else FindUser(mac, connectionId, subject, USER_KEYS)
  }

  // ----- The message determines its parts -----

  lemma FirstPartUnique(head: string, tail: string, head': string, tail': string)
    requires ':' !in head && ':' !in head'
    requires head + ":" + tail == head' + ":" + tail'
    ensures head == head' && tail == tail'
  {
    var s := head + ":" + tail;
    SplitAtSeparator(head, ':', tail);
    SplitAtSeparator(head', ':', tail');
    assert Split(s, ':')[0] == head && Split(s, ':')[0] == head';
    assert s[|head| + 1..] == tail && (head' + ":" + tail')[|head'| + 1..] == tail';
  }

  lemma {:induction false} JoinFirst(part: string, rest: seq<string>)
    requires rest != []
    ensures Join([part] + rest, ":") == part + ":" + Join(rest, ":")
  {
  }

  function MessageBody(connectionId: string, userKey: string): string {
    Decimal(|connectionId|) + ":" + (connectionId + ":" + userKey)
  }

  lemma SubjectMessageShape(connectionId: string, userKey: string)
    ensures SubjectMessage(connectionId, userKey) ==
            SUBJECT_CONTEXT + ":" + (CLIENT_ID + ":" + MessageBody(connectionId, userKey))
  {
    JoinFirst(connectionId, [userKey]);
    JoinFirst(Decimal(|connectionId|), [connectionId] + [userKey]);
    JoinFirst(CLIENT_ID, [Decimal(|connectionId|)] + ([connectionId] + [userKey]));
    JoinFirst(SUBJECT_CONTEXT, [CLIENT_ID] + ([Decimal(|connectionId|)] + ([connectionId] + [userKey])));
    assert [SUBJECT_CONTEXT, CLIENT_ID, Decimal(|connectionId|), connectionId, userKey]
        == [SUBJECT_CONTEXT] + ([CLIENT_ID] + ([Decimal(|connectionId|)] + ([connectionId] + [userKey])));
  }

  lemma SameTail(head: string, tail: string, tail': string)
    requires head + ":" + tail == head + ":" + tail'
    ensures tail == tail'
  {
    assert (head + ":" + tail)[|head| + 1..] == tail && (head + ":" + tail')[|head| + 1..] == tail';
  }

  /** Two messages are equal only when both their parts are, whatever characters the parts hold. */
  lemma SubjectMessageInjective(connectionId: string, userKey: string, connectionId': string, userKey': string)
    requires SubjectMessage(connectionId, userKey) == SubjectMessage(connectionId', userKey')
    ensures connectionId == connectionId' && userKey == userKey'
  {
    SubjectMessageShape(connectionId, userKey);
    SubjectMessageShape(connectionId', userKey');
    var body, body' := MessageBody(connectionId, userKey), MessageBody(connectionId', userKey');
    SameTail(SUBJECT_CONTEXT, CLIENT_ID + ":" + body, CLIENT_ID + ":" + body');
    SameTail(CLIENT_ID, body, body');
    var rest, rest' := connectionId + ":" + userKey, connectionId' + ":" + userKey';
    DecimalReads(|connectionId|);
    DecimalReads(|connectionId'|);
    FirstPartUnique(Decimal(|connectionId|), rest, Decimal(|connectionId'|), rest');
    assert rest[..|connectionId|] == connectionId && rest'[..|connectionId'|] == connectionId';
    SameTail(connectionId, userKey, userKey');
  }

  // ----- Creating and resolving -----

  ghost predicate Gives32Bytes(mac: Mac) {
    forall message :: |mac(message)| == 32
  }

  /** The hash tells the directory's messages for two connections apart. */
  ghost predicate NoCollision(mac: Mac, connectionId: string, connectionId': string) {
    forall key, key' | key in USER_KEYS && key' in USER_KEYS ::
      mac(SubjectMessage(connectionId, key)) == mac(SubjectMessage(connectionId', key')) ==>
        SubjectMessage(connectionId, key) == SubjectMessage(connectionId', key')
  }

  lemma CreatedSubjectsDiffer(mac: Mac, connectionId: string, userKey: string, connectionId': string, userKey': string)
    requires IsConnectionId(connectionId) && IsConnectionId(connectionId')
    requires userKey in USER_KEYS && userKey' in USER_KEYS && NoCollision(mac, connectionId, connectionId')
    ensures CreateSubject(mac, connectionId, userKey) == CreateSubject(mac, connectionId', userKey')
            <==> connectionId == connectionId' && userKey == userKey'
  {
    var m, m' := SubjectMessage(connectionId, userKey), SubjectMessage(connectionId', userKey');
    if CreateSubject(mac, connectionId, userKey) == CreateSubject(mac, connectionId', userKey') {
      var s := SUBJECT_PREFIX + Encode(mac(m));
      assert s[|SUBJECT_PREFIX|..] == Encode(mac(m));
      assert (SUBJECT_PREFIX + Encode(mac(m')))[|SUBJECT_PREFIX|..] == Encode(mac(m'));
      DecodeEncode(mac(m));
      DecodeEncode(mac(m'));
      SubjectMessageInjective(connectionId, userKey, connectionId', userKey');
    }
  }

  /** Resolution names only a directory user whose subject it is. */
  lemma {:induction false} FindUserSound(mac: Mac, connectionId: string, subject: string, keys: seq<string>)
    ensures var found := FindUser(mac, connectionId, subject, keys);
            && (found.Some? ==> found.value in keys && CreateSubject(mac, connectionId, found.value) == Some(subject))
            && (found.None? ==> forall key | key in keys :: CreateSubject(mac, connectionId, key) != Some(subject))
  {
    if keys != [] {
      FindUserSound(mac, connectionId, subject, keys[1..]);
    }
  }

  lemma CreatedIsSubject(mac: Mac, connectionId: string, userKey: string)
    requires Gives32Bytes(mac) && IsConnectionId(connectionId)
    ensures IsSubject(CreateSubject(mac, connectionId, userKey).value)
  {
    var code := Encode(mac(SubjectMessage(connectionId, userKey)));
    assert (SUBJECT_PREFIX + code)[|SUBJECT_PREFIX|..] == code;
  }

  /** A subject resolves to a user under a connection if and only if it was created for that user and connection. */
  lemma ResolveExact(mac: Mac, connectionId: string, subject: string, userKey: string)
    requires Gives32Bytes(mac) && NoCollision(mac, connectionId, connectionId)
    ensures ResolveSubject(mac, connectionId, subject) == Some(userKey)
            <==> userKey in USER_KEYS && CreateSubject(mac, connectionId, userKey) == Some(subject)
  {
    if IsConnectionId(connectionId) {
      FindUserSound(mac, connectionId, subject, USER_KEYS);
      CreatedIsSubject(mac, connectionId, userKey);
      var found := FindUser(mac, connectionId, subject, USER_KEYS);
      if found.Some? && userKey in USER_KEYS {
        CreatedSubjectsDiffer(mac, connectionId, userKey, connectionId, found.value);
      }
    }
  }

  /** A created subject resolves to nothing under any other connection. */
  lemma ResolveUnderOther(mac: Mac, connectionId: string, userKey: string, other: string)
    requires Gives32Bytes(mac) && NoCollision(mac, connectionId, other)
    requires IsConnectionId(connectionId) && userKey in USER_KEYS && other != connectionId
    ensures ResolveSubject(mac, other, CreateSubject(mac, connectionId, userKey).value) == None
  {
    if IsConnectionId(other) {
      var subject := CreateSubject(mac, connectionId, userKey).value;
      FindUserSound(mac, other, subject, USER_KEYS);
      var found := FindUser(mac, other, subject, USER_KEYS);
      if found.Some? {
        CreatedSubjectsDiffer(mac, connectionId, userKey, other, found.value);
      }
    }
  }
}
