/** The per-request authentication filter: a `Bearer` session token names
    the participant; a missing, malformed or unknown token falls back to a
    development administrator, created on first use. Whoever is resolved is
    attached to the request with the authorities of their role. */
module SessionTokenAuthFilter {
  import opened Common
  import opened Domain
  import opened Strings
  import opened Repositories

  const BearerPrefix: string := "Bearer "
  const DevToken: string := "dev-participant"
  const DevParticipant: Participant := Participant(DevToken, Some("Dev Admin"), ADMIN, true)

  /** The token of an `Authorization` header that starts with `Bearer `. */
  function BearerToken(header: Option<string>): (r: Option<string>)
    ensures r.Some? <==> header.Some? && StartsWith(header.value, BearerPrefix)
    ensures r.Some? ==> header.value == BearerPrefix + r.value
  {
    if header.Some? && StartsWith(header.value, BearerPrefix) then
      assert header.value == header.value[..7] + header.value[7..];
      Some(header.value[7..])
    else None
  }

  /** The client sends `Bearer <token>`; the filter reads back `<token>`. */
  lemma BearerRoundTrip(token: string)
    ensures BearerToken(Some(BearerPrefix + token)) == Some(token)
  {
    var h := BearerPrefix + token;
    assert h[..|BearerPrefix|] == BearerPrefix;
  }

  /** A header without the prefix carries no token, whatever follows. */
  lemma NoPrefixNoToken(header: string)
    requires |header| < 7 || header[..7] != BearerPrefix
    ensures BearerToken(Some(header)).None?
  {
  }

  function Authority(role: ParticipantRole): string
  {
    "ROLE_" + RoleName(role)
  }

  /** The granted authorities of a role, in the order the filter lists them. */
  function Authorities(role: ParticipantRole): seq<string>
  {
    match role
    case PARTICIPANT => ["ROLE_PARTICIPANT"]
    case BOOTH_OPERATOR => ["ROLE_BOOTH_OPERATOR", "ROLE_PARTICIPANT"]
    case ADMIN => ["ROLE_ADMIN", "ROLE_BOOTH_OPERATOR", "ROLE_PARTICIPANT"]
  }

  /** How far up the hierarchy PARTICIPANT < BOOTH_OPERATOR < ADMIN a role is. */
  function Rank(role: ParticipantRole): nat
  {
    match role
    case PARTICIPANT => 0
    case BOOTH_OPERATOR => 1
    case ADMIN => 2
  }

  /** A role holds another role's authority exactly when it ranks at least
      as high, and holds nothing else. */
  lemma {:induction false} AuthoritiesByRank(role: ParticipantRole, other: ParticipantRole)
    ensures Authority(other) in Authorities(role) <==> Rank(other) <= Rank(role)
    ensures forall a :: a in Authorities(role) ==> exists o :: Authority(o) == a
  {
    assert Authority(PARTICIPANT) == "ROLE_PARTICIPANT";
    assert Authority(BOOTH_OPERATOR) == "ROLE_BOOTH_OPERATOR";
    assert Authority(ADMIN) == "ROLE_ADMIN";
    assert "ROLE_PARTICIPANT" != "ROLE_BOOTH_OPERATOR" && "ROLE_PARTICIPANT" != "ROLE_ADMIN";
    assert "ROLE_BOOTH_OPERATOR" != "ROLE_ADMIN";
  }

  /** A higher role has every authority of a lower one. */
  lemma AuthoritiesNested(lower: ParticipantRole, higher: ParticipantRole)
    requires Rank(lower) <= Rank(higher)
    ensures forall a :: a in Authorities(lower) ==> a in Authorities(higher)
  {
    forall a | a in Authorities(lower)
      ensures a in Authorities(higher)
    {
      AuthoritiesByRank(lower, lower);
      var o :| Authority(o) == a;
      AuthoritiesByRank(lower, o);
      AuthoritiesByRank(higher, o);
    }
  }

  /** The participants table, the next key and the development participant's
      key after `getOrCreateDevParticipant`. */
  function WithDev(ps: map<Id, Participant>, next: Id): (r: (Id, map<Id, Participant>, Id))
    ensures r.0 in r.1 && r.1[r.0].sessionToken == DevToken
    ensures FindParticipantBySessionToken(ps, DevToken).Some? ==>
      r == (FindParticipantBySessionToken(ps, DevToken).value, ps, next)
    ensures FindParticipantBySessionToken(ps, DevToken).None? ==>
      r == (next, ps[next := DevParticipant], next + 1)
  {
    var found := FindParticipantBySessionToken(ps, DevToken);
    if found.Some? then (found.value, ps, next) else (next, ps[next := DevParticipant], next + 1)
  }

  /** The development participant is created at most once: a second
      fallback finds the first one and changes nothing. */
  lemma WithDevIdempotent(ps: map<Id, Participant>, next: Id)
    requires KeysBelow(ps, next)
    ensures var once := WithDev(ps, next);
      WithDev(once.1, once.2) == once
  {
    var once := WithDev(ps, next);
    if FindParticipantBySessionToken(ps, DevToken).None? {
      assert next !in ps;
      var again := FindParticipantBySessionToken(once.1, DevToken);
      assert again.Some?;
      assert forall k :: k in once.1 && k != next ==> once.1[k].sessionToken != DevToken;
    }
  }

  /** `getOrCreateDevParticipant`. */
  method GetOrCreateDevParticipant(store: Store) returns (id: Id)
    requires store.Valid()
    modifies store`participants, store`nextParticipantId
    ensures store.Valid()
    ensures (id, store.participants, store.nextParticipantId) == WithDev(old(store.participants), old(store.nextParticipantId))
  {
    var found := FindParticipantBySessionToken(store.participants, DevToken);
    if found.Some? {
      return found.value;
    }
    ghost var before := store.Snapshot();
    AddDevTablesKeepSchema(before);
    id := store.InsertParticipant(DevParticipant);
    assert store.Snapshot() == before.(participants := before.participants[id := DevParticipant],
                                       nextParticipantId := id + 1);
  }

  lemma AddDevTablesKeepSchema(tb: Tables)
    requires Schema(tb) && FindParticipantBySessionToken(tb.participants, DevToken).None?
    ensures Schema(tb.(participants := tb.participants[tb.nextParticipantId := DevParticipant],
                       nextParticipantId := tb.nextParticipantId + 1))
  {
    AddDevKeepsSchema(tb.participants, tb.nextParticipantId, tb.booths, tb.keywords,
                      tb.checkIns, tb.records, tb.resonances);
  }

  lemma AddDevKeepsSchema(ps: map<Id, Participant>, next: Id, bs: map<Id, Booth>, ks: map<Id, GrowthKeyword>,
                          cs: map<Id, CheckIn>, rs: map<Id, LearningRecord>, zs: map<Id, Resonance>)
    requires KeysBelow(ps, next) && UniqueSessionTokens(ps)
    requires FindParticipantBySessionToken(ps, DevToken).None?
    requires BoothReferences(bs, ps, ks) && CheckInReferences(cs, ps, bs) && RecordReferences(rs, ps, bs, ks)
    requires ResonanceReferences(zs, ps, rs)
    ensures var ps' := ps[next := DevParticipant];
      KeysBelow(ps', next + 1) && UniqueSessionTokens(ps') &&
      BoothReferences(bs, ps', ks) && CheckInReferences(cs, ps', bs) && RecordReferences(rs, ps', bs, ks) &&
      ResonanceReferences(zs, ps', rs)
  {
    assert next !in ps;
  }

  /** What the filter attaches to the request: the participant and the
      authorities of their role. */
  datatype Authentication = Authentication(principal: Id, authorities: seq<string>)

  /** `doFilterInternal`. A known bearer token names its participant and
      leaves the table alone; anything else resolves to the development
      participant. Either way an authentication is attached. */
  method DoFilter(store: Store, header: Option<string>) returns (auth: Authentication)
    requires store.Valid()
    modifies store`participants, store`nextParticipantId
    ensures store.Valid()
    ensures auth.principal in store.participants
    ensures auth.authorities == Authorities(store.participants[auth.principal].role)
    ensures var token := BearerToken(header);
      if token.Some? && FindParticipantBySessionToken(old(store.participants), token.value).Some? then
        auth.principal == FindParticipantBySessionToken(old(store.participants), token.value).value &&
        store.participants == old(store.participants) && store.nextParticipantId == old(store.nextParticipantId)
      else
        (auth.principal, store.participants, store.nextParticipantId) ==
          WithDev(old(store.participants), old(store.nextParticipantId))
  {
    var token := BearerToken(header);
    var id: Id;
    if token.Some? && FindParticipantBySessionToken(store.participants, token.value).Some? {
      id := FindParticipantBySessionToken(store.participants, token.value).value;
    } else {
      id := GetOrCreateDevParticipant(store);
    }
    auth := Authentication(id, Authorities(store.participants[id].role));
  }

  /** When the only holder of the development token is the development
      administrator, a request without a known token is granted
      `ROLE_ADMIN`. */
  lemma AnonymousIsAdmin(ps: map<Id, Participant>, next: Id)
    requires forall k :: k in ps && ps[k].sessionToken == DevToken ==> ps[k] == DevParticipant
    ensures var r := WithDev(ps, next);
      r.1[r.0] == DevParticipant && "ROLE_ADMIN" in Authorities(r.1[r.0].role)
  {
  }
}
