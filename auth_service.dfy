/** Sessions: scanning a booth's QR code opens a session for a new booth
    operator (who becomes the booth's operator if it has none yet), and a
    participant can finish onboarding. */
module AuthService {
  import opened Common
  import opened Domain
  import opened Repositories
  import CheckInService
  import GlobalExceptionHandler

  datatype AuthResponse = AuthResponse(
    sessionToken: string,
    role: ParticipantRole,
    onboardingDone: bool,
    displayName: Option<string>)

  function ParticipantNotFound(id: Id): Exception
  {
    NoSuchElement(Some("Participant not found with id: " + Decimal(id)))
  }

  /** The participant a QR session creates: a booth operator named after
      the booth, not yet onboarded. */
  function NewOperator(sessionToken: string, booth: Booth): (p: Participant)
    ensures p.sessionToken == sessionToken && p.role == BOOTH_OPERATOR && !p.onboardingDone
    ensures p.displayName == Some(booth.name)
  {
    Participant(sessionToken, Some(booth.name), BOOTH_OPERATOR, false)
  }

  function ResponseOf(p: Participant): (r: AuthResponse)
    ensures r.sessionToken == p.sessionToken && r.role == p.role && r.onboardingDone == p.onboardingDone &&
            r.displayName == p.displayName
  {
    AuthResponse(p.sessionToken, p.role, p.onboardingDone, p.displayName)
  }

  /** The booth after a new operator's session: an unclaimed booth gets the
      operator, a claimed one keeps its own. */
  function Claimed(b: Booth, operator: Id): (c: Booth)
    ensures c.operator == if b.operator.None? then Some(operator) else b.operator
    ensures c.(operator := b.operator) == b
  {
    if b.operator.None? then b.(operator := Some(operator)) else b
  }

  /** The first session claims the booth for good: later sessions leave
      the operator as it is. */
  lemma ClaimedOnce(b: Booth, first: Id, later: Id)
    ensures Claimed(Claimed(b, first), later) == Claimed(b, first)
    ensures b.operator.None? ==> Claimed(Claimed(b, first), later).operator == Some(first)
  {
  }

  /** `createSessionFromQr`. The session token is the fresh random UUID the
      source draws; it is a parameter here, unused by any participant. */
  method CreateSessionFromQr(store: Store, qrToken: string, sessionToken: string) returns (r: Result<AuthResponse>)
    requires store.Valid()
    requires FindParticipantBySessionToken(store.participants, sessionToken).None?
    modifies store`participants, store`nextParticipantId, store`booths
    ensures store.Valid()
    ensures FindBoothByQrToken(old(store.booths), qrToken).None? ==>
      r == Err(CheckInService.InvalidQrToken) &&
      store.participants == old(store.participants) && store.nextParticipantId == old(store.nextParticipantId) &&
      store.booths == old(store.booths)
    ensures FindBoothByQrToken(old(store.booths), qrToken).Some? ==>
      var b := FindBoothByQrToken(old(store.booths), qrToken).value;
      var id := old(store.nextParticipantId);
      var p := NewOperator(sessionToken, old(store.booths)[b]);
      store.participants == old(store.participants)[id := p] && store.nextParticipantId == id + 1 &&
      store.booths == old(store.booths)[b := Claimed(old(store.booths)[b], id)] &&
      r == Ok(ResponseOf(p))
  {
    var found := FindBoothByQrToken(store.booths, qrToken);
    if found.None? {
      return Err(CheckInService.InvalidQrToken);
    }
    var booth := store.booths[found.value];
    var p := NewOperator(sessionToken, booth);
    ghost var before := store.Snapshot();
    QrSessionKeepsSchema(before, found.value, p);
    var id := store.InsertParticipant(p);
    store.booths := store.booths[found.value := Claimed(booth, id)];
    assert store.Snapshot() == QrSession(before, found.value, p);
    r := Ok(ResponseOf(p));
  }

  /** The tables after a QR session: the new operator added under the next
      key, and the booth claimed for them. */
  function QrSession(t: Tables, b: Id, p: Participant): Tables
    requires b in t.booths
  {
    var id := t.nextParticipantId;
    t.(participants := t.participants[id := p], nextParticipantId := id + 1,
       booths := t.booths[b := Claimed(t.booths[b], id)])
  }

  lemma QrSessionKeepsSchema(t: Tables, b: Id, p: Participant)
    requires Schema(t) && b in t.booths
    requires FindParticipantBySessionToken(t.participants, p.sessionToken).None?
    ensures Schema(QrSession(t, b, p))
  {
    var id := t.nextParticipantId;
    AddParticipantKeepsSchema(t.participants, id, p, t.booths, t.keywords, t.checkIns, t.records, t.resonances);
    ClaimKeepsSchema(t.booths, t.participants[id := p], t.keywords, t.checkIns, t.records, b, id);
  }

  /** A participant with an unused session token can join without breaking
      any schema rule. */
  lemma AddParticipantKeepsSchema(ps: map<Id, Participant>, next: Id, p: Participant, bs: map<Id, Booth>,
                                  ks: map<Id, GrowthKeyword>, cs: map<Id, CheckIn>, rs: map<Id, LearningRecord>,
                                  zs: map<Id, Resonance>)
    requires KeysBelow(ps, next) && UniqueSessionTokens(ps)
    requires FindParticipantBySessionToken(ps, p.sessionToken).None?
    requires BoothReferences(bs, ps, ks) && CheckInReferences(cs, ps, bs) && RecordReferences(rs, ps, bs, ks)
    requires ResonanceReferences(zs, ps, rs)
    ensures var ps' := ps[next := p];
      KeysBelow(ps', next + 1) && UniqueSessionTokens(ps') &&
      BoothReferences(bs, ps', ks) && CheckInReferences(cs, ps', bs) && RecordReferences(rs, ps', bs, ks) &&
      ResonanceReferences(zs, ps', rs)
  {
    assert next !in ps;
  }

  /** Claiming a booth for an existing participant keeps every rule. */
  lemma ClaimKeepsSchema(bs: map<Id, Booth>, ps: map<Id, Participant>, ks: map<Id, GrowthKeyword>,
                         cs: map<Id, CheckIn>, rs: map<Id, LearningRecord>, b: Id, operator: Id)
    requires b in bs && operator in ps
    requires UniqueBoothCodes(bs) && UniqueQrTokens(bs) && BoothReferences(bs, ps, ks)
    requires CheckInReferences(cs, ps, bs) && RecordReferences(rs, ps, bs, ks)
    ensures var bs' := bs[b := Claimed(bs[b], operator)];
      bs'.Keys == bs.Keys &&
      UniqueBoothCodes(bs') && UniqueQrTokens(bs') && BoothReferences(bs', ps, ks) &&
      CheckInReferences(cs, ps, bs') && RecordReferences(rs, ps, bs', ks)
  {
  }

  /** `getParticipant`: the participant holding the session token, if any. */
  function GetParticipant(store: Store, sessionToken: string): (r: Option<Participant>)
    reads store
    ensures r.Some? <==> exists k :: k in store.participants && store.participants[k].sessionToken == sessionToken
    ensures r.Some? ==> r.value.sessionToken == sessionToken
  {
    var found := FindParticipantBySessionToken(store.participants, sessionToken);
    if found.Some? then Some(store.participants[found.value]) else None
  }

  /** Session tokens are unique, so a token names exactly one participant. */
  lemma SessionTokenIdentifies(store: Store, k: Id)
    requires store.Valid() && k in store.participants
    ensures FindParticipantBySessionToken(store.participants, store.participants[k].sessionToken) == Some(k)
    ensures GetParticipant(store, store.participants[k].sessionToken) == Some(store.participants[k])
  {
    var found := FindParticipantBySessionToken(store.participants, store.participants[k].sessionToken);
    assert found.Some?;
  }

  /** An unknown QR token answers 400, an unknown participant 404, each
      with the message it was raised with. */
  lemma AuthErrorStatuses(id: Id)
    ensures GlobalExceptionHandler.Handle(CheckInService.InvalidQrToken).status == GlobalExceptionHandler.BadRequest
    ensures GlobalExceptionHandler.Handle(ParticipantNotFound(id)).status == GlobalExceptionHandler.NotFound
    ensures GlobalExceptionHandler.Handle(ParticipantNotFound(id)).body.error ==
      Some("Participant not found with id: " + Decimal(id))
  {
  }

  /** The participants table once `id` has finished onboarding. */
  function Onboarded(ps: map<Id, Participant>, id: Id): map<Id, Participant>
    requires id in ps
  {
    ps[id := ps[id].(onboardingDone := true)]
  }

  /** Onboarding sets one flag of one participant: every key, every other
      participant and every other field stays, and doing it again changes
      nothing. */
  lemma OnboardedOnlyFlag(ps: map<Id, Participant>, id: Id)
    requires id in ps
    ensures Onboarded(ps, id).Keys == ps.Keys
    ensures Onboarded(ps, id)[id].onboardingDone
    ensures Onboarded(ps, id)[id].(onboardingDone := ps[id].onboardingDone) == ps[id]
    ensures forall k :: k in ps && k != id ==> Onboarded(ps, id)[k] == ps[k]
    ensures Onboarded(Onboarded(ps, id), id) == Onboarded(ps, id)
  {
  }

  /** Onboarding keeps session tokens, so every schema rule still holds. */
  lemma OnboardedKeepsSchema(ps: map<Id, Participant>, id: Id, next: Id)
    requires id in ps && KeysBelow(ps, next) && UniqueSessionTokens(ps)
    ensures KeysBelow(Onboarded(ps, id), next) && UniqueSessionTokens(Onboarded(ps, id))
  {
  }

  /** `completeOnboarding`: only the flag changes. */
  method CompleteOnboarding(store: Store, id: Id) returns (r: Result<Unit>)
    requires store.Valid()
    modifies store`participants
    ensures store.Valid()
    ensures id !in old(store.participants) ==>
      r == Err(ParticipantNotFound(id)) && store.participants == old(store.participants)
    ensures id in old(store.participants) ==>
      store.participants == Onboarded(old(store.participants), id) && r == Ok(Unit)
  {
    if id !in store.participants {
      return Err(ParticipantNotFound(id));
    }
    OnboardedKeepsSchema(store.participants, id, store.nextParticipantId);
    store.participants := Onboarded(store.participants, id);
    r := Ok(Unit);
  }
}
