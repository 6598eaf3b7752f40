/** The persistent entities (one row of each table) and the enumerations
    they use. Entities are values; the tables holding them are the maps of
    `Repositories.Store`. Timestamps that only record when a row was last
    touched (`updatedAt`, `lastActiveAt`) are not part of the rows. */
module Domain {
  import opened Common

  /** A generated primary key. */
  type Id = nat

  /** A point in time, in nanoseconds since the epoch (the precision of
      `java.time.Instant`). */
  type Instant = int

  datatype ParticipantRole = PARTICIPANT | BOOTH_OPERATOR | ADMIN

  datatype CheckInMethod = QR | MANUAL

  datatype ResonanceType = SUPPORT | SHARED_EXPERIENCE

  datatype CrowdLevel = LOW | MEDIUM | HIGH

  /** The enum constant's `name`, as serialised to JSON. */
  function RoleName(r: ParticipantRole): string
  {
    match r
    case PARTICIPANT => "PARTICIPANT"
    case BOOTH_OPERATOR => "BOOTH_OPERATOR"
    case ADMIN => "ADMIN"
  }

  function ResonanceTypeName(t: ResonanceType): string
  {
    match t
    case SUPPORT => "SUPPORT"
    case SHARED_EXPERIENCE => "SHARED_EXPERIENCE"
  }

  /** Distinct resonance types have distinct names. */
  lemma ResonanceTypeNameInjective(s: ResonanceType, t: ResonanceType)
    ensures ResonanceTypeName(s) == ResonanceTypeName(t) <==> s == t
  {
  }

  /** A row of `participants`. */
  datatype Participant = Participant(
    sessionToken: string,
    displayName: Option<string>,
    role: ParticipantRole,
    onboardingDone: bool)

  /** A row of `booths`, with its keyword associations. */
  datatype Booth = Booth(
    code: string,
    name: string,
    operator: Option<Id>,
    ideaSummary: Option<string>,
    wrongAssumption: Option<string>,
    trialMoments: Option<string>,
    learningPivot: Option<string>,
    currentState: Option<string>,
    locationDesc: Option<string>,
    qrToken: string,
    isActive: bool,
    keywords: set<Id>)

  /** A row of `check_ins`. */
  datatype CheckIn = CheckIn(
    participant: Id,
    booth: Id,
    via: CheckInMethod,
    checkedInAt: Instant)

  /** A row of `growth_keywords`. */
  datatype GrowthKeyword = GrowthKeyword(
    name: string,
    nameEn: Option<string>,
    sortOrder: int,
    isActive: bool)

  /** A row of `learning_records`, with its keyword associations. */
  datatype LearningRecord = LearningRecord(
    participant: Id,
    booth: Id,
    content: string,
    keywords: set<Id>,
    createdAt: Instant)

  /** A row of `resonances`. */
  datatype Resonance = Resonance(
    record: Id,
    participant: Id,
    rtype: ResonanceType,
    createdAt: Instant)

  /** The `KeywordResponse` projection of a keyword row. */
  datatype KeywordResponse = KeywordResponse(id: Id, name: string, nameEn: Option<string>)

  /** The keyword responses of the existing keywords among `ids`; a keyword
      row is found by id whatever its active flag. */
  function KeywordResponses(keywords: map<Id, GrowthKeyword>, ids: set<Id>): (r: set<KeywordResponse>)
    ensures forall k :: k in r ==>
      k.id in ids && k.id in keywords && k == KeywordResponse(k.id, keywords[k.id].name, keywords[k.id].nameEn)
    ensures forall id :: id in ids && id in keywords ==>
      KeywordResponse(id, keywords[id].name, keywords[id].nameEn) in r
  {
    set id | id in ids && id in keywords :: KeywordResponse(id, keywords[id].name, keywords[id].nameEn)
  }
}
