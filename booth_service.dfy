/** Booth listing, lookup, registration and editing. */
module BoothService {
  import opened Common
  import opened Domain
  import opened Repositories
  import opened CrowdStatusService

  datatype CreateBoothRequest = CreateBoothRequest(
    code: string,
    name: string,
    ideaSummary: Option<string>,
    wrongAssumption: Option<string>,
    trialMoments: Option<string>,
    learningPivot: Option<string>,
    currentState: Option<string>,
    locationDesc: Option<string>,
    keywordIds: seq<Id>)

  /** A partial edit: `None` leaves a field as it is. */
  datatype UpdateBoothRequest = UpdateBoothRequest(
    name: Option<string>,
    ideaSummary: Option<string>,
    wrongAssumption: Option<string>,
    trialMoments: Option<string>,
    learningPivot: Option<string>,
    currentState: Option<string>,
    locationDesc: Option<string>,
    keywordIds: Option<seq<Id>>)

  datatype BoothListResponse = BoothListResponse(
    id: Id,
    code: string,
    name: string,
    locationDesc: Option<string>,
    keywords: set<KeywordResponse>,
    crowdLevel: CrowdLevel,
    crowdCount: int)

  datatype BoothDetailResponse = BoothDetailResponse(
    id: Id,
    code: string,
    name: string,
    ideaSummary: Option<string>,
    wrongAssumption: Option<string>,
    trialMoments: Option<string>,
    learningPivot: Option<string>,
    currentState: Option<string>,
    locationDesc: Option<string>,
    keywords: set<KeywordResponse>,
    crowdLevel: CrowdLevel,
    crowdCount: int)

  function BoothNotFound(id: Id): Exception
  {
    NoSuchElement(Some("Booth not found with id: " + Decimal(id)))
  }

  function DuplicateCode(code: string): Exception
  {
    IllegalArgument(Some("Booth code '" + code + "' already exists"))
  }

  const NotOperator: Exception := IllegalState(Some("Only the booth operator can update this booth"))

  /** `toDetailResponse`. */
  function DetailResponse(id: Id, b: Booth, ks: map<Id, GrowthKeyword>, level: CrowdLevel, count: int)
    : BoothDetailResponse
  {
    BoothDetailResponse(id, b.code, b.name, b.ideaSummary, b.wrongAssumption, b.trialMoments,
      b.learningPivot, b.currentState, b.locationDesc, KeywordResponses(ks, b.keywords), level, count)
  }

  /** One element of `getActiveBooths`: the booth's own identity, its
      check-ins in the current window and the level that count falls in. */
  function ListResponse(row: Row<Booth>, ks: map<Id, GrowthKeyword>, cs: map<Id, CheckIn>, now: Instant,
                        cfg: CrowdConfig): (r: BoothListResponse)
    ensures r.id == row.0 && r.code == row.1.code && r.name == row.1.name
    ensures r.locationDesc == row.1.locationDesc && r.keywords == KeywordResponses(ks, row.1.keywords)
    ensures r.crowdCount == CrowdCount(cs, row.0, now, cfg)
    ensures r.crowdLevel == HIGH <==> r.crowdCount >= cfg.highThreshold
    ensures r.crowdLevel == MEDIUM <==> cfg.mediumThreshold <= r.crowdCount < cfg.highThreshold
    ensures r.crowdLevel == LOW <==> r.crowdCount < cfg.mediumThreshold && r.crowdCount < cfg.highThreshold
  {
    var count := CrowdCount(cs, row.0, now, cfg);
    BoothListResponse(row.0, row.1.code, row.1.name, row.1.locationDesc, KeywordResponses(ks, row.1.keywords),
      DetermineCrowdLevel(count, cfg), count)
  }

  /** The list entry and the detail of one booth, built from the same
      window, report the same booth, keywords, count and level. */
  lemma ListAgreesWithDetail(row: Row<Booth>, ks: map<Id, GrowthKeyword>, cs: map<Id, CheckIn>, now: Instant,
                             cfg: CrowdConfig)
    ensures var count := CrowdCount(cs, row.0, now, cfg);
      var l := ListResponse(row, ks, cs, now, cfg);
      var d := DetailResponse(row.0, row.1, ks, DetermineCrowdLevel(count, cfg), count);
      l.id == d.id && l.code == d.code && l.name == d.name && l.locationDesc == d.locationDesc &&
      l.keywords == d.keywords && l.crowdLevel == d.crowdLevel && l.crowdCount == d.crowdCount
  {
  }

  function ListResponses(rows: seq<Row<Booth>>, ks: map<Id, GrowthKeyword>, cs: map<Id, CheckIn>, now: Instant,
                         cfg: CrowdConfig): (r: seq<BoothListResponse>)
    ensures |r| == |rows|
    ensures forall i :: 0 <= i < |r| ==> r[i] == ListResponse(rows[i], ks, cs, now, cfg)
  {
    if rows == [] then [] else [ListResponse(rows[0], ks, cs, now, cfg)] + ListResponses(rows[1..], ks, cs, now, cfg)
  }

  /** `getActiveBooths`: the active booths by code, each with the crowd count
      of the current window and its level. */
  function GetActiveBooths(store: Store, now: Instant, cfg: CrowdConfig): (r: seq<BoothListResponse>)
    reads store
    ensures |r| == |ActiveBoothsByCode(store.booths)|
    ensures forall i :: 0 <= i < |r| ==>
      r[i].id == ActiveBoothsByCode(store.booths)[i].0 &&
      r[i].id in store.booths && store.booths[r[i].id].isActive &&
      r[i].code == store.booths[r[i].id].code && r[i].name == store.booths[r[i].id].name
    ensures forall i :: 0 <= i < |r| ==>
      r[i].locationDesc == store.booths[r[i].id].locationDesc &&
      r[i].keywords == KeywordResponses(store.keywords, store.booths[r[i].id].keywords)
    ensures forall i :: 0 <= i < |r| ==>
      r[i].crowdCount == |RecentCheckIns(store.checkIns, r[i].id, WindowStart(now, cfg))| &&
      r[i].crowdLevel == DetermineCrowdLevel(r[i].crowdCount, cfg)
  {
    var active := ActiveBoothsByCode(store.booths);
    var r := ListResponses(active, store.keywords, store.checkIns, now, cfg);
    r
  }

  /** The booth list and the crowd broadcast agree: same booths in the same
      order, with the same count and level. */
  lemma ActiveBoothsAgreeWithCrowdStatus(store: Store, now: Instant, cfg: CrowdConfig)
    ensures var list := GetActiveBooths(store, now, cfg);
            var status := ComputeCurrentStatus(store.booths, store.checkIns, now, cfg);
            |list| == |status| &&
            forall i :: 0 <= i < |list| ==>
              list[i].id == status[i].boothId && list[i].code == status[i].code &&
              list[i].crowdCount == status[i].count && list[i].crowdLevel == status[i].level
  {
  }

  /** `getBoothById`: any booth, active or not, with its current crowd data. */
  function GetBoothById(store: Store, id: Id, now: Instant, cfg: CrowdConfig): (r: Result<BoothDetailResponse>)
    reads store
    ensures id !in store.booths <==> r == Err(BoothNotFound(id))
    ensures r.Ok? ==>
      var b := store.booths[id];
      r.value.id == id && r.value.code == b.code && r.value.name == b.name &&
      r.value.ideaSummary == b.ideaSummary && r.value.wrongAssumption == b.wrongAssumption &&
      r.value.trialMoments == b.trialMoments && r.value.learningPivot == b.learningPivot &&
      r.value.currentState == b.currentState && r.value.locationDesc == b.locationDesc &&
      r.value.keywords == KeywordResponses(store.keywords, b.keywords) &&
      r.value.crowdCount == |RecentCheckIns(store.checkIns, id, WindowStart(now, cfg))| &&
      r.value.crowdLevel == DetermineCrowdLevel(r.value.crowdCount, cfg)
  {
    if id !in store.booths then Err(BoothNotFound(id))
    else
      var count := CrowdCount(store.checkIns, id, now, cfg);
      Ok(DetailResponse(id, store.booths[id], store.keywords, DetermineCrowdLevel(count, cfg), count))
  }

  /** The booth `createBooth` saves: the caller operates it, it is active, and
      its keywords are the existing ones among the requested ids. */
  function NewBooth(req: CreateBoothRequest, operator: Id, qrToken: string, ks: map<Id, GrowthKeyword>)
    : (b: Booth)
    ensures b.code == req.code && b.name == req.name && b.qrToken == qrToken
    ensures b.operator == Some(operator) && b.isActive
    ensures b.keywords <= ks.Keys
    ensures forall k :: k in ks ==> (k in b.keywords <==> k in req.keywordIds)
  {
    var keywords := if |req.keywordIds| > 0 then FindAllKeywordsById(ks, req.keywordIds) else {};
    Booth(req.code, req.name, Some(operator), req.ideaSummary, req.wrongAssumption, req.trialMoments,
      req.learningPivot, req.currentState, req.locationDesc, qrToken, true, keywords)
  }

  /** `createBooth`. `qrToken` is the freshly generated UUID. */
  method CreateBooth(store: Store, req: CreateBoothRequest, operator: Id, qrToken: string)
    returns (r: Result<BoothDetailResponse>)
    requires store.Valid()
    requires operator in store.participants
    requires forall b :: b in store.booths ==> store.booths[b].qrToken != qrToken
    modifies store`booths, store`nextBoothId
    ensures store.Valid()
    ensures BoothCodeExists(old(store.booths), req.code) ==>
      r == Err(DuplicateCode(req.code)) &&
      store.booths == old(store.booths) && store.nextBoothId == old(store.nextBoothId)
    ensures !BoothCodeExists(old(store.booths), req.code) ==>
      var b := NewBooth(req, operator, qrToken, store.keywords);
      store.booths == old(store.booths)[old(store.nextBoothId) := b] &&
      r == Ok(DetailResponse(old(store.nextBoothId), b, store.keywords, LOW, 0))
  {
    if BoothCodeExists(store.booths, req.code) {
      return Err(DuplicateCode(req.code));
    }
    var b := NewBooth(req, operator, qrToken, store.keywords);
    ghost var before := store.Snapshot();
    AddBoothKeepsSchema(before, b);
    var id := store.InsertBooth(b);
    assert store.Snapshot() == before.(booths := before.booths[id := b], nextBoothId := id + 1);
    r := Ok(DetailResponse(id, b, store.keywords, LOW, 0));
  }

  /** A booth with a new code and QR token, an existing operator and
      existing keywords fits the schema under the next key. */
  lemma AddBoothKeepsSchema(tb: Tables, b: Booth)
    requires Schema(tb)
    requires !BoothCodeExists(tb.booths, b.code)
    requires forall k :: k in tb.booths ==> tb.booths[k].qrToken != b.qrToken
    requires (b.operator.Some? ==> b.operator.value in tb.participants) && b.keywords <= tb.keywords.Keys
    ensures Schema(tb.(booths := tb.booths[tb.nextBoothId := b], nextBoothId := tb.nextBoothId + 1))
  {
    var bs' := tb.booths[tb.nextBoothId := b];
    assert tb.nextBoothId !in tb.booths;
    assert UniqueBoothCodes(bs');
    assert UniqueQrTokens(bs');
    assert BoothReferences(bs', tb.participants, tb.keywords);
  }

  /** `x?.let { field = it }` on a nullable field. */
  function Overwrite<T>(update: Option<T>, current: Option<T>): (r: Option<T>)
    ensures update.Some? ==> r == update
    ensures update.None? ==> r == current
    ensures current.Some? ==> r.Some?
  {
    if update.Some? then update else current
  }

  /** The booth after the edits of lines 101-112: every given field replaces
      the old value, keyword ids replace the whole keyword set, and code, QR
      token, active flag and operator stay. */
  function PatchedBooth(b: Booth, req: UpdateBoothRequest, ks: map<Id, GrowthKeyword>): (p: Booth)
    ensures p.code == b.code && p.qrToken == b.qrToken && p.isActive == b.isActive && p.operator == b.operator
    ensures p.name == GetOr(req.name, b.name)
    ensures p.ideaSummary == Overwrite(req.ideaSummary, b.ideaSummary)
    ensures p.wrongAssumption == Overwrite(req.wrongAssumption, b.wrongAssumption)
    ensures p.trialMoments == Overwrite(req.trialMoments, b.trialMoments)
    ensures p.learningPivot == Overwrite(req.learningPivot, b.learningPivot)
    ensures p.currentState == Overwrite(req.currentState, b.currentState)
    ensures p.locationDesc == Overwrite(req.locationDesc, b.locationDesc)
    ensures req.keywordIds.None? ==> p.keywords == b.keywords
    ensures req.keywordIds.Some? ==> p.keywords == FindAllKeywordsById(ks, req.keywordIds.value)
  {
    b.(name := GetOr(req.name, b.name),
       ideaSummary := Overwrite(req.ideaSummary, b.ideaSummary),
       wrongAssumption := Overwrite(req.wrongAssumption, b.wrongAssumption),
       trialMoments := Overwrite(req.trialMoments, b.trialMoments),
       learningPivot := Overwrite(req.learningPivot, b.learningPivot),
       currentState := Overwrite(req.currentState, b.currentState),
       locationDesc := Overwrite(req.locationDesc, b.locationDesc),
       keywords := if req.keywordIds.Some? then FindAllKeywordsById(ks, req.keywordIds.value) else b.keywords)
  }

  /** Applying the same edit twice is the same as applying it once. */
  lemma PatchIdempotent(b: Booth, req: UpdateBoothRequest, ks: map<Id, GrowthKeyword>)
    ensures PatchedBooth(PatchedBooth(b, req, ks), req, ks) == PatchedBooth(b, req, ks)
  {
  }

  /** An edit with every field absent changes nothing. */
  lemma EmptyPatchIsIdentity(b: Booth, ks: map<Id, GrowthKeyword>)
    ensures PatchedBooth(b, UpdateBoothRequest(None, None, None, None, None, None, None, None), ks) == b
  {
  }

  /** A field that holds a value can be overwritten, never cleared. */
  lemma PatchNeverClears(b: Booth, req: UpdateBoothRequest, ks: map<Id, GrowthKeyword>)
    ensures var p := PatchedBooth(b, req, ks);
      (b.ideaSummary.Some? ==> p.ideaSummary.Some?) &&
      (b.wrongAssumption.Some? ==> p.wrongAssumption.Some?) &&
      (b.trialMoments.Some? ==> p.trialMoments.Some?) &&
      (b.learningPivot.Some? ==> p.learningPivot.Some?) &&
      (b.currentState.Some? ==> p.currentState.Some?) &&
      (b.locationDesc.Some? ==> p.locationDesc.Some?)
  {
  }

  /** Replacing a booth's row by one with the same code, QR token and
      operator and with existing keywords keeps every schema rule about
      booths. */
  lemma ReplaceBoothKeepsSchema(bs: map<Id, Booth>, next: Id, ps: map<Id, Participant>, ks: map<Id, GrowthKeyword>,
                                cs: map<Id, CheckIn>, rs: map<Id, LearningRecord>, id: Id, b: Booth)
    requires id in bs
    requires b.code == bs[id].code && b.qrToken == bs[id].qrToken && b.operator == bs[id].operator
    requires b.keywords <= ks.Keys
    requires KeysBelow(bs, next) && UniqueBoothCodes(bs) && UniqueQrTokens(bs)
    requires BoothReferences(bs, ps, ks) && CheckInReferences(cs, ps, bs) && RecordReferences(rs, ps, bs, ks)
    ensures KeysBelow(bs[id := b], next) && UniqueBoothCodes(bs[id := b]) && UniqueQrTokens(bs[id := b])
    ensures BoothReferences(bs[id := b], ps, ks) && CheckInReferences(cs, ps, bs[id := b])
    ensures RecordReferences(rs, ps, bs[id := b], ks)
  {
  }

  lemma ReplaceBoothTablesKeepSchema(tb: Tables, id: Id, b: Booth)
    requires Schema(tb) && id in tb.booths
    requires b.code == tb.booths[id].code && b.qrToken == tb.booths[id].qrToken && b.operator == tb.booths[id].operator
    requires b.keywords <= tb.keywords.Keys
    ensures Schema(tb.(booths := tb.booths[id := b]))
  {
    ReplaceBoothKeepsSchema(tb.booths, tb.nextBoothId, tb.participants, tb.keywords, tb.checkIns, tb.records, id, b);
  }

  /** `updateBooth`: only the booth's operator may edit it; a booth without
      an operator cannot be edited at all. */
  method UpdateBooth(store: Store, id: Id, req: UpdateBoothRequest, operator: Id, now: Instant, cfg: CrowdConfig)
    returns (r: Result<BoothDetailResponse>)
    requires store.Valid()
    modifies store`booths
    ensures store.Valid()
    ensures id !in old(store.booths) ==> r == Err(BoothNotFound(id)) && store.booths == old(store.booths)
    ensures id in old(store.booths) && old(store.booths)[id].operator != Some(operator) ==>
      r == Err(NotOperator) && store.booths == old(store.booths)
    ensures id in old(store.booths) && old(store.booths)[id].operator == Some(operator) ==>
      var p := PatchedBooth(old(store.booths)[id], req, store.keywords);
      var count := |RecentCheckIns(store.checkIns, id, WindowStart(now, cfg))|;
      store.booths == old(store.booths)[id := p] &&
      r == Ok(DetailResponse(id, p, store.keywords, DetermineCrowdLevel(count, cfg), count))
  {
    if id !in store.booths {
      return Err(BoothNotFound(id));
    }
    var b := store.booths[id];
    if b.operator != Some(operator) {
      return Err(NotOperator);
    }
    b := b.(name := GetOr(req.name, b.name));
    b := b.(ideaSummary := Overwrite(req.ideaSummary, b.ideaSummary));
    b := b.(wrongAssumption := Overwrite(req.wrongAssumption, b.wrongAssumption));
    b := b.(trialMoments := Overwrite(req.trialMoments, b.trialMoments));
    b := b.(learningPivot := Overwrite(req.learningPivot, b.learningPivot));
    b := b.(currentState := Overwrite(req.currentState, b.currentState));
    b := b.(locationDesc := Overwrite(req.locationDesc, b.locationDesc));
    if req.keywordIds.Some? {
      b := b.(keywords := FindAllKeywordsById(store.keywords, req.keywordIds.value));
    }
    assert b == PatchedBooth(store.booths[id], req, store.keywords);
    ghost var before := store.Snapshot();
    ReplaceBoothTablesKeepSchema(before, id, b);
    store.booths := store.booths[id := b];
    assert store.Snapshot() == before.(booths := before.booths[id := b]);
    var count := CrowdCount(store.checkIns, id, now, cfg);
    r := Ok(DetailResponse(id, b, store.keywords, DetermineCrowdLevel(count, cfg), count));
  }
}
