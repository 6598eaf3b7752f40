/** Learning records: what a participant learned at a booth, tagged with
    growth keywords, with the resonance counts other participants add. */
module LearningRecordService {
  import opened Common
  import opened Domain
  import opened Sequences
  import opened Sorting
  import opened Repositories
  import BoothService
  import GlobalExceptionHandler

  datatype CreateLearningRecordRequest = CreateLearningRecordRequest(booth: Id, content: string, keywordIds: seq<Id>)

  /** A partial edit: `None` leaves a field as it is. */
  datatype UpdateLearningRecordRequest = UpdateLearningRecordRequest(
    content: Option<string>,
    keywordIds: Option<seq<Id>>)

  datatype LearningRecordResponse = LearningRecordResponse(
    id: Id,
    boothId: Id,
    boothName: string,
    participantId: Id,
    participantName: Option<string>,
    content: string,
    keywords: set<KeywordResponse>,
    supportCount: nat,
    sharedExperienceCount: nat,
    myResonances: seq<string>,
    createdAt: Instant)

  /** The not-found error of every lookup by record id. */
  function RecordNotFound(id: Id): Exception
  {
    NoSuchElement(Some("Learning record not found with id: " + Decimal(id)))
  }

  const NotAuthorToUpdate: Exception := IllegalState(Some("Only the author can update this learning record"))
  const NotAuthorToDelete: Exception := IllegalState(Some("Only the author can delete this learning record"))

  // ---------------------------------------------------------------------
  // `toResponse`

  /** The type names of the viewer's resonances on the record among the
      given rows, in row order. */
  function ViewerNames(rows: seq<Row<Resonance>>, record: Id, viewer: Id): seq<string>
  {
    if rows == [] then []
    else
      var z := rows[0].1;
      (if z.record == record && z.participant == viewer then [ResonanceTypeName(z.rtype)] else []) +
      ViewerNames(rows[1..], record, viewer)
  }

  /** `myResonances`: the type names of the viewer's resonances on the
      record (`findByRecordIdAndParticipantId`), in key order. */
  function MyResonances(zs: map<Id, Resonance>, record: Id, viewer: Id): seq<string>
  {
    ViewerNames(Rows(zs), record, viewer)
  }

  /** The resonance is the viewer's, of type `t`, on the record. */
  predicate IsViewers(z: Resonance, record: Id, viewer: Id, t: ResonanceType)
  {
    z.record == record && z.participant == viewer && z.rtype == t
  }

  /** Some row is the viewer's resonance of type `t` on the record. */
  ghost predicate HasViewersRow(rows: seq<Row<Resonance>>, record: Id, viewer: Id, t: ResonanceType)
  {
    exists i :: 0 <= i < |rows| && IsViewers(rows[i].1, record, viewer, t)
  }

  /** A type is named exactly when one of the rows is the viewer's resonance
      of that type on the record. */
  lemma {:induction false} ViewerNamesMembers(rows: seq<Row<Resonance>>, record: Id, viewer: Id, t: ResonanceType)
    ensures ResonanceTypeName(t) in ViewerNames(rows, record, viewer) <==> HasViewersRow(rows, record, viewer, t)
  {
    if rows != [] {
      var tail := rows[1..];
      ViewerNamesMembers(tail, record, viewer, t);
      ResonanceTypeNameInjective(t, rows[0].1.rtype);
      if HasViewersRow(tail, record, viewer, t) {
        var i :| 0 <= i < |tail| && IsViewers(tail[i].1, record, viewer, t);
        assert rows[i + 1] == tail[i];
      }
      if HasViewersRow(rows, record, viewer, t) {
        var i :| 0 <= i < |rows| && IsViewers(rows[i].1, record, viewer, t);
        if i > 0 {
          assert tail[i - 1] == rows[i];
        }
      }
    }
  }

  /** The viewer's list names a type exactly when the viewer has given the
      record a resonance of that type. */
  lemma MyResonancesNames(zs: map<Id, Resonance>, record: Id, viewer: Id, t: ResonanceType)
    ensures ResonanceTypeName(t) in MyResonances(zs, record, viewer) <==> FindResonance(zs, record, viewer, t).Some?
  {
    var rows := Rows(zs);
    ViewerNamesMembers(rows, record, viewer, t);
    var found := FindResonance(zs, record, viewer, t);
    if found.Some? {
      var k := found.value;
      assert (k, zs[k]) in rows;
      var i :| 0 <= i < |rows| && rows[i] == (k, zs[k]);
      assert IsViewers(rows[i].1, record, viewer, t);
    }
    if HasViewersRow(rows, record, viewer, t) {
      var i :| 0 <= i < |rows| && IsViewers(rows[i].1, record, viewer, t);
      var k := rows[i].0;
      assert k in zs && zs[k] == rows[i].1;
    }
  }

  /** With at most one resonance per (record, participant, type), the
      viewer's list names no type twice. */
  lemma MyResonancesDistinct(zs: map<Id, Resonance>, record: Id, viewer: Id)
    requires OneResonancePerTriple(zs)
    ensures NoDuplicates(MyResonances(zs, record, viewer))
  {
    RowsAreSortedRows(zs);
    ViewerNamesDistinct(zs, Rows(zs), record, viewer);
  }

  /** The rows are the table's rows in ascending key order. */
  ghost predicate SortedRows(zs: map<Id, Resonance>, rows: seq<Row<Resonance>>)
  {
    (forall i :: 0 <= i < |rows| ==> rows[i].0 in zs && rows[i].1 == zs[rows[i].0]) &&
    (forall i, j :: 0 <= i < j < |rows| ==> rows[i].0 < rows[j].0)
  }

  lemma RowsAreSortedRows(zs: map<Id, Resonance>)
    ensures SortedRows(zs, Rows(zs))
  {
  }

  /** So the viewer's list holds at most two entries. */
  lemma MyResonancesAtMostTwo(zs: map<Id, Resonance>, record: Id, viewer: Id)
    requires OneResonancePerTriple(zs)
    ensures |MyResonances(zs, record, viewer)| <= 2
  {
    MyResonancesDistinct(zs, record, viewer);
    ViewerNamesAreTypeNames(Rows(zs), record, viewer);
    TwoNamesAtMost(MyResonances(zs, record, viewer));
  }

  lemma {:induction false} ViewerNamesDistinct(zs: map<Id, Resonance>, rows: seq<Row<Resonance>>, record: Id, viewer: Id)
    requires OneResonancePerTriple(zs)
    requires SortedRows(zs, rows)
    ensures NoDuplicates(ViewerNames(rows, record, viewer))
  {
    if rows != [] {
      var tail := rows[1..];
      assert SortedRows(zs, tail) by {
        forall i, j | 0 <= i < j < |tail| ensures tail[i].0 < tail[j].0 {
          assert tail[i] == rows[i + 1] && tail[j] == rows[j + 1];
        }
      }
      ViewerNamesDistinct(zs, tail, record, viewer);
      var z := rows[0].1;
      if z.record == record && z.participant == viewer {
        ViewerNamesMembers(tail, record, viewer, z.rtype);
        forall i | 0 <= i < |tail|
          ensures !IsViewers(tail[i].1, record, viewer, z.rtype)
        {
          assert tail[i] == rows[i + 1];
          assert rows[0].0 < rows[i + 1].0;
        }
        var n := ResonanceTypeName(z.rtype);
        var rest := ViewerNames(tail, record, viewer);
        assert ViewerNames(rows, record, viewer) == [n] + rest;
        forall i, j | 0 <= i < j < |[n] + rest|
          ensures ([n] + rest)[i] != ([n] + rest)[j]
        {
          if i == 0 {
            assert ([n] + rest)[j] == rest[j - 1];
          } else {
            assert ([n] + rest)[i] == rest[i - 1] && ([n] + rest)[j] == rest[j - 1];
          }
        }
      } else {
        assert ViewerNames(rows, record, viewer) == ViewerNames(tail, record, viewer);
      }
    }
  }

  lemma {:induction false} ViewerNamesAreTypeNames(rows: seq<Row<Resonance>>, record: Id, viewer: Id)
    ensures forall i :: 0 <= i < |ViewerNames(rows, record, viewer)| ==>
      ViewerNames(rows, record, viewer)[i] == "SUPPORT" || ViewerNames(rows, record, viewer)[i] == "SHARED_EXPERIENCE"
  {
    if rows != [] {
      ViewerNamesAreTypeNames(rows[1..], record, viewer);
    }
  }

  /** A list without repeats drawn from the two type names has at most two
      entries. */
  lemma TwoNamesAtMost(r: seq<string>)
    requires forall i :: 0 <= i < |r| ==> r[i] == "SUPPORT" || r[i] == "SHARED_EXPERIENCE"
    requires NoDuplicates(r)
    ensures |r| <= 2
  {
    PigeonHole(r);
  }

  lemma PigeonHole(r: seq<string>)
    requires forall i :: 0 <= i < |r| ==> r[i] == "SUPPORT" || r[i] == "SHARED_EXPERIENCE"
    ensures |r| >= 3 ==> r[0] == r[1] || r[0] == r[2] || r[1] == r[2]
  {
  }

  /** The schema rule a response needs: every record's booth, author and
      keywords exist. */
  ghost predicate Linked(store: Store)
    reads store
  {
    RecordReferences(store.records, store.participants, store.booths, store.keywords)
  }

  /** `toResponse`, seen by `viewer`. */
  function ResponseFor(store: Store, id: Id, viewer: Id): LearningRecordResponse
    reads store
    requires Linked(store) && id in store.records
  {
    var x := store.records[id];
    LearningRecordResponse(id, x.booth, store.booths[x.booth].name, x.participant,
      store.participants[x.participant].displayName, x.content, KeywordResponses(store.keywords, x.keywords),
      CountResonances(store.resonances, id, SUPPORT), CountResonances(store.resonances, id, SHARED_EXPERIENCE),
      MyResonances(store.resonances, id, viewer), x.createdAt)
  }

  /** The response carries the record with its booth's name and its
      author's display name, the responses of exactly its keywords, the
      number of its resonances of each type, and the viewer's own types. */
  lemma ResponseFields(store: Store, id: Id, viewer: Id)
    requires Linked(store) && id in store.records
    ensures var r := ResponseFor(store, id, viewer);
      var x := store.records[id];
      r.id == id && r.boothId == x.booth && r.participantId == x.participant && r.content == x.content &&
      r.createdAt == x.createdAt && r.boothName == store.booths[x.booth].name &&
      r.participantName == store.participants[x.participant].displayName &&
      (forall kw :: kw in r.keywords ==>
        kw.id in x.keywords && kw.id in store.keywords &&
        kw == KeywordResponse(kw.id, store.keywords[kw.id].name, store.keywords[kw.id].nameEn)) &&
      (forall k :: k in x.keywords && k in store.keywords ==>
        KeywordResponse(k, store.keywords[k].name, store.keywords[k].nameEn) in r.keywords) &&
      r.supportCount == |ResonancesOfType(store.resonances, id, SUPPORT)| &&
      r.sharedExperienceCount == |ResonancesOfType(store.resonances, id, SHARED_EXPERIENCE)| &&
      (forall t :: ResonanceTypeName(t) in r.myResonances <==> FindResonance(store.resonances, id, viewer, t).Some?)
  {
    forall t {
      MyResonancesNames(store.resonances, id, viewer, t);
    }
  }

  /** A type the viewer's list names is counted at least once. */
  lemma CountsCoverViewer(zs: map<Id, Resonance>, record: Id, viewer: Id, t: ResonanceType)
    requires ResonanceTypeName(t) in MyResonances(zs, record, viewer)
    ensures |ResonancesOfType(zs, record, t)| >= 1
  {
    MyResonancesNames(zs, record, viewer, t);
    var k := FindResonance(zs, record, viewer, t).value;
    assert k in ResonancesOfType(zs, record, t);
  }

  // ---------------------------------------------------------------------
  // Reads

  function ResponsesFor(store: Store, rows: seq<Row<LearningRecord>>, viewer: Id): (r: seq<LearningRecordResponse>)
    reads store
    requires Linked(store)
    requires forall i :: 0 <= i < |rows| ==> rows[i].0 in store.records
    ensures |r| == |rows|
    ensures forall i :: 0 <= i < |r| ==>
      r[i].id == rows[i].0 && r[i].createdAt == store.records[rows[i].0].createdAt &&
      r[i] == ResponseFor(store, rows[i].0, viewer)
  {
    seq(|rows|, i requires 0 <= i < |rows| && Linked(store) && rows[i].0 in store.records reads store =>
      ResponseFor(store, rows[i].0, viewer))
  }

  /** The responses of table rows are the rows' records, in row order. */
  lemma ResponsesOfRows(store: Store, rows: seq<Row<LearningRecord>>, viewer: Id)
    requires Linked(store)
    requires forall i :: 0 <= i < |rows| ==> rows[i].0 in store.records && store.records[rows[i].0] == rows[i].1
    ensures var r := ResponsesFor(store, rows, viewer);
      forall i :: 0 <= i < |r| ==>
        r[i].id == rows[i].0 && r[i].id in store.records && store.records[r[i].id] == rows[i].1 &&
        r[i].createdAt == rows[i].1.createdAt && r[i] == ResponseFor(store, r[i].id, viewer)
  {
  }

  /** A row's record has a response. */
  lemma ResponseOfRow(store: Store, rows: seq<Row<LearningRecord>>, viewer: Id, k: Id, x: LearningRecord)
    requires Linked(store)
    requires forall i :: 0 <= i < |rows| ==> rows[i].0 in store.records
    requires (k, x) in rows
    ensures var r := ResponsesFor(store, rows, viewer);
      exists i :: 0 <= i < |r| && r[i].id == k
  {
    var i :| 0 <= i < |rows| && rows[i] == (k, x);
    assert ResponsesFor(store, rows, viewer)[i].id == k;
  }

  /** `getByBooth`: an unknown booth is refused; otherwise the booth's
      records. */
  function GetByBooth(store: Store, booth: Id, viewer: Id): (r: Result<seq<LearningRecordResponse>>)
    reads store
    requires Linked(store)
    ensures booth !in store.booths <==> r == Err(BoothService.BoothNotFound(booth))
    ensures r.Ok? ==> r.value == BoothRecords(store, booth, viewer)
  {
    if booth !in store.booths then Err(BoothService.BoothNotFound(booth))
    else Ok(BoothRecords(store, booth, viewer))
  }

  /** The records of a booth, newest first. */
  function BoothRecords(store: Store, booth: Id, viewer: Id): seq<LearningRecordResponse>
    reads store
    requires Linked(store)
  {
    ResponsesFor(store, RecordsOfBooth(store.records, booth), viewer)
  }

  /** Only records of the booth are listed, each as its response for the viewer. */
  lemma BoothRecordsListed(store: Store, booth: Id, viewer: Id)
    requires Linked(store)
    ensures var r := BoothRecords(store, booth, viewer);
      forall i :: 0 <= i < |r| ==>
        r[i].id in store.records && store.records[r[i].id].booth == booth &&
        r[i] == ResponseFor(store, r[i].id, viewer)
  {
    ResponsesOfRows(store, RecordsOfBooth(store.records, booth), viewer);
  }

  /** Every record of the booth is listed. */
  lemma BoothRecordsComplete(store: Store, booth: Id, viewer: Id)
    requires Linked(store)
    ensures var r := BoothRecords(store, booth, viewer);
      forall k :: k in store.records && store.records[k].booth == booth ==>
        exists i :: 0 <= i < |r| && r[i].id == k
  {
    var rows := RecordsOfBooth(store.records, booth);
    var r := ResponsesFor(store, rows, viewer);
    assert BoothRecords(store, booth, viewer) == r;
    forall k | k in store.records && store.records[k].booth == booth
      ensures exists i :: 0 <= i < |r| && r[i].id == k
    {
      ResponseOfRow(store, rows, viewer, k, store.records[k]);
    }
  }

  /** Newest first. */
  lemma BoothRecordsNewestFirst(store: Store, booth: Id, viewer: Id)
    requires Linked(store)
    ensures var r := BoothRecords(store, booth, viewer);
      forall i, j :: 0 <= i < j < |r| ==> r[i].createdAt >= r[j].createdAt
  {
    ResponsesOfRows(store, RecordsOfBooth(store.records, booth), viewer);
  }

  /** No record is listed twice. */
  lemma BoothRecordsOnce(store: Store, booth: Id, viewer: Id)
    requires Linked(store)
    ensures var r := BoothRecords(store, booth, viewer);
      forall i, j :: 0 <= i < j < |r| ==> r[i].id != r[j].id
  {
    ResponsesOfRows(store, RecordsOfBooth(store.records, booth), viewer);
  }

  /** `getMyRecords`: the participant's own records, seen by the
      participant. */
  function GetMyRecords(store: Store, participant: Id): seq<LearningRecordResponse>
    reads store
    requires Linked(store)
  {
    AuthorRecords(store, participant, participant)
  }

  /** The records an author wrote, newest first. */
  function AuthorRecords(store: Store, author: Id, viewer: Id): seq<LearningRecordResponse>
    reads store
    requires Linked(store)
  {
    ResponsesFor(store, RecordsOfParticipant(store.records, author), viewer)
  }

  /** Only records the author wrote are listed, each as its response for the viewer. */
  lemma AuthorRecordsListed(store: Store, author: Id, viewer: Id)
    requires Linked(store)
    ensures var r := AuthorRecords(store, author, viewer);
      forall i :: 0 <= i < |r| ==>
        r[i].id in store.records && store.records[r[i].id].participant == author &&
        r[i] == ResponseFor(store, r[i].id, viewer)
  {
    ResponsesOfRows(store, RecordsOfParticipant(store.records, author), viewer);
  }

  /** Every record the author wrote is listed. */
  lemma AuthorRecordsComplete(store: Store, author: Id, viewer: Id)
    requires Linked(store)
    ensures var r := AuthorRecords(store, author, viewer);
      forall k :: k in store.records && store.records[k].participant == author ==>
        exists i :: 0 <= i < |r| && r[i].id == k
  {
    var rows := RecordsOfParticipant(store.records, author);
    var r := ResponsesFor(store, rows, viewer);
    assert AuthorRecords(store, author, viewer) == r;
    forall k | k in store.records && store.records[k].participant == author
      ensures exists i :: 0 <= i < |r| && r[i].id == k
    {
      ResponseOfRow(store, rows, viewer, k, store.records[k]);
    }
  }

  /** Newest first. */
  lemma AuthorRecordsNewestFirst(store: Store, author: Id, viewer: Id)
    requires Linked(store)
    ensures var r := AuthorRecords(store, author, viewer);
      forall i, j :: 0 <= i < j < |r| ==> r[i].createdAt >= r[j].createdAt
  {
    ResponsesOfRows(store, RecordsOfParticipant(store.records, author), viewer);
  }

  /** No record is listed twice. */
  lemma AuthorRecordsOnce(store: Store, author: Id, viewer: Id)
    requires Linked(store)
    ensures var r := AuthorRecords(store, author, viewer);
      forall i, j :: 0 <= i < j < |r| ==> r[i].id != r[j].id
  {
    ResponsesOfRows(store, RecordsOfParticipant(store.records, author), viewer);
  }

  /** `getById`. */
  function GetById(store: Store, id: Id, viewer: Id): (r: Result<LearningRecordResponse>)
    reads store
    requires Linked(store)
    ensures id !in store.records <==> r == Err(RecordNotFound(id))
    ensures r.Ok? ==> r.value.id == id && r.value == ResponseFor(store, id, viewer)
  {
    if id !in store.records then Err(RecordNotFound(id)) else Ok(ResponseFor(store, id, viewer))
  }

  // ---------------------------------------------------------------------
  // Writes

  /** The record `create` saves: written by the caller, at the booth, with
      the existing keywords among the requested ids. */
  function NewRecord(req: CreateLearningRecordRequest, participant: Id, ks: map<Id, GrowthKeyword>, now: Instant)
    : (x: LearningRecord)
    ensures x.participant == participant && x.booth == req.booth && x.content == req.content && x.createdAt == now
    ensures x.keywords <= ks.Keys
    ensures forall k :: k in ks ==> (k in x.keywords <==> k in req.keywordIds)
  {
    LearningRecord(participant, req.booth, req.content, FindAllKeywordsById(ks, req.keywordIds), now)
  }

  /** `create`: any existing booth will do, active or not, checked in or not. */
  method Create(store: Store, req: CreateLearningRecordRequest, participant: Id, now: Instant)
    returns (r: Result<LearningRecordResponse>)
    requires store.Valid()
    requires participant in store.participants
    modifies store`records, store`nextRecordId
    ensures store.Valid()
    ensures req.booth !in store.booths ==>
      r == Err(BoothService.BoothNotFound(req.booth)) &&
      store.records == old(store.records) && store.nextRecordId == old(store.nextRecordId)
    ensures req.booth in store.booths ==>
      var id := old(store.nextRecordId);
      store.records == old(store.records)[id := NewRecord(req, participant, store.keywords, now)] &&
      store.nextRecordId == id + 1 &&
      r == Ok(ResponseFor(store, id, participant))
  {
    if req.booth !in store.booths {
      return Err(BoothService.BoothNotFound(req.booth));
    }
    var x := NewRecord(req, participant, store.keywords, now);
    ghost var before := store.Snapshot();
    AddRecordTablesKeepSchema(before, x);
    var id := store.InsertRecord(x);
    assert store.Snapshot() == before.(records := before.records[id := x], nextRecordId := id + 1);
    r := Ok(ResponseFor(store, id, participant));
  }

  /** A new record that references existing rows keeps the records table
      within its key bound and its references intact. */
  lemma AddRecordKeepsSchema(rs: map<Id, LearningRecord>, next: Id, x: LearningRecord,
                             ps: map<Id, Participant>, bs: map<Id, Booth>, ks: map<Id, GrowthKeyword>)
    requires KeysBelow(rs, next) && RecordReferences(rs, ps, bs, ks)
    requires x.participant in ps && x.booth in bs && x.keywords <= ks.Keys
    ensures KeysBelow(rs[next := x], next + 1) && RecordReferences(rs[next := x], ps, bs, ks)
  {
  }

  lemma PutRecordKeepsSchema(rs: map<Id, LearningRecord>, next: Id, id: Id, x: LearningRecord,
                             ps: map<Id, Participant>, bs: map<Id, Booth>, ks: map<Id, GrowthKeyword>)
    requires KeysBelow(rs, next) && RecordReferences(rs, ps, bs, ks) && id in rs
    requires x.participant in ps && x.booth in bs && x.keywords <= ks.Keys
    ensures KeysBelow(rs[id := x], next) && RecordReferences(rs[id := x], ps, bs, ks)
  {
  }

  lemma RemoveRecordKeepsSchema(rs: map<Id, LearningRecord>, next: Id, id: Id,
                                ps: map<Id, Participant>, bs: map<Id, Booth>, ks: map<Id, GrowthKeyword>)
    requires KeysBelow(rs, next) && RecordReferences(rs, ps, bs, ks)
    ensures KeysBelow(rs - {id}, next) && RecordReferences(rs - {id}, ps, bs, ks)
  {
  }

  lemma AddRecordTablesKeepSchema(tb: Tables, x: LearningRecord)
    requires Schema(tb)
    requires x.participant in tb.participants && x.booth in tb.booths && x.keywords <= tb.keywords.Keys
    ensures Schema(tb.(records := tb.records[tb.nextRecordId := x], nextRecordId := tb.nextRecordId + 1))
  {
    AddRecordKeepsSchema(tb.records, tb.nextRecordId, x, tb.participants, tb.booths, tb.keywords);
  }

  lemma PutRecordTablesKeepSchema(tb: Tables, id: Id, x: LearningRecord)
    requires Schema(tb) && id in tb.records
    requires x.participant in tb.participants && x.booth in tb.booths && x.keywords <= tb.keywords.Keys
    ensures Schema(tb.(records := tb.records[id := x]))
  {
    PutRecordKeepsSchema(tb.records, tb.nextRecordId, id, x, tb.participants, tb.booths, tb.keywords);
  }

  lemma RemoveRecordTablesKeepSchema(tb: Tables, id: Id)
    requires Schema(tb) && !HasResonances(tb.resonances, id)
    ensures Schema(tb.(records := tb.records - {id}))
  {
    RemoveRecordKeepsSchema(tb.records, tb.nextRecordId, id, tb.participants, tb.booths, tb.keywords);
  }

  /** The record after `update`'s edits: a given content replaces the old
      one, given keyword ids replace the whole keyword set; author, booth and
      creation time stay. */
  function PatchedRecord(x: LearningRecord, req: UpdateLearningRecordRequest, ks: map<Id, GrowthKeyword>)
    : (p: LearningRecord)
    ensures p.participant == x.participant && p.booth == x.booth && p.createdAt == x.createdAt
    ensures p.content == GetOr(req.content, x.content)
    ensures req.keywordIds.None? ==> p.keywords == x.keywords
    ensures req.keywordIds.Some? ==> p.keywords == FindAllKeywordsById(ks, req.keywordIds.value)
  {
    x.(content := GetOr(req.content, x.content),
       keywords := if req.keywordIds.Some? then FindAllKeywordsById(ks, req.keywordIds.value) else x.keywords)
  }

  /** Applying the same edit twice is applying it once. */
  lemma PatchRecordIdempotent(x: LearningRecord, req: UpdateLearningRecordRequest, ks: map<Id, GrowthKeyword>)
    ensures PatchedRecord(PatchedRecord(x, req, ks), req, ks) == PatchedRecord(x, req, ks)
  {
  }

  /** `update`: only the author may edit a record. */
  method Update(store: Store, id: Id, req: UpdateLearningRecordRequest, participant: Id)
    returns (r: Result<LearningRecordResponse>)
    requires store.Valid()
    modifies store`records
    ensures store.Valid()
    ensures id !in old(store.records) ==>
      r == Err(RecordNotFound(id)) && store.records == old(store.records)
    ensures id in old(store.records) && old(store.records)[id].participant != participant ==>
      r == Err(NotAuthorToUpdate) && store.records == old(store.records)
    ensures id in old(store.records) && old(store.records)[id].participant == participant ==>
      store.records == old(store.records)[id := PatchedRecord(old(store.records)[id], req, store.keywords)] &&
      r == Ok(ResponseFor(store, id, participant))
  {
    if id !in store.records {
      return Err(RecordNotFound(id));
    }
    var x := store.records[id];
    if x.participant != participant {
      return Err(NotAuthorToUpdate);
    }
    if req.content.Some? { x := x.(content := req.content.value); }
    if req.keywordIds.Some? { x := x.(keywords := FindAllKeywordsById(store.keywords, req.keywordIds.value)); }
    assert x == PatchedRecord(store.records[id], req, store.keywords);
    ghost var before := store.Snapshot();
    PutRecordTablesKeepSchema(before, id, x);
    store.records := store.records[id := x];
    assert store.Snapshot() == before.(records := before.records[id := x]);
    r := Ok(ResponseFor(store, id, participant));
  }

  /** Some resonance row references the record: `resonances.record_id` is a
      non-null foreign key with no cascade. */
  predicate HasResonances(zs: map<Id, Resonance>, record: Id)
  {
    exists z :: z in zs && zs[z].record == record
  }

  /** The constraint violation the database raises when `delete` removes a
      record that resonances still reference. No handler matches it, so it
      reaches the catch-all; its driver message is not modelled. */
  const RecordStillReferenced: Exception := Other(None)

  /** A refused delete answers 500 with the generic message. */
  lemma RecordStillReferencedStatus()
    ensures GlobalExceptionHandler.Handle(RecordStillReferenced).status == GlobalExceptionHandler.InternalServerError
    ensures GlobalExceptionHandler.Handle(RecordStillReferenced).body.error == Some("Internal server error")
  {
    GlobalExceptionHandler.HandledMessages(RecordStillReferenced);
  }

  /** `delete`: only the author may delete a record, and only one that no
      resonance references; then exactly that row goes. */
  method Delete(store: Store, id: Id, participant: Id) returns (r: Result<Unit>)
    requires store.Valid()
    modifies store`records
    ensures store.Valid()
    ensures id !in old(store.records) ==>
      r == Err(RecordNotFound(id)) && store.records == old(store.records)
    ensures id in old(store.records) && old(store.records)[id].participant != participant ==>
      r == Err(NotAuthorToDelete) && store.records == old(store.records)
    ensures id in old(store.records) && old(store.records)[id].participant == participant &&
            HasResonances(store.resonances, id) ==>
      r == Err(RecordStillReferenced) && store.records == old(store.records)
    ensures id in old(store.records) && old(store.records)[id].participant == participant &&
            !HasResonances(store.resonances, id) ==>
      store.records == old(store.records) - {id} && r == Ok(Unit)
  {
    if id !in store.records {
      return Err(RecordNotFound(id));
    }
    if store.records[id].participant != participant {
      return Err(NotAuthorToDelete);
    }
    if HasResonances(store.resonances, id) {
      return Err(RecordStillReferenced);
    }
    ghost var before := store.Snapshot();
    RemoveRecordTablesKeepSchema(before, id);
    store.DeleteRecord(id);
    assert store.Snapshot() == before.(records := before.records - {id});
    r := Ok(Unit);
  }
}
