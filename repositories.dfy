/** The six tables of the database as one in-memory store, the uniqueness
    and reference rules their schema declares, and the derived queries of
    the Spring Data repositories (`findByX`, `existsByX`, `…OrderBy…`,
    `countByBoothSince`). Each table is a map from primary key to row;
    every table has an IDENTITY counter that hands out the next key. */
module Repositories {
  import opened Common
  import opened Domain
  import opened Sequences
  import opened Strings
  import opened Sorting

  /** A row together with its primary key, as a repository returns it. */
  type Row<V> = (Id, V)

  // ---------------------------------------------------------------------
  // Schema rules

  ghost predicate KeysBelow<V>(table: map<Id, V>, next: Id)
  {
    forall k :: k in table ==> k < next
  }

  /** `participants.session_token` is unique. */
  ghost predicate UniqueSessionTokens(ps: map<Id, Participant>)
  {
    forall a, b :: a in ps && b in ps && ps[a].sessionToken == ps[b].sessionToken ==> a == b
  }

  /** `booths.code` is unique. */
  ghost predicate UniqueBoothCodes(bs: map<Id, Booth>)
  {
    forall a, b :: a in bs && b in bs && bs[a].code == bs[b].code ==> a == b
  }

  /** `booths.qr_token` is unique. */
  ghost predicate UniqueQrTokens(bs: map<Id, Booth>)
  {
    forall a, b :: a in bs && b in bs && bs[a].qrToken == bs[b].qrToken ==> a == b
  }

  /** `growth_keywords.name` is unique. */
  ghost predicate UniqueKeywordNames(ks: map<Id, GrowthKeyword>)
  {
    forall a, b :: a in ks && b in ks && ks[a].name == ks[b].name ==> a == b
  }

  /** The unique constraint on `check_ins (participant_id, booth_id)`. */
  ghost predicate OneCheckInPerPair(cs: map<Id, CheckIn>)
  {
    forall a, b ::
      (a in cs && b in cs && cs[a].participant == cs[b].participant && cs[a].booth == cs[b].booth) ==> a == b
  }

  /** The unique constraint on `resonances (record_id, participant_id, type)`. */
  ghost predicate OneResonancePerTriple(rs: map<Id, Resonance>)
  {
    forall a, b ::
      (a in rs && b in rs && rs[a].record == rs[b].record &&
       rs[a].participant == rs[b].participant && rs[a].rtype == rs[b].rtype) ==> a == b
  }

  /** Booth operators and booth keywords exist. */
  ghost predicate BoothReferences(bs: map<Id, Booth>, ps: map<Id, Participant>, ks: map<Id, GrowthKeyword>)
  {
    forall b :: b in bs ==>
      (bs[b].operator.Some? ==> bs[b].operator.value in ps) && bs[b].keywords <= ks.Keys
  }

  /** A check-in's participant and booth exist. */
  ghost predicate CheckInReferences(cs: map<Id, CheckIn>, ps: map<Id, Participant>, bs: map<Id, Booth>)
  {
    forall c :: c in cs ==> cs[c].participant in ps && cs[c].booth in bs
  }

  /** A learning record's author, booth and keywords exist. */
  ghost predicate RecordReferences(rs: map<Id, LearningRecord>, ps: map<Id, Participant>,
                                   bs: map<Id, Booth>, ks: map<Id, GrowthKeyword>)
  {
    forall r :: r in rs ==> rs[r].participant in ps && rs[r].booth in bs && rs[r].keywords <= ks.Keys
  }

  /** A resonance's participant and record exist. */
  ghost predicate ResonanceReferences(zs: map<Id, Resonance>, ps: map<Id, Participant>, rs: map<Id, LearningRecord>)
  {
    forall z :: z in zs ==> zs[z].participant in ps && zs[z].record in rs
  }

  /** The contents of the six tables and their counters at one moment. */
  datatype Tables = Tables(
    participants: map<Id, Participant>,
    booths: map<Id, Booth>,
    checkIns: map<Id, CheckIn>,
    keywords: map<Id, GrowthKeyword>,
    records: map<Id, LearningRecord>,
    resonances: map<Id, Resonance>,
    nextParticipantId: Id,
    nextBoothId: Id,
    nextCheckInId: Id,
    nextKeywordId: Id,
    nextRecordId: Id,
    nextResonanceId: Id)

  /** Every key was handed out by its table's counter, and all schema rules
      hold. */
  ghost predicate Schema(t: Tables)
  {
    KeysBelow(t.participants, t.nextParticipantId) && KeysBelow(t.booths, t.nextBoothId) &&
    KeysBelow(t.checkIns, t.nextCheckInId) && KeysBelow(t.keywords, t.nextKeywordId) &&
    KeysBelow(t.records, t.nextRecordId) && KeysBelow(t.resonances, t.nextResonanceId) &&
    UniqueSessionTokens(t.participants) &&
    UniqueBoothCodes(t.booths) && UniqueQrTokens(t.booths) &&
    UniqueKeywordNames(t.keywords) &&
    OneCheckInPerPair(t.checkIns) &&
    OneResonancePerTriple(t.resonances) &&
    BoothReferences(t.booths, t.participants, t.keywords) &&
    CheckInReferences(t.checkIns, t.participants, t.booths) &&
    RecordReferences(t.records, t.participants, t.booths, t.keywords) &&
    ResonanceReferences(t.resonances, t.participants, t.records)
  }

  // ---------------------------------------------------------------------
  // The store

  class Store {
    var participants: map<Id, Participant>
    var booths: map<Id, Booth>
    var checkIns: map<Id, CheckIn>
    var keywords: map<Id, GrowthKeyword>
    var records: map<Id, LearningRecord>
    var resonances: map<Id, Resonance>

    var nextParticipantId: Id
    var nextBoothId: Id
    var nextCheckInId: Id
    var nextKeywordId: Id
    var nextRecordId: Id
    var nextResonanceId: Id

    /** The store's contents as a value. */
    function Snapshot(): Tables
      reads this
    {
      Tables(participants, booths, checkIns, keywords, records, resonances,
             nextParticipantId, nextBoothId, nextCheckInId, nextKeywordId, nextRecordId, nextResonanceId)
    }

    /** Every key was handed out by its table's counter, and all schema
        rules hold. */
    ghost predicate Valid()
      reads this
    {
      Schema(Snapshot())
    }

    /** An empty database. */
    constructor ()
      ensures Valid()
      ensures participants == map[] && booths == map[] && checkIns == map[]
      ensures keywords == map[] && records == map[] && resonances == map[]
    {
      participants, booths, checkIns := map[], map[], map[];
      keywords, records, resonances := map[], map[], map[];
      nextParticipantId, nextBoothId, nextCheckInId := 0, 0, 0;
      nextKeywordId, nextRecordId, nextResonanceId := 0, 0, 0;
    }

    // `save` of a new entity: the row gets the next generated key.

    method InsertParticipant(p: Participant) returns (id: Id)
      modifies this`participants, this`nextParticipantId
      ensures id == old(nextParticipantId) && nextParticipantId == id + 1
      ensures participants == old(participants)[id := p]
    {
      id := nextParticipantId;
      participants := participants[id := p];
      nextParticipantId := id + 1;
    }

    method InsertBooth(b: Booth) returns (id: Id)
      modifies this`booths, this`nextBoothId
      ensures id == old(nextBoothId) && nextBoothId == id + 1
      ensures booths == old(booths)[id := b]
    {
      id := nextBoothId;
      booths := booths[id := b];
      nextBoothId := id + 1;
    }

    method InsertCheckIn(c: CheckIn) returns (id: Id)
      modifies this`checkIns, this`nextCheckInId
      ensures id == old(nextCheckInId) && nextCheckInId == id + 1
      ensures checkIns == old(checkIns)[id := c]
    {
      id := nextCheckInId;
      checkIns := checkIns[id := c];
      nextCheckInId := id + 1;
    }

    method InsertKeyword(k: GrowthKeyword) returns (id: Id)
      modifies this`keywords, this`nextKeywordId
      ensures id == old(nextKeywordId) && nextKeywordId == id + 1
      ensures keywords == old(keywords)[id := k]
    {
      id := nextKeywordId;
      keywords := keywords[id := k];
      nextKeywordId := id + 1;
    }

    method InsertRecord(r: LearningRecord) returns (id: Id)
      modifies this`records, this`nextRecordId
      ensures id == old(nextRecordId) && nextRecordId == id + 1
      ensures records == old(records)[id := r]
    {
      id := nextRecordId;
      records := records[id := r];
      nextRecordId := id + 1;
    }

    method InsertResonance(z: Resonance) returns (id: Id)
      modifies this`resonances, this`nextResonanceId
      ensures id == old(nextResonanceId) && nextResonanceId == id + 1
      ensures resonances == old(resonances)[id := z]
    {
      id := nextResonanceId;
      resonances := resonances[id := z];
      nextResonanceId := id + 1;
    }

    // `delete` of an entity by key.

    method DeleteRecord(id: Id)
      modifies this`records
      ensures records == old(records) - {id}
    {
      records := records - {id};
    }

    method DeleteResonance(id: Id)
      modifies this`resonances
      ensures resonances == old(resonances) - {id}
    {
      resonances := resonances - {id};
    }
  }

  // ---------------------------------------------------------------------
  // Generic queries

  /** `SELECT … WHERE p`: the rows of `table` that satisfy `p`, in key order. */
  function Select<V(!new)>(table: map<Id, V>, p: V -> bool): (r: seq<Row<V>>)
    ensures forall i :: 0 <= i < |r| ==> r[i].0 in table && table[r[i].0] == r[i].1 && p(r[i].1)
    ensures forall k :: k in table && p(table[k]) ==> (k, table[k]) in r
    ensures forall i, j :: 0 <= i < j < |r| ==> r[i].0 < r[j].0
  {
    var r := Filter(Rows(table), KeepIf(p));
    SelectMembers(table, p);
    FilterIsSubsequence(Rows(table), KeepIf(p));
    SubsequenceKeepsIncreasingKeys(r, Rows(table));
    r
  }

  /** The row filter of `WHERE p`. */
  function KeepIf<V>(p: V -> bool): Row<V> -> bool
  {
    (e: Row<V>) => p(e.1)
  }

  lemma SelectMembers<V(!new)>(table: map<Id, V>, p: V -> bool)
    ensures var r := Filter(Rows(table), KeepIf(p));
      (forall i :: 0 <= i < |r| ==> r[i].0 in table && table[r[i].0] == r[i].1 && p(r[i].1)) &&
      (forall k :: k in table && p(table[k]) ==> (k, table[k]) in r)
  {
    SelectSound(table, p);
    SelectComplete(table, p);
  }

  lemma SelectSound<V(!new)>(table: map<Id, V>, p: V -> bool)
    ensures var r := Filter(Rows(table), KeepIf(p));
      forall i :: 0 <= i < |r| ==> r[i].0 in table && table[r[i].0] == r[i].1 && p(r[i].1)
  {
    var rows := Rows(table);
    var r := Filter(rows, KeepIf(p));
    forall i | 0 <= i < |r|
      ensures r[i].0 in table && table[r[i].0] == r[i].1 && p(r[i].1)
    {
      var e := r[i];
      assert e in r;
      assert e in rows && KeepIf(p)(e);
      InRows(table, e);
    }
  }

  /** A row read from a table is one of its entries. */
  lemma InRows<V>(table: map<Id, V>, e: Row<V>)
    requires e in Rows(table)
    ensures e.0 in table && table[e.0] == e.1
  {
    var rows := Rows(table);
    var j :| 0 <= j < |rows| && rows[j] == e;
  }

  lemma SelectComplete<V(!new)>(table: map<Id, V>, p: V -> bool)
    ensures var r := Filter(Rows(table), KeepIf(p));
      forall k :: k in table && p(table[k]) ==> (k, table[k]) in r
  {
    var rows := Rows(table);
    forall k | k in table && p(table[k])
      ensures (k, table[k]) in Filter(rows, KeepIf(p))
    {
      assert (k, table[k]) in rows;
      assert KeepIf(p)((k, table[k]));
    }
  }

  /** `SELECT … WHERE p ORDER BY le`: the rows of `table` that satisfy `p`,
      each once, sorted by `le`. */
  function Query<V(!new)>(table: map<Id, V>, p: V -> bool, le: (Row<V>, Row<V>) -> bool): (r: seq<Row<V>>)
    requires TotalPreorder(le)
    ensures forall i :: 0 <= i < |r| ==> r[i].0 in table && table[r[i].0] == r[i].1 && p(r[i].1)
    ensures forall k :: k in table && p(table[k]) ==> (k, table[k]) in r
    ensures SortedBy(r, le)
    ensures forall i, j :: 0 <= i < j < |r| ==> r[i].0 != r[j].0
  {
    var selected := Select(table, p);
    var r := SortBy(selected, le);
    SortedMembers(table, p, selected, r);
    SortedKeysDistinct(selected, r);
    r
  }

  lemma SortedMembers<V(!new)>(table: map<Id, V>, p: V -> bool, selected: seq<Row<V>>, r: seq<Row<V>>)
    requires forall i :: 0 <= i < |selected| ==>
      selected[i].0 in table && table[selected[i].0] == selected[i].1 && p(selected[i].1)
    requires forall k :: k in table && p(table[k]) ==> (k, table[k]) in selected
    requires multiset(r) == multiset(selected)
    ensures forall i :: 0 <= i < |r| ==> r[i].0 in table && table[r[i].0] == r[i].1 && p(r[i].1)
    ensures forall k :: k in table && p(table[k]) ==> (k, table[k]) in r
  {
    SameMultisetSameMembers(r, selected);
    forall i | 0 <= i < |r|
      ensures r[i].0 in table && table[r[i].0] == r[i].1 && p(r[i].1)
    {
      assert r[i] in selected;
      var j :| 0 <= j < |selected| && selected[j] == r[i];
    }
  }

  lemma SortedKeysDistinct<V(!new)>(selected: seq<Row<V>>, r: seq<Row<V>>)
    requires forall i, j :: 0 <= i < j < |selected| ==> selected[i].0 < selected[j].0
    requires multiset(r) == multiset(selected)
    ensures forall i, j :: 0 <= i < j < |r| ==> r[i].0 != r[j].0
  {
    NoDuplicatesAtMostOnce(selected);
    assert AtMostOnce(r);
    AtMostOnceNoDuplicates(r);
    SameMultisetSameMembers(r, selected);
    forall i, j | 0 <= i < j < |r|
      ensures r[i].0 != r[j].0
    {
      assert r[i] in selected && r[j] in selected;
      var a :| 0 <= a < |selected| && selected[a] == r[i];
      var b :| 0 <= b < |selected| && selected[b] == r[j];
      assert a != b;
    }
  }

  /** The key of a row satisfying `p` (the least one), as `findByX` returns
      the row with a unique column value. */
  function FindFirst<V(!new)>(table: map<Id, V>, p: V -> bool): (r: Option<Id>)
    ensures r.Some? ==> r.value in table && p(table[r.value])
    ensures r.None? <==> forall k :: k in table ==> !p(table[k])
  {
    var matches := set k | k in table && p(table[k]);
    if matches == {} then
      assert forall k :: k in table ==> !p(table[k]) by {
        forall k | k in table
          ensures !p(table[k])
        {
          assert k !in matches;
        }
      }
      None
    else
      Some(MinOf(matches))
  }

  // ---------------------------------------------------------------------
  // Orders

  /** `ORDER BY code ASC`. */
  predicate ByCode(a: Row<Booth>, b: Row<Booth>)
  {
    LexLe(a.1.code, b.1.code)
  }

  /** `ORDER BY checked_in_at DESC`. */
  predicate CheckInNewerFirst(a: Row<CheckIn>, b: Row<CheckIn>)
  {
    a.1.checkedInAt >= b.1.checkedInAt
  }

  /** `ORDER BY created_at DESC`. */
  predicate RecordNewerFirst(a: Row<LearningRecord>, b: Row<LearningRecord>)
  {
    a.1.createdAt >= b.1.createdAt
  }

  /** `ORDER BY sort_order` (ascending). */
  predicate BySortOrder(a: Row<GrowthKeyword>, b: Row<GrowthKeyword>)
  {
    a.1.sortOrder <= b.1.sortOrder
  }

  lemma ByCodeIsTotalPreorder()
    ensures TotalPreorder(ByCode)
  {
    forall a: Row<Booth>, b: Row<Booth>
      ensures ByCode(a, b) || ByCode(b, a)
    {
      LexLeTotal(a.1.code, b.1.code);
    }
    forall a: Row<Booth>, b: Row<Booth>, c: Row<Booth> | ByCode(a, b) && ByCode(b, c)
      ensures ByCode(a, c)
    {
      LexLeTransitive(a.1.code, b.1.code, c.1.code);
    }
  }

  lemma TimeOrdersAreTotalPreorders()
    ensures TotalPreorder(CheckInNewerFirst)
    ensures TotalPreorder(RecordNewerFirst)
    ensures TotalPreorder(BySortOrder)
  {
  }

  // ---------------------------------------------------------------------
  // BoothRepository

  /** `findByIsActiveTrueOrderByCodeAsc`. */
  function ActiveBoothsByCode(booths: map<Id, Booth>): (r: seq<Row<Booth>>)
    ensures forall i :: 0 <= i < |r| ==> r[i].0 in booths && booths[r[i].0] == r[i].1 && r[i].1.isActive
    ensures forall k :: k in booths && booths[k].isActive ==> (k, booths[k]) in r
    ensures forall i, j :: 0 <= i < j < |r| ==> LexLe(r[i].1.code, r[j].1.code)
    ensures forall i, j :: 0 <= i < j < |r| ==> r[i].0 != r[j].0
  {
    ByCodeIsTotalPreorder();
    Query(booths, (b: Booth) => b.isActive, ByCode)
  }

  /** `findByCode`. */
  function FindBoothByCode(booths: map<Id, Booth>, code: string): (r: Option<Id>)
    ensures r.Some? ==> r.value in booths && booths[r.value].code == code
    ensures r.None? <==> forall k :: k in booths ==> booths[k].code != code
  {
    FindFirst(booths, (b: Booth) => b.code == code)
  }

  /** `findByQrToken`. */
  function FindBoothByQrToken(booths: map<Id, Booth>, token: string): (r: Option<Id>)
    ensures r.Some? ==> r.value in booths && booths[r.value].qrToken == token
    ensures r.None? <==> forall k :: k in booths ==> booths[k].qrToken != token
  {
    FindFirst(booths, (b: Booth) => b.qrToken == token)
  }

  /** `existsByCode`. */
  function BoothCodeExists(booths: map<Id, Booth>, code: string): (r: bool)
    ensures r <==> exists k :: k in booths && booths[k].code == code
  {
    FindBoothByCode(booths, code).Some?
  }

  // ---------------------------------------------------------------------
  // ParticipantRepository

  /** `findBySessionToken`. */
  function FindParticipantBySessionToken(ps: map<Id, Participant>, token: string): (r: Option<Id>)
    ensures r.Some? ==> r.value in ps && ps[r.value].sessionToken == token
    ensures r.None? <==> forall k :: k in ps ==> ps[k].sessionToken != token
  {
    FindFirst(ps, (p: Participant) => p.sessionToken == token)
  }

  // ---------------------------------------------------------------------
  // CheckInRepository

  /** `existsByParticipantIdAndBoothId`. */
  function CheckInExists(cs: map<Id, CheckIn>, participant: Id, booth: Id): (r: bool)
    ensures r <==> exists k :: k in cs && cs[k].participant == participant && cs[k].booth == booth
  {
    FindFirst(cs, (c: CheckIn) => c.participant == participant && c.booth == booth).Some?
  }

  /** `findByParticipantIdOrderByCheckedInAtDesc`. */
  function CheckInsOfParticipant(cs: map<Id, CheckIn>, participant: Id): (r: seq<Row<CheckIn>>)
    ensures forall i :: 0 <= i < |r| ==> r[i].0 in cs && cs[r[i].0] == r[i].1 && r[i].1.participant == participant
    ensures forall k :: k in cs && cs[k].participant == participant ==> (k, cs[k]) in r
    ensures forall i, j :: 0 <= i < j < |r| ==> r[i].1.checkedInAt >= r[j].1.checkedInAt
    ensures forall i, j :: 0 <= i < j < |r| ==> r[i].0 != r[j].0
  {
    TimeOrdersAreTotalPreorders();
    Query(cs, (c: CheckIn) => c.participant == participant, CheckInNewerFirst)
  }

  /** The keys of the booth's check-ins at or after `since`. */
  function RecentCheckIns(cs: map<Id, CheckIn>, booth: Id, since: Instant): (r: set<Id>)
    ensures forall k :: k in r <==> k in cs && cs[k].booth == booth && cs[k].checkedInAt >= since
  {
    set k | k in cs && cs[k].booth == booth && cs[k].checkedInAt >= since
  }

  /** `countByBoothSince`: `SELECT booth_id, COUNT(*) … WHERE checked_in_at
      >= since GROUP BY booth_id`, one entry per booth that has a check-in in
      the window. */
  function CountByBoothSince(cs: map<Id, CheckIn>, since: Instant): (r: map<Id, nat>)
    ensures forall b :: b in r <==> exists k :: k in cs && cs[k].booth == b && cs[k].checkedInAt >= since
    ensures forall b :: b in r ==> r[b] == |RecentCheckIns(cs, b, since)| && r[b] >= 1
  {
    var groups := set k | k in cs && cs[k].checkedInAt >= since :: cs[k].booth;
    var r := map b | b in groups :: |RecentCheckIns(cs, b, since)|;
    assert forall b :: b in r ==> r[b] >= 1 by {
      forall b | b in r
        ensures r[b] >= 1
      {
        var k :| k in cs && cs[k].checkedInAt >= since && cs[k].booth == b;
        assert k in RecentCheckIns(cs, b, since);
      }
    }
    r
  }

  // ---------------------------------------------------------------------
  // GrowthKeywordRepository

  /** `findByIsActiveTrueOrderBySortOrder`. */
  function ActiveKeywordsBySortOrder(ks: map<Id, GrowthKeyword>): (r: seq<Row<GrowthKeyword>>)
    ensures forall i :: 0 <= i < |r| ==> r[i].0 in ks && ks[r[i].0] == r[i].1 && r[i].1.isActive
    ensures forall k :: k in ks && ks[k].isActive ==> (k, ks[k]) in r
    ensures forall i, j :: 0 <= i < j < |r| ==> r[i].1.sortOrder <= r[j].1.sortOrder
    ensures forall i, j :: 0 <= i < j < |r| ==> r[i].0 != r[j].0
  {
    TimeOrdersAreTotalPreorders();
    Query(ks, (k: GrowthKeyword) => k.isActive, BySortOrder)
  }

  /** `existsByName`, whatever the keyword's active flag. */
  function KeywordNameExists(ks: map<Id, GrowthKeyword>, name: string): (r: bool)
    ensures r <==> exists k :: k in ks && ks[k].name == name
  {
    FindFirst(ks, (k: GrowthKeyword) => k.name == name).Some?
  }

  /** `findAllById(ids).toMutableSet()`: the requested ids that name a keyword;
      unknown ids are dropped. */
  function FindAllKeywordsById(ks: map<Id, GrowthKeyword>, ids: seq<Id>): (r: set<Id>)
    ensures r <= ks.Keys
    ensures forall k :: k in ks ==> (k in r <==> k in ids)
  {
    set k | k in ids && k in ks
  }

  // ---------------------------------------------------------------------
  // LearningRecordRepository

  /** `findByBoothIdOrderByCreatedAtDesc`. */
  function RecordsOfBooth(rs: map<Id, LearningRecord>, booth: Id): (r: seq<Row<LearningRecord>>)
    ensures forall i :: 0 <= i < |r| ==> r[i].0 in rs && rs[r[i].0] == r[i].1 && r[i].1.booth == booth
    ensures forall k :: k in rs && rs[k].booth == booth ==> (k, rs[k]) in r
    ensures forall i, j :: 0 <= i < j < |r| ==> r[i].1.createdAt >= r[j].1.createdAt
    ensures forall i, j :: 0 <= i < j < |r| ==> r[i].0 != r[j].0
  {
    TimeOrdersAreTotalPreorders();
    Query(rs, (x: LearningRecord) => x.booth == booth, RecordNewerFirst)
  }

  /** `findByParticipantIdOrderByCreatedAtDesc`. */
  function RecordsOfParticipant(rs: map<Id, LearningRecord>, participant: Id): (r: seq<Row<LearningRecord>>)
    ensures forall i :: 0 <= i < |r| ==> r[i].0 in rs && rs[r[i].0] == r[i].1 && r[i].1.participant == participant
    ensures forall k :: k in rs && rs[k].participant == participant ==> (k, rs[k]) in r
    ensures forall i, j :: 0 <= i < j < |r| ==> r[i].1.createdAt >= r[j].1.createdAt
    ensures forall i, j :: 0 <= i < j < |r| ==> r[i].0 != r[j].0
  {
    TimeOrdersAreTotalPreorders();
    Query(rs, (x: LearningRecord) => x.participant == participant, RecordNewerFirst)
  }

  // ---------------------------------------------------------------------
  // ResonanceRepository

  /** `findByRecordIdAndParticipantIdAndType`. */
  function FindResonance(zs: map<Id, Resonance>, record: Id, participant: Id, t: ResonanceType): (r: Option<Id>)
    ensures r.Some? ==>
      r.value in zs && zs[r.value].record == record && zs[r.value].participant == participant && zs[r.value].rtype == t
    ensures r.None? <==> forall k :: k in zs ==>
      !(zs[k].record == record && zs[k].participant == participant && zs[k].rtype == t)
  {
    FindFirst(zs, (z: Resonance) => z.record == record && z.participant == participant && z.rtype == t)
  }

  /** The keys of the record's resonances of type `t`. */
  function ResonancesOfType(zs: map<Id, Resonance>, record: Id, t: ResonanceType): (r: set<Id>)
    ensures forall k :: k in r <==> k in zs && zs[k].record == record && zs[k].rtype == t
  {
    set k | k in zs && zs[k].record == record && zs[k].rtype == t
  }

  /** `countByRecordIdAndType`. */
  function CountResonances(zs: map<Id, Resonance>, record: Id, t: ResonanceType): (r: nat)
    ensures r == |ResonancesOfType(zs, record, t)|
    ensures r <= |zs|
  {
    var s := ResonancesOfType(zs, record, t);
    assert s <= zs.Keys;
    SubsetCardinality(s, zs.Keys);
    |s|
  }

  lemma SubsetCardinality(a: set<Id>, b: set<Id>)
    requires a <= b
    ensures |a| <= |b|
  {
    assert b == a + (b - a);
  }

  lemma {:induction false} SubsequenceKeepsIncreasingKeys<V>(r: seq<Row<V>>, s: seq<Row<V>>)
    requires IsSubsequence(r, s)
    requires forall i, j :: 0 <= i < j < |s| ==> s[i].0 < s[j].0
    ensures forall i, j :: 0 <= i < j < |r| ==> r[i].0 < r[j].0
    ensures forall i :: 0 <= i < |r| ==> r[i] in s
    decreases |s|
  {
    if r != [] && s != [] {
      if r[0] == s[0] {
        SubsequenceKeepsIncreasingKeys(r[1..], s[1..]);
        forall j | 1 <= j < |r|
          ensures r[0].0 < r[j].0
        {
          assert r[1..][j - 1] == r[j];
          var m :| 0 <= m < |s[1..]| && s[1..][m] == r[j];
          assert s[m + 1] == r[j];
        }
        forall i | 0 <= i < |r|
          ensures r[i] in s
        {
          if i > 0 {
            assert r[1..][i - 1] == r[i];
          }
        }
      } else {
        SubsequenceKeepsIncreasingKeys(r, s[1..]);
      }
    }
  }
}
