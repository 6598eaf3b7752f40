/** Toggling a resonance (a "support" or a "shared experience") of a
    participant on a learning record: a second click takes the first one
    back. */
module ResonanceService {
  import opened Common
  import opened Domain
  import opened Repositories
  import LearningRecordService

  datatype ResonanceResponse = ResonanceResponse(
    id: Id,
    recordId: Id,
    rtype: ResonanceType,
    toggled: bool,
    createdAt: Option<Instant>)

  /** What makes a resonance unique: its record, its participant and its type. */
  type Triple = (Id, Id, ResonanceType)

  function TripleOf(z: Resonance): Triple
  {
    (z.record, z.participant, z.rtype)
  }

  /** The triples present in a resonance table. */
  ghost function Triples(zs: map<Id, Resonance>): set<Triple>
  {
    set k | k in zs :: TripleOf(zs[k])
  }

  /** The resonance table, the next key and the response after `toggle` on
      an existing record: the row of the triple is deleted if there is one,
      and otherwise a row is inserted under the next key. */
  function Toggled(zs: map<Id, Resonance>, next: Id, record: Id, participant: Id, t: ResonanceType, now: Instant)
    : (r: (map<Id, Resonance>, Id, ResonanceResponse))
    ensures r.2.recordId == record && r.2.rtype == t
    ensures r.2.toggled <==> FindResonance(zs, record, participant, t).None?
    ensures r.2.toggled ==> r.0 == zs[next := Resonance(record, participant, t, now)] && r.1 == next + 1 &&
                            r.2.id == next && r.2.createdAt == Some(now)
    ensures !r.2.toggled ==> r.2.id in zs && TripleOf(zs[r.2.id]) == (record, participant, t) &&
                             r.0 == zs - {r.2.id} && r.1 == next && r.2.createdAt.None?
  {
    var existing := FindResonance(zs, record, participant, t);
    if existing.Some? then
      (zs - {existing.value}, next, ResonanceResponse(existing.value, record, t, false, None))
    else
      (zs[next := Resonance(record, participant, t, now)], next + 1,
       ResonanceResponse(next, record, t, true, Some(now)))
  }

  /** `toggle`. */
  method Toggle(store: Store, record: Id, t: ResonanceType, participant: Id, now: Instant)
    returns (r: Result<ResonanceResponse>)
    requires store.Valid()
    requires participant in store.participants
    modifies store`resonances, store`nextResonanceId
    ensures store.Valid()
    ensures record !in store.records ==>
      r == Err(LearningRecordService.RecordNotFound(record)) &&
      store.resonances == old(store.resonances) && store.nextResonanceId == old(store.nextResonanceId)
    ensures record in store.records ==>
      var after := Toggled(old(store.resonances), old(store.nextResonanceId), record, participant, t, now);
      store.resonances == after.0 && store.nextResonanceId == after.1 && r == Ok(after.2)
  {
    if record !in store.records {
      return Err(LearningRecordService.RecordNotFound(record));
    }
    ghost var before := store.Snapshot();
    ghost var after := Toggled(store.resonances, store.nextResonanceId, record, participant, t, now);
    ToggledTablesKeepSchema(before, record, participant, t, now);
    var existing := FindResonance(store.resonances, record, participant, t);
    if existing.Some? {
      store.DeleteResonance(existing.value);
      r := Ok(ResonanceResponse(existing.value, record, t, false, None));
    } else {
      var id := store.InsertResonance(Resonance(record, participant, t, now));
      r := Ok(ResonanceResponse(id, record, t, true, Some(now)));
    }
    assert store.Snapshot() == before.(resonances := after.0, nextResonanceId := after.1);
  }

  /** A toggle by an existing participant keeps every schema rule. */
  lemma ToggledTablesKeepSchema(tb: Tables, record: Id, participant: Id, t: ResonanceType, now: Instant)
    requires Schema(tb) && participant in tb.participants && record in tb.records
    ensures var after := Toggled(tb.resonances, tb.nextResonanceId, record, participant, t, now);
      Schema(tb.(resonances := after.0, nextResonanceId := after.1))
  {
    var after := Toggled(tb.resonances, tb.nextResonanceId, record, participant, t, now);
    ToggleKeepsSchema(tb.resonances, tb.nextResonanceId, record, participant, t, now);
    assert ResonanceReferences(after.0, tb.participants, tb.records);
  }

  lemma InsertKeepsOneResonancePerTriple(zs: map<Id, Resonance>, next: Id, z: Resonance)
    requires KeysBelow(zs, next) && OneResonancePerTriple(zs)
    requires FindResonance(zs, z.record, z.participant, z.rtype).None?
    ensures KeysBelow(zs[next := z], next + 1) && OneResonancePerTriple(zs[next := z])
  {
    assert next !in zs;
    assert forall k :: k in zs ==> TripleOf(zs[k]) != TripleOf(z);
  }

  lemma RemoveKeepsResonanceSchema(zs: map<Id, Resonance>, next: Id, ps: map<Id, Participant>,
                                   rs: map<Id, LearningRecord>, id: Id)
    requires KeysBelow(zs, next) && OneResonancePerTriple(zs) && ResonanceReferences(zs, ps, rs)
    ensures KeysBelow(zs - {id}, next) && OneResonancePerTriple(zs - {id}) && ResonanceReferences(zs - {id}, ps, rs)
  {
  }

  /** Toggling flips exactly the one triple: it is removed when present and
      added when absent, and every other triple stays as it was. */
  lemma ToggleFlipsTriple(zs: map<Id, Resonance>, next: Id, record: Id, participant: Id, t: ResonanceType,
                          now: Instant)
    requires KeysBelow(zs, next) && OneResonancePerTriple(zs)
    ensures var x := (record, participant, t);
      Triples(Toggled(zs, next, record, participant, t, now).0) ==
        if x in Triples(zs) then Triples(zs) - {x} else Triples(zs) + {x}
  {
    var x := (record, participant, t);
    var after := Toggled(zs, next, record, participant, t, now);
    var zs' := after.0;
    if after.2.toggled {
      TogglePresence(zs, next, record, participant, t, now);
      assert next !in zs;
      assert TripleOf(zs'[next]) == x;
      forall y | y in Triples(zs')
        ensures y in Triples(zs) + {x}
      {
        var k :| k in zs' && TripleOf(zs'[k]) == y;
        if k != next {
          assert k in zs && zs[k] == zs'[k];
        }
      }
      forall y | y in Triples(zs)
        ensures y in Triples(zs')
      {
        var k :| k in zs && TripleOf(zs[k]) == y;
        assert k in zs' && zs'[k] == zs[k];
      }
    } else {
      var gone := after.2.id;
      assert x in Triples(zs);
      forall y | y in Triples(zs')
        ensures y in Triples(zs) && y != x
      {
        var k :| k in zs' && TripleOf(zs'[k]) == y;
        assert k in zs && k != gone && zs[k] == zs'[k];
      }
      forall y | y in Triples(zs) && y != x
        ensures y in Triples(zs')
      {
        var k :| k in zs && TripleOf(zs[k]) == y;
        assert k != gone;
        assert k in zs' && zs'[k] == zs[k];
      }
    }
  }

  /** Toggling keeps the table well-formed: keys below the counter and at
      most one row per triple. */
  lemma ToggleKeepsSchema(zs: map<Id, Resonance>, next: Id, record: Id, participant: Id, t: ResonanceType,
                          now: Instant)
    requires KeysBelow(zs, next) && OneResonancePerTriple(zs)
    ensures var after := Toggled(zs, next, record, participant, t, now);
      KeysBelow(after.0, after.1) && OneResonancePerTriple(after.0)
  {
    var after := Toggled(zs, next, record, participant, t, now);
    if after.2.toggled {
      InsertKeepsOneResonancePerTriple(zs, next, Resonance(record, participant, t, now));
    }
  }

  /** Rows of another record, another participant or another type are
      neither changed nor removed, and no row but the new one appears. */
  lemma ToggleLeavesOthers(zs: map<Id, Resonance>, next: Id, record: Id, participant: Id, t: ResonanceType,
                           now: Instant)
    requires KeysBelow(zs, next)
    ensures var zs' := Toggled(zs, next, record, participant, t, now).0;
      (forall k :: k in zs && TripleOf(zs[k]) != (record, participant, t) ==> k in zs' && zs'[k] == zs[k]) &&
      (forall k :: k in zs' && k != next ==> k in zs && zs'[k] == zs[k])
  {
  }

  /** Toggling the same triple twice gives back the original set of triples
      (the row itself comes back under a new key and time). */
  lemma ToggleTwiceRestores(zs: map<Id, Resonance>, next: Id, record: Id, participant: Id, t: ResonanceType,
                            now: Instant, later: Instant)
    requires KeysBelow(zs, next) && OneResonancePerTriple(zs)
    ensures var once := Toggled(zs, next, record, participant, t, now);
      var twice := Toggled(once.0, once.1, record, participant, t, later);
      Triples(twice.0) == Triples(zs) && twice.2.toggled != once.2.toggled
  {
    var x := (record, participant, t);
    var once := Toggled(zs, next, record, participant, t, now);
    ToggleFlipsTriple(zs, next, record, participant, t, now);
    ToggleKeepsSchema(zs, next, record, participant, t, now);
    ToggleFlipsTriple(once.0, once.1, record, participant, t, later);
    var twice := Toggled(once.0, once.1, record, participant, t, later);
    assert x in Triples(once.0) <==> x !in Triples(zs);
    TogglePresence(zs, next, record, participant, t, now);
    TogglePresence(once.0, once.1, record, participant, t, later);
  }

  /** `toggled` is true exactly when the triple was absent. */
  lemma TogglePresence(zs: map<Id, Resonance>, next: Id, record: Id, participant: Id, t: ResonanceType,
                       now: Instant)
    ensures Toggled(zs, next, record, participant, t, now).2.toggled <==> (record, participant, t) !in Triples(zs)
  {
    var x := (record, participant, t);
    if x in Triples(zs) {
      var k :| k in zs && TripleOf(zs[k]) == x;
    }
  }
}
