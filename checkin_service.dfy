/** Checking in to a booth, by its QR token or by its typed code, and the
    participant's own check-in history. `now` stands for the insertion time
    the database stamps on the new row. */
module CheckInService {
  import opened Common
  import opened Domain
  import opened Repositories
  import GlobalExceptionHandler

  datatype CheckInResponse = CheckInResponse(
    id: Id,
    boothId: Id,
    boothCode: string,
    boothName: string,
    via: CheckInMethod,
    checkedInAt: Instant)

  const InvalidQrToken: Exception := IllegalArgument(Some("Invalid QR token"))

  function BoothCodeNotFound(code: string): Exception
  {
    NoSuchElement(Some("Booth not found with code: " + code))
  }

  function BoothInactive(code: string): Exception
  {
    IllegalState(Some("Booth '" + code + "' is not active"))
  }

  function AlreadyCheckedIn(code: string): Exception
  {
    IllegalState(Some("Already checked in to booth '" + code + "'"))
  }

  /** `toResponse`: the check-in joined with its booth. */
  function ToResponse(row: Row<CheckIn>, booths: map<Id, Booth>): (r: CheckInResponse)
    requires row.1.booth in booths
    ensures r.id == row.0 && r.boothId == row.1.booth && r.via == row.1.via && r.checkedInAt == row.1.checkedInAt
    ensures r.boothCode == booths[row.1.booth].code && r.boothName == booths[row.1.booth].name
  {
    var b := booths[row.1.booth];
    CheckInResponse(row.0, row.1.booth, b.code, b.name, row.1.via, row.1.checkedInAt)
  }

  /** What `performCheckIn` does to the check-in table: an inactive booth is
      refused first, then a second check-in of the same participant to the
      same booth; otherwise exactly one row is added under the next key. */
  ghost predicate CheckedIn(cs: map<Id, CheckIn>, next: Id, cs': map<Id, CheckIn>, next': Id,
                            booths: map<Id, Booth>, booth: Id, participant: Id, via: CheckInMethod,
                            now: Instant, r: Result<CheckInResponse>)
    requires booth in booths
  {
    var b := booths[booth];
    if !b.isActive then
      r == Err(BoothInactive(b.code)) && cs' == cs && next' == next
    else if CheckInExists(cs, participant, booth) then
      r == Err(AlreadyCheckedIn(b.code)) && cs' == cs && next' == next
    else
      cs' == cs[next := CheckIn(participant, booth, via, now)] && next' == next + 1 &&
      r == Ok(CheckInResponse(next, booth, b.code, b.name, via, now))
  }

  /** A new check-in for a pair that has none keeps every schema rule about
      check-ins. */
  lemma AddCheckInKeepsSchema(cs: map<Id, CheckIn>, next: Id, ps: map<Id, Participant>, bs: map<Id, Booth>,
                              c: CheckIn)
    requires KeysBelow(cs, next) && OneCheckInPerPair(cs) && CheckInReferences(cs, ps, bs)
    requires c.participant in ps && c.booth in bs
    requires !CheckInExists(cs, c.participant, c.booth)
    ensures KeysBelow(cs[next := c], next + 1)
    ensures OneCheckInPerPair(cs[next := c])
    ensures CheckInReferences(cs[next := c], ps, bs)
  {
    AddCheckInKeepsPairs(cs, next, c);
  }

  lemma AddCheckInKeepsPairs(cs: map<Id, CheckIn>, next: Id, c: CheckIn)
    requires next !in cs && OneCheckInPerPair(cs)
    requires !CheckInExists(cs, c.participant, c.booth)
    ensures OneCheckInPerPair(cs[next := c])
  {
    assert forall b :: b in cs ==> !(cs[b].participant == c.participant && cs[b].booth == c.booth);
  }

  lemma AddCheckInTablesKeepSchema(tb: Tables, c: CheckIn)
    requires Schema(tb) && c.participant in tb.participants && c.booth in tb.booths
    requires !CheckInExists(tb.checkIns, c.participant, c.booth)
    ensures Schema(tb.(checkIns := tb.checkIns[tb.nextCheckInId := c], nextCheckInId := tb.nextCheckInId + 1))
  {
    AddCheckInKeepsSchema(tb.checkIns, tb.nextCheckInId, tb.participants, tb.booths, c);
  }

  /** `performCheckIn`. */
  method PerformCheckIn(store: Store, booth: Id, participant: Id, via: CheckInMethod, now: Instant)
    returns (r: Result<CheckInResponse>)
    requires store.Valid()
    requires booth in store.booths && participant in store.participants
    modifies store`checkIns, store`nextCheckInId
    ensures store.Valid()
    ensures CheckedIn(old(store.checkIns), old(store.nextCheckInId), store.checkIns, store.nextCheckInId,
                      store.booths, booth, participant, via, now, r)
  {
    var b := store.booths[booth];
    if !b.isActive {
      return Err(BoothInactive(b.code));
    }
    if CheckInExists(store.checkIns, participant, booth) {
      return Err(AlreadyCheckedIn(b.code));
    }
    var c := CheckIn(participant, booth, via, now);
    ghost var before := store.Snapshot();
    AddCheckInTablesKeepSchema(before, c);
    var id := store.InsertCheckIn(c);
    assert store.Snapshot() == before.(checkIns := before.checkIns[id := c], nextCheckInId := id + 1);
    r := Ok(CheckInResponse(id, booth, b.code, b.name, via, now));
  }

  /** `checkInByQr`: the token names the booth; the row is marked QR. */
  method CheckInByQr(store: Store, qrToken: string, participant: Id, now: Instant)
    returns (r: Result<CheckInResponse>)
    requires store.Valid()
    requires participant in store.participants
    modifies store`checkIns, store`nextCheckInId
    ensures store.Valid()
    ensures FindBoothByQrToken(store.booths, qrToken).None? ==>
      r == Err(InvalidQrToken) &&
      store.checkIns == old(store.checkIns) && store.nextCheckInId == old(store.nextCheckInId)
    ensures FindBoothByQrToken(store.booths, qrToken).Some? ==>
      CheckedIn(old(store.checkIns), old(store.nextCheckInId), store.checkIns, store.nextCheckInId,
                store.booths, FindBoothByQrToken(store.booths, qrToken).value, participant, QR, now, r)
  {
    var found := FindBoothByQrToken(store.booths, qrToken);
    if found.None? {
      return Err(InvalidQrToken);
    }
    r := PerformCheckIn(store, found.value, participant, QR, now);
  }

  /** `checkInByCode`: the code names the booth; the row is marked MANUAL. */
  method CheckInByCode(store: Store, code: string, participant: Id, now: Instant)
    returns (r: Result<CheckInResponse>)
    requires store.Valid()
    requires participant in store.participants
    modifies store`checkIns, store`nextCheckInId
    ensures store.Valid()
    ensures FindBoothByCode(store.booths, code).None? ==>
      r == Err(BoothCodeNotFound(code)) &&
      store.checkIns == old(store.checkIns) && store.nextCheckInId == old(store.nextCheckInId)
    ensures FindBoothByCode(store.booths, code).Some? ==>
      CheckedIn(old(store.checkIns), old(store.nextCheckInId), store.checkIns, store.nextCheckInId,
                store.booths, FindBoothByCode(store.booths, code).value, participant, MANUAL, now, r)
  {
    var found := FindBoothByCode(store.booths, code);
    if found.None? {
      return Err(BoothCodeNotFound(code));
    }
    r := PerformCheckIn(store, found.value, participant, MANUAL, now);
  }

  /** A check-in succeeds exactly when the booth is active and the pair
      was not checked in before; a refused one leaves the table as it was. */
  lemma CheckedInOutcome(cs: map<Id, CheckIn>, next: Id, cs': map<Id, CheckIn>, next': Id,
                         booths: map<Id, Booth>, booth: Id, participant: Id, via: CheckInMethod,
                         now: Instant, r: Result<CheckInResponse>)
    requires booth in booths
    requires CheckedIn(cs, next, cs', next', booths, booth, participant, via, now, r)
    ensures r.Ok? <==> booths[booth].isActive && !CheckInExists(cs, participant, booth)
    ensures r.Err? ==> cs' == cs && next' == next
  {
  }

  /** A successful check-in is one more row, for exactly that pair, under a
      fresh key; the other rows stay and at most one check-in per pair
      remains. */
  lemma CheckedInAdds(cs: map<Id, CheckIn>, next: Id, cs': map<Id, CheckIn>, next': Id,
                      booths: map<Id, Booth>, booth: Id, participant: Id, via: CheckInMethod,
                      now: Instant, r: Result<CheckInResponse>)
    requires booth in booths && KeysBelow(cs, next) && OneCheckInPerPair(cs)
    requires CheckedIn(cs, next, cs', next', booths, booth, participant, via, now, r)
    requires r.Ok?
    ensures next !in cs && cs'.Keys == cs.Keys + {next} && |cs'| == |cs| + 1
    ensures forall k :: k in cs ==> cs'[k] == cs[k]
    ensures CheckInExists(cs', participant, booth) && OneCheckInPerPair(cs')
    ensures r.value.boothId == booth && r.value.boothCode == booths[booth].code &&
      r.value.boothName == booths[booth].name && r.value.via == via
  {
    assert next !in cs;
    AddCheckInKeepsPairs(cs, next, CheckIn(participant, booth, via, now));
  }

  /** The refusals of a check-in reach the client as: unknown QR token 400,
      unknown booth code 404, and an inactive booth or a repeated check-in
      500, since no handler is registered for `IllegalStateException`. */
  lemma CheckInErrorStatuses(code: string)
    ensures GlobalExceptionHandler.Handle(InvalidQrToken).status == GlobalExceptionHandler.BadRequest
    ensures GlobalExceptionHandler.Handle(BoothCodeNotFound(code)).status == GlobalExceptionHandler.NotFound
    ensures GlobalExceptionHandler.Handle(BoothInactive(code)).status == GlobalExceptionHandler.InternalServerError
    ensures GlobalExceptionHandler.Handle(AlreadyCheckedIn(code)).status ==
      GlobalExceptionHandler.InternalServerError
    ensures GlobalExceptionHandler.Handle(AlreadyCheckedIn(code)).body.error == Some("Internal server error")
  {
    GlobalExceptionHandler.HandledMessages(AlreadyCheckedIn(code));
  }

  function ToResponses(rows: seq<Row<CheckIn>>, booths: map<Id, Booth>): (r: seq<CheckInResponse>)
    requires forall i :: 0 <= i < |rows| ==> rows[i].1.booth in booths
    ensures |r| == |rows|
    ensures forall i :: 0 <= i < |r| ==>
      r[i].id == rows[i].0 && r[i].boothId == rows[i].1.booth && r[i].via == rows[i].1.via &&
      r[i].checkedInAt == rows[i].1.checkedInAt
    ensures forall i :: 0 <= i < |r| ==>
      r[i].boothCode == booths[rows[i].1.booth].code && r[i].boothName == booths[rows[i].1.booth].name
  {
    seq(|rows|, i requires 0 <= i < |rows| => ToResponse(rows[i], booths))
  }

  /** `r` lists every check-in of the participant once and no other, newest
      first, each with its booth's id, code and name, its method and its
      time. */
  ghost predicate ListsCheckInsOf(cs: map<Id, CheckIn>, booths: map<Id, Booth>, participant: Id,
                                  r: seq<CheckInResponse>)
  {
    (forall i :: 0 <= i < |r| ==>
      r[i].id in cs && cs[r[i].id].participant == participant &&
      r[i].boothId == cs[r[i].id].booth && r[i].via == cs[r[i].id].via && r[i].checkedInAt == cs[r[i].id].checkedInAt) &&
    (forall i :: 0 <= i < |r| ==>
      r[i].boothId in booths && r[i].boothCode == booths[r[i].boothId].code &&
      r[i].boothName == booths[r[i].boothId].name) &&
    (forall k :: k in cs && cs[k].participant == participant ==> exists i :: 0 <= i < |r| && r[i].id == k) &&
    (forall i, j :: 0 <= i < j < |r| ==> r[i].checkedInAt >= r[j].checkedInAt) &&
    (forall i, j :: 0 <= i < j < |r| ==> r[i].id != r[j].id)
  }

  /** `getMyCheckIns`. */
  function GetMyCheckIns(store: Store, participant: Id): (r: seq<CheckInResponse>)
    reads store
    requires CheckInReferences(store.checkIns, store.participants, store.booths)
    ensures ListsCheckInsOf(store.checkIns, store.booths, participant, r)
  {
    var rows := CheckInsOfParticipant(store.checkIns, participant);
    var r := ToResponses(rows, store.booths);
    ResponsesMirrorRows(store.checkIns, store.booths, participant, rows, r);
    r
  }

  lemma ResponsesMirrorRows(cs: map<Id, CheckIn>, booths: map<Id, Booth>, participant: Id, rows: seq<Row<CheckIn>>,
                            r: seq<CheckInResponse>)
    requires forall i :: 0 <= i < |rows| ==>
      rows[i].0 in cs && cs[rows[i].0] == rows[i].1 && rows[i].1.participant == participant
    requires forall k :: k in cs && cs[k].participant == participant ==> (k, cs[k]) in rows
    requires forall i, j :: 0 <= i < j < |rows| ==> rows[i].1.checkedInAt >= rows[j].1.checkedInAt
    requires forall i, j :: 0 <= i < j < |rows| ==> rows[i].0 != rows[j].0
    requires |r| == |rows|
    requires forall i :: 0 <= i < |r| ==>
      r[i].id == rows[i].0 && r[i].boothId == rows[i].1.booth && r[i].via == rows[i].1.via &&
      r[i].checkedInAt == rows[i].1.checkedInAt
    requires forall i :: 0 <= i < |r| ==>
      r[i].boothId in booths && r[i].boothCode == booths[r[i].boothId].code && r[i].boothName == booths[r[i].boothId].name
    ensures ListsCheckInsOf(cs, booths, participant, r)
  {
    forall k | k in cs && cs[k].participant == participant
      ensures exists i :: 0 <= i < |r| && r[i].id == k
    {
      var e: Row<CheckIn> := (k, cs[k]);
      assert e in rows;
      var i :| 0 <= i < |rows| && rows[i] == e;
      assert r[i].id == k;
    }
  }
}
