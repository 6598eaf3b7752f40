/** The growth keywords: the active list, and their creation, editing and
    soft deletion. */
module KeywordService {
  import opened Common
  import opened Domain
  import opened Repositories

  /** `sortOrder` is `None` when the request leaves it out (and then it is 0). */
  datatype CreateKeywordRequest = CreateKeywordRequest(name: string, nameEn: Option<string>, sortOrder: Option<int>)

  /** A partial edit: `None` leaves a field as it is. */
  datatype UpdateKeywordRequest = UpdateKeywordRequest(
    name: Option<string>,
    nameEn: Option<string>,
    sortOrder: Option<int>,
    isActive: Option<bool>)

  function DuplicateName(name: string): Exception
  {
    IllegalArgument(Some("Keyword with name '" + name + "' already exists"))
  }

  function KeywordNotFound(id: Id): Exception
  {
    NoSuchElement(Some("Keyword not found with id: " + Decimal(id)))
  }

  /** `toResponse`. */
  function ResponseOf(id: Id, k: GrowthKeyword): (r: KeywordResponse)
    ensures r.id == id && r.name == k.name && r.nameEn == k.nameEn
  {
    KeywordResponse(id, k.name, k.nameEn)
  }

  function ResponsesOf(rows: seq<Row<GrowthKeyword>>): (r: seq<KeywordResponse>)
    ensures |r| == |rows|
    ensures forall i :: 0 <= i < |r| ==> r[i] == ResponseOf(rows[i].0, rows[i].1)
  {
    if rows == [] then [] else [ResponseOf(rows[0].0, rows[0].1)] + ResponsesOf(rows[1..])
  }

  /** `r` lists every active keyword of `ks` once, none inactive, each with
      its name, by ascending sort order. */
  ghost predicate ListsActiveKeywords(ks: map<Id, GrowthKeyword>, r: seq<KeywordResponse>)
  {
    (forall i :: 0 <= i < |r| ==>
      r[i].id in ks && ks[r[i].id].isActive && r[i].name == ks[r[i].id].name && r[i].nameEn == ks[r[i].id].nameEn) &&
    (forall k :: k in ks && ks[k].isActive ==> exists i :: 0 <= i < |r| && r[i].id == k) &&
    (forall i, j :: 0 <= i < j < |r| ==> r[i].id in ks && r[j].id in ks && ks[r[i].id].sortOrder <= ks[r[j].id].sortOrder) &&
    (forall i, j :: 0 <= i < j < |r| ==> r[i].id != r[j].id)
  }

  /** `getActiveKeywords`. */
  function GetActiveKeywords(store: Store): (r: seq<KeywordResponse>)
    reads store
    ensures ListsActiveKeywords(store.keywords, r)
  {
    var rows := ActiveKeywordsBySortOrder(store.keywords);
    var r := ResponsesOf(rows);
    ResponsesMirrorRows(store.keywords, rows, r);
    r
  }

  lemma ResponsesMirrorRows(ks: map<Id, GrowthKeyword>, rows: seq<Row<GrowthKeyword>>, r: seq<KeywordResponse>)
    requires forall i :: 0 <= i < |rows| ==> rows[i].0 in ks && ks[rows[i].0] == rows[i].1 && rows[i].1.isActive
    requires forall k :: k in ks && ks[k].isActive ==> (k, ks[k]) in rows
    requires forall i, j :: 0 <= i < j < |rows| ==> rows[i].1.sortOrder <= rows[j].1.sortOrder
    requires forall i, j :: 0 <= i < j < |rows| ==> rows[i].0 != rows[j].0
    requires |r| == |rows|
    requires forall i :: 0 <= i < |r| ==> r[i] == ResponseOf(rows[i].0, rows[i].1)
    ensures ListsActiveKeywords(ks, r)
  {
    forall k | k in ks && ks[k].isActive
      ensures exists i :: 0 <= i < |r| && r[i].id == k
    {
      var e: Row<GrowthKeyword> := (k, ks[k]);
      assert e in rows;
      var i :| 0 <= i < |rows| && rows[i] == e;
      assert r[i].id == k;
    }
  }

  /** The keyword `create` saves: active, with sort order 0 unless given. */
  function NewKeyword(req: CreateKeywordRequest): (k: GrowthKeyword)
    ensures k.name == req.name && k.nameEn == req.nameEn && k.isActive
    ensures k.sortOrder == if req.sortOrder.Some? then req.sortOrder.value else 0
  {
    GrowthKeyword(req.name, req.nameEn, GetOr(req.sortOrder, 0), true)
  }

  /** Adding a keyword under a name no keyword has keeps the schema rules. */
  lemma AddKeywordKeepsSchema(ks: map<Id, GrowthKeyword>, next: Id, k: GrowthKeyword)
    requires KeysBelow(ks, next) && UniqueKeywordNames(ks)
    requires !KeywordNameExists(ks, k.name)
    ensures KeysBelow(ks[next := k], next + 1) && UniqueKeywordNames(ks[next := k])
    ensures ks.Keys <= ks[next := k].Keys
  {
    assert forall a :: a in ks ==> ks[a].name != k.name;
  }

  lemma AddKeywordTablesKeepSchema(tb: Tables, k: GrowthKeyword)
    requires Schema(tb) && !KeywordNameExists(tb.keywords, k.name)
    ensures Schema(tb.(keywords := tb.keywords[tb.nextKeywordId := k], nextKeywordId := tb.nextKeywordId + 1))
  {
    AddKeywordKeepsSchema(tb.keywords, tb.nextKeywordId, k);
  }

  /** Editing a keyword in place keeps every schema rule as long as names
      stay unique: the keys, and so every reference, are kept. */
  lemma KeywordEditKeepsSchema(tb: Tables, id: Id, k: GrowthKeyword)
    requires Schema(tb) && id in tb.keywords && UniqueKeywordNames(tb.keywords[id := k])
    ensures Schema(tb.(keywords := tb.keywords[id := k]))
  {
    assert tb.keywords[id := k].Keys == tb.keywords.Keys;
  }

  /** `create`: a name any keyword already has, active or not, is refused. */
  method Create(store: Store, req: CreateKeywordRequest) returns (r: Result<KeywordResponse>)
    requires store.Valid()
    modifies store`keywords, store`nextKeywordId
    ensures store.Valid()
    ensures KeywordNameExists(old(store.keywords), req.name) ==>
      r == Err(DuplicateName(req.name)) &&
      store.keywords == old(store.keywords) && store.nextKeywordId == old(store.nextKeywordId)
    ensures !KeywordNameExists(old(store.keywords), req.name) ==>
      store.keywords == old(store.keywords)[old(store.nextKeywordId) := NewKeyword(req)] &&
      store.nextKeywordId == old(store.nextKeywordId) + 1 &&
      r == Ok(ResponseOf(old(store.nextKeywordId), NewKeyword(req)))
  {
    if KeywordNameExists(store.keywords, req.name) {
      return Err(DuplicateName(req.name));
    }
    var k := NewKeyword(req);
    ghost var before := store.Snapshot();
    AddKeywordTablesKeepSchema(before, k);
    var id := store.InsertKeyword(k);
    assert store.Snapshot() == before.(keywords := before.keywords[id := k], nextKeywordId := id + 1);
    r := Ok(ResponseOf(id, k));
  }

  /** The keyword after the edits of `update`: each given field replaces the
      old value; a given `isActive` may switch the keyword back on. */
  function PatchedKeyword(k: GrowthKeyword, req: UpdateKeywordRequest): (p: GrowthKeyword)
    ensures p.name == GetOr(req.name, k.name)
    ensures p.nameEn == (if req.nameEn.Some? then req.nameEn else k.nameEn)
    ensures p.sortOrder == GetOr(req.sortOrder, k.sortOrder)
    ensures p.isActive == GetOr(req.isActive, k.isActive)
  {
    k.(name := GetOr(req.name, k.name),
       nameEn := if req.nameEn.Some? then req.nameEn else k.nameEn,
       sortOrder := GetOr(req.sortOrder, k.sortOrder),
       isActive := GetOr(req.isActive, k.isActive))
  }

  /** Whether `update` refuses the new name: it is taken by some keyword and
      is not the edited keyword's own name. */
  function RenameClashes(ks: map<Id, GrowthKeyword>, id: Id, req: UpdateKeywordRequest): (b: bool)
    requires id in ks
    ensures b <==> req.name.Some? && req.name.value != ks[id].name &&
                   exists k :: k in ks && ks[k].name == req.name.value
  {
    req.name.Some? && req.name.value != ks[id].name && KeywordNameExists(ks, req.name.value)
  }

  /** An edit that passes the name check keeps keyword names unique; keeping
      one's own name is always allowed. */
  lemma PatchKeepsUniqueNames(ks: map<Id, GrowthKeyword>, id: Id, req: UpdateKeywordRequest)
    requires id in ks && UniqueKeywordNames(ks)
    requires !RenameClashes(ks, id, req)
    ensures UniqueKeywordNames(ks[id := PatchedKeyword(ks[id], req)])
  {
    var p := PatchedKeyword(ks[id], req);
    var ks' := ks[id := p];
    forall a, b | a in ks' && b in ks' && ks'[a].name == ks'[b].name
      ensures a == b
    {
      if a == id && b != id {
        NameTakenBy(ks, id, req, b);
      } else if b == id && a != id {
        NameTakenBy(ks, id, req, a);
      }
    }
  }

  /** Another keyword never carries the patched keyword's name. */
  lemma NameTakenBy(ks: map<Id, GrowthKeyword>, id: Id, req: UpdateKeywordRequest, other: Id)
    requires id in ks && other in ks && other != id && UniqueKeywordNames(ks)
    requires !RenameClashes(ks, id, req)
    ensures ks[other].name != PatchedKeyword(ks[id], req).name
  {
    if req.name.Some? && req.name.value != ks[id].name {
      assert !(ks[other].name == req.name.value);
    }
  }

  /** `update`. */
  method Update(store: Store, id: Id, req: UpdateKeywordRequest) returns (r: Result<KeywordResponse>)
    requires store.Valid()
    modifies store`keywords
    ensures store.Valid()
    ensures id !in old(store.keywords) ==> r == Err(KeywordNotFound(id)) && store.keywords == old(store.keywords)
    ensures id in old(store.keywords) && RenameClashes(old(store.keywords), id, req) ==>
      r == Err(DuplicateName(req.name.value)) && store.keywords == old(store.keywords)
    ensures id in old(store.keywords) && !RenameClashes(old(store.keywords), id, req) ==>
      var p := PatchedKeyword(old(store.keywords)[id], req);
      store.keywords == old(store.keywords)[id := p] && r == Ok(ResponseOf(id, p))
  {
    if id !in store.keywords {
      return Err(KeywordNotFound(id));
    }
    var k := store.keywords[id];
    if req.name.Some? {
      var newName := req.name.value;
      if newName != k.name && KeywordNameExists(store.keywords, newName) {
        return Err(DuplicateName(newName));
      }
      k := k.(name := newName);
    }
    if req.nameEn.Some? { k := k.(nameEn := req.nameEn); }
    if req.sortOrder.Some? { k := k.(sortOrder := req.sortOrder.value); }
    if req.isActive.Some? { k := k.(isActive := req.isActive.value); }
    assert k == PatchedKeyword(store.keywords[id], req);
    PatchKeepsUniqueNames(store.keywords, id, req);
    ghost var before := store.Snapshot();
    KeywordEditKeepsSchema(before, id, k);
    store.keywords := store.keywords[id := k];
    assert store.Snapshot() == before.(keywords := before.keywords[id := k]);
    r := Ok(ResponseOf(id, k));
  }

  /** `delete` only switches the keyword off. */
  function Deactivated(k: GrowthKeyword): (d: GrowthKeyword)
    ensures !d.isActive && d.name == k.name && d.nameEn == k.nameEn && d.sortOrder == k.sortOrder
  {
    k.(isActive := false)
  }

  lemma DeactivateKeepsUniqueNames(ks: map<Id, GrowthKeyword>, id: Id)
    requires id in ks && UniqueKeywordNames(ks)
    ensures UniqueKeywordNames(ks[id := ks[id].(isActive := false)])
  {
    var ks' := ks[id := ks[id].(isActive := false)];
    assert forall a :: a in ks' ==> ks'[a].name == ks[a].name;
  }

  /** `delete`: the row stays, so booths and records keep referring to it. */
  method Delete(store: Store, id: Id) returns (r: Result<Unit>)
    requires store.Valid()
    modifies store`keywords
    ensures store.Valid()
    ensures id !in old(store.keywords) ==> r == Err(KeywordNotFound(id)) && store.keywords == old(store.keywords)
    ensures id in old(store.keywords) ==>
      store.keywords == old(store.keywords)[id := Deactivated(old(store.keywords)[id])] && r == Ok(Unit)
  {
    if id !in store.keywords {
      return Err(KeywordNotFound(id));
    }
    var k := store.keywords[id];
    k := k.(isActive := false);
    ghost var before := store.Snapshot();
    DeactivateKeepsUniqueNames(store.keywords, id);
    KeywordEditKeepsSchema(before, id, k);
    store.keywords := store.keywords[id := k];
    assert store.Snapshot() == before.(keywords := before.keywords[id := k]);
    r := Ok(Unit);
  }

  /** Deleting twice is deleting once; the keyword set of the table is kept
      and the keyword drops out of the active list. */
  lemma DeleteIdempotent(ks: map<Id, GrowthKeyword>, id: Id)
    requires id in ks
    ensures var ks' := ks[id := Deactivated(ks[id])];
      ks'[id := Deactivated(ks'[id])] == ks' && ks'.Keys == ks.Keys &&
      forall i :: 0 <= i < |ActiveKeywordsBySortOrder(ks')| ==> ActiveKeywordsBySortOrder(ks')[i].0 != id
  {
  }

  /** A given `isActive = true` brings a deleted keyword back. */
  lemma UpdateReactivates(k: GrowthKeyword, req: UpdateKeywordRequest)
    requires req.isActive == Some(true)
    ensures PatchedKeyword(Deactivated(k), req).isActive
  {
  }
}
