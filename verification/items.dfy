/** `ItemService` (`src/services/ItemService.ts`): the item records under
    the storage key "items". Each operation reads the whole list, changes
    or filters it, and saves it back. The new id and the clock's ISO text
    are parameters. */
module Items {
  import opened Js
  import opened Numbers
  import opened Storage
  import opened Records
  import opened Achievement

  const ItemsKey := "items"

  /** The record `createItem` builds. */
  function NewItem(id: string, name: Json, playerId: Json, createdAt: string): (r: Obj)
    ensures r.Keys == {"id", "name", "numberOfRuns", "createdAt", "playerId"}
    ensures r["numberOfRuns"] == JNum(0.0) && r["name"] == name && r["playerId"] == playerId && r["id"] == JStr(id)
  {
    map["id" := JStr(id), "name" := name, "numberOfRuns" := JNum(0.0),
        "createdAt" := JStr(createdAt), "playerId" := playerId]
  }

  /** `createItem(name, playerId)`: appends one new record. */
  function CreateItem(env: Env, store: Store, id: string, name: Json, playerId: Json, now: string): (r: Result<(Store, Obj)>)
    ensures r.Ok? ==> r.value.1 == NewItem(id, name, playerId, now)
    ensures r.Ok? ==> CollectionList(env, store, ItemsKey).Ok?
    ensures r.Ok? ==> (Get(env, r.value.0, ItemsKey)
      == ReadBack(env.codec, JArr(CollectionList(env, store, ItemsKey).value + [JObj(r.value.1)])))
    ensures r.Ok? && RoundTrips(env.codec, JArr(CollectionList(env, store, ItemsKey).value + [JObj(r.value.1)])) ==>
      CollectionList(env, r.value.0, ItemsKey) == Ok(CollectionList(env, store, ItemsKey).value + [JObj(r.value.1)])
    ensures CollectionList(env, store, ItemsKey).Err? ==> r == Err(TypeError)
  {
    var item := NewItem(id, name, playerId, now);
    var saved :- Append(env, store, ItemsKey, JObj(item));
    Ok((saved, item))
  }

  /** `getAllItems()`: the stored value, or `[]` when it is falsy. */
  function GetAllItems(env: Env, store: Store): (r: Json)
    ensures Truthy(Get(env, store, ItemsKey)) ==> r == Get(env, store, ItemsKey)
    ensures !Truthy(Get(env, store, ItemsKey)) ==> r == JArr([])
  {
    Collection(env, store, ItemsKey)
  }

  /** `item.playerId && item.playerId === playerId`. */
  predicate BelongsTo(item: Json, playerId: string) {
    item.JObj? && "playerId" in item.fields && Truthy(item.fields["playerId"])
    && StrictEquals(item.fields["playerId"], JStr(playerId))
  }

  /** `getItemsByPlayerId(playerId)`: the items whose `playerId` is that
      string, in stored order; items with no `playerId` (or a different
      one, or an array) are left out. */
  function GetItemsByPlayerId(env: Env, store: Store, playerId: string): (r: Result<seq<Json>>)
    ensures r.Ok? <==> CollectionList(env, store, ItemsKey).Ok? && !HasNull(CollectionList(env, store, ItemsKey).value)
    ensures r.Ok? ==> forall x :: x in r.value <==>
      (x in CollectionList(env, store, ItemsKey).value && x.JObj? && Field(x.fields, "playerId") == Some(JStr(playerId)) && playerId != "")
    ensures r.Ok? ==> r.value == Kept(CollectionList(env, store, ItemsKey).value, x => BelongsTo(x, playerId))
  {
    var xs :- CollectionList(env, store, ItemsKey);
    var r := Filter(xs, x => BelongsTo(x, playerId));
    assert r.Ok? ==> forall x :: x in r.value <==> x in xs && BelongsTo(x, playerId) by {
      if r.Ok? {
        forall x ensures x in r.value <==> x in xs && BelongsTo(x, playerId) {
          KeptMembers(xs, x => BelongsTo(x, playerId), x);
        }
      }
    }
    r
  }

  /** `getItemById(id)`: the first item with the id, or `None`. */
  function GetItemById(env: Env, store: Store, id: Json): (r: Result<Option<Obj>>)
    ensures r.Ok? ==> CollectionList(env, store, ItemsKey).Ok?
    ensures r.Ok? && r.value.Some? ==> HasId(JObj(r.value.value), id) && JObj(r.value.value) in CollectionList(env, store, ItemsKey).value
    ensures r.Ok? && r.value.None? ==> forall x :: x in CollectionList(env, store, ItemsKey).value ==> !HasId(x, id)
    ensures r.Ok? && r.value.Some? ==> Present(env, store, ItemsKey, id) && r.value.value == Before(env, store, ItemsKey, id)
    ensures r.Ok? && r.value.None? ==> Lookup(env, store, ItemsKey, id) == Ok(None)
    ensures r.Err? ==> r.exc == TypeError
  {
    var found := FindById(env, store, ItemsKey, id);
    assert found.Ok? && found.value.None? ==> forall x :: x in CollectionList(env, store, ItemsKey).value ==> !HasId(x, id) by {
      if found.Ok? && found.value.None? {
        var xs := CollectionList(env, store, ItemsKey).value;
        assert PassedBy(xs, id, |xs|);
      }
    }
    found
  }

  /** `updateItem(id, updates)`: every key of the patch overwrites the
      stored one, `id` and `playerId` included; nothing is recomputed. */
  function UpdateItem(env: Env, store: Store, id: Json, updates: Obj): (r: Result<Updated>)
    ensures r.Ok? && r.value.record.None? ==> r.value.store == store
    ensures r.Ok? && r.value.record.Some? ==> (Present(env, store, ItemsKey, id)
      && var prev := Before(env, store, ItemsKey, id);
         var next := r.value.record.value;
         next.Keys == prev.Keys + updates.Keys
         && (forall k :: k in updates ==> next[k] == updates[k])
         && (forall k :: k in prev && k !in updates ==> next[k] == prev[k]))
    ensures Lookup(env, store, ItemsKey, id) == Ok(None) ==> r == Ok(Updated(store, None))
  {
    UpdateById(env, store, ItemsKey, id, rec => rec + updates)
  }

  /** `item.numberOfRuns || 0` for the values the service stores there:
      a number, or nothing. */
  function RunsOf(rec: Obj): real {
    if "numberOfRuns" in rec && rec["numberOfRuns"].JNum? then rec["numberOfRuns"].n else 0.0
  }

  /** An achievement text as stored: the message, or `null`. */
  function TextJson(t: Option<string>): Json {
    if t.Some? then JStr(t.value) else JNull
  }

  /** The record `addRunsToItem` writes. */
  function AddRunsPatch(runsToAdd: real): Obj -> Obj {
    rec =>
      var total := RunsOf(rec) + runsToAdd;
      var text :=
        if TruthyOpt(Field(rec, "rarity")) then TextJson(AchievementText(total, ToNumber(rec["rarity"])))
        else OrElse(Field(rec, "achievementText"), JNull);
      rec["numberOfRuns" := JNum(total)]["achievementText" := text]
  }

  /** `addRunsToItem(id, runsToAdd)`: the run count grows by `runsToAdd`
      (a missing count reads as 0); the achievement text is recomputed from
      the new count when the item has a truthy rarity, and otherwise keeps
      the old text, or becomes `null`. Nothing else changes. */
  function AddRunsToItem(env: Env, store: Store, id: Json, runsToAdd: real): (r: Result<Updated>)
    ensures r.Ok? && r.value.record.None? ==> r.value.store == store
    ensures r.Ok? && r.value.record.Some? ==> (Present(env, store, ItemsKey, id)
      && var prev := Before(env, store, ItemsKey, id);
         var next := r.value.record.value;
         next.Keys == prev.Keys + {"numberOfRuns", "achievementText"}
         && next["numberOfRuns"] == JNum(RunsOf(prev) + runsToAdd)
         && (TruthyOpt(Field(prev, "rarity")) ==>
               next["achievementText"] == TextJson(AchievementText(RunsOf(prev) + runsToAdd, ToNumber(prev["rarity"]))))
         && (!TruthyOpt(Field(prev, "rarity")) && TruthyOpt(Field(prev, "achievementText")) ==>
               next["achievementText"] == prev["achievementText"])
         && (!TruthyOpt(Field(prev, "rarity")) && !TruthyOpt(Field(prev, "achievementText")) ==>
               next["achievementText"] == JNull)
         && forall k :: k in prev && k != "numberOfRuns" && k != "achievementText" ==> next[k] == prev[k])
    ensures Lookup(env, store, ItemsKey, id) == Ok(None) ==> r == Ok(Updated(store, None))
  {
    UpdateById(env, store, ItemsKey, id, AddRunsPatch(runsToAdd))
  }

  /** `setRarity(id, rarity)`: sets `rarity` only; the achievement text is
      left as it was. */
  function SetRarity(env: Env, store: Store, id: Json, rarity: Json): (r: Result<Updated>)
    ensures r.Ok? && r.value.record.None? ==> r.value.store == store
    ensures r.Ok? && r.value.record.Some? ==> (Present(env, store, ItemsKey, id) &&
      SetsOnly(Before(env, store, ItemsKey, id), r.value.record.value, "rarity", rarity))
    ensures Lookup(env, store, ItemsKey, id) == Ok(None) ==> r == Ok(Updated(store, None))
  {
    UpdateField(env, store, ItemsKey, id, "rarity", rarity)
  }

  /** `updateDate(id, date)`. `isoOf` is `new Date(date).toISOString()`,
      `None` when the date is invalid, which throws a `RangeError` once the
      item has been found. */
  function UpdateDate(env: Env, store: Store, id: Json, date: string, isoOf: string -> Option<string>): (r: Result<Updated>)
    ensures Lookup(env, store, ItemsKey, id) == Ok(None) ==> r == Ok(Updated(store, None))
    ensures Lookup(env, store, ItemsKey, id).Ok? && Lookup(env, store, ItemsKey, id).value.Some? && isoOf(date).None?
      ==> r == Err(RangeError)
    ensures r.Ok? && r.value.record.Some? ==> (isoOf(date).Some? && Present(env, store, ItemsKey, id) &&
      SetsOnly(Before(env, store, ItemsKey, id), r.value.record.value, "createdAt", JStr(isoOf(date).value)))
  {
    var found :- Lookup(env, store, ItemsKey, id);
    if found.None? then Ok(Updated(store, None))
    else if isoOf(date).None? then Err(RangeError)
    else UpdateField(env, store, ItemsKey, id, "createdAt", JStr(isoOf(date).value))
  }

  /** `updateTotalRuns(id, totalRuns)`: overwrites the run count only; the
      achievement text is left as it was. */
  function UpdateTotalRuns(env: Env, store: Store, id: Json, totalRuns: real): (r: Result<Updated>)
    ensures r.Ok? && r.value.record.None? ==> r.value.store == store
    ensures r.Ok? && r.value.record.Some? ==> (Present(env, store, ItemsKey, id) &&
      SetsOnly(Before(env, store, ItemsKey, id), r.value.record.value, "numberOfRuns", JNum(totalRuns)))
    ensures Lookup(env, store, ItemsKey, id) == Ok(None) ==> r == Ok(Updated(store, None))
  {
    UpdateField(env, store, ItemsKey, id, "numberOfRuns", JNum(totalRuns))
  }

  /** `deleteItem(id)`: keeps, in order, exactly the records without the id. */
  function DeleteItem(env: Env, store: Store, id: Json): (r: Result<Store>)
    ensures r.Ok? ==> CollectionList(env, store, ItemsKey).Ok? && !HasNull(CollectionList(env, store, ItemsKey).value)
    ensures r.Ok? ==> (Get(env, r.value, ItemsKey)
      == ReadBack(env.codec, JArr(Kept(CollectionList(env, store, ItemsKey).value, x => !HasId(x, id)))))
    ensures r.Ok? && RoundTrips(env.codec, JArr(Kept(CollectionList(env, store, ItemsKey).value, x => !HasId(x, id)))) ==>
      CollectionList(env, r.value, ItemsKey) == Ok(Kept(CollectionList(env, store, ItemsKey).value, x => !HasId(x, id)))
  {
    SaveFiltered(env, store, ItemsKey, x => !HasId(x, id))
  }

  /** After `deleteItem(id)` no record has the id, every other record is
      still there, and when no record had the id the list is unchanged. */
  lemma DeleteItemRemovesAll(env: Env, store: Store, id: Json, x: Json)
    requires DeleteItem(env, store, id).Ok?
    ensures RoundTrips(env.codec, JArr(Kept(CollectionList(env, store, ItemsKey).value, y => !HasId(y, id)))) ==>
      var before := CollectionList(env, store, ItemsKey).value;
      var after := CollectionList(env, DeleteItem(env, store, id).value, ItemsKey).value;
      (x in after <==> x in before && !HasId(x, id))
      && ((forall j :: 0 <= j < |before| ==> !HasId(before[j], id)) ==> after == before)
  {
    var before := CollectionList(env, store, ItemsKey).value;
    KeptMembers(before, y => !HasId(y, id), x);
    if forall j :: 0 <= j < |before| ==> !HasId(before[j], id) {
      KeptAll(before, y => !HasId(y, id));
    }
  }

  /** `updateItemName(id, name)`: sets `name` only. */
  function UpdateItemName(env: Env, store: Store, id: Json, name: Json): (r: Result<Updated>)
    ensures r.Ok? && r.value.record.None? ==> r.value.store == store
    ensures r.Ok? && r.value.record.Some? ==> (Present(env, store, ItemsKey, id) &&
      SetsOnly(Before(env, store, ItemsKey, id), r.value.record.value, "name", name))
    ensures Lookup(env, store, ItemsKey, id) == Ok(None) ==> r == Ok(Updated(store, None))
  {
    UpdateField(env, store, ItemsKey, id, "name", name)
  }

  /** `markAsFound(id, found)`: sets `found` only. */
  function MarkAsFound(env: Env, store: Store, id: Json, found: Json): (r: Result<Updated>)
    ensures r.Ok? && r.value.record.None? ==> r.value.store == store
    ensures r.Ok? && r.value.record.Some? ==> (Present(env, store, ItemsKey, id) &&
      SetsOnly(Before(env, store, ItemsKey, id), r.value.record.value, "found", found))
    ensures Lookup(env, store, ItemsKey, id) == Ok(None) ==> r == Ok(Updated(store, None))
  {
    UpdateField(env, store, ItemsKey, id, "found", found)
  }

  /** Marking an item found twice leaves the same storage as once. */
  lemma MarkAsFoundIdempotent(env: Env, store: Store, id: Json, found: Json)
    requires MarkAsFound(env, store, id, found).Ok?
    ensures UpdateRoundTrips(env, store, ItemsKey, id, SetField("found", found)) ==>
      var once := MarkAsFound(env, store, id, found).value;
      MarkAsFound(env, once.store, id, found) == Ok(once)
  {
    UpdateFieldIdempotent(env, store, ItemsKey, id, "found", found);
  }
}
