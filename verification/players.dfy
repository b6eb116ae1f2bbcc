/** `PlayerService` (`src/services/PlayerService.ts`): the player records
    under the storage key "players", with the same read-change-save pattern
    as the items. The new id and the clock's ISO text are parameters. */
module Players {
  import opened Js
  import opened Text
  import opened Storage
  import opened Records

  const PlayersKey := "players"

  /** The record `createPlayer` builds. */
  function NewPlayer(id: string, createdAt: string): (r: Obj)
    ensures r.Keys == {"id", "createdAt", "foundItemsCount", "items"}
    ensures r["foundItemsCount"] == JNum(0.0) && r["items"] == JArr([]) && r["id"] == JStr(id)
  {
    map["id" := JStr(id), "createdAt" := JStr(createdAt),
        "foundItemsCount" := JNum(0.0), "items" := JArr([])]
  }

  /** `createPlayer()`: appends one new player. */
  function CreatePlayer(env: Env, store: Store, id: string, now: string): (r: Result<(Store, Obj)>)
    ensures r.Ok? ==> r.value.1 == NewPlayer(id, now)
    ensures r.Ok? ==> CollectionList(env, store, PlayersKey).Ok?
    ensures r.Ok? ==> (Get(env, r.value.0, PlayersKey)
      == ReadBack(env.codec, JArr(CollectionList(env, store, PlayersKey).value + [JObj(r.value.1)])))
    ensures r.Ok? && RoundTrips(env.codec, JArr(CollectionList(env, store, PlayersKey).value + [JObj(r.value.1)])) ==>
      CollectionList(env, r.value.0, PlayersKey) == Ok(CollectionList(env, store, PlayersKey).value + [JObj(r.value.1)])
    ensures CollectionList(env, store, PlayersKey).Err? ==> r == Err(TypeError)
  {
    var player := NewPlayer(id, now);
    var saved :- Append(env, store, PlayersKey, JObj(player));
    Ok((saved, player))
  }

  /** `getAllPlayers()`: the stored value, or `[]` when it is falsy. */
  function GetAllPlayers(env: Env, store: Store): (r: Json)
    ensures Truthy(Get(env, store, PlayersKey)) ==> r == Get(env, store, PlayersKey)
    ensures !Truthy(Get(env, store, PlayersKey)) ==> r == JArr([])
  {
    Collection(env, store, PlayersKey)
  }

  /** `getPlayerById(id)`: the first player with the id, or `None`. */
  function GetPlayerById(env: Env, store: Store, id: Json): (r: Result<Option<Obj>>)
    ensures r.Ok? ==> CollectionList(env, store, PlayersKey).Ok?
    ensures r.Ok? && r.value.Some? ==> (var xs := CollectionList(env, store, PlayersKey).value;
      exists i :: 0 <= i < |xs| && xs[i] == JObj(r.value.value) && HasId(xs[i], id)
        && forall j :: 0 <= j < i ==> !HasId(xs[j], id))
    ensures r.Ok? && r.value.None? ==> forall x :: x in CollectionList(env, store, PlayersKey).value ==> !HasId(x, id)
    ensures r.Ok? && r.value.Some? ==> Present(env, store, PlayersKey, id) && r.value.value == Before(env, store, PlayersKey, id)
    ensures r.Ok? && r.value.None? ==> Lookup(env, store, PlayersKey, id) == Ok(None)
    ensures r.Err? ==> r.exc == TypeError
  {
    var found := FindById(env, store, PlayersKey, id);
    assert found.Ok? && found.value.None? ==> forall x :: x in CollectionList(env, store, PlayersKey).value ==> !HasId(x, id) by {
      if found.Ok? && found.value.None? {
        var xs := CollectionList(env, store, PlayersKey).value;
        assert PassedBy(xs, id, |xs|);
      }
    }
    found
  }

  /** `updatePlayerFoundItemsCounter(playerId, count)`: sets
      `foundItemsCount` only. */
  function UpdatePlayerFoundItemsCounter(env: Env, store: Store, playerId: Json, count: real): (r: Result<Updated>)
    ensures r.Ok? && r.value.record.None? ==> r.value.store == store
    ensures r.Ok? && r.value.record.Some? ==> (Present(env, store, PlayersKey, playerId) &&
      SetsOnly(Before(env, store, PlayersKey, playerId), r.value.record.value, "foundItemsCount", JNum(count)))
    ensures Lookup(env, store, PlayersKey, playerId) == Ok(None) ==> r == Ok(Updated(store, None))
  {
    UpdateField(env, store, PlayersKey, playerId, "foundItemsCount", JNum(count))
  }

  /** `{...player, heroName: heroName.trim() || undefined}` once stored: a
      blank name leaves no `heroName` key at all. */
  function HeroNamePatch(heroName: string): Obj -> Obj {
    (rec: Obj) => if Trim(heroName) != "" then rec["heroName" := JStr(Trim(heroName))] else rec - {"heroName"}
  }

  /** `updatePlayerHeroName(playerId, heroName)`: stores the trimmed name,
      or drops the name when it trims to nothing; nothing else changes. */
  function UpdatePlayerHeroName(env: Env, store: Store, playerId: Json, heroName: string): (r: Result<Updated>)
    ensures r.Ok? && r.value.record.None? ==> r.value.store == store
    ensures r.Ok? && r.value.record.Some? ==> (Present(env, store, PlayersKey, playerId)
      && HeroNamed(Before(env, store, PlayersKey, playerId), r.value.record.value, heroName))
    ensures Lookup(env, store, PlayersKey, playerId) == Ok(None) ==> r == Ok(Updated(store, None))
  {
    var r := UpdateById(env, store, PlayersKey, playerId, HeroNamePatch(heroName));
    assert r.Ok? && r.value.record.Some? ==> HeroNamed(Before(env, store, PlayersKey, playerId), r.value.record.value, heroName) by {
      if r.Ok? && r.value.record.Some? {
        var found := Lookup(env, store, PlayersKey, playerId);
        assert found.Ok? && found.value.Some?;
        var prev := found.value.value.1;
        assert r.value.record.value == HeroNamePatch(heroName)(prev);
        HeroNamePatchNames(heroName, prev);
      }
    }
    r
  }

  /** `next` is `prev` with the hero name set from `heroName`. */
  predicate HeroNamed(prev: Obj, next: Obj, heroName: string) {
    (!AllSpace(heroName) ==> "heroName" in next && next["heroName"] == JStr(Trim(heroName)))
    && (AllSpace(heroName) ==> "heroName" !in next)
    && next.Keys - {"heroName"} == prev.Keys - {"heroName"}
    && forall k :: k in prev && k != "heroName" ==> k in next && next[k] == prev[k]
  }

  lemma HeroNamePatchNames(heroName: string, prev: Obj)
    ensures HeroNamed(prev, HeroNamePatch(heroName)(prev), heroName)
  {
    TrimEmptyIffAllSpace(heroName);
  }

  /** `item.found` is truthy; reading it from `null` throws, every other
      non-object has no such property. */
  predicate IsFound(item: Json) {
    item.JObj? && TruthyOpt(Field(item.fields, "found"))
  }

  /** `getFoundItemsCount(items)`: counts the items whose `found` is truthy,
      one at a time. */
  method GetFoundItemsCount(items: seq<Json>) returns (r: Result<nat>)
    ensures r.Err? <==> HasNull(items)
    ensures r.Err? ==> r.exc == TypeError
    ensures r.Ok? ==> r.value == |Kept(items, IsFound)|
    ensures r.Ok? ==> r.value <= |items|
  {
    var count := 0;
    var i := 0;
    while i < |items|
      invariant 0 <= i <= |items|
      invariant !HasNull(items[..i])
      invariant count == |Kept(items[..i], IsFound)|
    {
      if items[i].JNull? {
        assert items[i].JNull?;
        return Err(TypeError);
      }
      assert items[..i + 1][..i] == items[..i];
      if IsFound(items[i]) {
        count := count + 1;
      }
      i := i + 1;
    }
    assert items[..i] == items;
    KeptLength(items, IsFound);
    return Ok(count);
  }

  /** `updateItem(id, data)` on a player: a shallow merge in which every
      key of the patch overwrites. */
  function UpdatePlayer(env: Env, store: Store, id: Json, data: Obj): (r: Result<Updated>)
    ensures r.Ok? && r.value.record.None? ==> r.value.store == store
    ensures r.Ok? && r.value.record.Some? ==> (Present(env, store, PlayersKey, id)
      && var prev := Before(env, store, PlayersKey, id);
         var next := r.value.record.value;
         next.Keys == prev.Keys + data.Keys
         && (forall k :: k in data ==> next[k] == data[k])
         && (forall k :: k in prev && k !in data ==> next[k] == prev[k]))
    ensures Lookup(env, store, PlayersKey, id) == Ok(None) ==> r == Ok(Updated(store, None))
  {
    UpdateById(env, store, PlayersKey, id, rec => rec + data)
  }

  /** `deletePlayer(id)`: keeps, in order, the players without the id. */
  function DeletePlayer(env: Env, store: Store, id: Json): (r: Result<Store>)
    ensures r.Ok? ==> CollectionList(env, store, PlayersKey).Ok? && !HasNull(CollectionList(env, store, PlayersKey).value)
    ensures r.Ok? ==> (Get(env, r.value, PlayersKey)
      == ReadBack(env.codec, JArr(Kept(CollectionList(env, store, PlayersKey).value, x => !HasId(x, id)))))
    ensures r.Ok? && RoundTrips(env.codec, JArr(Kept(CollectionList(env, store, PlayersKey).value, x => !HasId(x, id)))) ==>
      CollectionList(env, r.value, PlayersKey) == Ok(Kept(CollectionList(env, store, PlayersKey).value, x => !HasId(x, id)))
  {
    SaveFiltered(env, store, PlayersKey, x => !HasId(x, id))
  }

  /** Deleting a player removes it and leaves every other storage key,
      the item collection included, reading as before: there is no cascade. */
  lemma DeletePlayerKeepsOtherKeys(env: Env, store: Store, id: Json, other: string, x: Json)
    requires DeletePlayer(env, store, id).Ok?
    requires other != PlayersKey
    ensures Get(env, DeletePlayer(env, store, id).value, other) == Get(env, store, other)
    ensures RoundTrips(env.codec, JArr(Kept(CollectionList(env, store, PlayersKey).value, y => !HasId(y, id)))) ==>
      (x in CollectionList(env, DeletePlayer(env, store, id).value, PlayersKey).value <==>
       x in CollectionList(env, store, PlayersKey).value && !HasId(x, id))
  {
    var xs := CollectionList(env, store, PlayersKey).value;
    var kept := Kept(xs, y => !HasId(y, id));
    SaveLeavesOtherKeys(env, store, PlayersKey, other, JArr(kept));
    KeptMembers(xs, y => !HasId(y, id), x);
  }
}
