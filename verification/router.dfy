/** `LocalBackendService` (`src/services/LocalBackendService.ts`): the
    in-browser REST backend. A request is a method, a URL path, the query
    parameters and an optional JSON body; handling it is a pure transition
    from the storage contents to new contents and a response. Anything a
    handler throws, storage errors included, becomes a 500 and, because
    every handler writes at most once and last, leaves the storage as it
    was. */
module Router {
  import opened Js
  import opened Text
  import opened Uuid
  import opened Storage
  import opened Records
  import opened ItemValidation
  import opened Items
  import opened Players

  /* ---------------- Responses ---------------- */

  /** `MockResponse`: the headers are always JSON and are left out. */
  datatype Response = Response(ok: bool, status: int, body: Json)

  /** `createResponse(status, data)`. */
  function CreateResponse(status: int, data: Json): (r: Response)
    ensures r.ok <==> 200 <= status < 300
    ensures r.status == status && r.body == data
  {
    Response(status >= 200 && status < 300, status, data)
  }

  /** `sendError(status, error, code?, details?)`: `code` and `details` are
      added only when they are truthy. */
  function SendError(status: int, error: string, code: Option<Json>, details: Option<Json>): (r: Response)
    ensures r.status == status && (r.ok <==> 200 <= status < 300)
    ensures r.body.JObj? && "error" in r.body.fields && r.body.fields["error"] == JStr(error)
    ensures "code" in r.body.fields <==> TruthyOpt(code)
    ensures "details" in r.body.fields <==> TruthyOpt(details)
    ensures TruthyOpt(code) ==> r.body.fields["code"] == code.value
    ensures TruthyOpt(details) ==> r.body.fields["details"] == details.value
    ensures r.body.fields.Keys <= {"error", "code", "details"}
  {
    var withError: Obj := map["error" := JStr(error)];
    var withCode := if TruthyOpt(code) then withError["code" := code.value] else withError;
    var withDetails := if TruthyOpt(details) then withCode["details" := details.value] else withCode;
    CreateResponse(status, JObj(withDetails))
  }

  /** `sendError(status, error)`, the only form the handlers use. */
  function Fail(status: int, error: string): (r: Response)
    ensures r.status == status && (r.ok <==> 200 <= status < 300)
    ensures r.body == JObj(map["error" := JStr(error)])
  {
    var r := SendError(status, error, None, None);
    assert r.body.fields.Keys == {"error"};
    r
  }

  /** The new storage and the response. */
  datatype Reply = Reply(store: Store, response: Response)

  /** What the host supplies: the id `crypto.randomUUID()` returns, the
      clock's ISO text, and `playerService.calculatePlayerExperience`,
      which `PlayerService` does not define (`None`: the call throws). */
  datatype Host = Host(freshId: string, now: string, experience: seq<Json> -> Option<Json>)

  /* ---------------- Route patterns ---------------- */

  /** No character `.` refuses to match. */
  predicate DotMatches(s: string) {
    forall i :: 0 <= i < |s| ==> !IsLineTerminator(s[i])
  }

  /** `path.match(/^<prefix>(.+)$/)`: the captured rest of the path. */
  function CaptureAfter(path: string, prefix: string): (r: Option<string>)
    ensures r.Some? ==> path == prefix + r.value && r.value != "" && DotMatches(r.value)
  {
    if StartsWith(path, prefix) && |path| > |prefix| && DotMatches(path[|prefix|..]) then
      assert path == prefix + path[|prefix|..];
      Some(path[|prefix|..])
    else None
  }

  /** Every non-empty rest without a line terminator is captured. */
  lemma CaptureAfterOf(prefix: string, rest: string)
    requires rest != "" && DotMatches(rest)
    ensures CaptureAfter(prefix + rest, prefix) == Some(rest)
  {
    assert (prefix + rest)[..|prefix|] == prefix;
    assert (prefix + rest)[|prefix|..] == rest;
  }

  /** `path.match(/^<prefix>(.+)<suffix>$/)`: the part between. */
  function CaptureBetween(path: string, prefix: string, suffix: string): (r: Option<string>)
    ensures r.Some? ==> path == prefix + r.value + suffix && r.value != "" && DotMatches(r.value)
  {
    if StartsWith(path, prefix) && |path| > |prefix| + |suffix| && path[|path| - |suffix|..] == suffix
      && DotMatches(path[|prefix|..|path| - |suffix|]) then
      assert path == prefix + path[|prefix|..|path| - |suffix|] + suffix;
      Some(path[|prefix|..|path| - |suffix|])
    else None
  }

  lemma CaptureBetweenOf(prefix: string, mid: string, suffix: string)
    requires mid != "" && DotMatches(mid)
    ensures CaptureBetween(prefix + mid + suffix, prefix, suffix) == Some(mid)
  {
    var p := prefix + mid + suffix;
    assert p[..|prefix|] == prefix;
    assert p[|p| - |suffix|..] == suffix;
    assert p[|prefix|..|p| - |suffix|] == mid;
  }

  const ItemPrefix := "/api/items/"
  const PlayerPrefix := "/api/player/"
  const HeroNameSuffix := "/hero-name"

  /* ---------------- GET ---------------- */

  /** A path the item route captures is neither of the fixed routes: its
      eleventh character is the `/` after `items`. */
  lemma ItemRouteDistinct(path: string)
    requires CaptureAfter(path, ItemPrefix).Some?
    ensures path != "/api/players" && path != "/api/items"
  {
    assert path[..|ItemPrefix|] == ItemPrefix;
    assert path[10] == ItemPrefix[10] == '/';
  }

  /** `handleGet(path, query)`: reads only, so it returns no storage. */
  function HandleGet(env: Env, store: Store, host: Host, path: string, query: map<string, string>): (r: Result<Response>)
    ensures r.Err? ==> r.exc == TypeError
    ensures r.Ok? ==> r.value.status == 200 || r.value.status == 404
    ensures path == "/api/players" ==> r == Ok(CreateResponse(200, GetAllPlayers(env, store)))
    ensures (path == "/api/items" && "playerId" in query && Trim(query["playerId"]) != "" && r.Ok?) ==>
      r.value.status == 200 && r.value.body.JArr? && CollectionList(env, store, ItemsKey).Ok?
      && forall x :: x in r.value.body.elems <==> (x in CollectionList(env, store, ItemsKey).value
        && x.JObj? && Field(x.fields, "playerId") == Some(JStr(query["playerId"])))
    ensures (CaptureAfter(path, ItemPrefix).Some? && r.Ok? && r.value.status == 200) ==>
      CollectionList(env, store, ItemsKey).Ok? && r.value.body in CollectionList(env, store, ItemsKey).value
      && HasId(r.value.body, JStr(CaptureAfter(path, ItemPrefix).value))
    ensures (CaptureAfter(path, ItemPrefix).Some? && r.Ok? && r.value.status == 404) ==>
      r.value == Fail(404, "Item not found") && CollectionList(env, store, ItemsKey).Ok?
      && forall x :: x in CollectionList(env, store, ItemsKey).value ==> !HasId(x, JStr(CaptureAfter(path, ItemPrefix).value))
    ensures (path != "/api/players" && path != "/api/items" && CaptureAfter(path, ItemPrefix).None?
      && CaptureAfter(path, PlayerPrefix).None?) ==> r == Ok(Fail(404, "Not found"))
  {
    assert CaptureAfter(path, ItemPrefix).Some? ==> path != "/api/players" && path != "/api/items" by {
      if CaptureAfter(path, ItemPrefix).Some? { ItemRouteDistinct(path); }
    }
    if path == "/api/players" then Ok(CreateResponse(200, GetAllPlayers(env, store)))
    else if path == "/api/items" then
      if "playerId" in query && query["playerId"] != "" && Trim(query["playerId"]) != "" then
        var items :- GetItemsByPlayerId(env, store, query["playerId"]);
        Ok(CreateResponse(200, JArr(items)))
      else Ok(CreateResponse(200, JArr([])))
    else match CaptureAfter(path, ItemPrefix)
      case Some(id) =>
        var item :- GetItemById(env, store, JStr(id));
        if item.None? then Ok(Fail(404, "Item not found"))
        else Ok(CreateResponse(200, JObj(item.value)))
      case None =>
        match CaptureAfter(path, PlayerPrefix)
        case Some(id) =>
          var player :- GetPlayerById(env, store, JStr(id));
          if player.None? then Ok(Fail(404, "Player not found"))
          else
            var items :- GetItemsByPlayerId(env, store, id);
            var experience := host.experience(items);
            if experience.None? then Err(TypeError)
            else Ok(CreateResponse(200, JObj(player.value + map["items" := JArr(items), "experience" := experience.value])))
        case None => Ok(Fail(404, "Not found"))
  }

  /* ---------------- POST ---------------- */

  /** `handlePost(path, body)`. */
  function HandlePost(env: Env, store: Store, host: Host, path: string, body: Option<Json>): (r: Result<Reply>)
    ensures r.Ok? && !r.value.response.ok ==> r.value.store == store
    ensures (path == "/api/items" && ValidateCreateItemRequest(body).Ok?
      && ValidateCreateItemRequest(body).value.Invalid?) ==>
      r == Ok(Reply(store, Fail(400, ValidateCreateItemRequest(body).value.error)))
    ensures (path == "/api/items" && ValidateCreateItemRequest(body) == Ok(Valid) && r.Ok?) ==>
      r.value.response == CreateResponse(201, JObj(NewItem(host.freshId, Arg(body, "name").value,
                                                           Arg(body, "playerId").value, host.now)))
    ensures (path == "/api/players" && r.Ok?) ==>
      r.value.response == CreateResponse(201, JObj(NewPlayer(host.freshId, host.now)))
    ensures path != "/api/items" && path != "/api/players" ==> r == Ok(Reply(store, Fail(404, "Not found")))
  {
    if path == "/api/items" then
      var validation :- ValidateCreateItemRequest(body);
      if validation.Invalid? then Ok(Reply(store, Fail(400, validation.error)))
      else
        var (saved, item) :- CreateItem(env, store, host.freshId, Arg(body, "name").value, Arg(body, "playerId").value, host.now);
        Ok(Reply(saved, CreateResponse(201, JObj(item))))
    else if path == "/api/players" then
      var (saved, player) :- CreatePlayer(env, store, host.freshId, host.now);
      Ok(Reply(saved, CreateResponse(201, JObj(player))))
    else Ok(Reply(store, Fail(404, "Not found")))
  }

  /** The record a valid POST `/api/items` creates from the body and the
      host's fresh id and clock. */
  function PostedItem(host: Host, body: Option<Json>): Json
    requires ValidateCreateItemRequest(body) == Ok(Valid)
  {
    JObj(NewItem(host.freshId, Arg(body, "name").value, Arg(body, "playerId").value, host.now))
  }

  /** A valid POST `/api/items` answers 201 with the new record and saves
      the stored items with exactly that record appended; they read back
      as that list whenever it round-trips through the codec. */
  lemma PostItemAppends(env: Env, store: Store, host: Host, body: Option<Json>)
    requires ValidateCreateItemRequest(body) == Ok(Valid)
    requires HandlePost(env, store, host, "/api/items", body).Ok?
    ensures CollectionList(env, store, ItemsKey).Ok?
    ensures var reply := HandlePost(env, store, host, "/api/items", body).value;
      reply.response.status == 201 && reply.response.body == PostedItem(host, body)
      && Get(env, reply.store, ItemsKey)
         == ReadBack(env.codec, JArr(CollectionList(env, store, ItemsKey).value + [PostedItem(host, body)]))
    ensures RoundTrips(env.codec, JArr(CollectionList(env, store, ItemsKey).value + [PostedItem(host, body)])) ==>
      CollectionList(env, HandlePost(env, store, host, "/api/items", body).value.store, ItemsKey)
      == Ok(CollectionList(env, store, ItemsKey).value + [PostedItem(host, body)])
  {
  }

  /** Reading the new item back: after a valid POST `/api/items` with an id
      no stored item has, GET `/api/items/{id}` answers 200 with exactly the
      record the POST answered with, unless reading the items throws, as
      long as the saved list round-trips through the codec. */
  lemma PostThenGetItem(env: Env, store: Store, host: Host, body: Option<Json>, query: map<string, string>)
    requires ValidateCreateItemRequest(body) == Ok(Valid)
    requires HandlePost(env, store, host, "/api/items", body).Ok?
    requires host.freshId != "" && DotMatches(host.freshId)
    requires forall x :: x in CollectionList(env, store, ItemsKey).value ==> !HasId(x, JStr(host.freshId))
    requires HandleGet(env, HandlePost(env, store, host, "/api/items", body).value.store, host,
                       ItemPrefix + host.freshId, query).Ok?
    ensures RoundTrips(env.codec, JArr(CollectionList(env, store, ItemsKey).value + [PostedItem(host, body)])) ==>
      var reply := HandlePost(env, store, host, "/api/items", body).value;
      var got := HandleGet(env, reply.store, host, ItemPrefix + host.freshId, query).value;
      got.status == 200 && got.body == reply.response.body
  {
    var reply := HandlePost(env, store, host, "/api/items", body).value;
    PostItemAppends(env, store, host, body);
    var item := PostedItem(host, body);
    var before := CollectionList(env, store, ItemsKey).value;
    if RoundTrips(env.codec, JArr(before + [item])) {
      assert CollectionList(env, reply.store, ItemsKey) == Ok(before + [item]);
      CaptureAfterOf(ItemPrefix, host.freshId);
      var got := HandleGet(env, reply.store, host, ItemPrefix + host.freshId, query).value;
      assert HasId(item, JStr(host.freshId));
      assert item in before + [item];
      assert got.status == 200;
      assert got.body in before + [item];
    }
  }

  /* ---------------- PATCH ---------------- */

  /** The checks PATCH `/api/items` makes on the fields it is given; an
      absent field always passes. */
  predicate PatchNameOk(v: Option<Json>) {
    v.None? || (v.value.JStr? && !AllSpace(v.value.s))
  }

  predicate PatchRunsOk(v: Option<Json>) {
    v.None? || (v.value.JNum? && IsIntegral(v.value.n) && 0.0 <= v.value.n <= 100000.0)
  }

  predicate PatchRarityOk(v: Option<Json>) {
    v.None? || (v.value.JNum? && IsIntegral(v.value.n) && 0.0 < v.value.n <= 1000000.0)
  }

  /** The name check: a falsy name is rejected, a truthy non-string throws
      when `trim` is called on it, a blank string is rejected. */
  function PatchNameError(v: Option<Json>): (r: Result<Option<string>>)
    ensures r == Ok(None) <==> PatchNameOk(v)
    ensures r.Err? <==> TruthyOpt(v) && !v.value.JStr?
    ensures r.Ok? && r.value.Some? ==> r.value.value == "Name cannot be empty."
  {
    if v.None? then Ok(None)
    else if !Truthy(v.value) then Ok(Some("Name cannot be empty."))
    else if !v.value.JStr? then Err(TypeError)
    else
      TrimEmptyIffAllSpace(v.value.s);
      if Trim(v.value.s) == "" then Ok(Some("Name cannot be empty.")) else Ok(None)
  }

  /** The run-count check, in the source's order of messages. */
  function PatchRunsError(v: Option<Json>): (r: Option<string>)
    ensures r.None? <==> PatchRunsOk(v)
    ensures v.Some? && !v.value.JNum? ==> r == Some("Runs must be a number")
    ensures v.Some? && v.value.JNum? && IsIntegral(v.value.n) && v.value.n > 100000.0 ==> r == Some("Runs cannot exceed 100,000")
  {
    if v.None? then None
    else if !v.value.JNum? then Some("Runs must be a number")
    else if !IsIntegral(v.value.n) then Some("Runs must be a whole number")
    else if v.value.n < 0.0 then Some("Runs cannot be negative")
    else if v.value.n > 100000.0 then Some("Runs cannot exceed 100,000")
    else None
  }

  /** The rarity check, in the source's order of messages. */
  function PatchRarityError(v: Option<Json>): (r: Option<string>)
    ensures r.None? <==> PatchRarityOk(v)
    ensures v.Some? && !v.value.JNum? ==> r == Some("Rarity must be a number")
    ensures v.Some? && v.value.JNum? && IsIntegral(v.value.n) && v.value.n <= 0.0 ==> r == Some("Rarity must be greater than 0")
  {
    if v.None? then None
    else if !v.value.JNum? then Some("Rarity must be a number")
    else if !IsIntegral(v.value.n) then Some("Rarity must be a whole number")
    else if v.value.n <= 0.0 then Some("Rarity must be greater than 0")
    else if v.value.n > 1000000.0 then Some("Rarity cannot exceed 1,000,000")
    else None
  }

  /** All field checks, name first, then runs, then rarity. */
  function PatchFieldError(updates: Obj): (r: Result<Option<string>>)
    ensures r == Ok(None) <==>
      PatchNameOk(Field(updates, "name")) && PatchRunsOk(Field(updates, "numberOfRuns")) && PatchRarityOk(Field(updates, "rarity"))
    ensures r.Err? ==> r.exc == TypeError
    ensures PatchNameError(Field(updates, "name")) == Ok(None) ==>
      r == Ok(if PatchRunsError(Field(updates, "numberOfRuns")).Some? then PatchRunsError(Field(updates, "numberOfRuns"))
              else PatchRarityError(Field(updates, "rarity")))
  {
    var nameError :- PatchNameError(Field(updates, "name"));
    if nameError.Some? then Ok(nameError)
    else if PatchRunsError(Field(updates, "numberOfRuns")).Some? then Ok(PatchRunsError(Field(updates, "numberOfRuns")))
    else Ok(PatchRarityError(Field(updates, "rarity")))
  }

  /** The answer to an update: 404 with `notFound` when no record had the
      id, otherwise 200 with the changed record. */
  function Respond(store: Store, u: Updated, notFound: string): (r: Reply)
    ensures u.record.None? ==> r == Reply(store, Fail(404, notFound))
    ensures u.record.Some? ==> r == Reply(u.store, CreateResponse(200, JObj(u.record.value)))
  {
    if u.record.None? then Reply(store, Fail(404, notFound))
    else Reply(u.store, CreateResponse(200, JObj(u.record.value)))
  }

  /** The write of PATCH `/api/items` once every check has passed. With a
      run count only the runs change, through `addRunsToItem` when the
      count grows and `updateTotalRuns` otherwise, and every other field of
      the body is ignored; without one the whole body is merged. */
  function PatchItemWrite(env: Env, store: Store, itemId: Json, updates: Obj): (r: Result<Reply>)
    requires PatchRunsOk(Field(updates, "numberOfRuns"))
    ensures r.Ok? && !r.value.response.ok ==> r.value.store == store
    ensures r.Ok? ==> r.value.response.status == 200 || r.value.response.status == 404
  {
    if "numberOfRuns" in updates then
      var newRuns := updates["numberOfRuns"].n;
      var current :- GetItemById(env, store, itemId);
      if current.None? then Ok(Reply(store, Fail(404, "Item not found.")))
      else
        var currentRuns := RunsOf(current.value);
        var updated :- if newRuns > currentRuns then AddRunsToItem(env, store, itemId, newRuns - currentRuns)
                       else UpdateTotalRuns(env, store, itemId, newRuns);
        Ok(Respond(store, updated, "Item not found."))
    else
      var updated :- UpdateItem(env, store, itemId, updates);
      Ok(Respond(store, updated, "Item not found."))
  }

  /** PATCH `/api/items`: `const { itemId, ...updates } = body`, which
      throws for a missing or `null` body and finds no `itemId` in any
      other non-object; then every check, then the write. */
  function PatchItems(env: Env, store: Store, body: Option<Json>): (r: Result<Reply>)
    ensures body.None? || body.value.JNull? ==> r == Err(TypeError)
    ensures r.Ok? && !r.value.response.ok ==> r.value.store == store
    ensures r.Ok? && r.value.response.ok ==> (body.Some? && body.value.JObj?
      && IsId(Field(body.value.fields, "itemId"))
      && PatchFieldError(body.value.fields - {"itemId"}) == Ok(None))
  {
    if body.None? || body.value.JNull? then Err(TypeError)
    else
      var itemId := if body.value.JObj? then Field(body.value.fields, "itemId") else None;
      var updates := if body.value.JObj? then body.value.fields - {"itemId"} else map[];
      if !IsId(itemId) then Ok(Reply(store, Fail(400, "Invalid item ID format")))
      else
        var fieldError :- PatchFieldError(updates);
        if fieldError.Some? then Ok(Reply(store, Fail(400, fieldError.value)))
        else PatchItemWrite(env, store, itemId.value, updates)
  }

  /** PATCH `/api/items/found`. */
  function PatchFound(env: Env, store: Store, body: Option<Json>): (r: Result<Reply>)
    ensures r.Ok? && !r.value.response.ok ==> r.value.store == store
  {
    var validation :- ValidateMarkAsFoundRequest(body);
    if validation.Invalid? then Ok(Reply(store, Fail(400, validation.error)))
    else
      var updated :- MarkAsFound(env, store, Arg(body, "itemId").value, Arg(body, "found").value);
      Ok(Respond(store, updated, "Item not found"))
  }

  /** The body carries a `heroName` that is a non-empty string. */
  predicate HeroNameGiven(body: Option<Json>) {
    body.Some? && body.value.JObj? && "heroName" in body.value.fields
    && body.value.fields["heroName"].JStr? && body.value.fields["heroName"].s != ""
  }

  /** PATCH `/api/player/{id}/hero-name`: `const { heroName } = body`.
      A missing or `null` body throws; a falsy or non-string name is 400
      with no write; an unknown player is 404; otherwise 200 with the
      player as `updatePlayerHeroName` left it. */
  function PatchHeroName(env: Env, store: Store, id: string, body: Option<Json>): (r: Result<Reply>)
    ensures r.Ok? && !r.value.response.ok ==> r.value.store == store
    ensures body.None? || body.value.JNull? ==> r == Err(TypeError)
    ensures !(body.None? || body.value.JNull?) && !HeroNameGiven(body) ==>
      r == Ok(Reply(store, Fail(400, "Hero name is required")))
    ensures HeroNameGiven(body) && Lookup(env, store, PlayersKey, JStr(id)) == Ok(None) ==>
      r == Ok(Reply(store, Fail(404, "Player not found")))
    ensures HeroNameGiven(body) && Lookup(env, store, PlayersKey, JStr(id)).Err? ==> r.Err?
    ensures r.Ok? && r.value.response.status == 200 ==> (HeroNameGiven(body)
      && Present(env, store, PlayersKey, JStr(id)) && r.value.response.body.JObj?
      && HeroNamed(Before(env, store, PlayersKey, JStr(id)), r.value.response.body.fields, body.value.fields["heroName"].s))
    ensures r.Ok? && r.value.response.status != 200 ==> r.value.store == store
  {
    var heroName :- BodyProp(body, "heroName");
    if !TruthyOpt(heroName) || !heroName.value.JStr? then Ok(Reply(store, Fail(400, "Hero name is required")))
    else
      var updated :- UpdatePlayerHeroName(env, store, JStr(id), heroName.value.s);
      Ok(Respond(store, updated, "Player not found"))
  }

  /** After a 200 from the hero-name route, a later `getPlayerById`
      finds the player it answered, provided the saved list round-trips. */
  lemma HeroNameThenGetPlayer(env: Env, store: Store, id: string, body: Option<Json>)
    requires PatchHeroName(env, store, id, body).Ok?
    requires PatchHeroName(env, store, id, body).value.response.status == 200
    ensures HeroNameGiven(body)
    ensures var r := PatchHeroName(env, store, id, body).value;
      var patch := HeroNamePatch(body.value.fields["heroName"].s);
      RoundTrips(env.codec, JArr(UpdatedList(env, store, PlayersKey, JStr(id), patch))) ==>
      r.response.body.JObj? && GetPlayerById(env, r.store, JStr(id)) == Ok(Some(r.response.body.fields))
  {
    var name := body.value.fields["heroName"].s;
    var patch := HeroNamePatch(name);
    var u := UpdatePlayerHeroName(env, store, JStr(id), name);
    assert u == UpdateById(env, store, PlayersKey, JStr(id), patch);
    assert u.Ok? && u.value.record.Some?;
    ReadBackAfterUpdate(env, store, PlayersKey, JStr(id), patch);
    var prev := Before(env, store, PlayersKey, JStr(id));
    assert HasId(JObj(prev), JStr(id));
    assert "id" in patch(prev) && patch(prev)["id"] == prev["id"];
  }

  /** `handlePatch(path, body)`. */
  function HandlePatch(env: Env, store: Store, path: string, body: Option<Json>): (r: Result<Reply>)
    ensures r.Ok? && !r.value.response.ok ==> r.value.store == store
  {
    if path == "/api/items" then PatchItems(env, store, body)
    else if path == "/api/items/found" then PatchFound(env, store, body)
    else match CaptureBetween(path, PlayerPrefix, HeroNameSuffix)
      case Some(id) => PatchHeroName(env, store, id, body)
      case None => Ok(Reply(store, Fail(404, "Not found")))
  }

  /* ---------------- DELETE ---------------- */

  /** `handleDelete(path)`. The `!id` check of the item route can never
      fire, since the pattern captures at least one character. */
  function HandleDelete(env: Env, store: Store, path: string): (r: Result<Reply>)
    ensures r.Ok? && !r.value.response.ok ==> r.value.store == store
  {
    match CaptureAfter(path, ItemPrefix)
    case Some(id) =>
      if !IsValidUUID(id) then Ok(Reply(store, Fail(400, "Invalid item ID format")))
      else
        var item :- GetItemById(env, store, JStr(id));
        if item.None? then Ok(Reply(store, Fail(404, "Item not found")))
        else
          var saved :- DeleteItem(env, store, JStr(id));
          Ok(Reply(saved, CreateResponse(200, JObj(map["message" := JStr("Item deleted successfully")]))))
    case None =>
      match CaptureAfter(path, PlayerPrefix)
      case Some(id) =>
        var player :- GetPlayerById(env, store, JStr(id));
        if player.None? then Ok(Reply(store, Fail(404, "Player not found")))
        else
          var saved :- DeletePlayer(env, store, JStr(id));
          Ok(Reply(saved, CreateResponse(200, JObj(map["message" := JStr("Player deleted successfully")]))))
      case None => Ok(Reply(store, Fail(404, "Not found")))
  }

  /* ---------------- Dispatch ---------------- */

  /** The `switch (method)` inside the `try`. */
  function Dispatch(env: Env, store: Store, host: Host, verb: string, path: string,
                    query: map<string, string>, body: Option<Json>): (r: Result<Reply>)
    ensures r.Ok? && !r.value.response.ok ==> r.value.store == store
    ensures verb == "GET" && r.Ok? ==> r.value.store == store
  {
    if verb == "GET" then
      var response :- HandleGet(env, store, host, path, query);
      Ok(Reply(store, response))
    else if verb == "POST" then HandlePost(env, store, host, path, body)
    else if verb == "PATCH" then HandlePatch(env, store, path, body)
    else if verb == "DELETE" then HandleDelete(env, store, path)
    else Ok(Reply(store, Fail(405, "Method " + verb + " not allowed")))
  }

  const InternalError := "Internal server error"

  /** `handleRequest(method, url, body)` with the URL already split into
      its path and query parameters. */
  function HandleRequest(env: Env, store: Store, host: Host, verb: string, path: string,
                         query: map<string, string>, body: Option<Json>): (r: Reply)
    ensures verb != "GET" && verb != "POST" && verb != "PATCH" && verb != "DELETE" ==>
      r == Reply(store, Fail(405, "Method " + verb + " not allowed"))
    ensures Dispatch(env, store, host, verb, path, query, body).Err? ==> r == Reply(store, Fail(500, InternalError))
    ensures !r.response.ok ==> r.store == store
    ensures verb == "GET" ==> r.store == store
  {
    match Dispatch(env, store, host, verb, path, query, body)
    case Ok(reply) => reply
    case Err(_) => Reply(store, Fail(500, InternalError))
  }

  /* ---------------- Route properties ---------------- */

  /** A path outside `/api/` is answered 404 "Not found" by every method
      the backend knows, and nothing is written. */
  lemma OutsideApiNotFound(env: Env, store: Store, host: Host, verb: string, path: string,
                           query: map<string, string>, body: Option<Json>)
    requires verb == "GET" || verb == "POST" || verb == "PATCH" || verb == "DELETE"
    requires !StartsWith(path, "/api/")
    ensures HandleRequest(env, store, host, verb, path, query, body) == Reply(store, Fail(404, "Not found"))
  {
    assert StartsWith(ItemPrefix, "/api/") && StartsWith(PlayerPrefix, "/api/");
    StartsWithChain(path, ItemPrefix, "/api/");
    StartsWithChain(path, PlayerPrefix, "/api/");
  }

  /** A string that starts with `p` starts with every prefix of `p`. */
  lemma StartsWithChain(s: string, p: string, q: string)
    ensures StartsWith(s, p) && StartsWith(p, q) ==> StartsWith(s, q)
  {
    if StartsWith(s, p) && StartsWith(p, q) {
      assert s[..|q|] == p[..|q|];
    }
  }

  /** GET `/api/items` without a usable `playerId` answers `[]`. */
  lemma ItemsWithoutPlayerIdEmpty(env: Env, store: Store, host: Host, query: map<string, string>)
    requires "playerId" !in query || AllSpace(query["playerId"])
    ensures HandleRequest(env, store, host, "GET", "/api/items", query, None) == Reply(store, CreateResponse(200, JArr([])))
  {
    if "playerId" in query { TrimEmptyIffAllSpace(query["playerId"]); }
  }

  /** GET `/api/items/{id}` for an id no stored item has answers 404. */
  lemma GetAbsentItemNotFound(env: Env, store: Store, host: Host, id: string, query: map<string, string>, body: Option<Json>)
    requires id != "" && DotMatches(id)
    requires Lookup(env, store, ItemsKey, JStr(id)) == Ok(None)
    ensures HandleRequest(env, store, host, "GET", ItemPrefix + id, query, body) == Reply(store, Fail(404, "Item not found"))
  {
    CaptureAfterOf(ItemPrefix, id);
    assert ItemPrefix + id != "/api/players" && ItemPrefix + id != "/api/items" by {
      assert |ItemPrefix + id| > |"/api/items"|;
      assert (ItemPrefix + id)[1] != "/api/players"[1] || (ItemPrefix + id)[5] != "/api/players"[5];
    }
  }

  /** GET `/api/player/{id}` for a stored player fails with 500 whenever
      the experience call throws, as it always does for the undefined
      `calculatePlayerExperience`. */
  lemma PlayerRouteNeedsExperience(env: Env, store: Store, host: Host, id: string, query: map<string, string>, body: Option<Json>)
    requires id != "" && DotMatches(id)
    requires forall items :: host.experience(items).None?
    requires GetPlayerById(env, store, JStr(id)).Ok? && GetPlayerById(env, store, JStr(id)).value.Some?
    ensures HandleRequest(env, store, host, "GET", PlayerPrefix + id, query, body) == Reply(store, Fail(500, InternalError))
  {
    var path := PlayerPrefix + id;
    CaptureAfterOf(PlayerPrefix, id);
    assert CaptureAfter(path, ItemPrefix).None? by {
      assert path[5] == 'p' && ItemPrefix[5] == 'i';
    }
    assert path != "/api/players" && path != "/api/items" by {
      assert |path| > |"/api/players"| && path[5] == 'p';
    }
  }

  /** Every PATCH `/api/items` the backend accepts carries a valid item id
      and only fields that pass the checks, and a rejected one is rejected
      before storage is read: the same body is rejected with the same
      answer whatever the storage holds. */
  lemma PatchChecksBeforeStorage(env: Env, s1: Store, s2: Store, body: Option<Json>)
    requires PatchItems(env, s1, body).Ok? && PatchItems(env, s1, body).value.response.status == 400
    ensures PatchItems(env, s2, body) == Ok(Reply(s2, PatchItems(env, s1, body).value.response))
  {
    var itemId := if body.value.JObj? then Field(body.value.fields, "itemId") else None;
    var updates := if body.value.JObj? then body.value.fields - {"itemId"} else map[];
    if IsId(itemId) {
      var fieldError := PatchFieldError(updates);
      assert fieldError.Ok?;
      if fieldError.value.None? {
        assert false;
      }
    }
  }

  /** PATCH `/api/items` with a run count `n` sets the item's runs to
      exactly `n`, by adding the difference when `n` is larger than the
      current count and by overwriting otherwise, and leaves every field
      but the runs and the achievement text as it was: a name or rarity in
      the same body is ignored. */
  lemma PatchRunsSplit(env: Env, store: Store, m: Obj, n: real)
    requires IsId(Field(m, "itemId"))
    requires "numberOfRuns" in m && m["numberOfRuns"] == JNum(n)
    requires PatchFieldError(m - {"itemId"}) == Ok(None)
    requires GetItemById(env, store, m["itemId"]).Ok? && GetItemById(env, store, m["itemId"]).value.Some?
    ensures var id := m["itemId"];
      var current := GetItemById(env, store, id).value.value;
      var r := PatchItems(env, store, Some(JObj(m)));
      (n > RunsOf(current) ==> r == (var u :- AddRunsToItem(env, store, id, n - RunsOf(current)); Ok(Respond(store, u, "Item not found."))))
      && (n <= RunsOf(current) ==> r == (var u :- UpdateTotalRuns(env, store, id, n); Ok(Respond(store, u, "Item not found."))))
      && (r.Ok? ==> (r.value.response.status == 200 && r.value.response.body.JObj?
          && var next := r.value.response.body.fields;
             "numberOfRuns" in next && next["numberOfRuns"] == JNum(n)
             && forall k :: k in current && k != "numberOfRuns" && k != "achievementText" ==> k in next && next[k] == current[k]))
  {
    var id := m["itemId"];
    var updates := m - {"itemId"};
    assert Field(m, "itemId") == Some(id);
    assert Field(updates, "numberOfRuns") == Some(JNum(n));
    assert PatchItems(env, store, Some(JObj(m))) == PatchItemWrite(env, store, id, updates);
    RunsWriteSplit(env, store, id, updates, n);
  }

  /** The write step of `PatchRunsSplit`, once the checks have passed. */
  lemma RunsWriteSplit(env: Env, store: Store, id: Json, updates: Obj, n: real)
    requires "numberOfRuns" in updates && updates["numberOfRuns"] == JNum(n)
    requires PatchRunsOk(Field(updates, "numberOfRuns"))
    requires GetItemById(env, store, id).Ok? && GetItemById(env, store, id).value.Some?
    ensures var current := GetItemById(env, store, id).value.value;
      var r := PatchItemWrite(env, store, id, updates);
      (n > RunsOf(current) ==> r == (var u :- AddRunsToItem(env, store, id, n - RunsOf(current)); Ok(Respond(store, u, "Item not found."))))
      && (n <= RunsOf(current) ==> r == (var u :- UpdateTotalRuns(env, store, id, n); Ok(Respond(store, u, "Item not found."))))
      && (r.Ok? ==> (r.value.response.status == 200 && r.value.response.body.JObj?
          && var next := r.value.response.body.fields;
             "numberOfRuns" in next && next["numberOfRuns"] == JNum(n)
             && forall k :: k in current && k != "numberOfRuns" && k != "achievementText" ==> k in next && next[k] == current[k]))
  {
    assert Field(updates, "numberOfRuns") == Some(JNum(n));
  }

  /** PATCH `/api/items/found` changes only the item's `found` flag: the
      player records read exactly as before. */
  lemma FoundRouteLeavesPlayers(env: Env, store: Store, body: Option<Json>)
    requires PatchFound(env, store, body).Ok?
    ensures var r := PatchFound(env, store, body).value;
      Get(env, r.store, PlayersKey) == Get(env, store, PlayersKey)
      && (r.response.ok ==> (var id := Arg(body, "itemId").value;
          Present(env, store, ItemsKey, id) && r.response.body.JObj?
          && SetsOnly(Before(env, store, ItemsKey, id), r.response.body.fields, "found", Arg(body, "found").value)))
  {
    var r := PatchFound(env, store, body).value;
    if r.response.ok {
      var id := Arg(body, "itemId").value;
      var found := Arg(body, "found").value;
      var u := MarkAsFound(env, store, id, found).value;
      if u.record.Some? {
        var prev := Before(env, store, ItemsKey, id);
        var xs := CollectionList(env, store, ItemsKey).value;
        var i := Lookup(env, store, ItemsKey, id).value.value.0;
        assert u.store == Save(env, store, ItemsKey, JArr(xs[i := JObj(prev[ "found" := found])])).value;
        SaveLeavesOtherKeys(env, store, ItemsKey, PlayersKey, JArr(xs[i := JObj(prev["found" := found])]));
      }
    }
  }

  /** DELETE `/api/items/{id}`: 400 for a non-UUID, 404 when no item has
      the id, otherwise 200 and the item is gone from the list. */
  lemma DeleteItemRoute(env: Env, store: Store, id: string)
    requires id != "" && DotMatches(id)
    ensures !IsValidUUID(id) ==> HandleDelete(env, store, ItemPrefix + id) == Ok(Reply(store, Fail(400, "Invalid item ID format")))
    ensures IsValidUUID(id) && Lookup(env, store, ItemsKey, JStr(id)) == Ok(None) ==>
      HandleDelete(env, store, ItemPrefix + id) == Ok(Reply(store, Fail(404, "Item not found")))
    ensures IsValidUUID(id) && Present(env, store, ItemsKey, JStr(id)) && DeleteItem(env, store, JStr(id)).Ok? ==>
      HandleDelete(env, store, ItemPrefix + id)
        == Ok(Reply(DeleteItem(env, store, JStr(id)).value, CreateResponse(200, JObj(map["message" := JStr("Item deleted successfully")]))))
  {
    CaptureAfterOf(ItemPrefix, id);
  }

  /** DELETE `/api/player/{id}` checks no id format and removes only the
      player: the item collection reads exactly as before. */
  lemma DeletePlayerRouteNoCascade(env: Env, store: Store, id: string)
    requires id != "" && DotMatches(id)
    requires HandleDelete(env, store, PlayerPrefix + id).Ok?
    ensures var r := HandleDelete(env, store, PlayerPrefix + id).value;
      Get(env, r.store, ItemsKey) == Get(env, store, ItemsKey)
      && (r.response.ok <==> Present(env, store, PlayersKey, JStr(id)))
  {
    var path := PlayerPrefix + id;
    CaptureAfterOf(PlayerPrefix, id);
    assert CaptureAfter(path, ItemPrefix).None? by {
      assert path[5] == 'p' && ItemPrefix[5] == 'i';
    }
    var r := HandleDelete(env, store, path).value;
    if r.response.ok {
      DeletePlayerKeepsOtherKeys(env, store, JStr(id), ItemsKey, JNull);
    }
  }
}
