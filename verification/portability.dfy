/** `DataPortabilityService` (`src/services/DataPortabilityService.ts`):
    backups of the two collections. An export wraps them with the app name
    and version; an import checks the backup's shape, then either replaces
    the collections or merges the backup's records whose ids are new. The
    export date is a parameter. */
module Portability {
  import opened Js
  import opened Text
  import opened Storage
  import opened Records

  const AppName := "DropQuest"
  const Version := "1.0.0"

  /* ---------------- Export ---------------- */

  /** `exportData()`: a missing (or falsy) collection exports as `[]`. */
  function ExportData(env: Env, store: Store, exportDate: string): (r: Json)
    ensures r.JObj? && r.fields.Keys == {"players", "items", "version", "exportDate", "appName"}
    ensures r.fields["appName"] == JStr(AppName) && r.fields["version"] == JStr(Version)
    ensures r.fields["players"] == Collection(env, store, "players")
    ensures r.fields["items"] == Collection(env, store, "items")
    ensures !Truthy(Get(env, store, "players")) ==> r.fields["players"] == JArr([])
  {
    JObj(map["players" := Collection(env, store, "players"), "items" := Collection(env, store, "items"),
             "version" := JStr(Version), "exportDate" := JStr(exportDate), "appName" := JStr(AppName)])
  }

  /* ---------------- Validation ---------------- */

  /** A property that is a non-empty string (`!x || typeof x !== 'string'`
      fails for everything else). */
  predicate NonEmptyString(o: Option<Json>) {
    o.Some? && o.value.JStr? && o.value.s != ""
  }

  /** `v.key` for a value known not to be `null`. */
  function Member(v: Json, key: string): Option<Json> {
    if v.JObj? then Field(v.fields, key) else None
  }

  /** A backup record as the checks accept it, stated declaratively. */
  predicate ValidPlayer(p: Json) {
    NonEmptyString(Member(p, "id")) && NonEmptyString(Member(p, "createdAt"))
  }

  predicate ValidItem(i: Json) {
    NonEmptyString(Member(i, "id")) && NonEmptyString(Member(i, "name"))
    && (Member(i, "numberOfRuns").None? || Member(i, "numberOfRuns").value.JNum?)
  }

  /** The whole backup as the checks accept it. */
  predicate ValidBackup(data: Json) {
    data.JObj? && Field(data.fields, "appName") == Some(JStr(AppName))
    && TruthyOpt(Field(data.fields, "version"))
    && "players" in data.fields && data.fields["players"].JArr?
    && "items" in data.fields && data.fields["items"].JArr?
    && (forall p :: p in data.fields["players"].elems ==> ValidPlayer(p))
    && (forall i :: i in data.fields["items"].elems ==> ValidItem(i))
  }

  /** The per-player checks: id, then creation date; reading either from a
      `null` player throws. */
  function PlayerError(p: Json): (r: Result<Option<string>>)
    ensures r.Err? <==> p.JNull?
    ensures r == Ok(None) <==> ValidPlayer(p)
  {
    if p.JNull? then Err(TypeError)
    else if !NonEmptyString(Member(p, "id")) then Ok(Some("Invalid player data - missing or invalid ID"))
    else if !NonEmptyString(Member(p, "createdAt")) then Ok(Some("Invalid player data - missing or invalid creation date"))
    else Ok(None)
  }

  /** The per-item checks: id, then name, then the run count if present. */
  function ItemError(i: Json): (r: Result<Option<string>>)
    ensures r.Err? <==> i.JNull?
    ensures r == Ok(None) <==> ValidItem(i)
  {
    if i.JNull? then Err(TypeError)
    else if !NonEmptyString(Member(i, "id")) then Ok(Some("Invalid item data - missing or invalid ID"))
    else if !NonEmptyString(Member(i, "name")) then Ok(Some("Invalid item data - missing or invalid name"))
    else if Member(i, "numberOfRuns").Some? && !Member(i, "numberOfRuns").value.JNum? then
      Ok(Some("Invalid item data - numberOfRuns must be a number"))
    else Ok(None)
  }

  /** The `for ... of` loop: the first record's failure (or exception)
      wins. */
  function FirstError(xs: seq<Json>, check: Json -> Result<Option<string>>): (r: Result<Option<string>>)
    ensures r == Ok(None) <==> forall j :: 0 <= j < |xs| ==> check(xs[j]) == Ok(None)
    ensures r != Ok(None) ==> exists j :: (0 <= j < |xs| && r == check(xs[j])
      && forall k :: 0 <= k < j ==> check(xs[k]) == Ok(None))
  {
    if |xs| == 0 then Ok(None)
    else if check(xs[0]) != Ok(None) then check(xs[0])
    else
      var rest := FirstError(xs[1..], check);
      assert forall j :: 1 <= j < |xs| ==> xs[1..][j - 1] == xs[j];
      assert rest != Ok(None) ==> exists j :: (0 <= j < |xs| && rest == check(xs[j])
        && forall k :: 0 <= k < j ==> check(xs[k]) == Ok(None)) by {
        if rest != Ok(None) {
          var j :| 0 <= j < |xs[1..]| && rest == check(xs[1..][j]) && forall k :: 0 <= k < j ==> check(xs[1..][k]) == Ok(None);
          assert rest == check(xs[j + 1]) && forall k :: 0 <= k < j + 1 ==> check(xs[k]) == Ok(None);
        }
      }
      rest
  }

  /** The backup's header checks pass: an object naming the application and
      carrying a version. */
  predicate ValidHeader(data: Json) {
    data.JObj? && Field(data.fields, "appName") == Some(JStr(AppName))
    && TruthyOpt(Field(data.fields, "version"))
  }

  /** Both record lists are arrays. */
  predicate HasLists(data: Json) {
    data.JObj? && "players" in data.fields && data.fields["players"].JArr?
    && "items" in data.fields && data.fields["items"].JArr?
  }

  /** `validateImportData(data)`: `None` for a valid backup, else the first
      failure's message; a `null` record throws. */
  function ValidateImportData(data: Json): (r: Result<Option<string>>)
    ensures r == Ok(None) <==> ValidBackup(data)
    ensures !Truthy(data) || !(data.JObj? || data.JArr?) ==> r == Ok(Some("Invalid file format - not a valid JSON object"))
    ensures data.JObj? && Field(data.fields, "appName") != Some(JStr(AppName)) ==>
      r == Ok(Some("This file is not a DropQuest backup file"))
    ensures data.JArr? ==> r == Ok(Some("This file is not a DropQuest backup file"))
    ensures (data.JObj? && Field(data.fields, "appName") == Some(JStr(AppName))
      && !TruthyOpt(Field(data.fields, "version"))) ==>
      r == Ok(Some("Backup file is missing version information"))
    ensures (ValidHeader(data) && !("players" in data.fields && data.fields["players"].JArr?)) ==>
      r == Ok(Some("Invalid backup format - players data is corrupted"))
    ensures (ValidHeader(data) && "players" in data.fields && data.fields["players"].JArr?
      && !("items" in data.fields && data.fields["items"].JArr?)) ==>
      r == Ok(Some("Invalid backup format - items data is corrupted"))
    ensures (ValidHeader(data) && HasLists(data)
      && FirstError(data.fields["players"].elems, PlayerError) != Ok(None)) ==>
      r == FirstError(data.fields["players"].elems, PlayerError)
    ensures (ValidHeader(data) && HasLists(data)
      && FirstError(data.fields["players"].elems, PlayerError) == Ok(None)) ==>
      r == FirstError(data.fields["items"].elems, ItemError)
    ensures r.Err? ==> r.exc == TypeError
  {
    if !Truthy(data) || !(data.JObj? || data.JArr?) then Ok(Some("Invalid file format - not a valid JSON object"))
    else if Member(data, "appName") != Some(JStr(AppName)) then Ok(Some("This file is not a DropQuest backup file"))
    else if !TruthyOpt(Member(data, "version")) then Ok(Some("Backup file is missing version information"))
    else if !("players" in data.fields && data.fields["players"].JArr?) then
      Ok(Some("Invalid backup format - players data is corrupted"))
    else if !("items" in data.fields && data.fields["items"].JArr?) then
      Ok(Some("Invalid backup format - items data is corrupted"))
    else RecordsError(data.fields["players"].elems, data.fields["items"].elems)
  }

  /** The two record loops of `validateImportData`: every player, then every
      item. */
  function RecordsError(players: seq<Json>, items: seq<Json>): (r: Result<Option<string>>)
    ensures r == Ok(None) <==> (forall p :: p in players ==> ValidPlayer(p)) && (forall i :: i in items ==> ValidItem(i))
    ensures FirstError(players, PlayerError) != Ok(None) ==> r == FirstError(players, PlayerError)
    ensures FirstError(players, PlayerError) == Ok(None) ==> r == FirstError(items, ItemError)
    ensures r.Err? ==> r.exc == TypeError
  {
    var playerError :- FirstError(players, PlayerError);
    if playerError.Some? then Ok(playerError)
    else
      var r := FirstError(items, ItemError);
      assert forall p :: p in players ==> ValidPlayer(p) by {
        forall p | p in players ensures ValidPlayer(p) {
          var j :| 0 <= j < |players| && players[j] == p;
          assert PlayerError(players[j]) == Ok(None);
        }
      }
      assert r == Ok(None) <==> forall i :: i in items ==> ValidItem(i) by {
        if r == Ok(None) {
          forall i | i in items ensures ValidItem(i) {
            var j :| 0 <= j < |items| && items[j] == i;
            assert ItemError(items[j]) == Ok(None);
          }
        }
      }
      r
  }

  /* ---------------- Import ---------------- */

  /** `ImportResult`. */
  datatype ImportResult = Imported(playersImported: int, itemsImported: int) | ImportFailed(error: string)

  /** The message of an exception caught by the import. */
  function ImportError(e: Exception): string {
    "Failed to import data: " + e.Message()
  }

  /** `existingIds.has(record.id)`: some existing record carries the same
      id. Ids are compared with `SameValueZero`, which agrees with `===` on
      JSON data. */
  predicate IdTaken(existing: seq<Json>, record: Json) {
    record.JObj? && "id" in record.fields && exists e :: e in existing && HasId(e, record.fields["id"])
  }

  /** The existing collection, then the incoming records whose ids are new.
      Building the id set maps over the stored collection, which throws
      when it is not an array or holds a `null`. */
  function Merged(env: Env, store: Store, key: string, incoming: seq<Json>): (r: Result<seq<Json>>)
    ensures r.Ok? <==> CollectionList(env, store, key).Ok? && !HasNull(CollectionList(env, store, key).value)
    ensures r.Err? ==> r.exc == TypeError
    ensures r.Ok? ==> (var existing := CollectionList(env, store, key).value;
      r.value == existing + Kept(incoming, x => !IdTaken(existing, x)))
  {
    var existing :- CollectionList(env, store, key);
    if HasNull(existing) then Err(TypeError)
    else Ok(existing + Kept(incoming, x => !IdTaken(existing, x)))
  }

  /** The lists an import writes: the backup's own in replace mode, the
      merged ones otherwise. */
  function FinalLists(env: Env, store: Store, players: seq<Json>, items: seq<Json>, replace: bool): (r: Result<(seq<Json>, seq<Json>)>)
    ensures replace ==> r == Ok((players, items))
    ensures !replace && r.Ok? ==> (Merged(env, store, "players", players) == Ok(r.value.0)
      && Merged(env, store, "items", items) == Ok(r.value.1))
    ensures !replace && r.Err? ==> Merged(env, store, "players", players).Err? || Merged(env, store, "items", items).Err?
  {
    if replace then Ok((players, items))
    else
      match (Merged(env, store, "players", players), Merged(env, store, "items", items))
      case (Ok(ps), Ok(its)) => Ok((ps, its))
      case (Err(e), _) => Err(e)
      case (_, Err(e)) => Err(e)
  }

  /** The players are saved first, then the items; a failure of the second
      save leaves the first in place. */
  datatype Written = Written(store: Store, failure: Option<Exception>)

  function SaveBoth(env: Env, store: Store, players: seq<Json>, items: seq<Json>): (w: Written)
    ensures Save(env, store, "players", JArr(players)).Err? ==>
      w == Written(store, Some(Save(env, store, "players", JArr(players)).exc))
    ensures Save(env, store, "players", JArr(players)).Ok? ==>
      var s1 := Save(env, store, "players", JArr(players)).value;
      var s2 := Save(env, s1, "items", JArr(items));
      (s2.Err? ==> w == Written(s1, Some(s2.exc))) && (s2.Ok? ==> w == Written(s2.value, None))
  {
    match Save(env, store, "players", JArr(players))
    case Err(e) => Written(store, Some(e))
    case Ok(s1) =>
      match Save(env, s1, "items", JArr(items))
      case Err(e) => Written(s1, Some(e))
      case Ok(s2) => Written(s2, None)
  }

  /** `get(key)?.length || 0` on the re-read collection. */
  function ReadBackLength(env: Env, store: Store, key: string): int {
    match Get(env, store, key)
    case JArr(xs) => |xs|
    case JStr(s) => Utf16Length(s)
    case _ => 0
  }

  /** The `try` block of `importData` for a backup that passed the
      checks: anything thrown while building the lists or saving them
      becomes "Failed to import data: …", with the players' save kept when
      the items' save fails. The merge-mode counts are taken after the
      save, from the re-read collections. */
  function ImportLists(env: Env, store: Store, players: seq<Json>, items: seq<Json>, replace: bool): (r: (Store, ImportResult))
    ensures FinalLists(env, store, players, items, replace).Err? ==>
      r == (store, ImportFailed(ImportError(FinalLists(env, store, players, items, replace).exc)))
    ensures FinalLists(env, store, players, items, replace).Ok? ==>
      var (fp, fi) := FinalLists(env, store, players, items, replace).value;
      var written := SaveBoth(env, store, fp, fi);
      (written.failure.Some? ==> r == (written.store, ImportFailed(ImportError(written.failure.value))))
      && (written.failure.None? ==> r.0 == written.store && r.1.Imported?)
    ensures r.1.Imported? ==> FinalLists(env, store, players, items, replace).Ok?
    ensures r.1.Imported? && replace ==> r.1 == Imported(|players|, |items|)
  {
    match FinalLists(env, store, players, items, replace)
    case Err(e) => (store, ImportFailed(ImportError(e)))
    case Ok((finalPlayers, finalItems)) =>
      var written := SaveBoth(env, store, finalPlayers, finalItems);
      if written.failure.Some? then (written.store, ImportFailed(ImportError(written.failure.value)))
      else if replace then (written.store, Imported(|players|, |items|))
      else (written.store, Imported(|finalPlayers| - ReadBackLength(env, written.store, "players"),
                                    |finalItems| - ReadBackLength(env, written.store, "items")))
  }

  /** `importData(data, { replace })` as written. A failing check answers
      with its message and writes nothing; a `null` record makes the check
      itself throw, which escapes the import; a backup that passes goes
      through the `try` block. */
  function ImportData(env: Env, store: Store, data: Json, replace: bool): (r: Result<(Store, ImportResult)>)
    ensures r.Err? ==> ValidateImportData(data).Err?
    ensures ValidateImportData(data).Ok? && ValidateImportData(data).value.Some? ==>
      r == Ok((store, ImportFailed(ValidateImportData(data).value.value)))
    ensures ValidateImportData(data) == Ok(None) ==>
      r == Ok(ImportLists(env, store, data.fields["players"].elems, data.fields["items"].elems, replace))
    ensures r.Ok? && r.value.1.Imported? ==> ValidBackup(data)
    ensures r.Ok? && r.value.1.Imported? && replace ==>
      r.value.1 == Imported(|data.fields["players"].elems|, |data.fields["items"].elems|)
  {
    var validation :- ValidateImportData(data);
    if validation.Some? then Ok((store, ImportFailed(validation.value)))
    else Ok(ImportLists(env, store, data.fields["players"].elems, data.fields["items"].elems, replace))
  }

  /** After the `try` block saved both lists, each collection reads as
      what the text written for it parses as. */
  lemma ListsReadBack(env: Env, store: Store, players: seq<Json>, items: seq<Json>, replace: bool)
    requires ImportLists(env, store, players, items, replace).1.Imported?
    ensures FinalLists(env, store, players, items, replace).Ok?
    ensures var (fp, fi) := FinalLists(env, store, players, items, replace).value;
      var after := ImportLists(env, store, players, items, replace).0;
      Get(env, after, "players") == ReadBack(env.codec, JArr(fp))
      && Get(env, after, "items") == ReadBack(env.codec, JArr(fi))
  {
    var (fp, fi) := FinalLists(env, store, players, items, replace).value;
    assert SaveBoth(env, store, fp, fi).failure.None?;
    var s1 := Save(env, store, "players", JArr(fp)).value;
    GetAfterSave(env, s1, "items", JArr(fi));
    SaveLeavesOtherKeys(env, s1, "items", "players", JArr(fi));
    GetAfterSave(env, store, "players", JArr(fp));
  }

  /** Both lists an import of a valid backup writes read back as
      themselves; nothing is asked when the backup is invalid or building
      the lists throws. */
  predicate ListsRoundTrip(env: Env, store: Store, data: Json, replace: bool) {
    ValidBackup(data) ==>
      var lists := FinalLists(env, store, data.fields["players"].elems, data.fields["items"].elems, replace);
      lists.Ok? ==> RoundTrips(env.codec, JArr(lists.value.0)) && RoundTrips(env.codec, JArr(lists.value.1))
  }

  /** After a successful import each collection reads as what the text
      written for it parses as, and so, when the lists round-trip, as
      exactly the list written: the backup's in replace mode, and in merge mode the
      existing records in order followed by the backup's records whose ids
      were not taken, so no existing record is overwritten. */
  lemma ImportedCollections(env: Env, store: Store, data: Json, replace: bool)
    requires ImportData(env, store, data, replace).Ok?
    requires ImportData(env, store, data, replace).value.1.Imported?
    ensures ValidBackup(data)
    ensures var lists := FinalLists(env, store, data.fields["players"].elems, data.fields["items"].elems, replace);
      var after := ImportData(env, store, data, replace).value.0;
      lists.Ok? && Get(env, after, "players") == ReadBack(env.codec, JArr(lists.value.0))
      && Get(env, after, "items") == ReadBack(env.codec, JArr(lists.value.1))
    ensures ListsRoundTrip(env, store, data, replace) ==>
      var after := ImportData(env, store, data, replace).value.0;
      var players := data.fields["players"].elems;
      var items := data.fields["items"].elems;
      (replace ==> CollectionList(env, after, "players") == Ok(players) && CollectionList(env, after, "items") == Ok(items))
      && (!replace ==> (CollectionList(env, after, "players") == Merged(env, store, "players", players)
                     && CollectionList(env, after, "items") == Merged(env, store, "items", items)))
  {
    assert ValidateImportData(data) == Ok(None);
    var players := data.fields["players"].elems;
    var items := data.fields["items"].elems;
    assert ImportData(env, store, data, replace) == Ok(ImportLists(env, store, players, items, replace));
    ListsReadBack(env, store, players, items, replace);
  }

  /** The merge-mode counts as written are always 0: the collections are
      re-read after they were saved, so the subtraction cancels. */
  lemma MergeCountsAlwaysZero(env: Env, store: Store, data: Json)
    requires ImportData(env, store, data, false).Ok?
    requires ImportData(env, store, data, false).value.1.Imported?
    ensures ListsRoundTrip(env, store, data, false) ==> ImportData(env, store, data, false).value.1 == Imported(0, 0)
  {
    ImportedCollections(env, store, data, false);
  }

  /** A concrete case: a one-player, one-item backup merged into empty
      storage adds both records yet reports 0 and 0, when the one-record
      lists round-trip. */
  lemma MergeCountsZeroExample(env: Env, store: Store, player: Json, item: Json)
    requires Get(env, store, "players") == JNull && Get(env, store, "items") == JNull
    requires ValidPlayer(player) && ValidItem(item)
    requires var data := JObj(map["appName" := JStr(AppName), "version" := JStr(Version),
                                  "players" := JArr([player]), "items" := JArr([item])]);
      ImportData(env, store, data, false).Ok? && ImportData(env, store, data, false).value.1.Imported?
    ensures RoundTrips(env.codec, JArr([player])) && RoundTrips(env.codec, JArr([item])) ==>
      var data := JObj(map["appName" := JStr(AppName), "version" := JStr(Version),
                           "players" := JArr([player]), "items" := JArr([item])]);
      CollectionList(env, ImportData(env, store, data, false).value.0, "players") == Ok([player])
      && ImportData(env, store, data, false).value.1 == Imported(0, 0)
  {
    var data := JObj(map["appName" := JStr(AppName), "version" := JStr(Version),
                         "players" := JArr([player]), "items" := JArr([item])]);
    if RoundTrips(env.codec, JArr([player])) && RoundTrips(env.codec, JArr([item])) {
      assert data.fields["players"].elems == [player] && data.fields["items"].elems == [item];
      assert CollectionList(env, store, "players") == Ok([]);
      assert CollectionList(env, store, "items") == Ok([]);
      assert Kept([player], x => !IdTaken([], x)) == [player];
      assert Kept([item], x => !IdTaken([], x)) == [item];
      assert FinalLists(env, store, [player], [item], false) == Ok(([player], [item]));
      assert ListsRoundTrip(env, store, data, false);
      ImportedCollections(env, store, data, false);
      MergeCountsAlwaysZero(env, store, data);
    }
  }

  /** The import with the counts the result type promises: in merge mode,
      the number of records actually added. */
  function ImportDataCorrected(env: Env, store: Store, data: Json, replace: bool): (r: Result<(Store, ImportResult)>)
    ensures ImportData(env, store, data, replace).Ok? <==> r.Ok?
    ensures r.Ok? ==> r.value.0 == ImportData(env, store, data, replace).value.0
    ensures r.Ok? && r.value.1.ImportFailed? ==> r.value.1 == ImportData(env, store, data, replace).value.1
    ensures r.Ok? && r.value.1.Imported? && replace ==> r.value.1 == ImportData(env, store, data, replace).value.1
  {
    var validation :- ValidateImportData(data);
    if validation.Some? then Ok((store, ImportFailed(validation.value)))
    else
      var players := data.fields["players"].elems;
      var items := data.fields["items"].elems;
      match FinalLists(env, store, players, items, replace)
      case Err(e) => Ok((store, ImportFailed(ImportError(e))))
      case Ok((finalPlayers, finalItems)) =>
        var written := SaveBoth(env, store, finalPlayers, finalItems);
        if written.failure.Some? then Ok((written.store, ImportFailed(ImportError(written.failure.value))))
        else if replace then Ok((written.store, Imported(|players|, |items|)))
        else
          var existingPlayers := CollectionList(env, store, "players").value;
          var existingItems := CollectionList(env, store, "items").value;
          Ok((written.store, Imported(|Kept(players, x => !IdTaken(existingPlayers, x))|,
                                      |Kept(items, x => !IdTaken(existingItems, x))|)))
  }

  /** The corrected merge counts are the growth of each collection, and a
      backup whose records all have new ids counts every record. */
  lemma CorrectedMergeCounts(env: Env, store: Store, data: Json)
    requires ImportDataCorrected(env, store, data, false).Ok?
    requires ImportDataCorrected(env, store, data, false).value.1.Imported?
    ensures ListsRoundTrip(env, store, data, false) ==>
      var after := ImportDataCorrected(env, store, data, false).value.0;
      var result := ImportDataCorrected(env, store, data, false).value.1;
      CollectionList(env, store, "players").Ok? && CollectionList(env, after, "players").Ok?
      && result.playersImported == |CollectionList(env, after, "players").value| - |CollectionList(env, store, "players").value|
      && result.itemsImported == |CollectionList(env, after, "items").value| - |CollectionList(env, store, "items").value|
      && ((forall p :: p in data.fields["players"].elems ==> !IdTaken(CollectionList(env, store, "players").value, p))
          ==> result.playersImported == |data.fields["players"].elems|)
  {
    var players := data.fields["players"].elems;
    assert ValidateImportData(data) == Ok(None);
    assert ImportData(env, store, data, false).Ok? && ImportData(env, store, data, false).value.1.Imported?;
    ImportedCollections(env, store, data, false);
    var existing := CollectionList(env, store, "players").value;
    if forall p :: p in players ==> !IdTaken(existing, p) {
      KeptAll(players, x => !IdTaken(existing, x));
    }
  }

  /** Exporting and importing the export in replace mode restores both
      collections as they were, when each exported collection round-trips
      through the codec. */
  lemma ExportReplaceRoundTrip(env: Env, source: Store, target: Store, exportDate: string)
    requires ImportData(env, target, ExportData(env, source, exportDate), true).Ok?
    requires ImportData(env, target, ExportData(env, source, exportDate), true).value.1.Imported?
    ensures (RoundTrips(env.codec, Collection(env, source, "players"))
      && RoundTrips(env.codec, Collection(env, source, "items"))) ==>
      var after := ImportData(env, target, ExportData(env, source, exportDate), true).value.0;
      Collection(env, after, "players") == Collection(env, source, "players")
      && Collection(env, after, "items") == Collection(env, source, "items")
  {
    ImportedCollections(env, target, ExportData(env, source, exportDate), true);
  }

  /** `clearAllData()`: the namespace reads as empty, and storage outside
      it is untouched. */
  function ClearAllData(env: Env, store: Store): (r: Store)
    ensures GetAll(env, r) == map[]
    ensures forall k :: k in store && !Owned(env, k) ==> k in r && r[k] == store[k]
  {
    ClearEmptiesNamespace(env, store, "");
    Clear(env, store)
  }
}
