# DropQuest core in Dafny

DropQuest is a browser app for tracking item drops in grinding games. A
*player* hunts *items*. Each item counts its runs and has a rarity ("1 in
N"), and an achievement text grows with the ratio of runs to rarity.

There is no server. All data lives in the browser's `localStorage` under a
per-origin key prefix. A local backend service answers REST-style requests
(`GET /api/items`, `PATCH /api/items`, …) on top of two repositories, one
for items and one for players. Around this core sit:

- field validators and an input sanitiser;
- a backup export and import;
- a few statistics helpers used by the pages.

This project models that core as pure functions over immutable values and
proves what the code promises. A separate section below lists the places
where the behaviour as written differs from the evident intent.

## How the model is built

- **JavaScript values** (`js.dfy`). A `Json` datatype covers `null`,
  booleans, numbers (exact reals), strings, arrays and objects. Records are
  objects, `map<string, Json>`, because the services spread arbitrary
  patches into them (`{...item, ...updates}`). The module also defines JS
  truthiness, `===`, property reads that throw on `null`, and a
  `Result`/`Exception` pair for thrown errors.
- **Text and numbers** (`text.dfy`, `numbers.dfy`):
  - `trim` with the JS white-space set, and UTF-16 and UTF-8 lengths;
  - decimal and base-36 digits;
  - `parseFloat`, `parseInt` and `Number(…)` with NaN and the infinities (`Num`);
  - `Math.round`;
  - overflow of very long digit strings to an infinity.
- **Storage** (`storage.dfy`):
  - `localStorage` is a `map<string, string>`.
  - The JSON text codec is an abstract pair of functions. Numbers are
    exact reals, and `JSON.stringify`/`JSON.parse` give back only finite
    doubles exactly, so no codec round-trips every value. The predicate
    `RoundTrips(c, v)` says that the text written for the one value `v`
    parses back as `v`. `ReadBack(c, v)` is what `get` returns for that
    text in every case.
  - A read after a write is stated twice: always as `ReadBack` of the
    value written, and as the value itself when that value round-trips.
  - Whether the host accepts a write is a parameter.
  - The 4 MiB quota is measured on the UTF-8 length of the encoded
    namespace.
  - The prefix hash is modelled exactly, with 32-bit wrap-around and base 36.
- **Repositories** (`records.dfy`, `items.dfy`, `players.dfy`). Each
  operation reads the whole list, finds the first record with `id === x`,
  replaces or filters, and writes the list back. An exception (reading a
  property of a `null` record, a full store) is an `Err`.
- **Router** (`router.dfy`). One function maps
  `(storage, method, path, query, body)` to `(storage', response)`, with
  the route table, the 400/404/405/500 answers and the PATCH split. The
  host supplies the fresh id (`crypto.randomUUID`), the clock text and the
  undefined `calculatePlayerExperience` (`None` = throws).
- **Backup** (`portability.dfy`): export, the first-failure validator, and
  import in replace and merge mode.
- **Validators and sanitiser** (`uuid.dfy`, `item_validation.dfy`,
  `sanitize.dfy`, `rarity_inputs.dfy`, `item_detail.dfy`).
  - Each is a first-failure-wins chain returning the source's messages.
  - `stripHtml` is modelled with its five global replacements.
  - The suspicious-content test is a parameter.
- **Statistics** (`achievement.dfy`, `stats.dfy`, `player_order.dfy`):
  - the 12-tier achievement ladder;
  - days between dates, runs per day and total runs;
  - the most-recent-first player order.
  
  Dates are integer milliseconds, or `None` for an invalid date.

The model follows the code as written; in particular:

- Deleting a player does not delete that player's items.
- `updateItem` does not recompute the achievement text.
- The found route does not recompute `foundItemsCount`.
- PATCH caps runs at 100,000.

## Model

| member | source | states |
|---|---|---|
| Uuid.ValidUUIDIffShape | src/services/validation.ts:1-5 | `isValidUUID` holds exactly for 36-character strings with `-` at positions 8, 13, 18 and 23 and a hex digit of either case everywhere else; version and variant are not checked |
| Uuid.AnchoredBothEnds | src/services/validation.ts:1-4 | the empty string is invalid, and a valid id with any character added in front or behind is invalid |
| Uuid.ValidateUUID | src/services/validation.ts:7-15 | a missing or empty id gives "<field> is required", a malformed one "Invalid <field> format", and the result is null exactly for a valid UUID |
| Uuid.ValidateUUIDDefault | src/services/validation.ts:7 | with the default field name the messages read "ID is required" and "Invalid ID format" |
| Uuid.UuidLikeOnScalars | src/services/validation.ts:3-5 | on a string the check is the UUID shape; `null`, booleans, numbers and plain objects never pass; a passing value is truthy |
| ItemValidation.ValidateItemId | src/services/itemValidation.ts:5-13 | valid exactly for a UUID string; falsy gives "Item ID is required", anything else "Invalid item ID format" |
| ItemValidation.ValidatePlayerId | src/services/itemValidation.ts:15-23 | the same check with the player messages |
| ItemValidation.ValidateItemName | src/services/itemValidation.ts:25-39 | falsy gives "Name is required", a non-string "Name must be a string", all white space "Name cannot be empty", more than 100 untrimmed UTF-16 units the length message; valid exactly otherwise |
| ItemValidation.ValidateRuns | src/services/itemValidation.ts:41-58 | valid exactly for the integers 0 to 1,000,000; `undefined` or `null` and nothing else gives "Runs is required" |
| ItemValidation.ValidateRarity | src/services/itemValidation.ts:60-77 | valid exactly for the integers 1 to 1,000,000, with the rarity messages |
| ItemValidation.ValidateDate | src/services/itemValidation.ts:79-91 | valid exactly for a non-empty string the date parser accepts; falsy gives "Date is required" |
| ItemValidation.ValidateFound | src/services/itemValidation.ts:93-101 | valid exactly for a boolean; `undefined` or `null` gives "Found is required", anything else "Found must be a boolean value" |
| ItemValidation.AstralNameTooLong | src/services/itemValidation.ts:35-37 | a name of 51 characters outside the Basic Multilingual Plane is 102 UTF-16 units and gets the length message |
| ItemValidation.ValidateCreateItemRequest | src/services/itemValidation.ts:103-112 | throws exactly on a `null` or missing body; valid exactly when name and player id both are; a bad name gives the name check's message, and with a good name the answer is the player-id check's |
| ItemValidation.ValidateUpdateNameRequest | src/services/itemValidation.ts:114-123 | throws exactly on a `null` or missing body; a bad item id gives the item-id check's message, and with a good id the answer is the name check's on name |
| ItemValidation.ValidateAddRunsRequest | src/services/itemValidation.ts:125-134 | throws exactly on a `null` or missing body; a bad item id gives the item-id check's message, and with a good id the answer is the runs check's on `runs` |
| ItemValidation.ValidateSetRarityRequest | src/services/itemValidation.ts:136-145 | throws exactly on a `null` or missing body; a bad item id gives the item-id check's message, and with a good id the answer is the rarity check's on `rarity` |
| ItemValidation.ValidateUpdateDateRequest | src/services/itemValidation.ts:147-156 | throws exactly on a `null` or missing body; a bad item id gives the item-id check's message, and with a good id the answer is the date check's on `date` |
| ItemValidation.ValidateUpdateTotalRunsRequest | src/services/itemValidation.ts:158-167 | throws exactly on a `null` or missing body; a bad item id gives the item-id check's message, and with a good id the answer is the runs check's on `totalRuns` |
| ItemValidation.ValidateMarkAsFoundRequest | src/services/itemValidation.ts:169-178 | throws exactly on a `null` or missing body; a bad item id gives the item-id check's message, and with a good id the answer is the found check's on `found` |
| ItemValidation.RunsAndRarityBounds | src/services/itemValidation.ts:41-77 | every valid rarity is a valid run count; 0 is a run count but no rarity; 1,000,000 passes both; 1,000,001, 0.5 and the string "5" fail with their messages |
| Achievement.AchievementText | src/services/ItemService.ts:8-52 | the text is null exactly when runs/rarity is below 0.1, including a NaN ratio |
| Achievement.LadderIsHighestRung | src/services/ItemService.ts:14-49 | the text is that of the highest tier whose threshold the ratio reaches |
| Achievement.OnThresholdGetsThatTier | src/services/ItemService.ts:14-49 | a ratio exactly on a threshold gets that tier, because the tests are `>=` |
| Achievement.TierMonotone | src/services/ItemService.ts:14-49 | a larger ratio never earns a lower tier |
| Achievement.AchievementMatchesIntegerLadder | src/services/ItemService.ts:8-52 | for whole runs and a positive whole rarity the ladder equals one decided by integer cross-multiplication |
| Achievement.AchievementExamples | src/services/ItemService.ts:14-49 | ratio 4 gives "acolyte of drop…", ratio 2 "whispers…", 0.09 null and 0.1 the lowest tier |
| Achievement.ItemLuck | src/services/ItemService.ts:54-59 | 0 when runs or rarity is 0, otherwise the number that times runs gives rarity |
| Storage.ToInt32 | src/services/LocalStorageService.ts:24-32 | `hash & hash` yields the 32-bit two's-complement value congruent to the input |
| Storage.HashStepIsTimes31 | src/services/LocalStorageService.ts:25-30 | `(h << 5) - h + c` followed by `& h` is `int32(31·h + c)` |
| Storage.SimpleHash | src/services/LocalStorageService.ts:24-32 | the hash text has 1 to 8 characters, all from `[0-9a-z]` |
| Storage.SimpleHashDecodes | src/services/LocalStorageService.ts:24-32 | the text is the base-36 numeral of the absolute 32-bit hash of the UTF-16 units, at most 6 characters |
| Storage.GeneratePrefix | src/services/LocalStorageService.ts:11-19 | without a window the prefix is "dropquest-default-", otherwise "dropquest-" + hash + "-" |
| Storage.PrefixesSeparate | src/services/LocalStorageService.ts:11-19 | no key carries two different well-formed prefixes, and an origin prefix never equals the default one |
| Storage.Get | src/services/LocalStorageService.ts:65-73 | an absent key, an empty value or unparseable text reads as `null`; otherwise the parsed value |
| Storage.GetAll | src/services/LocalStorageService.ts:75-91 | exactly the prefixed keys with a non-null value appear, with the prefix removed |
| Storage.Save | src/services/LocalStorageService.ts:34-54 | fails with "storage full" exactly when the key is new and the namespace holds at least 4 MiB; any other failure is the generic save error; on success only the one key changes |
| Storage.ReadBack | src/services/LocalStorageService.ts:65-73 | what `get` answers for the text written for a value; the value itself when it round-trips |
| Storage.GetAfterSave | src/services/LocalStorageService.ts:34-73 | after `save(k, v)` the read `get(k)` answers `ReadBack(v)`, which is `v` when `v` round-trips |
| Storage.SaveLeavesOtherKeys | src/services/LocalStorageService.ts:34-54 | a save leaves every other key reading as before |
| Storage.OverwriteNeverQuotaBlocked | src/services/LocalStorageService.ts:40-45 | overwriting an existing key is never refused for quota, and succeeds whenever the host accepts it |
| Storage.Remove | src/services/LocalStorageService.ts:93-96 | exactly the one key is gone and it reads as `null` |
| Storage.Clear | src/services/LocalStorageService.ts:98-109 | exactly the prefixed keys are removed; every other key keeps its value |
| Storage.ClearEmptiesNamespace | src/services/LocalStorageService.ts:98-109 | after a clear the namespace lists nothing and every key reads as `null` |
| Records.FindIndex | src/services/ItemService.ts:99 | `findIndex` answers the first index whose record has the id, -1 (`None`) when there is none, and throws on a `null` record before it |
| Records.UpdateFieldIdempotent | src/services/ItemService.ts:201-216 | when the updated list round-trips, setting one field to the same value twice leaves the same storage as once |
| Records.UpdateIdempotent | src/services/ItemService.ts:97-109 | when the updated list round-trips, an update whose patch keeps the id and is idempotent on the record stores the same and returns the same record the second time |
| Records.ReadBackAfterUpdate | src/services/ItemService.ts:97-109 | after an update of a present id the collection reads as `ReadBack` of the list with that record patched; when it round-trips, the first record with the id reads back as the returned record |
| Items.CreateItem | src/services/ItemService.ts:66-80 | the collection reads as `ReadBack` of the old list plus the new record; when that round-trips, it is exactly the old list with the record at the end; the record has 0 runs and the given name and player id |
| Items.GetAllItems | src/services/ItemService.ts:82-84 | the stored value, or `[]` when it is falsy |
| Items.GetItemsByPlayerId | src/services/ItemService.ts:86-89 | an order-preserving filter: a record is kept exactly when its `playerId` is truthy and `===` the argument |
| Items.GetItemById | src/services/ItemService.ts:91-95 | the first record with the id, or null when no record has it |
| Items.UpdateItem | src/services/ItemService.ts:97-109 | a shallow merge: the new record has the old keys plus the patch keys, patch values win (`id` included), nothing is recomputed; an unknown id writes nothing |
| Items.AddRunsToItem | src/services/ItemService.ts:111-135 | runs become old runs (missing as 0) plus the delta; the text is recomputed from the new runs when rarity is truthy, otherwise the old text or null; no other key changes |
| Items.SetRarity | src/services/ItemService.ts:137-150 | only `rarity` changes, the achievement text is left as it was; an unknown id writes nothing |
| Items.UpdateDate | src/services/ItemService.ts:152-164 | only `createdAt` changes, to the ISO text of the date; an invalid date throws `RangeError` only when the item exists |
| Items.UpdateTotalRuns | src/services/ItemService.ts:166-179 | only `numberOfRuns` changes; an unknown id writes nothing |
| Items.DeleteItem | src/services/ItemService.ts:181-185 | the collection reads as `ReadBack` of the records without the id; when that round-trips, exactly those records, in order |
| Items.DeleteItemRemovesAll | src/services/ItemService.ts:181-185 | when the kept list round-trips: afterwards no record has the id, every other record is still there, and deleting an absent id keeps the list |
| Items.UpdateItemName | src/services/ItemService.ts:187-199 | only `name` changes |
| Items.MarkAsFound | src/services/ItemService.ts:201-216 | only `found` changes |
| Items.MarkAsFoundIdempotent | src/services/ItemService.ts:201-216 | when the updated list round-trips, marking twice leaves the same storage and record as marking once |
| Players.CreatePlayer | src/services/PlayerService.ts:15-28 | the players read as `ReadBack` of the old list plus one player with `foundItemsCount` 0 and `items` `[]`; exactly that list when it round-trips |
| Players.GetAllPlayers | src/services/PlayerService.ts:30-32 | the stored value, or `[]` when it is falsy |
| Players.GetPlayerById | src/services/PlayerService.ts:34-37 | the first player with a matching id, or null when none matches |
| Players.UpdatePlayerFoundItemsCounter | src/services/PlayerService.ts:39-57 | only `foundItemsCount` changes; an unknown id writes nothing |
| Players.UpdatePlayerHeroName | src/services/PlayerService.ts:59-74 | the stored name is the trimmed one, or absent when it trims to nothing; no other key changes; an unknown id returns null |
| Players.GetFoundItemsCount | src/services/PlayerService.ts:76-86 | the count of items whose `found` is truthy, never more than the list length; a `null` entry throws |
| Players.UpdatePlayer | src/services/PlayerService.ts:88-103 | a shallow merge in which the patch wins; an unknown id returns null without writing |
| Players.DeletePlayer | src/services/PlayerService.ts:105-109 | the players read as `ReadBack` of those without the id; exactly those, in order, when that round-trips |
| Players.DeletePlayerKeepsOtherKeys | src/services/PlayerService.ts:105-109 | every other storage key, the items included, reads as before; when the kept list round-trips, a record remains exactly when it was there and lacks the id |
| Router.CreateResponse | src/services/LocalBackendService.ts:9-21 | `ok` is true exactly for statuses 200 to 299 |
| Router.SendError | src/services/LocalBackendService.ts:23-33 | the body always has `error`; it has `code` and `details` exactly when they are truthy, and no other keys |
| Router.CaptureAfterOf | src/services/LocalBackendService.ts:89 | the `^prefix(.+)$` match captures every non-empty rest without a line terminator |
| Router.CaptureBetweenOf | src/services/LocalBackendService.ts:229 | the hero-name match captures every non-empty middle without a line terminator |
| Router.PatchNameError | src/services/LocalBackendService.ts:152-156 | a given name passes exactly when it is a string with a non-blank trim; a falsy one is "Name cannot be empty."; a truthy non-string throws |
| Router.PatchRunsError | src/services/LocalBackendService.ts:158-171 | a given run count passes exactly for the integers 0 to 100,000, with the source's messages in order |
| Router.PatchRarityError | src/services/LocalBackendService.ts:173-186 | a given rarity passes exactly for the integers 1 to 1,000,000 |
| Router.PatchFieldError | src/services/LocalBackendService.ts:152-186 | all present fields pass exactly when name, runs and rarity each do; the first failure in that order is reported |
| Router.PatchItems | src/services/LocalBackendService.ts:145-214 | a missing or `null` body throws; a refused request leaves storage unchanged; an accepted one had a valid item id and valid fields |
| Router.HandleGet | src/services/LocalBackendService.ts:73-123 | answers 200 or 404; `/api/players` lists the players; `/api/items?playerId=` lists exactly that player's items; `/api/items/{id}` answers a stored item with that id, or 404 "Item not found" when none has it; any other path is 404 "Not found" |
| Router.HandlePost | src/services/LocalBackendService.ts:125-142 | an invalid item body is 400 with the validator's message and no write; a valid one is 201 with the new item; `/api/players` is 201 with the new player; any other path is 404 "Not found" |
| Router.PostItemAppends | src/services/LocalBackendService.ts:125-134 | a valid POST `/api/items` answers 201 with the new item; the items read as `ReadBack` of the old list plus that record, and are exactly that list when it round-trips |
| Router.PostThenGetItem | src/services/LocalBackendService.ts:89-134 | after a valid POST `/api/items` with an unused id whose new list round-trips, GET `/api/items/{id}` answers 200 with the record the POST returned |
| Router.HandlePatch | src/services/LocalBackendService.ts:144-250 | a non-2xx answer never changes storage |
| Router.HandleDelete | src/services/LocalBackendService.ts:252-282 | a non-2xx answer never changes storage |
| Router.HandleRequest | src/services/LocalBackendService.ts:46-71 | an unknown method is 405 "Method … not allowed"; any exception becomes 500 "Internal server error" with storage unchanged; a non-2xx answer or a GET never changes storage |
| Router.OutsideApiNotFound | src/services/LocalBackendService.ts:122 | a path outside `/api/` gets 404 "Not found" from every method, the fallbacks at lines 122, 141, 249 and 281 |
| Router.ItemsWithoutPlayerIdEmpty | src/services/LocalBackendService.ts:79-87 | GET `/api/items` with a missing or blank `playerId` answers 200 `[]` |
| Router.GetAbsentItemNotFound | src/services/LocalBackendService.ts:89-100 | GET `/api/items/{id}` for an id no item has answers 404 "Item not found" |
| Router.PlayerRouteNeedsExperience | src/services/LocalBackendService.ts:102-120 | with `calculatePlayerExperience` undefined, GET of an existing player answers 500 |
| Router.PatchChecksBeforeStorage | src/services/LocalBackendService.ts:148-186 | a 400 from PATCH `/api/items` depends on the body alone: any storage gives the same answer and stays unchanged |
| Router.PatchHeroName | src/services/LocalBackendService.ts:229-247 | a missing or `null` body throws; a falsy or non-string `heroName` gives 400 "Hero name is required" with no write; an id no player has gives 404 "Player not found"; a 200 carries the player with the trimmed name set, or the name removed when it trims to nothing |
| Router.HeroNameThenGetPlayer | src/services/LocalBackendService.ts:229-247 | after a 200 from the hero-name route, `getPlayerById` finds exactly the record the route answered, when the saved list round-trips |
| Router.PatchRunsSplit | src/services/LocalBackendService.ts:190-207 | with `numberOfRuns` present, a larger count goes through `addRunsToItem(new − current)`, otherwise through `updateTotalRuns`, and every other body field is ignored |
| Router.FoundRouteLeavesPlayers | src/services/LocalBackendService.ts:216-227 | the found route changes only the item's `found` flag; the player records and `foundItemsCount` are untouched |
| Router.DeleteItemRoute | src/services/LocalBackendService.ts:252-268 | 400 for a non-UUID, 404 for an absent id, otherwise 200 and the item's removal |
| Router.DeletePlayerRouteNoCascade | src/services/LocalBackendService.ts:270-279 | no id-format check; the stored items read exactly as before, and the answer is ok exactly when a player had the id |
| Portability.ExportData | src/services/DataPortabilityService.ts:17-28 | appName is "DropQuest" and version "1.0.0"; a missing collection exports as `[]` |
| Portability.ValidateImportData | src/services/DataPortabilityService.ts:53-98 | accepts exactly the well-formed backups; the non-object, app-name, version, players-not-array and items-not-array messages each in their turn; then the first failing player's answer, else the first failing item's; a `null` record throws |
| Portability.RecordsError | src/services/DataPortabilityService.ts:76-95 | passes exactly when every player and every item does; the first failing player wins over any item |
| Portability.FirstError | src/services/DataPortabilityService.ts:76-95 | the loop passes exactly when every record passes, and otherwise reports the first failing record |
| Portability.PlayerError | src/services/DataPortabilityService.ts:76-83 | a player passes exactly when `id` and `createdAt` are non-empty strings; a `null` player throws |
| Portability.ItemError | src/services/DataPortabilityService.ts:85-95 | an item passes exactly when `id` and `name` are non-empty strings and `numberOfRuns`, if present, is a number |
| Portability.Merged | src/services/DataPortabilityService.ts:115-127 | the existing records in order, then the incoming ones whose id no existing record has; no existing record is overwritten |
| Portability.SaveBoth | src/services/DataPortabilityService.ts:128-129 | the players are saved first; a failed players save stops with no write; a failed items save keeps the players save; the failure is reported |
| Portability.ImportLists | src/services/DataPortabilityService.ts:108-143 | a read failure answers "Failed to import data: …" with storage unchanged; a save failure answers it with whatever was written before the failure; otherwise both lists are written and replace mode reports their lengths |
| Portability.ImportData | src/services/DataPortabilityService.ts:100-144 | a thrown validation is an `Err`; invalid data answers the validator's message with no write; valid data continues as `ImportLists` on the backup's lists, so every "Failed to import data: …" case is the one stated there; replace mode reports the backup's lengths |
| Portability.ListsReadBack | src/services/DataPortabilityService.ts:108-130 | after a successful import each collection reads as `ReadBack` of the list written for it |
| Portability.ImportedCollections | src/services/DataPortabilityService.ts:112-130 | after a successful import each collection reads as `ReadBack` of the backup's list (replace) or of the merge (merge); when those round-trip, as the lists themselves |
| Portability.MergeCountsAlwaysZero | src/services/DataPortabilityService.ts:129-135 | as written, a successful merge whose lists round-trip reports 0 players and 0 items imported |
| Portability.MergeCountsZeroExample | src/services/DataPortabilityService.ts:129-135 | merging one new player and one new item into empty storage reports 0 and 0, when the one-record lists round-trip |
| Portability.ImportDataCorrected | src/services/DataPortabilityService.ts:129-135 | the same writes and errors as the import as written, with counts taken before the save |
| Portability.CorrectedMergeCounts | src/services/DataPortabilityService.ts:115-135 | when the merged lists round-trip, the corrected merge counts equal the growth of each collection, the number of incoming records with new ids |
| Portability.ExportReplaceRoundTrip | src/services/DataPortabilityService.ts:17-135 | when both exported collections round-trip, importing the export in replace mode restores both as they were exported |
| Portability.ClearAllData | src/services/DataPortabilityService.ts:189-191 | the namespace reads empty; keys outside it keep their values |
| Sanitize.StripHtml | src/services/InputSanitizationService.ts:19-26 | the result only deletes characters of the input: never longer, every character taken from it |
| Sanitize.StripHtmlLeavesNoTag | src/services/InputSanitizationService.ts:19-26 | after `stripHtml` no `<` is followed anywhere later by a `>` |
| Sanitize.ScrubPlain | src/services/InputSanitizationService.ts:20-25 | a replacement whose pattern matches nowhere leaves the text unchanged |
| Sanitize.SanitizeText | src/services/InputSanitizationService.ts:31-91 | falsy or non-string input gives ("", invalid); otherwise the stripped, optionally trimmed text, valid exactly when within the UTF-16 length, made of allowed characters and not suspicious, with the first failing check's message |
| Sanitize.StripsToEmptyIsValid | src/services/InputSanitizationService.ts:71 | an input that strips to "" is valid, since the character check is skipped for an empty text |
| Sanitize.SanitizeHeroName | src/services/InputSanitizationService.ts:196-206 | at most 50 units, no trim, the class without `?`, `(` and `)` |
| Sanitize.SanitizeItemName | src/services/InputSanitizationService.ts:211-221 | at most 100 units, no trim, the class with `?`, `(` and `)` |
| Sanitize.HeroCharsAreItemChars | src/services/InputSanitizationService.ts:203-218 | the hero class is the item class minus exactly `?`, `(` and `)` |
| Sanitize.SanitizeNumber | src/services/InputSanitizationService.ts:96-155 | valid exactly for a non-NaN number that is whole when required and within the inclusive bounds; NaN gives 0; a fraction under `integer` gives its floor and "Input must be a whole number"; below `min` gives the number and "Input must be greater than or equal to <min>"; above `max` gives it and "Input must be less than or equal to <max>" |
| Sanitize.SanitizeNumberReadsNumericChars | src/services/InputSanitizationService.ts:112-114 | a string keeps only `[0-9.-]` before parsing, so pre-cleaning it changes nothing |
| Sanitize.SanitizeRuns | src/services/InputSanitizationService.ts:226-236 | valid exactly for the whole numbers 1 to 1,000,000 |
| Sanitize.SanitizeRarity | src/services/InputSanitizationService.ts:241-251 | valid exactly for the whole numbers 1 to 1,000,000 |
| Sanitize.CountBounds | src/services/InputSanitizationService.ts:226-251 | the two count checks agree on every input, which holds by definition since both call `sanitizeNumber` with the same options; 1 and 1,000,000 pass, 0 and 1,000,001 fail, and 2.5 is floored to 2 |
| RarityInputs.ValidateRarityInputs | src/utils/rarityUtils.ts:1-18 | "Drop rate is required" exactly when both fields are blank; the chance error exactly when a non-blank chance does not parse into (0, 100]; the one-over error exactly when the chance passes and a non-blank one-over is outside (0, 1e11]; "" exactly otherwise |
| RarityInputs.WordIsNotAChance | src/utils/rarityUtils.ts:9-11 | a chance written as a word of letters (other than `Infinity`) gets the chance error whatever the other field holds |
| RarityInputs.ChanceOutOfRange | src/utils/rarityUtils.ts:9-11 | a whole-number chance of 0 or above 100 gets the chance error |
| RarityInputs.ChanceInRange | src/utils/rarityUtils.ts:9-17 | a whole-number chance from 1 to 100 on its own passes |
| Stats.DaysBetween | src/utils/dateUtils.ts:10-19 | at least 1; 1 for an invalid start; otherwise the whole days elapsed, `d` with `d·86,400,000 ≤ end − start < (d+1)·86,400,000` |
| Stats.DaysBetweenExamples | src/utils/dateUtils.ts:14-15 | five days apart gives 5, the same instant 1, an invalid start 1 |
| Stats.RunsPerDay | src/utils/dateUtils.ts:21-24 | 0 when runs or days is 0; otherwise a multiple of 0.01 within half a hundredth of runs/days |
| Stats.RunsPerDayExamples | src/utils/dateUtils.ts:21-24 | 100/5 gives 20 and 100/3 gives 33.33 |
| Stats.TotalRuns | src/utils/playerStats.ts:18-20 | an empty list totals 0, one record totals its run count (a missing count as 0), and non-negative counts give a non-negative total |
| Stats.TotalRunsIsSum | src/utils/playerStats.ts:18-20 | the total is the sum of the run counts, a missing count as 0, equal to the front-to-back reference sum `SumRuns` |
| Stats.TotalRunsConcat | src/utils/playerStats.ts:18-20 | the total of two lists end to end is the sum of their totals |
| Stats.EarliestFrom | src/utils/playerStats.ts:7-10 | the `reduce` yields one of the dates, no later than any valid date; an invalid start date stays invalid |
| Stats.PlayerRunsPerDay | src/utils/playerStats.ts:4-16 | 0 for no items; otherwise total runs per day since the earliest valid creation date, or per one day when the first date is invalid |
| PlayerOrder.Insert | src/utils/playerUtils.ts:7-11 | one insertion step keeps the multiset of players and, when all times are valid, the newest-first order |
| PlayerOrder.SortPlayersByLastUsed | src/utils/playerUtils.ts:6-12 | a permutation of the input; when every time is valid, ordered newest first by `lastUsedAt`, else `createdAt` |
| PlayerOrder.SortIsPermutation | src/utils/playerUtils.ts:7 | a player is in the sorted copy exactly when it is in the input |
| PlayerOrder.GetMostRecentPlayer | src/utils/playerUtils.ts:17-21 | null exactly for no players; otherwise one of the players, and when every time is valid one whose time is the latest |
| ItemDetail.RunsForProbability | src/pages/ItemDetail.tsx:22-28 | a rarity of at most 1 gives infinity; a NaN or infinite rarity gives NaN |
| ItemDetail.ValidateRarity | src/pages/ItemDetail.tsx:44-46 | blank gives "Drop rate is required"; otherwise "" exactly when the value parses into (0, 1e11], else the one-over error |
| ItemDetail.ValidateRuns | src/pages/ItemDetail.tsx:48-66 | blank gives "Total runs count is required"; "" exactly when `parseInt` reads an integer from 0 to 1,000,000 |
| ItemDetail.WholeNumberOnlyOnOverflow | src/pages/ItemDetail.tsx:52-58 | the "whole number" message appears exactly when `parseInt` overflows to an infinity |
| ItemDetail.ValidateMinutesPerRun | src/pages/ItemDetail.tsx:85-100 | "" exactly for a non-blank value that parses into 0 to 10,000 inclusive; each failure has its own message |
| ItemDetail.RuntimeAsWritten | src/pages/ItemDetail.tsx:379-392 | as written: no time exactly when runs × minutes is 0; for a positive total the hours are whole and the minutes lie in 0 to 60 inclusive |
| ItemDetail.AsWrittenShowsSixtyMinutes | src/pages/ItemDetail.tsx:386-387 | the minutes read 60 exactly when the leftover is 59.5 or more |
| ItemDetail.AsWrittenExample | src/pages/ItemDetail.tsx:379-392 | one run of 119.5 minutes reads "1h 60m" |
| ItemDetail.RuntimeCorrected | src/pages/ItemDetail.tsx:379-392 | corrected: minutes always below 60, and hours·60 + minutes is the rounded total |
| ItemDetail.CorrectedAgreesOffTheEdge | src/pages/ItemDetail.tsx:379-392 | for totals of at least 0.5 whose leftover is below 59.5 the corrected and the written parts agree |
| ItemDetail.ReadRuntimeText | src/pages/ItemDetail.tsx:384-391 | the four text forms "0 min", "M min", "Nh" and "Nh Mm" read back as the hours and minutes they were made from |
| ItemDetail.TotalRuntimeAsWritten | src/pages/ItemDetail.tsx:379-392 | a zero total shows "0 min"; a positive one shows the whole hours of the total and at most 60 minutes |
| ItemDetail.TotalRuntimeCorrected | src/pages/ItemDetail.tsx:379-392 | corrected: a rounded total of 0 shows "0 min", under 60 "M min", a whole number of hours "Nh"; the text reads back as the rounded total split into hours and minutes |
| ItemDetail.CorrectedMinutesBelowSixty | src/pages/ItemDetail.tsx:386-391 | corrected: the text never shows 60 or more minutes, and its hours and minutes add up to the rounded total |
| ItemDetail.CorrectedExample | src/pages/ItemDetail.tsx:379-392 | corrected, 119.5 minutes read "2h" |

## Left out

- The React UI: components, pages, hooks and navigation. The exception is the pure closures of the item page listed above.
- `apiProxy` (it patches the global `fetch`), `errorUtils` (network I/O) and `ServiceContainer` (wiring only).
- URL parsing (`new URL`) and response headers. The router receives the path and the query map already split, and every response is JSON.
- Floating-point rounding. Numbers are exact reals, so double rounding in sums, divisions and `Math.round` is not modelled. The overflow of long digit strings to an infinity is modelled.
- Dates. Parsing and formatting (`new Date`, `toISOString`, `formatDate`, `validateHuntingDate`, the `Date` test of `validateDate`) are parameters. Dates are integer milliseconds or `None`.
- `crypto.randomUUID` and the clock are parameters of the create operations.
- Byte sizes. The quota counts the UTF-8 length of the encoded namespace. The `Blob` wrapper itself, `getStorageSize`'s display and `getDataSummary` are not modelled.
- `downloadData`, `importFromFile` and `htmlEncode`: they are DOM and file APIs.
- `calculateProgressProbability` and the logarithm branch of `calculateRunsForProbability`: they are floating-point `Math.pow` and `Math.log`. The branch is a parameter.
- `calculatePlayerExperience` is not defined in `PlayerService`. It is a host parameter whose `None` stands for the call throwing. An `undefined` result is not distinguished from a missing `experience` key.
- `calculateRarityForSubmission` and `getLastUsedPlayer` are imported but not defined anywhere in the repository. `RarityInput.test.ts` tests functions it defines itself.
- Sanitize.SanitizeText: `containsSuspiciousContent`, a list of 26 regular expressions, is a parameter, so the "dangerous content" branch is exact only up to that predicate.
- Items.AddRunsToItem: `numberOfRuns || 0` is read as the number when it is one and 0 otherwise. A truthy non-number (a string, say) would be concatenated or coerced by JavaScript. The services and the router only ever store numbers there.
- Stats.TotalRuns: the same reading of `numberOfRuns || 0` as in `AddRunsToItem`.
- Portability.ImportData: the merge-mode re-read uses `?.length`. An object with its own `length` property is read as length 0.
- Read-after-write equalities hold only for values whose JSON text round-trips, because numbers are exact reals. Every such contract also states the read as `ReadBack` of the value written, for every value.
- Engine messages of thrown `TypeError`s are not modelled; only the fact that something was thrown is.
- PlayerOrder.SortPlayersByLastUsed: when some time is invalid, the comparator is inconsistent and the engine may return a different permutation. The model returns one particular permutation, a stable insertion sort. Its ordering guarantee is stated only when every time is valid.
- Stats.DaysBetween: the end date is a valid integer time, the clock's "now". An invalid end `Date` passed by a caller is not modelled.
- ItemDetail.RuntimeCorrected: it splits negative totals with Euclidean division. Validated inputs never produce a negative total.
- Template-literal rendering of integers of 10^21 and above (exponent notation) is not modelled.

## Findings

| source | as written | input that shows it | evidently intended | confidence | as-written member | corrected member |
|---|---|---|---|---|---|---|
| src/services/DataPortabilityService.ts:129-135 | the merge-mode counts subtract the length of the collection read back after the save, which is the saved length itself | merging one new player and one new item into empty storage reports 0 and 0 | the number of records the merge added | not executed | Portability.MergeCountsAlwaysZero | Portability.CorrectedMergeCounts |
| src/pages/ItemDetail.tsx:386-391 | hours are `floor(total / 60)` and minutes `round(total % 60)`, rounded separately | one run of 119.5 minutes shows "1h 60m" | round the total first, so the minutes stay below 60 ("2h") | not executed | ItemDetail.AsWrittenShowsSixtyMinutes | ItemDetail.RuntimeCorrected |
