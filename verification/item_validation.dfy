/** `ItemValidationService` (`src/services/itemValidation.ts`): field
    checks that answer with the first problem found, and request checks
    that read two fields of a request body. Fields are `Option<Json>`,
    `None` being `undefined`. */
module ItemValidation {
  import opened Js
  import opened Text
  import opened Uuid

  /** `ValidationResult`: `{ isValid: true }` or `{ isValid: false, error }`. */
  datatype Validation = Valid | Invalid(error: string)

  /** Accepted values of each field, stated independently of the checks. */
  predicate IsItemName(v: Option<Json>) {
    v.Some? && v.value.JStr? && !AllSpace(v.value.s) && Utf16Length(v.value.s) <= 100
  }

  predicate IsRunCount(v: Option<Json>) {
    v.Some? && v.value.JNum? && IsIntegral(v.value.n) && 0.0 <= v.value.n <= 1000000.0
  }

  predicate IsRarity(v: Option<Json>) {
    v.Some? && v.value.JNum? && IsIntegral(v.value.n) && 1.0 <= v.value.n <= 1000000.0
  }

  predicate IsId(v: Option<Json>) {
    v.Some? && UuidLike(v.value)
  }

  /** Shared shape of `validateItemId` and `validatePlayerId`. */
  function ValidateId(v: Option<Json>, required: string, invalid: string): (r: Validation)
    ensures r.Valid? <==> IsId(v)
    ensures !TruthyOpt(v) ==> r == Invalid(required)
    ensures TruthyOpt(v) && !IsId(v) ==> r == Invalid(invalid)
  {
    if !TruthyOpt(v) then
      assert !IsId(v) by { if v.Some? { UuidLikeOnScalars(v.value); } }
      Invalid(required)
    else if !UuidLike(v.value) then Invalid(invalid)
    else Valid
  }

  /** `validateItemId`. */
  function ValidateItemId(v: Option<Json>): (r: Validation)
    ensures r.Valid? <==> IsId(v)
    ensures !TruthyOpt(v) ==> r == Invalid("Item ID is required")
    ensures TruthyOpt(v) && !IsId(v) ==> r == Invalid("Invalid item ID format")
  {
    ValidateId(v, "Item ID is required", "Invalid item ID format")
  }

  /** `validatePlayerId`. */
  function ValidatePlayerId(v: Option<Json>): (r: Validation)
    ensures r.Valid? <==> IsId(v)
    ensures !TruthyOpt(v) ==> r == Invalid("Player ID is required")
    ensures TruthyOpt(v) && !IsId(v) ==> r == Invalid("Invalid player ID format")
  {
    ValidateId(v, "Player ID is required", "Invalid player ID format")
  }

  /** `validateItemName`: a non-blank string of at most 100 UTF-16 code
      units (`name.length`). */
  function ValidateItemName(v: Option<Json>): (r: Validation)
    ensures r.Valid? <==> IsItemName(v)
    ensures !TruthyOpt(v) ==> r == Invalid("Name is required")
    ensures TruthyOpt(v) && !v.value.JStr? ==> r == Invalid("Name must be a string")
    ensures IsStringOpt(v) && v.value.s != "" && AllSpace(v.value.s) ==> r == Invalid("Name cannot be empty")
    ensures IsStringOpt(v) && !AllSpace(v.value.s) && Utf16Length(v.value.s) > 100 ==> r == Invalid("Name must be 100 characters or less")
  {
    if !TruthyOpt(v) then
      assert v.Some? && v.value.JStr? ==> v.value.s == "";
      Invalid("Name is required")
    else if !v.value.JStr? then Invalid("Name must be a string")
    else if |Trim(v.value.s)| == 0 then
      TrimEmptyIffAllSpace(v.value.s);
      Invalid("Name cannot be empty")
    else if Utf16Length(v.value.s) > 100 then
      TrimEmptyIffAllSpace(v.value.s);
      Invalid("Name must be 100 characters or less")
    else
      TrimEmptyIffAllSpace(v.value.s);
      Valid
  }

  /** `name.length` counts UTF-16 units: 51 characters outside the Basic
      Multilingual Plane (emoji, say) make 102 units and are refused. */
  lemma AstralNameTooLong(s: string)
    requires |s| == 51
    requires forall i :: 0 <= i < |s| ==> s[i] as int >= 0x10000
    ensures ValidateItemName(Some(JStr(s))) == Invalid("Name must be 100 characters or less")
  {
    AstralLength(s);
    assert !IsSpace(s[0]);
  }

  /** `validateRuns`: a whole number from 0 to 1,000,000. */
  function ValidateRuns(v: Option<Json>): (r: Validation)
    ensures r.Valid? <==> IsRunCount(v)
    ensures (v.None? || v.value.JNull?) <==> r == Invalid("Runs is required")
    ensures v.Some? && v.value.JNum? && v.value.n > 1000000.0 && IsIntegral(v.value.n) ==> r == Invalid("Runs cannot exceed 1,000,000")
    ensures v.Some? && !v.value.JNull? && !IsRunCount(v) && !(v.value.JNum? && v.value.n > 1000000.0 && IsIntegral(v.value.n))
      ==> r == Invalid("Runs must be a positive number")
  {
    if v.None? || v.value.JNull? then Invalid("Runs is required")
    else if !v.value.JNum? then Invalid("Runs must be a positive number")
    else if !IsIntegral(v.value.n) then Invalid("Runs must be a positive number")
    else if v.value.n < 0.0 then Invalid("Runs must be a positive number")
    else if v.value.n > 1000000.0 then Invalid("Runs cannot exceed 1,000,000")
    else Valid
  }

  /** `validateRarity`: a whole number from 1 to 1,000,000. */
  function ValidateRarity(v: Option<Json>): (r: Validation)
    ensures r.Valid? <==> IsRarity(v)
    ensures (v.None? || v.value.JNull?) <==> r == Invalid("Rarity is required")
    ensures v.Some? && v.value.JNum? && v.value.n > 1000000.0 && IsIntegral(v.value.n) ==> r == Invalid("Rarity cannot exceed 1,000,000")
    ensures v.Some? && !v.value.JNull? && !IsRarity(v) && !(v.value.JNum? && v.value.n > 1000000.0 && IsIntegral(v.value.n))
      ==> r == Invalid("Rarity must be a positive number")
  {
    if v.None? || v.value.JNull? then Invalid("Rarity is required")
    else if !v.value.JNum? then Invalid("Rarity must be a positive number")
    else if !IsIntegral(v.value.n) then Invalid("Rarity must be a positive number")
    else if v.value.n <= 0.0 then Invalid("Rarity must be a positive number")
    else if v.value.n > 1000000.0 then Invalid("Rarity cannot exceed 1,000,000")
    else Valid
  }

  /** `validateDate`. Whether `new Date(s)` gives a valid time is the
      host's date parser, passed in as `parsesAsDate`. */
  function ValidateDate(v: Option<Json>, parsesAsDate: string -> bool): (r: Validation)
    ensures r.Valid? <==> IsStringOpt(v) && v.value.s != "" && parsesAsDate(v.value.s)
    ensures !TruthyOpt(v) <==> r == Invalid("Date is required")
    ensures TruthyOpt(v) && !r.Valid? ==> r == Invalid("Date must be a valid date string")
  {
    if !TruthyOpt(v) then Invalid("Date is required")
    else if !v.value.JStr? then Invalid("Date must be a valid date string")
    else if !parsesAsDate(v.value.s) then Invalid("Date must be a valid date string")
    else Valid
  }

  /** `validateFound`: a boolean. */
  function ValidateFound(v: Option<Json>): (r: Validation)
    ensures r.Valid? <==> IsBoolOpt(v)
    ensures (v.None? || v.value.JNull?) <==> r == Invalid("Found is required")
    ensures v.Some? && !v.value.JNull? && !v.value.JBool? ==> r == Invalid("Found must be a boolean value")
  {
    if v.None? || v.value.JNull? then Invalid("Found is required")
    else if !v.value.JBool? then Invalid("Found must be a boolean value")
    else Valid
  }

  /** The first failing check, or `Valid`. */
  function FirstFailure(first: Validation, second: Validation): (r: Validation)
    ensures r.Valid? <==> first.Valid? && second.Valid?
    ensures first.Invalid? ==> r == first
    ensures first.Valid? ==> r == second
  {
    if first.Invalid? then first else second
  }

  /** A field of a body known to be readable. */
  function Arg(body: Option<Json>, key: string): Option<Json> {
    match BodyProp(body, key)
    case Ok(v) => v
    case Err(_) => None
  }

  /** A request check starts by reading a property of the body, which
      throws when the body is `undefined` or `null`; once that read
      succeeds the second one does too. */
  predicate Readable(body: Option<Json>) {
    body.Some? && !body.value.JNull?
  }

  /** `validateCreateItemRequest`: name first, then player id. */
  function ValidateCreateItemRequest(body: Option<Json>): (r: Result<Validation>)
    ensures r.Err? <==> !Readable(body)
    ensures r.Ok? ==> (r.value.Valid? <==> IsItemName(Arg(body, "name")) && IsId(Arg(body, "playerId")))
    ensures r.Ok? && !IsItemName(Arg(body, "name")) ==> r.value == ValidateItemName(Arg(body, "name"))
    ensures r.Ok? && IsItemName(Arg(body, "name")) ==> r.value == ValidatePlayerId(Arg(body, "playerId"))
  {
    if !Readable(body) then Err(TypeError)
    else Ok(FirstFailure(ValidateItemName(Arg(body, "name")), ValidatePlayerId(Arg(body, "playerId"))))
  }

  /** `validateUpdateNameRequest`: item id first, then name. */
  function ValidateUpdateNameRequest(body: Option<Json>): (r: Result<Validation>)
    ensures r.Err? <==> !Readable(body)
    ensures r.Ok? ==> (r.value.Valid? <==> IsId(Arg(body, "itemId")) && IsItemName(Arg(body, "name")))
    ensures r.Ok? && !IsId(Arg(body, "itemId")) ==> r.value == ValidateItemId(Arg(body, "itemId"))
    ensures r.Ok? && IsId(Arg(body, "itemId")) ==> r.value == ValidateItemName(Arg(body, "name"))
  {
    if !Readable(body) then Err(TypeError)
    else Ok(FirstFailure(ValidateItemId(Arg(body, "itemId")), ValidateItemName(Arg(body, "name"))))
  }

  /** `validateAddRunsRequest`: item id, then `runs`. */
  function ValidateAddRunsRequest(body: Option<Json>): (r: Result<Validation>)
    ensures r.Err? <==> !Readable(body)
    ensures r.Ok? ==> (r.value.Valid? <==> IsId(Arg(body, "itemId")) && IsRunCount(Arg(body, "runs")))
    ensures r.Ok? && !IsId(Arg(body, "itemId")) ==> r.value == ValidateItemId(Arg(body, "itemId"))
    ensures r.Ok? && IsId(Arg(body, "itemId")) ==> r.value == ValidateRuns(Arg(body, "runs"))
  {
    if !Readable(body) then Err(TypeError)
    else Ok(FirstFailure(ValidateItemId(Arg(body, "itemId")), ValidateRuns(Arg(body, "runs"))))
  }

  /** `validateSetRarityRequest`: item id, then `rarity`. */
  function ValidateSetRarityRequest(body: Option<Json>): (r: Result<Validation>)
    ensures r.Err? <==> !Readable(body)
    ensures r.Ok? ==> (r.value.Valid? <==> IsId(Arg(body, "itemId")) && IsRarity(Arg(body, "rarity")))
    ensures r.Ok? && !IsId(Arg(body, "itemId")) ==> r.value == ValidateItemId(Arg(body, "itemId"))
    ensures r.Ok? && IsId(Arg(body, "itemId")) ==> r.value == ValidateRarity(Arg(body, "rarity"))
  {
    if !Readable(body) then Err(TypeError)
    else Ok(FirstFailure(ValidateItemId(Arg(body, "itemId")), ValidateRarity(Arg(body, "rarity"))))
  }

  /** `validateUpdateDateRequest`: item id, then `date`. */
  function ValidateUpdateDateRequest(body: Option<Json>, parsesAsDate: string -> bool): (r: Result<Validation>)
    ensures r.Err? <==> !Readable(body)
    ensures r.Ok? ==> (r.value.Valid? <==> IsId(Arg(body, "itemId")) && ValidateDate(Arg(body, "date"), parsesAsDate).Valid?)
    ensures r.Ok? && !IsId(Arg(body, "itemId")) ==> r.value == ValidateItemId(Arg(body, "itemId"))
    ensures r.Ok? && IsId(Arg(body, "itemId")) ==> r.value == ValidateDate(Arg(body, "date"), parsesAsDate)
  {
    if !Readable(body) then Err(TypeError)
    else Ok(FirstFailure(ValidateItemId(Arg(body, "itemId")), ValidateDate(Arg(body, "date"), parsesAsDate)))
  }

  /** `validateUpdateTotalRunsRequest`: item id, then `totalRuns`. */
  function ValidateUpdateTotalRunsRequest(body: Option<Json>): (r: Result<Validation>)
    ensures r.Err? <==> !Readable(body)
    ensures r.Ok? ==> (r.value.Valid? <==> IsId(Arg(body, "itemId")) && IsRunCount(Arg(body, "totalRuns")))
    ensures r.Ok? && !IsId(Arg(body, "itemId")) ==> r.value == ValidateItemId(Arg(body, "itemId"))
    ensures r.Ok? && IsId(Arg(body, "itemId")) ==> r.value == ValidateRuns(Arg(body, "totalRuns"))
  {
    if !Readable(body) then Err(TypeError)
    else Ok(FirstFailure(ValidateItemId(Arg(body, "itemId")), ValidateRuns(Arg(body, "totalRuns"))))
  }

  /** `validateMarkAsFoundRequest`: item id, then `found`. */
  function ValidateMarkAsFoundRequest(body: Option<Json>): (r: Result<Validation>)
    ensures r.Err? <==> !Readable(body)
    ensures r.Ok? ==> (r.value.Valid? <==> IsId(Arg(body, "itemId")) && IsBoolOpt(Arg(body, "found")))
    ensures r.Ok? && !IsId(Arg(body, "itemId")) ==> r.value == ValidateItemId(Arg(body, "itemId"))
    ensures r.Ok? && IsId(Arg(body, "itemId")) ==> r.value == ValidateFound(Arg(body, "found"))
  {
    if !Readable(body) then Err(TypeError)
    else Ok(FirstFailure(ValidateItemId(Arg(body, "itemId")), ValidateFound(Arg(body, "found"))))
  }

  /** The accepted run counts and rarities: `0` is a valid run count but
      not a valid rarity, `1000000` is valid for both, and no fraction,
      string or larger number is valid for either. */
  lemma RunsAndRarityBounds(v: Option<Json>)
    ensures IsRarity(v) ==> IsRunCount(v)
    ensures ValidateRuns(Some(JNum(0.0))).Valid? && !ValidateRarity(Some(JNum(0.0))).Valid?
    ensures ValidateRuns(Some(JNum(1000000.0))).Valid? && ValidateRarity(Some(JNum(1000000.0))).Valid?
    ensures ValidateRuns(Some(JNum(1000001.0))) == Invalid("Runs cannot exceed 1,000,000")
    ensures ValidateRuns(Some(JNum(0.5))) == Invalid("Runs must be a positive number")
    ensures ValidateRarity(Some(JStr("5"))) == Invalid("Rarity must be a positive number")
  {
    assert (0.5).Floor == 0;
    assert (1000001.0).Floor == 1000001;
    assert (1000000.0).Floor == 1000000;
  }
}
