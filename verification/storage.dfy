/** `LocalStorageService` (`src/services/LocalStorageService.ts`): a
    namespace inside the browser's `localStorage`. Every key the service
    writes carries a prefix derived from the page's origin, values are JSON
    text, and creating a new key is refused once the namespace holds 4 MiB. */
module Storage {
  import opened Js
  import opened Text
  import Numbers

  /** The browser's `localStorage`: string keys to string values. */
  type Store = map<string, string>

  /** `JSON.stringify` and `JSON.parse` (`None` when the text is malformed). */
  datatype Codec = Codec(stringify: Json -> string, parse: string -> Option<Json>)

  /** The text `stringify` writes for `v` is not empty and parses back as
      `v`. `JSON.stringify` and `JSON.parse` do this for every value whose
      numbers are finite doubles other than `-0`; a number that is not a
      double reads back rounded, so this is a property of the value
      written, not of the codec alone. */
  predicate RoundTrips(c: Codec, v: Json) {
    c.stringify(v) != "" && c.parse(c.stringify(v)) == Some(v)
  }

  /** What `get` answers for the text `save` wrote for `v`: `null` for an
      empty or unparseable text, else whatever the text parses as. */
  function ReadBack(c: Codec, v: Json): (r: Json)
    ensures RoundTrips(c, v) ==> r == v
  {
    var text := c.stringify(v);
    if text == "" then JNull
    else
      match c.parse(text)
      case None => JNull
      case Some(j) => j
  }

  /** One instance of the service. `hostAccepts` says whether the host's
      `setItem` succeeds in producing the given state; it fails, for
      instance, when the browser's own quota is exceeded. */
  datatype Env = Env(prefix: string, codec: Codec, hostAccepts: Store -> bool)

  /** The namespace quota: 4 * 1024 * 1024 bytes. */
  const QuotaBytes: nat := 4 * 1024 * 1024

  /* ---------------- The prefix ---------------- */

  /** Two's-complement wrap-around to 32 bits, as `x & x` and `x << 5` do. */
  function ToInt32(x: int): (r: int)
    ensures -0x8000_0000 <= r < 0x8000_0000
    ensures (x - r) % 0x1_0000_0000 == 0
    ensures -0x8000_0000 <= x < 0x8000_0000 ==> r == x
  {
    var m := x % 0x1_0000_0000;
    if m >= 0x8000_0000 then m - 0x1_0000_0000 else m
  }

  /** One step of `simpleHash`: `hash = (hash << 5) - hash + char`, then
      `hash = hash & hash`. */
  function HashStep(h: int, unit: int): int {
    ToInt32(ToInt32(h * 32) - h + unit)
  }

  /** The hash of a sequence of UTF-16 code units, folding from the left. */
  function HashUnits(units: seq<int>): int {
    if |units| == 0 then 0 else HashStep(HashUnits(units[..|units| - 1]), units[|units| - 1])
  }

  /** Two values equal modulo 2^32 wrap to the same 32-bit integer. */
  lemma ToInt32Congruent(x: int, y: int)
    requires (x - y) % 0x1_0000_0000 == 0
    ensures ToInt32(x) == ToInt32(y)
  {
    var k := (x - y) / 0x1_0000_0000;
    assert x == y + k * 0x1_0000_0000;
    assert x % 0x1_0000_0000 == y % 0x1_0000_0000;
  }

  /** The shift, subtraction and masking amount to `h := int32(31 * h + c)`. */
  lemma HashStepIsTimes31(h: int, unit: int)
    ensures HashStep(h, unit) == ToInt32(31 * h + unit)
  {
    var a := ToInt32(h * 32);
    assert (h * 32 - a) % 0x1_0000_0000 == 0;
    ToInt32Congruent(a - h + unit, 31 * h + unit);
  }

  function Abs(x: int): nat { if x < 0 then -x else x }

  predicate IsBase36Digit(c: char) { IsDigit(c) || IsLower(c) }

  function Base36Digit(d: nat): (c: char)
    requires d < 36
    ensures IsBase36Digit(c)
    ensures Numbers.DigitIn(c, 36) == Some(d)
  {
    if d < 10 then ('0' as int + d) as char else ('a' as int + d - 10) as char
  }

  /** `n.toString(36)`. */
  function Base36(n: nat): (s: string)
    ensures |s| > 0
    ensures forall i :: 0 <= i < |s| ==> IsBase36Digit(s[i]) && Numbers.DigitIn(s[i], 36).Some?
    ensures Numbers.RadixValue(s, 36) == n
  {
    var last := [Base36Digit(n % 36)];
    if n < 36 then
      assert last[..0] == [];
      last
    else
      var s := Base36(n / 36) + last;
      assert s[..|s| - 1] == Base36(n / 36);
      s
  }

  /** Numbers below `36^k` have at most `k` base-36 digits. */
  lemma {:induction false} Base36Length(n: nat, k: nat)
    requires k >= 1 && n < Pow(36, k)
    ensures |Base36(n)| <= k
  {
    if n >= 36 {
      assert Pow(36, 1) == 36;
      assert n / 36 < Pow(36, k - 1);
      Base36Length(n / 36, k - 1);
    }
  }

  /** `simpleHash(str)`: the absolute value of the 32-bit hash in base 36,
      cut to 8 characters. */
  function SimpleHash(str: string): (r: string)
    ensures 1 <= |r| <= 8
    ensures forall i :: 0 <= i < |r| ==> IsBase36Digit(r[i])
  {
    var text := Base36(Abs(HashUnits(Utf16Units(str))));
    if |text| <= 8 then text else text[..8]
  }

  /** The hash of any string fits in six base-36 digits, so the cut to eight
      characters never shortens it, and the text reads back (as a base-36
      numeral) as the absolute value of `int32(31 * h + c)` folded over the
      string's code units. */
  lemma SimpleHashDecodes(str: string)
    ensures |SimpleHash(str)| <= 6
    ensures Numbers.RadixValue(SimpleHash(str), 36) == Abs(HashUnits(Utf16Units(str)))
  {
    var h := HashUnits(Utf16Units(str));
    assert Abs(h) <= 0x8000_0000;
    assert Pow(36, 6) == 2176782336 by {
      assert Pow(36, 1) == 36;
      assert Pow(36, 2) == 1296;
      assert Pow(36, 3) == 46656;
      assert Pow(36, 4) == 1679616;
      assert Pow(36, 5) == 60466176;
    }
    Base36Length(Abs(h), 6);
  }

  /** The prefix when no window exists. */
  const DefaultPrefix := "dropquest-default-"

  /** `generateUrlBasedPrefix()`: `location` is the window's protocol and
      host, `None` when there is no window. */
  function GeneratePrefix(location: Option<(string, string)>): (r: string)
    ensures location.None? ==> r == DefaultPrefix
    ensures location.Some? ==> (12 <= |r| <= 19 && r[..10] == "dropquest-" && r[|r| - 1] == '-'
      && forall i :: 10 <= i < |r| - 1 ==> IsBase36Digit(r[i]))
  {
    match location
    case None => DefaultPrefix
    case Some((protocol, host)) =>
      var h := SimpleHash(protocol + "//" + host);
      var r := "dropquest-" + h + "-";
      assert forall i :: 10 <= i < |r| - 1 ==> r[i] == h[i - 10];
      r
  }

  /** A prefix of the form the service builds: fixed text, a non-empty run
      of base-36 digits (or the word "default"), and a final hyphen. */
  predicate WellFormedPrefix(p: string) {
    12 <= |p| && p[..10] == "dropquest-" && p[|p| - 1] == '-'
    && forall i :: 10 <= i < |p| - 1 ==> IsBase36Digit(p[i])
  }

  /** Different origins never share keys: no key carries two different
      prefixes of the service's form, since the hyphen that ends the
      shorter one would fall among the digits of the longer. A page without
      a window uses its own prefix, which no origin's prefix equals (the
      hash has at most six characters, "default" has seven). */
  lemma PrefixesSeparate(p1: string, p2: string, key: string, location: (string, string))
    requires WellFormedPrefix(p1) && WellFormedPrefix(p2) && p1 != p2
    ensures !(StartsWith(key, p1) && StartsWith(key, p2))
    ensures GeneratePrefix(Some(location)) != DefaultPrefix
  {
    if |p1| < |p2| {
      assert IsBase36Digit(p2[|p1| - 1]);
    } else if |p2| < |p1| {
      assert IsBase36Digit(p1[|p2| - 1]);
    }
    SimpleHashDecodes(location.0 + "//" + location.1);
  }

  /* ---------------- Reading ---------------- */

  /** `!localStorage.getItem(key)`: absent or the empty string. */
  predicate IsNew(store: Store, key: string) {
    key !in store || store[key] == ""
  }

  /** `get(key)`: `JNull` for an absent key, an empty value or malformed
      text, else the parsed value (which may itself be `null`). */
  function Get(env: Env, store: Store, key: string): (r: Json)
    ensures IsNew(store, env.prefix + key) ==> r == JNull
    ensures !IsNew(store, env.prefix + key) && env.codec.parse(store[env.prefix + key]).None? ==> r == JNull
    ensures !IsNew(store, env.prefix + key) && env.codec.parse(store[env.prefix + key]).Some?
      ==> r == env.codec.parse(store[env.prefix + key]).value
  {
    var pk := env.prefix + key;
    if IsNew(store, pk) then JNull
    else
      match env.codec.parse(store[pk])
      case None => JNull
      case Some(j) => j
  }

  /** `localStorage` keys `getAll` and `clear` treat as the namespace's:
      non-empty and starting with the prefix. */
  predicate Owned(env: Env, key: string) {
    key != "" && StartsWith(key, env.prefix)
  }

  /** `getAll()`: the namespace's keys with the prefix removed, mapped to
      their values; keys whose `get` is `null` are left out. */
  function GetAll(env: Env, store: Store): (r: map<string, Json>)
    ensures forall k :: (k in store && Owned(env, k) && Get(env, store, k[|env.prefix|..]) != JNull
      ==> k[|env.prefix|..] in r)
    ensures forall u :: u in r ==> (env.prefix + u in store && Owned(env, env.prefix + u)
      && r[u] == Get(env, store, u) && r[u] != JNull)
  {
    var r := map k | k in store && Owned(env, k) && Get(env, store, k[|env.prefix|..]) != JNull
      :: k[|env.prefix|..] := Get(env, store, k[|env.prefix|..]);
    assert forall k :: Owned(env, k) ==> env.prefix + k[|env.prefix|..] == k;
    r
  }

  /** `getStorageSize()`: the UTF-8 byte length of `JSON.stringify(getAll())`. */
  function StorageSize(env: Env, store: Store): nat {
    Utf8Length(env.codec.stringify(JObj(GetAll(env, store))))
  }

  /* ---------------- Writing ---------------- */

  /** `save(key, data)`. The quota is checked only when the key is new;
      a failing `setItem` becomes `SaveFailed`. */
  function Save(env: Env, store: Store, key: string, data: Json): (r: Result<Store>)
    ensures r.Err? ==> r.exc == StorageFull || r.exc == SaveFailed
    ensures r == Err(StorageFull) <==> IsNew(store, env.prefix + key) && StorageSize(env, store) >= QuotaBytes
    ensures r.Ok? ==> (r.value.Keys == store.Keys + {env.prefix + key}
      && r.value[env.prefix + key] == env.codec.stringify(data)
      && forall k :: k in store && k != env.prefix + key ==> r.value[k] == store[k])
  {
    var pk := env.prefix + key;
    var serialized := env.codec.stringify(data);
    if IsNew(store, pk) && StorageSize(env, store) >= QuotaBytes then Err(StorageFull)
    else
      var next := store[pk := serialized];
      if env.hostAccepts(next) then Ok(next) else Err(SaveFailed)
  }

  /** Reading back what was saved gives what its text parses as, and so
      the saved value itself whenever that value round-trips. */
  lemma GetAfterSave(env: Env, store: Store, key: string, data: Json)
    requires Save(env, store, key, data).Ok?
    ensures Get(env, Save(env, store, key, data).value, key) == ReadBack(env.codec, data)
    ensures RoundTrips(env.codec, data) ==> Get(env, Save(env, store, key, data).value, key) == data
  {
    var _ := env.codec.stringify(data);
  }

  /** Saving one key leaves what every other key reads as. */
  lemma SaveLeavesOtherKeys(env: Env, store: Store, key: string, other: string, data: Json)
    requires Save(env, store, key, data).Ok?
    requires other != key
    ensures Get(env, Save(env, store, key, data).value, other) == Get(env, store, other)
  {
    assert (env.prefix + other)[|env.prefix|..] == other;
    assert (env.prefix + key)[|env.prefix|..] == key;
  }

  /** Overwriting a key that holds a value is never refused for quota,
      however full the namespace is. */
  lemma OverwriteNeverQuotaBlocked(env: Env, store: Store, key: string, data: Json)
    requires !IsNew(store, env.prefix + key)
    ensures Save(env, store, key, data) != Err(StorageFull)
    ensures env.hostAccepts(store[env.prefix + key := env.codec.stringify(data)]) ==> Save(env, store, key, data).Ok?
  {
  }

  /** `remove(key)`. */
  function Remove(env: Env, store: Store, key: string): (r: Store)
    ensures r.Keys == store.Keys - {env.prefix + key}
    ensures forall k :: k in r ==> r[k] == store[k]
    ensures Get(env, r, key) == JNull
  {
    store - {env.prefix + key}
  }

  /** `clear()`: removes the namespace's keys and nothing else. */
  function Clear(env: Env, store: Store): (r: Store)
    ensures forall k :: k in r <==> k in store && !Owned(env, k)
    ensures forall k :: k in r ==> r[k] == store[k]
  {
    map k | k in store && !Owned(env, k) :: store[k]
  }

  /** After `clear()` the namespace reads as empty. */
  lemma ClearEmptiesNamespace(env: Env, store: Store, key: string)
    ensures GetAll(env, Clear(env, store)) == map[]
    ensures key != "" || env.prefix != "" ==> Get(env, Clear(env, store), key) == JNull
  {
    var c := Clear(env, store);
    var all := GetAll(env, c);
    assert forall u :: u in all ==> env.prefix + u in c && Owned(env, env.prefix + u);
    if key != "" || env.prefix != "" {
      assert StartsWith(env.prefix + key, env.prefix);
    }
  }
}
