/** The record-list pattern `ItemService` and `PlayerService` share: a
    whole list is read from one storage key (`get(key) || []`), searched or
    filtered with `record.id === id`, changed in one place, and written back
    with `save`. Records are JS objects; elements of a stored list may be
    anything JSON allows, and reading a property of a `null` element throws. */
module Records {
  import opened Js
  import opened Storage

  /* ---------------- Searching ---------------- */

  /** No element before position `j` is `null` or carries the id. */
  predicate PassedBy(xs: seq<Json>, id: Json, j: int) {
    0 <= j <= |xs| && forall k :: 0 <= k < j ==> !xs[k].JNull? && !HasId(xs[k], id)
  }

  /** `xs.findIndex(r => r.id === id)`: the first record with the id; a
      `null` element reached before any match throws. */
  function FindIndex(xs: seq<Json>, id: Json): (r: Result<Option<nat>>)
    ensures r.Ok? && r.value.Some? ==> r.value.value < |xs| && HasId(xs[r.value.value], id) && PassedBy(xs, id, r.value.value)
    ensures r.Ok? && r.value.None? ==> PassedBy(xs, id, |xs|)
    ensures r.Err? ==> r.exc == TypeError && exists j :: PassedBy(xs, id, j) && j < |xs| && xs[j].JNull?
  {
    if |xs| == 0 then Ok(None)
    else if xs[0].JNull? then
      assert PassedBy(xs, id, 0);
      Err(TypeError)
    else if HasId(xs[0], id) then Ok(Some(0))
    else
      match FindIndex(xs[1..], id)
      case Err(e) =>
        ghost var j :| PassedBy(xs[1..], id, j) && j < |xs| - 1 && xs[1..][j].JNull?;
        assert PassedBy(xs, id, j + 1);
        Err(e)
      case Ok(None) => Ok(None)
      case Ok(Some(k)) => Ok(Some(k + 1))
  }

  /** The search is decided by the first element that is `null` or has the
      id: a match there is found, a `null` there throws, and a list with
      neither is searched in vain. */
  lemma {:induction false} FindIndexComplete(xs: seq<Json>, id: Json, j: nat)
    requires PassedBy(xs, id, j)
    ensures j < |xs| && HasId(xs[j], id) ==> FindIndex(xs, id) == Ok(Some(j))
    ensures j < |xs| && xs[j].JNull? ==> FindIndex(xs, id) == Err(TypeError)
    ensures j == |xs| ==> FindIndex(xs, id) == Ok(None)
  {
    if j > 0 {
      assert !xs[0].JNull? && !HasId(xs[0], id);
      assert PassedBy(xs[1..], id, j - 1) by {
        forall k | 0 <= k < j - 1 ensures !xs[1..][k].JNull? && !HasId(xs[1..][k], id) {
          assert xs[1..][k] == xs[k + 1];
        }
      }
      FindIndexComplete(xs[1..], id, j - 1);
    }
  }

  /** Replacing the matching record by one that keeps its id leaves the
      search result where it was. */
  lemma FindIndexAfterReplace(xs: seq<Json>, id: Json, i: nat, rec: Json)
    requires FindIndex(xs, id) == Ok(Some(i))
    requires HasId(rec, id)
    ensures FindIndex(xs[i := rec], id) == Ok(Some(i))
  {
    var ys := xs[i := rec];
    assert PassedBy(ys, id, i) by {
      assert forall k :: 0 <= k < i ==> ys[k] == xs[k];
    }
    FindIndexComplete(ys, id, i);
  }

  /* ---------------- Filtering ---------------- */

  predicate HasNull(xs: seq<Json>) {
    exists j :: 0 <= j < |xs| && xs[j].JNull?
  }

  /** The elements `keep` accepts, in order. */
  function Kept(xs: seq<Json>, keep: Json -> bool): seq<Json> {
    if |xs| == 0 then [] else Kept(xs[..|xs| - 1], keep) + (if keep(xs[|xs| - 1]) then [xs[|xs| - 1]] else [])
  }

  /** `xs.filter(keep)` where `keep` reads a property of each element, so
      a `null` element anywhere throws. */
  function Filter(xs: seq<Json>, keep: Json -> bool): (r: Result<seq<Json>>)
    ensures r.Err? <==> HasNull(xs)
    ensures r.Err? ==> r.exc == TypeError
    ensures r.Ok? ==> r.value == Kept(xs, keep)
  {
    if HasNull(xs) then Err(TypeError) else Ok(Kept(xs, keep))
  }

  /** An element survives the filter exactly when it is in the list and
      accepted. */
  lemma {:induction false} KeptMembers(xs: seq<Json>, keep: Json -> bool, x: Json)
    ensures x in Kept(xs, keep) <==> x in xs && keep(x)
  {
    if |xs| > 0 {
      var init := xs[..|xs| - 1];
      assert xs == init + [xs[|xs| - 1]];
      KeptMembers(init, keep, x);
    }
  }

  /** A filter that accepts every element returns the list itself. */
  lemma {:induction false} KeptAll(xs: seq<Json>, keep: Json -> bool)
    requires forall j :: 0 <= j < |xs| ==> keep(xs[j])
    ensures Kept(xs, keep) == xs
  {
    if |xs| > 0 {
      var init := xs[..|xs| - 1];
      assert xs == init + [xs[|xs| - 1]];
      KeptAll(init, keep);
    }
  }

  /** Filtering distributes over concatenation: the kept elements come out
      in their original order. */
  lemma {:induction false} KeptConcat(a: seq<Json>, b: seq<Json>, keep: Json -> bool)
    ensures Kept(a + b, keep) == Kept(a, keep) + Kept(b, keep)
  {
    if |b| == 0 {
      assert a + b == a;
    } else {
      var init := b[..|b| - 1];
      var last := b[|b| - 1];
      assert (a + b)[..|a + b| - 1] == a + init;
      assert (a + b)[|a + b| - 1] == last;
      KeptConcat(a, init, keep);
    }
  }

  /** Number of elements `keep` rejects. */
  function CountRejected(xs: seq<Json>, keep: Json -> bool): nat {
    if |xs| == 0 then 0 else CountRejected(xs[..|xs| - 1], keep) + (if keep(xs[|xs| - 1]) then 0 else 1)
  }

  /** What is kept and what is rejected add up to the whole list. */
  lemma {:induction false} KeptLength(xs: seq<Json>, keep: Json -> bool)
    ensures |Kept(xs, keep)| + CountRejected(xs, keep) == |xs|
  {
    if |xs| > 0 {
      KeptLength(xs[..|xs| - 1], keep);
    }
  }

  /* ---------------- Reading and writing a collection ---------------- */

  /** `get(key) || []`: the stored value, or an empty list when it is falsy. */
  function Collection(env: Env, store: Store, key: string): (r: Json)
    ensures Truthy(Get(env, store, key)) ==> r == Get(env, store, key)
    ensures !Truthy(Get(env, store, key)) ==> r == JArr([])
    ensures Truthy(r) || r == JArr([])
  {
    OrElse(Some(Get(env, store, key)), JArr([]))
  }

  /** The collection used as a list: `push`, `find`, `findIndex` and
      `filter` exist only on arrays, so any other stored value throws. */
  function CollectionList(env: Env, store: Store, key: string): (r: Result<seq<Json>>)
    ensures r.Ok? <==> Collection(env, store, key).JArr?
    ensures r.Ok? ==> JArr(r.value) == Collection(env, store, key)
    ensures r.Err? ==> r.exc == TypeError
  {
    match Collection(env, store, key)
    case JArr(xs) => Ok(xs)
    case _ => Err(TypeError)
  }

  /** Where a record with the id sits in the collection, and the record. */
  function Lookup(env: Env, store: Store, key: string, id: Json): (r: Result<Option<(nat, Obj)>>)
    ensures r.Ok? ==> CollectionList(env, store, key).Ok?
    ensures r.Ok? && r.value.Some? ==> (var xs := CollectionList(env, store, key).value;
      FindIndex(xs, id) == Ok(Some(r.value.value.0)) && xs[r.value.value.0] == JObj(r.value.value.1))
    ensures r.Ok? && r.value.None? ==> FindIndex(CollectionList(env, store, key).value, id) == Ok(None)
    ensures r.Err? ==> r.exc == TypeError
  {
    var xs :- CollectionList(env, store, key);
    var found :- FindIndex(xs, id);
    match found
    case None => Ok(None)
    case Some(i) => Ok(Some((i, xs[i].fields)))
  }

  /** `list.find(r => r.id === id) || null`. */
  function FindById(env: Env, store: Store, key: string, id: Json): (r: Result<Option<Obj>>)
    ensures r.Ok? <==> Lookup(env, store, key, id).Ok?
    ensures r.Ok? ==> (r.value.Some? <==> Lookup(env, store, key, id).value.Some?)
    ensures r.Ok? && r.value.Some? ==> (r.value.value == Lookup(env, store, key, id).value.value.1
      && HasId(JObj(r.value.value), id))
  {
    var found :- Lookup(env, store, key, id);
    Ok(if found.Some? then Some(found.value.1) else None)
  }

  /** The outcome of a read-modify-write: the new storage and the changed
      record, `None` when no record has the id (nothing is written then). */
  datatype Updated = Updated(store: Store, record: Option<Obj>)

  /** Finds the record with the id, replaces it by `patch` of it and saves
      the whole list back under the same key. */
  function UpdateById(env: Env, store: Store, key: string, id: Json, patch: Obj -> Obj): (r: Result<Updated>)
    ensures Lookup(env, store, key, id).Err? ==> r.Err? && r.exc == TypeError
    ensures Lookup(env, store, key, id) == Ok(None) ==> r == Ok(Updated(store, None))
    ensures Lookup(env, store, key, id).Ok? && Lookup(env, store, key, id).value.Some? ==>
      (var (i, prev) := Lookup(env, store, key, id).value.value;
       var saved := Save(env, store, key, JArr(CollectionList(env, store, key).value[i := JObj(patch(prev))]));
       (r.Err? <==> saved.Err?) && (r.Ok? ==> r.value == Updated(saved.value, Some(patch(prev)))))
  {
    var found :- Lookup(env, store, key, id);
    match found
    case None => Ok(Updated(store, None))
    case Some((i, prev)) =>
      var xs := CollectionList(env, store, key).value;
      var next := patch(prev);
      var saved :- Save(env, store, key, JArr(xs[i := JObj(next)]));
      Ok(Updated(saved, Some(next)))
  }

  /** Appends one record to the collection and saves it; the collection
      then reads back as the old list with the record at the end. */
  function Append(env: Env, store: Store, key: string, record: Json): (r: Result<Store>)
    ensures CollectionList(env, store, key).Err? ==> r == Err(TypeError)
    ensures r.Ok? ==> CollectionList(env, store, key).Ok?
    ensures r.Ok? ==> Get(env, r.value, key) == ReadBack(env.codec, JArr(CollectionList(env, store, key).value + [record]))
    ensures r.Ok? && RoundTrips(env.codec, JArr(CollectionList(env, store, key).value + [record])) ==>
      CollectionList(env, r.value, key) == Ok(CollectionList(env, store, key).value + [record])
    ensures r.Err? ==> r.exc == TypeError || r.exc == StorageFull || r.exc == SaveFailed
  {
    var xs :- CollectionList(env, store, key);
    var saved := Save(env, store, key, JArr(xs + [record]));
    assert saved.Ok? ==> Get(env, saved.value, key) == ReadBack(env.codec, JArr(xs + [record])) by {
      if saved.Ok? { GetAfterSave(env, store, key, JArr(xs + [record])); }
    }
    saved
  }

  /** Filters the collection with `keep` and saves what is left; the
      collection then reads back as exactly the kept records, in order. */
  function SaveFiltered(env: Env, store: Store, key: string, keep: Json -> bool): (r: Result<Store>)
    ensures CollectionList(env, store, key).Err? ==> r == Err(TypeError)
    ensures CollectionList(env, store, key).Ok? && HasNull(CollectionList(env, store, key).value) ==> r == Err(TypeError)
    ensures r.Ok? ==> CollectionList(env, store, key).Ok? && !HasNull(CollectionList(env, store, key).value)
    ensures r.Ok? ==> Get(env, r.value, key) == ReadBack(env.codec, JArr(Kept(CollectionList(env, store, key).value, keep)))
    ensures r.Ok? && RoundTrips(env.codec, JArr(Kept(CollectionList(env, store, key).value, keep))) ==>
      CollectionList(env, r.value, key) == Ok(Kept(CollectionList(env, store, key).value, keep))
    ensures r.Err? ==> r.exc == TypeError || r.exc == StorageFull || r.exc == SaveFailed
  {
    var xs :- CollectionList(env, store, key);
    var kept :- Filter(xs, keep);
    var saved := Save(env, store, key, JArr(kept));
    assert saved.Ok? ==> Get(env, saved.value, key) == ReadBack(env.codec, JArr(kept)) by {
      if saved.Ok? { GetAfterSave(env, store, key, JArr(kept)); }
    }
    saved
  }

  /** The patch that sets one field. */
  function SetField(key: string, v: Json): Obj -> Obj {
    rec => rec[key := v]
  }

  /** `next` is `prev` with field `key` set to `v` and nothing else changed. */
  predicate SetsOnly(prev: Obj, next: Obj, key: string, v: Json) {
    next.Keys == prev.Keys + {key} && next[key] == v
    && forall k :: k in prev && k != key ==> next[k] == prev[k]
  }

  /** A record with the id is in the collection. */
  predicate Present(env: Env, store: Store, key: string, id: Json) {
    Lookup(env, store, key, id).Ok? && Lookup(env, store, key, id).value.Some?
  }

  /** The record a successful update found, before the change. */
  function Before(env: Env, store: Store, key: string, id: Json): Obj
    requires Present(env, store, key, id)
  {
    Lookup(env, store, key, id).value.value.1
  }

  /** The list an update of the record with the id saves: the collection
      with that record replaced by `patch` of it. */
  function UpdatedList(env: Env, store: Store, key: string, id: Json, patch: Obj -> Obj): seq<Json>
    requires Present(env, store, key, id)
  {
    var (i, prev) := Lookup(env, store, key, id).value.value;
    CollectionList(env, store, key).value[i := JObj(patch(prev))]
  }

  /** The list an update would save reads back as itself; nothing is asked
      when no record has the id. */
  predicate UpdateRoundTrips(env: Env, store: Store, key: string, id: Json, patch: Obj -> Obj) {
    Present(env, store, key, id) ==> RoundTrips(env.codec, JArr(UpdatedList(env, store, key, id, patch)))
  }

  /** Setting one field of the matching record, as `setRarity`,
      `updateTotalRuns`, `updateItemName`, `markAsFound` and
      `updatePlayerFoundItemsCounter` do. */
  function UpdateField(env: Env, store: Store, key: string, id: Json, field: string, v: Json): (r: Result<Updated>)
    ensures r.Ok? && r.value.record.None? ==> r.value.store == store
    ensures r.Ok? && r.value.record.Some? ==> (Lookup(env, store, key, id).Ok? && Lookup(env, store, key, id).value.Some?
      && SetsOnly(Before(env, store, key, id), r.value.record.value, field, v))
    ensures Lookup(env, store, key, id).Ok? && Lookup(env, store, key, id).value.None? ==> r == Ok(Updated(store, None))
    ensures r.Err? ==> r.exc == TypeError || r.exc == StorageFull || r.exc == SaveFailed
  {
    UpdateById(env, store, key, id, SetField(field, v))
  }

  /** Setting a field other than `id` twice stores the same as once. */
  lemma UpdateFieldIdempotent(env: Env, store: Store, key: string, id: Json, field: string, v: Json)
    requires field != "id"
    requires UpdateField(env, store, key, id, field, v).Ok?
    ensures UpdateRoundTrips(env, store, key, id, SetField(field, v)) ==>
      var once := UpdateField(env, store, key, id, field, v).value;
      UpdateField(env, once.store, key, id, field, v) == Ok(once)
  {
    var r := UpdateField(env, store, key, id, field, v);
    if r.value.record.Some? && UpdateRoundTrips(env, store, key, id, SetField(field, v)) {
      var prev := Before(env, store, key, id);
      var patch := SetField(field, v);
      assert patch(prev) == prev[field := v];
      assert patch(patch(prev)) == patch(prev);
      assert HasId(JObj(patch(prev)), id);
      UpdateIdempotent(env, store, key, id, patch);
    }
  }

  /** After a successful update the collection reads back as the prev list
      with the one record replaced, and when the patch keeps the id the
      record is found again, changed, at the same place. */
  lemma ReadBackAfterUpdate(env: Env, store: Store, key: string, id: Json, patch: Obj -> Obj)
    requires UpdateById(env, store, key, id, patch).Ok?
    requires UpdateById(env, store, key, id, patch).value.record.Some?
    ensures Lookup(env, store, key, id).Ok? && Lookup(env, store, key, id).value.Some?
    ensures Get(env, UpdateById(env, store, key, id, patch).value.store, key)
      == ReadBack(env.codec, JArr(UpdatedList(env, store, key, id, patch)))
    ensures RoundTrips(env.codec, JArr(UpdatedList(env, store, key, id, patch))) ==>
      var (i, prev) := Lookup(env, store, key, id).value.value;
      var after := UpdateById(env, store, key, id, patch).value.store;
      CollectionList(env, after, key) == Ok(CollectionList(env, store, key).value[i := JObj(patch(prev))])
      && (HasId(JObj(patch(prev)), id) ==> Lookup(env, after, key, id) == Ok(Some((i, patch(prev)))))
  {
    var (i, prev) := Lookup(env, store, key, id).value.value;
    var xs := CollectionList(env, store, key).value;
    var list := JArr(xs[i := JObj(patch(prev))]);
    GetAfterSave(env, store, key, list);
    if RoundTrips(env.codec, list) && HasId(JObj(patch(prev)), id) {
      FindIndexAfterReplace(xs, id, i, JObj(patch(prev)));
    }
  }

  /** Applying an update twice stores the same as applying it once, when
      the patch keeps the id and changes nothing the second time. */
  lemma UpdateIdempotent(env: Env, store: Store, key: string, id: Json, patch: Obj -> Obj)
    requires UpdateById(env, store, key, id, patch).Ok?
    requires Lookup(env, store, key, id).Ok? && Lookup(env, store, key, id).value.Some?
    requires var prev := Lookup(env, store, key, id).value.value.1;
      HasId(JObj(patch(prev)), id) && patch(patch(prev)) == patch(prev)
    ensures RoundTrips(env.codec, JArr(UpdatedList(env, store, key, id, patch))) ==>
      var once := UpdateById(env, store, key, id, patch).value.store;
      UpdateById(env, once, key, id, patch) == Ok(Updated(once, UpdateById(env, store, key, id, patch).value.record))
  {
    if !RoundTrips(env.codec, JArr(UpdatedList(env, store, key, id, patch))) { return; }
    var (i, prev) := Lookup(env, store, key, id).value.value;
    var xs := CollectionList(env, store, key).value;
    var ys := xs[i := JObj(patch(prev))];
    var once := UpdateById(env, store, key, id, patch).value.store;
    ReadBackAfterUpdate(env, store, key, id, patch);
    assert ys[i := JObj(patch(patch(prev)))] == ys;
    var text := env.codec.stringify(JArr(ys));
    assert once[env.prefix + key] == text;
    assert once[env.prefix + key := text] == once;
    assert !IsNew(once, env.prefix + key);
    assert env.hostAccepts(once) by {
      assert store[env.prefix + key := text] == once;
    }
  }
}
