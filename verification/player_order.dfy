/** `sortPlayersByLastUsed` and `getMostRecentPlayer`
    (`src/utils/playerUtils.ts`): most recently used first. A player's time
    is its `lastUsedAt`, or its `createdAt` when that is falsy, read as a
    date; reading a date is a parameter, `None` standing for an invalid
    date, whose `NaN` time makes the comparator answer "equal". */
module PlayerOrder {
  import opened Js

  /** `p.lastUsedAt || p.createdAt`. */
  function TimeSource(p: Obj): Option<Json> {
    if TruthyOpt(Field(p, "lastUsedAt")) then Field(p, "lastUsedAt") else Field(p, "createdAt")
  }

  /** `new Date(p.lastUsedAt || p.createdAt).getTime()`. */
  function TimeOf(p: Obj, dateOf: Option<Json> -> Option<int>): Option<int> {
    dateOf(TimeSource(p))
  }

  /** The comparator `b - a` on times is negative: `a` is strictly more
      recent than `b`. A `NaN` difference counts as 0. */
  predicate MoreRecent(a: Obj, b: Obj, dateOf: Option<Json> -> Option<int>) {
    TimeOf(a, dateOf).Some? && TimeOf(b, dateOf).Some? && TimeOf(b, dateOf).value < TimeOf(a, dateOf).value
  }

  /** Every player has a valid time, so the comparator is consistent. */
  predicate AllTimed(ps: seq<Obj>, dateOf: Option<Json> -> Option<int>) {
    forall i :: 0 <= i < |ps| ==> TimeOf(ps[i], dateOf).Some?
  }

  /** Most recent first. */
  predicate NewestFirst(ps: seq<Obj>, dateOf: Option<Json> -> Option<int>)
    requires AllTimed(ps, dateOf)
  {
    forall i, j :: 0 <= i < j < |ps| ==> TimeOf(ps[j], dateOf).value <= TimeOf(ps[i], dateOf).value
  }

  /** Places `p` before the first player that is not more recent than it. */
  function Insert(p: Obj, ps: seq<Obj>, dateOf: Option<Json> -> Option<int>): (r: seq<Obj>)
    ensures multiset(r) == multiset(ps) + multiset{p}
    ensures |r| == |ps| + 1
    ensures AllTimed(ps, dateOf) && TimeOf(p, dateOf).Some? && NewestFirst(ps, dateOf) ==>
      AllTimed(r, dateOf) && NewestFirst(r, dateOf)
  {
    if |ps| == 0 then [p]
    else if MoreRecent(ps[0], p, dateOf) then
      var rest := Insert(p, ps[1..], dateOf);
      assert ps == [ps[0]] + ps[1..];
      InsertKeepsOrder(p, ps, rest, dateOf);
      [ps[0]] + rest
    else
      [p] + ps
  }

  /** Putting the head in front of the insertion into the tail keeps the
      list newest first. */
  lemma InsertKeepsOrder(p: Obj, ps: seq<Obj>, rest: seq<Obj>, dateOf: Option<Json> -> Option<int>)
    requires |ps| > 0 && MoreRecent(ps[0], p, dateOf)
    requires multiset(rest) == multiset(ps[1..]) + multiset{p}
    requires AllTimed(ps, dateOf) && NewestFirst(ps, dateOf) ==> AllTimed(rest, dateOf) && NewestFirst(rest, dateOf)
    ensures AllTimed(ps, dateOf) && NewestFirst(ps, dateOf) ==>
      AllTimed([ps[0]] + rest, dateOf) && NewestFirst([ps[0]] + rest, dateOf)
  {
    if AllTimed(ps, dateOf) && NewestFirst(ps, dateOf) {
      var r := [ps[0]] + rest;
      forall k | 0 <= k < |rest|
        ensures TimeOf(rest[k], dateOf).value <= TimeOf(ps[0], dateOf).value
      {
        assert rest[k] in multiset(rest);
        if rest[k] != p {
          assert rest[k] in multiset(ps[1..]);
          var m :| 0 <= m < |ps[1..]| && ps[1..][m] == rest[k];
          assert ps[m + 1] == rest[k];
        }
      }
      forall i, j | 0 <= i < j < |r|
        ensures TimeOf(r[j], dateOf).value <= TimeOf(r[i], dateOf).value
      {
        if i > 0 {
          assert r[i] == rest[i - 1] && r[j] == rest[j - 1];
        } else {
          assert r[j] == rest[j - 1];
        }
      }
    }
  }

  /** `sortPlayersByLastUsed(players)` on a copy: a stable insertion sort
      with the source's comparator. */
  function SortPlayersByLastUsed(players: seq<Obj>, dateOf: Option<Json> -> Option<int>): (r: seq<Obj>)
    ensures multiset(r) == multiset(players)
    ensures |r| == |players|
    ensures AllTimed(players, dateOf) ==> AllTimed(r, dateOf) && NewestFirst(r, dateOf)
  {
    if |players| == 0 then []
    else
      assert players == [players[0]] + players[1..];
      Insert(players[0], SortPlayersByLastUsed(players[1..], dateOf), dateOf)
  }

  /** Sorting keeps exactly the same players, each as often as before. */
  lemma SortIsPermutation(players: seq<Obj>, dateOf: Option<Json> -> Option<int>, p: Obj)
    ensures p in SortPlayersByLastUsed(players, dateOf) <==> p in players
  {
    var r := SortPlayersByLastUsed(players, dateOf);
    assert p in r <==> p in multiset(r);
  }

  /** `getMostRecentPlayer(players)`: `None` (null) for no players,
      otherwise the head of the sorted copy, which is one of the players
      and, when every time is valid, one with the latest time. */
  function GetMostRecentPlayer(players: seq<Obj>, dateOf: Option<Json> -> Option<int>): (r: Option<Obj>)
    ensures r.None? <==> |players| == 0
    ensures r.Some? ==> r.value in players
    ensures r.Some? && AllTimed(players, dateOf) ==>
      forall i :: 0 <= i < |players| ==> TimeOf(players[i], dateOf).value <= TimeOf(r.value, dateOf).value
  {
    if |players| == 0 then None
    else
      var sorted := SortPlayersByLastUsed(players, dateOf);
      assert sorted[0] in multiset(players) by { assert sorted[0] in multiset(sorted); }
      assert AllTimed(players, dateOf) ==>
        forall i :: 0 <= i < |players| ==> TimeOf(players[i], dateOf).value <= TimeOf(sorted[0], dateOf).value by {
        if AllTimed(players, dateOf) {
          forall i | 0 <= i < |players|
            ensures TimeOf(players[i], dateOf).value <= TimeOf(sorted[0], dateOf).value
          {
            assert players[i] in multiset(sorted) by { assert players[i] in multiset(players); }
            var k :| 0 <= k < |sorted| && sorted[k] == players[i];
            if k > 0 { assert TimeOf(sorted[k], dateOf).value <= TimeOf(sorted[0], dateOf).value; }
          }
        }
      }
      Some(sorted[0])
  }
}
