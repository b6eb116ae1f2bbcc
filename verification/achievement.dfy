/** The two pure helpers of `src/services/ItemService.ts`: the achievement
    message ladder over the ratio of runs to rarity, and the luck ratio. */
module Achievement {
  import opened Js
  import opened Numbers

  const Tier8 := "the balance of the universe is at stake, you truly earned it by now, we have nothing more to say..."
  const Tier7 := "the mightiest out of thousands of grinds is truly yours..."
  const Tier6 := "... goru mesork darma zurgu larach..."
  const Tier5 := "eternity does no longer frighten you..."
  const Tier4Half := "truly for some nothing is written unless they writ it themselves..."
  const Tier4 := "acolyte of drop, whisper of hope, thunder of fury, unstoppable..."
  const Tier3 := "you thought you earned that message we skipped too? The persistance is admirable..."
  const Tier2 := "whispers... grumbling.... sounds distant, far and close, oh you better be prepared...."
  const Tier1Half := "The people talk, the songs where made..."
  const Tier1 := "Most believe they have earned it by now..."
  const TierFifth := "It feels like the mechanics aren't that hard..."
  const TierTenth := "Trying things, I see..."

  /** `calculateAchievementText(runs, rarity)`: the ladder is read from the
      top, each rung with `>=`. `rarity` is a JS number, so it may be 0,
      NaN or infinite; the ratio follows JS division. */
  function AchievementText(runs: real, rarity: Num): (r: Option<string>)
    ensures r.None? <==> !Ge(Divide(runs, rarity), 0.1)
  {
    var ratio := Divide(runs, rarity);
    if Ge(ratio, 8.0) then Some(Tier8)
    else if Ge(ratio, 7.0) then Some(Tier7)
    else if Ge(ratio, 6.0) then Some(Tier6)
    else if Ge(ratio, 5.0) then Some(Tier5)
    else if Ge(ratio, 4.5) then Some(Tier4Half)
    else if Ge(ratio, 4.0) then Some(Tier4)
    else if Ge(ratio, 3.0) then Some(Tier3)
    else if Ge(ratio, 2.0) then Some(Tier2)
    else if Ge(ratio, 1.5) then Some(Tier1Half)
    else if Ge(ratio, 1.0) then Some(Tier1)
    else if Ge(ratio, 0.2) then Some(TierFifth)
    else if Ge(ratio, 0.1) then Some(TierTenth)
    else None
  }

  /** The ladder as a table, highest rung first. */
  const Thresholds: seq<real> := [8.0, 7.0, 6.0, 5.0, 4.5, 4.0, 3.0, 2.0, 1.5, 1.0, 0.2, 0.1]
  const Texts: seq<string> := [Tier8, Tier7, Tier6, Tier5, Tier4Half, Tier4, Tier3, Tier2, Tier1Half, Tier1, TierFifth, TierTenth]

  /** The first rung at or after `i` that the ratio reaches. */
  function TierFrom(ratio: Num, i: nat): (r: Option<nat>)
    requires i <= 12
    ensures r.Some? ==> i <= r.value < 12 && Ge(ratio, Thresholds[r.value])
    ensures r.Some? ==> forall j :: i <= j < r.value ==> !Ge(ratio, Thresholds[j])
    ensures r.None? ==> forall j :: i <= j < 12 ==> !Ge(ratio, Thresholds[j])
    decreases 12 - i
  {
    if i == 12 then None
    else if Ge(ratio, Thresholds[i]) then Some(i)
    else TierFrom(ratio, i + 1)
  }

  /** The table's thresholds strictly decrease. */
  lemma ThresholdsDecrease(i: nat, j: nat)
    requires i < j < 12
    ensures Thresholds[i] > Thresholds[j]
  {
  }

  /** The ladder gives the text of the highest rung the ratio reaches, and
      a ratio exactly on a threshold gets that threshold's text. */
  lemma LadderIsHighestRung(runs: real, rarity: Num)
    ensures TierFrom(Divide(runs, rarity), 0).None? ==> AchievementText(runs, rarity).None?
    ensures TierFrom(Divide(runs, rarity), 0).Some? ==>
      AchievementText(runs, rarity) == Some(Texts[TierFrom(Divide(runs, rarity), 0).value])
  {
  }

  /** A ratio sitting exactly on rung `i` gets rung `i`'s text. */
  lemma OnThresholdGetsThatTier(i: nat)
    requires i < 12
    ensures TierFrom(Fin(Thresholds[i]), 0) == Some(i)
  {
    var t := TierFrom(Fin(Thresholds[i]), 0);
    if t.Some? && t.value < i { ThresholdsDecrease(t.value, i); }
    if t.Some? && t.value > i { assert Ge(Fin(Thresholds[i]), Thresholds[i]); }
  }

  /** A higher ratio never gets a lower rung. */
  lemma TierMonotone(q1: real, q2: real)
    requires q1 <= q2
    requires TierFrom(Fin(q1), 0).Some?
    ensures TierFrom(Fin(q2), 0).Some?
    ensures TierFrom(Fin(q2), 0).value <= TierFrom(Fin(q1), 0).value
  {
  }

  /** The same ladder over whole numbers, compared by cross-multiplying
      instead of dividing. */
  function AchievementTextInt(runs: int, rarity: int): (r: Option<string>)
    requires rarity > 0
    ensures r.None? <==> 10 * runs < rarity
  {
    if runs >= 8 * rarity then Some(Tier8)
    else if runs >= 7 * rarity then Some(Tier7)
    else if runs >= 6 * rarity then Some(Tier6)
    else if runs >= 5 * rarity then Some(Tier5)
    else if 2 * runs >= 9 * rarity then Some(Tier4Half)
    else if runs >= 4 * rarity then Some(Tier4)
    else if runs >= 3 * rarity then Some(Tier3)
    else if runs >= 2 * rarity then Some(Tier2)
    else if 2 * runs >= 3 * rarity then Some(Tier1Half)
    else if runs >= rarity then Some(Tier1)
    else if 5 * runs >= rarity then Some(TierFifth)
    else if 10 * runs >= rarity then Some(TierTenth)
    else None
  }

  lemma DivAtLeast(a: real, b: real, t: real)
    requires b > 0.0
    ensures a / b >= t <==> a >= t * b
  {
    assert (a / b) * b == a;
    if a / b >= t { assert (a / b) * b >= t * b; }
    if a >= t * b { assert (a / b) * b >= t * b; }
  }

  /** For a whole run count and a positive whole rarity the real-valued
      ladder and the cross-multiplied one agree. */
  lemma AchievementMatchesIntegerLadder(runs: int, rarity: int)
    requires rarity > 0
    ensures AchievementText(runs as real, Fin(rarity as real)) == AchievementTextInt(runs, rarity)
  {
    var a := runs as real;
    var b := rarity as real;
    DivAtLeast(a, b, 8.0);
    DivAtLeast(a, b, 7.0);
    DivAtLeast(a, b, 6.0);
    DivAtLeast(a, b, 5.0);
    DivAtLeast(a, b, 4.5);
    DivAtLeast(a, b, 4.0);
    DivAtLeast(a, b, 3.0);
    DivAtLeast(a, b, 2.0);
    DivAtLeast(a, b, 1.5);
    DivAtLeast(a, b, 1.0);
    DivAtLeast(a, b, 0.2);
    DivAtLeast(a, b, 0.1);
  }

  /** Ratio 4 is the "acolyte" rung, ratio 2 the "whispers" rung, and a
      ratio below 0.1 has no text. */
  lemma AchievementExamples()
    ensures AchievementText(100.0, Fin(25.0)) == Some(Tier4)
    ensures AchievementText(10.0, Fin(5.0)) == Some(Tier2)
    ensures AchievementText(9.0, Fin(100.0)) == None
    ensures AchievementText(10.0, Fin(100.0)) == Some(TierTenth)
  {
    AchievementMatchesIntegerLadder(100, 25);
    AchievementMatchesIntegerLadder(10, 5);
    AchievementMatchesIntegerLadder(9, 100);
    AchievementMatchesIntegerLadder(10, 100);
  }

  /** `calculateItemLuck(runs, rarity)`: 0 when either is 0, otherwise
      `rarity / runs`. */
  function ItemLuck(runs: real, rarity: real): (r: real)
    ensures runs == 0.0 || rarity == 0.0 ==> r == 0.0
    ensures runs != 0.0 ==> r * runs == rarity
  {
    if runs == 0.0 || rarity == 0.0 then 0.0 else rarity / runs
  }
}
