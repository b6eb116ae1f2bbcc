/** The statistics helpers: `calculateDaysBetween` and
    `calculateRunsPerDay` (`src/utils/dateUtils.ts`), `calculateTotalRuns`
    and `calculatePlayerRunsPerDay` (`src/utils/playerStats.ts`). A date is
    its time in milliseconds, `None` for an invalid date; reading a date
    from text is a parameter. */
module Stats {
  import opened Js
  import opened Numbers
  import opened Items

  const MsPerDay: int := 1000 * 60 * 60 * 24

  /** `calculateDaysBetween(start, end)`: the whole days from `start` to
      `end`, at least 1; an invalid start gives 1. */
  function DaysBetween(start: Option<int>, end: int): (r: int)
    ensures r >= 1
    ensures start.None? ==> r == 1
    ensures start.Some? && end - start.value >= MsPerDay ==>
      r * MsPerDay <= end - start.value < (r + 1) * MsPerDay
    ensures start.Some? && end - start.value < 2 * MsPerDay ==> r == 1
  {
    if start.None? then 1
    else
      var days := (end - start.value) / MsPerDay;
      if days < 1 then 1 else days
  }

  /** The cases the source's tests exercise: five days apart, the same
      instant, and an invalid start. */
  lemma DaysBetweenExamples(t: int, end: int)
    ensures DaysBetween(Some(t), t + 5 * MsPerDay) == 5
    ensures DaysBetween(Some(t), t) == 1
    ensures DaysBetween(None, end) == 1
  {
  }

  /** A multiple of one hundredth. */
  predicate IsHundredths(x: real) {
    (x * 100.0).Floor as real == x * 100.0
  }

  /** `calculateRunsPerDay(runs, days)`: 0 when either is 0, otherwise
      `runs / days` rounded to the nearest hundredth, halves rounding up. */
  function RunsPerDay(runs: real, days: real): (r: real)
    ensures runs == 0.0 || days == 0.0 ==> r == 0.0
    ensures runs != 0.0 && days != 0.0 ==>
      IsHundredths(r) && r - 0.005 <= runs / days < r + 0.005
  {
    if runs == 0.0 || days == 0.0 then 0.0
    else Round(runs / days * 100.0) as real / 100.0
  }

  /** The cases the source's tests exercise. */
  lemma RunsPerDayExamples()
    ensures RunsPerDay(100.0, 5.0) == 20.0
    ensures RunsPerDay(100.0, 3.0) == 33.33
    ensures RunsPerDay(0.0, 5.0) == 0.0 && RunsPerDay(100.0, 0.0) == 0.0
  {
  }

  /** `calculateTotalRuns(items)`: the left-to-right sum of the run counts,
      a missing count reading as 0. */
  function TotalRuns(items: seq<Obj>): (r: real)
    ensures |items| == 0 ==> r == 0.0
    ensures |items| == 1 ==> r == RunsOf(items[0])
    ensures (forall i :: 0 <= i < |items| ==> RunsOf(items[i]) >= 0.0) ==> r >= 0.0
  {
    if |items| == 0 then 0.0
    else TotalRuns(items[..|items| - 1]) + RunsOf(items[|items| - 1])
  }

  /** The sum of the run counts taken from the front, a reference
      definition independent of the order of `reduce`. */
  function SumRuns(items: seq<Obj>): real {
    if |items| == 0 then 0.0 else RunsOf(items[0]) + SumRuns(items[1..])
  }

  /** `calculateTotalRuns` is the sum of the run counts. */
  lemma {:induction false} TotalRunsIsSum(items: seq<Obj>)
    ensures TotalRuns(items) == SumRuns(items)
  {
    if |items| > 0 {
      assert items == [items[0]] + items[1..];
      TotalRunsConcat([items[0]], items[1..]);
      TotalRunsIsSum(items[1..]);
    }
  }

  /** The total of two lists placed end to end is the sum of their totals. */
  lemma {:induction false} TotalRunsConcat(a: seq<Obj>, b: seq<Obj>)
    ensures TotalRuns(a + b) == TotalRuns(a) + TotalRuns(b)
    decreases |b|
  {
    if |b| > 0 {
      var b' := b[..|b| - 1];
      assert (a + b)[..|a + b| - 1] == a + b';
      TotalRunsConcat(a, b');
    } else {
      assert a + b == a;
    }
  }

  /** One step of the `reduce` that finds the earliest date: a date
      replaces the running one only when both are valid and it is earlier. */
  function Earlier(earliest: Option<int>, date: Option<int>): Option<int> {
    if date.Some? && earliest.Some? && date.value < earliest.value then date else earliest
  }

  /** The `reduce` over `items` from the running date `earliest`. */
  function EarliestFrom(earliest: Option<int>, items: seq<Obj>, timeOf: Obj -> Option<int>): (r: Option<int>)
    ensures earliest.None? ==> r.None?
    ensures earliest.Some? ==> r.Some? && r.value <= earliest.value
    ensures earliest.Some? ==> forall i :: 0 <= i < |items| && timeOf(items[i]).Some? ==> r.value <= timeOf(items[i]).value
    ensures r == earliest || exists i :: 0 <= i < |items| && timeOf(items[i]) == r
    decreases |items|
  {
    if |items| == 0 then earliest
    else
      var r := EarliestFrom(Earlier(earliest, timeOf(items[0])), items[1..], timeOf);
      assert forall i :: 0 < i < |items| ==> items[i] == items[1..][i - 1];
      assert r != Earlier(earliest, timeOf(items[0])) ==> exists i :: 0 <= i < |items| && timeOf(items[i]) == r by {
        if r != Earlier(earliest, timeOf(items[0])) {
          var i :| 0 <= i < |items[1..]| && timeOf(items[1..][i]) == r;
          assert timeOf(items[i + 1]) == r;
        }
      }
      r
  }

  /** `calculatePlayerRunsPerDay(items)`: 0 for no items; otherwise the
      total runs per day since the earliest creation date. An invalid first
      date makes the earliest date invalid, which counts as one day. */
  function PlayerRunsPerDay(items: seq<Obj>, timeOf: Obj -> Option<int>, now: int): (r: real)
    ensures |items| == 0 ==> r == 0.0
    ensures |items| > 0 && timeOf(items[0]).Some? ==>
      exists i :: (0 <= i < |items| && timeOf(items[i]).Some?
        && (forall j :: 0 <= j < |items| && timeOf(items[j]).Some? ==> timeOf(items[i]).value <= timeOf(items[j]).value)
        && r == RunsPerDay(TotalRuns(items), DaysBetween(timeOf(items[i]), now) as real))
    ensures |items| > 0 && timeOf(items[0]).None? ==> r == RunsPerDay(TotalRuns(items), 1.0)
  {
    if |items| == 0 then 0.0
    else
      var earliest := EarliestFrom(timeOf(items[0]), items, timeOf);
      RunsPerDay(TotalRuns(items), DaysBetween(earliest, now) as real)
  }
}
