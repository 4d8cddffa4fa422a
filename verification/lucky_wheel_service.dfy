/**
  Prize-table helpers and spin analytics of the lucky-wheel service (luckyWheelService.ts):
  the probability check, the cumulative distribution, per-prize percentages and the daily spin
  counts. Probabilities and percentages are exact reals.
*/
module LuckyWheelService {

  datatype Prize = Prize(prizeName: string, probability: real)

  datatype DistributionEntry = DistributionEntry(prize: Prize, cumulativeProbability: real)

  /** `prizes.reduce((sum, prize) => sum + prize.probability, 0)`. */
  function Total(prizes: seq<Prize>): (total: real)
    ensures NonNegative(prizes) ==> total >= 0.0
  {
    if prizes == [] then 0.0 else Total(prizes[..|prizes| - 1]) + prizes[|prizes| - 1].probability
  }

  /** The total of a concatenation is the sum of the totals. */
  lemma {:induction false} TotalAppend(a: seq<Prize>, b: seq<Prize>)
    ensures Total(a + b) == Total(a) + Total(b)
    decreases |b|
  {
    if b != [] {
      assert (a + b)[..|a + b| - 1] == a + b[..|b| - 1];
      TotalAppend(a, b[..|b| - 1]);
    } else {
      assert a + b == a;
    }
  }

  predicate NonNegative(prizes: seq<Prize>) {
    forall k :: 0 <= k < |prizes| ==> prizes[k].probability >= 0.0
  }

  /** With non-negative probabilities, a longer prefix never has a smaller total. */
  lemma {:induction false} PrefixTotalMonotone(prizes: seq<Prize>, j: nat, k: nat)
    requires NonNegative(prizes) && j <= k <= |prizes|
    ensures Total(prizes[..j]) <= Total(prizes[..k])
    decreases k - j
  {
    if j < k {
      PrefixTotalMonotone(prizes, j, k - 1);
      assert prizes[..k][..k - 1] == prizes[..k - 1];
    }
  }

  /**
    `validatePrizeProbability`: the probabilities add up to 100 within a tolerance of 0.01;
    an empty table (total 0) is rejected.
  */
  function ValidatePrizeProbability(prizes: seq<Prize>): (ok: bool)
    ensures ok <==> 99.99 < Total(prizes) < 100.01
    ensures prizes == [] ==> !ok
  {
    var totalProbability := Total(prizes);
    var diff := totalProbability - 100.0;
    (if diff < 0.0 then -diff else diff) < 0.01
  }

  /** One more prize in the prefix adds its probability to the running total. */
  lemma TotalOfLongerPrefix(prizes: seq<Prize>, i: nat)
    requires i < |prizes|
    ensures Total(prizes[..i + 1]) == Total(prizes[..i]) + prizes[i].probability
  {
    assert prizes[..i + 1][..i] == prizes[..i];
  }

  /** The first n entries pair each prize with the total of the probabilities up to it. */
  predicate RunningTotals(prizes: seq<Prize>, dist: seq<DistributionEntry>, n: nat)
    requires n <= |prizes|
  {
    |dist| == n &&
    forall k :: 0 <= k < n ==>
      dist[k].prize == prizes[k] && dist[k].cumulativeProbability == Total(prizes[..k + 1])
  }

  /** Appending the next prize with its running total keeps the table right. */
  lemma RunningTotalsExtend(prizes: seq<Prize>, dist: seq<DistributionEntry>, i: nat)
    requires i < |prizes| && RunningTotals(prizes, dist, i)
    ensures RunningTotals(prizes, dist + [DistributionEntry(prizes[i], Total(prizes[..i + 1]))], i + 1)
  {
  }

  /**
    `calculatePrizeDistribution`: one entry per prize, in order, carrying the prize and the
    running total of the probabilities up to and including it.
  */
  method CalculatePrizeDistribution(prizes: seq<Prize>) returns (dist: seq<DistributionEntry>)
    ensures |dist| == |prizes|
    ensures forall k :: 0 <= k < |prizes| ==>
      dist[k].prize == prizes[k] && dist[k].cumulativeProbability == Total(prizes[..k + 1])
    ensures prizes != [] ==> dist[|prizes| - 1].cumulativeProbability == Total(prizes)
  {
    var cumulativeProbability := 0.0;
    dist := [];
    for i := 0 to |prizes|
      invariant cumulativeProbability == Total(prizes[..i])
      invariant RunningTotals(prizes, dist, i)
    {
      TotalOfLongerPrefix(prizes, i);
      RunningTotalsExtend(prizes, dist, i);
      cumulativeProbability := cumulativeProbability + prizes[i].probability;
      dist := dist + [DistributionEntry(prizes[i], cumulativeProbability)];
    }
    assert prizes[..|prizes|] == prizes;
  }

  /** With non-negative probabilities the cumulative column never decreases. */
  lemma CumulativeNonDecreasing(prizes: seq<Prize>, j: nat, k: nat)
    requires NonNegative(prizes) && j <= k < |prizes|
    ensures Total(prizes[..j + 1]) <= Total(prizes[..k + 1])
  {
    PrefixTotalMonotone(prizes, j + 1, k + 1);
  }

  /** A table that passes the check ends its cumulative column within 0.01 of 100. */
  lemma ValidatedTableEndsNear100(prizes: seq<Prize>)
    requires ValidatePrizeProbability(prizes)
    ensures prizes != []
    ensures 99.99 < Total(prizes[..|prizes|]) < 100.01
  {
    assert prizes[..|prizes|] == prizes;
  }

  // ---------------------------------------------------------------------------
  // Analytics (`getWheelAnalytics`, lines 186-204)
  // ---------------------------------------------------------------------------

  /** One row of the server's per-prize statistics (`_id` is the prize name). */
  datatype PrizeStat = PrizeStat(id: string, count: int)

  datatype PrizeShare = PrizeShare(prizeName: string, count: int, percentage: real)

  /** `totalSpins > 0 ? (count / totalSpins) * 100 : 0`. */
  function Percentage(count: int, totalSpins: int): (p: real)
    ensures totalSpins > 0 ==> p * totalSpins as real == 100.0 * count as real
    ensures totalSpins <= 0 ==> p == 0.0
    ensures 0 <= count <= totalSpins ==> 0.0 <= p <= 100.0
  {
    if totalSpins > 0 then (count as real / totalSpins as real) * 100.0 else 0.0
  }

  /** `prizeStats.map(...)`: one share per statistic, in order. */
  function PrizeDistribution(stats: seq<PrizeStat>, totalSpins: int): (shares: seq<PrizeShare>)
    ensures |shares| == |stats|
    ensures forall k :: 0 <= k < |stats| ==>
      shares[k] == PrizeShare(stats[k].id, stats[k].count, Percentage(stats[k].count, totalSpins))
  {
    if stats == [] then []
    else
      [PrizeShare(stats[0].id, stats[0].count, Percentage(stats[0].count, totalSpins))]
      + PrizeDistribution(stats[1..], totalSpins)
  }

  function StatCount(stats: seq<PrizeStat>): int {
    if stats == [] then 0 else stats[0].count + StatCount(stats[1..])
  }

  function SharePercent(shares: seq<PrizeShare>): real {
    if shares == [] then 0.0 else shares[0].percentage + SharePercent(shares[1..])
  }

  /** The percentages scale the counts: their sum is 100 * (sum of counts) / totalSpins. */
  lemma {:induction false} SharePercentScales(stats: seq<PrizeStat>, totalSpins: int)
    requires totalSpins > 0
    ensures SharePercent(PrizeDistribution(stats, totalSpins)) * totalSpins as real
      == 100.0 * StatCount(stats) as real
  {
    if stats != [] {
      var shares := PrizeDistribution(stats, totalSpins);
      assert shares[1..] == PrizeDistribution(stats[1..], totalSpins);
      SharePercentScales(stats[1..], totalSpins);
      var p := shares[0].percentage;
      var rest := SharePercent(shares[1..]);
      assert (p + rest) * totalSpins as real == p * totalSpins as real + rest * totalSpins as real;
    }
  }

  /** When every spin is counted under some prize, the percentages add up to 100. */
  lemma SharesSumTo100(stats: seq<PrizeStat>, totalSpins: int)
    requires totalSpins > 0 && StatCount(stats) == totalSpins
    ensures SharePercent(PrizeDistribution(stats, totalSpins)) == 100.0
  {
    SharePercentScales(stats, totalSpins);
    var s := SharePercent(PrizeDistribution(stats, totalSpins));
    assert (s - 100.0) * totalSpins as real == 0.0;
  }

  // ---------------------------------------------------------------------------
  // Daily spin counts
  // ---------------------------------------------------------------------------

  /** One row of `dailySpins`. The date is the ISO day key "YYYY-MM-DD". */
  datatype DayCount = DayCount(date: string, count: nat)

  /**
    String order used by the final sort. On ISO day keys (digits and dashes of equal length)
    `localeCompare` agrees with this code-point order.
  */
  predicate Before(a: string, b: string) {
    if a == [] then b != []
    else if b == [] then false
    else if a[0] != b[0] then a[0] < b[0]
    else Before(a[1..], b[1..])
  }

  lemma {:induction false} BeforeIrreflexive(a: string)
    ensures !Before(a, a)
  {
    if a != [] { BeforeIrreflexive(a[1..]); }
  }

  lemma {:induction false} BeforeTotal(a: string, b: string)
    requires a != b
    ensures Before(a, b) || Before(b, a)
  {
    if a != [] && b != [] && a[0] == b[0] {
      assert a == [a[0]] + a[1..] && b == [b[0]] + b[1..];
      BeforeTotal(a[1..], b[1..]);
    }
  }

  lemma {:induction false} BeforeAsymmetric(a: string, b: string)
    requires Before(a, b)
    ensures !Before(b, a)
  {
    if a != [] && b != [] && a[0] == b[0] { BeforeAsymmetric(a[1..], b[1..]); }
  }

  lemma {:induction false} BeforeTransitive(a: string, b: string, c: string)
    requires Before(a, b) && Before(b, c)
    ensures Before(a, c)
  {
    if a != [] && b != [] && c != [] && a[0] == b[0] && b[0] == c[0] {
      BeforeTransitive(a[1..], b[1..], c[1..]);
    }
  }

  /** Strictly ascending by date (so no date appears twice). */
  predicate SortedByDate(s: seq<DayCount>) {
    forall i, j :: 0 <= i < j < |s| ==> Before(s[i].date, s[j].date)
  }

  predicate HasDate(s: seq<DayCount>, d: string) {
    exists k :: 0 <= k < |s| && s[k].date == d
  }

  function SumCounts(s: seq<DayCount>): nat {
    if s == [] then 0 else s[0].count + SumCounts(s[1..])
  }

  /** Replacing one row changes the sum by the difference of the counts. */
  lemma {:induction false} SumCountsUpdate(s: seq<DayCount>, k: nat, e: DayCount)
    requires k < |s|
    ensures SumCounts(s[k := e]) == SumCounts(s) - s[k].count + e.count
  {
    if k > 0 {
      assert s[k := e][1..] == s[1..][k - 1 := e];
      SumCountsUpdate(s[1..], k - 1, e);
    }
  }

  lemma {:induction false} SumCountsAppend(s: seq<DayCount>, e: DayCount)
    ensures SumCounts(s + [e]) == SumCounts(s) + e.count
  {
    if s != [] {
      assert (s + [e])[1..] == s[1..] + [e];
      SumCountsAppend(s[1..], e);
    }
  }

  lemma SumCountsCons(y: DayCount, rest: seq<DayCount>)
    ensures SumCounts([y] + rest) == y.count + SumCounts(rest)
  {
    assert ([y] + rest)[1..] == rest;
  }

  /** A row dated before every row of a sorted list can go in front of it. */
  lemma PrependSorted(y: DayCount, rest: seq<DayCount>)
    requires SortedByDate(rest)
    requires forall e :: e in rest ==> Before(y.date, e.date)
    ensures SortedByDate([y] + rest)
  {
    var r := [y] + rest;
    forall i, j | 0 <= i < j < |r| ensures Before(r[i].date, r[j].date) {
      assert r[j] == rest[j - 1];
      if i > 0 { assert r[i] == rest[i - 1]; }
    }
  }

  /** The tail of a sorted list is sorted, comes after its head, and lacks any date the list lacks. */
  lemma TailOfSorted(s: seq<DayCount>, d: string)
    requires s != [] && SortedByDate(s) && !HasDate(s, d)
    ensures SortedByDate(s[1..]) && !HasDate(s[1..], d)
    ensures forall e :: e in s[1..] ==> Before(s[0].date, e.date)
  {
    forall k | 0 <= k < |s[1..]| ensures s[1..][k].date != d && Before(s[0].date, s[1..][k].date) {
      assert s[1..][k] == s[k + 1];
    }
  }

  /** Inserts a row with a new date into a list sorted by date, keeping it sorted. */
  function Insert(s: seq<DayCount>, x: DayCount): (r: seq<DayCount>)
    requires SortedByDate(s) && !HasDate(s, x.date)
    ensures |r| == |s| + 1
    ensures forall e :: e in r <==> e == x || e in s
    ensures SortedByDate(r)
    ensures SumCounts(r) == SumCounts(s) + x.count
  {
    if s == [] then [x]
    else
      TailOfSorted(s, x.date);
      SumCountsCons(s[0], s[1..]);
      assert s == [s[0]] + s[1..];
      if Before(x.date, s[0].date) then
        forall e | e in s ensures Before(x.date, e.date) {
          if e != s[0] { BeforeTransitive(x.date, s[0].date, e.date); }
        }
        PrependSorted(x, s);
        SumCountsCons(x, s);
        [x] + s
      else
        var rest := Insert(s[1..], x);
        BeforeTotal(x.date, s[0].date);
        PrependSorted(s[0], rest);
        SumCountsCons(s[0], rest);
        [s[0]] + rest
  }

  /** The Map of counts after the dates seen so far, as its rows in insertion order. */
  ghost predicate CountsMatch(entries: seq<DayCount>, seen: seq<string>) {
    && (forall i, j :: 0 <= i < j < |entries| ==> entries[i].date != entries[j].date)
    && (forall d :: d in seen <==> HasDate(entries, d))
    && (forall k :: 0 <= k < |entries| ==> entries[k].count == multiset(seen)[entries[k].date])
    && SumCounts(entries) == |seen|
  }

  /** The row position of d in a list with distinct dates, or -1. */
  function FindDate(entries: seq<DayCount>, d: string): (k: int)
    ensures -1 <= k < |entries|
    ensures k >= 0 ==> entries[k].date == d
    ensures k == -1 ==> !HasDate(entries, d)
  {
    if entries == [] then -1
    else if entries[0].date == d then 0
    else
      var k := FindDate(entries[1..], d);
      assert forall j :: 1 <= j < |entries| ==> entries[j] == entries[1..][j - 1];
      if k == -1 then -1 else k + 1
  }

  /**
    `dailySpinsMap` after the `forEach`: the rows of a Map from day key to count, in the
    order the keys were first seen.
  */
  method CountByDay(dates: seq<string>) returns (entries: seq<DayCount>)
    ensures CountsMatch(entries, dates)
  {
    entries := [];
    for i := 0 to |dates|
      invariant CountsMatch(entries, dates[..i])
    {
      var date := dates[i];
      assert dates[..i + 1] == dates[..i] + [date];
      var k := FindDate(entries, date);
      if k >= 0 {
        CountStepSeen(entries, dates[..i], k);
        entries := entries[k := DayCount(date, entries[k].count + 1)];
      } else {
        CountStepNew(entries, dates[..i], date);
        entries := entries + [DayCount(date, 1)];
      }
    }
    assert dates[..|dates|] == dates;
  }

  /** A day already in the Map: its count goes up by one. */
  lemma CountStepSeen(entries: seq<DayCount>, seen: seq<string>, k: nat)
    requires CountsMatch(entries, seen) && k < |entries|
    ensures CountsMatch(entries[k := DayCount(entries[k].date, entries[k].count + 1)], seen + [entries[k].date])
  {
    var date := entries[k].date;
    var after := entries[k := DayCount(date, entries[k].count + 1)];
    var seen' := seen + [date];
    assert multiset(seen') == multiset(seen) + multiset{date};
    SumCountsUpdate(entries, k, DayCount(date, entries[k].count + 1));
    forall d ensures HasDate(after, d) <==> HasDate(entries, d) {
      if HasDate(entries, d) {
        var j :| 0 <= j < |entries| && entries[j].date == d;
        assert after[j].date == d;
      }
      if HasDate(after, d) {
        var j :| 0 <= j < |after| && after[j].date == d;
        assert entries[j].date == d;
      }
    }
    assert forall d :: d in seen' <==> d in seen || d == date;
  }

  /** A day not yet in the Map: it is added at the end with a count of one. */
  lemma CountStepNew(entries: seq<DayCount>, seen: seq<string>, date: string)
    requires CountsMatch(entries, seen) && !HasDate(entries, date)
    ensures CountsMatch(entries + [DayCount(date, 1)], seen + [date])
  {
    var after := entries + [DayCount(date, 1)];
    var seen' := seen + [date];
    assert multiset(seen') == multiset(seen) + multiset{date};
    assert date !in seen;
    SumCountsAppend(entries, DayCount(date, 1));
    forall d ensures HasDate(after, d) <==> HasDate(entries, d) || d == date {
      if HasDate(entries, d) {
        var j :| 0 <= j < |entries| && entries[j].date == d;
        assert after[j].date == d;
      }
      assert after[|entries|].date == date;
    }
    assert forall d :: d in seen' <==> d in seen || d == date;
    forall i, j | 0 <= i < j < |after| ensures after[i].date != after[j].date {
      if j == |entries| { assert entries[i].date != date; }
    }
  }

  /** `.sort((a, b) => a.date.localeCompare(b.date))` on rows with distinct dates. */
  method SortByDate(entries: seq<DayCount>) returns (sorted: seq<DayCount>)
    requires forall i, j :: 0 <= i < j < |entries| ==> entries[i].date != entries[j].date
    ensures SortedByDate(sorted)
    ensures forall e :: e in sorted <==> e in entries
    ensures SumCounts(sorted) == SumCounts(entries)
  {
    sorted := [];
    for i := 0 to |entries|
      invariant SortedByDate(sorted)
      invariant forall e :: e in sorted <==> e in entries[..i]
      invariant SumCounts(sorted) == SumCounts(entries[..i])
    {
      assert entries[..i + 1] == entries[..i] + [entries[i]];
      SumCountsAppend(entries[..i], entries[i]);
      assert !HasDate(sorted, entries[i].date) by {
        forall k | 0 <= k < |sorted| ensures sorted[k].date != entries[i].date {
          assert sorted[k] in entries[..i];
        }
      }
      sorted := Insert(sorted, entries[i]);
    }
    assert entries[..|entries|] == entries;
  }

  /**
    The daily-count part of `getWheelAnalytics`, over the day keys of the spin history: one row
    per distinct day, in ascending order, each with the number of spins on that day; the counts
    add up to the number of spins.
  */
  method DailySpins(dates: seq<string>) returns (daily: seq<DayCount>)
    ensures SortedByDate(daily)
    ensures forall d :: d in dates <==> HasDate(daily, d)
    ensures forall k :: 0 <= k < |daily| ==> daily[k].count == multiset(dates)[daily[k].date]
    ensures SumCounts(daily) == |dates|
  {
    var entries := CountByDay(dates);
    daily := SortByDate(entries);
    forall k | 0 <= k < |daily| ensures daily[k].count == multiset(dates)[daily[k].date] {
      assert daily[k] in entries;
    }
    forall d ensures d in dates <==> HasDate(daily, d) {
      if HasDate(daily, d) {
        var k :| 0 <= k < |daily| && daily[k].date == d;
        assert daily[k] in entries;
      }
      if d in dates {
        var k :| 0 <= k < |entries| && entries[k].date == d;
        assert entries[k] in daily;
      }
    }
  }
}
