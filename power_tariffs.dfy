/** Power (demand) tariffs: `calculate_power_tariffs` in app.py. Each enabled
    tariff keeps the readings of its months and hours, takes the largest
    usage of every remaining day, and charges the sum of the `top_n` largest
    of those daily peaks times its rate. */
module PowerTariffs {
  import opened Readings
  import opened Peaks

  /** One tariff as the form assembles it. An empty `months` or `hours` list
      means no restriction on that axis. */
  datatype Tariff = Tariff(enabled: bool, topN: nat, rate: real, months: seq<int>, hours: seq<int>)

  /** One entry of the peak-hours list: the timestamp of the reading that set a
      selected daily peak, that peak, the tariff's 1-based number (the source
      labels it "Tariff {number}") and the tariff's rate. */
  datatype PeakHour = PeakHour(at: Timestamp, usage: real, tariffNumber: nat, rate: real)

  /** The month mask and the hour mask of a tariff, applied to one reading. */
  predicate Applies(t: Tariff, r: Reading)
  {
    (t.months == [] || r.at.date.month in t.months)
    && (t.hours == [] || r.at.hour in t.hours)
  }

  /** The readings a tariff looks at, in their original order. */
  function Filter(rs: seq<Reading>, t: Tariff): (f: seq<Reading>)
    ensures |f| <= |rs|
    ensures forall r :: r in f <==> r in rs && Applies(t, r)
  {
    if rs == [] then []
    else
      assert rs == [rs[0]] + rs[1..];
      if Applies(t, rs[0]) then [rs[0]] + Filter(rs[1..], t) else Filter(rs[1..], t)
  }

  /** The daily peaks a tariff is charged on. */
  function SelectedPeaks(rs: seq<Reading>, t: Tariff): seq<DayPeak>
  {
    TopPeaks(DailyPeaks(Filter(rs, t)), t.topN)
  }

  /** The charge for a list of selected peaks: the peaks are summed (not
      averaged) and the sum is multiplied by the rate. */
  function Charge(top: seq<DayPeak>, rate: real): real
  {
    SumPeaks(top) * rate
  }

  /** What one tariff adds to the total power-tariff cost. */
  function TariffCost(rs: seq<Reading>, t: Tariff): real
  {
    if !t.enabled then 0.0
    else
      var f := Filter(rs, t);
      if f == [] then 0.0 else Charge(TopPeaks(DailyPeaks(f), t.topN), t.rate)
  }

  /** Reading `r` is one that sets the daily peak `p`. */
  predicate Sets(r: Reading, p: DayPeak)
  {
    r.at.date == p.date && r.usage == p.peak
  }

  predicate Attained(f: seq<Reading>, p: DayPeak)
  {
    exists r :: r in f && Sets(r, p)
  }

  /** The first position of the mask "same date and usage equal to the
      peak" (`.iloc[0]` in the source). */
  function FirstPeakReading(f: seq<Reading>, p: DayPeak): (k: nat)
    requires Attained(f, p)
    ensures k < |f| && Sets(f[k], p)
    ensures forall j :: 0 <= j < k ==> !Sets(f[j], p)
  {
    if Sets(f[0], p) then 0
    else
      assert f == [f[0]] + f[1..];
      1 + FirstPeakReading(f[1..], p)
  }

  /** The peak-hours entries of a list of selected peaks, in selection order. */
  function PeakEntries(f: seq<Reading>, top: seq<DayPeak>, number: nat, rate: real): (es: seq<PeakHour>)
    requires forall p :: p in top ==> Attained(f, p)
    ensures |es| == |top|
    ensures forall e :: e in es ==> e.tariffNumber == number && e.rate == rate
  {
    if top == [] then []
    else
      var p := top[|top| - 1];
      PeakEntries(f, top[..|top| - 1], number, rate)
      + [PeakHour(f[FirstPeakReading(f, p)].at, p.peak, number, rate)]
  }

  /** Every selected daily peak is attained by some filtered reading. */
  lemma SelectedPeaksAttained(f: seq<Reading>, n: nat)
    ensures forall p :: p in TopPeaks(DailyPeaks(f), n) ==> Attained(f, p)
  {
    DailyPeaksIsPeakTable(f);
    var top := TopPeaks(DailyPeaks(f), n);
    forall p | p in top
      ensures Attained(f, p)
    {
      var i :| 0 <= i < |top| && top[i] == p;
      assert p in DailyPeaks(f);
      assert PeakOf(f, p.date, p.peak);
    }
  }

  /** The peak-hours entries one tariff contributes. */
  function TariffPeakHours(rs: seq<Reading>, t: Tariff, number: nat): seq<PeakHour>
  {
    if !t.enabled then []
    else
      var f := Filter(rs, t);
      if f == [] then []
      else
        SelectedPeaksAttained(f, t.topN);
        PeakEntries(f, TopPeaks(DailyPeaks(f), t.topN), number, t.rate)
  }

  /** `total_tariff_cost` after the loop has seen the tariffs `ts`. */
  function TotalTariffCost(rs: seq<Reading>, ts: seq<Tariff>): real
  {
    if ts == [] then 0.0
    else TotalTariffCost(rs, ts[..|ts| - 1]) + TariffCost(rs, ts[|ts| - 1])
  }

  /** `peak_hours_info` after the loop has seen the tariffs `ts`. */
  function AllPeakHours(rs: seq<Reading>, ts: seq<Tariff>): seq<PeakHour>
  {
    if ts == [] then []
    else AllPeakHours(rs, ts[..|ts| - 1]) + TariffPeakHours(rs, ts[|ts| - 1], |ts|)
  }

  /** An enabled tariff that keeps some reading is charged on its selected
      peaks and contributes one entry per selected peak. */
  lemma AppliedTariff(rs: seq<Reading>, t: Tariff, number: nat)
    requires t.enabled && Filter(rs, t) != []
    ensures TariffCost(rs, t) == Charge(SelectedPeaks(rs, t), t.rate)
    ensures forall p :: p in SelectedPeaks(rs, t) ==> Attained(Filter(rs, t), p)
    ensures TariffPeakHours(rs, t, number) == PeakEntries(Filter(rs, t), SelectedPeaks(rs, t), number, t.rate)
  {
    SelectedPeaksAttained(Filter(rs, t), t.topN);
  }

  /** A tariff that is disabled, or keeps no reading, adds nothing. */
  lemma SkippedTariff(rs: seq<Reading>, t: Tariff, number: nat)
    requires !t.enabled || Filter(rs, t) == []
    ensures TariffCost(rs, t) == 0.0 && TariffPeakHours(rs, t, number) == []
  {
  }

  lemma TariffStep(rs: seq<Reading>, ts: seq<Tariff>, i: nat)
    requires i < |ts|
    ensures TotalTariffCost(rs, ts[..i + 1]) == TotalTariffCost(rs, ts[..i]) + TariffCost(rs, ts[i])
    ensures AllPeakHours(rs, ts[..i + 1]) == AllPeakHours(rs, ts[..i]) + TariffPeakHours(rs, ts[i], i + 1)
  {
    assert ts[..i + 1][..i] == ts[..i];
  }

  lemma PeakEntriesStep(f: seq<Reading>, top: seq<DayPeak>, j: nat, number: nat, rate: real)
    requires j < |top|
    requires forall p :: p in top ==> Attained(f, p)
    ensures forall p :: p in top[..j] ==> Attained(f, p)
    ensures PeakEntries(f, top[..j + 1], number, rate)
      == PeakEntries(f, top[..j], number, rate) + [PeakHour(f[FirstPeakReading(f, top[j])].at, top[j].peak, number, rate)]
  {
    assert top[..j + 1][..j] == top[..j];
  }

  /** The inner loop of `calculate_power_tariffs`: one entry per selected
      peak, located at the first filtered reading that sets it. */
  method PeakHoursOf(filtered: seq<Reading>, topPeaks: seq<DayPeak>, number: nat, rate: real)
    returns (entries: seq<PeakHour>)
    requires forall p :: p in topPeaks ==> Attained(filtered, p)
    ensures entries == PeakEntries(filtered, topPeaks, number, rate)
  {
    entries := [];
    for j := 0 to |topPeaks|
      invariant entries == PeakEntries(filtered, topPeaks[..j], number, rate)
    {
      PeakEntriesStep(filtered, topPeaks, j, number, rate);
      var peak := topPeaks[j];
      var k := FirstPeakReading(filtered, peak);
      entries := entries + [PeakHour(filtered[k].at, peak.peak, number, rate)];
    }
    assert topPeaks[..|topPeaks|] == topPeaks;
  }

  /** The loop of `calculate_power_tariffs`: skip disabled tariffs and
      tariffs that keep no reading, add each other tariff's cost, and append
      one peak-hours entry per selected daily peak. */
  method CalculatePowerTariffs(readings: seq<Reading>, tariffs: seq<Tariff>)
    returns (totalTariffCost: real, peakHoursInfo: seq<PeakHour>)
    ensures totalTariffCost == TotalTariffCost(readings, tariffs)
    ensures peakHoursInfo == AllPeakHours(readings, tariffs)
  {
    totalTariffCost := 0.0;
    peakHoursInfo := [];
    for i := 0 to |tariffs|
      invariant totalTariffCost == TotalTariffCost(readings, tariffs[..i])
      invariant peakHoursInfo == AllPeakHours(readings, tariffs[..i])
    {
      var tariff := tariffs[i];
      TariffStep(readings, tariffs, i);
      if !tariff.enabled {
        SkippedTariff(readings, tariff, i + 1);
        continue;
      }
      var filtered := Filter(readings, tariff);
      if filtered == [] {
        SkippedTariff(readings, tariff, i + 1);
        continue;
      }
      var dailyPeaks := DailyPeaks(filtered);
      var topPeaks := TopPeaks(dailyPeaks, tariff.topN);
      AppliedTariff(readings, tariff, i + 1);
      var tariffCost := Charge(topPeaks, tariff.rate);
      totalTariffCost := totalTariffCost + tariffCost;
      var entries := PeakHoursOf(filtered, topPeaks, i + 1, tariff.rate);
      peakHoursInfo := peakHoursInfo + entries;
    }
    assert tariffs[..|tariffs|] == tariffs;
  }
}

/** What the power-tariff computation promises, stated over the readings. */
module PowerTariffProperties {
  import opened Readings
  import opened Peaks
  import opened PowerTariffs
  import opened Sequences

  /** Each selected peak is the maximum usage of its date among the kept readings. */
  lemma SelectedPeaksArePeaks(rs: seq<Reading>, t: Tariff)
    ensures forall p :: p in SelectedPeaks(rs, t) ==> PeakOf(Filter(rs, t), p.date, p.peak)
  {
    var f := Filter(rs, t);
    var table := DailyPeaks(f);
    var top := SelectedPeaks(rs, t);
    DailyPeaksIsPeakTable(f);
    forall p | p in top
      ensures PeakOf(f, p.date, p.peak)
    {
      var i :| 0 <= i < |top| && top[i] == p;
      assert p in table;
    }
  }

  /** No kept reading on a day that was not selected exceeds any selected peak. */
  lemma SelectedPeaksLargest(rs: seq<Reading>, t: Tariff)
    ensures var top := SelectedPeaks(rs, t);
      forall p, r :: p in top && r in Filter(rs, t) && r.at.date !in TableDates(top) ==> r.usage <= p.peak
  {
    var f := Filter(rs, t);
    var table := DailyPeaks(f);
    var top := SelectedPeaks(rs, t);
    DailyPeaksIsPeakTable(f);
    TopPeaksDominate(table, t.topN);
    forall p, r | p in top && r in f && r.at.date !in TableDates(top)
      ensures r.usage <= p.peak
    {
      var d := r.at.date;
      assert d in DatesOf(f);
      assert d in TableDates(table);
      var e :| e in table && e.date == d;
      assert PeakOf(f, d, e.peak);
      assert e !in top;
      DominatesRow(top, table, p, e);
    }
  }

  /** An enabled tariff is charged the rate times the sum of its selected
      peaks; it selects `top_n` days, or every day when fewer days remain,
      in non-increasing order of peak; each selected value is the maximum of
      its day, and no reading on a day left out exceeds any selected peak. */
  lemma TariffCharge(rs: seq<Reading>, t: Tariff)
    requires t.enabled
    ensures var f := Filter(rs, t);
      var top := SelectedPeaks(rs, t);
      && TariffCost(rs, t) == Charge(top, t.rate)
      && |top| == Min(t.topN, |DatesOf(f)|)
      && DistinctDates(top) && |TableDates(top)| == |top|
      && NonIncreasing(top)
      && (forall p :: p in top ==> PeakOf(f, p.date, p.peak))
      && (forall p, r :: p in top && r in f && r.at.date !in TableDates(top) ==> r.usage <= p.peak)
  {
    var f := Filter(rs, t);
    var table := DailyPeaks(f);
    DailyPeaksIsPeakTable(f);
    DistinctTableSize(table);
    TopPeaksDistinctDates(table, t.topN);
    DistinctTableSize(SelectedPeaks(rs, t));
    TopPeaksNonIncreasing(table, t.topN);
    SelectedPeaksArePeaks(rs, t);
    SelectedPeaksLargest(rs, t);
  }

  /** When `top_n` reaches the number of days left after filtering, every
      day's peak is charged. */
  lemma AllDaysCharged(rs: seq<Reading>, t: Tariff)
    requires t.enabled && t.topN >= |DatesOf(Filter(rs, t))|
    ensures TariffCost(rs, t) == Charge(DailyPeaks(Filter(rs, t)), t.rate)
  {
    var f := Filter(rs, t);
    var table := DailyPeaks(f);
    if f != [] {
      AppliedTariff(rs, t, 0);
      DailyPeaksIsPeakTable(f);
      DistinctTableSize(table);
      TopPeaksSaturates(table, t.topN);
      SumPeaksPermutation(TopPeaks(table, t.topN), table);
      ChargeOfEqualSums(TopPeaks(table, t.topN), table, t.rate);
    }
  }

  lemma ChargeOfEqualSums(a: seq<DayPeak>, b: seq<DayPeak>, rate: real)
    requires SumPeaks(a) == SumPeaks(b)
    ensures Charge(a, rate) == Charge(b, rate)
  {
  }

  /** `i` is the position of the first reading in `rs` that the tariff keeps
      and that sets the peak `p`. */
  ghost predicate FirstSetter(rs: seq<Reading>, t: Tariff, p: DayPeak, i: int)
  {
    0 <= i < |rs| && Applies(t, rs[i]) && Sets(rs[i], p)
    && forall j :: 0 <= j < i ==> !(Applies(t, rs[j]) && Sets(rs[j], p))
  }

  /** Filtering keeps the order of the readings, so the first match in the
      filtered readings is the first kept match in the original ones. */
  lemma {:induction false} FirstInFilter(rs: seq<Reading>, t: Tariff, p: DayPeak) returns (i: nat)
    requires Attained(Filter(rs, t), p)
    ensures FirstSetter(rs, t, p, i)
    ensures rs[i] == Filter(rs, t)[FirstPeakReading(Filter(rs, t), p)]
  {
    var f := Filter(rs, t);
    var rest := Filter(rs[1..], t);
    if Applies(t, rs[0]) && Sets(rs[0], p) {
      assert f[0] == rs[0];
      i := 0;
    } else {
      if Applies(t, rs[0]) {
        assert f == [rs[0]] + rest;
        FirstPeakReadingSkip(rs[0], rest, p);
      } else {
        assert f == rest;
      }
      var i' := FirstInFilter(rs[1..], t, p);
      FirstSetterSkip(rs, t, p, i');
      i := i' + 1;
    }
  }

  /** A leading reading that does not attain `p` moves its first match one place on. */
  lemma FirstPeakReadingSkip(x: Reading, f: seq<Reading>, p: DayPeak)
    requires Attained([x] + f, p) && !Sets(x, p)
    ensures Attained(f, p)
    ensures FirstPeakReading([x] + f, p) == 1 + FirstPeakReading(f, p)
  {
    var w :| w in [x] + f && Sets(w, p);
    assert w in f;
    assert ([x] + f)[1..] == f;
  }

  /** A leading reading that is not a kept match moves the first kept match one place on. */
  lemma FirstSetterSkip(rs: seq<Reading>, t: Tariff, p: DayPeak, i: nat)
    requires rs != [] && !(Applies(t, rs[0]) && Sets(rs[0], p))
    requires FirstSetter(rs[1..], t, p, i)
    ensures FirstSetter(rs, t, p, i + 1) && rs[i + 1] == rs[1..][i]
  {
    forall j | 0 <= j < i + 1
      ensures !(Applies(t, rs[j]) && Sets(rs[j], p))
    {
      if j > 0 {
        assert rs[j] == rs[1..][j - 1];
      }
    }
  }

  /** Entry `j` of a tariff's peak-hours list belongs to selected peak `j`. */
  lemma {:induction false} PeakEntriesAt(f: seq<Reading>, top: seq<DayPeak>, number: nat, rate: real, j: nat)
    requires forall p :: p in top ==> Attained(f, p)
    requires j < |top|
    ensures PeakEntries(f, top, number, rate)[j]
      == PeakHour(f[FirstPeakReading(f, top[j])].at, top[j].peak, number, rate)
  {
    if j < |top| - 1 {
      var front := top[..|top| - 1];
      assert front[j] == top[j];
      PeakEntriesAt(f, front, number, rate, j);
    }
  }

  /** A tariff records exactly one peak-hours entry per selected peak (none
      when disabled); entry `j` carries peak `j`'s usage, the tariff's number
      and rate, and the timestamp of the first reading, in reading order, that
      the tariff keeps, that falls on the peak's date and whose usage equals
      the peak. */
  lemma TariffPeakHoursEntries(rs: seq<Reading>, t: Tariff, number: nat)
    ensures var es := TariffPeakHours(rs, t, number);
      var top := SelectedPeaks(rs, t);
      && |es| == (if t.enabled then |top| else 0)
      && forall j :: 0 <= j < |es| ==>
        && es[j].usage == top[j].peak
        && es[j].tariffNumber == number
        && es[j].rate == t.rate
        && exists i :: FirstSetter(rs, t, top[j], i) && rs[i].at == es[j].at
  {
    var f := Filter(rs, t);
    var top := SelectedPeaks(rs, t);
    var es := TariffPeakHours(rs, t, number);
    if t.enabled && f != [] {
      AppliedTariff(rs, t, number);
      forall j | 0 <= j < |es|
        ensures es[j].usage == top[j].peak && es[j].tariffNumber == number && es[j].rate == t.rate
        ensures exists i :: FirstSetter(rs, t, top[j], i) && rs[i].at == es[j].at
      {
        PeakEntriesAt(f, top, number, t.rate, j);
        assert top[j] in top;
        var i := FirstInFilter(rs, t, top[j]);
      }
    }
  }

  /** The total over a concatenation of tariff lists is the sum of the totals. */
  lemma {:induction false} TotalTariffCostAppend(rs: seq<Reading>, a: seq<Tariff>, b: seq<Tariff>)
    ensures TotalTariffCost(rs, a + b) == TotalTariffCost(rs, a) + TotalTariffCost(rs, b)
  {
    if b == [] {
      assert a + b == a;
    } else {
      var front := b[..|b| - 1];
      assert (a + b)[..|a + b| - 1] == a + front;
      assert (a + b)[|a + b| - 1] == b[|b| - 1];
      TotalTariffCostAppend(rs, a, front);
    }
  }

  /** Taking tariff `k` out of the list lowers the total by that tariff's charge. */
  lemma TotalTariffCostRemove(rs: seq<Reading>, b: seq<Tariff>, k: nat)
    requires k < |b|
    ensures TotalTariffCost(rs, b) == TariffCost(rs, b[k]) + TotalTariffCost(rs, b[..k] + b[k + 1..])
  {
    var before, after := b[..k], b[k + 1..];
    var x := b[k];
    assert b == (before + [x]) + after;
    TotalTariffCostAppend(rs, before + [x], after);
    TotalTariffCostAppend(rs, before, [x]);
    assert [x][..0] == [];
    assert TotalTariffCost(rs, [x]) == TariffCost(rs, x);
    TotalTariffCostAppend(rs, before, after);
  }

  /** The total does not depend on the order in which tariffs are listed. */
  lemma {:induction false} TotalTariffCostPermutation(rs: seq<Reading>, a: seq<Tariff>, b: seq<Tariff>)
    requires multiset(a) == multiset(b)
    ensures TotalTariffCost(rs, a) == TotalTariffCost(rs, b)
    decreases |a|
  {
    if a == [] {
      assert |b| == |multiset(b)| == 0;
    } else {
      var i := |a| - 1;
      var k := MatchingIndex(a, b, i);
      assert a[..i] + a[i + 1..] == a[..i];
      TotalTariffCostPermutation(rs, a[..i], b[..k] + b[k + 1..]);
      TotalTariffCostRemove(rs, b, k);
    }
  }

  /** The enabled tariffs of a list, in order. */
  function EnabledTariffs(ts: seq<Tariff>): (es: seq<Tariff>)
    ensures forall t :: t in es <==> t in ts && t.enabled
  {
    if ts == [] then []
    else
      var front := ts[..|ts| - 1];
      var last := ts[|ts| - 1];
      assert ts == front + [last];
      EnabledTariffs(front) + (if last.enabled then [last] else [])
  }

  /** Disabled tariffs contribute nothing: the total equals the total over
      the enabled tariffs alone. */
  lemma {:induction false} TotalTariffCostOfEnabled(rs: seq<Reading>, ts: seq<Tariff>)
    ensures TotalTariffCost(rs, ts) == TotalTariffCost(rs, EnabledTariffs(ts))
  {
    if ts != [] {
      var front := ts[..|ts| - 1];
      var last := ts[|ts| - 1];
      TotalTariffCostOfEnabled(rs, front);
      assert TotalTariffCost(rs, ts) == TotalTariffCost(rs, front) + TariffCost(rs, last);
      if last.enabled {
        var ef := EnabledTariffs(front);
        assert EnabledTariffs(ts) == ef + [last];
        TotalTariffCostAppend(rs, ef, [last]);
        assert [last][..0] == [];
        assert TotalTariffCost(rs, [last]) == TariffCost(rs, last);
      } else {
        assert TariffCost(rs, last) == 0.0;
        assert EnabledTariffs(ts) == EnabledTariffs(front) + [];
        assert EnabledTariffs(front) + [] == EnabledTariffs(front);
      }
    }
  }

  /** A tariff whose months and hours keep none of the readings is charged
      nothing and records no peak hours. */
  lemma NoApplicableReadings(rs: seq<Reading>, t: Tariff, number: nat)
    requires forall i :: 0 <= i < |rs| ==> !Applies(t, rs[i])
    ensures TariffCost(rs, t) == 0.0
    ensures TariffPeakHours(rs, t, number) == []
  {
    FilterNone(rs, t);
  }

  lemma {:induction false} FilterNone(rs: seq<Reading>, t: Tariff)
    requires forall i :: 0 <= i < |rs| ==> !Applies(t, rs[i])
    ensures Filter(rs, t) == []
  {
    if rs != [] {
      assert !Applies(t, rs[0]);
      FilterNone(rs[1..], t);
    }
  }

  /** Every peak-hours entry names an enabled tariff by its 1-based position,
      carries that tariff's rate and is one of that tariff's entries. */
  lemma {:induction false} PeakHoursFromEnabledTariffs(rs: seq<Reading>, ts: seq<Tariff>)
    ensures forall e :: e in AllPeakHours(rs, ts) ==>
      && 1 <= e.tariffNumber <= |ts|
      && ts[e.tariffNumber - 1].enabled
      && e.rate == ts[e.tariffNumber - 1].rate
      && e in TariffPeakHours(rs, ts[e.tariffNumber - 1], e.tariffNumber)
  {
    if ts != [] {
      var front := ts[..|ts| - 1];
      var last := ts[|ts| - 1];
      PeakHoursFromEnabledTariffs(rs, front);
      TariffPeakHoursEntries(rs, last, |ts|);
      forall e | e in AllPeakHours(rs, ts)
        ensures 1 <= e.tariffNumber <= |ts| && ts[e.tariffNumber - 1].enabled
        ensures e.rate == ts[e.tariffNumber - 1].rate
        ensures e in TariffPeakHours(rs, ts[e.tariffNumber - 1], e.tariffNumber)
      {
        if e in AllPeakHours(rs, front) {
          assert ts[e.tariffNumber - 1] == front[e.tariffNumber - 1];
        } else {
          var es := TariffPeakHours(rs, last, |ts|);
          assert e in es;
          var j :| 0 <= j < |es| && es[j] == e;
        }
      }
    }
  }

  /** With non-negative readings and rates, a tariff's charge is non-negative. */
  lemma TariffCostNonNegative(rs: seq<Reading>, t: Tariff)
    requires NonNegative(rs) && t.rate >= 0.0
    ensures TariffCost(rs, t) >= 0.0
  {
    var f := Filter(rs, t);
    if t.enabled && f != [] {
      var top := SelectedPeaks(rs, t);
      SelectedPeaksAttained(f, t.topN);
      forall p | p in top
        ensures p.peak >= 0.0
      {
        var r :| r in f && Sets(r, p);
        assert r in rs;
      }
      SumPeaksNonNegative(top);
      ChargeNonNegative(top, t.rate);
    }
  }

  lemma ChargeNonNegative(top: seq<DayPeak>, rate: real)
    requires SumPeaks(top) >= 0.0 && rate >= 0.0
    ensures Charge(top, rate) >= 0.0
  {
  }

  /** With non-negative readings and rates, the total power-tariff cost is
      non-negative. */
  lemma {:induction false} TotalTariffCostNonNegative(rs: seq<Reading>, ts: seq<Tariff>)
    requires NonNegative(rs)
    requires forall i :: 0 <= i < |ts| ==> ts[i].rate >= 0.0
    ensures TotalTariffCost(rs, ts) >= 0.0
  {
    if ts != [] {
      TotalTariffCostNonNegative(rs, ts[..|ts| - 1]);
      TariffCostNonNegative(rs, ts[|ts| - 1]);
    }
  }
}
