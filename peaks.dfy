/** Daily peaks and the selection of the largest ones: the model of
    `groupby(date)[usage].max()` followed by `nlargest(top_n, 'peak_usage')`
    and `['peak_usage'].sum()` in app.py. */
module Peaks {
  import opened Readings
  import opened Sequences

  /** One row of the daily-peaks table: a date and the largest usage on it. */
  datatype DayPeak = DayPeak(date: Date, peak: real)

  function Max(a: real, b: real): real
  {
    if a >= b then a else b
  }

  function Min(a: nat, b: nat): nat
  {
    if a <= b then a else b
  }

  /** Rows in strictly increasing date order, hence one row per date. */
  predicate SortedByDate(t: seq<DayPeak>)
  {
    forall i, j :: 0 <= i < j < |t| ==> DateBefore(t[i].date, t[j].date)
  }

  ghost function TableDates(t: seq<DayPeak>): set<Date>
  {
    set e | e in t :: e.date
  }

  /** `p` is the largest usage among the readings dated `d`: some reading
      attains it and none exceeds it. */
  ghost predicate PeakOf(rs: seq<Reading>, d: Date, p: real)
  {
    (exists r :: r in rs && r.at.date == d && r.usage == p)
    && (forall r :: r in rs && r.at.date == d ==> r.usage <= p)
  }

  /** `t` is the result of grouping `rs` by date and taking each group's maximum. */
  ghost predicate IsPeakTable(t: seq<DayPeak>, rs: seq<Reading>)
  {
    SortedByDate(t)
    && TableDates(t) == DatesOf(rs)
    && forall e :: e in t ==> PeakOf(rs, e.date, e.peak)
  }

  /** Adds one reading (date `d`, usage `u`) to a table: raises that date's
      maximum, or inserts a new row at its place in date order. */
  function InsertPeak(t: seq<DayPeak>, d: Date, u: real): (r: seq<DayPeak>)
    ensures TableDates(r) == TableDates(t) + {d}
    ensures forall e :: e in t && e.date != d ==> e in r
    ensures forall e :: e in r && e.date != d ==> e in t
  {
    if t == [] then [DayPeak(d, u)]
    else if t[0].date == d then [DayPeak(d, Max(t[0].peak, u))] + t[1..]
    else if DateBefore(d, t[0].date) then [DayPeak(d, u)] + t
    else [t[0]] + InsertPeak(t[1..], d, u)
  }

  /** Insertion keeps a table in date order. */
  lemma {:induction false} InsertPeakSorted(t: seq<DayPeak>, d: Date, u: real)
    requires SortedByDate(t)
    ensures SortedByDate(InsertPeak(t, d, u))
  {
    if t != [] && t[0].date != d && !DateBefore(d, t[0].date) {
      var tail := t[1..];
      InsertPeakSorted(tail, d, u);
      var r' := InsertPeak(tail, d, u);
      assert DateBefore(t[0].date, d);
      forall e | e in r'
        ensures DateBefore(t[0].date, e.date)
      {
        if e.date != d {
          assert e in tail;
          var m :| 0 <= m < |tail| && tail[m] == e;
          assert tail[m] == t[m + 1];
        }
      }
      SortedCons(t[0], r');
    }
  }

  /** A row dated before every row of a date-ordered table can go in front. */
  lemma SortedCons(x: DayPeak, r: seq<DayPeak>)
    requires SortedByDate(r)
    requires forall e :: e in r ==> DateBefore(x.date, e.date)
    ensures SortedByDate([x] + r)
  {
    var s := [x] + r;
    forall i, j | 0 <= i < j < |s|
      ensures DateBefore(s[i].date, s[j].date)
    {
      assert s[j] == r[j - 1];
      if i > 0 {
        assert s[i] == r[i - 1];
      } else {
        assert r[j - 1] in r;
      }
    }
  }

  /** After insertion into a date-ordered table, the row for `d` is either
      new with value `u` or the old row for `d` raised to at least `u`. */
  lemma {:induction false} InsertPeakValue(t: seq<DayPeak>, d: Date, u: real)
    requires SortedByDate(t)
    ensures forall e :: e in InsertPeak(t, d, u) && e.date == d ==>
        (d !in TableDates(t) && e.peak == u)
        || (exists e0 :: e0 in t && e0.date == d && e.peak == Max(e0.peak, u))
  {
    if t != [] && t[0].date != d && !DateBefore(d, t[0].date) {
      var tail := t[1..];
      InsertPeakValue(tail, d, u);
      var r' := InsertPeak(tail, d, u);
      var r := InsertPeak(t, d, u);
      assert r == [t[0]] + r';
      forall e | e in r && e.date == d
        ensures (d !in TableDates(t) && e.peak == u)
          || (exists e0 :: e0 in t && e0.date == d && e.peak == Max(e0.peak, u))
      {
        assert e in r';
        if d in TableDates(t) {
          var e1 :| e1 in t && e1.date == d;
          assert e1 in tail;
        }
      }
    }
  }

  /** The daily-peaks table of a list of readings. */
  function DailyPeaks(rs: seq<Reading>): seq<DayPeak>
  {
    if rs == [] then [] else InsertPeak(DailyPeaks(rs[1..]), rs[0].at.date, rs[0].usage)
  }

  /** The table holds one row per distinct date of the readings, in date
      order, and each row's value is that date's maximum usage. */
  lemma {:induction false} DailyPeaksIsPeakTable(rs: seq<Reading>)
    ensures IsPeakTable(DailyPeaks(rs), rs)
  {
    if rs != [] {
      var rest := rs[1..];
      DailyPeaksIsPeakTable(rest);
      var t0 := DailyPeaks(rest);
      var r0 := rs[0];
      var d := r0.at.date;
      var t := DailyPeaks(rs);
      InsertPeakSorted(t0, d, r0.usage);
      InsertPeakValue(t0, d, r0.usage);
      assert rs == [r0] + rest;
      assert DatesOf(rs) == DatesOf(rest) + {d};
      forall e | e in t
        ensures PeakOf(rs, e.date, e.peak)
      {
        if e.date != d {
          assert e in t0;
          assert PeakOf(rest, e.date, e.peak);
        } else if d !in TableDates(t0) {
          assert e.peak == r0.usage;
          forall r | r in rest
            ensures r.at.date != d
          {
            assert r.at.date in DatesOf(rest);
          }
        } else {
          var e0 :| e0 in t0 && e0.date == d && e.peak == Max(e0.peak, r0.usage);
          assert PeakOf(rest, d, e0.peak);
          if e0.peak >= r0.usage {
            var w :| w in rest && w.at.date == d && w.usage == e0.peak;
            assert w in rs;
          }
        }
      }
    }
  }

  /** No two rows share a date. */
  predicate DistinctDates(t: seq<DayPeak>)
  {
    forall i, j :: 0 <= i < j < |t| ==> t[i].date != t[j].date
  }

  /** A table with one row per date has as many rows as distinct dates. */
  lemma {:induction false} DistinctTableSize(t: seq<DayPeak>)
    requires DistinctDates(t)
    ensures |TableDates(t)| == |t|
  {
    if t != [] {
      DistinctTableSize(t[1..]);
      assert TableDates(t) == TableDates(t[1..]) + {t[0].date};
      assert t[0].date !in TableDates(t[1..]);
    }
  }

  /** Index of the first row holding the largest peak. */
  function FirstMaxIndex(t: seq<DayPeak>): (k: nat)
    requires t != []
    ensures k < |t|
    ensures forall j :: 0 <= j < |t| ==> t[j].peak <= t[k].peak
    ensures forall j :: 0 <= j < k ==> t[j].peak < t[k].peak
  {
    if |t| == 1 then 0
    else
      var k := FirstMaxIndex(t[1..]);
      if t[0].peak >= t[k + 1].peak then 0 else k + 1
  }

  /** `nlargest(n)` with ties resolved in favour of the earlier row: the
      first-occurring maximum is taken, then the rest is searched again. */
  function TopPeaks(t: seq<DayPeak>, n: nat): (r: seq<DayPeak>)
    ensures |r| == Min(n, |t|)
    ensures forall i :: 0 <= i < |r| ==> r[i] in t
    decreases n
  {
    if n == 0 || t == [] then []
    else
      var k := FirstMaxIndex(t);
      [t[k]] + TopPeaks(Without(t, k), n - 1)
  }

  /** The selection takes rows out of the table without repeating any: as a
      multiset it is contained in the table. */
  lemma TopPeaksSubmultiset(t: seq<DayPeak>, n: nat)
    ensures multiset(TopPeaks(t, n)) <= multiset(t)
    decreases n
  {
    if n != 0 && t != [] {
      TopPeaksSubmultisetStep(t, n);
    }
  }

  /** One selection step: the chosen row followed by a sub-multiset of the
      remaining rows is a sub-multiset of the table. */
  lemma TopPeaksSubmultisetStep(t: seq<DayPeak>, n: nat)
    requires n != 0 && t != []
    requires multiset(TopPeaks(Without(t, FirstMaxIndex(t)), n - 1)) <= multiset(Without(t, FirstMaxIndex(t)))
    ensures multiset(TopPeaks(t, n)) <= multiset(t)
  {
    var k := FirstMaxIndex(t);
    ConsSubmultiset(t, k, TopPeaks(Without(t, k), n - 1));
  }

  /** Putting back the row taken out keeps a sub-multiset of the rest a
      sub-multiset of the whole table. */
  lemma ConsSubmultiset(t: seq<DayPeak>, k: nat, r: seq<DayPeak>)
    requires k < |t|
    requires multiset(r) <= multiset(Without(t, k))
    ensures multiset([t[k]] + r) <= multiset(t)
  {
    WithoutMultiset(t, k);
    assert multiset([t[k]] + r) == multiset{t[k]} + multiset(r);
  }

  /** The table with row `k` taken out. */
  function Without(t: seq<DayPeak>, k: nat): (rest: seq<DayPeak>)
    requires k < |t|
    ensures |rest| == |t| - 1
    ensures forall x :: x in rest ==> x in t
    ensures forall x :: x in t && x != t[k] ==> x in rest
  {
    assert t == t[..k] + [t[k]] + t[k + 1..];
    t[..k] + t[k + 1..]
  }

  lemma WithoutMultiset(t: seq<DayPeak>, k: nat)
    requires k < |t|
    ensures multiset(t) == multiset(Without(t, k)) + multiset{t[k]}
  {
    SplitAt(t, k);
  }

  predicate NonIncreasing(r: seq<DayPeak>)
  {
    forall i, j :: 0 <= i < j < |r| ==> r[i].peak >= r[j].peak
  }

  /** Every row of `r` is at least as large as every row of `t` outside `r`. */
  predicate Dominates(r: seq<DayPeak>, t: seq<DayPeak>)
  {
    forall i, j :: 0 <= i < |r| && 0 <= j < |t| && t[j] !in r ==> r[i].peak >= t[j].peak
  }

  /** The selected peaks come in non-increasing order. */
  lemma TopPeaksNonIncreasing(t: seq<DayPeak>, n: nat)
    ensures NonIncreasing(TopPeaks(t, n))
    decreases n
  {
    if n != 0 && t != [] {
      var k := FirstMaxIndex(t);
      var rest := Without(t, k);
      TopPeaksNonIncreasing(rest, n - 1);
      var r' := TopPeaks(rest, n - 1);
      forall i | 0 <= i < |r'|
        ensures r'[i].peak <= t[k].peak
      {
        var m :| 0 <= m < |t| && t[m] == r'[i];
      }
      NonIncreasingCons(t[k], r');
    }
  }

  /** A row at least as large as every row of a non-increasing list can go in front. */
  lemma NonIncreasingCons(x: DayPeak, r: seq<DayPeak>)
    requires NonIncreasing(r)
    requires forall i :: 0 <= i < |r| ==> r[i].peak <= x.peak
    ensures NonIncreasing([x] + r)
  {
    var s := [x] + r;
    forall i, j | 0 <= i < j < |s|
      ensures s[i].peak >= s[j].peak
    {
      assert s[j] == r[j - 1];
      if i > 0 {
        assert s[i] == r[i - 1];
      }
    }
  }

  /** Each selected peak is at least as large as every row left out. */
  lemma TopPeaksDominate(t: seq<DayPeak>, n: nat)
    ensures Dominates(TopPeaks(t, n), t)
    decreases n
  {
    if n != 0 && t != [] {
      var k := FirstMaxIndex(t);
      var rest := Without(t, k);
      TopPeaksDominate(rest, n - 1);
      var r' := TopPeaks(rest, n - 1);
      var r := TopPeaks(t, n);
      assert r == [t[k]] + r';
      forall i, j | 0 <= i < |r| && 0 <= j < |t| && t[j] !in r
        ensures r[i].peak >= t[j].peak
      {
        var e := t[j];
        assert e in rest;
        var j' :| 0 <= j' < |rest| && rest[j'] == e;
        if i > 0 {
          assert r[i] == r'[i - 1];
          assert e !in r';
        }
      }
    }
  }

  /** Taking a row out of a table with one row per date leaves such a table,
      none of whose rows has the removed row's date. */
  lemma WithoutDistinctDates(t: seq<DayPeak>, k: nat)
    requires k < |t| && DistinctDates(t)
    ensures DistinctDates(Without(t, k))
    ensures forall i :: 0 <= i < |Without(t, k)| ==> Without(t, k)[i].date != t[k].date
  {
    var rest := Without(t, k);
    assert rest == t[..k] + t[k + 1..];
    forall i, j | 0 <= i < j < |rest|
      ensures rest[i].date != rest[j].date
    {
      var i' := if i < k then i else i + 1;
      var j' := if j < k then j else j + 1;
      assert rest[i] == t[i'] && rest[j] == t[j'];
    }
    forall i | 0 <= i < |rest|
      ensures rest[i].date != t[k].date
    {
      var i' := if i < k then i else i + 1;
      assert rest[i] == t[i'];
    }
  }

  /** Selected from a table with one row per date, the selected rows fall on
      distinct dates. */
  lemma TopPeaksDistinctDates(t: seq<DayPeak>, n: nat)
    requires DistinctDates(t)
    ensures DistinctDates(TopPeaks(t, n))
    decreases n
  {
    if n != 0 && t != [] {
      var k := FirstMaxIndex(t);
      var rest := Without(t, k);
      WithoutDistinctDates(t, k);
      TopPeaksDistinctDates(rest, n - 1);
      var r' := TopPeaks(rest, n - 1);
      forall i | 0 <= i < |r'|
        ensures r'[i].date != t[k].date
      {
        var m :| 0 <= m < |rest| && rest[m] == r'[i];
      }
      DistinctCons(t[k], r');
    }
  }

  /** A row whose date no row of a table has can go in front of it. */
  lemma DistinctCons(x: DayPeak, r: seq<DayPeak>)
    requires DistinctDates(r)
    requires forall i :: 0 <= i < |r| ==> r[i].date != x.date
    ensures DistinctDates([x] + r)
  {
    var s := [x] + r;
    forall i, j | 0 <= i < j < |s|
      ensures s[i].date != s[j].date
    {
      assert s[j] == r[j - 1];
      if i > 0 {
        assert s[i] == r[i - 1];
      }
    }
  }

  /** A row left out of a dominating selection is no larger than any selected row. */
  lemma DominatesRow(r: seq<DayPeak>, t: seq<DayPeak>, p: DayPeak, e: DayPeak)
    requires Dominates(r, t)
    requires p in r && e in t && e !in r
    ensures e.peak <= p.peak
  {
    var i :| 0 <= i < |r| && r[i] == p;
    var j :| 0 <= j < |t| && t[j] == e;
  }

  /** The selection is the top of the table: rows taken from the table
      without repetition, in non-increasing order, each at least as large as
      every row left out. */
  lemma TopPeaksAreLargest(t: seq<DayPeak>, n: nat)
    ensures multiset(TopPeaks(t, n)) <= multiset(t)
    ensures NonIncreasing(TopPeaks(t, n))
    ensures Dominates(TopPeaks(t, n), t)
  {
    TopPeaksSubmultiset(t, n);
    TopPeaksNonIncreasing(t, n);
    TopPeaksDominate(t, n);
  }

  /** When `n` reaches the number of rows every row is selected: nothing is
      padded and nothing is dropped. */
  lemma {:induction false} TopPeaksSaturates(t: seq<DayPeak>, n: nat)
    requires n >= |t|
    ensures multiset(TopPeaks(t, n)) == multiset(t)
    decreases n
  {
    if n != 0 && t != [] {
      var k := FirstMaxIndex(t);
      var rest := Without(t, k);
      WithoutMultiset(t, k);
      TopPeaksSaturates(rest, n - 1);
      var r' := TopPeaks(rest, n - 1);
      assert multiset([t[k]] + r') == multiset{t[k]} + multiset(rest);
      assert TopPeaks(t, n) == [t[k]] + r';
    }
  }

  /** Sum of the peak column. */
  function SumPeaks(s: seq<DayPeak>): real
  {
    if s == [] then 0.0 else s[0].peak + SumPeaks(s[1..])
  }

  lemma {:induction false} SumPeaksAppend(a: seq<DayPeak>, b: seq<DayPeak>)
    ensures SumPeaks(a + b) == SumPeaks(a) + SumPeaks(b)
  {
    if a != [] {
      assert (a + b)[0] == a[0];
      assert (a + b)[1..] == a[1..] + b;
      SumPeaksAppend(a[1..], b);
    } else {
      assert a + b == b;
    }
  }

  /** Taking one row out lowers the sum by that row's peak. */
  lemma {:induction false} SumPeaksWithout(t: seq<DayPeak>, k: nat)
    requires k < |t|
    ensures SumPeaks(t) == t[k].peak + SumPeaks(Without(t, k))
  {
    if k == 0 {
      assert Without(t, 0) == t[1..];
    } else {
      var w := Without(t[1..], k - 1);
      SumPeaksWithout(t[1..], k - 1);
      assert Without(t, k) == [t[0]] + w;
      assert ([t[0]] + w)[1..] == w;
    }
  }

  /** The sum does not depend on the order of the rows. */
  lemma {:induction false} SumPeaksPermutation(a: seq<DayPeak>, b: seq<DayPeak>)
    requires multiset(a) == multiset(b)
    ensures SumPeaks(a) == SumPeaks(b)
  {
    if a == [] {
      assert |b| == |multiset(b)| == 0;
    } else {
      var k := MatchingIndex(a, b, 0);
      assert a[..0] + a[1..] == a[1..];
      SumPeaksPermutation(a[1..], Without(b, k));
      SumPeaksWithout(b, k);
    }
  }

  /** Peaks taken from non-negative readings sum to a non-negative amount. */
  lemma {:induction false} SumPeaksNonNegative(s: seq<DayPeak>)
    requires forall e :: e in s ==> e.peak >= 0.0
    ensures SumPeaks(s) >= 0.0
  {
    if s != [] {
      SumPeaksNonNegative(s[1..]);
    }
  }
}
