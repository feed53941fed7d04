/** Hourly usage readings, as the billing code sees them once the CSV has been
    parsed: a timestamp with hour resolution and a usage in kWh. */
module Readings {

  datatype Date = Date(year: int, month: int, day: int)

  datatype Timestamp = Timestamp(date: Date, hour: int)

  datatype Reading = Reading(at: Timestamp, usage: real)

  /** Chronological order of calendar dates (the order pandas sorts group keys in). */
  predicate DateBefore(a: Date, b: Date)
  {
    a.year < b.year
    || (a.year == b.year && (a.month < b.month || (a.month == b.month && a.day < b.day)))
  }

  /** The validation step rejects any negative usage value. */
  predicate NonNegative(rs: seq<Reading>)
  {
    forall i :: 0 <= i < |rs| ==> rs[i].usage >= 0.0
  }

  /** The calendar dates present among the readings. */
  ghost function DatesOf(rs: seq<Reading>): set<Date>
  {
    set r | r in rs :: r.at.date
  }

  /** Sum of the usage column. */
  function TotalUsage(rs: seq<Reading>): (total: real)
    ensures NonNegative(rs) ==> total >= 0.0
    ensures NonNegative(rs) ==> forall i :: 0 <= i < |rs| ==> rs[i].usage <= total
  {
    if rs == [] then 0.0 else rs[0].usage + TotalUsage(rs[1..])
  }

  /** The total of a concatenation is the sum of the totals. */
  lemma {:induction false} TotalUsageAppend(a: seq<Reading>, b: seq<Reading>)
    ensures TotalUsage(a + b) == TotalUsage(a) + TotalUsage(b)
  {
    if a != [] {
      assert (a + b)[0] == a[0];
      assert (a + b)[1..] == a[1..] + b;
      TotalUsageAppend(a[1..], b);
    } else {
      assert a + b == b;
    }
  }
}
