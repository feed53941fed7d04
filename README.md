# Electricity cost calculator — billing core in Dafny

This project models the billing arithmetic of the electricity cost calculator
(`app.py`). A user uploads hourly meter readings and enters prices. The page
then computes:

- the usage cost: the total kWh times the usage rate;
- the power-tariff (demand) cost: each enabled tariff keeps the readings of its
  months and hours, takes the largest reading of every remaining day, charges
  the `top_n` largest of those daily peaks times its rate, and records the
  reading that set each charged peak;
- the VAT split: VAT is either extracted from VAT-inclusive prices, component
  by component, or added on top of VAT-exclusive ones;
- which CSV columns hold the timestamps and the usage, by looking at their names.

Modules:

- `Readings` (`readings.dfy`): readings, dates, the usage total.
- `Sequences` (`sequences.dfy`): facts about reordered sequences used by the
  order-independence lemmas.
- `Peaks` (`peaks.dfy`): the per-day maximum table (`groupby(date).max()`), the
  `nlargest` selection with its first-occurrence tie rule, and the peak sum.
- `PowerTariffs` (`power_tariffs.dfy`): `calculate_power_tariffs` as a method
  with a loop over the tariffs, proved equal to the specification functions
  `TotalTariffCost` and `AllPeakHours`.
- `PowerTariffProperties` (`power_tariffs.dfy`): the properties of those
  functions.
- `Vat` (`vat.dfy`): `calculate_vat`.
- `Billing` (`billing.dfy`): the hour list of a tariff, the cost-aggregation
  block of `main`, and the method that runs it.
- `Columns` (`columns.dfy`): the column-name heuristic of `validate_csv_data`,
  as a method with a loop, proved equal to specification functions.

Amounts are Dafny `real`s.

A power tariff charges the *sum* of its top-N daily peaks times its rate
(`app.py:96`), not their average. There is no night-reduced peak method: every
tariff selects its peaks the same way.

## Model

The specification functions and predicates carry no contract of their own;
the members in the table characterise them:

- `Peaks`: `DailyPeaks` by `DailyPeaksIsPeakTable`; `SumPeaks` by
  `SumPeaksAppend`, `SumPeaksWithout` and `SumPeaksPermutation`.
- `PowerTariffs`: `TariffCost` by `AppliedTariff`, `SkippedTariff` and
  `PowerTariffProperties.TariffCharge`; `TotalTariffCost` and `AllPeakHours`
  by `TariffStep` and `CalculatePowerTariffs` (and the `TotalTariffCost…`
  lemmas and `PeakHoursFromEnabledTariffs`); `TariffPeakHours` by
  `PowerTariffProperties.TariffPeakHoursEntries`.
- `Billing`: `FormTariff` by `FormTariffApplies`; `Breakdown` by `Bill`,
  `BreakdownNonNegative` and `CalculateCosts`.
- `Columns`: `Contains` by `ContainsAt`; `DatetimeChoice` and `UsageChoice` by
  `DatetimeChoiceIsLast` and `UsageChoiceIsLast`.

The remaining lemmas without a row are proof steps of the lemmas above:
`SortedCons`, `DistinctCons`, `NonIncreasingCons`, `DominatesRow`, `ConsSubmultiset` and
`TopPeaksSubmultisetStep` in `Peaks`; `FirstPeakReadingSkip`,
`FirstSetterSkip`, `ChargeOfEqualSums` and `ChargeNonNegative` in
`PowerTariffProperties`; and the lemmas of `Sequences`.

| member | source | states |
|---|---|---|
| Readings.TotalUsage | app.py:281 | with no negative reading the usage total is non-negative and at least every single reading |
| Readings.TotalUsageAppend | app.py:281 | the usage total of two batches of readings is the sum of their totals |
| Peaks.InsertPeak | app.py:89 | adding a reading to the daily-maximum table adds its date and leaves every other date's row unchanged |
| Peaks.InsertPeakSorted | app.py:89 | adding a reading keeps the table in ascending date order, as groupby sorts its keys |
| Peaks.InsertPeakValue | app.py:89 | after adding a reading, its date's row is either new with that usage or the old maximum raised to it |
| Peaks.DailyPeaksIsPeakTable | app.py:89-90 | the daily table has one row per distinct date of the readings, in date order, and each row is that date's maximum usage: attained by a reading and exceeded by none |
| Peaks.DistinctTableSize | app.py:89 | a table with one row per date has exactly as many rows as dates |
| Peaks.FirstMaxIndex | app.py:93 | picks a row holding the largest peak, and no earlier row holds an equal one (nlargest keeps the first occurrence) |
| Peaks.TopPeaks | app.py:93 | selects `min(top_n, days)` rows, each taken from the daily table |
| Peaks.TopPeaksSubmultiset | app.py:93 | the selection takes rows out of the table without repeating any: as a multiset it is contained in the table |
| Peaks.Without | app.py:93 | removing one row shortens the table by one and keeps every other row |
| Peaks.WithoutMultiset | app.py:93 | removing one row takes exactly that row out of the table's multiset |
| Peaks.WithoutDistinctDates | app.py:93 | removing a row from a table with one row per date keeps one row per date and leaves no row with the removed row's date |
| Peaks.TopPeaksNonIncreasing | app.py:93 | the selected peaks come largest first |
| Peaks.TopPeaksDominate | app.py:93 | each selected peak is at least as large as every daily peak left out |
| Peaks.TopPeaksDistinctDates | app.py:93 | selecting from a table with one row per date charges each date at most once |
| Peaks.TopPeaksAreLargest | app.py:93 | the selection is the top of the table: rows of the table with none repeated (a sub-multiset), in non-increasing order, each at least as large as every row left out |
| Peaks.TopPeaksSaturates | app.py:93 | when `top_n` reaches the number of days, every day is selected once and nothing is padded |
| Peaks.SumPeaksAppend | app.py:96 | the peak sum of a concatenation is the sum of the two peak sums |
| Peaks.SumPeaksWithout | app.py:96 | removing one row lowers the peak sum by that row's peak |
| Peaks.SumPeaksPermutation | app.py:96 | the peak sum does not depend on the order of the rows |
| Peaks.SumPeaksNonNegative | app.py:96 | peaks that are all non-negative have a non-negative sum |
| PowerTariffs.Filter | app.py:77-83 | keeps exactly the readings in the tariff's months (all months when the list is empty) and hours (all hours when the list is empty) |
| PowerTariffs.FirstPeakReading | app.py:102-105 | finds the first filtered reading on the peak's date whose usage equals the peak (`.iloc[0]`) |
| PowerTariffs.PeakEntries | app.py:100-112 | produces one entry per selected peak, each with the tariff's number and rate |
| PowerTariffs.SelectedPeaksAttained | app.py:102-105 | every selected daily peak is attained by some filtered reading, so the `.iloc[0]` lookup never fails |
| PowerTariffs.AppliedTariff | app.py:85-112 | an enabled tariff that keeps some reading is charged its selected peak sum times its rate and adds one entry per selected peak |
| PowerTariffs.SkippedTariff | app.py:70-86 | a disabled tariff, or one whose filter keeps nothing, adds no cost and no entries |
| PowerTariffs.TariffStep | app.py:70-112 | processing the next tariff adds its cost to the running total and appends its entries to the list |
| PowerTariffs.PeakEntriesStep | app.py:100-112 | handling the next selected peak appends exactly that peak's entry |
| PowerTariffs.PeakHoursOf | app.py:100-112 | the inner loop appends exactly the peak-hours entries of the tariff's selected peaks, in selection order |
| PowerTariffs.CalculatePowerTariffs | app.py:65-114 | returns the sum of the tariffs' charges and the concatenation of their peak-hours entries, in tariff order |
| PowerTariffProperties.SelectedPeaksArePeaks | app.py:89-93 | each charged peak is the maximum usage of its day among the readings the tariff keeps |
| PowerTariffProperties.SelectedPeaksLargest | app.py:89-93 | no kept reading on a day that was not charged exceeds any charged peak |
| PowerTariffProperties.TariffCharge | app.py:77-97 | an enabled tariff's cost is its rate times the sum of `min(top_n, days)` daily maxima, taken on as many distinct days; these come largest first, and no reading of a day left out exceeds any of them |
| PowerTariffProperties.AllDaysCharged | app.py:89-97 | when `top_n` is at least the number of days left after filtering, the tariff charges the sum of every day's maximum |
| PowerTariffProperties.FirstInFilter | app.py:102-105 | filtering keeps the reading order, so the first matching filtered reading is the first kept matching reading of the whole input |
| PowerTariffProperties.PeakEntriesAt | app.py:100-112 | entry `j` belongs to selected peak `j` and to the first reading that sets it |
| PowerTariffProperties.TariffPeakHoursEntries | app.py:100-112 | a tariff adds one entry per selected peak (none when disabled); entry `j` has peak `j`'s usage, the tariff's number and rate, and the timestamp of the first reading in input order that the tariff keeps and that sets that peak |
| PowerTariffProperties.TotalTariffCostAppend | app.py:97 | the total power-tariff cost of two lists of tariffs is the sum of their totals |
| PowerTariffProperties.TotalTariffCostRemove | app.py:97 | removing one tariff lowers the total by exactly that tariff's charge |
| PowerTariffProperties.TotalTariffCostPermutation | app.py:97 | the total power-tariff cost does not depend on the order of the tariffs |
| PowerTariffProperties.EnabledTariffs | app.py:71-72 | keeps exactly the enabled tariffs |
| PowerTariffProperties.TotalTariffCostOfEnabled | app.py:70-97 | disabled tariffs contribute nothing: the total equals the total over the enabled tariffs alone |
| PowerTariffProperties.NoApplicableReadings | app.py:85-86 | a tariff whose months and hours keep no reading costs nothing and records no peak hours |
| PowerTariffProperties.FilterNone | app.py:77-83 | when no reading matches the tariff's months and hours, the filter keeps nothing |
| PowerTariffProperties.PeakHoursFromEnabledTariffs | app.py:70-112 | every peak-hours entry names an enabled tariff by its 1-based position (`Tariff {i+1}`), carries that tariff's rate, and is one of that tariff's entries |
| PowerTariffProperties.TariffCostNonNegative | app.py:96 | with non-negative readings and rate, a tariff's charge is non-negative |
| PowerTariffProperties.TotalTariffCostNonNegative | app.py:97 | with non-negative readings and rates, the total power-tariff cost is non-negative |
| Vat.Multiplier | app.py:120 | the gross-up factor is at least 1 for a non-negative rate |
| Vat.VatOn | app.py:126 | VAT on a non-negative net amount at a non-negative rate is non-negative |
| Vat.VatOnAdditive | app.py:126 | VAT on a sum of net amounts is the sum of the VATs |
| Vat.CalculateVat | app.py:116-128 | in both modes the VAT is the rate applied to the net part. An inclusive amount is the sum of net and VAT; an exclusive amount is the net part. A zero amount splits into zeros, and a non-negative amount into non-negative parts with the net no larger than the amount |
| Vat.InclusiveSplitUnique | app.py:118-122 | the inclusive split is the only split whose parts sum to the amount and whose VAT is the rate applied to the net part |
| Vat.VatRoundTrip | app.py:116-128 | adding VAT to a net amount and then extracting it again gives back the same net amount and VAT |
| Vat.ExclusiveGross | app.py:123-126 | an exclusive split's net plus VAT is the amount times `1 + rate/100` |
| Vat.InclusiveSplitAdditive | app.py:293-301 | extracting VAT from a sum gives the same net and VAT as extracting it from each term and adding |
| Billing.Range | app.py:267 | `list(range(lo, hi))`: `hi - lo` consecutive integers starting at `lo`, exactly those in `[lo, hi)` |
| Billing.HourRestriction | app.py:267 | when the restriction is ticked, the hour list holds exactly the hours from start to end, both included, and has `end - start + 1` of them; when it is not, the list is empty |
| Billing.FormTariffApplies | app.py:250-275 | a tariff built by the form applies to a reading exactly when its month is selected (or none is) and, if the hour restriction is ticked, its hour lies in the slider's range |
| Billing.Bill | app.py:280-309 | subtotal = fixed + usage × usage rate + tariff cost. In both modes the net subtotal is the sum of the component nets, the VAT is the rate applied to it, and total = net subtotal + VAT. With inclusive prices each component's net is that component's own inclusive split (app.py:293-301), the total is the subtotal, and the net subtotal equals the split of the whole subtotal. With exclusive prices each net equals its gross and the total is the subtotal × `(1 + rate/100)` |
| Billing.BillNonNegative | app.py:280-309 | with non-negative inputs every figure of the bill is non-negative, and net subtotal ≤ subtotal ≤ total |
| Billing.BreakdownNonNegative | app.py:280-309 | under the form's lower bounds and the rejection of negative usage, the bill is non-negative, and net subtotal ≤ subtotal ≤ total |
| Billing.CalculateCosts | app.py:280-309 | the calculation block produces the bill for the readings' usage total and power-tariff cost, and the tariffs' peak-hours list |
| Columns.Lower | app.py:33 | lower-casing keeps the length and lower-cases each character |
| Columns.ContainsAt | app.py:34-36 | `term in name` holds exactly when `term` starts at some position of `name` |
| Columns.ContainsPrefix | app.py:34 | a name containing a term also contains every prefix of it |
| Columns.DatetimeNameIff | app.py:34 | a column looks like a datetime column exactly when its lower-cased name contains "date" or "time" |
| Columns.DatetimeChoiceIsLast | app.py:32-35 | the datetime column found by the loop is the last column that looks like one; none is found only when no column does |
| Columns.UsageChoiceIsLast | app.py:32-37 | the usage column found by the loop is the last column that looks like one and not like a datetime column; none is found only when no column qualifies |
| Columns.OrElse | app.py:39-45 | a found column wins over the fallback |
| Columns.IdentifyColumns | app.py:24-45 | a file with fewer than two columns is rejected with the page's message. Otherwise the result is the last datetime-looking column (else the first column) and the last usage-looking, non-datetime column (else the second column) |

## Left out

- The Streamlit page (widgets, metrics, expanders, charts, plotting of the peak hours) is presentation. Only the bounds its inputs enforce appear, as preconditions: VAT between 0 and 100, non-negative prices and rates.
- CSV decoding and type conversion (`pd.read_csv`, `pd.to_datetime`, `pd.to_numeric`) are library calls. The model starts from parsed readings. The rejection of negative usage (app.py:58-59) becomes the `NonNegative` precondition wherever signs matter.
- The `df.empty` check and the checks that the columns parse as dates and numbers are part of that parsing and are not modelled. The inconsistent return shape of `validate_csv_data` is a caller-side quirk and is not modelled either.
- Floating-point rounding: amounts are exact reals, so the model does not reproduce IEEE rounding, for example in `amount / multiplier`.
- Columns.Lower: models ASCII lower-casing only. Python's `str.lower` also folds non-ASCII letters.
- The month list of a tariff is the list of selected month numbers. The mapping from month names to numbers (app.py:240-250) is a constant table of the page and is taken as given.
- `top_n` is any natural number in the model. The page limits it to 1..31, and nothing proved here depends on that limit.
- Columns.IdentifyColumns: the fallback `columns[0]` for the usage column (app.py:45) cannot be reached once files with fewer than two columns are rejected, so the model always falls back to the second column.
- Peaks.TopPeaks: when `top_n` is at least the number of days, pandas' `nlargest` sorts the whole column with an unstable sort, so the order of tied peaks, and of their peak-hours entries, is left to the library. The model always takes the earliest date first. The charged sum does not depend on that order.
- Peak-hours entries record the tariff's 1-based number. The display label `Tariff {number}` is not built as a string.
