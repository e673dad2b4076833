# Car sales summary, in Dafny

This project models the analysis core of a car-sales report script (`script.py`).
Each record of the monthly sales data holds an id, a car (make, model, year),
a price text such as `"$1234.56"` and the number of units sold.

- `format_car` names a car as `"<make> <model> (<year>)"`.
- `process_data` goes over the records once and keeps three things:
  - the record with the most revenue (units × price);
  - the record with the most units sold;
  - a dictionary of units sold per model year.

  It then reports three summary lines.
- `cars_dict_to_table` sorts the records by units sold, largest first, and
  turns them into a table: a header row, then one row per record.

Modules:

- `Wrappers` holds `Option` and `Result`.
- `Text` holds the decimal text of integers and a few string lemmas.
- `Cars` holds the record, `format_car` and `strip("$")`.
- `Summary` holds `process_data`, in two forms:
  - an imperative method over an array of records;
  - the reference functions it is proved against.
- `Table` holds `cars_dict_to_table`: an in-place stable sort on an array,
  proved against a sort function on sequences, and the row-building loop.

How the model captures the script's behaviour:

- **Errors are data.** Where the script raises, `Summarize` and `ProcessData`
  return an `Error`, in the order the script meets them:
  1. `UnparsablePrice(i)`: `locale.atof` fails on the price of record `i`.
  2. `EmptyData`: there are no records, so `max` runs over an empty dictionary.
  3. `NoRevenueLeader`: no revenue beats the sentinel 0, so the sentinel has no `"car"` key.
  4. `NoSalesLeader`: no unit count beats the sentinel 0.
- **Strict comparisons.** Both running maxima use a strict `>`, so the
  earliest record wins a tie.
- **Year dictionary.** It keeps its keys in insertion order, and
  `max(..., key=...)` returns the first largest key. The model uses a
  sequence of pairs for the dictionary, with the same two rules.
- **The input is changed.** `process_data` writes a `"revenue"` key into
  each record that overtakes the running best revenue, on the caller's
  records (script.py:44). If a later price fails to parse, the earlier records stay changed.
  `cars_dict_to_table` sorts the caller's list in place (script.py:67). The
  model follows the code: both methods take the records as an array and
  state its new contents.

## Model

| member | source | states |
|---|---|---|
| Cars.NameYearRoundTrip | script.py:24-27 | whatever the make and model contain, the year can be read back from the formatted name: it is the integer between the last `(` and the closing `)` |
| Text.IntToStringRoundTrip | script.py:26-27 | the decimal text that `format` writes for an integer parses back to that integer |
| Cars.StripDollarsInfix | script.py:41 | `strip("$")` keeps one contiguous middle part of the price text; it removes only `$` characters, only at the two ends, and all of them there |
| Cars.StripDollarsIdempotent | script.py:41 | stripping the currency signs twice is the same as stripping them once |
| Summary.RevenuesSpec | script.py:38-42 | the prices all parse exactly when the pass does not fail; then each revenue is total_sales × the parsed price; otherwise the failing index is the first price that does not parse |
| Summary.BestSpec | script.py:34-35 | a running best started from the sentinel 0 with a strict `>` stays empty exactly when no value is positive; otherwise it ends on a largest value, and on the first of the largest values |
| Summary.OvertakesAtScan | script.py:43-44 | a record gets `"revenue"` exactly when its revenue exceeds the sentinel and every earlier revenue |
| Summary.MarkAtScan | script.py:43-44 | the record the loop leaves behind carries its revenue exactly when that revenue beats the best so far |
| Summary.BestSnoc | script.py:43-47 | a proof step: the definition of the running best, unfolded for one more value; that value replaces the best exactly when it is strictly larger than the best value so far |
| Summary.LeadsSnoc | script.py:43-47 | the loop's update of `max_revenue` / `max_sales` keeps the record it holds in step with the running best of the revenues or the sales |
| Summary.KeyIndex | script.py:48 | the `in` test on the year dictionary: a position holding the year, or the year is absent |
| Summary.AddYear | script.py:48-51 | adding a year's sales increases that year's entry and leaves every other entry as it was; a new year is appended at the end; keys stay distinct |
| Summary.KeysAddYear | script.py:48-51 | after adding, the dictionary's keys are the old keys plus the year |
| Summary.TallyYearsEmpty | script.py:48-52 | the year dictionary is empty exactly when there are no records |
| Summary.TallyYearsKeys | script.py:48-51 | the dictionary's keys are the model years that occur in the data |
| Summary.TallyYearsSums | script.py:48-51 | each year's entry is the total of total_sales over the records of that year |
| Summary.TallyYearsOrder | script.py:48-51 | the keys are ordered by where each year first occurs in the data |
| Summary.MostPopular | script.py:52 | `max(..., key=...)` returns an entry with the largest total, and the first such entry in dictionary order |
| Summary.PopularYearIsFirstLargest | script.py:48-52 | the reported year occurs in the data, no year sold more, and among the years that sold as much it is the one met first |
| Summary.SummaryLines | script.py:29-63 | on success, the three lines report: the first record with the largest positive revenue; the first record with the largest positive total_sales; the year found by `max` with its total |
| Summary.SummaryUnparsable | script.py:41 | the summary fails on a price exactly when some price does not parse |
| Summary.SummaryEmpty | script.py:52 | the summary fails with `EmptyData` exactly when every price parses and there are no records |
| Summary.SummaryNoRevenueLeader | script.py:34-56 | the summary fails for lack of a revenue leader exactly when every price parses, there are records and no revenue is positive |
| Summary.SummaryNoSalesLeader | script.py:35-58 | the summary fails for lack of a sales leader exactly when every price parses, some revenue is positive and no total_sales is positive |
| Summary.LeadersExist | script.py:34-47 | when every price parses, a revenue leader exists exactly when some revenue is positive, and a sales leader exists exactly when some total_sales is positive |
| Summary.VisitMatches | script.py:38-51 | one iteration of the loop keeps its state in line with the reference definitions: annotated records, both running bests, and the year totals |
| Summary.AgreesSnoc | script.py:38-51 | if the loop agrees with the reference definitions on some records, it still agrees after one more record |
| Summary.ScanToSpec | script.py:38-51 | on any records, the loop fails where the reference revenues fail; otherwise its final state matches the reference definitions |
| Summary.ScanToPrefix | script.py:38 | the loop's state after `n` records depends only on those `n` records |
| Summary.ScanStops | script.py:41 | once a price fails to parse, the loop stops with that index, whatever records follow |
| Summary.ScanCompleted | script.py:38-63 | after a complete pass, the records are annotated as the reference says, and the report the statements after the loop build is the reference summary |
| Summary.ScanStopped | script.py:38-44 | a pass stopped at index `i` reports that error, and the records before `i` are annotated as the reference says |
| Summary.ScanRecords | script.py:34-51 | runs the loop in place over the caller's array. Its final state and the records it leaves behind are those of the one-record-at-a-time fold `ScanTo`. At the first price that does not parse, it stops with that index; the records before it are written and the rest are unchanged |
| Summary.ProcessData | script.py:29-63 | returns the reference summary of the input records. The array ends up annotated: fully when every price parses; otherwise the records before the first bad price are annotated and the rest are unchanged |
| Summary.LeaderLineNamesCar | script.py:54-58 | the revenue and sales lines begin with `"The "` followed by the car's formatted name |
| Summary.SalesLineReadsBack | script.py:57-58 | the number at the end of the sales line reads back as the total_sales |
| Summary.YearLineReadsBack | script.py:59-60 | the year line has one colon; the numbers before it and between it and `" sales"` read back as the year and its total |
| Table.InsertPermutes | script.py:67 | inserting a record adds exactly that record to the multiset of records |
| Table.InsertPosBounds | script.py:67 | every record from the insertion place on sold less than the new record, and the record just before that place sold at least as much |
| Table.InsertSorted | script.py:67 | inserting into a list sorted by total_sales, largest first, keeps it sorted |
| Table.InsertStable | script.py:67 | among records with equal total_sales, the inserted record comes after the ones already there |
| Table.SortDescSorted | script.py:67 | the sort result is ordered by total_sales, largest first |
| Table.SortDescPermutes | script.py:67 | the sort result is a permutation of its input |
| Table.SortDescStable | script.py:67 | records with equal total_sales keep their input order (`reverse=True` keeps stability) |
| Table.SortDescOfSorted | script.py:67 | sorting an already sorted list changes nothing |
| Table.SortDescIdempotent | script.py:67 | sorting twice is the same as sorting once |
| Table.MakeRoom | script.py:67 | shifts the records that sold less than the new record one place right, stopping at the insertion position of the sorted prefix |
| Table.InsertLast | script.py:67 | the sorted prefix of the array grows by one record, inserted at its stable place |
| Table.SortBySalesDesc | script.py:67 | the array is sorted in place, and its new contents are the reference stable descending sort of the old contents |
| Table.CarsDictToTable | script.py:65-71 | the caller's records end up sorted; the table is the header row followed by one row `[id, format_car(car), price, total_sales]` per record, in the sorted order |

## Left out

- `load_data`, `generate`, `send` and `main` (script.py:15-19, 73-112) are not modelled: they do file, e-mail and PDF input and output.
- The module-level `max_sales` and `max_car_year` (script.py:21-22) are not modelled: `process_data` shadows them and nothing reads them.
- `locale.atof` depends on the process locale. It is a parameter of type `string -> Option<real>`, and `None` stands for the `ValueError` it raises.
- Floating-point arithmetic is modelled as exact real arithmetic: `Times` multiplies total_sales by the parsed price with no rounding. `locale.atof` also accepts "nan" and "inf", and NaN and infinite prices have no counterpart in `Option<real>`, so their comparisons are not modelled.
- Summary.ProcessData: returns the three lines as `Line` values, not as strings. Their text is `LineText`, which takes Python's `str` of a float as a parameter, because how Python prints a float is not modelled.
- Table.SortBySalesDesc: sorts by insertion, not by Python's timsort. The model proves its result sorted, a permutation and stable. A stable sort by one key has only one possible result, so it is the same list; that uniqueness is not itself proved.
- The records have exactly the fields the core reads: id, car, price, total_sales, and an optional revenue. Extra JSON keys, missing keys and values of the wrong type are not modelled, and neither are the `KeyError` and `TypeError` they would raise.
- Records are values, so the same record object appearing twice in the list (aliasing) is not modelled.
