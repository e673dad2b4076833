/**
 * process_data: one pass over the records that tracks the record with the
 * most revenue, the record with the most sales and the running total of
 * sales per model year, then reports the three as summary lines.
 *
 * The running maxima start from sentinels that hold 0 and no car; a record
 * replaces the current best only when it is strictly larger, so the earliest
 * record wins a tie. The year totals live in a dictionary whose keys keep
 * their insertion order; max(..., key=...) returns its first maximal key.
 */
module Summary {
  import opened Wrappers
  import opened Text
  import opened Cars

  /** Why process_data raises instead of returning its summary. */
  datatype Error =
    | UnparsablePrice(index: nat)  // locale.atof raised on the price of record `index`
    | EmptyData                    // max() over the empty year dictionary raised
    | NoRevenueLeader              // no revenue beat the sentinel 0: its "car" key is missing
    | NoSalesLeader                // no total_sales beat the sentinel 0: likewise

  /** The three summary lines, by what each one reports. */
  datatype Line =
    | MostRevenue(car: string, revenue: real)
    | MostSales(car: string, sales: int)
    | PopularYear(year: int, sales: int)

  /** How Python's str renders a float; the model leaves it open. */
  type ShowReal = real -> string

  /** The text of a summary line, as the format strings of process_data build it. */
  function LineText(l: Line, show: ShowReal): string {
    match l
    case MostRevenue(car, revenue) => "The " + car + " generated the most revenue: $" + show(revenue)
    case MostSales(car, sales) => "The " + car + " had the most sales: " + IntToString(sales)
    case PopularYear(year, sales) =>
      "The most popular car year was " + IntToString(year) + ": " + IntToString(sales) + " sales"
  }

  /** The two leader lines name their car right after "The ". */
  lemma {:induction false} LeaderLineNamesCar(l: Line, show: ShowReal)
    requires l.MostRevenue? || l.MostSales?
    ensures var t := LineText(l, show);
            4 + |l.car| <= |t| && t[..4] == "The " && t[4..4 + |l.car|] == l.car
  {
    var tail := if l.MostRevenue? then " generated the most revenue: $" + show(l.revenue)
                else " had the most sales: " + IntToString(l.sales);
    assert LineText(l, show) == "The " + l.car + tail;
    Infix("The ", l.car, tail);
  }

  /** The number at the end of the most-sales line reads back as the sales. */
  lemma {:induction false} SalesLineReadsBack(car: string, sales: int, show: ShowReal)
    ensures var t := LineText(MostSales(car, sales), show);
            var p := |"The " + car + " had the most sales: "|;
            p <= |t| && ParseInt(t[p..]) == Some(sales)
  {
    var prefix := "The " + car + " had the most sales: ";
    assert LineText(MostSales(car, sales), show)[|prefix|..] == IntToString(sales);
    IntToStringRoundTrip(sales);
  }

  /**
   * The year line has one colon; the numbers before it and between it and
   * " sales" read back as the year and its total.
   */
  lemma {:induction false} YearLineReadsBack(year: int, sales: int, show: ShowReal)
    ensures var t := LineText(PopularYear(year, sales), show);
            var p := |"The most popular car year was "|;
            && LastIndexOf(t, ':').Some?
            && var k := LastIndexOf(t, ':').value;
            && p <= k && k + 2 <= |t| - 6
            && ParseInt(t[p..k]) == Some(year)
            && ParseInt(t[k + 2..|t| - 6]) == Some(sales)
  {
    var ss := IntToString(sales);
    assert NoColon(ss);
    assert NoColon(" sales");
    SplitAtColon("The most popular car year was ", IntToString(year), ss, " sales");
    IntToStringRoundTrip(year);
    IntToStringRoundTrip(sales);
  }

  /** The locale's number parser; None stands for the ValueError it raises. */
  type Atof = string -> Option<real>

  function PriceOf(r: Record, atof: Atof): Option<real> {
    atof(StripDollars(r.price))
  }

  predicate AllPricesParse(data: seq<Record>, atof: Atof) {
    forall i | 0 <= i < |data| :: PriceOf(data[i], atof).Some?
  }

  /** total_sales times the unit price (exact, where the script multiplies floats). */
  function Times(totalSales: int, price: real): real {
    totalSales as real * price
  }

  /** The revenue of one record whose price parses. */
  function Revenue(r: Record, atof: Atof): real
    requires PriceOf(r, atof).Some?
  {
    Times(r.totalSales, PriceOf(r, atof).value)
  }

  /**
   * The revenue of every record, in order, or the index of the first record
   * whose price does not parse.
   */
  function Revenues(data: seq<Record>, atof: Atof): (r: Result<seq<real>, nat>)
    ensures r.Ok? ==> |r.value| == |data|
    ensures r.Err? ==> r.error < |data|
  {
    if data == [] then Ok([])
    else
      var last := data[|data| - 1];
      match Revenues(data[..|data| - 1], atof)
      case Err(k) => Err(k)
      case Ok(revs) =>
        match PriceOf(last, atof)
        case None => Err(|data| - 1)
        case Some(p) => Ok(revs + [Times(last.totalSales, p)])
  }

  /**
   * Revenues fails exactly when some price does not parse, and then names the
   * first such record; otherwise it holds each record's revenue.
   */
  lemma {:induction false} RevenuesSpec(data: seq<Record>, atof: Atof)
    ensures Revenues(data, atof).Ok? <==> AllPricesParse(data, atof)
    ensures Revenues(data, atof).Ok? ==>
              forall i | 0 <= i < |data| :: Revenues(data, atof).value[i] == Revenue(data[i], atof)
    ensures Revenues(data, atof).Err? ==>
              && PriceOf(data[Revenues(data, atof).error], atof).None?
              && forall j | 0 <= j < Revenues(data, atof).error :: PriceOf(data[j], atof).Some?
  {
    if data != [] {
      var pre := data[..|data| - 1];
      var last := data[|data| - 1];
      RevenuesSpec(pre, atof);
      assert forall j | 0 <= j < |pre| :: pre[j] == data[j];
      match Revenues(pre, atof)
      case Err(k) =>
      case Ok(revs) =>
        assert AllPricesParse(pre, atof);
    }
  }

  /** The total_sales of every record, in order. */
  function UnitSales(data: seq<Record>): (xs: seq<real>)
    ensures |xs| == |data|
    ensures forall i | 0 <= i < |data| :: xs[i] == data[i].totalSales as real
  {
    seq(|data|, i requires 0 <= i < |data| => data[i].totalSales as real)
  }

  // ---------------------------------------------------------------------------
  // The running maximum with a 0 sentinel and a strict comparison
  // ---------------------------------------------------------------------------

  /**
   * The index the scan ends up holding: a value replaces the best so far (the
   * sentinel 0 at first) only when it is strictly greater. None means the
   * sentinel was never replaced.
   */
  function Best(xs: seq<real>): (r: Option<nat>)
    ensures r.Some? ==> r.value < |xs|
  {
    if xs == [] then None
    else
      var prev := Best(xs[..|xs| - 1]);
      if xs[|xs| - 1] > BestValue(xs[..|xs| - 1], prev) then Some(|xs| - 1) else prev
  }

  /**
   * The scan keeps the sentinel exactly when no value is positive; otherwise
   * it ends on a largest value, and on the first of the largest.
   */
  lemma {:induction false} BestSpec(xs: seq<real>)
    ensures Best(xs).None? <==> forall i | 0 <= i < |xs| :: xs[i] <= 0.0
    ensures Best(xs).Some? ==>
              && xs[Best(xs).value] > 0.0
              && (forall i | 0 <= i < |xs| :: xs[i] <= xs[Best(xs).value])
              && (forall i | 0 <= i < Best(xs).value :: xs[i] < xs[Best(xs).value])
  {
    if xs != [] {
      var pre := xs[..|xs| - 1];
      BestSpec(pre);
      assert forall i | 0 <= i < |pre| :: pre[i] == xs[i];
    }
  }

  /** The value the scan compares against: the sentinel's 0 or the best so far. */
  function BestValue(xs: seq<real>, best: Option<nat>): real
    requires best.Some? ==> best.value < |xs|
  {
    match best
    case None => 0.0
    case Some(k) => xs[k]
  }

  /** Record k becomes the new best when the scan reaches it. */
  predicate Overtakes(xs: seq<real>, k: nat)
    requires k < |xs|
  {
    xs[k] > 0.0 && forall j | 0 <= j < k :: xs[j] < xs[k]
  }

  /** The scan's test at position k is exactly "record k overtakes all before it". */
  lemma {:induction false} OvertakesAtScan(xs: seq<real>, k: nat)
    requires k < |xs|
    ensures xs[k] > BestValue(xs[..k], Best(xs[..k])) <==> Overtakes(xs, k)
  {
    var pre := xs[..k];
    BestSpec(pre);
    assert forall j | 0 <= j < k :: pre[j] == xs[j];
  }

  /** Record k after the pass: it carries its revenue exactly when it overtook the running best. */
  function Mark(x: Record, revs: seq<real>, k: nat): Record
    requires k < |revs|
  {
    if Overtakes(revs, k) then x.(revenue := Some(revs[k])) else x
  }

  /**
   * The records after the pass: each record that overtook the running best
   * carries its revenue under the "revenue" key; the others are unchanged.
   */
  function Annotated(data: seq<Record>, revs: seq<real>): (r: seq<Record>)
    requires |revs| == |data|
    ensures |r| == |data|
  {
    seq(|data|, i requires 0 <= i < |data| => Mark(data[i], revs, i))
  }

  /** Later revenues do not change whether an earlier record overtook. */
  lemma {:induction false} MarkSnoc(x: Record, revs: seq<real>, rev: real, k: nat)
    requires k < |revs|
    ensures Mark(x, revs + [rev], k) == Mark(x, revs, k)
  {
    assert forall j | 0 <= j <= k :: (revs + [rev])[j] == revs[j];
  }

  /** The scan's test on the newest revenue decides whether its record is marked. */
  lemma {:induction false} MarkAtScan(x: Record, revs: seq<real>, rev: real)
    ensures Mark(x, revs + [rev], |revs|)
         == if rev > BestValue(revs, Best(revs)) then x.(revenue := Some(rev)) else x
  {
    OvertakesAtScan(revs + [rev], |revs|);
    assert (revs + [rev])[..|revs|] == revs;
  }

  // ---------------------------------------------------------------------------
  // The year dictionary: (year, total) pairs in insertion order
  // ---------------------------------------------------------------------------

  function Keys(m: seq<(int, int)>): set<int> {
    set p | 0 <= p < |m| :: m[p].0
  }

  predicate DistinctKeys(m: seq<(int, int)>) {
    forall p, q | 0 <= p < q < |m| :: m[p].0 != m[q].0
  }

  /** The position of key y in the dictionary, if it is there. */
  function KeyIndex(m: seq<(int, int)>, y: int): (r: Option<nat>)
    ensures r.None? ==> forall p | 0 <= p < |m| :: m[p].0 != y
    ensures r.Some? ==> r.value < |m| && m[r.value].0 == y
  {
    if m == [] then None
    else if m[|m| - 1].0 == y then Some(|m| - 1)
    else KeyIndex(m[..|m| - 1], y)
  }

  /**
   * The dictionary update `d[y] += s` or, for a new key, `d[y] = s`: an
   * existing key keeps its place, a new one goes last.
   */
  function AddYear(m: seq<(int, int)>, y: int, s: int): (r: seq<(int, int)>)
    requires DistinctKeys(m)
    ensures DistinctKeys(r)
    ensures y in Keys(m) ==>
              && |r| == |m|
              && forall p | 0 <= p < |m| ::
                   r[p] == (if m[p].0 == y then (y, m[p].1 + s) else m[p])
    ensures y !in Keys(m) ==> r == m + [(y, s)]
  {
    match KeyIndex(m, y)
    case Some(k) =>
      assert y in Keys(m);
      m[k := (y, m[k].1 + s)]
    case None =>
      assert y !in Keys(m);
      m + [(y, s)]
  }

  /** The year dictionary after the pass over data. */
  function TallyYears(data: seq<Record>): (m: seq<(int, int)>)
    ensures DistinctKeys(m)
  {
    if data == [] then []
    else
      var last := data[|data| - 1];
      AddYear(TallyYears(data[..|data| - 1]), last.car.year, last.totalSales)
  }

  /** The model years that occur in data. */
  function YearSet(data: seq<Record>): set<int> {
    set i | 0 <= i < |data| :: data[i].car.year
  }

  /** Reference definition: the sum of total_sales over the records of model year y. */
  function SalesOfYear(data: seq<Record>, y: int): int {
    if data == [] then 0
    else
      var last := data[|data| - 1];
      SalesOfYear(data[..|data| - 1], y) + (if last.car.year == y then last.totalSales else 0)
  }

  /** The position of the first record of model year y, or |data| when there is none. */
  function FirstIndexOf(data: seq<Record>, y: int): (r: nat)
    ensures r <= |data|
    ensures r < |data| ==> data[r].car.year == y
    ensures forall j | 0 <= j < r :: data[j].car.year != y
  {
    if data == [] then 0
    else
      var f := FirstIndexOf(data[..|data| - 1], y);
      if f < |data| - 1 then f
      else if data[|data| - 1].car.year == y then |data| - 1
      else |data|
  }

  lemma {:induction false} YearSetSnoc(data: seq<Record>)
    requires data != []
    ensures YearSet(data) == YearSet(data[..|data| - 1]) + {data[|data| - 1].car.year}
  {
    var pre := data[..|data| - 1];
    forall z | z in YearSet(data) ensures z in YearSet(pre) + {data[|data| - 1].car.year} {
      var i :| 0 <= i < |data| && data[i].car.year == z;
      if i < |pre| { assert pre[i] == data[i]; }
    }
    forall z | z in YearSet(pre) ensures z in YearSet(data) {
      var i :| 0 <= i < |pre| && pre[i].car.year == z;
      assert data[i] == pre[i];
    }
  }

  lemma {:induction false} KeysAddYear(m: seq<(int, int)>, y: int, s: int)
    requires DistinctKeys(m)
    ensures Keys(AddYear(m, y, s)) == Keys(m) + {y}
  {
    var r := AddYear(m, y, s);
    if y in Keys(m) {
      forall z | z in Keys(r) ensures z in Keys(m) {
        var p :| 0 <= p < |r| && r[p].0 == z;
        assert m[p].0 == z;
      }
      forall z | z in Keys(m) ensures z in Keys(r) {
        var p :| 0 <= p < |m| && m[p].0 == z;
        assert r[p].0 == z;
      }
    } else {
      forall z | z in Keys(r) ensures z in Keys(m) + {y} {
        var p :| 0 <= p < |r| && r[p].0 == z;
        if p < |m| { assert m[p].0 == z; }
      }
      forall z | z in Keys(m) ensures z in Keys(r) {
        var p :| 0 <= p < |m| && m[p].0 == z;
        assert r[p].0 == z;
      }
      assert r[|m|].0 == y;
    }
  }

  lemma {:induction false} SalesOfAbsentYear(data: seq<Record>, y: int)
    requires y !in YearSet(data)
    ensures SalesOfYear(data, y) == 0
  {
    if data != [] {
      YearSetSnoc(data);
      SalesOfAbsentYear(data[..|data| - 1], y);
    }
  }

  lemma {:induction false} FirstIndexOfPresent(data: seq<Record>, y: int)
    requires y in YearSet(data)
    ensures FirstIndexOf(data, y) < |data|
  {
    var i :| 0 <= i < |data| && data[i].car.year == y;
  }

  lemma {:induction false} TallyYearsEmpty(data: seq<Record>)
    ensures TallyYears(data) == [] <==> data == []
  {
    if data != [] {
      var last := data[|data| - 1];
      KeysAddYear(TallyYears(data[..|data| - 1]), last.car.year, last.totalSales);
      assert last.car.year in Keys(TallyYears(data));
    }
  }

  /** The year dictionary holds exactly the model years of the input. */
  lemma {:induction false} TallyYearsKeys(data: seq<Record>)
    ensures Keys(TallyYears(data)) == YearSet(data)
  {
    if data != [] {
      var pre := data[..|data| - 1];
      var last := data[|data| - 1];
      TallyYearsKeys(pre);
      YearSetSnoc(data);
      KeysAddYear(TallyYears(pre), last.car.year, last.totalSales);
    }
  }

  /** Each year's entry is the sum of total_sales over the records of that year. */
  lemma {:induction false} TallyYearsSums(data: seq<Record>)
    ensures forall p | 0 <= p < |TallyYears(data)| ::
              TallyYears(data)[p].1 == SalesOfYear(data, TallyYears(data)[p].0)
  {
    if data != [] {
      var pre := data[..|data| - 1];
      var last := data[|data| - 1];
      TallyYearsSums(pre);
      TallyYearsKeys(pre);
      var m0 := TallyYears(pre);
      var m := TallyYears(data);
      forall p | 0 <= p < |m| ensures m[p].1 == SalesOfYear(data, m[p].0) {
        if p < |m0| {
          assert m[p].1 == m0[p].1 + (if m0[p].0 == last.car.year then last.totalSales else 0);
        } else {
          SalesOfAbsentYear(pre, last.car.year);
        }
      }
    }
  }

  /** The years stand in the dictionary in the order the input first meets them. */
  lemma {:induction false} TallyYearsOrder(data: seq<Record>)
    ensures forall p, q | 0 <= p < q < |TallyYears(data)| ::
              FirstIndexOf(data, TallyYears(data)[p].0) < FirstIndexOf(data, TallyYears(data)[q].0)
  {
    if data != [] {
      var pre := data[..|data| - 1];
      var last := data[|data| - 1];
      var y := last.car.year;
      TallyYearsOrder(pre);
      TallyYearsKeys(pre);
      var m0 := TallyYears(pre);
      var m := TallyYears(data);
      forall p | 0 <= p < |m0|
        ensures FirstIndexOf(data, m0[p].0) == FirstIndexOf(pre, m0[p].0) < |pre|
      {
        assert m0[p].0 in Keys(m0);
        FirstIndexOfPresent(pre, m0[p].0);
      }
      if y in Keys(m0) {
        forall p, q | 0 <= p < q < |m|
          ensures FirstIndexOf(data, m[p].0) < FirstIndexOf(data, m[q].0)
        {
          assert m[p].0 == m0[p].0 && m[q].0 == m0[q].0;
        }
      } else {
        assert FirstIndexOf(data, y) == |pre|;
        forall p, q | 0 <= p < q < |m|
          ensures FirstIndexOf(data, m[p].0) < FirstIndexOf(data, m[q].0)
        {
          assert m[p] == m0[p];
          if q < |m0| { assert m[q] == m0[q]; }
        }
      }
    }
  }

  /**
   * max(d, key=d.get): the position of the first key whose total is largest.
   */
  function MostPopular(m: seq<(int, int)>): (k: nat)
    requires m != []
    ensures k < |m|
    ensures forall p | 0 <= p < |m| :: m[p].1 <= m[k].1
    ensures forall p | 0 <= p < k :: m[p].1 < m[k].1
  {
    if |m| == 1 then 0
    else
      var k := MostPopular(m[..|m| - 1]);
      if m[|m| - 1].1 > m[k].1 then |m| - 1 else k
  }

  // ---------------------------------------------------------------------------
  // The summary
  // ---------------------------------------------------------------------------

  /** What process_data returns, or the error it raises, for the given records. */
  function Summarize(data: seq<Record>, atof: Atof): (r: Result<seq<Line>, Error>) {
    match Revenues(data, atof)
    case Err(k) => Err(UnparsablePrice(k))
    case Ok(revs) =>
      var years := TallyYears(data);
      if years == [] then Err(EmptyData)
      else
        var top := years[MostPopular(years)];
        match Best(revs)
        case None => Err(NoRevenueLeader)
        case Some(a) =>
          match Best(UnitSales(data))
          case None => Err(NoSalesLeader)
          case Some(b) =>
            Ok([MostRevenue(FormatCar(data[a].car), revs[a]),
                MostSales(FormatCar(data[b].car), data[b].totalSales),
                PopularYear(top.0, top.1)])
  }

  /**
   * The year max(..., key=...) picks: its total is the largest, and among
   * the years with that total it is the one the input meets first.
   */
  lemma {:induction false} PopularYearIsFirstLargest(data: seq<Record>) returns (y: int)
    requires data != []
    ensures TallyYears(data) != []
    ensures TallyYears(data)[MostPopular(TallyYears(data))] == (y, SalesOfYear(data, y))
    ensures y in YearSet(data)
    ensures forall i | 0 <= i < |data| ::
              SalesOfYear(data, data[i].car.year) <= SalesOfYear(data, y)
    ensures forall i | 0 <= i < |data| ::
              SalesOfYear(data, data[i].car.year) == SalesOfYear(data, y) ==>
                FirstIndexOf(data, y) <= FirstIndexOf(data, data[i].car.year)
  {
    var m := TallyYears(data);
    TallyYearsKeys(data);
    TallyYearsSums(data);
    TallyYearsOrder(data);
    assert data[0].car.year in Keys(m);
    var k := MostPopular(m);
    y := m[k].0;
    assert y in Keys(m);
    forall i | 0 <= i < |data|
      ensures SalesOfYear(data, data[i].car.year) <= SalesOfYear(data, y)
      ensures SalesOfYear(data, data[i].car.year) == SalesOfYear(data, y) ==>
                FirstIndexOf(data, y) <= FirstIndexOf(data, data[i].car.year)
    {
      var z := data[i].car.year;
      assert z in Keys(m);
      var p :| 0 <= p < |m| && m[p].0 == z;
      assert m[p].1 == SalesOfYear(data, z) && m[k].1 == SalesOfYear(data, y);
      assert m[p].1 <= m[k].1;
      if m[p].1 == m[k].1 && p != k {
        assert k < p;
        assert FirstIndexOf(data, m[k].0) < FirstIndexOf(data, m[p].0);
      }
    }
  }

  /**
   * A summary that is produced has exactly three lines: the earliest record
   * with the largest revenue, the earliest record with the largest
   * total_sales, and the model year with the largest total, the first one met
   * among equal totals.
   */
  lemma {:induction false} SummaryLines(data: seq<Record>, atof: Atof) returns (a: nat, b: nat, y: int)
    requires Summarize(data, atof).Ok?
    ensures a < |data| && b < |data| && AllPricesParse(data, atof)
    ensures Summarize(data, atof).value
         == [MostRevenue(FormatCar(data[a].car), Revenue(data[a], atof)),
             MostSales(FormatCar(data[b].car), data[b].totalSales),
             PopularYear(y, SalesOfYear(data, y))]
    ensures Revenue(data[a], atof) > 0.0
    ensures forall i | 0 <= i < |data| :: Revenue(data[i], atof) <= Revenue(data[a], atof)
    ensures forall i | 0 <= i < a :: Revenue(data[i], atof) < Revenue(data[a], atof)
    ensures data[b].totalSales > 0
    ensures forall i | 0 <= i < |data| :: data[i].totalSales <= data[b].totalSales
    ensures forall i | 0 <= i < b :: data[i].totalSales < data[b].totalSales
    ensures y in YearSet(data)
    ensures forall i | 0 <= i < |data| ::
              SalesOfYear(data, data[i].car.year) <= SalesOfYear(data, y)
    ensures forall i | 0 <= i < |data| ::
              SalesOfYear(data, data[i].car.year) == SalesOfYear(data, y) ==>
                FirstIndexOf(data, y) <= FirstIndexOf(data, data[i].car.year)
  {
    RevenuesSpec(data, atof);
    var revs := Revenues(data, atof).value;
    var sales := UnitSales(data);
    BestSpec(revs);
    BestSpec(sales);
    a := Best(revs).value;
    b := Best(sales).value;
    assert data != [];
    y := PopularYearIsFirstLargest(data);
    assert forall i | 0 <= i < |data| :: revs[i] == Revenue(data[i], atof);
    assert forall i | 0 <= i < |data| :: sales[i] == data[i].totalSales as real;
  }

  /** process_data raises on a price exactly when some price does not parse. */
  lemma {:induction false} SummaryUnparsable(data: seq<Record>, atof: Atof)
    ensures !AllPricesParse(data, atof) <==>
              Summarize(data, atof).Err? && Summarize(data, atof).error.UnparsablePrice?
  {
    RevenuesSpec(data, atof);
  }

  /** max() over the year dictionary raises exactly when every price parses and there are no records. */
  lemma {:induction false} SummaryEmpty(data: seq<Record>, atof: Atof)
    ensures Summarize(data, atof) == Err(EmptyData) <==> AllPricesParse(data, atof) && data == []
  {
    RevenuesSpec(data, atof);
    TallyYearsEmpty(data);
    if Revenues(data, atof).Err? {
      assert Summarize(data, atof).error.UnparsablePrice?;
    } else if data != [] {
      assert TallyYears(data) != [];
      assert Summarize(data, atof) != Err(EmptyData);
    }
  }

  /** No record's revenue beats the sentinel 0: the revenue line has no car to name. */
  lemma {:induction false} SummaryNoRevenueLeader(data: seq<Record>, atof: Atof)
    ensures Summarize(data, atof) == Err(NoRevenueLeader) <==>
              && AllPricesParse(data, atof) && data != []
              && forall i | 0 <= i < |data| :: Revenue(data[i], atof) <= 0.0
  {
    RevenuesSpec(data, atof);
    TallyYearsEmpty(data);
    if Revenues(data, atof).Err? {
      assert Summarize(data, atof).error.UnparsablePrice?;
    } else if data == [] {
      assert Summarize(data, atof) == Err(EmptyData);
    } else {
      var revs := Revenues(data, atof).value;
      LeadersExist(data, atof);
      assert Summarize(data, atof) == Err(NoRevenueLeader) <==> Best(revs).None?;
    }
  }

  /** Some revenue beats 0 but no total_sales does: the sales line has no car to name. */
  lemma {:induction false} SummaryNoSalesLeader(data: seq<Record>, atof: Atof)
    ensures Summarize(data, atof) == Err(NoSalesLeader) <==>
              && AllPricesParse(data, atof) && data != []
              && (exists i | 0 <= i < |data| :: Revenue(data[i], atof) > 0.0)
              && forall i | 0 <= i < |data| :: data[i].totalSales <= 0
  {
    RevenuesSpec(data, atof);
    TallyYearsEmpty(data);
    if Revenues(data, atof).Err? {
      assert Summarize(data, atof).error.UnparsablePrice?;
    } else if data == [] {
      assert Summarize(data, atof) == Err(EmptyData);
    } else {
      var revs := Revenues(data, atof).value;
      var sales := UnitSales(data);
      LeadersExist(data, atof);
      assert Summarize(data, atof) == Err(NoSalesLeader) <==> Best(revs).Some? && Best(sales).None?;
    }
  }

  /** Whether a running best leaves its sentinel, in terms of the records. */
  lemma {:induction false} LeadersExist(data: seq<Record>, atof: Atof)
    requires AllPricesParse(data, atof)
    ensures Revenues(data, atof).Ok?
    ensures Best(Revenues(data, atof).value).Some? <==> exists i | 0 <= i < |data| :: Revenue(data[i], atof) > 0.0
    ensures Best(UnitSales(data)).None? <==> forall i | 0 <= i < |data| :: data[i].totalSales <= 0
  {
    RevenuesSpec(data, atof);
    var revs := Revenues(data, atof).value;
    BestSpec(revs);
    BestSpec(UnitSales(data));
    assert forall i | 0 <= i < |data| :: revs[i] == Revenue(data[i], atof);
  }

  lemma {:induction false} BestSnoc(xs: seq<real>, x: real)
    ensures Best(xs + [x]) == if x > BestValue(xs, Best(xs)) then Some(|xs|) else Best(xs)
  {
    assert (xs + [x])[..|xs|] == xs;
  }

  lemma {:induction false} AnnotatedSnoc(data: seq<Record>, revs: seq<real>, x: Record, rev: real)
    requires |revs| == |data|
    ensures Annotated(data + [x], revs + [rev]) == Annotated(data, revs) + [Mark(x, revs + [rev], |data|)]
  {
    forall k | 0 <= k < |data|
      ensures Mark(data[k], revs + [rev], k) == Mark(data[k], revs, k)
    {
      MarkSnoc(data[k], revs, rev, k);
    }
  }

  /**
   * What the loop keeps of a running best: no record while the sentinel
   * holds, otherwise a record with the car and total_sales of the best one.
   */
  ghost predicate Leads(best: Option<Record>, xs: seq<real>, data: seq<Record>)
    requires |xs| == |data|
  {
    match Best(xs)
    case None => best.None?
    case Some(k) => best.Some? && best.value.car == data[k].car && best.value.totalSales == data[k].totalSales
  }

  /** The scan's step keeps Leads and the value it compares against. */
  lemma {:induction false} LeadsSnoc(best: Option<Record>, xs: seq<real>, data: seq<Record>,
                                     x: real, last: Record, item: Record)
    requires |xs| == |data| && Leads(best, xs, data)
    requires item.car == last.car && item.totalSales == last.totalSales
    ensures var best' := if x > BestValue(xs, Best(xs)) then Some(item) else best;
            && Leads(best', xs + [x], data + [last])
            && BestValue(xs + [x], Best(xs + [x])) == (if x > BestValue(xs, Best(xs)) then x else BestValue(xs, Best(xs)))
  {
    BestSnoc(xs, x);
    var ys := xs + [x];
    var d := data + [last];
    assert forall j | 0 <= j < |xs| :: ys[j] == xs[j] && d[j] == data[j];
  }

  // ---------------------------------------------------------------------------
  // The loop of process_data, one record at a time
  // ---------------------------------------------------------------------------

  /** The variables the loop carries: the two running bests and the year dictionary. */
  datatype Scan = Scan(maxRevenue: Option<Record>, maxRevenueValue: real,
                       maxSales: Option<Record>, maxSalesValue: int,
                       years: seq<(int, int)>)

  /** The sentinels {"revenue": 0} and {"total_sales": 0}, and the empty dictionary. */
  const Start := Scan(None, 0.0, None, 0, [])

  /**
   * One iteration on a record whose price parsed: the record as the loop
   * leaves it (with "revenue" written when it overtakes) and the new state.
   */
  function Visit(s: Scan, item: Record, price: real): (Scan, Record)
    requires DistinctKeys(s.years)
  {
    var rev := Times(item.totalSales, price);
    var item' := if rev > s.maxRevenueValue then item.(revenue := Some(rev)) else item;
    var maxRevenue := if rev > s.maxRevenueValue then Some(item') else s.maxRevenue;
    var maxRevenueValue := if rev > s.maxRevenueValue then rev else s.maxRevenueValue;
    var maxSales := if item'.totalSales > s.maxSalesValue then Some(item') else s.maxSales;
    var maxSalesValue := if item'.totalSales > s.maxSalesValue then item'.totalSales else s.maxSalesValue;
    (Scan(maxRevenue, maxRevenueValue, maxSales, maxSalesValue, AddYear(s.years, item'.car.year, item'.totalSales)),
     item')
  }

  /**
   * The loop run over the first n records: the state it reaches and the
   * records as it leaves them, or the index of the record whose price made
   * locale.atof raise.
   */
  function ScanTo(data: seq<Record>, atof: Atof, n: nat): (r: Result<(Scan, seq<Record>), nat>)
    requires n <= |data|
    ensures r.Ok? ==> DistinctKeys(r.value.0.years) && |r.value.1| == n
    ensures r.Err? ==> r.error < n
  {
    if n == 0 then Ok((Start, []))
    else
      match ScanTo(data, atof, n - 1)
      case Err(k) => Err(k)
      case Ok(sd) =>
        match PriceOf(data[n - 1], atof)
        case None => Err(n - 1)
        case Some(p) =>
          var v := Visit(sd.0, data[n - 1], p);
          Ok((v.0, sd.1 + [v.1]))
  }

  /** What the statements after the loop return for a final state. */
  function Report(s: Scan): Result<seq<Line>, Error> {
    if s.years == [] then Err(EmptyData)
    else if s.maxRevenue.None? then Err(NoRevenueLeader)
    else if s.maxSales.None? then Err(NoSalesLeader)
    else
      var top := MostPopular(s.years);
      Ok([MostRevenue(FormatCar(s.maxRevenue.value.car), s.maxRevenueValue),
          MostSales(FormatCar(s.maxSales.value.car), s.maxSales.value.totalSales),
          PopularYear(s.years[top].0, s.years[top].1)])
  }

  /**
   * A state of the loop and the records it has left behind, against the
   * reference definitions on the records it has seen: the records are
   * Annotated, the bests are those of Best on the revenues and on the
   * sales, and the dictionary is TallyYears.
   */
  ghost predicate Matches(s: Scan, out: seq<Record>, seen: seq<Record>, revs: seq<real>)
    requires |revs| == |seen|
  {
    var sales := UnitSales(seen);
    && out == Annotated(seen, revs)
    && Leads(s.maxRevenue, revs, seen)
    && s.maxRevenueValue == BestValue(revs, Best(revs))
    && Leads(s.maxSales, sales, seen)
    && s.maxSalesValue as real == BestValue(sales, Best(sales))
    && s.years == TallyYears(seen)
  }

  /** The loop over all of seen fails where Revenues fails, and otherwise Matches. */
  ghost predicate Agrees(seen: seq<Record>, atof: Atof) {
    match Revenues(seen, atof)
    case Err(k) => ScanTo(seen, atof, |seen|) == Err(k)
    case Ok(revs) =>
      && ScanTo(seen, atof, |seen|).Ok?
      && Matches(ScanTo(seen, atof, |seen|).value.0, ScanTo(seen, atof, |seen|).value.1, seen, revs)
  }

  /** One iteration keeps Matches. */
  lemma {:induction false} VisitMatches(s: Scan, out: seq<Record>, seen: seq<Record>, revs: seq<real>,
                                        last: Record, p: real)
    requires |revs| == |seen| && DistinctKeys(s.years) && Matches(s, out, seen, revs)
    ensures var v := Visit(s, last, p);
            Matches(v.0, out + [v.1], seen + [last], revs + [Times(last.totalSales, p)])
  {
    var rev := Times(last.totalSales, p);
    var v := Visit(s, last, p);
    MarkAtScan(last, revs, rev);
    AnnotatedSnoc(seen, revs, last, rev);
    LeadsSnoc(s.maxRevenue, revs, seen, rev, last, v.1);
    var d := seen + [last];
    assert d[..|seen|] == seen;
    assert UnitSales(d) == UnitSales(seen) + [last.totalSales as real];
    LeadsSnoc(s.maxSales, UnitSales(seen), seen, last.totalSales as real, last, v.1);
  }

  /** The loop over n records sees only those n records. */
  lemma {:induction false} ScanToPrefix(a: seq<Record>, b: seq<Record>, atof: Atof, n: nat)
    requires n <= |a| && n <= |b|
    requires forall k | 0 <= k < n :: a[k] == b[k]
    ensures ScanTo(a, atof, n) == ScanTo(b, atof, n)
  {
    if n > 0 {
      ScanToPrefix(a, b, atof, n - 1);
    }
  }

  /** Agrees carries over from seen to seen + [last]. */
  lemma {:induction false} AgreesSnoc(seen: seq<Record>, last: Record, atof: Atof)
    requires Agrees(seen, atof)
    ensures Agrees(seen + [last], atof)
  {
    var d := seen + [last];
    assert d[..|seen|] == seen && d[|seen|] == last;
    ScanToPrefix(d, seen, atof, |seen|);
    match Revenues(seen, atof)
    case Err(k) =>
    case Ok(revs) =>
      match PriceOf(last, atof)
      case None =>
      case Some(p) =>
        var sd := ScanTo(seen, atof, |seen|).value;
        VisitMatches(sd.0, sd.1, seen, revs, last, p);
  }

  /** The loop against the reference definitions. */
  lemma {:induction false} ScanToSpec(seen: seq<Record>, atof: Atof)
    ensures Agrees(seen, atof)
  {
    if seen != [] {
      var pre := seen[..|seen| - 1];
      ScanToSpec(pre, atof);
      AgreesSnoc(pre, seen[|seen| - 1], atof);
      assert pre + [seen[|seen| - 1]] == seen;
    }
  }

  /** The loop's next iteration, when the price of record i parses. */
  lemma {:induction false} ScanToNext(data: seq<Record>, atof: Atof, i: nat, s: Scan, out: seq<Record>, p: real)
    requires i < |data| && ScanTo(data, atof, i) == Ok((s, out)) && PriceOf(data[i], atof) == Some(p)
    ensures DistinctKeys(s.years)
    ensures var v := Visit(s, data[i], p);
            ScanTo(data, atof, i + 1) == Ok((v.0, out + [v.1]))
  {
  }

  /** Once the price at index i fails to parse, the loop ends there whatever follows. */
  lemma {:induction false} ScanStops(data: seq<Record>, atof: Atof, i: nat, n: nat)
    requires i < n <= |data| && ScanTo(data, atof, i).Ok? && PriceOf(data[i], atof).None?
    ensures ScanTo(data, atof, n) == Err(i)
  {
    if n > i + 1 {
      ScanStops(data, atof, i, n - 1);
    }
  }

  /**
   * A completed loop: every price parsed, the records are left Annotated and
   * the report is the summary the reference definitions give.
   */
  lemma {:induction false} ScanCompleted(data: seq<Record>, atof: Atof, s: Scan, out: seq<Record>)
    requires ScanTo(data, atof, |data|) == Ok((s, out))
    ensures Revenues(data, atof).Ok?
    ensures out == Annotated(data, Revenues(data, atof).value)
    ensures Summarize(data, atof) == Report(s)
  {
    ScanToSpec(data, atof);
    RevenuesSpec(data, atof);
  }

  /**
   * A loop stopped by the price at index i: the summary is that error and the
   * records before i are left Annotated.
   */
  lemma {:induction false} ScanStopped(data: seq<Record>, atof: Atof, i: nat, s: Scan, out: seq<Record>)
    requires i < |data| && ScanTo(data, atof, i) == Ok((s, out)) && PriceOf(data[i], atof).None?
    ensures Revenues(data, atof) == Err(i)
    ensures Revenues(data[..i], atof).Ok?
    ensures out == Annotated(data[..i], Revenues(data[..i], atof).value)
    ensures Summarize(data, atof) == Err(UnparsablePrice(i))
  {
    ScanStops(data, atof, i, |data|);
    ScanToSpec(data, atof);
    ScanToPrefix(data[..i], data, atof, i);
    ScanToSpec(data[..i], atof);
  }

  // ---------------------------------------------------------------------------
  // process_data itself
  // ---------------------------------------------------------------------------

  /**
   * The loop of process_data over the caller's records. It writes "revenue"
   * into each record that overtakes the running best, so the caller's
   * records change. When a price does not parse, it stops with that index,
   * and the records before it have already been written.
   */
  method ScanRecords(data: array<Record>, atof: Atof) returns (r: Result<Scan, nat>)
    modifies data
    ensures match ScanTo(old(data[..]), atof, data.Length)
      case Ok(sd) => r == Ok(sd.0) && data[..] == sd.1
      case Err(k) =>
        && r == Err(k)
        && ScanTo(old(data[..]), atof, k).Ok?
        && PriceOf(old(data[k]), atof).None?
        && data[..] == ScanTo(old(data[..]), atof, k).value.1 + old(data[k..])
  {
    ghost var input := data[..];
    var maxRevenue: Option<Record> := None;
    var maxRevenueValue := 0.0;
    var maxSales: Option<Record> := None;
    var maxSalesValue := 0;
    var years: seq<(int, int)> := [];
    var i := 0;
    while i < data.Length
      invariant 0 <= i <= data.Length
      invariant ScanTo(input, atof, i)
             == Ok((Scan(maxRevenue, maxRevenueValue, maxSales, maxSalesValue, years), data[..i]))
      invariant forall k | i <= k < data.Length :: data[k] == input[k]
    {
      ghost var done := data[..i];
      ghost var before := Scan(maxRevenue, maxRevenueValue, maxSales, maxSalesValue, years);
      var item := data[i];
      var price := atof(StripDollars(item.price));
      if price.None? {
        ScanStops(input, atof, i, data.Length);
        assert data[..] == done + input[i..];
        return Err(i);
      }
      ScanToNext(input, atof, i, before, done, price.value);
      var itemRevenue := Times(item.totalSales, price.value);
      if itemRevenue > maxRevenueValue {
        item := item.(revenue := Some(itemRevenue));
        data[i] := item;
        maxRevenue, maxRevenueValue := Some(item), itemRevenue;
      }
      if item.totalSales > maxSalesValue {
        maxSales, maxSalesValue := Some(item), item.totalSales;
      }
      years := AddYear(years, item.car.year, item.totalSales);
      assert data[..i + 1] == done + [item];
      i := i + 1;
    }
    assert data[..i] == data[..];
    r := Ok(Scan(maxRevenue, maxRevenueValue, maxSales, maxSalesValue, years));
  }

  /**
   * process_data: the loop, then the three summary lines built from what it
   * found. A bad price, an empty input or a missing leader is an Error.
   */
  method ProcessData(data: array<Record>, atof: Atof) returns (r: Result<seq<Line>, Error>)
    modifies data
    ensures r == Summarize(old(data[..]), atof)
    ensures match Revenues(old(data[..]), atof)
      case Ok(revs) => data[..] == Annotated(old(data[..]), revs)
      case Err(k) =>
        && Revenues(old(data[..k]), atof).Ok?
        && data[..] == Annotated(old(data[..k]), Revenues(old(data[..k]), atof).value) + old(data[k..])
  {
    ghost var input := data[..];
    var scan := ScanRecords(data, atof);
    if scan.Err? {
      var k := scan.error;
      ScanStopped(input, atof, k, ScanTo(input, atof, k).value.0, ScanTo(input, atof, k).value.1);
      return Err(UnparsablePrice(k));
    }
    ScanCompleted(input, atof, scan.value, data[..]);
    var maxRevenue, maxRevenueValue, maxSales, years :=
      scan.value.maxRevenue, scan.value.maxRevenueValue, scan.value.maxSales, scan.value.years;
    if years == [] {
      r := Err(EmptyData);
    } else if maxRevenue.None? {
      r := Err(NoRevenueLeader);
    } else if maxSales.None? {
      r := Err(NoSalesLeader);
    } else {
      var top := MostPopular(years);
      r := Ok([MostRevenue(FormatCar(maxRevenue.value.car), maxRevenueValue),
               MostSales(FormatCar(maxSales.value.car), maxSales.value.totalSales),
               PopularYear(years[top].0, years[top].1)]);
    }
  }
}
