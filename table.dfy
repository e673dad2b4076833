/**
 * cars_dict_to_table: the caller's records are sorted in place by
 * total_sales, largest first (a stable sort, so equal totals keep their
 * order), and a header row is followed by one row per record.
 */
module Table {
  import opened Cars

  // ---------------------------------------------------------------------------
  // The order list.sort(key=total_sales, reverse=True) produces
  // ---------------------------------------------------------------------------

  predicate SortedDesc(s: seq<Record>) {
    forall i, j | 0 <= i < j < |s| :: s[i].totalSales >= s[j].totalSales
  }

  /** The records of s whose total_sales is v, in their order in s. */
  function WithSales(s: seq<Record>, v: int): seq<Record> {
    if s == [] then []
    else WithSales(s[..|s| - 1], v) + (if s[|s| - 1].totalSales == v then [s[|s| - 1]] else [])
  }

  /** Where x goes: after the last record whose total_sales is at least its own. */
  function InsertPos(s: seq<Record>, x: Record): (p: nat)
    ensures p <= |s|
  {
    if s == [] || s[|s| - 1].totalSales >= x.totalSales then |s|
    else InsertPos(s[..|s| - 1], x)
  }

  /** Places x after every record whose total_sales is at least its own. */
  function Insert(s: seq<Record>, x: Record): (r: seq<Record>) {
    var p := InsertPos(s, x);
    s[..p] + [x] + s[p..]
  }

  /** Insert, read one record at a time from the end. */
  lemma {:induction false} InsertUnfold(s: seq<Record>, x: Record)
    ensures s == [] || s[|s| - 1].totalSales >= x.totalSales ==> Insert(s, x) == s + [x]
    ensures s != [] && s[|s| - 1].totalSales < x.totalSales ==>
              Insert(s, x) == Insert(s[..|s| - 1], x) + [s[|s| - 1]]
  {
    if s != [] && s[|s| - 1].totalSales < x.totalSales {
      var pre := s[..|s| - 1];
      var p := InsertPos(s, x);
      assert pre[..p] == s[..p];
      assert s[p..] == pre[p..] + [s[|s| - 1]];
    } else {
      assert s[..|s|] == s;
    }
  }

  /** Reference definition of the stable descending sort: insert the records one by one. */
  function SortDesc(s: seq<Record>): (r: seq<Record>)
    ensures |r| == |s|
  {
    if s == [] then [] else Insert(SortDesc(s[..|s| - 1]), s[|s| - 1])
  }

  lemma {:induction false} WithSalesAppend(s: seq<Record>, t: seq<Record>, v: int)
    ensures WithSales(s + t, v) == WithSales(s, v) + WithSales(t, v)
    decreases |t|
  {
    if t == [] {
      assert s + t == s;
    } else {
      assert (s + t)[..|s + t| - 1] == s + t[..|t| - 1];
      WithSalesAppend(s, t[..|t| - 1], v);
    }
  }

  lemma {:induction false} InsertPermutes(s: seq<Record>, x: Record)
    ensures multiset(Insert(s, x)) == multiset(s) + multiset{x}
  {
    InsertUnfold(s, x);
    if s != [] && s[|s| - 1].totalSales < x.totalSales {
      InsertPermutes(s[..|s| - 1], x);
      assert s == s[..|s| - 1] + [s[|s| - 1]];
    }
  }

  /** Every record after x's place sells less than x; the one just before it sells at least as much. */
  lemma {:induction false} InsertPosBounds(s: seq<Record>, x: Record)
    ensures var p := InsertPos(s, x);
            && (forall k | p <= k < |s| :: s[k].totalSales < x.totalSales)
            && (p > 0 ==> s[p - 1].totalSales >= x.totalSales)
  {
    if s != [] && s[|s| - 1].totalSales < x.totalSales {
      InsertPosBounds(s[..|s| - 1], x);
    }
  }

  lemma {:induction false} InsertSorted(s: seq<Record>, x: Record)
    requires SortedDesc(s)
    ensures SortedDesc(Insert(s, x))
  {
    InsertPosBounds(s, x);
    var p := InsertPos(s, x);
    var r := Insert(s, x);
    forall i, j | 0 <= i < j < |r|
      ensures r[i].totalSales >= r[j].totalSales
    {
      if j < p {
        assert r[i] == s[i] && r[j] == s[j];
      } else if j == p {
        assert r[i] == s[i] && r[j] == x && s[i].totalSales >= s[p - 1].totalSales;
      } else if i < p {
        assert r[i] == s[i] && r[j] == s[j - 1];
      } else if i == p {
        assert r[i] == x && r[j] == s[j - 1];
      } else {
        assert r[i] == s[i - 1] && r[j] == s[j - 1];
      }
    }
  }

  /** Inserting x adds it last among the records with its total_sales and moves no one else among them. */
  lemma {:induction false} InsertStable(s: seq<Record>, x: Record, v: int)
    ensures WithSales(Insert(s, x), v) == WithSales(s, v) + (if x.totalSales == v then [x] else [])
  {
    InsertUnfold(s, x);
    if s == [] || s[|s| - 1].totalSales >= x.totalSales {
      WithSalesAppend(s, [x], v);
      assert WithSales([x], v) == (if x.totalSales == v then [x] else []) by {
        assert [x][..0] == [];
      }
    } else {
      var pre := s[..|s| - 1];
      var last := s[|s| - 1];
      InsertStable(pre, x, v);
      WithSalesAppend(Insert(pre, x), [last], v);
      assert [last][..0] == [];
    }
  }

  /** The sort's result is ordered by total_sales, largest first. */
  lemma {:induction false} SortDescSorted(s: seq<Record>)
    ensures SortedDesc(SortDesc(s))
  {
    if s != [] {
      SortDescSorted(s[..|s| - 1]);
      InsertSorted(SortDesc(s[..|s| - 1]), s[|s| - 1]);
    }
  }

  /** The sort's result holds the same records, each as often. */
  lemma {:induction false} SortDescPermutes(s: seq<Record>)
    ensures multiset(SortDesc(s)) == multiset(s)
  {
    if s != [] {
      SortDescPermutes(s[..|s| - 1]);
      InsertPermutes(SortDesc(s[..|s| - 1]), s[|s| - 1]);
      assert s == s[..|s| - 1] + [s[|s| - 1]];
    }
  }

  /** Stability: the records with any one total_sales keep their relative order. */
  lemma {:induction false} SortDescStable(s: seq<Record>, v: int)
    ensures WithSales(SortDesc(s), v) == WithSales(s, v)
  {
    if s != [] {
      SortDescStable(s[..|s| - 1], v);
      InsertStable(SortDesc(s[..|s| - 1]), s[|s| - 1], v);
    }
  }

  /** Sorting records that are already in order changes nothing, so sorting twice is sorting once. */
  lemma {:induction false} SortDescOfSorted(s: seq<Record>)
    requires SortedDesc(s)
    ensures SortDesc(s) == s
  {
    if s != [] {
      var pre := s[..|s| - 1];
      SortDescOfSorted(pre);
      InsertUnfold(pre, s[|s| - 1]);
      assert s == pre + [s[|s| - 1]];
    }
  }

  lemma {:induction false} SortDescIdempotent(s: seq<Record>)
    ensures SortDesc(SortDesc(s)) == SortDesc(s)
  {
    SortDescSorted(s);
    SortDescOfSorted(SortDesc(s));
  }

  lemma {:induction false} InsertPosShift(s: seq<Record>, x: Record, j: nat)
    requires 0 < j <= |s| && s[j - 1].totalSales < x.totalSales
    ensures InsertPos(s[..j], x) == InsertPos(s[..j - 1], x)
  {
    assert s[..j][..j - 1] == s[..j - 1];
  }

  lemma {:induction false} InsertPosStops(s: seq<Record>, x: Record, j: nat)
    requires j <= |s| && (j == 0 || s[j - 1].totalSales >= x.totalSales)
    ensures InsertPos(s[..j], x) == j
  {
  }

  /** A sequence that agrees with s before j, holds x at j and s shifted by one after j. */
  lemma {:induction false} Spliced(u: seq<Record>, s: seq<Record>, x: Record, j: nat)
    requires |u| == |s| + 1 && j <= |s|
    requires forall k | 0 <= k < j :: u[k] == s[k]
    requires u[j] == x
    requires forall k | j < k < |u| :: u[k] == s[k - 1]
    ensures u == s[..j] + [x] + s[j..]
  {
    var t := s[..j] + [x] + s[j..];
    forall k | 0 <= k < |u|
      ensures u[k] == t[k]
    {
      if k > j {
        assert t[k] == s[k - 1];
      }
    }
  }

  /**
   * The inner loop of the insertion sort: shifts the records before a[i] that
   * sell less than x one place up, and returns the gap they leave.
   */
  method MakeRoom(a: array<Record>, i: nat, x: Record) returns (j: nat)
    requires i < a.Length
    modifies a
    ensures j <= i && j == InsertPos(old(a[..i]), x)
    ensures forall k | 0 <= k < j :: a[k] == old(a[k])
    ensures forall k | j < k <= i :: a[k] == old(a[k - 1])
    ensures forall k | i < k < a.Length :: a[k] == old(a[k])
  {
    ghost var sorted := a[..i];
    j := i;
    assert sorted[..j] == sorted;
    while j > 0 && a[j - 1].totalSales < x.totalSales
      invariant 0 <= j <= i
      invariant forall k | 0 <= k < j :: a[k] == sorted[k]
      invariant forall k | j < k <= i :: a[k] == sorted[k - 1]
      invariant forall k | i < k < a.Length :: a[k] == old(a[k])
      invariant InsertPos(sorted, x) == InsertPos(sorted[..j], x)
    {
      assert a[j - 1] == sorted[j - 1];
      InsertPosShift(sorted, x, j);
      a[j] := a[j - 1];
      assert a[j] == sorted[j - 1];
      j := j - 1;
    }
    assert j > 0 ==> a[j - 1] == sorted[j - 1];
    InsertPosStops(sorted, x, j);
  }

  /** One step of the insertion sort: a[i] moves down past the records before it that sell less. */
  method InsertLast(a: array<Record>, i: nat)
    requires i < a.Length
    modifies a
    ensures a[..i + 1] == Insert(old(a[..i]), old(a[i]))
    ensures forall k | i < k < a.Length :: a[k] == old(a[k])
  {
    ghost var sorted := a[..i];
    var x := a[i];
    var j := MakeRoom(a, i, x);
    a[j] := x;
    Spliced(a[..i + 1], sorted, x, j);
  }

  /** list.sort(key=total_sales, reverse=True) on the caller's list: an insertion sort. */
  method SortBySalesDesc(a: array<Record>)
    modifies a
    ensures a[..] == SortDesc(old(a[..]))
  {
    ghost var orig := a[..];
    var i := 0;
    while i < a.Length
      invariant 0 <= i <= a.Length
      invariant a[..i] == SortDesc(orig[..i])
      invariant forall k | i <= k < a.Length :: a[k] == orig[k]
    {
      InsertLast(a, i);
      assert orig[..i + 1][..i] == orig[..i];
      i := i + 1;
    }
    assert a[..] == a[..a.Length];
    assert orig[..a.Length] == orig;
  }

  // ---------------------------------------------------------------------------
  // The table
  // ---------------------------------------------------------------------------

  /** A table cell: the script mixes strings and ints in its rows. */
  datatype Cell = Str(s: string) | Num(n: int)

  const Header: seq<Cell> := [Str("ID"), Str("Car"), Str("Price"), Str("Total Sales")]

  function RowOf(r: Record): seq<Cell> {
    [Num(r.id), Str(FormatCar(r.car)), Str(r.price), Num(r.totalSales)]
  }

  /**
   * Sorts the caller's records (they stay sorted afterwards) and returns the
   * header followed by one row per record, in the sorted order.
   */
  method CarsDictToTable(carData: array<Record>) returns (table: seq<seq<Cell>>)
    modifies carData
    ensures carData[..] == SortDesc(old(carData[..]))
    ensures |table| == carData.Length + 1
    ensures table[0] == Header
    ensures forall i | 0 <= i < carData.Length :: table[i + 1] == RowOf(carData[i])
  {
    SortBySalesDesc(carData);
    table := [Header];
    var i := 0;
    while i < carData.Length
      invariant 0 <= i <= carData.Length
      invariant |table| == i + 1 && table[0] == Header
      invariant forall k | 0 <= k < i :: table[k + 1] == RowOf(carData[k])
    {
      table := table + [RowOf(carData[i])];
      i := i + 1;
    }
  }
}
