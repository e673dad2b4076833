/**
 * One car-sales record as the script reads it from its JSON input, the name
 * it prints for a car, and the stripping of currency signs off a price text.
 */
module Cars {
  import opened Wrappers
  import opened Text

  /** The "car" object of a record: car_make, car_model, car_year. */
  datatype Car = Car(make: string, model: string, year: int)

  /**
   * One record: id, car, price (the text "$1234.56"), total_sales, and the
   * "revenue" key that the summary pass attaches to some records.
   */
  datatype Record = Record(id: int, car: Car, price: string, totalSales: int, revenue: Option<real>)

  /** format_car: "<make> <model> (<year>)". */
  function FormatCar(car: Car): (name: string) {
    car.make + " " + car.model + " (" + IntToString(car.year) + ")"
  }

  /**
   * Recovers the year from a name: the integer between the last '(' and the
   * closing ')'.
   */
  function YearOfName(name: string): Option<int> {
    if name == [] || name[|name| - 1] != ')' then None
    else match LastIndexOf(name, '(')
      case None => None
      case Some(p) => if p < |name| - 1 then ParseInt(name[p + 1..|name| - 1]) else None
  }

  /** Whatever the make and the model contain, the name gives back the car's year. */
  lemma {:induction false} NameYearRoundTrip(car: Car)
    ensures YearOfName(FormatCar(car)) == Some(car.year)
  {
    var head := car.make + " " + car.model + " ";
    var digits := IntToString(car.year);
    var name := FormatCar(car);
    assert name == head + "(" + digits + ")";
    assert name[|head|] == '(';
    assert forall j | |head| < j < |name| :: name[j] != '(' by {
      forall j | |head| < j < |name| ensures name[j] != '(' {
        if j < |name| - 1 {
          assert name[j] == digits[j - |head| - 1];
        }
      }
    }
    assert name[|head| + 1..|name| - 1] == digits;
    IntToStringRoundTrip(car.year);
  }

  /** Drops the leading '$' characters. */
  function TrimLeadingDollars(s: string): string {
    if s != [] && s[0] == '$' then TrimLeadingDollars(s[1..]) else s
  }

  /** Drops the trailing '$' characters. */
  function TrimTrailingDollars(s: string): string {
    if s != [] && s[|s| - 1] == '$' then TrimTrailingDollars(s[..|s| - 1]) else s
  }

  /** Python's str.strip("$"): the price text without its currency signs. */
  function StripDollars(s: string): (r: string) {
    TrimTrailingDollars(TrimLeadingDollars(s))
  }

  /** What TrimLeadingDollars keeps is a suffix; what it drops is all '$'. */
  lemma {:induction false} TrimLeadingSuffix(s: string) returns (lo: nat)
    ensures lo <= |s| && TrimLeadingDollars(s) == s[lo..]
    ensures forall i | 0 <= i < lo :: s[i] == '$'
    ensures lo < |s| ==> s[lo] != '$'
  {
    if s != [] && s[0] == '$' {
      var k := TrimLeadingSuffix(s[1..]);
      lo := k + 1;
      assert s[1..][k..] == s[lo..];
      forall i | 0 <= i < lo ensures s[i] == '$' {
        if i > 0 { assert s[i] == s[1..][i - 1]; }
      }
    } else {
      lo := 0;
    }
  }

  /** What TrimTrailingDollars keeps is a prefix; what it drops is all '$'. */
  lemma {:induction false} TrimTrailingPrefix(s: string) returns (hi: nat)
    ensures hi <= |s| && TrimTrailingDollars(s) == s[..hi]
    ensures forall i | hi <= i < |s| :: s[i] == '$'
    ensures 0 < hi ==> s[hi - 1] != '$'
  {
    if s != [] && s[|s| - 1] == '$' {
      hi := TrimTrailingPrefix(s[..|s| - 1]);
      assert s[..|s| - 1][..hi] == s[..hi];
    } else {
      hi := |s|;
    }
  }

  /**
   * strip("$") removes only '$' characters, only at the two ends, and removes
   * all of them there.
   */
  lemma {:induction false} StripDollarsInfix(s: string) returns (lo: nat, hi: nat)
    ensures lo <= hi <= |s| && StripDollars(s) == s[lo..hi]
    ensures forall i | 0 <= i < lo :: s[i] == '$'
    ensures forall i | hi <= i < |s| :: s[i] == '$'
    ensures lo < hi ==> s[lo] != '$' && s[hi - 1] != '$'
  {
    lo := TrimLeadingSuffix(s);
    var t := s[lo..];
    var h := TrimTrailingPrefix(t);
    hi := lo + h;
    assert t[..h] == s[lo..hi];
    forall i | hi <= i < |s| ensures s[i] == '$' {
      assert s[i] == t[i - lo];
    }
  }

  /** Stripping twice is stripping once. */
  lemma {:induction false} StripDollarsIdempotent(s: string)
    ensures StripDollars(StripDollars(s)) == StripDollars(s)
  {
    var lo, hi := StripDollarsInfix(s);
    var r := s[lo..hi];
    if r != [] {
      assert r[0] != '$' && r[|r| - 1] != '$';
    }
  }
}
