/**
 * Decimal text of integers, as Python's "{}".format renders an int, and the
 * reading back of that text. The round trip is what makes the rendering
 * trustworthy: the number can be recovered from the text.
 */
module Text {
  import opened Wrappers

  predicate IsDigit(c: char) {
    '0' <= c <= '9'
  }

  predicate AllDigits(s: string) {
    forall i | 0 <= i < |s| :: IsDigit(s[i])
  }

  function DigitChar(d: nat): (c: char)
    requires d < 10
    ensures IsDigit(c)
  {
    "0123456789"[d]
  }

  function DigitValue(c: char): (d: nat)
    requires IsDigit(c)
    ensures d < 10
  {
    (c as int) - ('0' as int)
  }

  /** The decimal digits of n, most significant first, without leading zeros. */
  function NatToString(n: nat): (s: string)
    ensures s != [] && AllDigits(s)
    ensures n >= 10 ==> s[0] != '0'
  {
    if n < 10 then [DigitChar(n)] else NatToString(n / 10) + [DigitChar(n % 10)]
  }

  /** The number that a non-empty run of decimal digits denotes. */
  function DigitsValue(s: string): nat
    requires AllDigits(s)
  {
    if s == [] then 0 else 10 * DigitsValue(s[..|s| - 1]) + DigitValue(s[|s| - 1])
  }

  /** Python's str() of an int: an optional minus sign, then the digits. */
  function IntToString(i: int): (s: string)
    ensures s != []
    ensures forall k | 0 <= k < |s| :: IsDigit(s[k]) || s[k] == '-'
  {
    if i < 0 then "-" + NatToString(-i) else NatToString(i)
  }

  /** Reads back an optionally signed run of decimal digits. */
  function ParseInt(s: string): Option<int> {
    if |s| > 1 && s[0] == '-' && AllDigits(s[1..]) then Some(-(DigitsValue(s[1..]) as int))
    else if s != [] && AllDigits(s) then Some(DigitsValue(s))
    else None
  }

  lemma {:induction false} DigitsOfNat(n: nat)
    ensures DigitsValue(NatToString(n)) == n
  {
    if n >= 10 {
      DigitsOfNat(n / 10);
      var s := NatToString(n / 10);
      var t := s + [DigitChar(n % 10)];
      assert t[..|t| - 1] == s;
      assert DigitValue(DigitChar(n % 10)) == n % 10 by {
        assert "0123456789"[n % 10] as int == '0' as int + n % 10;
      }
    } else {
      assert DigitValue(DigitChar(n)) == n by {
        assert "0123456789"[n] as int == '0' as int + n;
      }
    }
  }

  /** The text of an int reads back as that int. */
  lemma {:induction false} IntToStringRoundTrip(i: int)
    ensures ParseInt(IntToString(i)) == Some(i)
  {
    if i < 0 {
      DigitsOfNat(-i);
      assert IntToString(i)[1..] == NatToString(-i);
    } else {
      DigitsOfNat(i);
    }
  }

  /** The position of the last occurrence of c in s, if any. */
  function LastIndexOf(s: string, c: char): (r: Option<nat>)
    ensures r.None? <==> forall j | 0 <= j < |s| :: s[j] != c
    ensures r.Some? ==>
              && r.value < |s| && s[r.value] == c
              && forall j | r.value < j < |s| :: s[j] != c
  {
    if s == [] then None
    else if s[|s| - 1] == c then Some(|s| - 1)
    else LastIndexOf(s[..|s| - 1], c)
  }

  /** A character followed only by other characters is the last occurrence. */
  lemma {:induction false} LastIndexOfBefore(a: string, c: char, u: string)
    requires forall j | 0 <= j < |u| :: u[j] != c
    ensures LastIndexOf(a + [c] + u, c) == Some(|a|)
  {
    var t := a + [c] + u;
    assert t[|a|] == c;
    assert forall j | |a| < j < |t| :: t[j] == u[j - |a| - 1];
  }

  /** The middle part of a concatenation, cut back out. */
  lemma {:induction false} Infix(a: string, b: string, c: string)
    ensures (a + b + c)[|a|..|a| + |b|] == b
  {
    assert forall j | 0 <= j < |b| :: (a + b + c)[|a| + j] == b[j];
  }

  /** No colon anywhere in s. */
  predicate NoColon(s: string) {
    forall j | 0 <= j < |s| :: s[j] != ':'
  }

  /** In lead + a + ": " + b + tail with a colon nowhere else, a and b are cut back out at the colon. */
  lemma {:induction false} SplitAtColon(lead: string, a: string, b: string, tail: string)
    requires NoColon(b) && NoColon(tail)
    ensures var t := lead + a + ": " + b + tail;
            var k := |lead| + |a|;
            && LastIndexOf(t, ':') == Some(k)
            && t[|lead|..k] == a
            && t[k + 2..|t| - |tail|] == b
  {
    var t := lead + a + ": " + b + tail;
    var rest := " " + b + tail;
    assert t == (lead + a) + [':'] + rest;
    forall j | 0 <= j < |rest|
      ensures rest[j] != ':'
    {
      if 0 < j <= |b| {
        assert rest[j] == b[j - 1];
      } else if j > |b| {
        assert rest[j] == tail[j - 1 - |b|];
      }
    }
    LastIndexOfBefore(lead + a, ':', rest);
    assert t == lead + a + (": " + b + tail);
    Infix(lead, a, ": " + b + tail);
    assert t == (lead + a + ": ") + b + tail;
    Infix(lead + a + ": ", b, tail);
  }
}
