/** Natural numbers printed in decimal and read back. */
module Decimals {
  import opened Outcomes

  function Digit(d: nat): char
    requires d < 10
  {
    '0' + d as char
  }

  function Decimal(n: nat): string {
    if n < 10 then [Digit(n)] else Decimal(n / 10) + [Digit(n % 10)]
  }

  predicate IsDigit(c: char) {
    '0' <= c <= '9'
  }

  /** Reading a run of digits; None where the conversion raises. */
  function ParseNat(s: string): Option<nat> {
    if s == [] || !IsDigit(s[|s| - 1]) then None else
    var d := (s[|s| - 1] - '0') as nat;
    if |s| == 1 then Some(d) else
    match ParseNat(s[..|s| - 1])
    case None => None
    case Some(n) => Some(10 * n + d)
  }

  lemma {:induction false} DecimalRoundTrip(n: nat)
    ensures ParseNat(Decimal(n)) == Some(n)
    ensures Decimal(n) != [] && forall i :: 0 <= i < |Decimal(n)| ==> IsDigit(Decimal(n)[i])
  {
    if n >= 10 {
      DecimalRoundTrip(n / 10);
      var s := Decimal(n);
      assert s[..|s| - 1] == Decimal(n / 10);
    }
  }

  ghost predicate Digits(s: string) {
    forall i :: 0 <= i < |s| ==> IsDigit(s[i])
  }

  /** What reads as a number: one digit or more, and nothing else. */
  lemma {:induction false} ReadsExactly(s: string)
    ensures ParseNat(s).Some? <==> s != [] && Digits(s)
  {
    if 1 < |s| && IsDigit(s[|s| - 1]) {
      var front := s[..|s| - 1];
      ReadsExactly(front);
      assert Digits(s) ==> Digits(front);
      assert Digits(front) ==> Digits(s) by {
        if Digits(front) {
          forall i | 0 <= i < |s| ensures IsDigit(s[i]) { if i < |front| { assert s[i] == front[i]; } }
        }
      }
    }
  }

  /** Zeros in front do not count. */
  lemma {:induction false} LeadingZero(s: string)
    requires ParseNat(s).Some?
    ensures ParseNat("0" + s) == ParseNat(s)
  {
    var t := "0" + s;
    assert t[..|t| - 1] == "0" + s[..|s| - 1];
    if |s| == 1 {
      assert "0" + s[..0] == "0";
      assert ParseNat("0") == Some(0);
    } else {
      LeadingZero(s[..|s| - 1]);
    }
  }
}
