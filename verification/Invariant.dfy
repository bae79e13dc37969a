/** capital/invariant.py: the stateless three-balance assertion. */
module CapitalInvariant {
  import opened Options

  datatype Cause =
    | NegativeAvailable | NegativeReserved | NegativeUsed | NegativeCashFloor
    | Mismatch

  /** What CapitalInvariantViolation carries: which guard failed and the two sides. */
  datatype Violation = Violation(cause: Cause, lhs: real, rhs: real, delta: real)

  function ComputeLhs(available: real, reserved: real, used: real): real {
    available + reserved + used
  }

  function ComputeRhs(cashFloor: real, realizedPnl: real): real {
    cashFloor + (if realizedPnl < 0.0 then realizedPnl else 0.0)
  }

  /** Python's `round(x, 2)`: to the nearest paise, ties to even. */
  function Round2(x: real): real {
    var scaled := x * 100.0;
    var low := scaled.Floor;
    var part := scaled - low as real;
    var paise := if part < 0.5 || (part == 0.5 && low % 2 == 0) then low else low + 1;
    paise as real / 100.0
  }

  function Abs(x: real): real {
    if x < 0.0 then -x else x
  }

  function AssertCapitalInvariant(available: real, reserved: real, used: real,
                                  cashFloor: real, realizedPnl: real, tolerance: real): Option<Violation> {
    var l := ComputeLhs(available, reserved, used);
    var r := ComputeRhs(cashFloor, realizedPnl);
    if available < -tolerance then Some(Violation(NegativeAvailable, l, r, l - r))
    else if reserved < -tolerance then Some(Violation(NegativeReserved, l, r, l - r))
    else if used < -tolerance then Some(Violation(NegativeUsed, l, r, l - r))
    else if cashFloor < -tolerance then Some(Violation(NegativeCashFloor, l, r, l - r))
    else
      var lhs, rhs := Round2(l), Round2(r);
      if Abs(lhs - rhs) > tolerance then Some(Violation(Mismatch, lhs, rhs, lhs - rhs)) else None
  }

  lemma Round2IsClose(x: real)
    ensures Abs(Round2(x) - x) <= 0.005
  {
  }

  /** Rounding both sides blurs the tolerance by one paise, and by no more. */
  lemma RoundedGap(l: real, r: real)
    ensures Abs((Round2(l) - Round2(r)) - (l - r)) <= 0.01
  {
    Round2IsClose(l);
    Round2IsClose(r);
  }

  /**
   * What the assertion lets pass, up to the paisa of rounding: no side below the tolerance, and
   * both sides of the equation equal within it, where a loss lowers the floor and a profit does not.
   */
  lemma AssertionIff(available: real, reserved: real, used: real, cashFloor: real, realizedPnl: real, tolerance: real)
    requires tolerance >= 0.0
    ensures var passes := AssertCapitalInvariant(available, reserved, used, cashFloor, realizedPnl, tolerance).None?;
            var gap := available + reserved + used - cashFloor - (if realizedPnl < 0.0 then realizedPnl else 0.0);
            var signs := available >= -tolerance && reserved >= -tolerance && used >= -tolerance && cashFloor >= -tolerance;
      && (passes ==> signs && -tolerance - 0.01 <= gap <= tolerance + 0.01)
      && (signs && -tolerance + 0.01 <= gap <= tolerance - 0.01 ==> passes)
  {
    RoundedGap(ComputeLhs(available, reserved, used), ComputeRhs(cashFloor, realizedPnl));
  }
}
