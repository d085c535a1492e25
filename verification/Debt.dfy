/** Community debt and standing (src/quota/tenant/debt.ts). */
module Debt {

  datatype Jail = Pristine | SoftWarning | HardJail

  datatype Standing = Standing(debt: int, contributed: int, trusted: bool, debtFreeDays: int, ceiling: int)

  const INITIAL := Standing(0, 0, false, 0, 150)

  /** Integer division of the source, towards zero. */
  function TruncDiv(a: int, b: int): (q: int)
    requires b > 0
  {
    if a >= 0 then a / b else -((-a) / b)
  }

  function Ceiling(debt: int, contributed: int, trusted: bool): (c: int) {
    var ratio := if contributed > 0 then TruncDiv(debt * 100, contributed) else if debt > 0 then 1000 else 0;
    if ratio > 100 then 100
    else if ratio > 50 then 150
    else if trusted then 500 else 450
  }

  function JailStatus(debt: int, ceiling: int): (j: Jail) {
    if debt > 0 && ceiling == 100 then HardJail
    else if debt > 0 && ceiling == 150 then SoftWarning
    else Pristine
  }

  /** The part of the debt forgiven in one day: three tenths for the trusted, else one fifth. */
  function Decay(debt: int, trusted: bool): (d: int) { if trusted then debt * 3 / 10 else debt / 5 }

  /** What a day leaves of a debt. */
  function Remaining(debt: int, trusted: bool): (r: int) {
    if debt > Decay(debt, trusted) then debt - Decay(debt, trusted) else 0
  }

  function DailyReset(s: Standing): (t: Standing) {
    if s.debt == 0 then
      var days := s.debtFreeDays + 1;
      var trusted := s.trusted || days > 30;
      Standing(0, 0, trusted, days, Ceiling(0, 0, trusted))
    else
      var trusted := false;
      var debt := Remaining(s.debt, trusted);
      Standing(debt, 0, trusted, 0, Ceiling(debt, 0, trusted))
  }

  method ProcessDailyDebtReset(s: Standing) returns (t: Standing)
    ensures t == DailyReset(s)
  {
    var days, trusted, debt := s.debtFreeDays, s.trusted, s.debt;
    if debt == 0 {
      days := days + 1;
      if days > 30 {
        trusted := true;
      }
    } else {
      days := 0;
      trusted := false;
      var decay := Decay(debt, trusted);
      debt := if debt > decay then debt - decay else 0;
    }
    t := Standing(debt, 0, trusted, days, Ceiling(debt, 0, trusted));
  }

  function Accrue(s: Standing, weight: int): (t: Standing) {
    s.(debt := s.debt + weight, ceiling := Ceiling(s.debt + weight, s.contributed, s.trusted))
  }

  function Decrement(s: Standing, weight: int): (t: Standing) {
    var debt := if s.debt > weight then s.debt - weight else 0;
    Standing(debt, s.contributed + weight, s.trusted, s.debtFreeDays, Ceiling(debt, s.contributed + weight, s.trusted))
  }

  // ----- invariants

  /** Trust is a streak of more than 30 debt-free days, and the ceiling of a debtor is up to date. */
  predicate Sound(s: Standing) {
    && (s.trusted <==> s.debtFreeDays > 30)
    && (s.debt > 0 ==> s.ceiling == Ceiling(s.debt, s.contributed, s.trusted))
  }

  lemma SoundSteps(s: Standing, weight: int)
    requires Sound(s)
    ensures Sound(Accrue(s, weight)) && Sound(Decrement(s, weight)) && Sound(DailyReset(s))
    ensures Sound(INITIAL)
  {
  }

  lemma QuotientAtLeast(a: int, b: int, k: int)
    requires b > 0 && a >= 0
    ensures a / b >= k <==> a >= k * b
  {
    assert a == a / b * b + a % b;
    if a / b >= k {
      assert a / b * b >= k * b;
    } else {
      assert (a / b + 1) * b <= k * b;
    }
  }

  /** The standing of a sound state, in whole percent of debt over contribution. */
  lemma JailExactly(s: Standing)
    requires Sound(s)
    ensures var jail := JailStatus(s.debt, s.ceiling);
            && (jail == HardJail <==> s.debt > 0 && (s.contributed <= 0 || 100 * s.debt >= 101 * s.contributed))
            && (jail == SoftWarning <==>
                  s.debt > 0 && s.contributed > 0 && 51 * s.contributed <= 100 * s.debt < 101 * s.contributed)
  {
    if s.debt > 0 && s.contributed > 0 {
      QuotientAtLeast(s.debt * 100, s.contributed, 101);
      QuotientAtLeast(s.debt * 100, s.contributed, 51);
    }
  }

  /** The standing as the repository's README words it, on the exact ratio. */
  function Documented(debt: int, contributed: int): Jail
    requires contributed > 0
  {
    if 100 * debt <= 50 * contributed then Pristine
    else if 100 * debt <= 100 * contributed then SoftWarning
    else HardJail
  }

  /** The code follows the README except when the ratio lies strictly between 50% and 51%, or 100% and 101%. */
  lemma DocumentedExactlyWhen(s: Standing)
    requires Sound(s) && s.contributed > 0
    ensures JailStatus(s.debt, s.ceiling) == Documented(s.debt, s.contributed) <==>
            !(50 * s.contributed < 100 * s.debt < 51 * s.contributed)
            && !(100 * s.contributed < 100 * s.debt < 101 * s.contributed)
  {
    JailExactly(s);
  }

  lemma DocumentedFailsAt()
    ensures var s := Accrue(INITIAL.(contributed := 200), 101);
            Sound(s) && JailStatus(s.debt, s.ceiling) == Pristine && Documented(s.debt, s.contributed) == SoftWarning
  {
  }

  // ----- the daily decay

  /**
   * Trust is cleared before the rate is chosen, so a trusted debtor is forgiven as much as any
   * other. What three tenths would leave is left only by debts so small that both rates come to the same.
   */
  lemma TrustedRateIsNeverUsed(s: Standing)
    requires s.debt > 0
    ensures DailyReset(s).debt == Remaining(s.debt, false)
    ensures DailyReset(s).debt == Remaining(s.debt, true) <==> s.debt in {1, 2, 3, 5, 6}
  {
  }

  // ----- repeated daily resets

  function Resets(s: Standing, n: nat): (t: Standing) {
    if n == 0 then s else DailyReset(Resets(s, n - 1))
  }

  /** Resets never raise a debt, never clear one completely, and stop at a debt below 5 that stays. */
  lemma {:induction false} ResetsSettle(s: Standing, n: nat)
    requires s.debt >= 0
    ensures 0 <= Resets(s, n).debt <= s.debt
    ensures s.debt > 0 <==> Resets(s, n).debt > 0
    ensures Resets(s, n).debt < 5 || Resets(s, n).debt <= s.debt - n
    ensures Resets(s, n).debt < 5 ==> Resets(s, n + 1).debt == Resets(s, n).debt
    ensures n >= s.debt ==> Resets(s, n).debt < 5
  {
    if n > 0 {
      ResetsSettle(s, n - 1);
    }
  }

  function Power(b: nat, n: nat): nat { if n == 0 then 1 else b * Power(b, n - 1) }

  /** One reset takes at least a fifth of what a debt has above 4. */
  lemma ResetShrinks(debt: int)
    requires debt >= 0
    ensures 5 * (Remaining(debt, false) - 4) <= 4 * (debt - 4)
  {
  }

  /** The decay is geometric: n resets leave at most (4/5)^n of what a debt has above 4. */
  lemma {:induction false} ResetsShrink(s: Standing, n: nat)
    requires s.debt >= 0
    ensures Power(5, n) * (Resets(s, n).debt - 4) <= Power(4, n) * (s.debt - 4)
  {
    if n > 0 {
      ResetsShrink(s, n - 1);
      ResetsSettle(s, n - 1);
      var before, after := Resets(s, n - 1).debt - 4, Resets(s, n).debt - 4;
      assert 5 * after <= 4 * before by {
        if before > -4 {
          ResetShrinks(before + 4);
        }
      }
      OneMoreDay(Power(5, n - 1), Power(4, n - 1), before, after, s.debt - 4);
    }
  }

  lemma OneMoreDay(p: nat, q: nat, before: int, after: int, start: int)
    requires p * before <= q * start && 5 * after <= 4 * before
    ensures 5 * p * after <= 4 * q * start
  {
    assert p * (5 * after) <= p * (4 * before);
    assert p * (5 * after) == 5 * p * after && p * (4 * before) == 4 * (p * before) && 4 * (q * start) == 4 * q * start;
  }

  /** From a positive debt, resets alone never earn trust. */
  lemma {:induction false} DebtorsStayUntrusted(s: Standing, n: nat)
    requires s.debt > 0 && n >= 1
    ensures !Resets(s, n).trusted && Resets(s, n).debtFreeDays == 0
  {
    ResetsSettle(s, n - 1);
  }
}
