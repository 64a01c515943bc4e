/**
 * What a schedule promises, proved from its local characterisation
 * `IsSchedule`: it is unique, its records are numbered and dated month by
 * month, every period's figures add up, the reinvestment carry lags by one
 * period, and with the initial payment kept the loan is always repaid.
 */
module ScheduleProperties {
  import opened Dates
  import opened Annuity
  import opened Amortization

  /** Two chained sequences for the same loan agree on their common prefix. */
  lemma {:induction false} SamePrefix(loan: Loan, a: seq<PeriodRecord>, b: seq<PeriodRecord>, i: nat)
    requires loan.annualRate > 0.0 && loan.years >= 1
    requires Chained(loan, a) && Chained(loan, b) && i <= |a| && i <= |b|
    ensures a[..i] == b[..i]
  {
    if i > 0 {
      SamePrefix(loan, a, b, i - 1);
      assert StateBefore(loan, a, i - 1) == StateBefore(loan, b, i - 1) by {
        if i > 1 {
          assert a[i - 2] == a[..i - 1][i - 2];
          assert b[i - 2] == b[..i - 1][i - 2];
        }
      }
      ChainedAt(loan, a, i - 1);
      ChainedAt(loan, b, i - 1);
      assert a[..i] == a[..i - 1] + [a[i - 1]];
      assert b[..i] == b[..i - 1] + [b[i - 1]];
    }
  }

  /** A loan has exactly one schedule: the loop's result is determined by the loan. */
  lemma ScheduleIsUnique(loan: Loan, a: seq<PeriodRecord>, b: seq<PeriodRecord>)
    requires loan.annualRate > 0.0 && loan.years >= 1
    requires IsSchedule(loan, a) && IsSchedule(loan, b)
    ensures a == b
  {
    if |a| < |b| {
      SamePrefix(loan, a, b, |a|);
      assert false;
    } else if |b| < |a| {
      SamePrefix(loan, a, b, |b|);
      assert false;
    } else {
      SamePrefix(loan, a, b, |a|);
      assert a == a[..|a|] && b == b[..|b|];
    }
  }

  /** Records are numbered 1, 2, ... and carry the elapsed time in years. */
  lemma RecordNumbering(loan: Loan, recs: seq<PeriodRecord>, i: nat)
    requires loan.annualRate > 0.0 && loan.years >= 1
    requires IsSchedule(loan, recs) && i < |recs|
    ensures recs[i].num == i + 1 && recs[i].num <= NumPayments(loan)
    ensures recs[i].years * 12.0 == recs[i].num as real
  {
    ChainedAt(loan, recs, i);
  }

  /**
   * The figures of one period add up: the payment is interest plus regular
   * principal, the principal adds the extra payment and the extra income, and
   * the out-of-pocket cost is the payment plus the fee less both incomes,
   * floored at zero.
   */
  lemma PeriodAccounting(loan: Loan, recs: seq<PeriodRecord>, i: nat)
    requires loan.annualRate > 0.0 && loan.years >= 1
    requires IsSchedule(loan, recs) && i < |recs|
    ensures recs[i].interest == StateBefore(loan, recs, i).balance * MonthlyRate(loan.annualRate)
    ensures recs[i].payment == recs[i].interest + recs[i].regularPrincipal
    ensures recs[i].principal == recs[i].regularPrincipal + recs[i].extraPayment + loan.monthlyExtraIncome
    ensures recs[i].monthlyExtraIncome == loan.monthlyExtraIncome
    ensures recs[i].monthlyFee == loan.monthlyFee && recs[i].rentalIncome == loan.rentalIncome
    ensures var gross := recs[i].payment + loan.monthlyFee - loan.rentalIncome - loan.monthlyExtraIncome;
      recs[i].monthlyCost >= 0.0 && recs[i].monthlyCost >= gross
      && (recs[i].monthlyCost == 0.0 || recs[i].monthlyCost == gross)
  {
    ChainedAt(loan, recs, i);
  }

  /**
   * The balance left by a period is the balance entering it less its
   * principal, floored at zero: never negative, and no higher than before when
   * the principal is not negative.
   */
  lemma BalanceStep(loan: Loan, recs: seq<PeriodRecord>, i: nat)
    requires loan.annualRate > 0.0 && loan.years >= 1
    requires IsSchedule(loan, recs) && i < |recs|
    ensures var before := StateBefore(loan, recs, i).balance;
      && recs[i].remainingBalance >= 0.0
      && recs[i].remainingBalance >= before - recs[i].principal
      && (recs[i].remainingBalance == 0.0 || recs[i].remainingBalance == before - recs[i].principal)
      && (before >= 0.0 && recs[i].principal >= 0.0 ==> recs[i].remainingBalance <= before)
    ensures i > 0 ==> StateBefore(loan, recs, i).balance == recs[i - 1].remainingBalance > 0.0
  {
    ChainedAt(loan, recs, i);
  }

  /**
   * The initial payment clears the original loan over the whole term, exceeds
   * the first month's interest, and leaves a positive balance before the end.
   */
  lemma InitialPaymentClearsLoan(loan: Loan)
    requires loan.annualRate > 0.0 && loan.years >= 1
    ensures Amortized(loan.principal, MonthlyRate(loan.annualRate), InitialPayment(loan), NumPayments(loan)) == 0.0
    ensures loan.principal > 0.0 ==> InitialPayment(loan) > loan.principal * MonthlyRate(loan.annualRate)
  {
    MonthsOfWholeYears(loan.years);
    MonthlyPaymentClearsLoan(loan.principal, loan.annualRate, loan.years as real);
  }

  lemma PlanOutstanding(loan: Loan, k: nat)
    requires loan.annualRate > 0.0 && loan.years >= 1
    requires loan.principal > 0.0 && k < NumPayments(loan)
    ensures Amortized(loan.principal, MonthlyRate(loan.annualRate), InitialPayment(loan), k) > 0.0
  {
    MonthsOfWholeYears(loan.years);
    OutstandingBeforeTerm(loan.principal, loan.annualRate, loan.years as real, k);
  }

  /**
   * Keeping the term: every period pays the initial payment, the one that
   * clears the original loan over the whole term.
   */
  lemma TermReductionKeepsPayment(loan: Loan, recs: seq<PeriodRecord>, i: nat)
    requires loan.annualRate > 0.0 && loan.years >= 1 && loan.strategy == ReduceTerm
    requires IsSchedule(loan, recs) && i < |recs|
    ensures recs[i].payment == InitialPayment(loan)
    ensures Amortized(loan.principal, MonthlyRate(loan.annualRate), recs[i].payment, NumPayments(loan)) == 0.0
  {
    RecordPayment(loan, recs, i);
    InitialPaymentClearsLoan(loan);
  }

  /**
   * Reducing the payment: while something is owed, each period's payment is
   * the one that clears the balance entering it over the months still left,
   * and it exceeds that period's interest.
   */
  lemma PaymentReductionRecomputes(loan: Loan, recs: seq<PeriodRecord>, i: nat)
    requires loan.annualRate > 0.0 && loan.years >= 1 && loan.strategy == ReducePayment
    requires IsSchedule(loan, recs) && i < |recs|
    requires StateBefore(loan, recs, i).balance > 0.0
    ensures Amortized(StateBefore(loan, recs, i).balance, MonthlyRate(loan.annualRate), recs[i].payment, NumPayments(loan) - i) == 0.0
    ensures recs[i].payment > recs[i].interest
  {
    RecordPayment(loan, recs, i);
    RecomputedPaymentClears(loan, i + 1, StateBefore(loan, recs, i).balance);
  }

  /** Reducing the payment: once nothing is owed, the payment is 0. */
  lemma PaymentReductionStopsWhenRepaid(loan: Loan, recs: seq<PeriodRecord>, i: nat)
    requires loan.annualRate > 0.0 && loan.years >= 1 && loan.strategy == ReducePayment
    requires IsSchedule(loan, recs) && i < |recs|
    requires StateBefore(loan, recs, i).balance <= 0.0
    ensures recs[i].payment == 0.0
  {
    RecordPayment(loan, recs, i);
  }

  /** The conditions under which recomputing the payment always repays the loan. */
  predicate ReducesPaymentWithoutWithdrawals(loan: Loan) {
    && loan.annualRate > 0.0 && loan.years >= 1
    && loan.strategy == ReducePayment && loan.principal > 0.0 && loan.monthlyExtraIncome >= 0.0
    && (forall d :: d in loan.extraPayments ==> loan.extraPayments[d] >= 0.0)
  }

  /**
   * Reducing the payment, with no negative one-off payments and no negative
   * extra income, the loan is repaid in full by the last record.
   */
  lemma PaymentReductionRepaysLoan(loan: Loan, recs: seq<PeriodRecord>)
    requires ReducesPaymentWithoutWithdrawals(loan)
    requires IsSchedule(loan, recs)
    ensures recs[|recs| - 1].remainingBalance == 0.0
  {
    var last := |recs| - 1;
    BalanceStep(loan, recs, last);
    if recs[last].remainingBalance > 0.0 {
      var b := StateBefore(loan, recs, last).balance;
      var rate := MonthlyRate(loan.annualRate);
      PaymentReductionRecomputes(loan, recs, last);
      assert Amortized(b, rate, recs[last].payment, 1) == b * (1.0 + rate) - recs[last].payment;
      PeriodAccounting(loan, recs, last);
      assert recs[last].regularPrincipal == b;
      ExtraPaymentNotNegative(loan, recs, last);
      assert false;
    }
  }

  /**
   * Reducing the payment, without withdrawals, the schedule ends before the
   * full term only when the last period's extra payment and extra income
   * cover what the recomputed payment would have left after that month, a
   * positive amount: otherwise the term stays what it was.
   */
  lemma PaymentReductionEndsEarlyOnlyByExtra(loan: Loan, recs: seq<PeriodRecord>)
    requires ReducesPaymentWithoutWithdrawals(loan)
    requires IsSchedule(loan, recs) && |recs| < NumPayments(loan)
    ensures var last := |recs| - 1;
      var b := StateBefore(loan, recs, last).balance;
      recs[last].extraPayment + loan.monthlyExtraIncome
        >= Amortized(b, MonthlyRate(loan.annualRate), recs[last].payment, 1) > 0.0
  {
    var last := |recs| - 1;
    var b := StateBefore(loan, recs, last).balance;
    BalanceStep(loan, recs, last);
    PaymentReductionRecomputes(loan, recs, last);
    PeriodAccounting(loan, recs, last);
    assert recs[last].regularPrincipal + recs[last].extraPayment + loan.monthlyExtraIncome >= b;
    OneMonthLeavesPositive(b, MonthlyRate(loan.annualRate), recs[last].payment, NumPayments(loan) - last);
  }

  /**
   * A positive balance cleared by a level payment over at least two months,
   * a payment above the interest, is still positive after the first month.
   */
  lemma OneMonthLeavesPositive(b: real, rate: real, p: real, n: nat)
    requires rate > 0.0 && b > 0.0 && n >= 2
    requires Amortized(b, rate, p, n) == 0.0 && p > b * rate
    ensures Amortized(b, rate, p, 1) == b + b * rate - p
    ensures Amortized(b, rate, p, 1) > 0.0
  {
    assert Amortized(b, rate, p, 0) == b;
    PositiveTimesPositive(b, rate);
    if Amortized(b, rate, p, 1) <= 0.0 {
      OverpaidStaysNegative(b, rate, p, 1, n);
      assert false;
    }
  }

  /**
   * Reducing the payment, without withdrawals, every period repays a positive
   * principal and the balance falls strictly from period to period.
   */
  lemma PaymentReductionBalanceFalls(loan: Loan, recs: seq<PeriodRecord>, i: nat)
    requires ReducesPaymentWithoutWithdrawals(loan)
    requires IsSchedule(loan, recs) && i < |recs|
    ensures recs[i].principal > 0.0
    ensures recs[i].remainingBalance < StateBefore(loan, recs, i).balance
  {
    BalanceStep(loan, recs, i);
    PaymentReductionRecomputes(loan, recs, i);
    PeriodAccounting(loan, recs, i);
    ExtraPaymentNotNegative(loan, recs, i);
  }

  /** Without withdrawals, a period's extra payment is never negative. */
  lemma ExtraPaymentNotNegative(loan: Loan, recs: seq<PeriodRecord>, i: nat)
    requires loan.annualRate > 0.0 && loan.years >= 1
    requires forall d :: d in loan.extraPayments ==> loan.extraPayments[d] >= 0.0
    requires IsSchedule(loan, recs) && i < |recs|
    ensures recs[i].extraPayment >= 0.0
  {
    ReinvestmentCarry(loan, recs, i);
    if i > 0 {
      ReinvestmentCarry(loan, recs, i - 1);
    }
    assert ExtraOn(loan.extraPayments, recs[i].date) >= 0.0;
  }

  /**
   * Reducing the payment, a period that repays more than its regular
   * principal (an extra payment or extra income) lowers the next payment.
   */
  lemma ExtraLowersNextPayment(loan: Loan, recs: seq<PeriodRecord>, i: nat)
    requires loan.annualRate > 0.0 && loan.years >= 1 && loan.strategy == ReducePayment
    requires IsSchedule(loan, recs) && i + 1 < |recs|
    requires StateBefore(loan, recs, i).balance > 0.0
    requires recs[i].extraPayment + loan.monthlyExtraIncome > 0.0
    ensures recs[i + 1].payment < recs[i].payment
  {
    var b := StateBefore(loan, recs, i).balance;
    PaymentReductionRecomputes(loan, recs, i);
    PeriodAccounting(loan, recs, i);
    BalanceStep(loan, recs, i);
    BalanceStep(loan, recs, i + 1);
    assert recs[i].remainingBalance == b - recs[i].principal;
    assert recs[i].remainingBalance < b + recs[i].interest - recs[i].payment;
    PaymentReductionRecomputes(loan, recs, i + 1);
    RepayingMoreLowersPayment(b, MonthlyRate(loan.annualRate), recs[i].payment, NumPayments(loan) - i,
                              recs[i].remainingBalance, recs[i + 1].payment);
  }

  /**
   * A month that leaves less than the level payment would have left needs a
   * smaller level payment to clear what remains in the months after it.
   */
  lemma RepayingMoreLowersPayment(b: real, rate: real, p: real, n: nat, next: real, q: real)
    requires rate > 0.0 && n >= 2
    requires Amortized(b, rate, p, n) == 0.0
    requires next < b + b * rate - p
    requires Amortized(next, rate, q, n - 1) == 0.0
    ensures q < p
  {
    var planned := Amortized(b, rate, p, 1);
    assert Amortized(b, rate, p, 0) == b;
    assert planned == b * (1.0 + rate) - p;
    AmortizedCompose(b, rate, p, 1, n - 1);
    ClearingPaymentMonotone(next, planned, rate, q, p, n - 1);
  }

  /** A recomputed payment clears the balance it is computed from over the months left. */
  lemma RecomputedPaymentClears(loan: Loan, num: nat, balance: real)
    requires loan.annualRate > 0.0 && loan.years >= 1 && loan.strategy == ReducePayment
    requires 1 <= num <= NumPayments(loan) && balance > 0.0
    ensures Amortized(balance, MonthlyRate(loan.annualRate), PaymentFor(loan, num, balance), NumPayments(loan) - num + 1) == 0.0
    ensures PaymentFor(loan, num, balance) > balance * MonthlyRate(loan.annualRate)
  {
    var left := NumPayments(loan) - num + 1;
    MonthsOfWholeTerm(left);
    MonthlyPaymentClearsLoan(balance, loan.annualRate, left as real / 12.0);
  }

  /**
   * The carry: a period's extra payment is the one-off payment dated on it
   * plus, with reinvestment on, the previous period's surplus. The surplus is
   * never negative, is 0 with reinvestment off, and is what the rental income
   * leaves over after the whole payment.
   */
  lemma ReinvestmentCarry(loan: Loan, recs: seq<PeriodRecord>, i: nat)
    requires loan.annualRate > 0.0 && loan.years >= 1
    requires IsSchedule(loan, recs) && i < |recs|
    ensures recs[i].extraPayment
         == ExtraOn(loan.extraPayments, recs[i].date)
            + (if loan.reinvestExcess && i > 0 then recs[i - 1].excessReinvested else 0.0)
    ensures recs[i].excessReinvested >= 0.0
    ensures !loan.reinvestExcess ==> recs[i].excessReinvested == 0.0
    ensures recs[i].excessReinvested > 0.0 ==> recs[i].excessReinvested == loan.rentalIncome - recs[i].payment
    ensures loan.reinvestExcess && loan.rentalIncome <= recs[i].interest ==> recs[i].excessReinvested == 0.0
    ensures loan.reinvestExcess && loan.rentalIncome > recs[i].interest && loan.rentalIncome >= recs[i].payment
            ==> recs[i].excessReinvested == loan.rentalIncome - recs[i].payment
  {
    ChainedAt(loan, recs, i);
    if i > 0 {
      ChainedAt(loan, recs, i - 1);
    }
  }

  /**
   * Period dates: the first is the start date, each next one is a month
   * later with the day clamped to 28, and every one of them is a real date.
   */
  lemma {:induction false} ScheduleDates(loan: Loan, recs: seq<PeriodRecord>, i: nat)
    requires ValidLoan(loan) && IsSchedule(loan, recs) && i < |recs|
    ensures ValidDate(recs[i].date) && MonthIndex(recs[i].date) == MonthIndex(loan.startDate) + i
    ensures i == 0 ==> recs[i].date == loan.startDate
    ensures i > 0 ==> recs[i].date == NextDate(recs[i - 1].date) && recs[i].date.day == Min(loan.startDate.day, 28)
  {
    ChainedAt(loan, recs, i);
    if i > 0 {
      ScheduleDates(loan, recs, i - 1);
      ChainedAt(loan, recs, i - 1);
      NextPeriodDate(loan, recs[i - 1].date, i - 1);
    }
  }

  /** Period dates strictly increase. */
  lemma DatesStrictlyIncrease(loan: Loan, recs: seq<PeriodRecord>, i: nat, j: nat)
    requires ValidLoan(loan) && IsSchedule(loan, recs) && i < j < |recs|
    ensures Before(recs[i].date, recs[j].date)
  {
    ScheduleDates(loan, recs, i);
    ScheduleDates(loan, recs, j);
    MonthIndexOrdersDates(recs[i].date, recs[j].date);
  }

  /** No two periods share a date, so each one-off payment is applied at most once. */
  lemma ExtraPaymentAppliedOnce(loan: Loan, recs: seq<PeriodRecord>, i: nat, j: nat)
    requires ValidLoan(loan) && IsSchedule(loan, recs) && i < |recs| && j < |recs|
    requires recs[i].date == recs[j].date
    ensures i == j
  {
    ScheduleDates(loan, recs, i);
    ScheduleDates(loan, recs, j);
  }

  /**
   * Two loans that start alike and compute the same record from every state a
   * chained sequence of the first passes through chain the same sequence.
   */
  lemma {:induction false} ChainedWhenPeriodsAgree(loan: Loan, other: Loan, recs: seq<PeriodRecord>)
    requires loan.annualRate > 0.0 && loan.years >= 1
    requires other.annualRate > 0.0 && other.years >= 1
    requires Start(loan) == Start(other)
    requires Chained(loan, recs)
    requires forall i :: 0 <= i < |recs| ==>
      Period(loan, i + 1, StateBefore(loan, recs, i)) == Period(other, i + 1, StateBefore(loan, recs, i))
    ensures Chained(other, recs)
    decreases |recs|
  {
    if recs != [] {
      var n := |recs|;
      var init := recs[..n - 1];
      assert LastChained(loan, recs);
      forall i | 0 <= i < |init|
        ensures Period(loan, i + 1, StateBefore(loan, init, i)) == Period(other, i + 1, StateBefore(loan, init, i))
      {
        assert StateBefore(loan, init, i) == StateBefore(loan, recs, i);
      }
      ChainedWhenPeriodsAgree(loan, other, init);
      assert StateBefore(other, recs, n - 1) == StateBefore(loan, recs, n - 1);
      assert LastChained(other, recs);
    }
  }

  /**
   * A one-off payment dated on no period date changes nothing: the schedule
   * without it is the same.
   */
  lemma UnmatchedExtraPaymentIgnored(loan: Loan, recs: seq<PeriodRecord>, d: Date)
    requires loan.annualRate > 0.0 && loan.years >= 1
    requires IsSchedule(loan, recs)
    requires forall i :: 0 <= i < |recs| ==> recs[i].date != d
    ensures IsSchedule(loan.(extraPayments := loan.extraPayments - {d}), recs)
  {
    var other := loan.(extraPayments := loan.extraPayments - {d});
    forall i | 0 <= i < |recs|
      ensures Period(loan, i + 1, StateBefore(loan, recs, i)) == Period(other, i + 1, StateBefore(loan, recs, i))
    {
      RecordDate(loan, recs, i);
      PeriodWithoutOtherDate(loan, i + 1, StateBefore(loan, recs, i), d);
    }
    ChainedWhenPeriodsAgree(loan, other, recs);
  }

  /** Record `i` of a chained sequence is dated on the date its period enters with. */
  lemma RecordDate(loan: Loan, recs: seq<PeriodRecord>, i: nat)
    requires loan.annualRate > 0.0 && loan.years >= 1
    requires Chained(loan, recs) && i < |recs|
    ensures recs[i].date == StateBefore(loan, recs, i).date
  {
    ChainedAt(loan, recs, i);
  }

  /** A period entered on a date other than `d` does not see a one-off payment dated `d`. */
  lemma PeriodWithoutOtherDate(loan: Loan, num: nat, before: State, d: Date)
    requires loan.annualRate > 0.0 && loan.years >= 1
    requires before.date != d
    ensures Period(loan, num, before) == Period(loan.(extraPayments := loan.extraPayments - {d}), num, before)
  {
    var other := loan.(extraPayments := loan.extraPayments - {d});
    assert ExtraOn(loan.extraPayments, before.date) == ExtraOn(other.extraPayments, before.date);
    assert PaymentFor(loan, num, before.balance) == PaymentFor(other, num, before.balance);
  }

  lemma MulMonotone(a: real, b: real, c: real)
    requires a <= b && c >= 0.0
    ensures a * c <= b * c
  {
  }

  /** The conditions under which keeping the initial payment always repays the loan. */
  predicate KeepsPaymentWithoutWithdrawals(loan: Loan) {
    && loan.annualRate > 0.0 && loan.years >= 1
    && loan.strategy == ReduceTerm && loan.principal > 0.0 && loan.monthlyExtraIncome >= 0.0
    && (forall d :: d in loan.extraPayments ==> loan.extraPayments[d] >= 0.0)
  }

  /** The initial payment exceeds the interest on any balance up to the principal. */
  lemma InitialPaymentCoversInterest(loan: Loan, balance: real)
    requires loan.annualRate > 0.0 && loan.years >= 1 && loan.principal > 0.0
    requires 0.0 <= balance <= loan.principal
    ensures InitialPayment(loan) > balance * MonthlyRate(loan.annualRate)
  {
    InitialPaymentClearsLoan(loan);
    MulMonotone(balance, loan.principal, MonthlyRate(loan.annualRate));
  }

  /**
   * A period of such a loan entered with a positive balance no larger than
   * the principal, and no larger than the plain annuity balance after `k`
   * months, repays a positive principal and leaves at most the plain annuity
   * balance after `k + 1` months.
   */
  lemma TermReductionStep(loan: Loan, balance: real, r: PeriodRecord, k: nat)
    requires KeepsPaymentWithoutWithdrawals(loan)
    requires 0.0 < balance <= loan.principal
    requires balance <= Amortized(loan.principal, MonthlyRate(loan.annualRate), InitialPayment(loan), k)
    requires r.principal >= InitialPayment(loan) - balance * MonthlyRate(loan.annualRate)
    requires r.remainingBalance == Max(0.0, balance - r.principal)
    ensures r.principal > 0.0
    ensures r.remainingBalance < balance
    ensures r.remainingBalance <= Max(0.0, Amortized(loan.principal, MonthlyRate(loan.annualRate), InitialPayment(loan), k + 1))
  {
    InitialPaymentCoversInterest(loan, balance);
    StepBelowPlan(loan.principal, MonthlyRate(loan.annualRate), InitialPayment(loan), k, balance, r.principal);
  }

  /** Record `i` of such a loan repays at least its regular principal, and its balance is floored at 0. */
  lemma TermRecordFigures(loan: Loan, recs: seq<PeriodRecord>, i: nat)
    requires KeepsPaymentWithoutWithdrawals(loan)
    requires Chained(loan, recs) && i < |recs| && StateBefore(loan, recs, i).excess >= 0.0
    ensures var balance := StateBefore(loan, recs, i).balance;
      && recs[i].principal >= InitialPayment(loan) - balance * MonthlyRate(loan.annualRate)
      && recs[i].remainingBalance == Max(0.0, balance - recs[i].principal)
  {
    ChainedAt(loan, recs, i);
    TermPeriodFigures(loan, i + 1, StateBefore(loan, recs, i));
  }

  /** Such a period pays the initial payment and repays at least its regular principal. */
  lemma TermPeriodFigures(loan: Loan, num: nat, before: State)
    requires KeepsPaymentWithoutWithdrawals(loan) && before.excess >= 0.0
    ensures Period(loan, num, before).payment == InitialPayment(loan)
    ensures Period(loan, num, before).principal >= InitialPayment(loan) - before.balance * MonthlyRate(loan.annualRate)
    ensures Period(loan, num, before).remainingBalance == Max(0.0, before.balance - Period(loan, num, before).principal)
  {
    assert ExtraOn(loan.extraPayments, before.date) >= 0.0;
  }

  /**
   * A step from a balance no larger than the annuity balance after `k`
   * months, repaying at least the payment less the interest, leaves no more
   * than the annuity balance after `k + 1` months.
   */
  lemma StepBelowPlan(start: real, rate: real, payment: real, k: nat, balance: real, repaid: real)
    requires 0.0 <= balance <= Amortized(start, rate, payment, k) && rate > 0.0
    requires repaid >= payment - balance * rate
    ensures balance - repaid <= Amortized(start, rate, payment, k + 1)
  {
    var planned := Amortized(start, rate, payment, k);
    MulMonotone(balance, planned, 1.0 + rate);
    assert Amortized(start, rate, payment, k + 1) == planned * (1.0 + rate) - payment;
  }

  /**
   * Keeping the initial payment, with no negative one-off payments and no
   * negative extra income, every period repays a positive principal, the
   * balance falls strictly from period to period, and it is never above the
   * plain annuity balance for the same month.
   */
  lemma {:induction false} TermReductionBalanceFalls(loan: Loan, recs: seq<PeriodRecord>, i: nat)
    requires KeepsPaymentWithoutWithdrawals(loan)
    requires IsSchedule(loan, recs) && i < |recs|
    ensures recs[i].principal > 0.0
    ensures recs[i].remainingBalance < StateBefore(loan, recs, i).balance <= loan.principal
    ensures recs[i].remainingBalance <= Max(0.0, Amortized(loan.principal, MonthlyRate(loan.annualRate), InitialPayment(loan), i + 1))
  {
    var before := StateBefore(loan, recs, i);
    if i > 0 {
      TermReductionBalanceFalls(loan, recs, i - 1);
      BalanceStep(loan, recs, i);
      ReinvestmentCarry(loan, recs, i - 1);
      PlanOutstanding(loan, i);
    }
    TermRecordFigures(loan, recs, i);
    TermReductionStep(loan, before.balance, recs[i], i);
  }

  /**
   * Keeping the initial payment, with no negative one-off payments and no
   * negative extra income, the loan is repaid in full by the last record.
   */
  lemma TermReductionRepaysLoan(loan: Loan, recs: seq<PeriodRecord>)
    requires KeepsPaymentWithoutWithdrawals(loan)
    requires IsSchedule(loan, recs)
    ensures recs[|recs| - 1].remainingBalance == 0.0
  {
    var last := |recs| - 1;
    TermReductionBalanceFalls(loan, recs, last);
    BalanceStep(loan, recs, last);
    InitialPaymentClearsLoan(loan);
  }

  /** No one-off payments, no reinvestment and no extra income. */
  predicate Plain(loan: Loan) {
    loan.extraPayments == map[] && !loan.reinvestExcess && loan.monthlyExtraIncome == 0.0
  }

  /**
   * A plain period keeping the payment is one step of the annuity recurrence,
   * floored at zero.
   */
  lemma PlainPeriod(loan: Loan, num: nat, before: State)
    requires loan.annualRate > 0.0 && loan.years >= 1
    requires loan.strategy == ReduceTerm && Plain(loan)
    ensures Period(loan, num, before).payment == InitialPayment(loan)
    ensures Period(loan, num, before).remainingBalance
         == Max(0.0, Amortized(before.balance, MonthlyRate(loan.annualRate), InitialPayment(loan), 1))
  {
    var r := Period(loan, num, before);
    assert r.principal == r.payment - r.interest;
  }

  /**
   * The plain loan keeping its payment follows the annuity recurrence exactly:
   * each balance is the annuity balance after that many months.
   */
  lemma {:induction false} PlainBalances(loan: Loan, recs: seq<PeriodRecord>, i: nat)
    requires loan.annualRate > 0.0 && loan.years >= 1
    requires IsSchedule(loan, recs) && i < |recs|
    requires loan.strategy == ReduceTerm && loan.principal > 0.0 && Plain(loan)
    ensures recs[i].payment == InitialPayment(loan)
    ensures recs[i].remainingBalance == Amortized(loan.principal, MonthlyRate(loan.annualRate), InitialPayment(loan), i + 1)
  {
    var rate := MonthlyRate(loan.annualRate);
    var p := InitialPayment(loan);
    var before := StateBefore(loan, recs, i);
    if i > 0 {
      PlainBalances(loan, recs, i - 1);
    }
    assert before.balance == Amortized(loan.principal, rate, p, i);
    AmortizedCompose(loan.principal, rate, p, i, 1);
    if i + 1 < NumPayments(loan) {
      PlanOutstanding(loan, i + 1);
    } else {
      InitialPaymentClearsLoan(loan);
    }
    ChainedAt(loan, recs, i);
    PlainPeriod(loan, i + 1, before);
  }

  /**
   * The plain loan keeping its payment runs the whole term and ends with
   * nothing owed.
   */
  lemma PlainScheduleRunsFullTerm(loan: Loan, recs: seq<PeriodRecord>)
    requires loan.annualRate > 0.0 && loan.years >= 1
    requires IsSchedule(loan, recs)
    requires loan.strategy == ReduceTerm && loan.principal > 0.0 && Plain(loan)
    ensures |recs| == NumPayments(loan)
    ensures recs[|recs| - 1].remainingBalance == 0.0
  {
    var last := |recs| - 1;
    PlainBalances(loan, recs, last);
    if last + 1 < NumPayments(loan) {
      PlanOutstanding(loan, last + 1);
    } else {
      InitialPaymentClearsLoan(loan);
    }
  }

  /** Loans differing only in strategy compute the same period when the payment agrees. */
  lemma SamePaymentSamePeriod(loan: Loan, num: nat, before: State)
    requires loan.annualRate > 0.0 && loan.years >= 1
    requires PaymentFor(loan, num, before.balance) == PaymentFor(loan.(strategy := ReducePayment), num, before.balance)
    ensures Period(loan, num, before) == Period(loan.(strategy := ReducePayment), num, before)
  {
  }

  /**
   * For a plain loan the two strategies give the same schedule: the payment
   * recomputed from each balance over the months left is the initial payment.
   */
  lemma PlainStrategiesAgree(loan: Loan, recs: seq<PeriodRecord>)
    requires loan.annualRate > 0.0 && loan.years >= 1
    requires IsSchedule(loan, recs)
    requires loan.strategy == ReduceTerm && loan.principal > 0.0 && Plain(loan)
    ensures IsSchedule(loan.(strategy := ReducePayment), recs)
  {
    var other := loan.(strategy := ReducePayment);
    var n := NumPayments(loan);
    var rate := MonthlyRate(loan.annualRate);
    var p := InitialPayment(loan);
    PlainScheduleRunsFullTerm(loan, recs);
    forall i | 0 <= i < |recs|
      ensures Period(loan, i + 1, StateBefore(loan, recs, i)) == Period(other, i + 1, StateBefore(loan, recs, i))
    {
      var before := StateBefore(loan, recs, i);
      if i > 0 {
        PlainBalances(loan, recs, i - 1);
      }
      assert before.balance == Amortized(loan.principal, rate, p, i);
      PlanOutstanding(loan, i);
      RecomputedPaymentUnchanged(loan.principal, loan.annualRate, n, i);
      assert n as real / 12.0 == loan.years as real;
      assert PaymentFor(other, i + 1, before.balance) == p;
      SamePaymentSamePeriod(loan, i + 1, before);
    }
    ChainedWhenPeriodsAgree(loan, other, recs);
  }
}
