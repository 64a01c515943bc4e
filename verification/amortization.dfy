/**
 * `calculate_amortization_schedule`: the month-by-month walk from the start
 * date to payoff. Each period applies interest, the regular principal of the
 * annuity payment, a one-off extra payment dated exactly on the period date,
 * the surplus carried over from the previous period when reinvestment is on,
 * and the fixed monthly extra income; the balance is floored at zero and the
 * walk stops as soon as it reaches zero.
 *
 * `Period` says what one period computes from the state carried into it;
 * `IsSchedule` says what a whole schedule is; the method below is the loop of
 * the source, proved to produce a schedule.
 */
module Amortization {
  import opened Dates
  import opened Annuity

  /** The two uses of extra payments: a shorter term, or a lower recomputed payment. */
  datatype Strategy = ReduceTerm | ReducePayment

  datatype Loan = Loan(
    principal: real,
    annualRate: real,                 // nominal, in percent
    years: nat,
    monthlyFee: real,
    startDate: Date,
    rentalIncome: real,
    monthlyExtraIncome: real,
    extraPayments: map<Date, real>,   // one-off payments by exact period date
    strategy: Strategy,
    reinvestExcess: bool)

  /** One row of the schedule. */
  datatype PeriodRecord = PeriodRecord(
    date: Date,
    num: nat,
    payment: real,
    principal: real,
    regularPrincipal: real,
    interest: real,
    extraPayment: real,
    monthlyExtraIncome: real,
    excessReinvested: real,
    remainingBalance: real,
    monthlyFee: real,
    rentalIncome: real,
    monthlyCost: real,
    years: real)

  /** What the loop carries from one period into the next. */
  datatype State = State(balance: real, date: Date, excess: real)

  /**
   * What the source needs to run without raising: a positive rate and term
   * (the payment formula divides by zero otherwise), a real start date, and
   * every period date inside the years `datetime.date` can hold.
   */
  predicate ValidLoan(loan: Loan) {
    loan.annualRate > 0.0 && loan.years >= 1
    && ValidDate(loan.startDate) && loan.startDate.year + loan.years <= MaxYear
  }

  function NumPayments(loan: Loan): nat {
    loan.years * 12
  }

  function Max(a: real, b: real): real {
    if a >= b then a else b
  }

  lemma MonthsOfWholeYears(years: nat)
    ensures WholeMonths(years as real) && Months(years as real) == years * 12
  {
    assert years as real * 12.0 == (years * 12) as real;
  }

  /** The payment computed once, from the original principal and term. */
  function InitialPayment(loan: Loan): real
    requires loan.annualRate > 0.0 && loan.years >= 1
  {
    MonthsOfWholeYears(loan.years);
    CalculateMonthlyPayment(loan.principal, loan.annualRate, loan.years as real)
  }

  /**
   * This period's payment: the initial one when reducing the term; otherwise
   * recomputed from the balance over the months left, and 0 once nothing is owed.
   */
  function PaymentFor(loan: Loan, paymentNum: int, balance: real): (payment: real)
    requires loan.annualRate > 0.0 && loan.years >= 1
    ensures loan.strategy == ReduceTerm ==> payment == InitialPayment(loan)
    ensures loan.strategy == ReducePayment && paymentNum <= NumPayments(loan) && balance > 0.0 ==>
      Amortized(balance, MonthlyRate(loan.annualRate), payment, NumPayments(loan) - paymentNum + 1) == 0.0
    ensures loan.strategy == ReducePayment && (paymentNum > NumPayments(loan) || balance <= 0.0) ==> payment == 0.0
  {
    match loan.strategy
    case ReduceTerm => InitialPayment(loan)
    case ReducePayment =>
      var remainingMonths := NumPayments(loan) - paymentNum + 1;
      if remainingMonths > 0 && balance > 0.0 then
        PaymentOverMonths(balance, loan.annualRate, remainingMonths)
      else
        0.0
  }

  /** The one-off extra payment dated exactly `d`, or 0. */
  function ExtraOn(extraPayments: map<Date, real>, d: Date): real {
    if d in extraPayments then extraPayments[d] else 0.0
  }

  /** The record for period number `paymentNum`, entered in state `before`. */
  function Period(loan: Loan, paymentNum: nat, before: State): PeriodRecord
    requires loan.annualRate > 0.0 && loan.years >= 1
  {
    var payment := PaymentFor(loan, paymentNum, before.balance);
    var interest := before.balance * MonthlyRate(loan.annualRate);
    var regular := payment - interest;
    var oneOff := ExtraOn(loan.extraPayments, before.date);
    var extra := if loan.reinvestExcess && before.excess > 0.0 then oneOff + before.excess else oneOff;
    var principal := regular + (extra + loan.monthlyExtraIncome);
    var excess :=
      if loan.reinvestExcess && loan.rentalIncome > interest then Max(0.0, loan.rentalIncome - interest - regular)
      else 0.0;
    PeriodRecord(
      date := before.date,
      num := paymentNum,
      payment := payment,
      principal := principal,
      regularPrincipal := regular,
      interest := interest,
      extraPayment := extra,
      monthlyExtraIncome := loan.monthlyExtraIncome,
      excessReinvested := excess,
      remainingBalance := Max(0.0, before.balance - principal),
      monthlyFee := loan.monthlyFee,
      rentalIncome := loan.rentalIncome,
      monthlyCost := Max(0.0, payment + loan.monthlyFee - loan.rentalIncome - loan.monthlyExtraIncome),
      years := paymentNum as real / 12.0)
  }

  /** The state the first period starts from. */
  function Start(loan: Loan): State {
    State(loan.principal, loan.startDate, 0.0)
  }

  /** The state a period hands to the next one: the carry is its own surplus. */
  function After(r: PeriodRecord): State {
    State(r.remainingBalance, NextDate(r.date), r.excessReinvested)
  }

  /** The state period `i` (counting from 0) of `recs` starts from. */
  function StateBefore(loan: Loan, recs: seq<PeriodRecord>, i: int): State
    requires 0 <= i <= |recs|
  {
    if i == 0 then Start(loan) else After(recs[i - 1])
  }

  /** Every record is the period computed from the state the previous one left. */
  predicate Chained(loan: Loan, recs: seq<PeriodRecord>)
    requires loan.annualRate > 0.0 && loan.years >= 1
    decreases |recs|, 1
  {
    recs == [] || LastChained(loan, recs)
  }

  /** The records before the last are chained, and the last follows from them. */
  predicate LastChained(loan: Loan, recs: seq<PeriodRecord>)
    requires loan.annualRate > 0.0 && loan.years >= 1 && recs != []
    decreases |recs|, 0
  {
    Chained(loan, recs[..|recs| - 1]) && recs[|recs| - 1] == Period(loan, |recs|, StateBefore(loan, recs, |recs| - 1))
  }

  /** The chaining, record by record. */
  lemma {:induction false} ChainedAt(loan: Loan, recs: seq<PeriodRecord>, i: nat)
    requires loan.annualRate > 0.0 && loan.years >= 1
    requires Chained(loan, recs) && i < |recs|
    ensures recs[i] == Period(loan, i + 1, StateBefore(loan, recs, i))
    decreases |recs|
  {
    if i < |recs| - 1 {
      var init := recs[..|recs| - 1];
      ChainedAt(loan, init, i);
      assert init[i] == recs[i];
      assert StateBefore(loan, init, i) == StateBefore(loan, recs, i);
    }
  }

  /** The payment and the interest of record `i` of a chained sequence. */
  lemma RecordPayment(loan: Loan, recs: seq<PeriodRecord>, i: nat)
    requires loan.annualRate > 0.0 && loan.years >= 1
    requires Chained(loan, recs) && i < |recs|
    ensures recs[i].payment == PaymentFor(loan, i + 1, StateBefore(loan, recs, i).balance)
    ensures recs[i].interest == StateBefore(loan, recs, i).balance * MonthlyRate(loan.annualRate)
  {
    ChainedAt(loan, recs, i);
  }

  /**
   * A schedule: at least one and at most `years * 12` chained periods, all
   * leaving a positive balance except the last, which either leaves none or
   * is the last period of the term.
   */
  predicate IsSchedule(loan: Loan, recs: seq<PeriodRecord>)
    requires loan.annualRate > 0.0 && loan.years >= 1
  {
    && 1 <= |recs| <= NumPayments(loan)
    && Chained(loan, recs)
    && (forall i :: 0 <= i < |recs| - 1 ==> recs[i].remainingBalance > 0.0)
    && (|recs| == NumPayments(loan) || recs[|recs| - 1].remainingBalance <= 0.0)
  }

  /**
   * A record whose fields hold, one by one, what a period computes from the
   * state it enters is that period's record.
   */
  lemma PeriodFromFields(loan: Loan, paymentNum: nat, before: State, r: PeriodRecord)
    requires loan.annualRate > 0.0 && loan.years >= 1
    requires r.date == before.date && r.num == paymentNum
    requires r.payment == PaymentFor(loan, paymentNum, before.balance)
    requires r.interest == before.balance * MonthlyRate(loan.annualRate)
    requires r.regularPrincipal == r.payment - r.interest
    requires r.extraPayment == (if loan.reinvestExcess && before.excess > 0.0 then ExtraOn(loan.extraPayments, before.date) + before.excess
                                else ExtraOn(loan.extraPayments, before.date))
    requires r.principal == r.regularPrincipal + (r.extraPayment + loan.monthlyExtraIncome)
    requires r.monthlyExtraIncome == loan.monthlyExtraIncome
    requires r.excessReinvested == (if loan.reinvestExcess && loan.rentalIncome > r.interest then Max(0.0, loan.rentalIncome - r.interest - r.regularPrincipal)
                                    else 0.0)
    requires r.remainingBalance == Max(0.0, before.balance - r.principal)
    requires r.monthlyFee == loan.monthlyFee && r.rentalIncome == loan.rentalIncome
    requires r.monthlyCost == Max(0.0, r.payment + loan.monthlyFee - loan.rentalIncome - loan.monthlyExtraIncome)
    requires r.years == paymentNum as real / 12.0
    ensures r == Period(loan, paymentNum, before)
  {
  }

  /** Appending the record of the period that follows keeps a sequence chained. */
  lemma ChainedExtend(loan: Loan, recs: seq<PeriodRecord>, r: PeriodRecord)
    requires loan.annualRate > 0.0 && loan.years >= 1
    requires Chained(loan, recs)
    requires r == Period(loan, |recs| + 1, StateBefore(loan, recs, |recs|))
    ensures Chained(loan, recs + [r])
  {
    var ext := recs + [r];
    assert ext[..|recs|] == recs;
    assert StateBefore(loan, ext, |recs|) == StateBefore(loan, recs, |recs|);
  }

  /** Every period date of the term, and the one after the last, exists as a date. */
  lemma NextPeriodDate(loan: Loan, d: Date, k: nat)
    requires ValidLoan(loan) && k < NumPayments(loan)
    requires ValidDate(d) && MonthIndex(d) == MonthIndex(loan.startDate) + k
    ensures ValidDate(NextDate(d)) && MonthIndex(NextDate(d)) == MonthIndex(loan.startDate) + k + 1
  {
  }

  /** What appending the next period does to a chained prefix of the schedule. */
  lemma ScheduleStep(loan: Loan, recs: seq<PeriodRecord>, r: PeriodRecord)
    requires ValidLoan(loan) && Chained(loan, recs) && |recs| < NumPayments(loan)
    requires r == Period(loan, |recs| + 1, StateBefore(loan, recs, |recs|))
    requires ValidDate(StateBefore(loan, recs, |recs|).date)
    requires MonthIndex(StateBefore(loan, recs, |recs|).date) == MonthIndex(loan.startDate) + |recs|
    ensures Chained(loan, recs + [r])
    ensures StateBefore(loan, recs + [r], |recs| + 1) == State(r.remainingBalance, NextDate(r.date), r.excessReinvested)
    ensures ValidDate(NextDate(r.date)) && MonthIndex(NextDate(r.date)) == MonthIndex(loan.startDate) + |recs| + 1
  {
    ChainedExtend(loan, recs, r);
    NextPeriodDate(loan, r.date, |recs|);
  }

  /**
   * One pass of the loop body: the payment, its interest and principal
   * parts, the extra payment dated on this period plus any carried surplus,
   * the out-of-pocket cost, the surplus to carry, and the new balance.
   */
  method ComputePeriod(loan: Loan, paymentNum: nat, initialMonthlyPayment: real,
                       remainingBalance: real, currentDate: Date, excessCarried: real)
    returns (record: PeriodRecord, carry: real)
    requires loan.annualRate > 0.0 && loan.years >= 1
    requires initialMonthlyPayment == InitialPayment(loan)
    requires excessCarried >= 0.0 && (!loan.reinvestExcess ==> excessCarried == 0.0)
    ensures record == Period(loan, paymentNum, State(remainingBalance, currentDate, excessCarried))
    ensures carry == record.excessReinvested
    ensures carry >= 0.0 && (!loan.reinvestExcess ==> carry == 0.0)
  {
    var monthlyRate := MonthlyRate(loan.annualRate);
    var numPayments := loan.years * 12;
    var excessForNextMonth := excessCarried;

    var monthlyPayment: real;
    if loan.strategy == ReducePayment {
      // recomputed from the balance over the months that remain
      var remainingMonths := numPayments - paymentNum + 1;
      if remainingMonths > 0 && remainingBalance > 0.0 {
        MonthsOfWholeTerm(remainingMonths);
        monthlyPayment := CalculateMonthlyPayment(remainingBalance, loan.annualRate, remainingMonths as real / 12.0);
      } else {
        monthlyPayment := 0.0;
      }
    } else {
      monthlyPayment := initialMonthlyPayment;
    }

    var interestPayment := remainingBalance * monthlyRate;
    var regularPrincipalPayment := monthlyPayment - interestPayment;
    var principalPayment := regularPrincipalPayment;

    var extraPayment := if currentDate in loan.extraPayments then loan.extraPayments[currentDate] else 0.0;
    if loan.reinvestExcess && excessForNextMonth > 0.0 {
      extraPayment := extraPayment + excessForNextMonth;
      excessForNextMonth := 0.0;
    }

    principalPayment := principalPayment + (extraPayment + loan.monthlyExtraIncome);
    var monthlyCost := Max(0.0, monthlyPayment + loan.monthlyFee - loan.rentalIncome - loan.monthlyExtraIncome);

    var excessReinvested: real;
    if loan.reinvestExcess && loan.rentalIncome > interestPayment {
      var potentialExcess := loan.rentalIncome - interestPayment;
      excessForNextMonth := Max(0.0, potentialExcess - regularPrincipalPayment);
      excessReinvested := excessForNextMonth;
    } else {
      excessReinvested := 0.0;
    }

    record := PeriodRecord(
      date := currentDate,
      num := paymentNum,
      payment := monthlyPayment,
      principal := principalPayment,
      regularPrincipal := regularPrincipalPayment,
      interest := interestPayment,
      extraPayment := extraPayment,
      monthlyExtraIncome := loan.monthlyExtraIncome,
      excessReinvested := excessReinvested,
      remainingBalance := Max(0.0, remainingBalance - principalPayment),
      monthlyFee := loan.monthlyFee,
      rentalIncome := loan.rentalIncome,
      monthlyCost := monthlyCost,
      years := paymentNum as real / 12.0);
    PeriodFromFields(loan, paymentNum, State(remainingBalance, currentDate, excessCarried), record);
    carry := excessForNextMonth;
  }

  /**
   * `calculate_amortization_schedule`: periods are appended one month apart
   * until the balance reaches zero or the term runs out.
   */
  method CalculateAmortizationSchedule(loan: Loan) returns (schedule: seq<PeriodRecord>)
    requires ValidLoan(loan)
    ensures IsSchedule(loan, schedule)
  {
    var numPayments := loan.years * 12;
    var initialMonthlyPayment := InitialPayment(loan);

    schedule := [];
    var remainingBalance := loan.principal;
    var currentDate := loan.startDate;
    var excessForNextMonth := 0.0;

    var paymentNum := 1;
    while paymentNum <= numPayments
      invariant 1 <= paymentNum <= numPayments + 1
      invariant |schedule| == paymentNum - 1
      invariant Chained(loan, schedule)
      invariant forall i :: 0 <= i < |schedule| ==> schedule[i].remainingBalance > 0.0
      invariant StateBefore(loan, schedule, |schedule|) == State(remainingBalance, currentDate, excessForNextMonth)
      invariant excessForNextMonth >= 0.0 && (!loan.reinvestExcess ==> excessForNextMonth == 0.0)
      invariant ValidDate(currentDate) && MonthIndex(currentDate) == MonthIndex(loan.startDate) + |schedule|
    {
      var record, carry := ComputePeriod(loan, paymentNum, initialMonthlyPayment, remainingBalance, currentDate, excessForNextMonth);
      // the next period date always exists as a `datetime.date`
      var nextDate := NextDate(currentDate);
      ScheduleStep(loan, schedule, record);
      schedule := schedule + [record];
      remainingBalance := record.remainingBalance;
      excessForNextMonth := carry;
      if remainingBalance <= 0.0 {
        break;
      }
      currentDate := nextDate;
      paymentNum := paymentNum + 1;
    }
  }
}
