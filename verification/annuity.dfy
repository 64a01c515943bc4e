/**
 * The level-annuity payment formula (`calculate_monthly_payment`) over exact
 * real arithmetic, and the month-by-month balance recurrence it is built to
 * clear.
 */
module Annuity {

  function Pow(x: real, n: nat): real {
    if n == 0 then 1.0 else x * Pow(x, n - 1)
  }

  /** The monthly rate for a nominal annual rate given in percent. */
  function MonthlyRate(annualRate: real): real {
    annualRate / 12.0 / 100.0
  }

  /** A term in years covers a whole number of months. */
  predicate WholeMonths(years: real) {
    (years * 12.0).Floor as real == years * 12.0
  }

  /** The number of monthly payments in a term of `years` years. */
  function Months(years: real): int {
    (years * 12.0).Floor
  }

  /**
   * The balance left when `balance` is carried through `n` months, each of
   * which first adds interest at `rate` and then takes off `payment`.
   */
  function Amortized(balance: real, rate: real, payment: real, n: nat): real {
    if n == 0 then balance else Amortized(balance, rate, payment, n - 1) * (1.0 + rate) - payment
  }

  /**
   * `calculate_monthly_payment`: the level monthly payment for a loan of
   * `principal` at `annualRate` percent over `years` years.
   */
  function CalculateMonthlyPayment(principal: real, annualRate: real, years: real): (payment: real)
    requires annualRate > 0.0
    requires years > 0.0 && WholeMonths(years)
    ensures principal > 0.0 ==> payment > principal * MonthlyRate(annualRate)
    ensures principal == 0.0 ==> payment == 0.0
  {
    var monthlyRate := MonthlyRate(annualRate);
    var numPayments := Months(years);
    var growth := Pow(1.0 + monthlyRate, numPayments);
    GrowthExceedsOne(monthlyRate, numPayments);
    var excess := growth - 1.0;
    var scaled := principal * (monthlyRate * growth);
    assert scaled / excess * excess == scaled;
    PaymentExceedsInterest(principal, monthlyRate, numPayments, scaled / excess);
    scaled / excess
  }

  /**
   * The annuity identity: the payment clears the loan in exactly the term's
   * number of months, and it is more than the first month's interest.
   */
  lemma MonthlyPaymentClearsLoan(principal: real, annualRate: real, years: real)
    requires annualRate > 0.0
    requires years > 0.0 && WholeMonths(years)
    ensures Months(years) >= 1
    ensures Amortized(principal, MonthlyRate(annualRate), CalculateMonthlyPayment(principal, annualRate, years), Months(years)) == 0.0
    ensures principal > 0.0 ==> CalculateMonthlyPayment(principal, annualRate, years) > principal * MonthlyRate(annualRate)
  {
    var monthlyRate := MonthlyRate(annualRate);
    var numPayments := Months(years);
    var growth := Pow(1.0 + monthlyRate, numPayments);
    GrowthExceedsOne(monthlyRate, numPayments);
    var payment := CalculateMonthlyPayment(principal, annualRate, years);
    var excess := growth - 1.0;
    var scaled := principal * (monthlyRate * growth);
    assert payment == scaled / excess;
    assert payment * excess == scaled;
    PaymentClearsBalance(principal, monthlyRate, numPayments, payment);
    PaymentExceedsInterest(principal, monthlyRate, numPayments, payment);
  }

  /** Compound growth at a positive rate exceeds 1 after any positive number of months. */
  lemma {:induction false} GrowthExceedsOne(rate: real, n: int)
    requires rate > 0.0 && n >= 1
    ensures Pow(1.0 + rate, n) > 1.0
  {
    if n > 1 {
      GrowthExceedsOne(rate, n - 1);
      var g := Pow(1.0 + rate, n - 1);
      assert Pow(1.0 + rate, n) == g + rate * g;
      PositiveTimesPositive(rate, g);
    }
  }

  /**
   * Closed form of the recurrence, multiplied through by the rate:
   * rate * B(n) == (rate * b - payment) * (1+rate)^n + payment.
   */
  predicate ClosedForm(balance: real, rate: real, payment: real, n: nat) {
    Amortized(balance, rate, payment, n) * rate == (balance * rate - payment) * Pow(1.0 + rate, n) + payment
  }

  lemma {:induction false} AmortizedClosedForm(balance: real, rate: real, payment: real, n: nat)
    ensures ClosedForm(balance, rate, payment, n)
  {
    if n > 0 {
      AmortizedClosedForm(balance, rate, payment, n - 1);
      ClosedFormStep(balance, rate, payment, n);
    }
  }

  /** One month of the closed form: the algebra behind the induction step above. */
  lemma ClosedFormStep(balance: real, rate: real, payment: real, n: nat)
    requires n > 0 && ClosedForm(balance, rate, payment, n - 1)
    ensures ClosedForm(balance, rate, payment, n)
  {
    var q := 1.0 + rate;
    var c := balance * rate - payment;
    var prev := Amortized(balance, rate, payment, n - 1);
    var g := Pow(q, n - 1);
    calc {
      Amortized(balance, rate, payment, n) * rate;
      (prev * q - payment) * rate;
      (prev * rate) * q - payment * rate;
      (c * g + payment) * q - payment * rate;
      c * (q * g) + payment;
      c * Pow(q, n) + payment;
    }
  }

  /** The annuity identity: the formula's payment leaves exactly nothing after `n` months. */
  lemma PaymentClearsBalance(principal: real, rate: real, n: int, payment: real)
    requires rate > 0.0 && n >= 1
    requires Pow(1.0 + rate, n) > 1.0
    requires payment * (Pow(1.0 + rate, n) - 1.0) == principal * (rate * Pow(1.0 + rate, n))
    ensures Amortized(principal, rate, payment, n) == 0.0
  {
    AmortizedClosedForm(principal, rate, payment, n);
    assert Amortized(principal, rate, payment, n) * rate == 0.0;
  }

  lemma PaymentExceedsInterest(principal: real, rate: real, n: int, payment: real)
    requires rate > 0.0 && n >= 1
    requires Pow(1.0 + rate, n) > 1.0
    requires payment * (Pow(1.0 + rate, n) - 1.0) == principal * (rate * Pow(1.0 + rate, n))
    ensures principal > 0.0 ==> payment > principal * rate
  {
    var g := Pow(1.0 + rate, n);
    if principal > 0.0 {
      var interest := principal * rate;
      var surplus := payment - interest;
      assert surplus * (g - 1.0) == interest;
      if surplus <= 0.0 {
        NonPositiveTimesPositive(surplus, g - 1.0);
      }
    }
  }


  /** Running the recurrence for `k` months and then `m` more is running it for `k + m` months. */
  lemma {:induction false} AmortizedCompose(balance: real, rate: real, payment: real, k: nat, m: nat)
    ensures Amortized(Amortized(balance, rate, payment, k), rate, payment, m)
         == Amortized(balance, rate, payment, k + m)
    decreases m
  {
    if m > 0 {
      AmortizedCompose(balance, rate, payment, k, m - 1);
    }
  }

  /** Once the balance is not positive, a positive payment keeps it negative from then on. */
  lemma {:induction false} OverpaidStaysNegative(balance: real, rate: real, payment: real, k: nat, j: nat)
    requires rate > 0.0 && payment > 0.0 && k < j
    requires Amortized(balance, rate, payment, k) <= 0.0
    ensures Amortized(balance, rate, payment, j) < 0.0
    decreases j
  {
    var prev := Amortized(balance, rate, payment, j - 1);
    if k < j - 1 {
      OverpaidStaysNegative(balance, rate, payment, k, j - 1);
    }
    NonPositiveTimesPositive(prev, 1.0 + rate);
  }

  /** At most one level payment clears a balance in a given number of months. */
  lemma LevelPaymentUnique(balance: real, rate: real, p1: real, p2: real, n: nat)
    requires rate > 0.0 && n >= 1
    requires Amortized(balance, rate, p1, n) == 0.0 && Amortized(balance, rate, p2, n) == 0.0
    ensures p1 == p2
  {
    var g := Pow(1.0 + rate, n);
    GrowthExceedsOne(rate, n);
    AmortizedClosedForm(balance, rate, p1, n);
    AmortizedClosedForm(balance, rate, p2, n);
    assert (p1 - p2) * (g - 1.0) == 0.0;
    ZeroProductFactor(p1 - p2, g - 1.0);
  }

  /** Over the same months, the payment that clears a smaller balance is smaller. */
  lemma ClearingPaymentMonotone(b1: real, b2: real, rate: real, p1: real, p2: real, n: nat)
    requires rate > 0.0 && n >= 1 && b1 < b2
    requires Amortized(b1, rate, p1, n) == 0.0 && Amortized(b2, rate, p2, n) == 0.0
    ensures p1 < p2
  {
    var g := Pow(1.0 + rate, n);
    GrowthExceedsOne(rate, n);
    AmortizedClosedForm(b1, rate, p1, n);
    AmortizedClosedForm(b2, rate, p2, n);
    assert (p2 - p1) * (g - 1.0) == (b2 - b1) * (rate * g);
    PositiveTimesPositive(rate, g);
    PositiveTimesPositive(b2 - b1, rate * g);
    if p2 - p1 <= 0.0 {
      NonPositiveTimesPositive(p2 - p1, g - 1.0);
      assert false;
    }
  }

  /**
   * The formula's payment is the only level payment that clears the loan over
   * the term.
   */
  lemma PaymentIsUniqueClearingPayment(principal: real, annualRate: real, years: real, payment: real)
    requires annualRate > 0.0
    requires years > 0.0 && WholeMonths(years)
    requires Amortized(principal, MonthlyRate(annualRate), payment, Months(years)) == 0.0
    ensures payment == CalculateMonthlyPayment(principal, annualRate, years)
  {
    var p := CalculateMonthlyPayment(principal, annualRate, years);
    MonthlyPaymentClearsLoan(principal, annualRate, years);
    LevelPaymentUnique(principal, MonthlyRate(annualRate), payment, p, Months(years));
  }

  /**
   * For a positive principal, the balance stays positive in every month
   * before the last one of the term.
   */
  lemma OutstandingBeforeTerm(principal: real, annualRate: real, years: real, k: nat)
    requires annualRate > 0.0
    requires years > 0.0 && WholeMonths(years)
    requires principal > 0.0 && k < Months(years)
    ensures Amortized(principal, MonthlyRate(annualRate), CalculateMonthlyPayment(principal, annualRate, years), k) > 0.0
  {
    var rate := MonthlyRate(annualRate);
    var p := CalculateMonthlyPayment(principal, annualRate, years);
    MonthlyPaymentClearsLoan(principal, annualRate, years);
    assert p > 0.0 by {
      assert principal * rate > 0.0;
    }
    if Amortized(principal, rate, p, k) <= 0.0 {
      OverpaidStaysNegative(principal, rate, p, k, Months(years));
      assert false;
    }
  }

  /** The payment for a term given as a number of months rather than years. */
  function PaymentOverMonths(principal: real, annualRate: real, months: nat): (payment: real)
    requires annualRate > 0.0 && months >= 1
    ensures Amortized(principal, MonthlyRate(annualRate), payment, months) == 0.0
  {
    MonthsOfWholeTerm(months);
    MonthlyPaymentClearsLoan(principal, annualRate, months as real / 12.0);
    CalculateMonthlyPayment(principal, annualRate, months as real / 12.0)
  }

  /**
   * Recomputing the payment from the balance reached after `k` months of the
   * level payment, over the months that remain, gives the same payment back.
   */
  lemma RecomputedPaymentUnchanged(principal: real, annualRate: real, n: nat, k: nat)
    requires annualRate > 0.0 && k < n
    ensures
      var p := PaymentOverMonths(principal, annualRate, n);
      PaymentOverMonths(Amortized(principal, MonthlyRate(annualRate), p, k), annualRate, n - k) == p
  {
    var rate := MonthlyRate(annualRate);
    MonthsOfWholeTerm(n);
    MonthsOfWholeTerm(n - k);
    var p := PaymentOverMonths(principal, annualRate, n);
    var b := Amortized(principal, rate, p, k);
    MonthlyPaymentClearsLoan(principal, annualRate, n as real / 12.0);
    assert Amortized(principal, rate, p, n) == 0.0;
    AmortizedCompose(principal, rate, p, k, n - k);
    assert Amortized(b, rate, p, n - k) == 0.0;
    PaymentIsUniqueClearingPayment(b, annualRate, (n - k) as real / 12.0, p);
  }

  /** A term given as a whole number of months `m` over 12 has exactly `m` months. */
  lemma MonthsOfWholeTerm(m: nat)
    ensures WholeMonths(m as real / 12.0) && Months(m as real / 12.0) == m
  {
    assert m as real / 12.0 * 12.0 == m as real;
  }

  lemma PositiveTimesPositive(a: real, b: real)
    requires a > 0.0 && b > 0.0
    ensures a * b > 0.0
  {
  }

  lemma NonPositiveTimesPositive(a: real, b: real)
    requires a <= 0.0 && b > 0.0
    ensures a * b <= 0.0
  {
  }

  lemma ZeroProductFactor(a: real, b: real)
    requires a * b == 0.0 && b != 0.0
    ensures a == 0.0
  {
    assert a == a * b / b;
  }
}
