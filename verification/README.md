# Annuity loan engine, modelled in Dafny

This project models the loan-amortisation engine of the Norwegian mortgage
calculator `annuitystreamlitapp.py`. The engine has three functions:

- `calculate_monthly_payment` is the level-annuity payment formula
  `P·r(1+r)^n / ((1+r)^n − 1)`, with `r = annual_rate/12/100` and `n = years·12`.
- `process_extra_payments` turns the free-text list of one-off extra payments
  (`YYYY-MM-DD, amount`, one per line) into a map from date to amount.
- `calculate_amortization_schedule` walks the loan month by month. In each
  period it applies:
  - interest;
  - the regular principal of the payment, under either strategy: keep the
    initial payment (shorter term), or recompute it from the balance over
    the months left (lower payment);
  - the one-off payment dated exactly on the period;
  - the surplus of rental income carried over from the previous period,
    when reinvestment is on;
  - the fixed monthly extra income.

  The balance is floored at zero, and the walk stops as soon as it reaches
  zero. Period dates advance by one month, with the day clamped to 28.

Money is exact `real` arithmetic. The files are:

- `wrappers.dfy`: `Option` and `Result`.
- `dates.dfy`:
  - calendar dates as `datetime.date` accepts them (years 1 to 9999);
  - the month step of the schedule (`NextDate`).
- `annuity.dfy`:
  - the payment formula;
  - the month-by-month balance recurrence `Amortized`
    (`b := b·(1+r) − payment`, applied `n` times);
  - the annuity identity and its consequences.
- `text.dfy`: Python's `str.split(sep)` and `str.strip()`.
- `extra_payments.dfy`:
  - the `%Y-%m-%d` date parse and the spellings it accepts;
  - the line parser;
  - the fold `Collect` that specifies the parser;
  - the imperative `ProcessExtraPayments` proved against that fold.
- `amortization.dfy`:
  - the loan and record datatypes;
  - `Period`, what one period computes from the state it enters;
  - `IsSchedule`, a local characterisation of a whole schedule: every record
    is the period computed from the state left by the one before it, and only
    the last record may leave a zero balance;
  - the loop body `ComputePeriod`;
  - the loop `CalculateAmortizationSchedule`, proved to produce a schedule.
- `schedule_properties.dfy`: what every schedule satisfies, proved from
  `IsSchedule`.

## Model

| member | source | states |
|---|---|---|
| `Annuity.CalculateMonthlyPayment` | annuitystreamlitapp.py:18-22 | For a positive principal, the payment strictly exceeds the first month's interest `P·r`. For a zero principal it is 0. |
| `Annuity.PaymentOverMonths` | annuitystreamlitapp.py:59-61 | The payment computed from a balance over `n` whole months brings that balance to exactly 0 after `n` months of the recurrence. |
| `Annuity.MonthlyPaymentClearsLoan` | annuitystreamlitapp.py:18-22 | Whenever the rate is positive and the term is a positive whole number of months, the formula's payment brings the principal to exactly 0 after `years·12` months of the recurrence. For a positive principal, the payment strictly exceeds the first month's interest `P·r`. |
| `Annuity.ClearingPaymentMonotone` | annuitystreamlitapp.py:18-22 | At a positive rate and over the same positive number of months, the payment that clears a smaller balance is strictly smaller. |
| `Annuity.PaymentIsUniqueClearingPayment` | annuitystreamlitapp.py:18-22 | Any level payment that clears the principal over the term equals the formula's payment. |
| `Annuity.OutstandingBeforeTerm` | annuitystreamlitapp.py:18-22 | For a positive principal, the balance under the formula's payment stays positive in every month before the last of the term. |
| `Annuity.AmortizedClosedForm` | annuitystreamlitapp.py:22 | The closed form of the balance recurrence: `r·B(n) = (r·b − payment)·(1+r)^n + payment`, for every start balance, rate, payment and month count. |
| `Annuity.GrowthExceedsOne` | annuitystreamlitapp.py:22 | `(1+r)^n > 1` for `r > 0` and `n ≥ 1`, so the formula's denominator is never zero. |
| `Annuity.LevelPaymentUnique` | annuitystreamlitapp.py:22 | At a positive rate, at most one level payment brings a given balance to 0 in a given number of months. |
| `Annuity.AmortizedCompose` | annuitystreamlitapp.py:69-109 | Running the recurrence for `k` months and then for `m` more is the same as running it for `k + m` months. |
| `Annuity.RecomputedPaymentUnchanged` | annuitystreamlitapp.py:59-61 | Take the balance left after `k` months of the level payment. Recomputing the payment from it over the `n − k` months left gives back the same payment. |
| `Annuity.MonthsOfWholeTerm` | annuitystreamlitapp.py:59-61 | `remaining_months/12` is a term of a whole number of months, and that number is `remaining_months`. |
| `Dates.NextDate` | annuitystreamlitapp.py:76-78 | The next date's day is the smaller of the old day and 28. Its month is in 1..12 and is exactly one month later (month index + 1). It is strictly later. It is a valid `date` unless the old date is in December 9999. |
| `Amortization.NextPeriodDate` | annuitystreamlitapp.py:76-78 | Within the term of a loan the model accepts, the date computed after every period exists as a `date` and is one month further from the start. |
| `Amortization.PaymentFor` | annuitystreamlitapp.py:57-66 | With `reduce_term`, the payment is the initial payment. Otherwise, while months remain and the balance is positive, it clears that balance over the `years·12 − num + 1` months left; once no months remain or nothing is owed, it is 0. |
| `Amortization.ComputePeriod` | annuitystreamlitapp.py:57-126 | One pass of the loop body returns exactly `Period` of the state it is given: the balance, the date, and the surplus carried in. It also returns the surplus to carry into the next period. That surplus equals the record's `Excess_Reinvested`, is never negative, and is 0 with reinvestment off. |
| `Amortization.ScheduleStep` | annuitystreamlitapp.py:69-132 | Appending the next period to a chained prefix keeps it chained. The next period starts from that record's remaining balance, the next date and that record's surplus. Within the term, that date exists and is one month further on. |
| `Amortization.CalculateAmortizationSchedule` | annuitystreamlitapp.py:35-134 | The loop's result satisfies `IsSchedule`: 1 to `years·12` records, each the period computed from the state the previous one left, all leaving a positive balance except the last, and the last either leaves none or ends the term. |
| `ScheduleProperties.ScheduleIsUnique` | annuitystreamlitapp.py:56-132 | Two sequences that both satisfy `IsSchedule` for the same loan are equal, so the specification determines the loop's result completely. |
| `ScheduleProperties.RecordNumbering` | annuitystreamlitapp.py:111-125 | Record `i` has `Payment_Num = i + 1`, at most `years·12`, and `Years·12 = Payment_Num`. |
| `ScheduleProperties.PeriodAccounting` | annuitystreamlitapp.py:69-96 | The figures of one period:<br>- `Interest = balance·r`;<br>- `Payment = Interest + Regular_Principal`;<br>- `Principal = Regular_Principal + Extra_Payment + extra income`;<br>- fee, rental and extra income are copied from the loan;<br>- `Monthly_Cost` is the greater of 0 and `Payment + fee − rental − extra income`. |
| `ScheduleProperties.BalanceStep` | annuitystreamlitapp.py:93-109 | `Remaining_Balance` is the greater of 0 and (balance before − `Principal`), so it is never negative. It is no higher than the balance before when that balance is not negative and `Principal ≥ 0`. The balance entering a later period is the previous record's positive `Remaining_Balance`. |
| `ScheduleProperties.InitialPaymentClearsLoan` | annuitystreamlitapp.py:42 | The initial payment clears the principal over `years·12` months of the recurrence. It exceeds `P·r` when `P > 0`. |
| `ScheduleProperties.PlanOutstanding` | annuitystreamlitapp.py:42 | For a positive principal, the recurrence under the initial payment stays positive before month `years·12`. |
| `ScheduleProperties.TermReductionKeepsPayment` | annuitystreamlitapp.py:64-66 | With `reduce_term`, every record's payment is the initial payment, which clears the original loan over the full term. |
| `ScheduleProperties.PaymentReductionRecomputes` | annuitystreamlitapp.py:57-61 | Without `reduce_term`, while the balance entering period `i` is positive, its payment clears that balance over the `years·12 − i` months left and exceeds the period's interest. |
| `ScheduleProperties.PaymentReductionStopsWhenRepaid` | annuitystreamlitapp.py:60-63 | Without `reduce_term`, the payment is 0 when the balance entering the period is not positive. |
| `ScheduleProperties.PaymentReductionRepaysLoan` | annuitystreamlitapp.py:56-129 | Conditions: the payment is recomputed (not `reduce_term`), a positive principal, no negative one-off payments and no negative extra income. Then the last record leaves a balance of exactly 0. |
| `ScheduleProperties.PaymentReductionEndsEarlyOnlyByExtra` | annuitystreamlitapp.py:56-129 | Under the same conditions, a schedule shorter than `years·12` ends only because the last period's extra payment plus extra income covers what the recomputed payment would have left after that month, which is positive. Without such extra money the term stays what it was. |
| `ScheduleProperties.PaymentReductionBalanceFalls` | annuitystreamlitapp.py:57-109 | Under the same conditions, every period repays a positive principal and the balance falls strictly. |
| `ScheduleProperties.ExtraLowersNextPayment` | annuitystreamlitapp.py:57-109 | When the payment is recomputed, a period entered with a positive balance whose extra payment plus extra income is positive lowers the next period's payment strictly. |
| `ScheduleProperties.RepayingMoreLowersPayment` | annuitystreamlitapp.py:59-61 | A month that leaves less than the level payment would have left needs a strictly smaller level payment to clear the rest over the months after it. |
| `ScheduleProperties.RecomputedPaymentClears` | annuitystreamlitapp.py:59-61 | The payment recomputed in period `num` from a positive balance clears it over the `years·12 − num + 1` months left, and it exceeds that balance's interest. |
| `ScheduleProperties.ReinvestmentCarry` | annuitystreamlitapp.py:81-106 | `Extra_Payment` of period `i` is the one-off amount dated on it (0 if none), plus the previous period's `Excess_Reinvested` when reinvestment is on. `Excess_Reinvested` is never negative, is 0 with reinvestment off, and when positive equals rental income minus the payment. With reinvestment on, rental above the interest and rental at least the payment, it equals rental minus payment. With reinvestment on and rental at most the interest, it is 0. |
| `ScheduleProperties.ScheduleDates` | annuitystreamlitapp.py:76-132 | Every period date is a valid date, `i` months after the start. The first is the start date. Each later one is `NextDate` of the previous, with day `min(start day, 28)`. |
| `ScheduleProperties.DatesStrictlyIncrease` | annuitystreamlitapp.py:76-78 | Period dates strictly increase. |
| `ScheduleProperties.ExtraPaymentAppliedOnce` | annuitystreamlitapp.py:81 | No two periods share a date, so each one-off payment is looked up in at most one period. |
| `ScheduleProperties.UnmatchedExtraPaymentIgnored` | annuitystreamlitapp.py:81 | Removing a one-off payment whose date matches no period date leaves a schedule of the loan unchanged. |
| `ScheduleProperties.TermReductionBalanceFalls` | annuitystreamlitapp.py:93-109 | Conditions: `reduce_term`, a positive principal, no negative one-off payments and no negative extra income. Then every period repays a positive principal and the balance falls strictly. It never exceeds the principal or the plain annuity balance for the same month. |
| `ScheduleProperties.TermReductionRepaysLoan` | annuitystreamlitapp.py:56-129 | Under the same conditions, the last record leaves a balance of exactly 0: the loan is always repaid within the term. |
| `ScheduleProperties.PlainBalances` | annuitystreamlitapp.py:64-109 | With `reduce_term`, a positive principal, no one-off payments, no reinvestment and no extra income, each record pays the initial payment. Its remaining balance is exactly the annuity balance after `i + 1` months. |
| `ScheduleProperties.PlainScheduleRunsFullTerm` | annuitystreamlitapp.py:56-129 | For such a plain loan with a positive principal, the schedule has exactly `years·12` records and the last leaves exactly 0. |
| `ScheduleProperties.PlainStrategiesAgree` | annuitystreamlitapp.py:57-66 | For a plain loan the two strategies give the same schedule: the payment recomputed each period equals the initial payment. |
| `Text.Strip` | annuitystreamlitapp.py:29 | `strip()` gives the empty string exactly when the line is all whitespace. Otherwise the result neither starts nor ends with whitespace. |
| `Text.StripRemovesOnlyOuterSpace` | annuitystreamlitapp.py:29 | `strip()` returns a contiguous run of its input. Everything before the run and everything after it is whitespace. |
| `Text.Split` | annuitystreamlitapp.py:28-30 | `split(sep)` gives one more piece than there are separators, and no piece contains the separator. |
| `Text.JoinSplit` | annuitystreamlitapp.py:28-30 | Joining the pieces of `split(sep)` with `sep` gives back the original text. |
| `ExtraPayments.ParseDate` | annuitystreamlitapp.py:31 | The date `strptime(..., '%Y-%m-%d')` accepts is always a valid calendar date. |
| `ExtraPayments.ParseDateSpellings` | annuitystreamlitapp.py:31 | The parse returns date `d` exactly when `d` is a valid date and the text is one of its spellings: four year digits, a dash, the month as two digits (or one digit for months 1–9), a dash, and the day as two digits (or, for days 1–9, one digit alone or after a space). Every other text is rejected. |
| `ExtraPayments.SpellingParses` | annuitystreamlitapp.py:31 | Every spelling of a valid date parses to that date. |
| `ExtraPayments.ParsedDateIsSpelled` | annuitystreamlitapp.py:31 | Text the parse accepts is one of the spellings of the date it returns. |
| `ExtraPayments.ParseFormattedDate` | annuitystreamlitapp.py:31 | Every valid date written `YYYY-MM-DD` parses back to itself. |
| `ExtraPayments.ParseLine` | annuitystreamlitapp.py:30-32 | A line fails with a wrong field count exactly when it does not hold one comma. It fails with a bad date exactly when it holds one comma and the stripped left field does not parse. It succeeds exactly when it holds one comma, the stripped left field parses as a date and the stripped right field converts as an amount. On success, the date is the parse of the stripped left field and the amount is the conversion of the stripped right field. |
| `ExtraPayments.ProcessExtraPayments` | annuitystreamlitapp.py:24-33 | The loop returns exactly `ExtraPaymentsOf(input)`. That is an empty map for empty input; otherwise the fold of the lines, skipping blank ones, stopping at the first line that raises, and letting later lines overwrite earlier ones. |
| `ExtraPayments.BlankInputGivesEmptyMap` | annuitystreamlitapp.py:26-29 | Empty or whitespace-only input gives an empty map. |
| `ExtraPayments.FailsExactlyOnBadLine` | annuitystreamlitapp.py:28-32 | Parsing fails exactly when some non-blank line is malformed. The error names the first such line and its fault. |
| `ExtraPayments.StopsAtBadLine` | annuitystreamlitapp.py:30-32 | Once the lines before line `i` parse, a malformed line `i` decides the result: a failure naming line `i`. |
| `ExtraPayments.SuccessHoldsLastEntryPerDate` | annuitystreamlitapp.py:28-32 | On success, the map's dates are exactly the dates of the well-formed lines. Each date's amount is the one on the last line for that date. |
| `ExtraPayments.SizeAtMostTakenLines` | annuitystreamlitapp.py:28-32 | On success, the map has at most as many dates as there are non-blank lines. |
| `ExtraPayments.FormattedEntryParses` | annuitystreamlitapp.py:30-32 | A line written as `YYYY-MM-DD, amount` parses to that date and that amount. |

## Left out

- `main` and the rest of the Streamlit UI (widgets, session state, plots, table display, yearly grouping, CSV download) are outside the engine. So are the locale setup, `format_large_number` and the summary metrics.
- Floating point: money is exact `real`. Float rounding and the float-tolerance behaviour of the source are not modelled.
- The pandas `DataFrame` the schedule is returned as: the schedule is a sequence of records.
- Bookkeeping the source never reads for its output is not modelled: `total_extra_payments`, `reinvested_total`, the sorted `extra_payment_dates` and `processed_dates`.
- The amount conversion `float(...)` is the parameter `parseAmount` of the parser. Its own syntax (signs, exponents, `inf`, `nan`, underscores) is not modelled.
- `strptime` is modelled on ASCII digits only. Python's `%m` accepts only ASCII digits. `%d` accepts another Unicode decimal digit only as its second digit after `1` or `2`. `%Y` accepts one in any of its four positions.
- `process_extra_payments` with a `None` input behaves like the empty string. Both give an empty map.
- The source has no tax or year-accrual logic and no input validation. Its only error behaviour is the implicit Python exceptions, so the model has no richer error taxonomy. The parser's exceptions become `Failure(ParseError(line, kind))`. The schedule's exceptions are excluded by the precondition `ValidLoan`.
- Annuity.CalculateMonthlyPayment: requires a positive rate and a term of a whole positive number of months. With rate 0 the source divides by zero, and both call sites in the engine pass such a term. Its `ensures` state only the bound against the first month's interest and the zero-principal case. The annuity identity is `Annuity.MonthlyPaymentClearsLoan`.
- Amortization.CalculateAmortizationSchedule: requires `start year + years ≤ 9999`, so that the date computed after every period of the full term exists. The source raises only when the loop actually reaches a month past December 9999. A loan that repays early under a tighter bound is therefore excluded even though the source would handle it.
- ScheduleProperties.TermReductionBalanceFalls: stated only for loans with no negative one-off payments and no negative extra income. With withdrawals the balance can rise, and the source makes no promise then.
