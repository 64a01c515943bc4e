/**
 * `process_extra_payments`: the free-text list of one-off extra payments,
 * one `YYYY-MM-DD, amount` entry per line, turned into a map from payment
 * date to amount. Python raises on the first malformed line; here that is a
 * `Failure` naming the line and what was wrong with it.
 */
module ExtraPayments {
  import opened Wrappers
  import opened Dates
  import opened Text

  predicate IsDigit(c: char) {
    '0' <= c <= '9'
  }

  function DigitValue(c: char): int
    requires IsDigit(c)
  {
    c as int - '0' as int
  }

  function DigitChar(k: int): (c: char)
    requires 0 <= k <= 9
    ensures IsDigit(c) && DigitValue(c) == k
  {
    ('0' as int + k) as char
  }

  /** The value of the four ASCII digits of a `%Y` field. */
  function YearValue(s: string): int
    requires |s| == 4 && forall i :: 0 <= i < 4 ==> IsDigit(s[i])
  {
    DigitValue(s[0]) * 1000 + DigitValue(s[1]) * 100 + DigitValue(s[2]) * 10 + DigitValue(s[3])
  }

  /**
   * The `%m` field and the `-` after it: `1[0-2]`, `0[1-9]` or `[1-9]`.
   * Returns the month and the text after the dash.
   */
  function ParseMonthField(t: string): Option<(int, string)> {
    if |t| >= 3 && ((t[0] == '1' && '0' <= t[1] <= '2') || (t[0] == '0' && '1' <= t[1] <= '9')) && t[2] == '-' then
      Some((DigitValue(t[0]) * 10 + DigitValue(t[1]), t[3..]))
    else if |t| >= 2 && '1' <= t[0] <= '9' && t[1] == '-' then
      Some((DigitValue(t[0]), t[2..]))
    else
      None
  }

  /**
   * The `%d` field, which must end the text: `3[01]`, `[12][0-9]`, `0[1-9]`,
   * `[1-9]` or a space followed by `[1-9]`.
   */
  function ParseDayField(t: string): Option<int> {
    if |t| == 2 && ((t[0] == '3' && '0' <= t[1] <= '1') || ('1' <= t[0] <= '2' && IsDigit(t[1])) || (t[0] == '0' && '1' <= t[1] <= '9')) then
      Some(DigitValue(t[0]) * 10 + DigitValue(t[1]))
    else if |t| == 1 && '1' <= t[0] <= '9' then
      Some(DigitValue(t[0]))
    else if |t| == 2 && t[0] == ' ' && '1' <= t[1] <= '9' then
      Some(DigitValue(t[1]))
    else
      None
  }

  /**
   * `datetime.strptime(s, '%Y-%m-%d').date()`: the text must be exactly a
   * four-digit year, a dash, a month field, a dash and a day field, and the
   * three numbers must form a real calendar date.
   */
  function ParseDate(s: string): (r: Option<Date>)
    ensures r.Some? ==> ValidDate(r.value)
  {
    if |s| < 5 || !(forall i :: 0 <= i < 4 ==> IsDigit(s[i])) || s[4] != '-' then None
    else
      match ParseMonthField(s[5..])
      case None => None
      case Some((month, rest)) =>
        match ParseDayField(rest)
        case None => None
        case Some(day) =>
          var d := Date(YearValue(s[..4]), month, day);
          if ValidDate(d) then Some(d) else None
  }

  /** `str(d)` for a `datetime.date`: `YYYY-MM-DD` with zero padding. */
  function FormatDate(d: Date): (s: string)
    requires ValidDate(d)
    ensures |s| == 10
    ensures forall i :: 0 <= i < |s| ==> IsDigit(s[i]) || s[i] == '-'
    ensures IsDigit(s[0]) && IsDigit(s[9])
  {
    FourDigits(d.year) + "-" + TwoDigits(d.month) + "-" + TwoDigits(d.day)
  }

  /** Every date Python prints parses back to itself. */
  lemma ParseFormattedDate(d: Date)
    requires ValidDate(d)
    ensures ParseDate(FormatDate(d)) == Some(d)
  {
    var s := FormatDate(d);
    assert s[..4] == FourDigits(d.year);
    FourDigitsValue(d.year);
    assert s[5..] == TwoDigits(d.month) + "-" + TwoDigits(d.day);
    MonthFieldOfTwoDigits(d.month, TwoDigits(d.day));
    assert s[8..] == TwoDigits(d.day);
    DayFieldOfTwoDigits(d.day);
  }

  function FourDigits(n: int): string
    requires 0 <= n <= 9999
  {
    var tens := n / 10;
    var hundreds := tens / 10;
    [DigitChar(hundreds / 10), DigitChar(hundreds % 10), DigitChar(tens % 10), DigitChar(n % 10)]
  }

  function TwoDigits(n: int): string
    requires 0 <= n <= 99
  {
    [DigitChar(n / 10), DigitChar(n % 10)]
  }

  lemma FourDigitsValue(n: int)
    requires 0 <= n <= 9999
    ensures YearValue(FourDigits(n)) == n
  {
    var tens := n / 10;
    var hundreds := tens / 10;
    assert n == 10 * tens + n % 10;
    assert tens == 10 * hundreds + tens % 10;
    assert hundreds == 10 * (hundreds / 10) + hundreds % 10;
  }

  lemma MonthFieldOfTwoDigits(m: int, rest: string)
    requires 1 <= m <= 12
    ensures ParseMonthField(TwoDigits(m) + "-" + rest) == Some((m, rest))
  {
    var t := TwoDigits(m) + "-" + rest;
    assert t[3..] == rest;
    if m < 10 {
      assert t[0] == '0' && t[1] == DigitChar(m);
    } else {
      assert t[0] == '1' && t[1] == DigitChar(m - 10);
    }
  }

  lemma DayFieldOfTwoDigits(day: int)
    requires 1 <= day <= 31
    ensures ParseDayField(TwoDigits(day)) == Some(day)
  {
    var t := TwoDigits(day);
    assert t[0] == DigitChar(day / 10) && t[1] == DigitChar(day % 10);
  }

  /** The ways `%m` writes month `m`: two digits, or one digit for months 1 to 9. */
  function MonthSpellings(m: int): set<string>
    requires 1 <= m <= 12
  {
    if m <= 9 then {TwoDigits(m), [DigitChar(m)]} else {TwoDigits(m)}
  }

  /** The ways `%d` writes day `day`: two digits, or for days 1 to 9 one digit, bare or after a space. */
  function DaySpellings(day: int): set<string>
    requires 1 <= day <= 31
  {
    if day <= 9 then {TwoDigits(day), [DigitChar(day)], [' ', DigitChar(day)]} else {TwoDigits(day)}
  }

  /** Every text `strptime(..., '%Y-%m-%d')` reads as the date `d`. */
  function Spellings(d: Date): set<string>
    requires ValidDate(d)
  {
    set mt, dt | mt in MonthSpellings(d.month) && dt in DaySpellings(d.day) :: FourDigits(d.year) + "-" + mt + "-" + dt
  }

  /** The parse accepts exactly the spellings of valid dates, and reads each as the date it spells. */
  lemma ParseDateSpellings(s: string, d: Date)
    ensures ParseDate(s) == Some(d) <==> ValidDate(d) && s in Spellings(d)
  {
    if ParseDate(s) == Some(d) {
      ParsedDateIsSpelled(s);
    }
    if ValidDate(d) && s in Spellings(d) {
      SpellingParses(d, s);
    }
  }

  /** Every spelling of a valid date parses to that date. */
  lemma SpellingParses(d: Date, s: string)
    requires ValidDate(d) && s in Spellings(d)
    ensures ParseDate(s) == Some(d)
  {
    var mt, dt :| mt in MonthSpellings(d.month) && dt in DaySpellings(d.day) && s == FourDigits(d.year) + "-" + mt + "-" + dt;
    assert s[..4] == FourDigits(d.year);
    FourDigitsValue(d.year);
    assert s[5..] == mt + "-" + dt;
    MonthFieldOfSpelling(d.month, mt, dt);
    DayFieldOfSpelling(d.day, dt);
  }

  lemma MonthFieldOfSpelling(m: int, mt: string, rest: string)
    requires 1 <= m <= 12 && mt in MonthSpellings(m)
    ensures ParseMonthField(mt + "-" + rest) == Some((m, rest))
  {
    if mt == TwoDigits(m) {
      MonthFieldOfTwoDigits(m, rest);
    } else {
      var t := mt + "-" + rest;
      assert t[0] == DigitChar(m) && t[1] == '-' && t[2..] == rest;
    }
  }

  lemma DayFieldOfSpelling(day: int, dt: string)
    requires 1 <= day <= 31 && dt in DaySpellings(day)
    ensures ParseDayField(dt) == Some(day)
  {
    if dt == TwoDigits(day) {
      DayFieldOfTwoDigits(day);
    }
  }

  /** A date the parse accepts is spelled by the text it was read from. */
  lemma ParsedDateIsSpelled(s: string)
    requires ParseDate(s).Some?
    ensures s in Spellings(ParseDate(s).value)
  {
    var d := ParseDate(s).value;
    YearDigits(s);
    var mt := MonthFieldSpelled(s[5..]);
    var rest := ParseMonthField(s[5..]).value.1;
    DayFieldSpelled(rest);
    assert s == s[..4] + "-" + s[5..];
    assert s == FourDigits(d.year) + "-" + mt + "-" + rest;
  }

  /** Four ASCII digits are the zero-padded spelling of their value. */
  lemma YearDigits(s: string)
    requires |s| >= 4 && forall i :: 0 <= i < 4 ==> IsDigit(s[i])
    ensures 0 <= YearValue(s[..4]) <= 9999 && FourDigits(YearValue(s[..4])) == s[..4]
  {
    var n := YearValue(s[..4]);
    var a, b, c, e := DigitValue(s[0]), DigitValue(s[1]), DigitValue(s[2]), DigitValue(s[3]);
    assert n == 1000 * a + 100 * b + 10 * c + e;
    assert n / 10 == 100 * a + 10 * b + c && n % 10 == e;
    assert n / 10 / 10 == 10 * a + b && (n / 10) % 10 == c;
    assert n / 10 / 10 / 10 == a && (n / 10 / 10) % 10 == b;
    DigitRoundTrip(s[0]);
    DigitRoundTrip(s[1]);
    DigitRoundTrip(s[2]);
    DigitRoundTrip(s[3]);
  }

  lemma DigitRoundTrip(c: char)
    requires IsDigit(c)
    ensures DigitChar(DigitValue(c)) == c
  {
  }

  /** An accepted `%m` field is one of the spellings of the month it yields. */
  lemma MonthFieldSpelled(t: string) returns (mt: string)
    requires ParseMonthField(t).Some?
    ensures var (m, rest) := ParseMonthField(t).value;
      1 <= m <= 12 && mt in MonthSpellings(m) && t == mt + "-" + rest
  {
    var m := ParseMonthField(t).value.0;
    DigitRoundTrip(t[0]);
    if |t| >= 3 && ((t[0] == '1' && '0' <= t[1] <= '2') || (t[0] == '0' && '1' <= t[1] <= '9')) && t[2] == '-' {
      DigitRoundTrip(t[1]);
      mt := t[..2];
      assert mt == TwoDigits(m);
      assert t == mt + "-" + t[3..];
    } else {
      mt := t[..1];
      assert mt == [DigitChar(m)];
      assert t == mt + "-" + t[2..];
    }
  }

  /** An accepted `%d` field is one of the spellings of the day it yields. */
  lemma DayFieldSpelled(t: string)
    requires ParseDayField(t).Some?
    ensures 1 <= ParseDayField(t).value <= 31 && t in DaySpellings(ParseDayField(t).value)
  {
    var day := ParseDayField(t).value;
    if |t| == 2 && IsDigit(t[0]) {
      DigitRoundTrip(t[0]);
      DigitRoundTrip(t[1]);
      assert t == TwoDigits(day);
    } else if |t| == 1 {
      DigitRoundTrip(t[0]);
      assert t == [DigitChar(day)];
    } else {
      DigitRoundTrip(t[1]);
      assert t == [' ', DigitChar(day)];
    }
  }

  datatype LineError = WrongFieldCount | BadDate | BadAmount

  /** Which line (counting from 0 among the `\n`-separated lines) raised, and why. */
  datatype ParseError = ParseError(line: nat, kind: LineError)

  /**
   * One non-blank line: split at `,` into exactly two fields, the first a date
   * and the second an amount, each after `strip()`. The amount conversion
   * (Python's `float`) is the parameter `parseAmount`.
   */
  function ParseLine(line: string, parseAmount: string -> Option<real>): (r: Result<(Date, real), LineError>)
    ensures Count(line, ',') != 1 <==> r == Failure(WrongFieldCount)
    ensures r == Failure(BadDate) <==> Count(line, ',') == 1 && ParseDate(Strip(Split(line, ',')[0])).None?
    ensures r.Success? <==>
      Count(line, ',') == 1 && ParseDate(Strip(Split(line, ',')[0])).Some? && parseAmount(Strip(Split(line, ',')[1])).Some?
    ensures r.Success? ==>
      && ParseDate(Strip(Split(line, ',')[0])) == Some(r.value.0) && ValidDate(r.value.0)
      && parseAmount(Strip(Split(line, ',')[1])) == Some(r.value.1)
  {
    var fields := Split(line, ',');
    if |fields| != 2 then Failure(WrongFieldCount)
    else
      match ParseDate(Strip(fields[0]))
      case None => Failure(BadDate)
      case Some(date) =>
        match parseAmount(Strip(fields[1]))
        case None => Failure(BadAmount)
        case Some(amount) => Success((date, amount))
  }

  /** A line the source skips: `line.strip()` is empty. */
  predicate IsBlank(line: string) {
    Strip(line) == []
  }

  /**
   * What one line contributes: `None` for a line that is skipped, otherwise
   * the entry it parses to or the reason it raises.
   */
  type LineStep = string -> Option<Result<(Date, real), LineError>>

  /** The source's treatment of one line, given the amount conversion. */
  function SourceLineStep(parseAmount: string -> Option<real>): LineStep {
    line => if IsBlank(line) then None else Some(ParseLine(line, parseAmount))
  }

  /** A line that raises. */
  predicate BadLine(lines: seq<string>, i: int, step: LineStep) {
    0 <= i < |lines| && step(lines[i]).Some? && step(lines[i]).value.Failure?
  }

  /** Line `i` is a well-formed entry for date `d`. */
  predicate EntryFor(lines: seq<string>, i: int, d: Date, step: LineStep) {
    0 <= i < |lines| && step(lines[i]).Some? && step(lines[i]).value.Success? && step(lines[i]).value.value.0 == d
  }

  /**
   * The lines processed in order: skipped lines change nothing, the first
   * line that raises stops everything, and each good line sets its date's
   * amount, replacing what an earlier line set.
   */
  function Collect(lines: seq<string>, step: LineStep): Result<map<Date, real>, ParseError>
    decreases |lines|
  {
    if lines == [] then Success(map[])
    else
      var last := |lines| - 1;
      match Collect(lines[..last], step)
      case Failure(e) => Failure(e)
      case Success(m) =>
        match step(lines[last])
        case None => Success(m)
        case Some(Failure(kind)) => Failure(ParseError(last, kind))
        case Some(Success(entry)) => Success(m[entry.0 := entry.1])
  }

  /** What `process_extra_payments(input)` returns or raises. */
  function ExtraPaymentsOf(input: string, parseAmount: string -> Option<real>): Result<map<Date, real>, ParseError> {
    if input == [] then Success(map[]) else Collect(Split(input, '\n'), SourceLineStep(parseAmount))
  }

  method ProcessExtraPayments(input: string, parseAmount: string -> Option<real>)
    returns (result: Result<map<Date, real>, ParseError>)
    ensures result == ExtraPaymentsOf(input, parseAmount)
  {
    var extraPayments: map<Date, real> := map[];
    if input != [] {
      var lines := Split(input, '\n');
      ghost var step := SourceLineStep(parseAmount);
      var i := 0;
      while i < |lines|
        invariant 0 <= i <= |lines|
        invariant Collect(lines[..i], step) == Success(extraPayments)
      {
        var payment := lines[i];
        SourceLineStepAt(parseAmount, payment);
        if Strip(payment) != [] {
          // unpacking the two fields, `strptime` and `float` raise on bad input
          var entry := ParseLine(payment, parseAmount);
          if entry.Failure? {
            result := Failure(ParseError(i, entry.error));
            StopsAtBadLine(lines, i, step);
            return;
          }
          var (paymentDate, amount) := entry.value;
          extraPayments := extraPayments[paymentDate := amount];
        }
        CollectOneMore(lines, i, step);
        i := i + 1;
      }
      assert lines[..i] == lines;
    }
    result := Success(extraPayments);
  }

  lemma SourceLineStepAt(parseAmount: string -> Option<real>, line: string)
    ensures SourceLineStep(parseAmount)(line) == if IsBlank(line) then None else Some(ParseLine(line, parseAmount))
  {
  }

  /** One more line folded into the map. */
  lemma CollectOneMore(lines: seq<string>, i: nat, step: LineStep)
    requires i < |lines|
    ensures Collect(lines[..i + 1], step) ==
      match Collect(lines[..i], step)
      case Failure(e) => Failure(e)
      case Success(m) =>
        match step(lines[i])
        case None => Success(m)
        case Some(Failure(kind)) => Failure(ParseError(i, kind))
        case Some(Success(entry)) => Success(m[entry.0 := entry.1])
  {
    assert lines[..i + 1][..i] == lines[..i];
  }

  /** The first line that raises decides the outcome of the whole input. */
  lemma StopsAtBadLine(lines: seq<string>, i: nat, step: LineStep)
    requires i < |lines| && Collect(lines[..i], step).Success?
    requires step(lines[i]).Some? && step(lines[i]).value.Failure?
    ensures Collect(lines, step) == Failure(ParseError(i, step(lines[i]).value.error))
  {
    CollectOneMore(lines, i, step);
    FailureSticks(lines, i + 1, step);
  }

  /** Once a prefix of the lines fails, the whole input fails with the same error. */
  lemma {:induction false} FailureSticks(lines: seq<string>, k: nat, step: LineStep)
    requires k <= |lines| && Collect(lines[..k], step).Failure?
    ensures Collect(lines, step) == Collect(lines[..k], step)
    decreases |lines|
  {
    if k < |lines| {
      var init := lines[..|lines| - 1];
      assert init[..k] == lines[..k];
      FailureSticks(init, k, step);
    } else {
      assert lines[..k] == lines;
    }
  }

  /** Lines that are all skipped give an empty map. */
  lemma {:induction false} SkippedLinesGiveEmptyMap(lines: seq<string>, step: LineStep)
    requires forall i :: 0 <= i < |lines| ==> step(lines[i]).None?
    ensures Collect(lines, step) == Success(map[])
    decreases |lines|
  {
    if lines != [] {
      SkippedLinesGiveEmptyMap(lines[..|lines| - 1], step);
    }
  }

  /** Empty or whitespace-only input gives an empty map. */
  lemma BlankInputGivesEmptyMap(input: string, parseAmount: string -> Option<real>)
    requires AllSpace(input)
    ensures ExtraPaymentsOf(input, parseAmount) == Success(map[])
  {
    if input != [] {
      var lines := Split(input, '\n');
      var step := SourceLineStep(parseAmount);
      forall i | 0 <= i < |lines| ensures step(lines[i]).None? {
        forall k | 0 <= k < |lines[i]| ensures IsSpace(lines[i][k]) {
          SplitPiecesFromInput(input, '\n', i, k);
        }
        assert IsBlank(lines[i]);
      }
      SkippedLinesGiveEmptyMap(lines, step);
    }
  }

  /**
   * Parsing fails exactly when some line raises, and the error reports the
   * first such line and what was wrong with it.
   */
  lemma {:induction false} FailsExactlyOnBadLine(lines: seq<string>, step: LineStep)
    ensures Collect(lines, step).Failure? <==> exists i :: BadLine(lines, i, step)
    ensures Collect(lines, step).Failure? ==>
      var e := Collect(lines, step).error;
      && BadLine(lines, e.line, step)
      && e.kind == step(lines[e.line]).value.error
      && forall j :: 0 <= j < e.line ==> !BadLine(lines, j, step)
    decreases |lines|
  {
    if lines != [] {
      var last := |lines| - 1;
      var init := lines[..last];
      FailsExactlyOnBadLine(init, step);
      forall i | 0 <= i < last ensures BadLine(init, i, step) == BadLine(lines, i, step) {
        assert init[i] == lines[i];
      }
      var before := Collect(init, step);
      if before.Failure? {
        assert BadLine(lines, before.error.line, step);
      } else if step(lines[last]).None? || step(lines[last]).value.Success? {
        assert !BadLine(lines, last, step);
      } else {
        assert BadLine(lines, last, step);
      }
    }
  }

  /**
   * On success, the map holds exactly the dates of the well-formed lines, and
   * each date's amount comes from the last line for that date.
   */
  lemma {:induction false} SuccessHoldsLastEntryPerDate(lines: seq<string>, step: LineStep)
    requires Collect(lines, step).Success?
    ensures forall d :: d in Collect(lines, step).value <==> exists i :: EntryFor(lines, i, d, step)
    ensures forall i, d :: EntryFor(lines, i, d, step)
                       && (forall j :: i < j < |lines| ==> !EntryFor(lines, j, d, step))
                       ==> Collect(lines, step).value[d] == step(lines[i]).value.value.1
    decreases |lines|
  {
    if lines != [] {
      var last := |lines| - 1;
      var init := lines[..last];
      SuccessHoldsLastEntryPerDate(init, step);
      forall i, d | 0 <= i < last ensures EntryFor(init, i, d, step) == EntryFor(lines, i, d, step) {
        assert init[i] == lines[i];
      }
      var m := Collect(init, step).value;
      var result := Collect(lines, step).value;
      forall d ensures d in result <==> exists i :: EntryFor(lines, i, d, step) {
        if EntryFor(lines, last, d, step) {
          assert d in result;
        } else if d in result {
          assert d in m;
          var i :| EntryFor(init, i, d, step);
          assert EntryFor(lines, i, d, step);
        }
      }
      forall i, d | EntryFor(lines, i, d, step) && (forall j :: i < j < |lines| ==> !EntryFor(lines, j, d, step))
        ensures result[d] == step(lines[i]).value.value.1
      {
        if i < last {
          assert !EntryFor(lines, last, d, step);
          assert forall j :: i < j < |init| ==> !EntryFor(init, j, d, step);
        }
      }
    }
  }

  /** The number of lines that are not skipped. */
  function TakenLines(lines: seq<string>, step: LineStep): nat {
    if lines == [] then 0
    else TakenLines(lines[..|lines| - 1], step) + (if step(lines[|lines| - 1]).None? then 0 else 1)
  }

  /** Later lines overwrite earlier ones, so the map has at most one date per line taken. */
  lemma {:induction false} SizeAtMostTakenLines(lines: seq<string>, step: LineStep)
    requires Collect(lines, step).Success?
    ensures |Collect(lines, step).value| <= TakenLines(lines, step)
    decreases |lines|
  {
    if lines != [] {
      var last := |lines| - 1;
      SizeAtMostTakenLines(lines[..last], step);
      var m := Collect(lines[..last], step).value;
      if step(lines[last]).Some? {
        var entry := step(lines[last]).value.value;
        assert m[entry.0 := entry.1].Keys == m.Keys + {entry.0};
      }
    }
  }

  lemma StripUnpadded(s: string)
    requires s != [] && !IsSpace(s[0]) && !IsSpace(s[|s| - 1])
    ensures Strip(s) == s
  {
    assert TrimLeft(s) == s;
  }

  /**
   * A line written as the input form writes it, the date, a comma, a space
   * and the amount, parses to that date and amount.
   */
  lemma FormattedEntryParses(d: Date, amountText: string, parseAmount: string -> Option<real>)
    requires ValidDate(d) && ',' !in amountText
    requires parseAmount(Strip(" " + amountText)).Some?
    ensures ParseLine(FormatDate(d) + ", " + amountText, parseAmount)
         == Success((d, parseAmount(Strip(" " + amountText)).value))
  {
    EntryFields(d, amountText);
    ParseFormattedDate(d);
  }

  /** The fields of such a line: the date as written, and the amount after the comma. */
  lemma EntryFields(d: Date, amountText: string)
    requires ValidDate(d) && ',' !in amountText
    ensures var line := FormatDate(d) + ", " + amountText;
      Count(line, ',') == 1 && Strip(Split(line, ',')[0]) == FormatDate(d) && Split(line, ',')[1] == " " + amountText
  {
    var date := FormatDate(d);
    var line := date + ", " + amountText;
    assert line == date + [','] + (" " + amountText);
    SplitAround(date, " " + amountText, ',');
    StripUnpadded(date);
  }

  /** Splitting `a + [sep] + b` where neither side holds `sep` gives the two sides. */
  lemma {:induction false} SplitAround(a: string, b: string, sep: char)
    requires sep !in a && sep !in b
    ensures Split(a + [sep] + b, sep) == [a, b]
    decreases |a|
  {
    if a == [] {
      assert ([sep] + b)[1..] == b;
      SplitNoSeparator(b, sep);
    } else {
      assert (a + [sep] + b)[1..] == a[1..] + [sep] + b;
      SplitAround(a[1..], b, sep);
      assert [a[0]] + a[1..] == a;
    }
  }

  lemma {:induction false} SplitNoSeparator(s: string, sep: char)
    requires sep !in s
    ensures Split(s, sep) == [s]
    decreases |s|
  {
    if s != [] {
      SplitNoSeparator(s[1..], sep);
      assert [s[0]] + s[1..] == s;
    }
  }
}
