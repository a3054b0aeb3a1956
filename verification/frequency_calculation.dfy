/** The frequency helpers shared by the income and expense forms: the
    frequency labels, the occurrence count between two dates and the
    total-amount preview shown under the amount field. */
module FrequencyCalculation {
  import opened Calendar
  import opened Records

  // ---------------------------------------------------------------------
  // Labels

  /** getFrequencyOptions: the codes offered by the frequency select, in
      order, with their labels. */
  function FrequencyOptions(): (options: seq<(string, string)>)
    ensures |options| == 5
    ensures forall i :: 0 <= i < |options| ==> FrequencyFromCode(options[i].0) != Unknown(options[i].0)
    ensures forall i, j :: 0 <= i < j < |options| ==> options[i].0 != options[j].0
    ensures forall code :: FrequencyFromCode(code) != Unknown(code) ==> exists i :: 0 <= i < |options| && options[i].0 == code
  {
    var options := [("once", "Une fois"), ("daily", "Quotidien"), ("weekly", "Hebdomadaire"),
                    ("monthly", "Mensuel"), ("yearly", "Annuel")];
    assert options[0].0 == "once" && options[1].0 == "daily" && options[2].0 == "weekly";
    assert options[3].0 == "monthly" && options[4].0 == "yearly";
    options
  }

  /** formatFrequencyForTable: the label of a known code, any other value unchanged. */
  function FormatFrequencyForTable(frequency: string): (shown: string)
    ensures FrequencyFromCode(frequency).Unknown? ==> shown == frequency
    ensures !FrequencyFromCode(frequency).Unknown? ==>
              exists i :: 0 <= i < |FrequencyOptions()| && FrequencyOptions()[i] == (frequency, shown)
  {
    var options := FrequencyOptions();
    assert options[0] == ("once", "Une fois") && options[1] == ("daily", "Quotidien");
    assert options[2] == ("weekly", "Hebdomadaire") && options[3] == ("monthly", "Mensuel");
    assert options[4] == ("yearly", "Annuel");
    if frequency == "once" then "Une fois"
    else if frequency == "daily" then "Quotidien"
    else if frequency == "weekly" then "Hebdomadaire"
    else if frequency == "monthly" then "Mensuel"
    else if frequency == "yearly" then "Annuel"
    else frequency
  }

  /** The table and the select agree: a code offered by the select is shown
      with the select's label, and a code it does not offer is shown as is. */
  lemma FormatAgreesWithOptions(code: string)
    ensures forall i :: 0 <= i < |FrequencyOptions()| && FrequencyOptions()[i].0 == code ==>
              FormatFrequencyForTable(code) == FrequencyOptions()[i].1
    ensures (forall i :: 0 <= i < |FrequencyOptions()| ==> FrequencyOptions()[i].0 != code) ==>
              FormatFrequencyForTable(code) == code
  {
    var options := FrequencyOptions();
    if forall i :: 0 <= i < |options| ==> options[i].0 != code {
      assert options[0].0 != code && options[1].0 != code && options[2].0 != code;
      assert options[3].0 != code && options[4].0 != code;
    }
  }

  // ---------------------------------------------------------------------
  // calculateOccurrences

  /** The frequencies the counting loop steps by; any other value leaves the
      loop after counting once. */
  predicate Steps(f: Frequency) {
    f.Daily? || f.Weekly? || f.Monthly? || f.Yearly?
  }

  /** One step of the loop: addDay, addWeek, addMonth or addYear. */
  function Advance(d: Date, f: Frequency): Date
    requires Steps(f)
  {
    match f
    case Daily => NextDay(d)
    case Weekly => AddWeek(d)
    case Monthly => AddMonths(d, 1)
    case Yearly => AddYear(d)
  }

  lemma AdvanceLater(d: Date, f: Frequency)
    requires Valid(d) && Steps(f)
    ensures Valid(Advance(d, f)) && DayNumber(d) < DayNumber(Advance(d, f))
  {
    match f
    case Daily => NextDayNumber(d);
    case Weekly => AddDaysNumber(d, 7);
    case Monthly =>
      AddMonthsValid(d, 1);
      MonthIndexOrder(d, Advance(d, f));
      DayNumberBefore(d, Advance(d, f));
    case Yearly =>
      AddMonthsValid(d, 12);
      MonthIndexOrder(d, Advance(d, f));
      DayNumberBefore(d, Advance(d, f));
  }

  /** The number of iterations the counting loop still performs from `current`. */
  function Count(current: Date, end: Date, f: Frequency): (r: nat)
    requires Valid(current) && Valid(end)
    ensures r == 0 <==> Before(end, current)
    ensures !Steps(f) ==> r <= 1
    decreases DayNumber(end) - DayNumber(current)
  {
    if !LessEq(current, end) then 0
    else if Steps(f) then
      DayNumberOrder(current, end);
      AdvanceLater(current, f);
      1 + Count(Advance(current, f), end, f)
    else 1
  }

  /** calculateOccurrences as a function of its inputs. */
  function Occurrences(start: Date, end: Date, f: Frequency): (r: nat)
    requires Valid(start) && Valid(end)
    ensures Before(end, start) ==> r == 0
    ensures LessEq(start, end) ==> r >= 1
    ensures LessEq(start, end) && !Steps(f) ==> r == 1
  {
    if Before(end, start) then 0 else Count(start, end, f)
  }

  /** calculateOccurrences: walks a copy of start forward one period at a
      time while it is not after end, counting each visited date. */
  method CalculateOccurrences(start: Date, end: Date, frequency: Frequency) returns (occurrences: nat)
    requires Valid(start) && Valid(end)
    ensures occurrences == Occurrences(start, end, frequency)
  {
    if Before(end, start) {
      return 0;
    }
    occurrences := 0;
    var current := start;
    while LessEq(current, end)
      invariant Valid(current)
      invariant occurrences + Count(current, end, frequency) == Count(start, end, frequency)
      decreases DayNumber(end) - DayNumber(current)
    {
      occurrences := occurrences + 1;
      DayNumberOrder(current, end);
      match frequency {
        case Daily =>
          AdvanceLater(current, frequency);
          current := NextDay(current);
        case Weekly =>
          AdvanceLater(current, frequency);
          current := AddWeek(current);
        case Monthly =>
          AdvanceLater(current, frequency);
          current := AddMonths(current, 1);
        case Yearly =>
          AdvanceLater(current, frequency);
          current := AddYear(current);
        case _ =>
          break;
      }
    }
  }

  lemma {:induction false} CountDaily(c: Date, e: Date)
    requires Valid(c) && Valid(e) && LessEq(c, e)
    ensures Count(c, e, Daily) == DayNumber(e) - DayNumber(c) + 1
    decreases DayNumber(e) - DayNumber(c)
  {
    DayNumberOrder(c, e);
    var next := NextDay(c);
    NextDayNumber(c);
    DayNumberOrder(next, e);
    if LessEq(next, e) {
      CountDaily(next, e);
    }
  }

  lemma {:induction false} CountWeekly(c: Date, e: Date)
    requires Valid(c) && Valid(e) && LessEq(c, e)
    ensures Count(c, e, Weekly) == (DayNumber(e) - DayNumber(c)) / 7 + 1
    decreases DayNumber(e) - DayNumber(c)
  {
    DayNumberOrder(c, e);
    var next := AddWeek(c);
    AddDaysNumber(c, 7);
    DayNumberOrder(next, e);
    if LessEq(next, e) {
      CountWeekly(next, e);
    }
  }

  /** Stepping k months from a day that exists in every month keeps the day. */
  lemma AddMonthsKeepsDay(c: Date, k: nat)
    requires Valid(c) && c.day <= 28
    ensures Valid(AddMonths(c, k)) && AddMonths(c, k).day == c.day
    ensures MonthIndex(AddMonths(c, k)) == MonthIndex(c) + k
  {
    AddMonthsValid(c, k);
    FirstOfMonthIndexInverse(MonthIndex(c) + k);
  }

  lemma {:induction false} CountMonthly(c: Date, e: Date)
    requires Valid(c) && Valid(e) && LessEq(c, e) && c.day <= 28
    ensures Count(c, e, Monthly) == WholeMonths(c, e) + 1
    decreases DayNumber(e) - DayNumber(c)
  {
    DayNumberOrder(c, e);
    AdvanceLater(c, Monthly);
    var next := AddMonths(c, 1);
    AddMonthsKeepsDay(c, 1);
    LessEqByMonthIndex(c, e);
    LessEqByMonthIndex(next, e);
    if LessEq(next, e) {
      CountMonthly(next, e);
    }
  }

  /** Yearly steps keep the day and month of any start date but February 29,
      and that is all the closed form needs. */
  lemma {:induction false} CountYearly(c: Date, e: Date)
    requires Valid(c) && Valid(e) && LessEq(c, e) && !(c.month == 2 && c.day == 29)
    ensures Count(c, e, Yearly) == WholeMonths(c, e) / 12 + 1
    decreases DayNumber(e) - DayNumber(c)
  {
    DayNumberOrder(c, e);
    AdvanceLater(c, Yearly);
    var next := AddYear(c);
    LessEqByMonthIndex(c, e);
    LessEqByMonthIndex(next, e);
    if LessEq(next, e) {
      CountYearly(next, e);
    }
  }

  /** The loop's count in closed form: it is one more than the whole
      periods between the two dates. For monthly steps this needs a start day
      every month has (a later one drifts, see MonthEndDrift); for yearly
      steps, a start date other than February 29. */
  lemma OccurrencesInWholeUnits(start: Date, end: Date, f: Frequency)
    requires Valid(start) && Valid(end) && LessEq(start, end)
    ensures f == Daily ==> Occurrences(start, end, f) == DiffInDays(start, end) + 1
    ensures f == Weekly ==> Occurrences(start, end, f) == DiffInWeeks(start, end) + 1
    ensures f == Monthly && start.day <= 28 ==> Occurrences(start, end, f) == DiffInMonths(start, end) + 1
    ensures f == Yearly && !(start.month == 2 && start.day == 29) ==> Occurrences(start, end, f) == DiffInYears(start, end) + 1
  {
    match f
    case Daily => CountDaily(start, end);
    case Weekly => CountWeekly(start, end);
    case Monthly => if start.day <= 28 { CountMonthly(start, end); }
    case Yearly => if !(start.month == 2 && start.day == 29) { CountYearly(start, end); }
    case _ =>
  }

  /** Monthly counting from the 31st drifts: January 31 plus one month is
      March 2 in 2024, so from 2024-01-31 to 2024-03-31 the loop counts two
      dates (January 31 and March 2), not three. */
  lemma MonthEndDrift()
    ensures AddMonths(Date(2024, 1, 31), 1) == Date(2024, 3, 2)
    ensures Occurrences(Date(2024, 1, 31), Date(2024, 3, 31), Monthly) == 2
  {
    assert AddMonths(Date(2024, 3, 2), 1) == Date(2024, 4, 2);
  }

  /** The counts the unit tests expect. */
  lemma OccurrenceExamples()
    ensures Occurrences(Date(2024, 1, 1), Date(2024, 3, 1), Monthly) == 3
    ensures Occurrences(Date(2024, 1, 1), Date(2024, 1, 3), Daily) == 3
    ensures Occurrences(Date(2024, 1, 1), Date(2026, 1, 1), Yearly) == 3
  {
    CountMonthly(Date(2024, 1, 1), Date(2024, 3, 1));
    CountDaily(Date(2024, 1, 1), Date(2024, 1, 3));
    CountYearly(Date(2024, 1, 1), Date(2026, 1, 1));
  }

  // ---------------------------------------------------------------------
  // calculateTotalAmount

  /** A date field of the form: Blank when the value is falsy (null or
      empty), otherwise the outcome of Carbon::parse on it (None when parsing
      throws). */
  datatype DateField = Blank | Filled(parsed: Option<Date>)

  /** The four texts the preview can show, without their number formatting. */
  datatype TotalPreview =
    | ZeroTotal                                             // "Montant total : 0,00 €"
    | OnceTotal(amount: real)                               // "Montant total : <amount>"
    | PerOccurrence(amount: real)                           // "Montant par occurrence : <amount>"
    | OverPeriod(total: real, occurrences: nat, amount: real) // "Total sur la période : <total> (<n> × <amount>)"

  predicate ParsedValid(field: DateField) {
    field.Filled? && field.parsed.Some? ==> Valid(field.parsed.value)
  }

  /** The amount the form holds: 0 when missing. */
  function AmountOf(amountField: Option<real>): real {
    if amountField.Some? then amountField.value else 0.0
  }

  /** The frequency code the form holds: "once" when missing. */
  function FrequencyOf(frequencyField: Option<string>): string {
    if frequencyField.Some? then frequencyField.value else "once"
  }

  /** calculateTotalAmount. A missing amount reads as 0 and a missing
      frequency as "once". */
  function CalculateTotalAmount(amountField: Option<real>, frequencyField: Option<string>,
                                startDate: DateField, endDate: DateField): (r: TotalPreview)
    requires ParsedValid(startDate) && ParsedValid(endDate)
    ensures AmountOf(amountField) <= 0.0 <==> r == ZeroTotal
    ensures AmountOf(amountField) > 0.0 && FrequencyOf(frequencyField) == "once" <==> r == OnceTotal(AmountOf(amountField))
    ensures AmountOf(amountField) > 0.0 && FrequencyOf(frequencyField) != "once" && (startDate.Blank? || endDate.Blank?) ==>
              r == PerOccurrence(AmountOf(amountField))
    ensures AmountOf(amountField) > 0.0 && FrequencyOf(frequencyField) != "once" && startDate.Filled? && endDate.Filled?
            && (startDate.parsed.None? || endDate.parsed.None?) ==>
              r == PerOccurrence(AmountOf(amountField))
    ensures r.OverPeriod? <==> AmountOf(amountField) > 0.0 && FrequencyOf(frequencyField) != "once"
                               && startDate.Filled? && endDate.Filled? && startDate.parsed.Some? && endDate.parsed.Some?
    ensures r.OverPeriod? ==>
              && r.amount == AmountOf(amountField)
              && r.occurrences == Occurrences(startDate.parsed.value, endDate.parsed.value, FrequencyFromCode(FrequencyOf(frequencyField)))
              && r.total == AmountOf(amountField) * r.occurrences as real
  {
    var amount := AmountOf(amountField);
    var frequency := FrequencyOf(frequencyField);
    if amount <= 0.0 then ZeroTotal
    else if frequency == "once" then OnceTotal(amount)
    else if startDate.Blank? || endDate.Blank? then PerOccurrence(amount)
    else if startDate.parsed.None? || endDate.parsed.None? then PerOccurrence(amount)
    else
      var occurrences := Occurrences(startDate.parsed.value, endDate.parsed.value, FrequencyFromCode(frequency));
      OverPeriod(amount * occurrences as real, occurrences, amount)
  }

  /** The previews the unit tests expect without a period. */
  lemma TotalAmountPreviewExamples()
    ensures CalculateTotalAmount(Some(0.0), Some("monthly"), Blank, Blank) == ZeroTotal
    ensures CalculateTotalAmount(Some(100.50), Some("once"), Blank, Blank) == OnceTotal(100.50)
    ensures CalculateTotalAmount(Some(250.75), Some("monthly"), Blank, Blank) == PerOccurrence(250.75)
  {
  }

  /** The previews the unit tests expect over a period: three monthly,
      three daily and three yearly occurrences. */
  lemma TotalAmountMonthlyExample()
    ensures CalculateTotalAmount(Some(100.0), Some("monthly"), Filled(Some(Date(2024, 1, 1))), Filled(Some(Date(2024, 3, 1))))
            == OverPeriod(300.0, 3, 100.0)
  {
    CountMonthly(Date(2024, 1, 1), Date(2024, 3, 1));
  }

  lemma TotalAmountDailyExample()
    ensures CalculateTotalAmount(Some(10.0), Some("daily"), Filled(Some(Date(2024, 1, 1))), Filled(Some(Date(2024, 1, 3))))
            == OverPeriod(30.0, 3, 10.0)
  {
    CountDaily(Date(2024, 1, 1), Date(2024, 1, 3));
  }

  lemma TotalAmountYearlyExample()
    ensures CalculateTotalAmount(Some(1000.0), Some("yearly"), Filled(Some(Date(2024, 1, 1))), Filled(Some(Date(2026, 1, 1))))
            == OverPeriod(3000.0, 3, 1000.0)
  {
    var start, end := Date(2024, 1, 1), Date(2026, 1, 1);
    CountYearly(start, end);
    assert WholeMonths(start, end) == 24;
    assert Occurrences(start, end, Yearly) == 3;
    assert FrequencyFromCode("yearly") == Yearly;
    var r := CalculateTotalAmount(Some(1000.0), Some("yearly"), Filled(Some(start)), Filled(Some(end)));
    assert r.OverPeriod? && r.occurrences == 3;
  }
}
