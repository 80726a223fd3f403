/** Worked expansions of schedule fields taken from the repository's test
    cases, each proved from the general lemmas of the expander: the shape of
    the field fixes its candidates, and a separate lemma spells those out. */
module CronExamples {
  import opened Text
  import opened Literals
  import opened Expander
  import opened CronFields

  /** Which alias table each field admits. */
  lemma FieldAliases()
    ensures MINUTE.Aliases() == NoAliases && HOUR.Aliases() == NoAliases
    ensures DAY_OF_MONTH.Aliases() == NoAliases
    ensures MONTH.Aliases() == MonthNames && DAY_OF_WEEK.Aliases() == WeekdayNames
  {
  }

  /** The numerals the examples use and the values `int` gives them. */
  lemma ExampleNumerals()
    ensures IsDigits("0") && DecimalValue("0") == 0
    ensures IsDigits("1") && DecimalValue("1") == 1
    ensures IsDigits("2") && DecimalValue("2") == 2
    ensures IsDigits("3") && DecimalValue("3") == 3
    ensures IsDigits("4") && DecimalValue("4") == 4
    ensures IsDigits("5") && DecimalValue("5") == 5
    ensures IsDigits("10") && DecimalValue("10") == 10
    ensures IsDigits("12") && DecimalValue("12") == 12
    ensures IsDigits("15") && DecimalValue("15") == 15
    ensures IsDigits("100") && DecimalValue("100") == 100
  {
    assert IsDigit('0') && IsDigit('1') && IsDigit('2') && IsDigit('3') && IsDigit('4') && IsDigit('5');
    assert DecimalValue("10") == 10;
  }

  /** The names the examples use and their table entries. */
  lemma ExampleNames()
    ensures IsAlias("jan", MonthNames) && LiteralValue("jan", MonthNames) == 1
    ensures IsAlias("mon", WeekdayNames) && LiteralValue("mon", WeekdayNames) == 1
    ensures IsAlias("thu", WeekdayNames) && LiteralValue("thu", WeekdayNames) == 4
  {
  }

  /** `0` in the minute field. */
  lemma MinuteZero()
    ensures ExpandField("0", MINUTE) == Ok([0])
  {
    FieldAliases();
    ExampleNumerals();
    ExpandSingle("0", MINUTE);
  }

  /** `0` in the hour field. */
  lemma HourZero()
    ensures ExpandField("0", HOUR) == Ok([0])
  {
    FieldAliases();
    ExampleNumerals();
    ExpandSingle("0", HOUR);
  }

  /** `12` in the hour field. */
  lemma HourTwelve()
    ensures ExpandField("12", HOUR) == Ok([12])
  {
    FieldAliases();
    ExampleNumerals();
    ExpandSingle("12", HOUR);
  }

  /** `1` in the day-of-month field. */
  lemma DayOne()
    ensures ExpandField("1", DAY_OF_MONTH) == Ok([1])
  {
    FieldAliases();
    ExampleNumerals();
    ExpandSingle("1", DAY_OF_MONTH);
  }

  lemma MonthRun()
    ensures Span(1, 12) == [1, 2, 3, 4, 5, 6, 7, 8, 9, 10, 11, 12]
  {
  }

  /** `*` in the month field: every month. */
  lemma MonthStar()
    ensures ExpandField("*", MONTH) == Ok([1, 2, 3, 4, 5, 6, 7, 8, 9, 10, 11, 12])
  {
    ExpandWildcard(MONTH);
    MonthRun();
  }

  lemma WeekRun()
    ensures Span(0, 6) == [0, 1, 2, 3, 4, 5, 6]
  {
  }

  /** `*` in the day-of-week field: every day, Sunday first. */
  lemma WeekStar()
    ensures ExpandField("*", DAY_OF_WEEK) == Ok([0, 1, 2, 3, 4, 5, 6])
  {
    ExpandWildcard(DAY_OF_WEEK);
    WeekRun();
  }

  lemma WorkdayRange()
    ensures ExpandField("1-5", DAY_OF_WEEK) == Ok(Span(1, 5))
  {
    assert "1" + "-" + "5" == "1-5";
    FieldAliases();
    ExampleNumerals();
    ExpandRange("1", "5", DAY_OF_WEEK);
  }

  lemma WorkdayRun()
    ensures Span(1, 5) == [1, 2, 3, 4, 5]
  {
  }

  /** `1-5` in the day-of-week field: Monday to Friday. */
  lemma Workdays()
    ensures ExpandField("1-5", DAY_OF_WEEK) == Ok([1, 2, 3, 4, 5])
  {
    WorkdayRange();
    WorkdayRun();
  }

  lemma MidMonthRange()
    ensures ExpandField("5-12", DAY_OF_MONTH) == Ok(Span(5, 12))
  {
    assert "5" + "-" + "12" == "5-12";
    FieldAliases();
    ExampleNumerals();
    ExpandRange("5", "12", DAY_OF_MONTH);
  }

  lemma MidMonthRun()
    ensures Span(5, 12) == [5, 6, 7, 8, 9, 10, 11, 12]
  {
  }

  /** `5-12` in the day-of-month field. */
  lemma MidMonth()
    ensures ExpandField("5-12", DAY_OF_MONTH) == Ok([5, 6, 7, 8, 9, 10, 11, 12])
  {
    MidMonthRange();
    MidMonthRun();
  }

  /** A step in the minute field from a start in bounds by a positive
      interval runs to the end of the hour. */
  lemma MinuteStep(s: StepStart, d: string, start: int, n: int)
    requires s.FromLiteral? ==> IsDigits(s.token) && DecimalValue(s.token) == start
    requires s.FromMin? ==> start == 0
    requires IsDigits(d) && DecimalValue(d) == n
    requires 0 <= start <= 59 && n > 0
    ensures ExpandField(Render(Step(s, d)), MINUTE) == Ok(Stride(start, 60, n))
  {
    FieldAliases();
    ExpandStep(s, d, MINUTE);
  }

  lemma QuarterStep()
    ensures ExpandField("*/15", MINUTE) == Ok(Stride(0, 60, 15))
  {
    assert Render(Step(FromMin, "15")) == "*/15";
    ExampleNumerals();
    MinuteStep(FromMin, "15", 0, 15);
  }

  lemma QuarterRun()
    ensures Stride(0, 60, 15) == [0, 15, 30, 45]
  {
  }

  /** A star stepped by 15 in the minute field: every quarter hour. */
  lemma QuarterHours()
    ensures ExpandField("*/15", MINUTE) == Ok([0, 15, 30, 45])
  {
    QuarterStep();
    QuarterRun();
  }

  lemma TenMinuteStep()
    ensures ExpandField("0/10", MINUTE) == Ok(Stride(0, 60, 10))
  {
    assert Render(Step(FromLiteral("0"), "10")) == "0/10";
    ExampleNumerals();
    MinuteStep(FromLiteral("0"), "10", 0, 10);
  }

  lemma TenMinuteRun()
    ensures Stride(0, 60, 10) == [0, 10, 20, 30, 40, 50]
  {
  }

  /** `0/10` in the minute field: every ten minutes from the top of the hour. */
  lemma TenMinutes()
    ensures ExpandField("0/10", MINUTE) == Ok([0, 10, 20, 30, 40, 50])
  {
    TenMinuteStep();
    TenMinuteRun();
  }

  lemma MonthStep(t: string, d: string)
    requires IsLiteral(t, MonthNames) && LiteralValue(t, MonthNames) == 1
    requires IsDigits(d) && DecimalValue(d) == 3
    ensures ExpandField(t + "/" + d, MONTH) == Ok(Stride(1, 13, 3))
  {
    FieldAliases();
    ExpandStep(FromLiteral(t), d, MONTH);
  }

  lemma QuarterYearStep()
    ensures ExpandField("jan/3", MONTH) == Ok(Stride(1, 13, 3))
  {
    assert "jan" + "/" + "3" == "jan/3";
    ExampleNames();
    assert IsDigit("3"[0]) && IsDigits("3") && DecimalValue("3") == 3;
    MonthStep("jan", "3");
  }

  lemma QuarterYearRun()
    ensures Stride(1, 13, 3) == [1, 4, 7, 10]
  {
  }

  /** `jan/3` in the month field: the first month of each quarter. */
  lemma QuarterYear()
    ensures ExpandField("jan/3", MONTH) == Ok([1, 4, 7, 10])
  {
    QuarterYearStep();
    QuarterYearRun();
  }

  lemma TwoDaysValues()
    ensures WellFormed(List(["1", "15"]), NoAliases)
    ensures ResolveAll(["1", "15"], NoAliases) == [1, 15]
  {
    ExampleNumerals();
  }

  lemma TwoDaysSorted()
    ensures ExpandField(Join(["1", "15"], ','), DAY_OF_MONTH) == Ok([1, 15])
  {
    FieldAliases();
    TwoDaysValues();
    ExpandSortedList(["1", "15"], DAY_OF_MONTH, [1, 15]);
  }

  /** `1,15` in the day-of-month field: the list, in ascending order. */
  lemma TwoDays()
    ensures ExpandField("1,15", DAY_OF_MONTH) == Ok([1, 15])
  {
    assert Join(["1", "15"], ',') == "1,15";
    TwoDaysSorted();
  }

  lemma WeekdayNamesRange()
    ensures ExpandField("mon-thu", DAY_OF_WEEK) == Ok(Span(1, 4))
  {
    assert "mon" + "-" + "thu" == "mon-thu";
    FieldAliases();
    ExampleNames();
    ExpandRange("mon", "thu", DAY_OF_WEEK);
  }

  lemma MondayToThursdayRun()
    ensures Span(1, 4) == [1, 2, 3, 4]
  {
  }

  lemma LowerMonThu()
    ensures LowerCase("mon-THU") == "mon-thu"
  {
  }

  /** `mon-THU` in the day-of-week field: names in any letter case. */
  lemma MondayToThursday()
    ensures ExpandField("mon-THU", DAY_OF_WEEK) == Ok([1, 2, 3, 4])
  {
    CaseInsensitive("mon-THU", DAY_OF_WEEK);
    LowerMonThu();
    WeekdayNamesRange();
    MondayToThursdayRun();
  }

  lemma WrappedRange()
    ensures ExpandField("4-0", DAY_OF_WEEK) == Ok(Span(0, 0) + Span(4, 6))
  {
    assert "4" + "-" + "0" == "4-0";
    FieldAliases();
    ExampleNumerals();
    ExpandRange("4", "0", DAY_OF_WEEK);
  }

  lemma WrappedRun()
    ensures Span(0, 0) + Span(4, 6) == [0, 4, 5, 6]
  {
  }

  /** `4-0` in the day-of-week field: Thursday round to Sunday, which wraps
      past Saturday. */
  lemma ThursdayToSunday()
    ensures ExpandField("4-0", DAY_OF_WEEK) == Ok([0, 4, 5, 6])
  {
    WrappedRange();
    WrappedRun();
  }

  /** `5-3` runs backwards in a field that does not wrap. */
  lemma BackwardDays()
    ensures ExpandField("5-3", DAY_OF_MONTH) == Err(InvalidRange)
  {
    assert "5" + "-" + "3" == "5-3";
    FieldAliases();
    ExampleNumerals();
    ExpandRange("5", "3", DAY_OF_MONTH);
  }

  /** `100` is past the last hour. */
  lemma HourTooLarge()
    ensures ExpandField("100", HOUR) == Err(ValueOutOfRange)
  {
    FieldAliases();
    ExampleNumerals();
    ExpandSingle("100", HOUR);
  }

  /** `blah` matches no syntax. */
  lemma Gibberish()
    ensures ExpandField("blah", HOUR) == Err(InvalidField)
  {
    FieldAliases();
    assert !IsDigit("blah"[0]);
    assert NoUpper("blah");
    ExpandUnpunctuated("blah", HOUR);
  }

  /** `feb` is a month name, which the minute field does not admit. */
  lemma MonthNameInMinutes()
    ensures ExpandField("feb", MINUTE) == Err(InvalidField)
  {
    FieldAliases();
    ExpandForeignAlias("feb", MINUTE);
  }

  /** `1-5/2`: a range with a step is not part of the syntax. */
  lemma RangeWithStep()
    ensures ExpandField("1-5/2", MINUTE) == Err(InvalidField)
  {
    assert "1" + "-" + "5" + "/" + "2" == "1-5/2";
    FieldAliases();
    ExampleNumerals();
    ExpandRangeWithStep("1", "5", "2", MINUTE);
  }

  /** `005` reads as 5, and names resolve through their tables. */
  lemma ResolveExamples()
    ensures Resolve("005") == Some(5)
    ensures Resolve("feb") == Some(2)
    ensures Resolve("sat") == Some(6)
  {
    ExampleNumerals();
    assert Zeros(2) + "5" == "005";
    ResolveNumeral(2, "5");
  }
}
