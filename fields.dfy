/** The five time fields of a schedule line and the bounds, alias table and
    wrap-around rule `_expand` passes for each (cron.py:69-79), with the
    properties that set the fields apart. */
module CronFields {
  import opened Literals
  import opened Expander

  const MINUTE: FieldSpec := FieldSpec(0, 59, false, false, false)
  const HOUR: FieldSpec := FieldSpec(0, 23, false, false, false)
  const DAY_OF_MONTH: FieldSpec := FieldSpec(1, 31, false, false, false)
  const MONTH: FieldSpec := FieldSpec(1, 12, true, false, false)
  const DAY_OF_WEEK: FieldSpec := FieldSpec(0, 6, false, true, true)

  /** `*` stands for every value of the field: 0-59 minutes, 0-23 hours,
      days 1-31 of the month, months 1-12 and weekdays 0-6. */
  lemma FieldRanges()
    ensures ExpandField("*", MINUTE) == Ok(Span(0, 59))
    ensures ExpandField("*", HOUR) == Ok(Span(0, 23))
    ensures ExpandField("*", DAY_OF_MONTH) == Ok(Span(1, 31))
    ensures ExpandField("*", MONTH) == Ok(Span(1, 12))
    ensures ExpandField("*", DAY_OF_WEEK) == Ok(Span(0, 6))
  {
    ExpandWildcard(MINUTE);
    ExpandWildcard(HOUR);
    ExpandWildcard(DAY_OF_MONTH);
    ExpandWildcard(MONTH);
    ExpandWildcard(DAY_OF_WEEK);
  }

  /** A month name is accepted in the month field, where it stands for its
      month number, and rejected by every other field. */
  lemma MonthNameOnlyInMonth(t: string)
    requires t in MONTH_ALIASES
    ensures ExpandField(t, MONTH) == Ok([MONTH_ALIASES[t]])
    ensures ExpandField(t, MINUTE) == Err(InvalidField)
    ensures ExpandField(t, HOUR) == Err(InvalidField)
    ensures ExpandField(t, DAY_OF_MONTH) == Err(InvalidField)
    ensures ExpandField(t, DAY_OF_WEEK) == Err(InvalidField)
  {
    ExpandSingle(t, MONTH);
    ExpandForeignAlias(t, MINUTE);
    ExpandForeignAlias(t, HOUR);
    ExpandForeignAlias(t, DAY_OF_MONTH);
    ExpandForeignAlias(t, DAY_OF_WEEK);
  }

  /** A weekday name is accepted in the day-of-week field, where it stands
      for its day number, and rejected by every other field. */
  lemma WeekdayNameOnlyInDayOfWeek(t: string)
    requires t in WEEKDAY_ALIASES
    ensures ExpandField(t, DAY_OF_WEEK) == Ok([WEEKDAY_ALIASES[t]])
    ensures ExpandField(t, MINUTE) == Err(InvalidField)
    ensures ExpandField(t, HOUR) == Err(InvalidField)
    ensures ExpandField(t, DAY_OF_MONTH) == Err(InvalidField)
    ensures ExpandField(t, MONTH) == Err(InvalidField)
  {
    ExpandSingle(t, DAY_OF_WEEK);
    ExpandForeignAlias(t, MINUTE);
    ExpandForeignAlias(t, HOUR);
    ExpandForeignAlias(t, DAY_OF_MONTH);
    ExpandForeignAlias(t, MONTH);
  }

  /** Only the day-of-week field lets a range run backwards. */
  lemma BackwardRanges(a: string, b: string, spec: FieldSpec)
    requires spec in {MINUTE, HOUR, DAY_OF_MONTH, MONTH, DAY_OF_WEEK}
    requires IsLiteral(a, spec.Aliases()) && IsLiteral(b, spec.Aliases())
    requires LiteralValue(a, spec.Aliases()) > LiteralValue(b, spec.Aliases())
    ensures ExpandField(a + "-" + b, spec).Ok? ==> spec == DAY_OF_WEEK
  {
    ExpandRange(a, b, spec);
  }
}
