# Cron field expander, modelled in Dafny

This project models the field-expansion engine of a five-field cron
expression parser (`CronExpression` in `cron.py`). Given one field of a
schedule line, the engine:

- lower-cases the field;
- recognises which of the five syntaxes it is written in: `*`, a literal, a range `a-b`, a step `a/n` or `*/n`, or a comma list `a,b,...`;
- produces the candidate values for that syntax;
- rejects any value outside the field's bounds;
- returns the values sorted.

A literal is a run of decimal digits, or a three-letter month or weekday name when the field admits that table. A literal is turned into an integer by looking it up in the month table, then in the weekday table, and otherwise by reading it as a decimal number.

Modules (one file each):

- `Text` (`text.dfy`): ASCII lower-casing, the digit class, `int` of a digit string, `str` of a natural number, and `str.split` with a one-character separator together with its inverse `join`.
- `Sorting` (`sorting.dfy`): Python's `sorted` on a list of integers, as an insertion sort. It proves the result is ascending and a permutation of the input, and that the ascending arrangement of a collection is unique.
- `Literals` (`literals.dfy`): the two alias tables, the alias policy of a field, the literal grammar, and the literal resolver `_convert_literal_to_integer`.
- `Expander` (`expander.dfy`): the syntax classifier, the value generators (`range` with and without a step), the final bounds check and sort, and `_expand_cron_field` itself. It carries one lemma per syntax that states the exact result.
- `CronFields` (`fields.dfy`): the bounds, alias flags and wrap-around rule of the five fields, with the properties that distinguish them.
- `CronExamples` (`schedules.dfy`): the expansions the repository's test cases expect, proved field by field.

Errors are one tag per `ValueError` the expander can raise; the message text is not modelled. The tags are:

- `InvalidRange`: a range endpoint is out of bounds, or a range runs backwards in a field without wrap-around.
- `StartOutOfBounds`: the start of a step is out of bounds.
- `ZeroInterval`: a step of `0`, which Python's `range` refuses.
- `InvalidField`: no syntax matches.
- `ValueOutOfRange`: a produced value is out of bounds.

The resolver consults the month table, then the weekday table, whatever the field; the field's grammar decides which names reach it: month names only where month aliases are allowed, weekday names only where weekday aliases are allowed and month aliases are not.

A step of `0` makes `range(start, stop, 0)` raise `ValueError` after the start's bounds check; the model yields `ZeroInterval`.

## Model

| member | source | states |
|---|---|---|
| Literals.AliasNames | cron.py:7-30 | every key of either alias table is three lower-case letters, and no key is in both tables |
| Literals.MonthAliasesDense | cron.py:7-20 | the month table maps its names onto exactly the month numbers 1 to 12 |
| Literals.WeekdayAliasesDense | cron.py:22-30 | the weekday table maps its names onto exactly the day numbers 0 to 6, Sunday being 0 and Saturday 6 |
| Literals.AliasPolicy | cron.py:106-113 | a field admits month names exactly when its month flag is set, weekday names exactly when only its weekday flag is set, and no names when neither is set |
| Literals.IsLiteral | cron.py:104-116 | a token the literal pattern accepts always converts to an integer, and where the field admits no names it is a run of digits |
| Literals.LiteralShape | cron.py:106-116 | a literal of any field's grammar is a non-empty run of digits and lower-case letters, so it holds no `*`, `-`, `/` or `,` and no upper-case letter |
| Literals.Resolve | cron.py:174-183 | a token resolves exactly when it is a month name, a weekday name or a run of digits |
| Literals.NumeralIsNoName | cron.py:180-183 | a run of digits is in neither table, so it always reaches `int` |
| Literals.ResolveNumeral | cron.py:176 | a numeral with leading zeros resolves to the value of its digits ("005" is 5); Python's limit on the number of digits `int` accepts is not modelled (see "Left out") |
| Literals.ResolveNumeralOf | cron.py:150-151 | the numeral `str(n)` of a natural number resolves back to `n`, so replacing `*` by `str(min_value)` starts the step at `min_value` |
| Literals.LiteralValue | cron.py:123-124 | every literal of a field's grammar resolves; a numeral to its decimal value; a month name to its entry, in 1 to 12; a weekday name to its entry, in 0 to 6 |
| Literals.ResolveAll | cron.py:161-162 | the list items resolve one by one, in written order, one value per item |
| Text.LowerCase | cron.py:102 | lower-casing keeps the length, maps each character to its lower-case form, and leaves no upper-case letter |
| Text.LowerCaseIdempotent | cron.py:102 | lower-casing twice is lower-casing once |
| Text.DecimalValue | cron.py:183 | `int` of a digit string is 0 exactly when every digit is `0` |
| Text.DecimalLeadingZeros | cron.py:176 | leading zeros do not change the value `int` gives a digit string |
| Text.Numeral | cron.py:150 | `str(n)` is a digit string without superfluous leading zero whose decimal value is `n` |
| Text.Split | cron.py:128-129 | `split` gives at least one piece, no piece holds the separator, and joining the pieces with it gives the text back |
| Text.SplitJoin | cron.py:161 | splitting a join of separator-free pieces gives the pieces back |
| Sorting.Sort | cron.py:172 | `sorted` returns an ascending list with the same multiset of values (duplicates kept) |
| Sorting.AscendingUnique | cron.py:172 | two ascending lists with the same multiset of values are equal, so the sorted result is determined by the values alone |
| Sorting.SortKeepsAscending | cron.py:172 | sorting an ascending list returns it unchanged |
| Sorting.SortSameElements | cron.py:172 | a value is in the sorted list exactly when it is in the input |
| Expander.Classify | cron.py:118-166 | the five syntax tests in their order; whatever shape is found has well-formed pieces and writes back as exactly the field |
| Expander.ClassifyRender | cron.py:118-166 | every well-formed shape is recognised as itself, so no earlier test in the order captures it |
| Expander.ClassifyRange | cron.py:127 | `a-b` with literal `a` and `b` is recognised as a range with endpoints `a` and `b` |
| Expander.ClassifyStep | cron.py:148 | `a/n` or `*/n` with literal `a` and digits `n` is recognised as a step |
| Expander.ClassifyList | cron.py:160 | two or more literals joined by commas are recognised as a list of exactly those literals |
| Expander.NotLiteral | cron.py:119-123 | text holding `-`, `/` or `,` is neither `*` nor a single literal |
| Expander.Span | cron.py:120 | `list(range(lo, hi + 1))` has `hi - lo + 1` values (none when `lo > hi`), the `i`-th being `lo + i` |
| Expander.SpanAscending | cron.py:120 | an interval is ascending |
| Expander.Stride | cron.py:157 | `list(range(start, stop, step))` is empty exactly when `stop <= start`, starts at `start`, grows by `step`, stays below `stop`, and stops within one step of it |
| Expander.StrideAt | cron.py:157 | the `i`-th value of a stride is `start + i * step` |
| Expander.StrideLength | cron.py:157 | `start + len * step` is at or past `stop`, so the stride holds every value that fits |
| Expander.StrideMembers | cron.py:157 | `v` is in the stride exactly when `start <= v < stop` and `v - start` is a multiple of `step` |
| Expander.StrideAscending | cron.py:157 | a stride is ascending |
| Expander.RangeValues | cron.py:131-145 | the range branch succeeds exactly when both endpoints are in bounds and the range runs forward or the field wraps around; it fails only with `InvalidRange`; its values are in bounds |
| Expander.StepValues | cron.py:149-157 | the step branch succeeds exactly when the start is in bounds and the interval is positive; a bad start is `StartOutOfBounds`, otherwise a zero interval is `ZeroInterval`; its values are in bounds |
| Expander.Candidates | cron.py:118-166 | `*`, a single literal and a list always produce candidates, one per literal for a single literal and a list; a range fails only with `InvalidRange`, a step only with `StartOutOfBounds` or `ZeroInterval`; `InvalidField` comes exactly from a field no syntax recognises |
| Expander.Finish | cron.py:168-172 | an error passes through; candidates succeed exactly when all are in bounds, else `ValueOutOfRange`; the result is ascending, in bounds and holds the same values |
| Expander.FinishKeeps | cron.py:168-172 | ascending candidates within bounds come through the final check and the sort unchanged |
| Expander.SortInBounds | cron.py:169-172 | sorting values within bounds keeps them within bounds |
| Expander.ExpandField | cron.py:83-172 | every successful expansion is ascending and lies within the field's bounds |
| Expander.RenderIsLowerCase | cron.py:102 | the text of a well-formed shape holds no upper-case letter, so lower-casing it changes nothing |
| Expander.ExpandShape | cron.py:83-172 | expanding the text of a well-formed shape is producing that shape's candidates, checking bounds and sorting |
| Expander.CaseInsensitive | cron.py:101-102 | a field and its lower-case form expand alike |
| Expander.ExpandWildcard | cron.py:119-120 | `*` expands to every value from the minimum to the maximum, ascending |
| Expander.ExpandSingle | cron.py:123-124 | a literal expands to its single value when that is in bounds, otherwise to `ValueOutOfRange` |
| Expander.WrapAroundAscending | cron.py:142 | the two halves of a wrapped range are already in ascending order |
| Expander.ExpandRange | cron.py:127-145 | `a-b` is `InvalidRange` when an endpoint is out of bounds; else the interval from `a` to `b` when `a <= b`; else, with wrap-around, the bottom of the field up to `b` followed by `a` up to the top; else `InvalidRange` |
| Expander.ExpandStep | cron.py:148-157 | `a/n` (or `*/n`, starting at the minimum) is `StartOutOfBounds` when the start is out of bounds; else `ZeroInterval` when `n` is 0; else every `n`-th value from the start to the top of the field |
| Expander.ExpandList | cron.py:160-162 | a comma list succeeds exactly when every item's value is in bounds, fails otherwise with `ValueOutOfRange`, and yields the items' values ascending with duplicates kept |
| Expander.ExpandSortedList | cron.py:160-172 | a list written in ascending order with every value in bounds expands to exactly its values |
| Expander.ExpandUnrecognised | cron.py:165-166 | a field that no syntax recognises is `InvalidField` |
| Expander.ExpandUnpunctuated | cron.py:165-166 | text that is neither `*` nor a literal and holds none of `-`, `/`, `,` is `InvalidField` |
| Expander.ExpandForeignAlias | cron.py:108-113 | a month name outside a month-alias field, or a weekday name outside a field that admits weekday names, is `InvalidField` |
| Expander.RangeStepSplits | cron.py:127-148 | `a-b/n` splits at the dash into `a` and `b/n`, at the slash into `a-b` and `n`, and not at all at commas |
| Expander.ExpandRangeWithStep | cron.py:127-166 | a range followed by a step, `a-b/n`, matches no syntax and is `InvalidField` |
| CronFields.MonthNameOnlyInMonth | cron.py:69-79 | a month name expands to its month number in the month field and is `InvalidField` in the four others |
| CronFields.WeekdayNameOnlyInDayOfWeek | cron.py:69-79 | a weekday name expands to its day number in the day-of-week field and is `InvalidField` in the four others |
| CronFields.BackwardRanges | cron.py:69-79 | among the five fields, a backward range succeeds only in the day-of-week field |
| CronFields.FieldRanges | cron.py:69-79 | `*` covers minutes 0 to 59, hours 0 to 23, days of the month 1 to 31, months 1 to 12 and weekdays 0 to 6 |
| CronExamples.MinuteZero | test.py:9-14 | `0` in the minute field is `[0]` |
| CronExamples.HourZero | test.py:9-15 | `0` in the hour field is `[0]` |
| CronExamples.DayOne | test.py:9-16 | `1` in the day-of-month field is `[1]` |
| CronExamples.MonthStar | test.py:9-17 | `*` in the month field is 1 to 12 |
| CronExamples.Workdays | test.py:9-18 | `1-5` in the day-of-week field is 1 to 5 |
| CronExamples.QuarterHours | test.py:24-29 | `*/15` in the minute field is 0, 15, 30, 45 |
| CronExamples.TwoDays | test.py:24-31 | `1,15` in the day-of-month field is 1, 15 |
| CronExamples.TenMinutes | test.py:38-43 | `0/10` in the minute field is 0, 10, 20, 30, 40, 50 |
| CronExamples.HourTwelve | test.py:38-44 | `12` in the hour field is `[12]` |
| CronExamples.MidMonth | test.py:38-45 | `5-12` in the day-of-month field is 5 to 12 |
| CronExamples.QuarterYear | test.py:38-46 | `jan/3` in the month field is 1, 4, 7, 10 |
| CronExamples.WeekStar | test.py:38-47 | `*` in the day-of-week field is 0 to 6 |
| CronExamples.MonthStep | cron.py:148-157 | a month-field step from a literal worth 1 by a numeral worth 3 is 1, 4, 7, 10 |
| CronExamples.MinuteStep | cron.py:148-157 | a minute-field step from a start in bounds by a positive interval runs to 59 |
| CronExamples.MondayToThursday | test.py:52-61 | `mon-THU` in the day-of-week field is 1 to 4 |
| CronExamples.ThursdayToSunday | test.py:66-75 | `4-0` in the day-of-week field wraps around to 0, 4, 5, 6 |
| CronExamples.BackwardDays | test.py:80-82 | `5-3` in the day-of-month field is `InvalidRange` |
| CronExamples.HourTooLarge | test.py:84-86 | `100` in the hour field is `ValueOutOfRange` |
| CronExamples.Gibberish | test.py:88-90 | `blah` in the hour field is `InvalidField` |
| CronExamples.MonthNameInMinutes | test.py:96-99 | `feb` in the minute field is `InvalidField` |
| CronExamples.RangeWithStep | cron.py:127-166 | `1-5/2` in the minute field is `InvalidField` |
| CronExamples.ResolveExamples | cron.py:174-183 | "005" resolves to 5, "feb" to 2 and "sat" to 6 |

## Left out

- `print_expansion` (cron.py:42-57): report formatting and printing; it is I/O.
- `_expand` (cron.py:59-81): it strips the line, splits it into six tokens and checks the token count. Only the five per-field configurations it passes are modelled, as the `CronFields` constants.
- `__init__` and `__repr__` (cron.py:32-40, 185-186): object plumbing with no logic.
- The regular-expression engine: the five patterns are written as hand-made recognisers over `Split`. Python's `\d` also matches non-ASCII decimal digits and `str.lower` folds non-ASCII letters; the model covers ASCII only.
- Literals.Resolve: `int` also accepts a sign, surrounding whitespace and underscores. No literal the grammar admits carries them, so the model reads only runs of ASCII digits.
- Literals.Resolve: CPython's `int` on a string of more than 4300 digits (leading zeros included) raises `ValueError` by default, since Python 3.11. The model reads digit runs of any length, so a single, range, step-start or list literal of more than 4300 digits (`"0"` repeated 4300 times then `"5"` in the hour field) expands here although the source raises at cron.py:183. The limit is an interpreter setting, not part of the expander's logic.
- Literals.ResolveNumeral: leading zeros are proved harmless for any count; in CPython they count towards the 4300-digit limit above.
- Expander.ExpandStep: the interval is read with the same unbounded `int`, so an interval of more than 4300 digits (`"*/"`, then 4300 zeros, then `"1"`, in the minute field) expands here although the source raises at cron.py:152.
- Expander.ExpandStep: the step branch's textual `field.replace('*', str(min_value))` is modelled as starting at `min_value` directly. `Literals.ResolveNumeralOf` justifies this for a non-negative minimum; every field's minimum is 0 or 1.
- Error messages: each `ValueError` is a tag of `Expander.Error` without its text.
