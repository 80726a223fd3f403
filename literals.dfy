/** The literal resolver of cron.py: the two alias tables, the literal
    grammar a field admits, and the conversion of a literal token to the
    integer it stands for. */
module Literals {
  import opened Text

  datatype Option<T> = None | Some(value: T)

  /** Three-letter month names and their month numbers (cron.py:7-20). */
  const MONTH_ALIASES: map<string, int> := map[
    "jan" := 1, "feb" := 2, "mar" := 3, "apr" := 4, "may" := 5, "jun" := 6,
    "jul" := 7, "aug" := 8, "sep" := 9, "oct" := 10, "nov" := 11, "dec" := 12]

  /** Three-letter weekday names and their day numbers, Sunday first (cron.py:22-30). */
  const WEEKDAY_ALIASES: map<string, int> := map[
    "sun" := 0, "mon" := 1, "tue" := 2, "wed" := 3, "thu" := 4, "fri" := 5, "sat" := 6]

  /** Which alias table, if any, a field admits besides plain numerals. */
  datatype AliasKind = NoAliases | MonthNames | WeekdayNames

  /** The month flag wins over the weekday flag: the two tables are never
      active in the same field. */
  function AliasPolicy(allowMonth: bool, allowWeekday: bool): (k: AliasKind)
    ensures k.MonthNames? <==> allowMonth
    ensures k.WeekdayNames? <==> !allowMonth && allowWeekday
    ensures k.NoAliases? <==> !allowMonth && !allowWeekday
  {
    if allowMonth then MonthNames else if allowWeekday then WeekdayNames else NoAliases
  }

  predicate IsAlias(t: string, kind: AliasKind)
  {
    match kind
    case NoAliases => false
    case MonthNames => t in MONTH_ALIASES
    case WeekdayNames => t in WEEKDAY_ALIASES
  }

  /** The literal alternative of the field grammar: `\d+`, or one of the
      names of the active alias table. */
  predicate IsLiteral(t: string, kind: AliasKind): (b: bool)
    ensures b ==> Resolve(t).Some?
    ensures b && kind.NoAliases? ==> IsDigits(t)
  {
    IsDigits(t) || IsAlias(t, kind)
  }

  predicate IsLowerLetter(c: char) { 'a' <= c <= 'z' }

  /** The characters a literal can be made of. */
  predicate LiteralChars(t: string)
  {
    |t| > 0 && forall i :: 0 <= i < |t| ==> IsDigit(t[i]) || IsLowerLetter(t[i])
  }

  /** A table name is three lower-case letters. */
  predicate IsName(t: string)
  {
    |t| == 3 && IsLowerLetter(t[0]) && IsLowerLetter(t[1]) && IsLowerLetter(t[2])
  }

  /** Both tables are keyed by three-letter lower-case names and share no key. */
  lemma AliasNames(t: string)
    requires t in MONTH_ALIASES || t in WEEKDAY_ALIASES
    ensures IsName(t)
    ensures !(t in MONTH_ALIASES && t in WEEKDAY_ALIASES)
  {
  }

  /** No numeral is a name. */
  lemma NumeralIsNoName(t: string)
    requires IsDigits(t)
    ensures t !in MONTH_ALIASES && t !in WEEKDAY_ALIASES
  {
    assert IsDigit(t[0]);
  }

  /** The month table maps onto exactly the month numbers 1..12. */
  lemma MonthAliasesDense()
    ensures forall t :: t in MONTH_ALIASES ==> 1 <= MONTH_ALIASES[t] <= 12
    ensures forall v :: 1 <= v <= 12 ==> v in MONTH_ALIASES.Values
  {
    assert MONTH_ALIASES["jan"] == 1 && MONTH_ALIASES["feb"] == 2 && MONTH_ALIASES["mar"] == 3;
    assert MONTH_ALIASES["apr"] == 4 && MONTH_ALIASES["may"] == 5 && MONTH_ALIASES["jun"] == 6;
    assert MONTH_ALIASES["jul"] == 7 && MONTH_ALIASES["aug"] == 8 && MONTH_ALIASES["sep"] == 9;
    assert MONTH_ALIASES["oct"] == 10 && MONTH_ALIASES["nov"] == 11 && MONTH_ALIASES["dec"] == 12;
  }

  /** The weekday table maps onto exactly the day numbers 0..6, from Sunday
      as 0 to Saturday as 6. */
  lemma WeekdayAliasesDense()
    ensures forall t :: t in WEEKDAY_ALIASES ==> 0 <= WEEKDAY_ALIASES[t] <= 6
    ensures forall v :: 0 <= v <= 6 ==> v in WEEKDAY_ALIASES.Values
    ensures WEEKDAY_ALIASES["sun"] == 0 && WEEKDAY_ALIASES["sat"] == 6
  {
    assert WEEKDAY_ALIASES["sun"] == 0 && WEEKDAY_ALIASES["mon"] == 1 && WEEKDAY_ALIASES["tue"] == 2;
    assert WEEKDAY_ALIASES["wed"] == 3 && WEEKDAY_ALIASES["thu"] == 4 && WEEKDAY_ALIASES["fri"] == 5;
    assert WEEKDAY_ALIASES["sat"] == 6;
  }

  /** A literal is a non-empty run of digits and lower-case letters; in
      particular it holds none of `*`, `-`, `/`, `,` and no upper-case letter. */
  lemma LiteralShape(t: string, kind: AliasKind)
    requires IsLiteral(t, kind)
    ensures LiteralChars(t)
    ensures NoUpper(t)
    ensures '*' !in t && '-' !in t && '/' !in t && ',' !in t
  {
    if !IsDigits(t) {
      AliasNames(t);
      NameChars(t);
    }
  }

  lemma NameChars(t: string)
    requires IsName(t)
    ensures LiteralChars(t) && NoUpper(t)
    ensures '*' !in t && '-' !in t && '/' !in t && ',' !in t
  {
  }

  /** `_convert_literal_to_integer`: a month name, else a weekday name, else
      a decimal numeral. Both tables are consulted whatever the field; the
      field's grammar decides which names reach this function. */
  function Resolve(token: string): (r: Option<int>)
    ensures r.Some? <==> token in MONTH_ALIASES || token in WEEKDAY_ALIASES || IsDigits(token)
  {
    if token in MONTH_ALIASES then Some(MONTH_ALIASES[token])
    else if token in WEEKDAY_ALIASES then Some(WEEKDAY_ALIASES[token])
    else if IsDigits(token) then Some(DecimalValue(token))
    else None
  }

  /** A numeral resolves to its decimal value, with any number of leading
      zeros ("005" is 5), and never to a name's value. */
  lemma ResolveNumeral(k: nat, digits: string)
    requires IsDigits(digits)
    ensures IsDigits(Zeros(k) + digits)
    ensures Resolve(Zeros(k) + digits) == Some(DecimalValue(digits))
  {
    DecimalLeadingZeros(k, digits);
    var t := Zeros(k) + digits;
    assert t[|t| - 1] == digits[|digits| - 1];
    NumeralIsNoName(t);
  }

  /** `int(str(n))` is `n`: the numeral written for a natural number resolves
      back to it. This is what makes substituting `str(min_value)` for `*` in
      a step field the same as starting at `min_value`. */
  lemma ResolveNumeralOf(n: nat)
    ensures Resolve(Numeral(n)) == Some(n)
  {
    ResolveNumeral(0, Numeral(n));
    assert Zeros(0) + Numeral(n) == Numeral(n);
  }

  /** Every literal of a field's grammar resolves; a name resolves to its
      table entry, which lies in 1..12 for months and 0..6 for weekdays. */
  function LiteralValue(t: string, kind: AliasKind): (v: int)
    requires IsLiteral(t, kind)
    ensures Resolve(t) == Some(v)
    ensures IsDigits(t) ==> v == DecimalValue(t)
    ensures kind.MonthNames? && IsAlias(t, kind) ==> v == MONTH_ALIASES[t] && 1 <= v <= 12
    ensures kind.WeekdayNames? && IsAlias(t, kind) ==> v == WEEKDAY_ALIASES[t] && 0 <= v <= 6
  {
    if IsDigits(t) then ResolveNumeral(0, t); assert Zeros(0) + t == t; Resolve(t).value
    else if kind.MonthNames? then MonthAliasesDense(); Resolve(t).value
    else WeekdayAliasesDense(); AliasNames(t); Resolve(t).value
  }

  /** The values of a run of literals, one per token, in written order. */
  function ResolveAll(tokens: seq<string>, kind: AliasKind): (vs: seq<int>)
    requires forall i :: 0 <= i < |tokens| ==> IsLiteral(tokens[i], kind)
    ensures |vs| == |tokens|
    ensures forall i :: 0 <= i < |tokens| ==> Resolve(tokens[i]) == Some(vs[i])
  {
    if tokens == [] then [] else [LiteralValue(tokens[0], kind)] + ResolveAll(tokens[1..], kind)
  }
}
