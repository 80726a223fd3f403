/** The field expander of cron.py (`_expand_cron_field`): lower-case the
    field, recognise which of the five syntaxes it is written in (first
    match wins: `*`, a literal, `lit-lit`, `(lit|*)/digits`, a comma list),
    produce the candidate values for that syntax, reject any value outside
    the field's bounds, and return the values sorted. */
module Expander {
  import opened Text
  import opened Sorting
  import opened Literals

  /** One tag per `ValueError` the expander raises. */
  datatype Error =
    | InvalidRange      // a range endpoint out of bounds, or a backward range where wrap-around is off
    | StartOutOfBounds  // the start of a step field is out of bounds
    | ZeroInterval      // a step of 0, which Python's `range` refuses
    | InvalidField      // no syntax matches
    | ValueOutOfRange   // a produced value lies outside the bounds

  datatype Result = Ok(values: seq<int>) | Err(error: Error)

  /** The arguments of `_expand_cron_field` besides the field text. */
  datatype FieldSpec = FieldSpec(
    minValue: int,
    maxValue: int,
    allowMonthAliases: bool,
    allowWeekdayAliases: bool,
    allowWrapAround: bool)
  {
    function Aliases(): AliasKind
    {
      AliasPolicy(allowMonthAliases, allowWeekdayAliases)
    }
  }

  /** The left-hand side of a step field: `*` or a literal. */
  datatype StepStart = FromMin | FromLiteral(token: string)

  /** The syntaxes a field can be written in, with the pieces of text each
      carries; `NoMatch` is a field none of them accepts. */
  datatype Shape =
    | Star
    | Single(token: string)
    | Range(first: string, last: string)
    | Step(start: StepStart, interval: string)
    | List(tokens: seq<string>)
    | NoMatch

  /** The pieces of a shape are what its syntax requires: literals of the
      active grammar, a digit run after `/`, and two or more list items. */
  predicate WellFormed(sh: Shape, kind: AliasKind)
  {
    match sh
    case Star => true
    case Single(t) => IsLiteral(t, kind)
    case Range(a, b) => IsLiteral(a, kind) && IsLiteral(b, kind)
    case Step(s, d) => (s.FromLiteral? ==> IsLiteral(s.token, kind)) && IsDigits(d)
    case List(ts) => |ts| >= 2 && forall i :: 0 <= i < |ts| ==> IsLiteral(ts[i], kind)
    case NoMatch => false
  }

  /** The field text a shape stands for. */
  function Render(sh: Shape): string
    requires sh != NoMatch
    requires sh.List? ==> |sh.tokens| > 0
  {
    match sh
    case Star => "*"
    case Single(t) => t
    case Range(a, b) => a + "-" + b
    case Step(s, d) => (if s.FromMin? then "*" else s.token) + "/" + d
    case List(ts) => Join(ts, ',')
  }

  /** The five `re.fullmatch` tests of `_expand_cron_field`, in their order.
      Whatever shape is found writes back as exactly the field. */
  function Classify(f: string, kind: AliasKind): (sh: Shape)
    ensures sh != NoMatch ==> WellFormed(sh, kind) && Render(sh) == f
  {
    if f == "*" then Star
    else if IsLiteral(f, kind) then Single(f)
    else
      var dash := Split(f, '-');
      if |dash| == 2 && IsLiteral(dash[0], kind) && IsLiteral(dash[1], kind) then
        assert Join(dash, '-') == dash[0] + "-" + dash[1];
        Range(dash[0], dash[1])
      else
        var slash := Split(f, '/');
        if |slash| == 2 && (slash[0] == "*" || IsLiteral(slash[0], kind)) && IsDigits(slash[1]) then
          assert Join(slash, '/') == slash[0] + ['/'] + slash[1];
          Step(if slash[0] == "*" then FromMin else FromLiteral(slash[0]), slash[1])
        else
          var comma := Split(f, ',');
          if |comma| >= 2 && forall i :: 0 <= i < |comma| ==> IsLiteral(comma[i], kind) then
            List(comma)
          else
            NoMatch
  }

  /** Every well-formed shape is recognised as itself: no earlier syntax in
      the priority order captures its text. */
  lemma ClassifyRender(sh: Shape, kind: AliasKind)
    requires WellFormed(sh, kind)
    ensures Classify(Render(sh), kind) == sh
  {
    match sh
    case Star =>
    case Single(t) =>
      LiteralShape(t, kind);
      assert t[0] != '*';
    case Range(a, b) => ClassifyRange(a, b, kind);
    case Step(s, d) => ClassifyStep(s, d, kind);
    case List(ts) => ClassifyList(ts, kind);
  }

  lemma ClassifyRange(a: string, b: string, kind: AliasKind)
    requires IsLiteral(a, kind) && IsLiteral(b, kind)
    ensures Classify(a + "-" + b, kind) == Range(a, b)
  {
    var f := a + "-" + b;
    LiteralShape(a, kind);
    LiteralShape(b, kind);
    assert f == a + ['-'] + b;
    assert f[|a|] == '-';
    NotLiteral(f, |a|, kind);
    SplitFirst(a, b, '-');
    SplitWhole(b, '-');
  }

  lemma ClassifyStep(s: StepStart, d: string, kind: AliasKind)
    requires WellFormed(Step(s, d), kind)
    ensures Classify(Render(Step(s, d)), kind) == Step(s, d)
  {
    var f := Render(Step(s, d));
    var left := if s.FromMin? then "*" else s.token;
    if s.FromLiteral? {
      LiteralShape(s.token, kind);
      assert s.token[0] != '*';
    }
    assert IsDigit(d[0]);
    assert '-' !in d && '/' !in d;
    assert f == left + ['/'] + d;
    assert f[|left|] == '/';
    NotLiteral(f, |left|, kind);
    assert '-' !in f by {
      JoinAvoids([left, d], '/', '-');
      assert Join([left, d], '/') == f;
    }
    SplitWhole(f, '-');
    SplitFirst(left, d, '/');
    SplitWhole(d, '/');
  }

  lemma ClassifyList(ts: seq<string>, kind: AliasKind)
    requires WellFormed(List(ts), kind)
    ensures Classify(Join(ts, ','), kind) == List(ts)
  {
    var f := Join(ts, ',');
    forall i | 0 <= i < |ts| ensures '-' !in ts[i] && '/' !in ts[i] && ',' !in ts[i] {
      LiteralShape(ts[i], kind);
    }
    JoinHasSeparator(ts, ',');
    var k :| 0 <= k < |f| && f[k] == ',';
    NotLiteral(f, k, kind);
    JoinAvoids(ts, ',', '-');
    JoinAvoids(ts, ',', '/');
    SplitWhole(f, '-');
    SplitWhole(f, '/');
    SplitJoin(ts, ',');
  }

  /** Text with a punctuation mark in it is neither `*` nor a literal. */
  lemma NotLiteral(f: string, k: nat, kind: AliasKind)
    requires k < |f| && (f[k] == '-' || f[k] == '/' || f[k] == ',')
    ensures f != "*" && !IsLiteral(f, kind)
  {
    if IsLiteral(f, kind) {
      LiteralShape(f, kind);
    }
  }

  /** `list(range(lo, hi + 1))`: every integer from `lo` to `hi`, ascending,
      without gaps or repeats; empty when `lo > hi`. */
  function Span(lo: int, hi: int): (r: seq<int>)
    ensures |r| == if lo <= hi then hi - lo + 1 else 0
    ensures forall i :: 0 <= i < |r| ==> r[i] == lo + i
    decreases hi - lo
  {
    if lo > hi then [] else [lo] + Span(lo + 1, hi)
  }

  lemma SpanAscending(lo: int, hi: int)
    ensures Ascending(Span(lo, hi))
  {
  }

  /** `list(range(start, stop, step))` for a positive step: it begins at
      `start` unless that is already past the end, each value is one step
      above the one before, all lie below `stop`, and one more step would
      reach `stop`. */
  function Stride(start: int, stop: int, step: int): (r: seq<int>)
    requires step > 0
    ensures |r| == 0 <==> stop <= start
    ensures |r| > 0 ==> r[0] == start && stop <= r[|r| - 1] + step
    ensures forall i :: 0 < i < |r| ==> r[i] == r[i - 1] + step
    ensures forall i :: 0 <= i < |r| ==> start <= r[i] < stop
    decreases stop - start
  {
    if start >= stop then [] else [start] + Stride(start + step, stop, step)
  }

  /** The `i`-th value of a stride is `start + i * step`. */
  lemma {:induction false} StrideAt(start: int, stop: int, step: int, i: nat)
    requires step > 0
    requires i < |Stride(start, stop, step)|
    ensures Stride(start, stop, step)[i] == start + i * step
  {
    var r := Stride(start, stop, step);
    if i > 0 {
      StrideAt(start, stop, step, i - 1);
      assert r[i] == r[i - 1] + step;
      assert (i - 1) * step + step == i * step;
    }
  }

  /** The stride holds as many values as fit: `start + |r| * step` is the
      first value past the end. */
  lemma StrideLength(start: int, stop: int, step: int)
    requires step > 0
    ensures stop <= start + |Stride(start, stop, step)| * step
  {
    var r := Stride(start, stop, step);
    if |r| > 0 {
      StrideAt(start, stop, step, |r| - 1);
    }
  }

  /** A value is produced by the stride exactly when it is reachable from
      `start` in whole steps and lies below `stop`. */
  lemma StrideMembers(start: int, stop: int, step: int, v: int)
    requires step > 0
    ensures v in Stride(start, stop, step) <==> start <= v < stop && (v - start) % step == 0
  {
    var r := Stride(start, stop, step);
    if v in r {
      var i :| 0 <= i < |r| && r[i] == v;
      StrideAt(start, stop, step, i);
      MultipleMod(i, step);
    }
    if start <= v < stop && (v - start) % step == 0 {
      StrideReaches(start, stop, step, v);
    }
  }

  lemma StrideReaches(start: int, stop: int, step: int, v: int)
    requires step > 0
    requires start <= v < stop && (v - start) % step == 0
    ensures v in Stride(start, stop, step)
  {
    var r := Stride(start, stop, step);
    var q := (v - start) / step;
    assert v - start == q * step;
    StrideLength(start, stop, step);
    if q < 0 {
      MulMonotone(q, -1, step);
    } else if q >= |r| {
      MulMonotone(|r|, q, step);
    } else {
      StrideAt(start, stop, step, q);
      assert r[q] == v;
    }
  }

  /** The stride ascends. */
  lemma {:induction false} StrideAscending(start: int, stop: int, step: int)
    requires step > 0
    ensures Ascending(Stride(start, stop, step))
    decreases stop - start
  {
    if start < stop {
      StrideAscending(start + step, stop, step);
    }
  }

  lemma MultipleMod(i: int, step: int)
    requires step > 0
    ensures (i * step) % step == 0
  {
    var q, r := (i * step) / step, (i * step) % step;
    assert i * step == q * step + r;
    var d := i - q;
    assert d * step == r by {
      assert d * step == i * step - q * step;
    }
    if d >= 1 {
      MulMonotone(1, d, step);
    } else if d <= -1 {
      MulMonotone(d, -1, step);
    }
  }

  /** Multiplying by a positive step keeps order; stated once so the
      nonlinear step is isolated from the proofs that use it. */
  lemma MulMonotone(a: int, b: int, step: int)
    requires a <= b && step > 0
    ensures a * step <= b * step
  {
  }

  /** Every value of `vs` lies in the closed interval `[lo, hi]`. */
  predicate InBounds(vs: seq<int>, lo: int, hi: int)
  {
    forall i :: 0 <= i < |vs| ==> lo <= vs[i] <= hi
  }

  /** The range branch: both endpoints must lie in bounds; a forward range
      is the interval between them; a backward one is allowed only when the
      field wraps around and then covers the bottom of the field up to
      `last` and `first` up to the top. */
  function RangeValues(first: int, last: int, spec: FieldSpec): (r: Result)
    ensures r.Ok? <==> spec.minValue <= first <= spec.maxValue && spec.minValue <= last <= spec.maxValue
                       && (first <= last || spec.allowWrapAround)
    ensures r.Err? ==> r.error == InvalidRange
    ensures r.Ok? ==> InBounds(r.values, spec.minValue, spec.maxValue)
  {
    var lo, hi := spec.minValue, spec.maxValue;
    if first < lo || first > hi || last < lo || last > hi then Err(InvalidRange)
    else if first > last then
      if !spec.allowWrapAround then Err(InvalidRange)
      else Ok(Span(lo, last) + Span(first, hi))
    else Ok(Span(first, last))
  }

  /** The step branch: the start must lie in bounds and the interval must be
      positive; the values run from the start up to the top of the field. */
  function StepValues(start: int, interval: nat, spec: FieldSpec): (r: Result)
    ensures r.Ok? <==> spec.minValue <= start <= spec.maxValue && interval > 0
    ensures r.Err? ==> r.error == (if spec.minValue <= start <= spec.maxValue then ZeroInterval else StartOutOfBounds)
    ensures r.Ok? ==> InBounds(r.values, spec.minValue, spec.maxValue)
  {
    if start < spec.minValue || start > spec.maxValue then Err(StartOutOfBounds)
    else if interval == 0 then Err(ZeroInterval)
    else Ok(Stride(start, spec.maxValue + 1, interval))
  }

  /** The values a recognised shape produces, before the final bounds check. */
  function Candidates(sh: Shape, spec: FieldSpec): (r: Result)
    requires sh != NoMatch ==> WellFormed(sh, spec.Aliases())
    ensures sh.Star? || sh.Single? || sh.List? ==> r.Ok?
    ensures sh.Single? ==> r.Ok? && |r.values| == 1
    ensures sh.List? ==> r.Ok? && |r.values| == |sh.tokens|
    ensures r.Err? && sh.Range? ==> r.error == InvalidRange
    ensures r.Err? && sh.Step? ==> r.error == StartOutOfBounds || r.error == ZeroInterval
    ensures r == Err(InvalidField) <==> sh.NoMatch?
  {
    var kind := spec.Aliases();
    match sh
    case Star => Ok(Span(spec.minValue, spec.maxValue))
    case Single(t) => Ok([LiteralValue(t, kind)])
    case Range(a, b) => RangeValues(LiteralValue(a, kind), LiteralValue(b, kind), spec)
    case Step(s, d) =>
      StepValues(if s.FromMin? then spec.minValue else LiteralValue(s.token, kind), DecimalValue(d), spec)
    case List(ts) => Ok(ResolveAll(ts, kind))
    case NoMatch => Err(InvalidField)
  }

  /** `_expand_cron_field`. A successful expansion is ascending and lies
      entirely within the field's bounds. */
  function ExpandField(field: string, spec: FieldSpec): (r: Result)
    ensures r.Ok? ==> Ascending(r.values) && InBounds(r.values, spec.minValue, spec.maxValue)
  {
    Finish(Candidates(Classify(LowerCase(field), spec.Aliases()), spec), spec)
  }

  /** The common tail of every branch: an error passes through; candidate
      values must all lie in bounds and are then returned sorted. */
  function Finish(c: Result, spec: FieldSpec): (r: Result)
    ensures r.Ok? ==> Ascending(r.values) && InBounds(r.values, spec.minValue, spec.maxValue)
    ensures r.Ok? <==> c.Ok? && InBounds(c.values, spec.minValue, spec.maxValue)
    ensures r.Ok? ==> multiset(r.values) == multiset(c.values)
    ensures r.Err? ==> r.error == if c.Err? then c.error else ValueOutOfRange
  {
    match c
    case Err(e) => Err(e)
    case Ok(vs) =>
      if InBounds(vs, spec.minValue, spec.maxValue) then
        SortInBounds(vs, spec.minValue, spec.maxValue);
        Ok(Sort(vs))
      else Err(ValueOutOfRange)
  }

  /** Candidates that are already ascending and in bounds come through the
      final check and the sort unchanged. */
  lemma FinishKeeps(c: Result, spec: FieldSpec)
    requires c.Ok? ==> Ascending(c.values) && InBounds(c.values, spec.minValue, spec.maxValue)
    ensures Finish(c, spec) == c
  {
    if c.Ok? {
      SortKeepsAscending(c.values);
    }
  }

  /** Sorting values within bounds keeps them within bounds. */
  lemma SortInBounds(vs: seq<int>, lo: int, hi: int)
    requires InBounds(vs, lo, hi)
    ensures InBounds(Sort(vs), lo, hi)
  {
    var r := Sort(vs);
    forall i | 0 <= i < |r| ensures lo <= r[i] <= hi {
      assert r[i] in multiset(vs);
      var j :| 0 <= j < |vs| && vs[j] == r[i];
    }
  }

  /** The text of a well-formed shape is already lower case, so lower-casing
      the field does not change how it is recognised. */
  lemma RenderIsLowerCase(sh: Shape, kind: AliasKind)
    requires WellFormed(sh, kind)
    ensures LowerCase(Render(sh)) == Render(sh)
  {
    match sh
    case Star =>
      LowerCaseKeeps("*");
    case Single(t) =>
      LiteralShape(t, kind);
      LowerCaseKeeps(t);
    case Range(a, b) =>
      LiteralShape(a, kind);
      LiteralShape(b, kind);
      NoUpperConcat(a + "-", b);
      LowerCaseKeeps(Render(sh));
    case Step(s, d) =>
      var left := if s.FromMin? then "*" else s.token;
      if s.FromLiteral? { LiteralShape(s.token, kind); }
      NoUpperConcat(left + "/", d);
      LowerCaseKeeps(Render(sh));
    case List(ts) =>
      forall i | 0 <= i < |ts| ensures NoUpper(ts[i]) {
        LiteralShape(ts[i], kind);
      }
      JoinNoUpper(ts, ',');
      LowerCaseKeeps(Render(sh));
  }

  /** Expanding a well-formed field is expanding its shape: recognise it,
      produce its candidates, check bounds, sort. */
  lemma ExpandShape(sh: Shape, spec: FieldSpec)
    requires WellFormed(sh, spec.Aliases())
    ensures ExpandField(Render(sh), spec) == Finish(Candidates(sh, spec), spec)
  {
    RenderIsLowerCase(sh, spec.Aliases());
    ClassifyRender(sh, spec.Aliases());
  }

  /** Lower-casing first makes the expansion blind to letter case. */
  lemma CaseInsensitive(field: string, spec: FieldSpec)
    ensures ExpandField(field, spec) == ExpandField(LowerCase(field), spec)
  {
    LowerCaseIdempotent(field);
  }

  /** `*` expands to every value of the field, in order. */
  lemma ExpandWildcard(spec: FieldSpec)
    ensures ExpandField("*", spec) == Ok(Span(spec.minValue, spec.maxValue))
  {
    ExpandShape(Star, spec);
    FinishKeeps(Ok(Span(spec.minValue, spec.maxValue)), spec);
  }

  /** A lone literal expands to its value, provided that value is in bounds. */
  lemma ExpandSingle(t: string, spec: FieldSpec)
    requires IsLiteral(t, spec.Aliases())
    ensures var v := LiteralValue(t, spec.Aliases());
      ExpandField(t, spec) == if spec.minValue <= v <= spec.maxValue then Ok([v]) else Err(ValueOutOfRange)
  {
    var v := LiteralValue(t, spec.Aliases());
    ExpandShape(Single(t), spec);
    if spec.minValue <= v <= spec.maxValue {
      FinishKeeps(Ok([v]), spec);
    }
  }

  /** The two halves of a wrap-around range are already in order, since the
      first ends at `last` and the second starts at `first > last`. */
  lemma WrapAroundAscending(lo: int, last: int, first: int, hi: int)
    requires last < first
    ensures Ascending(Span(lo, last) + Span(first, hi))
  {
    var a, b := Span(lo, last), Span(first, hi);
    var s := a + b;
    forall i, j | 0 <= i < j < |s| ensures s[i] <= s[j] {
      if j < |a| {
      } else if i < |a| {
        assert s[i] <= last < first <= s[j];
      } else {
        assert s[i] == b[i - |a|] && s[j] == b[j - |a|];
      }
    }
  }

  /** `a-b`: both endpoints must be in bounds; a forward range is the closed
      interval; a backward range is the bottom of the field up to `b`
      followed by `a` up to the top, when the field wraps around, and an
      error otherwise. */
  lemma ExpandRange(a: string, b: string, spec: FieldSpec)
    requires IsLiteral(a, spec.Aliases()) && IsLiteral(b, spec.Aliases())
    ensures
      var first, last := LiteralValue(a, spec.Aliases()), LiteralValue(b, spec.Aliases());
      var lo, hi := spec.minValue, spec.maxValue;
      ExpandField(a + "-" + b, spec) ==
        if !(lo <= first <= hi && lo <= last <= hi) then Err(InvalidRange)
        else if first <= last then Ok(Span(first, last))
        else if spec.allowWrapAround then Ok(Span(lo, last) + Span(first, hi))
        else Err(InvalidRange)
  {
    var kind := spec.Aliases();
    var first, last := LiteralValue(a, kind), LiteralValue(b, kind);
    ExpandShape(Range(a, b), spec);
    if last < first {
      WrapAroundAscending(spec.minValue, last, first, spec.maxValue);
    }
    FinishKeeps(RangeValues(first, last, spec), spec);
  }

  /** `s/n`, or a star before the slash to start at the bottom of the field: the start must
      be in bounds, then the interval must be positive, and the values are
      the start and every `n`-th value after it up to the top of the field. */
  lemma ExpandStep(s: StepStart, d: string, spec: FieldSpec)
    requires WellFormed(Step(s, d), spec.Aliases())
    ensures
      var start := if s.FromMin? then spec.minValue else LiteralValue(s.token, spec.Aliases());
      var n := DecimalValue(d);
      ExpandField(Render(Step(s, d)), spec) ==
        if !(spec.minValue <= start <= spec.maxValue) then Err(StartOutOfBounds)
        else if n == 0 then Err(ZeroInterval)
        else Ok(Stride(start, spec.maxValue + 1, n))
  {
    var start := if s.FromMin? then spec.minValue else LiteralValue(s.token, spec.Aliases());
    var n := DecimalValue(d);
    ExpandStepShape(s, d, spec);
    StepFinish(start, n, spec);
    StepValuesCases(start, n, spec);
  }

  /** The three outcomes of the step branch in one equation. Kept as a lemma
      of its own: proved apart, it is cheap; inlined into `ExpandStep`, the
      solver runs out of resources. */
  lemma StepValuesCases(start: int, n: nat, spec: FieldSpec)
    ensures StepValues(start, n, spec) ==
      if !(spec.minValue <= start <= spec.maxValue) then Err(StartOutOfBounds)
      else if n == 0 then Err(ZeroInterval)
      else Ok(Stride(start, spec.maxValue + 1, n))
  {
  }

  /** Step values pass the final check and the sort unchanged. */
  lemma StepFinish(start: int, n: nat, spec: FieldSpec)
    ensures Finish(StepValues(start, n, spec), spec) == StepValues(start, n, spec)
  {
    if spec.minValue <= start <= spec.maxValue && n > 0 {
      StrideAscending(start, spec.maxValue + 1, n);
    }
    FinishKeeps(StepValues(start, n, spec), spec);
  }

  lemma ExpandStepShape(s: StepStart, d: string, spec: FieldSpec)
    requires WellFormed(Step(s, d), spec.Aliases())
    ensures
      var start := if s.FromMin? then spec.minValue else LiteralValue(s.token, spec.Aliases());
      ExpandField(Render(Step(s, d)), spec) == Finish(StepValues(start, DecimalValue(d), spec), spec)
  {
    ExpandShape(Step(s, d), spec);
  }

  /** A comma list succeeds exactly when every item's value is in bounds, and
      then yields those values in ascending order, duplicates kept. */
  lemma ExpandList(ts: seq<string>, spec: FieldSpec)
    requires WellFormed(List(ts), spec.Aliases())
    ensures
      var vs := ResolveAll(ts, spec.Aliases());
      var r := ExpandField(Join(ts, ','), spec);
      && (r.Ok? <==> InBounds(vs, spec.minValue, spec.maxValue))
      && (r.Err? ==> r.error == ValueOutOfRange)
      && (r.Ok? ==> Ascending(r.values) && multiset(r.values) == multiset(vs))
  {
    ExpandShape(List(ts), spec);
  }

  /** A list written in ascending order, every value in bounds, expands to
      exactly its values in the order written. */
  lemma ExpandSortedList(ts: seq<string>, spec: FieldSpec, vs: seq<int>)
    requires WellFormed(List(ts), spec.Aliases())
    requires ResolveAll(ts, spec.Aliases()) == vs
    requires Ascending(vs) && InBounds(vs, spec.minValue, spec.maxValue)
    ensures ExpandField(Join(ts, ','), spec) == Ok(vs)
  {
    ExpandList(ts, spec);
    var r := ExpandField(Join(ts, ','), spec);
    AscendingUnique(r.values, vs);
  }

  /** A field that no syntax recognises is rejected. */
  lemma ExpandUnrecognised(f: string, spec: FieldSpec)
    requires NoUpper(f)
    requires Classify(f, spec.Aliases()) == NoMatch
    ensures ExpandField(f, spec) == Err(InvalidField)
  {
    LowerCaseKeeps(f);
  }

  /** A field that is neither `*` nor a literal and holds none of the marks
      `-`, `/`, `,` matches no syntax. */
  lemma ExpandUnpunctuated(f: string, spec: FieldSpec)
    requires NoUpper(f)
    requires f != "*" && !IsLiteral(f, spec.Aliases())
    requires '-' !in f && '/' !in f && ',' !in f
    ensures ExpandField(f, spec) == Err(InvalidField)
  {
    SplitWhole(f, '-');
    SplitWhole(f, '/');
    SplitWhole(f, ',');
    ExpandUnrecognised(f, spec);
  }

  /** A name from a table the field does not admit is rejected: month names
      only in a month-alias field, weekday names only in a weekday-alias
      field without the month flag. */
  lemma ExpandForeignAlias(t: string, spec: FieldSpec)
    requires (t in MONTH_ALIASES && !spec.Aliases().MonthNames?)
          || (t in WEEKDAY_ALIASES && !spec.Aliases().WeekdayNames?)
    ensures ExpandField(t, spec) == Err(InvalidField)
  {
    AliasNames(t);
    assert !IsAlias(t, spec.Aliases());
    NameShape(t, spec.Aliases());
    ExpandUnpunctuated(t, spec);
  }

  /** A three-letter name is not a numeral, not `*`, and holds no upper-case
      letter and no punctuation. */
  lemma NameShape(t: string, kind: AliasKind)
    requires IsName(t) && !IsAlias(t, kind)
    ensures NoUpper(t) && t != "*" && !IsLiteral(t, kind)
    ensures '-' !in t && '/' !in t && ',' !in t
  {
    assert !IsDigit(t[0]);
  }

  /** The pieces of `a-b/n` around each mark. */
  lemma RangeStepSplits(a: string, b: string, d: string, kind: AliasKind)
    requires IsLiteral(a, kind) && IsLiteral(b, kind) && IsDigits(d)
    ensures Split(a + "-" + b + "/" + d, '-') == [a, b + "/" + d]
    ensures Split(a + "-" + b + "/" + d, '/') == [a + "-" + b, d]
    ensures Split(a + "-" + b + "/" + d, ',') == [a + "-" + b + "/" + d]
    ensures NoUpper(a + "-" + b + "/" + d)
  {
    LiteralShape(a, kind);
    LiteralShape(b, kind);
    assert IsDigit(d[0]);
    assert '-' !in d && '/' !in d && ',' !in d && NoUpper(d);
    DashSplit(a, b, d);
    SlashSplit(a, b, d);
    CommaSplit(a, b, d);
  }

  lemma DashSplit(a: string, b: string, d: string)
    requires '-' !in a && '-' !in b && '-' !in d
    ensures Split(a + "-" + b + "/" + d, '-') == [a, b + "/" + d]
  {
    var rest := b + "/" + d;
    assert '-' !in rest;
    assert a + "-" + b + "/" + d == a + ['-'] + rest;
    SplitFirst(a, rest, '-');
    SplitWhole(rest, '-');
  }

  lemma SlashSplit(a: string, b: string, d: string)
    requires '/' !in a && '/' !in b && '/' !in d
    ensures Split(a + "-" + b + "/" + d, '/') == [a + "-" + b, d]
  {
    RangeAvoids(a, b, '/');
    var left := a + "-" + b;
    assert a + "-" + b + "/" + d == left + ['/'] + d;
    SplitFirst(left, d, '/');
    SplitWhole(d, '/');
  }

  lemma CommaSplit(a: string, b: string, d: string)
    requires ',' !in a && ',' !in b && ',' !in d
    requires NoUpper(a) && NoUpper(b) && NoUpper(d)
    ensures Split(a + "-" + b + "/" + d, ',') == [a + "-" + b + "/" + d]
    ensures NoUpper(a + "-" + b + "/" + d)
  {
    RangeStepAvoids(a, b, d, ',');
    SplitWhole(a + "-" + b + "/" + d, ',');
    RangeStepNoUpper(a, b, d);
  }

  lemma RangeAvoids(a: string, b: string, c: char)
    requires c !in a && c !in b && c != '-'
    ensures c !in a + "-" + b
  {
    AvoidsConcat(a, "-", c);
    AvoidsConcat(a + "-", b, c);
  }

  lemma RangeStepAvoids(a: string, b: string, d: string, c: char)
    requires c !in a && c !in b && c !in d && c != '-' && c != '/'
    ensures c !in a + "-" + b + "/" + d
  {
    AvoidsConcat(a, "-", c);
    AvoidsConcat(a + "-", b, c);
    AvoidsConcat(a + "-" + b, "/", c);
    AvoidsConcat(a + "-" + b + "/", d, c);
  }

  lemma RangeStepNoUpper(a: string, b: string, d: string)
    requires NoUpper(a) && NoUpper(b) && NoUpper(d)
    ensures NoUpper(a + "-" + b + "/" + d)
  {
    NoUpperConcat(a, "-");
    NoUpperConcat(a + "-", b);
    NoUpperConcat(a + "-" + b, "/");
    NoUpperConcat(a + "-" + b + "/", d);
  }

  /** A range followed by a step, `a-b/n`, is not part of the syntax. */
  lemma ExpandRangeWithStep(a: string, b: string, d: string, spec: FieldSpec)
    requires IsLiteral(a, spec.Aliases()) && IsLiteral(b, spec.Aliases()) && IsDigits(d)
    ensures ExpandField(a + "-" + b + "/" + d, spec) == Err(InvalidField)
  {
    var kind := spec.Aliases();
    var f := a + "-" + b + "/" + d;
    RangeStepSplits(a, b, d, kind);
    NotLiteral(f, |a|, kind);
    NotLiteral(b + "/" + d, |b|, kind);
    NotLiteral(a + "-" + b, |a|, kind);
    assert Classify(f, kind) == NoMatch;
    ExpandUnrecognised(f, spec);
  }
}
