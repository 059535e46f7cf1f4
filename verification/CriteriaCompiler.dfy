/**
  The smart-playlist compiler: a criteria tree becomes one SQL condition, with the
  index-friendly NULL rewrite of annotation comparisons and the EXISTS batching.
  `Mode` switches either rewrite off, which gives the plain translation to compare with.
 */
module CriteriaCompiler {
  import opened Prelude
  import opened SqlCondition
  import opened ConditionMerging

  /** A criteria field after lookup.  `fallback` is the COALESCE default of an annotation column. */
  datatype Field =
    | UnknownField
    | Json(json: JsonField)
    | Column(expr: string, fallback: Option<Literal>, nullable: bool, empties: seq<string>)

  datatype Comparison = Is | IsNot | GreaterThan | LessThan | Before | After {
    function Op(): Comparator {
      match this
      case Is => Comparator.Eq
      case IsNot => Comparator.Ne
      case GreaterThan | After => Comparator.Gt
      case LessThan | Before => Comparator.Lt
    }
  }

  datatype TextMatch = Contains | NotContains | StartsWith | EndsWith {
    function Pattern(text: string): string {
      match this
      case Contains | NotContains => "%" + text + "%"
      case StartsWith => text + "%"
      case EndsWith => "%" + text
    }
  }

  datatype Expr =
    | All(children: seq<Expr>)
    | Any(children: seq<Expr>)
    | Comparing(kind: Comparison, field: Field, v: Value)
    | Matching(how: TextMatch, field: Field, text: string)
    | InTheRange(field: Field, v: Value)
    | InTheLast(field: Field, firstDate: Option<real>, negate: bool)
    | InPlaylist(id: Option<string>, negate: bool)
    | Missing(field: Field, v: Value, checkAbsence: bool)

  datatype Error = InvalidField | JsonFieldNotAllowed | InvalidValue | NoPlaylistId

  datatype Mode = Mode(bare: bool, merge: bool)

  const SHIPPED := Mode(true, true)
  const PLAIN := Mode(false, false)

  // ---------------------------------------------------------------- annotation columns

  function ToFloat(v: Value): Option<real> {
    if v.One? && v.lit.Number? then Some(v.lit.n) else None
  }

  function ToBool(v: Value): Option<bool> {
    if v.Many? then None
    else
      match v.lit
      case Flag(b) => Some(b)
      case Number(n) => if n == 1.0 then Some(true) else if n == 0.0 then Some(false) else None
  }

  /** None keeps COALESCE; Some(w) allows the bare column, with OR IS NULL exactly when w. */
  function BareNullInclusion(fallback: Literal, op: Comparator, v: Value): Option<bool> {
    match fallback
    case Flag(b) =>
      if op.Ordering() || ToBool(v).None? then None
      else Some(op.Satisfy(fallback.AsReal(), Flag(ToBool(v).value).AsReal()))
    case Number(d) =>
      if ToFloat(v).None? then None else Some(op.Satisfy(d, ToFloat(v).value))
  }

  function AnnotationCond(col: string, fallback: Literal, op: Comparator, v: Value, bare: bool): Cond {
    var inclusion := BareNullInclusion(fallback, op, v);
    if !bare || inclusion.None? then Compare(col, Some(fallback), op, v)
    else
      var base := Compare(col, None, op, v);
      if inclusion.value then Or([base, IsNull(col, false)]) else base
  }

  // ---------------------------------------------------------------- leaves

  /** List values are accepted by = and <> only; the builder rejects them elsewhere. */
  function ComparisonCond(f: Field, op: Comparator, v: Value, bare: bool): Result<Cond, Error> {
    if f.UnknownField? || (f.Column? && f.fallback.None? && f.expr == "") then Err(InvalidField)
    else if op.Ordering() && v.Many? then Err(InvalidValue)
    else
      match f
      case Json(j) => Ok(Exists(j, Some(InnerCompare(op, v)), false))
      case Column(expr, fallback, _, _) =>
        if fallback.Some? then Ok(AnnotationCond(expr, fallback.value, op, v, bare)) else Ok(Compare(expr, None, op, v))
  }

  function LikeCond(f: Field, pattern: string, negate: bool): Result<Cond, Error> {
    match f
    case UnknownField => Err(InvalidField)
    case Json(j) => Ok(Exists(j, Some(InnerLike(pattern)), negate))
    case Column(expr, fallback, _, _) =>
      if expr == "" && fallback.None? then Err(InvalidField) else Ok(Like(expr, fallback, pattern, negate))
  }

  function RangeCond(f: Field, v: Value, bare: bool): Result<Cond, Error> {
    if f.UnknownField? then Err(InvalidField)
    else if f.Json? then Err(JsonFieldNotAllowed)
    else if v.One? || |v.lits| != 2 then Err(InvalidValue)
    else
      var low := ComparisonCond(f, Comparator.Ge, One(v.lits[0]), bare);
      var high := ComparisonCond(f, Comparator.Le, One(v.lits[1]), bare);
      if low.Err? then low else if high.Err? then high else Ok(And([low.value, high.value]))
  }

  function PeriodCond(f: Field, firstDate: Option<real>, negate: bool): Result<Cond, Error> {
    match f
    case UnknownField => Err(InvalidField)
    case Json(_) => Err(JsonFieldNotAllowed)
    case Column(expr, _, _, _) =>
      if expr == "" then Err(InvalidField)
      else if firstDate.None? then Err(InvalidValue)
      else if negate then
        Ok(Or([Compare(expr, None, Comparator.Lt, One(Number(firstDate.value))), IsNull(expr, false)]))
      else Ok(Compare(expr, None, Comparator.Gt, One(Number(firstDate.value))))
  }

  function TextConds(col: string, empties: seq<string>, negate: bool): seq<Cond> {
    seq(|empties|, i requires 0 <= i < |empties| => TextEquals(col, empties[i], negate))
  }

  function MissingCond(f: Field, v: Value, checkAbsence: bool): Result<Cond, Error> {
    if f.UnknownField? then Err(InvalidField)
    else if v.Many? || v.lit.Number? then Err(InvalidValue)
    else
      var absent := checkAbsence == v.lit.b;
      match f
      case Json(j) => Ok(Exists(j, None, absent))
      case Column(expr, _, nullable, empties) =>
        if !nullable || expr == "" then Err(InvalidField)
        else if absent then Ok(Or([IsNull(expr, false)] + TextConds(expr, empties, false)))
        else Ok(And([IsNull(expr, true)] + TextConds(expr, empties, true)))
  }

  // ---------------------------------------------------------------- the tree

  function Compile(e: Expr, mode: Mode): Result<Cond, Error>
    decreases e, 0
  {
    match e
    case All(children) =>
      var cs := CompileAll(children, mode);
      if cs.Err? then Err(cs.error) else Ok(And(if mode.merge then Merged(cs.value, true) else cs.value))
    case Any(children) =>
      var cs := CompileAll(children, mode);
      if cs.Err? then Err(cs.error) else Ok(Or(if mode.merge then Merged(cs.value, false) else cs.value))
    case Comparing(kind, f, v) =>
      if kind.IsNot? && f.Json? then Ok(Exists(f.json, Some(InnerCompare(Comparator.Eq, v)), true))
      else ComparisonCond(f, kind.Op(), v, mode.bare)
    case Matching(how, f, text) => LikeCond(f, how.Pattern(text), how.NotContains?)
    case InTheRange(f, v) => RangeCond(f, v, mode.bare)
    case InTheLast(f, firstDate, negate) => PeriodCond(f, firstDate, negate)
    case InPlaylist(id, negate) => if id.None? then Err(NoPlaylistId) else Ok(InList(id.value, negate))
    case Missing(f, v, checkAbsence) => MissingCond(f, v, checkAbsence)
  }

  function CompileAll(es: seq<Expr>, mode: Mode): (r: Result<seq<Cond>, Error>)
    ensures r.Ok? ==> |r.value| == |es|
    decreases es, 1
  {
    if es == [] then Ok([])
    else
      var first := Compile(es[0], mode);
      if first.Err? then Err(first.error)
      else
        var rest := CompileAll(es[1..], mode);
        if rest.Err? then rest else Ok([first.value] + rest.value)
  }

  /** Where(): no expression selects everything. */
  function Where(e: Option<Expr>, mode: Mode): Result<Cond, Error> {
    if e.None? then Ok(And([])) else Compile(e.value, mode)
  }

  // ---------------------------------------------------------------- what a tree means

  /** A comparison over an optional number, in ordinary two-valued terms. */
  predicate Holds(op: Comparator, x: Option<real>, v: Value) {
    match v
    case One(lit) => x.Some? && op.Satisfy(x.value, lit.AsReal())
    case Many(lits) =>
      if lits == [] then op != Comparator.Eq
      else x.Some? && ((op == Comparator.Eq) == exists l :: l in lits && l.AsReal() == x.value)
  }

  /** The comparison a user wrote: a row without annotation counts as the column's default. */
  predicate ComparisonHolds(f: Field, op: Comparator, v: Value, row: Row) {
    match f
    case UnknownField => false
    case Json(j) => Matched(row, j, InnerCompare(op, v))
    case Column(expr, fallback, _, _) => Holds(op, Operand(row, expr, fallback), v)
  }

  predicate Meaning(e: Expr, row: Row) {
    match e
    case All(children) => forall i :: 0 <= i < |children| ==> Meaning(children[i], row)
    case Any(children) => exists i :: 0 <= i < |children| && Meaning(children[i], row)
    case Comparing(kind, f, v) =>
      if kind.IsNot? && f.Json? then !Matched(row, f.json, InnerCompare(Comparator.Eq, v))
      else ComparisonHolds(f, kind.Op(), v, row)
    case Matching(how, f, text) => TextHolds(f, how.Pattern(text), how.NotContains?, row)
    case InTheRange(f, v) =>
      v.Many? && |v.lits| == 2 &&
      ComparisonHolds(f, Comparator.Ge, One(v.lits[0]), row) &&
      ComparisonHolds(f, Comparator.Le, One(v.lits[1]), row)
    case InTheLast(f, firstDate, negate) =>
      f.Column? && firstDate.Some? &&
      var x := row.col(f.expr);
      if negate then x.None? || x.value < firstDate.value else x.Some? && x.value > firstDate.value
    case InPlaylist(id, negate) => id.Some? && row.listed(id.value) != negate
    case Missing(f, v, checkAbsence) =>
      v.One? && v.lit.Flag? && Absent(f, row) == (checkAbsence == v.lit.b)
  }

  predicate TextHolds(f: Field, pattern: string, negate: bool, row: Row) {
    match f
    case UnknownField => false
    case Json(j) => Matched(row, j, InnerLike(pattern)) != negate
    case Column(expr, fallback, _, _) =>
      var x := Operand(row, expr, fallback);
      x.Some? && row.like(x.value, pattern) != negate
  }

  predicate Absent(f: Field, row: Row) {
    match f
    case UnknownField => false
    case Json(j) => row.values(j) == []
    case Column(expr, _, _, empties) =>
      row.col(expr).None? || exists i :: 0 <= i < |empties| && row.textEquals(row.col(expr).value, empties[i])
  }

  // ---------------------------------------------------------------- leaves are right

  lemma CompareValueIs(op: Comparator, x: Option<real>, v: Value)
    ensures CompareValue(op, x, v) == Yes <==> Holds(op, x, v)
  {
  }

  /** The values of the two-element groups that leaves emit. */
  lemma PairValues(a: Cond, b: Cond, row: Row)
    ensures Eval(Or([a, b]), row) == Or3(Eval(a, row), Eval(b, row))
    ensures Eval(And([a, b]), row) == And3(Eval(a, row), Eval(b, row))
  {
    PairOr(a, b, row);
    EvalOfOr([a, b], row);
    PairAnd(a, b, row);
    EvalOfAnd([a, b], row);
  }

  /** `a` may be Unknown where `b` is No; otherwise they agree, so they select the same rows. */
  predicate Below(a: Truth, b: Truth) {
    a == b || (a == Unknown && b == No)
  }

  /** The bare form agrees with COALESCE on TRUE and can only turn FALSE into NULL. */
  lemma AnnotationBelow(col: string, fallback: Literal, op: Comparator, v: Value, row: Row)
    ensures Below(Eval(AnnotationCond(col, fallback, op, v, true), row),
                  Eval(AnnotationCond(col, fallback, op, v, false), row))
    ensures row.col(col).Some? ==> Eval(AnnotationCond(col, fallback, op, v, true), row) ==
                                   Eval(AnnotationCond(col, fallback, op, v, false), row)
  {
    PairValues(Compare(col, None, op, v), IsNull(col, false), row);
  }

  lemma ComparisonCondIs(f: Field, op: Comparator, v: Value, bare: bool, row: Row)
    ensures ComparisonCond(f, op, v, bare).Ok? ==>
              (Eval(ComparisonCond(f, op, v, bare).value, row) == Yes <==> ComparisonHolds(f, op, v, row))
  {
    if f.Column? {
      CompareValueIs(op, Operand(row, f.expr, f.fallback), v);
      if f.fallback.Some? {
        AnnotationBelow(f.expr, f.fallback.value, op, v, row);
      }
    }
  }

  lemma TextCondValue(col: string, empties: seq<string>, negate: bool, row: Row, i: nat)
    requires i < |empties|
    ensures Eval(TextConds(col, empties, negate)[i], row) ==
            if row.col(col).None? then Unknown
            else OfBool(row.textEquals(row.col(col).value, empties[i]) != negate)
  {
  }

  lemma AbsentOr(col: string, empties: seq<string>, row: Row)
    ensures Eval(Or([IsNull(col, false)] + TextConds(col, empties, false)), row) == Yes <==>
            row.col(col).None? || exists i :: 0 <= i < |empties| && row.textEquals(row.col(col).value, empties[i])
  {
    var head, texts := [IsNull(col, false)], TextConds(col, empties, false);
    EvalOrIs(head + texts, row);
    HasConcat(head, texts, row, Yes);
    assert head[0] in head;
    forall i: nat | i < |empties| ensures texts[i] in texts && Eval(texts[i], row) ==
                                     if row.col(col).None? then Unknown
                                     else OfBool(row.textEquals(row.col(col).value, empties[i]))
    {
      TextCondValue(col, empties, false, row, i);
    }
  }

  lemma PresentAnd(col: string, empties: seq<string>, row: Row)
    ensures Eval(And([IsNull(col, true)] + TextConds(col, empties, true)), row) == Yes <==>
            row.col(col).Some? && forall i :: 0 <= i < |empties| ==> !row.textEquals(row.col(col).value, empties[i])
  {
    var head, texts := [IsNull(col, true)], TextConds(col, empties, true);
    EvalAndIs(head + texts, row);
    HasConcat(head, texts, row, No);
    HasConcat(head, texts, row, Unknown);
    assert head[0] in head;
    forall i: nat | i < |empties| ensures texts[i] in texts && Eval(texts[i], row) ==
                                     if row.col(col).None? then Unknown
                                     else OfBool(!row.textEquals(row.col(col).value, empties[i]))
    {
      TextCondValue(col, empties, true, row, i);
    }
  }

  lemma MissingCondIs(f: Field, v: Value, checkAbsence: bool, row: Row)
    ensures MissingCond(f, v, checkAbsence).Ok? ==>
              (Eval(MissingCond(f, v, checkAbsence).value, row) == Yes <==>
               Meaning(Missing(f, v, checkAbsence), row))
  {
    if MissingCond(f, v, checkAbsence).Ok? && f.Column? {
      AbsentOr(f.expr, f.empties, row);
      PresentAnd(f.expr, f.empties, row);
    }
  }

  lemma PeriodCondIs(f: Field, firstDate: Option<real>, negate: bool, row: Row)
    ensures PeriodCond(f, firstDate, negate).Ok? ==>
              (Eval(PeriodCond(f, firstDate, negate).value, row) == Yes <==>
               Meaning(InTheLast(f, firstDate, negate), row))
  {
    if PeriodCond(f, firstDate, negate).Ok? {
      PairValues(Compare(f.expr, None, Comparator.Lt, One(Number(firstDate.value))), IsNull(f.expr, false), row);
    }
  }

  lemma RangeCondIs(f: Field, v: Value, bare: bool, row: Row)
    ensures RangeCond(f, v, bare).Ok? ==>
              (Eval(RangeCond(f, v, bare).value, row) == Yes <==> Meaning(InTheRange(f, v), row))
  {
    if RangeCond(f, v, bare).Ok? {
      ComparisonCondIs(f, Comparator.Ge, One(v.lits[0]), bare, row);
      ComparisonCondIs(f, Comparator.Le, One(v.lits[1]), bare, row);
      PairValues(ComparisonCond(f, Comparator.Ge, One(v.lits[0]), bare).value,
                 ComparisonCond(f, Comparator.Le, One(v.lits[1]), bare).value, row);
    }
  }

  // ---------------------------------------------------------------- the tree is right

  /**
    Compiler correctness: whichever rewrites are on, a row is selected exactly when it
    satisfies the criteria tree as written.
   */
  lemma {:induction false} CompileIsRight(e: Expr, mode: Mode, row: Row)
    ensures Compile(e, mode).Ok? ==> (Eval(Compile(e, mode).value, row) == Yes <==> Meaning(e, row))
    decreases e, 0
  {
    if Compile(e, mode).Ok? {
      match e
      case All(children) =>
        var cs := CompileAll(children, mode).value;
        CompileAllIsRight(children, mode, row);
        MergeKeepsAnd(cs, row);
        AllYes(cs, row);
      case Any(children) =>
        var cs := CompileAll(children, mode).value;
        CompileAllIsRight(children, mode, row);
        MergeKeepsOr(cs, row);
        SomeYes(cs, row);
      case Comparing(kind, f, v) => ComparisonCondIs(f, kind.Op(), v, mode.bare, row);
      case InTheRange(f, v) => RangeCondIs(f, v, mode.bare, row);
      case InTheLast(f, firstDate, negate) => PeriodCondIs(f, firstDate, negate, row);
      case Missing(f, v, checkAbsence) => MissingCondIs(f, v, checkAbsence, row);
      case Matching(_, _, _) =>
      case InPlaylist(_, _) =>
    }
  }

  lemma {:induction false} CompileAllIsRight(es: seq<Expr>, mode: Mode, row: Row)
    ensures CompileAll(es, mode).Ok? ==>
              forall i :: 0 <= i < |es| ==> (Eval(CompileAll(es, mode).value[i], row) == Yes <==> Meaning(es[i], row))
    decreases es, 1
  {
    if es != [] && CompileAll(es, mode).Ok? {
      CompileIsRight(es[0], mode, row);
      CompileAllIsRight(es[1..], mode, row);
    }
  }

  lemma AllYes(cs: seq<Cond>, row: Row)
    ensures Eval(And(cs), row) == Yes <==> forall i :: 0 <= i < |cs| ==> Eval(cs[i], row) == Yes
  {
    EvalAndIs(cs, row);
    assert forall i :: 0 <= i < |cs| ==> cs[i] in cs;
  }

  lemma SomeYes(cs: seq<Cond>, row: Row)
    ensures Eval(Or(cs), row) == Yes <==> exists i :: 0 <= i < |cs| && Eval(cs[i], row) == Yes
  {
    EvalOrIs(cs, row);
    assert forall i :: 0 <= i < |cs| ==> cs[i] in cs;
  }

  /** The rewrites never decide whether a tree compiles. */
  lemma {:induction false} CompileSucceedsAlike(e: Expr, mode: Mode)
    ensures Compile(e, mode).Ok? <==> Compile(e, PLAIN).Ok?
    ensures Compile(e, mode).Err? ==> Compile(e, mode) == Compile(e, PLAIN)
    decreases e, 0
  {
    if e.All? || e.Any? {
      CompileAllSucceedsAlike(e.children, mode);
    }
  }

  lemma {:induction false} CompileAllSucceedsAlike(es: seq<Expr>, mode: Mode)
    ensures CompileAll(es, mode).Ok? <==> CompileAll(es, PLAIN).Ok?
    ensures CompileAll(es, mode).Err? ==> CompileAll(es, mode) == CompileAll(es, PLAIN)
    decreases es, 1
  {
    if es != [] {
      CompileSucceedsAlike(es[0], mode);
      CompileAllSucceedsAlike(es[1..], mode);
    }
  }

  /** What ships selects the same rows as the COALESCE-everywhere, unmerged translation. */
  lemma ShippedSelectsSameRows(e: Option<Expr>, row: Row)
    ensures Where(e, SHIPPED).Ok? <==> Where(e, PLAIN).Ok?
    ensures Where(e, PLAIN).Ok? ==>
              (Eval(Where(e, SHIPPED).value, row) == Yes <==> Eval(Where(e, PLAIN).value, row) == Yes)
  {
    if e.Some? {
      CompileSucceedsAlike(e.value, SHIPPED);
      CompileIsRight(e.value, SHIPPED, row);
      CompileIsRight(e.value, PLAIN, row);
    }
  }

  // ---------------------------------------------------------------- three-valued comparison

  lemma {:induction false} SeqBelow(a: seq<Cond>, b: seq<Cond>, row: Row)
    requires |a| == |b| && forall i :: 0 <= i < |a| ==> Below(Eval(a[i], row), Eval(b[i], row))
    ensures Below(EvalAnd(a, row), EvalAnd(b, row))
    ensures Below(EvalOr(a, row), EvalOr(b, row))
  {
    if a != [] {
      SeqBelow(a[1..], b[1..], row);
    }
  }

  lemma RangeBelow(f: Field, v: Value, row: Row)
    requires RangeCond(f, v, true).Ok?
    ensures RangeCond(f, v, false).Ok?
    ensures Below(Eval(RangeCond(f, v, true).value, row), Eval(RangeCond(f, v, false).value, row))
  {
    if f.fallback.Some? {
      AnnotationBelow(f.expr, f.fallback.value, Comparator.Ge, One(v.lits[0]), row);
      AnnotationBelow(f.expr, f.fallback.value, Comparator.Le, One(v.lits[1]), row);
    }
    var low, high := ComparisonCond(f, Comparator.Ge, One(v.lits[0]), true).value,
                     ComparisonCond(f, Comparator.Le, One(v.lits[1]), true).value;
    var low', high' := ComparisonCond(f, Comparator.Ge, One(v.lits[0]), false).value,
                       ComparisonCond(f, Comparator.Le, One(v.lits[1]), false).value;
    PairValues(low, high, row);
    PairValues(low', high', row);
  }

  /**
    The only three-valued difference the shipped rewrites make: NULL in place of FALSE.
    It lifts through the whole tree because the tree is built from AND and OR alone.
   */
  lemma {:induction false} CompileBelow(e: Expr, row: Row)
    requires Compile(e, PLAIN).Ok?
    ensures Compile(e, SHIPPED).Ok?
    ensures Below(Eval(Compile(e, SHIPPED).value, row), Eval(Compile(e, PLAIN).value, row))
    decreases e, 0
  {
    CompileSucceedsAlike(e, SHIPPED);
    match e
    case All(children) =>
      var cs, plain := CompileAll(children, SHIPPED).value, CompileAll(children, PLAIN).value;
      CompileAllBelow(children, row);
      SeqBelow(cs, plain, row);
      EvalOfAnd(cs, row);
      EvalOfAnd(plain, row);
      MergeKeepsAnd(cs, row);
    case Any(children) =>
      var cs, plain := CompileAll(children, SHIPPED).value, CompileAll(children, PLAIN).value;
      CompileAllBelow(children, row);
      SeqBelow(cs, plain, row);
      EvalOfOr(cs, row);
      EvalOfOr(plain, row);
      MergeKeepsOr(cs, row);
    case Comparing(kind, f, v) =>
      if f.Column? && f.fallback.Some? {
        AnnotationBelow(f.expr, f.fallback.value, kind.Op(), v, row);
      }
    case InTheRange(f, v) => RangeBelow(f, v, row);
    case _ =>
  }

  lemma {:induction false} CompileAllBelow(es: seq<Expr>, row: Row)
    requires CompileAll(es, PLAIN).Ok?
    ensures CompileAll(es, SHIPPED).Ok?
    ensures forall i :: 0 <= i < |es| ==>
              Below(Eval(CompileAll(es, SHIPPED).value[i], row), Eval(CompileAll(es, PLAIN).value[i], row))
    decreases es, 1
  {
    if es != [] {
      CompileBelow(es[0], row);
      CompileAllBelow(es[1..], row);
      var shipped, plain := CompileAll(es, SHIPPED).value, CompileAll(es, PLAIN).value;
      assert shipped == [Compile(es[0], SHIPPED).value] + CompileAll(es[1..], SHIPPED).value;
      assert plain == [Compile(es[0], PLAIN).value] + CompileAll(es[1..], PLAIN).value;
    }
  }

  /**
    What a NOT above a comparison would select: the same rows from both forms exactly when
    the row has an annotation, or the comparison kept COALESCE, or the default satisfies it.
   */
  lemma NegationNeedsCoalesce(col: string, fallback: Literal, op: Comparator, v: Value, row: Row)
    ensures (Not3(Eval(AnnotationCond(col, fallback, op, v, true), row)) == Yes <==>
             Not3(Eval(AnnotationCond(col, fallback, op, v, false), row)) == Yes) <==>
            row.col(col).Some? || BareNullInclusion(fallback, op, v) != Some(false)
  {
    PairValues(Compare(col, None, op, v), IsNull(col, false), row);
  }

  /** For instance NOT (playcount > 0), default 0, on a row that was never played. */
  lemma NegatedPlayCount(row: Row)
    requires row.col("playcount").None?
    ensures var zero := Number(0.0);
            && Not3(Eval(AnnotationCond("playcount", zero, Comparator.Gt, One(zero), false), row)) == Yes
            && Not3(Eval(AnnotationCond("playcount", zero, Comparator.Gt, One(zero), true), row)) == Unknown
  {
  }
}
