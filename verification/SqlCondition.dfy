/**
  The SQL conditions that the smart-playlist compiler emits, evaluated in SQL's
  three-valued logic over one row whose columns may be NULL.

  Columns hold numbers; a boolean column holds 0 or 1, as in SQLite.  What a text
  comparison inside a tag or role subquery answers is left to the row, so every
  statement holds for every interpretation of those inner conditions.
 */
module SqlCondition {
  import opened Prelude

  /** SQL truth values, ordered No < Unknown < Yes; a row is selected only on Yes. */
  datatype Truth = No | Unknown | Yes

  function OfBool(b: bool): Truth { if b then Yes else No }

  function Not3(a: Truth): Truth {
    match a
    case No => Yes
    case Unknown => Unknown
    case Yes => No
  }

  function And3(a: Truth, b: Truth): Truth {
    if a == No || b == No then No else if a == Unknown || b == Unknown then Unknown else Yes
  }

  function Or3(a: Truth, b: Truth): Truth {
    if a == Yes || b == Yes then Yes else if a == Unknown || b == Unknown then Unknown else No
  }

  datatype Comparator = Eq | Ne | Gt | Ge | Lt | Le {
    predicate Satisfy(a: real, b: real) {
      match this
      case Eq => a == b
      case Ne => a != b
      case Gt => a > b
      case Ge => a >= b
      case Lt => a < b
      case Le => a <= b
    }

    /** Eq and Ne are the only comparators that also accept a list or a boolean column. */
    predicate Ordering() { !Eq? && !Ne? }
  }

  datatype Literal = Number(n: real) | Flag(b: bool) {
    function AsReal(): real {
      match this
      case Number(n) => n
      case Flag(b) => if b then 1.0 else 0.0
    }
  }

  /** A criteria value: one literal, or a list (rendered as IN / NOT IN). */
  datatype Value = One(lit: Literal) | Many(lits: seq<Literal>)

  /** The condition inside a tag or role subquery. */
  datatype Inner = InnerCompare(op: Comparator, v: Value) | InnerLike(pattern: string)

  datatype JsonField = RoleField(name: string) | TagField(name: string)

  datatype Cond =
    | Compare(col: string, fallback: Option<Literal>, op: Comparator, v: Value)
    | IsNull(col: string, negate: bool)
    | TextEquals(col: string, text: string, negate: bool)
    | Like(col: string, fallback: Option<Literal>, pattern: string, negate: bool)
    | Exists(field: JsonField, inner: Option<Inner>, negate: bool)
    | ExistsAny(field: JsonField, inners: seq<Inner>, negate: bool)
    | InList(id: string, negate: bool)
    | And(conds: seq<Cond>)
    | Or(conds: seq<Cond>)

  /** One joined row.  `inner` receives whether the tag is cast to a number first. */
  datatype Row = Row(
    col: string -> Option<real>,
    values: JsonField -> seq<string>,
    numeric: JsonField -> bool,
    inner: (Inner, bool, string) -> Truth,
    like: (real, string) -> bool,
    textEquals: (real, string) -> bool,
    listed: string -> bool)

  /** COALESCE(col, fallback), or the bare column when there is no fallback. */
  function Operand(row: Row, col: string, fallback: Option<Literal>): Option<real> {
    match row.col(col)
    case Some(x) => Some(x)
    case None => if fallback.Some? then Some(fallback.value.AsReal()) else None
  }

  function CompareValue(op: Comparator, x: Option<real>, v: Value): Truth {
    match v
    case One(lit) => if x.None? then Unknown else OfBool(op.Satisfy(x.value, lit.AsReal()))
    case Many(lits) =>
      if lits == [] then OfBool(op != Eq)
      else if x.None? then Unknown
      else OfBool((op == Eq) == exists l :: l in lits && l.AsReal() == x.value)
  }

  /** Some value of the field makes the inner condition TRUE. */
  predicate Matched(row: Row, field: JsonField, inner: Inner) {
    exists s :: s in row.values(field) && row.inner(inner, row.numeric(field), s) == Yes
  }

  /** NULL-skipping evaluation of one value against the OR of several inner conditions. */
  function InnerAny(row: Row, field: JsonField, inners: seq<Inner>, s: string): Truth {
    if inners == [] then No
    else Or3(row.inner(inners[0], row.numeric(field), s), InnerAny(row, field, inners[1..], s))
  }

  function Eval(c: Cond, row: Row): Truth
    decreases c, 0
  {
    match c
    case Compare(col, fallback, op, v) => CompareValue(op, Operand(row, col, fallback), v)
    case IsNull(col, negate) => OfBool(row.col(col).None? != negate)
    case TextEquals(col, text, negate) =>
      var x := row.col(col);
      if x.None? then Unknown else OfBool(row.textEquals(x.value, text) != negate)
    case Like(col, fallback, pattern, negate) =>
      var x := Operand(row, col, fallback);
      if x.None? then Unknown else OfBool(row.like(x.value, pattern) != negate)
    case Exists(field, inner, negate) =>
      OfBool((if inner.None? then row.values(field) != [] else Matched(row, field, inner.value)) != negate)
    case ExistsAny(field, inners, negate) =>
      OfBool((exists s :: s in row.values(field) && InnerAny(row, field, inners, s) == Yes) != negate)
    case InList(id, negate) => OfBool(row.listed(id) != negate)
    case And(conds) => EvalAnd(conds, row)
    case Or(conds) => EvalOr(conds, row)
  }

  /** An empty conjunction is (1=1). */
  function EvalAnd(conds: seq<Cond>, row: Row): Truth
    decreases conds, 1
  {
    if conds == [] then Yes else And3(Eval(conds[0], row), EvalAnd(conds[1..], row))
  }

  /** An empty disjunction is (1=0). */
  function EvalOr(conds: seq<Cond>, row: Row): Truth
    decreases conds, 1
  {
    if conds == [] then No else Or3(Eval(conds[0], row), EvalOr(conds[1..], row))
  }

  lemma EvalOfAnd(conds: seq<Cond>, row: Row)
    ensures Eval(And(conds), row) == EvalAnd(conds, row)
  {
  }

  lemma EvalOfOr(conds: seq<Cond>, row: Row)
    ensures Eval(Or(conds), row) == EvalOr(conds, row)
  {
  }

  lemma UnfoldOr(conds: seq<Cond>, row: Row)
    requires conds != []
    ensures EvalOr(conds, row) == Or3(Eval(conds[0], row), EvalOr(conds[1..], row))
  {
  }

  lemma UnfoldAnd(conds: seq<Cond>, row: Row)
    requires conds != []
    ensures EvalAnd(conds, row) == And3(Eval(conds[0], row), EvalAnd(conds[1..], row))
  {
  }

  lemma PairOr(a: Cond, b: Cond, row: Row)
    ensures EvalOr([a, b], row) == Or3(Eval(a, row), Eval(b, row))
  {
    var two := [a, b];
    var one := two[1..];
    UnfoldOr(two, row);
    UnfoldOr(one, row);
    assert one[1..] == [];
  }

  lemma PairAnd(a: Cond, b: Cond, row: Row)
    ensures EvalAnd([a, b], row) == And3(Eval(a, row), Eval(b, row))
  {
    var two := [a, b];
    var one := two[1..];
    UnfoldAnd(two, row);
    UnfoldAnd(one, row);
    assert one[1..] == [];
  }

  ghost predicate Has(conds: seq<Cond>, row: Row, t: Truth) {
    exists c :: c in conds && Eval(c, row) == t
  }

  /** A conjunction is decided by which truth values occur, not by order or repetition. */
  lemma {:induction false} EvalAndIs(conds: seq<Cond>, row: Row)
    ensures EvalAnd(conds, row) ==
            if Has(conds, row, No) then No else if Has(conds, row, Unknown) then Unknown else Yes
  {
    if conds != [] {
      EvalAndIs(conds[1..], row);
      HasSplit(conds, row, No);
      HasSplit(conds, row, Unknown);
    }
  }

  lemma {:induction false} EvalOrIs(conds: seq<Cond>, row: Row)
    ensures EvalOr(conds, row) ==
            if Has(conds, row, Yes) then Yes else if Has(conds, row, Unknown) then Unknown else No
  {
    if conds != [] {
      EvalOrIs(conds[1..], row);
      HasSplit(conds, row, Yes);
      HasSplit(conds, row, Unknown);
    }
  }

  lemma HasSplit(conds: seq<Cond>, row: Row, t: Truth)
    requires conds != []
    ensures Has(conds, row, t) <==> Eval(conds[0], row) == t || Has(conds[1..], row, t)
  {
    if Has(conds, row, t) {
      var c :| c in conds && Eval(c, row) == t;
      assert c == conds[0] || c in conds[1..];
    }
    if Eval(conds[0], row) == t {
      assert conds[0] in conds;
    }
  }

  lemma {:induction false} InnerAnyIs(row: Row, field: JsonField, inners: seq<Inner>, s: string)
    ensures InnerAny(row, field, inners, s) == Yes <==>
            exists i :: i in inners && row.inner(i, row.numeric(field), s) == Yes
  {
    if inners != [] {
      InnerAnyIs(row, field, inners[1..], s);
      assert forall i :: i in inners <==> i == inners[0] || i in inners[1..];
    }
  }

  /** One batched subquery answers for exactly the inner conditions it holds. */
  lemma ExistsAnyIs(field: JsonField, inners: seq<Inner>, negate: bool, row: Row)
    ensures Eval(ExistsAny(field, inners, negate), row) ==
            OfBool((exists i :: i in inners && Matched(row, field, i)) != negate)
  {
    forall s ensures InnerAny(row, field, inners, s) == Yes <==>
                     exists i :: i in inners && row.inner(i, row.numeric(field), s) == Yes
    {
      InnerAnyIs(row, field, inners, s);
    }
  }
}
