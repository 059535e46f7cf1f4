/**
  What compiled criteria select, in plain terms: arithmetic on the column's value, parts of
  its text, and which trees compile at all.
 */
module CriteriaLaws {
  import opened Prelude
  import opened SqlCondition
  import opened ConditionMerging
  import opened CriteriaCompiler

  /** The expression compiles, and the query returns the row. */
  predicate Selected(e: Expr, mode: Mode, row: Row) {
    Compile(e, mode).Ok? && Eval(Compile(e, mode).value, row) == Yes
  }

  /** The column holds x, or holds nothing and its default is x. */
  predicate Shows(f: Field, row: Row, x: real) {
    && f.Column? && (f.expr != "" || f.fallback.Some?)
    && (row.col(f.expr) == Some(x) || (row.col(f.expr) == None && (f.fallback == Some(Number(x)) ||
        (f.fallback == Some(Flag(true)) && x == 1.0) || (f.fallback == Some(Flag(false)) && x == 0.0))))
  }

  /** The column holds nothing and has no default. */
  predicate ShowsNothing(f: Field, row: Row) {
    f.Column? && f.expr != "" && f.fallback.None? && row.col(f.expr).None?
  }

  // ---------------------------------------------------------------- numbers

  /** Each comparison operator selects by the arithmetic comparison it is named after. */
  lemma NumberComparisons(f: Field, n: real, x: real, mode: Mode, row: Row)
    requires Shows(f, row, x)
    ensures Selected(Comparing(Is, f, One(Number(n))), mode, row) <==> x == n
    ensures Selected(Comparing(IsNot, f, One(Number(n))), mode, row) <==> x != n
    ensures Selected(Comparing(GreaterThan, f, One(Number(n))), mode, row) <==> x > n
    ensures Selected(Comparing(After, f, One(Number(n))), mode, row) <==> x > n
    ensures Selected(Comparing(LessThan, f, One(Number(n))), mode, row) <==> x < n
    ensures Selected(Comparing(Before, f, One(Number(n))), mode, row) <==> x < n
  {
    forall kind: Comparison {
      CompileIsRight(Comparing(kind, f, One(Number(n))), mode, row);
    }
  }

  /** Booleans count as one and zero. */
  lemma FlagComparisons(f: Field, b: bool, x: real, mode: Mode, row: Row)
    requires Shows(f, row, x)
    ensures Selected(Comparing(Is, f, One(Flag(b))), mode, row) <==> x == if b then 1.0 else 0.0
    ensures Selected(Comparing(IsNot, f, One(Flag(b))), mode, row) <==> x != if b then 1.0 else 0.0
  {
    CompileIsRight(Comparing(Is, f, One(Flag(b))), mode, row);
    CompileIsRight(Comparing(IsNot, f, One(Flag(b))), mode, row);
  }

  function Numbers(ns: seq<real>): (r: seq<Literal>)
    ensures |r| == |ns| && forall i :: 0 <= i < |ns| ==> r[i] == Number(ns[i])
  {
    seq(|ns|, i requires 0 <= i < |ns| => Number(ns[i]))
  }

  /** Lists are accepted by the two equality operators and read as membership. */
  lemma ListComparisons(f: Field, ns: seq<real>, x: real, mode: Mode, row: Row)
    requires Shows(f, row, x)
    ensures Selected(Comparing(Is, f, Many(Numbers(ns))), mode, row) <==> x in ns
    ensures Selected(Comparing(IsNot, f, Many(Numbers(ns))), mode, row) <==> x !in ns
    ensures forall kind: Comparison :: kind != Is && kind != IsNot ==>
              Compile(Comparing(kind, f, Many(Numbers(ns))), mode) == Err(InvalidValue)
  {
    var lits := Numbers(ns);
    assert (exists l :: l in lits && l.AsReal() == x) <==> x in ns by {
      if l :| l in lits && l.AsReal() == x {
        var i :| 0 <= i < |lits| && lits[i] == l;
        assert ns[i] == x;
      }
      if x in ns {
        var i :| 0 <= i < |ns| && ns[i] == x;
        assert lits[i] in lits && lits[i].AsReal() == x;
      }
    }
    CompileIsRight(Comparing(Is, f, Many(lits)), mode, row);
    CompileIsRight(Comparing(IsNot, f, Many(lits)), mode, row);
  }

  /** A closed range contains both its bounds. */
  lemma RangeOfNumbers(f: Field, low: real, high: real, x: real, mode: Mode, row: Row)
    requires Shows(f, row, x)
    ensures Selected(InTheRange(f, Many([Number(low), Number(high)])), mode, row) <==> low <= x <= high
  {
    CompileIsRight(InTheRange(f, Many([Number(low), Number(high)])), mode, row);
  }

  /** A missing value without a default satisfies no comparison and lies in no range. */
  lemma NothingComparesWithNull(f: Field, kind: Comparison, lit: Literal, high: Literal, mode: Mode, row: Row)
    requires ShowsNothing(f, row)
    ensures !Selected(Comparing(kind, f, One(lit)), mode, row)
    ensures !Selected(InTheRange(f, Many([lit, high])), mode, row)
  {
    CompileIsRight(Comparing(kind, f, One(lit)), mode, row);
    CompileIsRight(InTheRange(f, Many([lit, high])), mode, row);
  }

  /** A tag or role is selected when one of its values compares; IsNot when none is equal. */
  lemma TagComparisons(j: JsonField, lit: Literal, mode: Mode, row: Row)
    ensures var v := One(lit);
            && (Selected(Comparing(Is, Json(j), v), mode, row) <==> Matched(row, j, InnerCompare(Comparator.Eq, v)))
            && (Selected(Comparing(IsNot, Json(j), v), mode, row) <==> !Matched(row, j, InnerCompare(Comparator.Eq, v)))
            && (Selected(Comparing(GreaterThan, Json(j), v), mode, row) <==> Matched(row, j, InnerCompare(Comparator.Gt, v)))
            && (Selected(Comparing(After, Json(j), v), mode, row) <==> Matched(row, j, InnerCompare(Comparator.Gt, v)))
            && (Selected(Comparing(LessThan, Json(j), v), mode, row) <==> Matched(row, j, InnerCompare(Comparator.Lt, v)))
            && (Selected(Comparing(Before, Json(j), v), mode, row) <==> Matched(row, j, InnerCompare(Comparator.Lt, v)))
  {
    forall kind: Comparison {
      CompileIsRight(Comparing(kind, Json(j), One(lit)), mode, row);
    }
  }

  /** Where the shipped compiler keeps COALESCE, and so the slower query: nowhere else. */
  lemma CoalesceKept(f: Field, kind: Comparison, v: Value, row: Row)
    requires f.Column? && f.fallback.Some? && Compile(Comparing(kind, f, v), PLAIN).Ok?
    ensures Compile(Comparing(kind, f, v), SHIPPED) == Compile(Comparing(kind, f, v), PLAIN) <==>
            v.Many? || match f.fallback.value
                       case Number(_) => v.lit.Flag?
                       case Flag(_) => (kind != Is && kind != IsNot) ||
                                       (v.lit.Number? && v.lit.n != 0.0 && v.lit.n != 1.0)
  {
  }

  // ---------------------------------------------------------------- batching

  /** The rule asks for a value of this tag or role, or, negated, that there is none. */
  predicate AsksOf(e: Expr, j: JsonField, negated: bool) {
    || (e.Comparing? && e.field == Json(j) && (e.kind.IsNot? <==> negated))
    || (e.Matching? && e.field == Json(j) && (e.how.NotContains? <==> negated))
  }

  /** Where two rules of a group ask of one tag or role, no subquery of its own is left for it. */
  lemma RulesAreBatched(es: seq<Expr>, i: nat, k: nat, j: JsonField, negated: bool, mode: Mode)
    requires mode.merge && i < k < |es| && AsksOf(es[i], j, negated) && AsksOf(es[k], j, negated)
    ensures var group := Compile(if negated then All(es) else Any(es), mode);
            group.Ok? ==>
              && (negated ==> group.value.And?) && (!negated ==> group.value.Or?)
              && forall c :: c in group.value.conds && c.Exists? && c.field == j && c.inner.Some? ==> c.negate != negated
  {
    var cs := CompileAll(es, mode);
    if cs.Ok? {
      MembersCompile(es, mode, i);
      MembersCompile(es, mode, k);
      PairsAreMerged(cs.value, j, negated, i, k);
    }
  }

  /** Rule by rule. */
  lemma {:induction false} MembersCompile(es: seq<Expr>, mode: Mode, i: nat)
    requires CompileAll(es, mode).Ok? && i < |es|
    ensures Compile(es[i], mode) == Ok(CompileAll(es, mode).value[i])
  {
    if i > 0 {
      MembersCompile(es[1..], mode, i - 1);
    }
  }

  // ---------------------------------------------------------------- text

  function Lower(c: char): char { if 'A' <= c <= 'Z' then c - 'A' + 'a' else c }

  /** SQLite's LIKE: % is any text, _ any character, and ASCII letters match in either case. */
  predicate LikeMatch(p: string, s: string)
    decreases |p|, |s|
  {
    if p == "" then s == ""
    else if p[0] == '%' then LikeMatch(p[1..], s) || (s != "" && LikeMatch(p, s[1..]))
    else s != "" && (p[0] == '_' || Lower(p[0]) == Lower(s[0])) && LikeMatch(p[1..], s[1..])
  }

  predicate EndsInMatch(p: string, s: string) { exists k :: 0 <= k <= |s| && LikeMatch(p, s[k..]) }

  predicate StartsWithMatch(p: string, s: string) { exists k :: 0 <= k <= |s| && LikeMatch(p, s[..k]) }

  predicate ContainsMatch(p: string, s: string) {
    exists i, k :: 0 <= i <= k <= |s| && LikeMatch(p, s[i..k])
  }

  lemma {:induction false} AnythingBefore(p: string, s: string)
    ensures LikeMatch("%" + p, s) <==> EndsInMatch(p, s)
    decreases |s|
  {
    assert ("%" + p)[1..] == p && s[0..] == s;
    if s != "" {
      var tail := s[1..];
      AnythingBefore(p, tail);
      assert forall k :: 0 <= k <= |tail| ==> tail[k..] == s[k + 1..];
      if EndsInMatch(p, tail) {
        var k :| 0 <= k <= |tail| && LikeMatch(p, tail[k..]);
        assert LikeMatch(p, s[k + 1..]);
      }
      if EndsInMatch(p, s) && !LikeMatch(p, s) {
        var k :| 0 <= k <= |s| && LikeMatch(p, s[k..]);
        assert k > 0 && LikeMatch(p, tail[k - 1..]);
      }
    }
  }

  lemma {:induction false} OnlyAnything(s: string)
    ensures LikeMatch("%", s)
  {
    if s == "" {
      assert "%"[1..] == "";
    } else {
      OnlyAnything(s[1..]);
    }
  }

  lemma PrefixOfTail(s: string)
    requires s != ""
    ensures forall k :: 1 <= k <= |s| ==> s[..k][1..] == s[1..][..k - 1] && s[..k] != "" && s[..k][0] == s[0]
  {
  }

  lemma {:induction false} AnythingAfter(p: string, s: string)
    ensures LikeMatch(p + "%", s) <==> StartsWithMatch(p, s)
    decreases |p|, |s|
  {
    if p == "" {
      assert p + "%" == "%" && s[..0] == "";
      OnlyAnything(s);
      assert LikeMatch(p, s[..0]);
    } else {
      assert (p + "%")[1..] == p[1..] + "%" && (p + "%")[0] == p[0];
      if p[0] == '%' {
        AnythingAfterPercent(p, s);
      } else {
        AnythingAfterChar(p, s);
      }
    }
  }

  lemma {:induction false} AnythingAfterPercent(p: string, s: string)
    requires p != "" && p[0] == '%'
    ensures LikeMatch(p + "%", s) <==> StartsWithMatch(p, s)
    decreases |p|, |s|, 0
  {
    assert (p + "%")[1..] == p[1..] + "%";
    AnythingAfter(p[1..], s);
    if StartsWithMatch(p[1..], s) {
      var k :| 0 <= k <= |s| && LikeMatch(p[1..], s[..k]);
      assert LikeMatch(p, s[..k]);
    }
    if s != "" {
      AnythingAfter(p, s[1..]);
      PrefixOfTail(s);
      if StartsWithMatch(p, s[1..]) {
        var k :| 0 <= k <= |s| - 1 && LikeMatch(p, s[1..][..k]);
        assert s[..k + 1][1..] == s[1..][..k];
        assert LikeMatch(p, s[..k + 1]);
      }
    }
    if StartsWithMatch(p, s) {
      var k :| 0 <= k <= |s| && LikeMatch(p, s[..k]);
      if !LikeMatch(p[1..], s[..k]) {
        assert s[..k] != "" && LikeMatch(p, s[..k][1..]);
        assert s[..k][1..] == s[1..][..k - 1];
        assert StartsWithMatch(p, s[1..]);
      }
    }
  }

  lemma {:induction false} AnythingAfterChar(p: string, s: string)
    requires p != "" && p[0] != '%'
    ensures LikeMatch(p + "%", s) <==> StartsWithMatch(p, s)
    decreases |p|, |s|, 0
  {
    assert (p + "%")[1..] == p[1..] + "%" && (p + "%")[0] == p[0];
    if s != "" {
      AnythingAfter(p[1..], s[1..]);
      PrefixOfTail(s);
      if StartsWithMatch(p[1..], s[1..]) && (p[0] == '_' || Lower(p[0]) == Lower(s[0])) {
        var k :| 0 <= k <= |s| - 1 && LikeMatch(p[1..], s[1..][..k]);
        assert s[..k + 1][1..] == s[1..][..k];
        assert LikeMatch(p, s[..k + 1]);
      }
      if StartsWithMatch(p, s) {
        var k :| 0 <= k <= |s| && LikeMatch(p, s[..k]);
        assert k > 0 && LikeMatch(p[1..], s[1..][..k - 1]);
      }
    }
  }

  /** Matching what follows position i: a stretch from i on matches. */
  predicate FromMatch(p: string, s: string, i: int)
    requires 0 <= i <= |s|
  {
    exists k :: i <= k <= |s| && LikeMatch(p, s[i..k])
  }

  lemma AnythingAfterFrom(p: string, s: string, i: nat)
    requires i <= |s|
    ensures LikeMatch(p + "%", s[i..]) <==> FromMatch(p, s, i)
  {
    AnythingAfter(p, s[i..]);
    if StartsWithMatch(p, s[i..]) {
      var k :| 0 <= k <= |s[i..]| && LikeMatch(p, s[i..][..k]);
      assert s[i..][..k] == s[i..i + k];
    }
    if FromMatch(p, s, i) {
      var k :| i <= k <= |s| && LikeMatch(p, s[i..k]);
      assert s[i..][..k - i] == s[i..k];
    }
  }

  lemma AnythingAround(p: string, s: string)
    ensures LikeMatch("%" + p + "%", s) <==> ContainsMatch(p, s)
  {
    assert "%" + p + "%" == "%" + (p + "%");
    AnythingBefore(p + "%", s);
    if EndsInMatch(p + "%", s) {
      var i :| 0 <= i <= |s| && LikeMatch(p + "%", s[i..]);
      AnythingAfterFrom(p, s, i);
    }
    if ContainsMatch(p, s) {
      var i, k :| 0 <= i <= k <= |s| && LikeMatch(p, s[i..k]);
      AnythingAfterFrom(p, s, i);
      assert FromMatch(p, s, i);
    }
  }

  /** Text without wildcards matches itself alone, up to the case of ASCII letters. */
  lemma {:induction false} PlainMatch(p: string, s: string)
    requires '%' !in p && '_' !in p
    ensures LikeMatch(p, s) <==> |p| == |s| && forall i :: 0 <= i < |p| ==> Lower(p[i]) == Lower(s[i])
  {
    if p != "" {
      assert p[0] in p && forall c :: c in p[1..] ==> c in p;
      if s != "" {
        PlainMatch(p[1..], s[1..]);
        assert forall i :: 1 <= i < |p| && |p| == |s| ==> p[i] == p[1..][i - 1] && s[i] == s[1..][i - 1];
        if |p| == |s| && forall i :: 0 <= i < |p| ==> Lower(p[i]) == Lower(s[i]) {
          assert forall i :: 0 <= i < |p| - 1 ==> p[1..][i] == p[i + 1] && s[1..][i] == s[i + 1];
        }
      }
    }
  }

  /** Contains, StartsWith and EndsWith on a column whose value reads as the text s. */
  lemma TextOfColumn(f: Field, text: string, x: real, s: string, mode: Mode, row: Row)
    requires Shows(f, row, x) && forall p :: row.like(x, p) == LikeMatch(p, s)
    ensures Selected(Matching(Contains, f, text), mode, row) <==> ContainsMatch(text, s)
    ensures Selected(Matching(NotContains, f, text), mode, row) <==> !ContainsMatch(text, s)
    ensures Selected(Matching(StartsWith, f, text), mode, row) <==> StartsWithMatch(text, s)
    ensures Selected(Matching(EndsWith, f, text), mode, row) <==> EndsInMatch(text, s)
  {
    AnythingAround(text, s);
    AnythingBefore(text, s);
    AnythingAfter(text, s);
    forall how: TextMatch {
      CompileIsRight(Matching(how, f, text), mode, row);
    }
  }

  lemma TextOfNull(f: Field, how: TextMatch, text: string, mode: Mode, row: Row)
    requires ShowsNothing(f, row)
    ensures !Selected(Matching(how, f, text), mode, row)
  {
    CompileIsRight(Matching(how, f, text), mode, row);
  }

  /** The row reads LIKE on this tag or role as SQLite does. */
  ghost predicate ReadsLike(j: JsonField, row: Row) {
    forall p, s :: row.inner(InnerLike(p), row.numeric(j), s) == OfBool(LikeMatch(p, s))
  }

  /** On a tag or role some value has to match, and for NotContains none may. */
  lemma TextInTag(j: JsonField, text: string, mode: Mode, row: Row)
    requires ReadsLike(j, row)
    ensures Selected(Matching(Contains, Json(j), text), mode, row) <==> exists s :: s in row.values(j) && ContainsMatch(text, s)
    ensures Selected(Matching(NotContains, Json(j), text), mode, row) <==>
            forall s :: s in row.values(j) ==> !ContainsMatch(text, s)
  {
    var p := "%" + text + "%";
    TagMatches(j, p, row);
    forall s | s in row.values(j) ensures LikeMatch(p, s) <==> ContainsMatch(text, s) {
      AnythingAround(text, s);
    }
    CompileIsRight(Matching(Contains, Json(j), text), mode, row);
    CompileIsRight(Matching(NotContains, Json(j), text), mode, row);
  }

  lemma TextStartsTag(j: JsonField, text: string, mode: Mode, row: Row)
    requires ReadsLike(j, row)
    ensures Selected(Matching(StartsWith, Json(j), text), mode, row) <==>
            exists s :: s in row.values(j) && StartsWithMatch(text, s)
  {
    TagMatches(j, text + "%", row);
    forall s | s in row.values(j) ensures LikeMatch(text + "%", s) <==> StartsWithMatch(text, s) {
      AnythingAfter(text, s);
    }
    CompileIsRight(Matching(StartsWith, Json(j), text), mode, row);
  }

  lemma TextEndsTag(j: JsonField, text: string, mode: Mode, row: Row)
    requires ReadsLike(j, row)
    ensures Selected(Matching(EndsWith, Json(j), text), mode, row) <==> exists s :: s in row.values(j) && EndsInMatch(text, s)
  {
    TagMatches(j, "%" + text, row);
    forall s | s in row.values(j) ensures LikeMatch("%" + text, s) <==> EndsInMatch(text, s) {
      AnythingBefore(text, s);
    }
    CompileIsRight(Matching(EndsWith, Json(j), text), mode, row);
  }

  lemma TagMatches(j: JsonField, p: string, row: Row)
    requires ReadsLike(j, row)
    ensures Matched(row, j, InnerLike(p)) <==> exists s :: s in row.values(j) && LikeMatch(p, s)
  {
  }

  // ---------------------------------------------------------------- what compiles

  /** The column can be named in SQL. */
  predicate Usable(f: Field) { f.Column? && (f.expr != "" || f.fallback.Some?) }

  predicate Accepted(e: Expr) {
    match e
    case All(children) => forall i :: 0 <= i < |children| ==> Accepted(children[i])
    case Any(children) => forall i :: 0 <= i < |children| ==> Accepted(children[i])
    case Comparing(kind, f, v) =>
      (f.Json? || Usable(f)) && (v.Many? ==> kind.Is? || kind.IsNot?)
    case Matching(_, f, _) => f.Json? || Usable(f)
    case InTheRange(f, v) => Usable(f) && v.Many? && |v.lits| == 2
    case InTheLast(f, firstDate, _) => f.Column? && f.expr != "" && firstDate.Some?
    case InPlaylist(id, _) => id.Some?
    case Missing(f, v, _) => v.One? && v.lit.Flag? && (f.Json? || (f.Column? && f.nullable && f.expr != ""))
  }

  /** Exactly the trees of which every leaf is acceptable compile, whichever rewrites are on. */
  lemma {:induction false} CompilesWhen(e: Expr, mode: Mode)
    ensures Compile(e, mode).Ok? <==> Accepted(e)
    decreases e, 0
  {
    if e.All? || e.Any? {
      AllCompileWhen(e.children, mode);
    }
  }

  lemma {:induction false} AllCompileWhen(es: seq<Expr>, mode: Mode)
    ensures CompileAll(es, mode).Ok? <==> forall i :: 0 <= i < |es| ==> Accepted(es[i])
    decreases es, 1
  {
    if es != [] {
      CompilesWhen(es[0], mode);
      AllCompileWhen(es[1..], mode);
      assert forall i :: 1 <= i < |es| ==> es[i] == es[1..][i - 1];
      assert forall i :: 0 <= i < |es| - 1 ==> es[1..][i] == es[i + 1];
    }
  }

  /** Why a rule alone is refused: what it names comes before what it is given, but for ranges. */
  lemma RefusedBecause(e: Expr, mode: Mode)
    requires !e.All? && !e.Any? && !Accepted(e)
    ensures Compile(e, mode) == Err(
              match e
              case Comparing(_, f, _) => if f.Json? || Usable(f) then InvalidValue else InvalidField
              case Matching(_, _, _) => InvalidField
              case InTheRange(f, v) =>
                if f.Json? then JsonFieldNotAllowed
                else if f.Column? && (v.One? || |v.lits| != 2) then InvalidValue else InvalidField
              case InTheLast(f, _, _) =>
                if f.Json? then JsonFieldNotAllowed
                else if f.Column? && f.expr != "" then InvalidValue else InvalidField
              case InPlaylist(_, _) => NoPlaylistId
              case Missing(f, v, _) =>
                if f.UnknownField? || (v.One? && v.lit.Flag?) then InvalidField else InvalidValue)
  {
  }

  /** A group is refused for its first unacceptable member. */
  lemma GroupRefusedBecause(es: seq<Expr>, k: nat, mode: Mode)
    requires k < |es| && !Accepted(es[k]) && forall i :: 0 <= i < k ==> Accepted(es[i])
    ensures Compile(es[k], mode).Err?
    ensures Compile(All(es), mode) == Err(Compile(es[k], mode).error)
    ensures Compile(Any(es), mode) == Err(Compile(es[k], mode).error)
  {
    CompilesWhen(es[k], mode);
    FirstError(es, k, mode);
  }

  lemma {:induction false} FirstError(es: seq<Expr>, k: nat, mode: Mode)
    requires k < |es| && Compile(es[k], mode).Err? && forall i :: 0 <= i < k ==> Accepted(es[i])
    ensures CompileAll(es, mode) == Err(Compile(es[k], mode).error)
  {
    if k > 0 {
      CompilesWhen(es[0], mode);
      FirstError(es[1..], k - 1, mode);
    }
  }

  /** A playlist without rules has every track; otherwise it has those that satisfy the accepted tree. */
  lemma WhereSelects(e: Option<Expr>, mode: Mode, row: Row)
    ensures e.None? ==> Where(e, mode).Ok? && Eval(Where(e, mode).value, row) == Yes
    ensures e.Some? ==> (Where(e, mode).Ok? <==> Accepted(e.value))
    ensures e.Some? && Accepted(e.value) ==> (Eval(Where(e, mode).value, row) == Yes <==> Meaning(e.value, row))
  {
    if e.Some? {
      CompilesWhen(e.value, mode);
      CompileIsRight(e.value, mode, row);
    } else {
      EvalAndIs([], row);
    }
  }
}
