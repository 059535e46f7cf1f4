/**
  Batching of same-field EXISTS conditions: non-negated ones inside an OR group,
  negated ones (by De Morgan) inside an AND group.
 */
module ConditionMerging {
  import opened Prelude
  import opened SqlCondition

  const BATCH_SIZE: nat := 350

  /** Whether the condition takes part in a merge of the given polarity. */
  predicate Mergeable(c: Cond, negated: bool) {
    c.Exists? && c.negate == negated && c.inner.Some?
  }

  /** Positions and inner conditions of one field's mergeable conditions, in order. */
  function Entries(conds: seq<Cond>, field: JsonField, negated: bool): seq<(nat, Inner)> {
    if conds == [] then []
    else
      var n := |conds| - 1;
      var front := Entries(conds[..n], field, negated);
      if Mergeable(conds[n], negated) && conds[n].field == field then front + [(n, conds[n].inner.value)]
      else front
  }

  function Inners(entries: seq<(nat, Inner)>): (r: seq<Inner>)
    ensures |r| == |entries|
    ensures forall i :: 0 <= i < |entries| ==> r[i] == entries[i].1
  {
    seq(|entries|, i requires 0 <= i < |entries| => entries[i].1)
  }

  /** Consecutive batches of at most 350. */
  function Chunks<T>(s: seq<T>): seq<seq<T>> {
    if s == [] then [] else if |s| <= BATCH_SIZE then [s] else [s[..BATCH_SIZE]] + Chunks(s[BATCH_SIZE..])
  }

  function Flatten<T>(parts: seq<seq<T>>): seq<T> {
    if parts == [] then [] else parts[0] + Flatten(parts[1..])
  }

  /** Batching loses nothing, repeats nothing, keeps order and uses ceil(n / 350) batches. */
  lemma {:induction false} ChunksPartition<T>(s: seq<T>)
    ensures Flatten(Chunks(s)) == s
    ensures |Chunks(s)| == (|s| + 349) / 350
    ensures forall k :: 0 <= k < |Chunks(s)| ==> 0 < |Chunks(s)[k]| <= 350
  {
    if s == [] {
    } else if |s| <= BATCH_SIZE {
      assert Flatten([s]) == s + Flatten([]);
    } else {
      var rest := Chunks(s[BATCH_SIZE..]);
      ChunksPartition(s[BATCH_SIZE..]);
      assert ([s[..BATCH_SIZE]] + rest)[1..] == rest;
      assert s == s[..BATCH_SIZE] + s[BATCH_SIZE..];
    }
  }

  function KeyText(f: JsonField): string {
    match f
    case RoleField(name) => "role:" + name
    case TagField(name) => "tag:" + name
  }

  predicate TextBefore(a: string, b: string) {
    if a == [] then b != []
    else if b == [] then false
    else a[0] < b[0] || (a[0] == b[0] && TextBefore(a[1..], b[1..]))
  }

  /** Keys in sorted order, as slices.Sorted leaves them. */
  function InsertKey(f: JsonField, keys: seq<JsonField>): (r: seq<JsonField>)
    ensures forall g :: g in r <==> g == f || g in keys
    ensures |r| == |keys| + 1
  {
    if keys == [] || TextBefore(KeyText(f), KeyText(keys[0])) then [f] + keys
    else [keys[0]] + InsertKey(f, keys[1..])
  }

  function Keys(conds: seq<Cond>, negated: bool): seq<JsonField> {
    if conds == [] then []
    else
      var n := |conds| - 1;
      var front := Keys(conds[..n], negated);
      if Mergeable(conds[n], negated) && conds[n].field !in front then InsertKey(conds[n].field, front)
      else front
  }

  /** The subqueries that replace one field's conditions; none unless there are two or more. */
  function Batches(conds: seq<Cond>, field: JsonField, negated: bool): seq<Cond> {
    var entries := Entries(conds, field, negated);
    if |entries| < 2 then [] else Subqueries(field, Chunks(Inners(entries)), negated)
  }

  function Subqueries(field: JsonField, chunks: seq<seq<Inner>>, negated: bool): (r: seq<Cond>)
    ensures |r| == |chunks|
    ensures forall i {:trigger r[i]} :: 0 <= i < |chunks| ==> r[i] == ExistsAny(field, chunks[i], negated)
  {
    seq(|chunks|, i requires 0 <= i < |chunks| => ExistsAny(field, chunks[i], negated))
  }

  predicate Replaced(conds: seq<Cond>, c: Cond, negated: bool) {
    Mergeable(c, negated) && |Entries(conds, c.field, negated)| >= 2
  }

  /** The conditions before position n that stay as they are. */
  function Kept(conds: seq<Cond>, n: nat, negated: bool): seq<Cond>
    requires n <= |conds|
  {
    if n == 0 then []
    else Kept(conds, n - 1, negated) + (if Replaced(conds, conds[n - 1], negated) then [] else [conds[n - 1]])
  }

  function Additions(conds: seq<Cond>, keys: seq<JsonField>, negated: bool): seq<Cond> {
    if keys == [] then []
    else Batches(conds, keys[0], negated) + Additions(conds, keys[1..], negated)
  }

  function Merged(conds: seq<Cond>, negated: bool): seq<Cond> {
    Kept(conds, |conds|, negated) + Additions(conds, Keys(conds, negated), negated)
  }

  // ---------------------------------------------------------------- keys in order

  /** Strictly ascending by key text. */
  predicate Ascending(keys: seq<JsonField>) {
    forall i, j :: 0 <= i < j < |keys| ==> TextBefore(KeyText(keys[i]), KeyText(keys[j]))
  }

  lemma {:induction false} TextTotal(a: string, b: string)
    ensures a == b || TextBefore(a, b) || TextBefore(b, a)
  {
    if a != [] && b != [] && a[0] == b[0] {
      TextTotal(a[1..], b[1..]);
      assert a == [a[0]] + a[1..] && b == [b[0]] + b[1..];
    }
  }

  lemma {:induction false} TextTransitive(a: string, b: string, c: string)
    requires TextBefore(a, b) && TextBefore(b, c)
    ensures TextBefore(a, c)
  {
    if a != [] && b[0] == a[0] && c[0] == b[0] {
      TextTransitive(a[1..], b[1..], c[1..]);
    }
  }

  lemma KeyTextInjective(f: JsonField, g: JsonField)
    requires KeyText(f) == KeyText(g)
    ensures f == g
  {
    assert KeyText(f)[0] == KeyText(g)[0];
    if f.RoleField? && g.RoleField? {
      assert KeyText(f)[5..] == f.name && KeyText(g)[5..] == g.name;
    } else if f.TagField? && g.TagField? {
      assert KeyText(f)[4..] == f.name && KeyText(g)[4..] == g.name;
    }
  }

  lemma {:induction false} InsertAscending(f: JsonField, keys: seq<JsonField>)
    requires Ascending(keys) && f !in keys
    ensures Ascending(InsertKey(f, keys))
  {
    if keys != [] {
      var head, tail := keys[0], keys[1..];
      if TextBefore(KeyText(f), KeyText(head)) {
        forall j | 0 <= j < |keys| ensures TextBefore(KeyText(f), KeyText(keys[j])) {
          if j > 0 {
            TextTransitive(KeyText(f), KeyText(head), KeyText(keys[j]));
          }
        }
      } else {
        TextTotal(KeyText(f), KeyText(head));
        if KeyText(f) == KeyText(head) {
          KeyTextInjective(f, head);
        }
        InsertAscending(f, tail);
        var rest := InsertKey(f, tail);
        forall j | 0 <= j < |rest| ensures TextBefore(KeyText(head), KeyText(rest[j])) {
          assert rest[j] in rest;
        }
      }
    }
  }

  lemma {:induction false} KeysAscending(conds: seq<Cond>, negated: bool)
    ensures Ascending(Keys(conds, negated))
  {
    if conds != [] {
      var n := |conds| - 1;
      KeysAscending(conds[..n], negated);
      if Mergeable(conds[n], negated) && conds[n].field !in Keys(conds[..n], negated) {
        InsertAscending(conds[n].field, Keys(conds[..n], negated));
      }
    }
  }

  // ---------------------------------------------------------------- entries and keys

  lemma {:induction false} EntriesAre(conds: seq<Cond>, field: JsonField, negated: bool)
    ensures forall e :: e in Entries(conds, field, negated) ==>
              e.0 < |conds| && conds[e.0] == Exists(field, Some(e.1), negated)
    ensures forall i :: 0 <= i < |conds| && Mergeable(conds[i], negated) && conds[i].field == field ==>
              (i, conds[i].inner.value) in Entries(conds, field, negated)
  {
    if conds != [] {
      EntriesAre(conds[..|conds| - 1], field, negated);
    }
  }

  lemma {:induction false} KeysAre(conds: seq<Cond>, negated: bool)
    ensures forall f :: f in Keys(conds, negated) <==> Entries(conds, f, negated) != []
  {
    if conds != [] {
      KeysAre(conds[..|conds| - 1], negated);
    }
  }

  lemma {:induction false} InKept(conds: seq<Cond>, n: nat, negated: bool, c: Cond)
    requires n <= |conds|
    ensures c in Kept(conds, n, negated) <==> c in conds[..n] && !Replaced(conds, c, negated)
  {
    if n > 0 {
      InKept(conds, n - 1, negated, c);
      assert conds[..n] == conds[..n - 1] + [conds[n - 1]];
    }
  }

  lemma {:induction false} InAdditions(conds: seq<Cond>, keys: seq<JsonField>, negated: bool, c: Cond)
    ensures c in Additions(conds, keys, negated) <==>
            exists f :: f in keys && c in Batches(conds, f, negated)
  {
    if keys != [] {
      InAdditions(conds, keys[1..], negated, c);
      assert forall f :: f in keys <==> f == keys[0] || f in keys[1..];
    }
  }

  // ---------------------------------------------------------------- meaning preserved

  /** The value a hit produces: a matched negated condition is No, a plain one Yes. */
  function HitValue(negated: bool): Truth { if negated then No else Yes }

  predicate AnyMatched(row: Row, field: JsonField, inners: seq<Inner>) {
    exists i :: 0 <= i < |inners| && Matched(row, field, inners[i])
  }

  lemma {:induction false} AnyMatchedFlatten(row: Row, field: JsonField, parts: seq<seq<Inner>>)
    ensures AnyMatched(row, field, Flatten(parts)) <==>
            exists k :: 0 <= k < |parts| && AnyMatched(row, field, parts[k])
  {
    if parts != [] {
      var tail := parts[1..];
      AnyMatchedFlatten(row, field, tail);
      AnyMatchedConcat(row, field, parts[0], Flatten(tail));
      assert forall k :: 1 <= k < |parts| ==> parts[k] == tail[k - 1];
      assert forall k :: 0 <= k < |tail| ==> tail[k] == parts[k + 1];
    }
  }

  lemma AnyMatchedConcat(row: Row, field: JsonField, a: seq<Inner>, b: seq<Inner>)
    ensures AnyMatched(row, field, a + b) <==> AnyMatched(row, field, a) || AnyMatched(row, field, b)
  {
    var s := a + b;
    assert forall i :: 0 <= i < |a| ==> s[i] == a[i];
    assert forall i :: 0 <= i < |b| ==> s[|a| + i] == b[i];
  }

  lemma ChunkValue(field: JsonField, inners: seq<Inner>, negated: bool, row: Row)
    ensures Eval(ExistsAny(field, inners, negated), row) == OfBool(AnyMatched(row, field, inners) != negated)
  {
    ExistsAnyIs(field, inners, negated, row);
  }

  /** A field's batches contain a hit exactly when one of its conditions was a hit. */
  lemma BatchHit(conds: seq<Cond>, field: JsonField, negated: bool, row: Row)
    requires |Entries(conds, field, negated)| >= 2
    ensures Has(Batches(conds, field, negated), row, HitValue(negated)) <==>
            AnyMatched(row, field, Inners(Entries(conds, field, negated)))
    ensures !Has(Batches(conds, field, negated), row, Unknown)
  {
    var inners := Inners(Entries(conds, field, negated));
    var chunks := Chunks(inners);
    var batches := Batches(conds, field, negated);
    ChunksPartition(inners);
    AnyMatchedFlatten(row, field, chunks);
    forall k | 0 <= k < |chunks|
      ensures Eval(batches[k], row) == OfBool(AnyMatched(row, field, chunks[k]) != negated)
    {
      ChunkValue(field, chunks[k], negated, row);
    }
    assert forall k :: 0 <= k < |batches| ==> batches[k] in batches;
  }

  lemma KeptHit(conds: seq<Cond>, negated: bool, row: Row, c: Cond)
    requires c in Kept(conds, |conds|, negated)
    ensures c in conds
  {
    InKept(conds, |conds|, negated, c);
  }

  lemma AdditionHit(conds: seq<Cond>, negated: bool, row: Row, c: Cond)
    requires c in Additions(conds, Keys(conds, negated), negated)
    ensures Eval(c, row) == HitValue(negated) ==> Has(conds, row, HitValue(negated))
    ensures Eval(c, row) != Unknown
  {
    InAdditions(conds, Keys(conds, negated), negated, c);
    var f :| f in Keys(conds, negated) && c in Batches(conds, f, negated);
    BatchHit(conds, f, negated, row);
    if Eval(c, row) == HitValue(negated) {
      var entries := Entries(conds, f, negated);
      var k :| 0 <= k < |entries| && Matched(row, f, Inners(entries)[k]);
      EntryHit(conds, f, negated, row, k);
    }
  }

  lemma EntryHit(conds: seq<Cond>, f: JsonField, negated: bool, row: Row, k: nat)
    requires k < |Entries(conds, f, negated)|
    requires Matched(row, f, Entries(conds, f, negated)[k].1)
    ensures Has(conds, row, HitValue(negated))
  {
    var e := Entries(conds, f, negated)[k];
    EntriesAre(conds, f, negated);
    assert e in Entries(conds, f, negated);
    assert conds[e.0] in conds && Eval(conds[e.0], row) == HitValue(negated);
  }

  lemma ReplacedHit(conds: seq<Cond>, negated: bool, row: Row, c: Cond)
    requires c in conds && Replaced(conds, c, negated) && Eval(c, row) == HitValue(negated)
    ensures Has(Additions(conds, Keys(conds, negated), negated), row, HitValue(negated))
  {
    var f := c.field;
    var entries := Entries(conds, f, negated);
    EntriesAre(conds, f, negated);
    var i :| 0 <= i < |conds| && conds[i] == c;
    var k :| 0 <= k < |entries| && entries[k] == (i, c.inner.value);
    assert Matched(row, f, Inners(entries)[k]);
    BatchHit(conds, f, negated, row);
    var d :| d in Batches(conds, f, negated) && Eval(d, row) == HitValue(negated);
    KeysAre(conds, negated);
    InAdditions(conds, Keys(conds, negated), negated, d);
  }

  lemma HasConcat(a: seq<Cond>, b: seq<Cond>, row: Row, t: Truth)
    ensures Has(a + b, row, t) <==> Has(a, row, t) || Has(b, row, t)
  {
    assert forall c :: c in a + b <==> c in a || c in b;
  }

  lemma MergedHit(conds: seq<Cond>, negated: bool, row: Row)
    ensures Has(Merged(conds, negated), row, HitValue(negated)) <==> Has(conds, row, HitValue(negated))
  {
    var kept, added := Kept(conds, |conds|, negated), Additions(conds, Keys(conds, negated), negated);
    var hit := HitValue(negated);
    HasConcat(kept, added, row, hit);
    if Has(kept, row, hit) {
      var c :| c in kept && Eval(c, row) == hit;
      KeptHit(conds, negated, row, c);
    } else if Has(added, row, hit) {
      var c :| c in added && Eval(c, row) == hit;
      AdditionHit(conds, negated, row, c);
    } else if Has(conds, row, hit) {
      var c :| c in conds && Eval(c, row) == hit;
      if Replaced(conds, c, negated) {
        ReplacedHit(conds, negated, row, c);
      } else {
        InKept(conds, |conds|, negated, c);
      }
    }
  }

  // ---------------------------------------------------------------- what is merged

  /** A condition on some value of the field, negated or not as the group asks. */
  predicate ValueCond(c: Cond, field: JsonField, negated: bool) {
    c.Exists? && c.field == field && c.inner.Some? && c.negate == negated
  }

  lemma {:induction false} EntriesAscend(conds: seq<Cond>, field: JsonField, negated: bool)
    ensures forall k :: 0 <= k < |Entries(conds, field, negated)| ==> Entries(conds, field, negated)[k].0 < |conds|
    ensures forall k, l :: 0 <= k < l < |Entries(conds, field, negated)| ==>
              Entries(conds, field, negated)[k].0 < Entries(conds, field, negated)[l].0
  {
    if conds != [] {
      EntriesAscend(conds[..|conds| - 1], field, negated);
    }
  }

  lemma {:induction false} AdditionsAreBatches(conds: seq<Cond>, keys: seq<JsonField>, negated: bool)
    ensures forall c :: c in Additions(conds, keys, negated) ==> c.ExistsAny?
  {
    if keys != [] {
      AdditionsAreBatches(conds, keys[1..], negated);
    }
  }

  /** Where a field has two such conditions none of them is left. */
  lemma PairsAreMerged(conds: seq<Cond>, field: JsonField, negated: bool, i: nat, j: nat)
    requires i < j < |conds| && ValueCond(conds[i], field, negated) && ValueCond(conds[j], field, negated)
    ensures forall c :: c in Merged(conds, negated) ==> !ValueCond(c, field, negated)
  {
    var entries := Entries(conds, field, negated);
    EntriesAre(conds, field, negated);
    assert (i, conds[i].inner.value) in entries && (j, conds[j].inner.value) in entries;
    assert |entries| >= 2;
    AdditionsAreBatches(conds, Keys(conds, negated), negated);
    forall c | c in Merged(conds, negated) ensures !ValueCond(c, field, negated) {
      if c in Kept(conds, |conds|, negated) {
        InKept(conds, |conds|, negated, c);
      }
    }
  }

  /** Every other condition stays. */
  lemma OthersStay(conds: seq<Cond>, negated: bool, i: nat)
    requires i < |conds|
    requires forall field, j :: 0 <= j < |conds| && j != i && ValueCond(conds[i], field, negated) ==>
               !ValueCond(conds[j], field, negated)
    ensures conds[i] in Merged(conds, negated)
  {
    if Replaced(conds, conds[i], negated) {
      var field := conds[i].field;
      var entries := Entries(conds, field, negated);
      EntriesAre(conds, field, negated);
      EntriesAscend(conds, field, negated);
      assert entries[0] in entries && entries[1] in entries && entries[0].0 < entries[1].0;
      assert ValueCond(conds[entries[0].0], field, negated) && ValueCond(conds[entries[1].0], field, negated);
      assert ValueCond(conds[i], field, negated);
      assert false;
    }
    InKept(conds, |conds|, negated, conds[i]);
    assert conds[..|conds|] == conds && conds[i] in conds;
  }

  /** Role fields are merged before tags, and within each kind in the order of their names. */
  lemma KeysByName(conds: seq<Cond>, negated: bool, i: nat, j: nat)
    requires i < j < |Keys(conds, negated)|
    ensures var a, b := Keys(conds, negated)[i], Keys(conds, negated)[j];
            (a.RoleField? && b.TagField?) || ((a.RoleField? <==> b.RoleField?) && TextBefore(a.name, b.name))
  {
    KeysAscending(conds, negated);
    var a, b := Keys(conds, negated)[i], Keys(conds, negated)[j];
    SamePrefix("role:", a.name, b.name);
    SamePrefix("tag:", a.name, b.name);
    assert ("role:" + a.name)[0] == 'r' && ("tag:" + a.name)[0] == 't';
    assert ("role:" + b.name)[0] == 'r' && ("tag:" + b.name)[0] == 't';
  }

  lemma {:induction false} SamePrefix(p: string, a: string, b: string)
    ensures TextBefore(p + a, p + b) <==> TextBefore(a, b)
  {
    if p == "" {
      assert p + a == a && p + b == b;
    } else {
      assert (p + a)[1..] == p[1..] + a && (p + b)[1..] == p[1..] + b;
      SamePrefix(p[1..], a, b);
    }
  }

  lemma AdditionsKnown(conds: seq<Cond>, negated: bool, row: Row)
    ensures !Has(Additions(conds, Keys(conds, negated), negated), row, Unknown)
  {
    forall c | c in Additions(conds, Keys(conds, negated), negated) ensures Eval(c, row) != Unknown {
      AdditionHit(conds, negated, row, c);
    }
  }

  lemma KeptUnknown(conds: seq<Cond>, negated: bool, row: Row)
    ensures Has(Kept(conds, |conds|, negated), row, Unknown) <==> Has(conds, row, Unknown)
  {
    var kept := Kept(conds, |conds|, negated);
    if Has(kept, row, Unknown) {
      var c :| c in kept && Eval(c, row) == Unknown;
      KeptHit(conds, negated, row, c);
    }
    if Has(conds, row, Unknown) {
      var c :| c in conds && Eval(c, row) == Unknown;
      assert conds[..|conds|] == conds;
      InKept(conds, |conds|, negated, c);
    }
  }

  lemma MergedUnknown(conds: seq<Cond>, negated: bool, row: Row)
    ensures Has(Merged(conds, negated), row, Unknown) <==> Has(conds, row, Unknown)
  {
    HasConcat(Kept(conds, |conds|, negated), Additions(conds, Keys(conds, negated), negated), row, Unknown);
    KeptUnknown(conds, negated, row);
    AdditionsKnown(conds, negated, row);
  }

  /** Merging negated conditions keeps the exact three-valued result of an AND group. */
  lemma MergeKeepsAnd(conds: seq<Cond>, row: Row)
    ensures Eval(And(Merged(conds, true)), row) == Eval(And(conds), row)
  {
    EvalOfAnd(conds, row);
    EvalOfAnd(Merged(conds, true), row);
    EvalAndIs(conds, row);
    EvalAndIs(Merged(conds, true), row);
    MergedHit(conds, true, row);
    MergedUnknown(conds, true, row);
  }

  /** Merging plain conditions keeps the exact three-valued result of an OR group. */
  lemma MergeKeepsOr(conds: seq<Cond>, row: Row)
    ensures Eval(Or(Merged(conds, false)), row) == Eval(Or(conds), row)
  {
    EvalOfOr(conds, row);
    EvalOfOr(Merged(conds, false), row);
    EvalOrIs(conds, row);
    EvalOrIs(Merged(conds, false), row);
    MergedHit(conds, false, row);
    MergedUnknown(conds, false, row);
  }

  /**
    n >= 2 conditions on one field become ceil(n / 350) subqueries of at most 350 each,
    and laid end to end these hold exactly the field's conditions in their order.
   */
  lemma BatchShape(conds: seq<Cond>, field: JsonField, negated: bool)
    requires |Entries(conds, field, negated)| >= 2
    ensures var b := Batches(conds, field, negated);
            && |b| == (|Entries(conds, field, negated)| + 349) / 350
            && (forall k :: 0 <= k < |b| ==>
                  b[k].ExistsAny? && b[k].field == field && b[k].negate == negated && 0 < |b[k].inners| <= 350)
            && Flatten(seq(|b|, k requires 0 <= k < |b| => if b[k].ExistsAny? then b[k].inners else []))
               == Inners(Entries(conds, field, negated))
  {
    var inners := Inners(Entries(conds, field, negated));
    var b := Batches(conds, field, negated);
    var chunks := Chunks(inners);
    ChunksPartition(inners);
    assert seq(|b|, k requires 0 <= k < |b| => if b[k].ExistsAny? then b[k].inners else []) == chunks;
  }

  // ---------------------------------------------------------------- the loops

  lemma {:induction false} EntriesGrow(conds: seq<Cond>, n: nat, field: JsonField, negated: bool)
    requires n < |conds|
    ensures Entries(conds[..n + 1], field, negated) ==
            if Mergeable(conds[n], negated) && conds[n].field == field
            then Entries(conds[..n], field, negated) + [(n, conds[n].inner.value)]
            else Entries(conds[..n], field, negated)
  {
    assert conds[..n + 1][..n] == conds[..n];
  }

  lemma KeysGrow(conds: seq<Cond>, n: nat, negated: bool)
    requires n < |conds|
    ensures Keys(conds[..n + 1], negated) ==
            var front := Keys(conds[..n], negated);
            if Mergeable(conds[n], negated) && conds[n].field !in front then InsertKey(conds[n].field, front)
            else front
  {
    assert conds[..n + 1][..n] == conds[..n];
  }

  type Groups = map<JsonField, seq<(nat, Inner)>>

  ghost predicate GroupsFor(conds: seq<Cond>, negated: bool, groups: Groups, keys: seq<JsonField>) {
    && keys == Keys(conds, negated)
    && (forall f :: f in groups <==> f in keys)
    && (forall f :: f in groups ==> groups[f] == Entries(conds, f, negated))
  }

  /** The entries recorded for a field so far. */
  function GroupOf(groups: Groups, f: JsonField): seq<(nat, Inner)> {
    if f in groups then groups[f] else []
  }

  lemma GroupOfIs(conds: seq<Cond>, negated: bool, groups: Groups, keys: seq<JsonField>, f: JsonField)
    requires GroupsFor(conds, negated, groups, keys)
    ensures GroupOf(groups, f) == Entries(conds, f, negated)
  {
    KeysAre(conds, negated);
  }

  /** What one more condition does to the group of a field. */
  lemma GroupNext(conds: seq<Cond>, n: nat, negated: bool, groups: Groups, keys: seq<JsonField>, f: JsonField)
    requires n < |conds| && GroupsFor(conds[..n], negated, groups, keys) && Mergeable(conds[n], negated)
    ensures Entries(conds[..n + 1], f, negated) ==
            if f == conds[n].field then GroupOf(groups, f) + [(n, conds[n].inner.value)] else GroupOf(groups, f)
  {
    EntriesGrow(conds, n, f, negated);
    GroupOfIs(conds[..n], negated, groups, keys, f);
  }

  lemma GroupGrows(conds: seq<Cond>, n: nat, negated: bool, groups: Groups, keys: seq<JsonField>,
                   groups': Groups, keys': seq<JsonField>)
    requires n < |conds| && GroupsFor(conds[..n], negated, groups, keys) && Mergeable(conds[n], negated)
    requires groups' == groups[conds[n].field := GroupOf(groups, conds[n].field) + [(n, conds[n].inner.value)]]
    requires conds[n].field in groups ==> keys' == keys
    requires conds[n].field !in groups ==> keys' == InsertKey(conds[n].field, keys)
    ensures GroupsFor(conds[..n + 1], negated, groups', keys')
  {
    KeysGrow(conds, n, negated);
    assert groups'.Keys == groups.Keys + {conds[n].field};
    forall f | f in groups' ensures groups'[f] == Entries(conds[..n + 1], f, negated) {
      GroupNext(conds, n, negated, groups, keys, f);
    }
  }

  lemma GroupsStay(conds: seq<Cond>, n: nat, negated: bool, groups: Groups, keys: seq<JsonField>)
    requires n < |conds| && GroupsFor(conds[..n], negated, groups, keys) && !Mergeable(conds[n], negated)
    ensures GroupsFor(conds[..n + 1], negated, groups, keys)
  {
    KeysGrow(conds, n, negated);
    forall f | f in groups ensures groups[f] == Entries(conds[..n + 1], f, negated) {
      EntriesGrow(conds, n, f, negated);
    }
  }

  /** First pass: the groups, and their keys in sorted order. */
  method CollectGroups(conds: seq<Cond>, negated: bool) returns (groups: Groups, keys: seq<JsonField>)
    ensures GroupsFor(conds, negated, groups, keys) && Ascending(keys)
  {
    groups, keys := map[], [];
    var i := 0;
    while i < |conds|
      invariant i <= |conds|
      invariant GroupsFor(conds[..i], negated, groups, keys)
    {
      var c := conds[i];
      ghost var groups0, keys0 := groups, keys;
      if Mergeable(c, negated) {
        if c.field !in groups {
          groups := groups[c.field := []];
          keys := InsertKey(c.field, keys);
        }
        groups := groups[c.field := groups[c.field] + [(i, c.inner.value)]];
        GroupGrows(conds, i, negated, groups0, keys0, groups, keys);
      } else {
        GroupsStay(conds, i, negated, groups, keys);
      }
      i := i + 1;
    }
    KeysAscending(conds, negated);
    assert conds[..|conds|] == conds;
  }

  lemma {:induction false} AdditionsGrow(conds: seq<Cond>, keys: seq<JsonField>, n: nat, negated: bool)
    requires n < |keys|
    ensures Additions(conds, keys[..n + 1], negated) ==
            Additions(conds, keys[..n], negated) + Batches(conds, keys[n], negated)
  {
    if n == 0 {
      assert keys[..1] == [keys[0]] && keys[..1][1..] == [] && keys[..0] == [];
    } else {
      assert keys[..n + 1][1..] == keys[1..][..n];
      assert keys[..n][1..] == keys[1..][..n - 1];
      AdditionsGrow(conds, keys[1..], n - 1, negated);
    }
  }

  ghost predicate RemovedFor(conds: seq<Cond>, keys: seq<JsonField>, negated: bool, remove: set<nat>) {
    forall i: nat :: i in remove <==> i < |conds| && Replaced(conds, conds[i], negated) && conds[i].field in keys
  }

  function Indices(entries: seq<(nat, Inner)>): set<nat> {
    set e: (nat, Inner) | e in entries :: e.0
  }

  lemma InIndices(conds: seq<Cond>, field: JsonField, negated: bool, i: nat)
    ensures i in Indices(Entries(conds, field, negated)) <==>
            i < |conds| && Mergeable(conds[i], negated) && conds[i].field == field
  {
    EntriesAre(conds, field, negated);
    if i < |conds| && Mergeable(conds[i], negated) && conds[i].field == field {
      assert (i, conds[i].inner.value) in Entries(conds, field, negated);
    }
  }

  lemma RemovedGrow(conds: seq<Cond>, keys: seq<JsonField>, n: nat, negated: bool, remove: set<nat>)
    requires n < |keys| && RemovedFor(conds, keys[..n], negated, remove)
    ensures var entries := Entries(conds, keys[n], negated);
            RemovedFor(conds, keys[..n + 1], negated, if |entries| < 2 then remove else remove + Indices(entries))
  {
    assert keys[..n + 1] == keys[..n] + [keys[n]];
    forall i: nat ensures i in Indices(Entries(conds, keys[n], negated)) <==>
                     i < |conds| && Mergeable(conds[i], negated) && conds[i].field == keys[n]
    {
      InIndices(conds, keys[n], negated, i);
    }
  }

  lemma RemovedAll(conds: seq<Cond>, negated: bool, remove: set<nat>, i: nat)
    requires RemovedFor(conds, Keys(conds, negated), negated, remove) && i < |conds|
    ensures i in remove <==> Replaced(conds, conds[i], negated)
  {
    KeysAre(conds, negated);
  }

  lemma RemovedSome(conds: seq<Cond>, negated: bool, remove: set<nat>)
    requires RemovedFor(conds, Keys(conds, negated), negated, remove)
    ensures remove != {} <==> exists f :: |Entries(conds, f, negated)| >= 2
  {
    if f :| |Entries(conds, f, negated)| >= 2 {
      var e := Entries(conds, f, negated)[0];
      EntriesAre(conds, f, negated);
      assert e in Entries(conds, f, negated);
      RemovedAll(conds, negated, remove, e.0);
    }
    if i :| i in remove {
      RemovedAll(conds, negated, remove, i);
    }
  }

  lemma SubqueriesNext(field: JsonField, inners: seq<Inner>, at: nat, end: nat, negated: bool)
    requires at < |inners| && end == Min(at + BATCH_SIZE, |inners|)
    ensures Subqueries(field, Chunks(inners[at..]), negated) ==
            [ExistsAny(field, inners[at..end], negated)] + Subqueries(field, Chunks(inners[end..]), negated)
  {
    var rest := inners[at..];
    if |rest| > BATCH_SIZE {
      assert rest[..BATCH_SIZE] == inners[at..end] && rest[BATCH_SIZE..] == inners[end..];
    } else {
      assert rest == inners[at..end] && inners[end..] == [];
    }
  }

  /** slices.Chunk over one group: a subquery for each batch. */
  method AppendBatches(field: JsonField, inners: seq<Inner>, negated: bool, before: seq<Cond>)
    returns (additions: seq<Cond>)
    ensures additions == before + Subqueries(field, Chunks(inners), negated)
  {
    additions := before;
    var at := 0;
    assert inners[0..] == inners;
    while at < |inners|
      invariant at <= |inners|
      invariant additions + Subqueries(field, Chunks(inners[at..]), negated) ==
                before + Subqueries(field, Chunks(inners), negated)
    {
      var end := Min(at + BATCH_SIZE, |inners|);
      SubqueriesNext(field, inners, at, end, negated);
      additions := additions + [ExistsAny(field, inners[at..end], negated)];
      at := end;
    }
    assert inners[at..] == [];
  }

  /** The second pass over the sorted keys: what to drop and what to append. */
  method BuildAdditions(conds: seq<Cond>, negated: bool, groups: Groups, keys: seq<JsonField>)
    returns (remove: set<nat>, additions: seq<Cond>)
    requires GroupsFor(conds, negated, groups, keys)
    ensures RemovedFor(conds, keys, negated, remove)
    ensures additions == Additions(conds, keys, negated)
  {
    remove, additions := {}, [];
    var k := 0;
    while k < |keys|
      invariant k <= |keys|
      invariant additions == Additions(conds, keys[..k], negated)
      invariant RemovedFor(conds, keys[..k], negated, remove)
    {
      var entries := groups[keys[k]];
      AdditionsGrow(conds, keys, k, negated);
      RemovedGrow(conds, keys, k, negated, remove);
      if |entries| >= 2 {
        remove := remove + Indices(entries);
        additions := AppendBatches(keys[k], Inners(entries), negated, additions);
      }
      k := k + 1;
    }
    assert keys[..|keys|] == keys;
  }

  method KeepOthers(conds: seq<Cond>, negated: bool, remove: set<nat>) returns (kept: seq<Cond>)
    requires RemovedFor(conds, Keys(conds, negated), negated, remove)
    ensures kept == Kept(conds, |conds|, negated)
  {
    kept := [];
    var i := 0;
    while i < |conds|
      invariant i <= |conds|
      invariant kept == Kept(conds, i, negated)
    {
      RemovedAll(conds, negated, remove, i);
      if i !in remove {
        kept := kept + [conds[i]];
      }
      i := i + 1;
    }
  }

  /** mergeSameFieldConds: groups, then removals and additions, then the rewritten list. */
  method MergeSameFieldConds(conds: seq<Cond>, negated: bool) returns (result: seq<Cond>, changed: bool)
    ensures changed <==> exists f :: |Entries(conds, f, negated)| >= 2
    ensures result == if changed then Merged(conds, negated) else conds
  {
    var groups, keys := CollectGroups(conds, negated);
    var remove, additions := BuildAdditions(conds, negated, groups, keys);
    RemovedSome(conds, negated, remove);
    if remove == {} {
      return conds, false;
    }
    var kept := KeepOthers(conds, negated, remove);
    result, changed := kept + additions, true;
  }

  /** When nothing merges, the merged list is the input itself, so callers may use it either way. */
  lemma MergedWithoutGroups(conds: seq<Cond>, negated: bool)
    requires forall f :: |Entries(conds, f, negated)| < 2
    ensures Merged(conds, negated) == conds
  {
    KeepAll(conds, |conds|, negated);
    AddNothing(conds, Keys(conds, negated), negated);
    assert conds[..|conds|] == conds;
  }

  lemma {:induction false} KeepAll(conds: seq<Cond>, n: nat, negated: bool)
    requires n <= |conds| && forall f :: |Entries(conds, f, negated)| < 2
    ensures Kept(conds, n, negated) == conds[..n]
  {
    if n > 0 {
      KeepAll(conds, n - 1, negated);
      assert conds[..n] == conds[..n - 1] + [conds[n - 1]];
    }
  }

  lemma {:induction false} AddNothing(conds: seq<Cond>, keys: seq<JsonField>, negated: bool)
    requires forall f :: |Entries(conds, f, negated)| < 2
    ensures Additions(conds, keys, negated) == []
  {
    if keys != [] {
      AddNothing(conds, keys[1..], negated);
    }
  }
}
