/**
  Cue end times: missing ends are filled from the next cue of the same agent, then from a
  fallback, and clamped; within one agent either every cue has an end or none has.
 */
module CueEnds {
  import opened Prelude
  import opened LyricsText

  // ---------------------------------------------------------------- one group

  function NextStart(cues: seq<Cue>, i: nat): Option<int> {
    if i + 1 < |cues| then cues[i + 1].start else None
  }

  /** Is there anything to take this cue's end from? */
  predicate Resolvable(cues: seq<Cue>, i: nat, fallback: Option<int>)
    requires i < |cues|
  {
    cues[i].end.Some? || NextStart(cues, i).Some? || fallback.Some?
  }

  function Candidate(end: Option<int>, next: Option<int>, fallback: Option<int>): Option<int> {
    if end.Some? then end else if next.Some? then next else fallback
  }

  /** At most the next start, and then at least the own start. */
  function Clamp(end: Option<int>, start: Option<int>, next: Option<int>): (r: Option<int>)
    ensures r.Some? == end.Some?
  {
    if end.None? then end
    else
      var v := if next.Some? then Min(end.value, next.value) else end.value;
      Some(if start.Some? then Max(v, start.value) else v)
  }

  function EndOf(cues: seq<Cue>, i: nat, fallback: Option<int>): Option<int>
    requires i < |cues|
  {
    Clamp(Candidate(cues[i].end, NextStart(cues, i), fallback), cues[i].start, NextStart(cues, i))
  }

  function WithEnd(c: Cue, end: Option<int>): Cue { c.(end := end) }

  function Filled(cues: seq<Cue>, fallback: Option<int>): (r: seq<Cue>)
    ensures |r| == |cues|
    ensures forall i :: 0 <= i < |cues| ==> r[i] == WithEnd(cues[i], EndOf(cues, i, fallback))
  {
    seq(|cues|, i requires 0 <= i < |cues| => WithEnd(cues[i], EndOf(cues, i, fallback)))
  }

  function Cleared(cues: seq<Cue>): (r: seq<Cue>)
    ensures |r| == |cues|
    ensures forall i :: 0 <= i < |cues| ==> r[i] == WithEnd(cues[i], None)
  {
    seq(|cues|, i requires 0 <= i < |cues| => WithEnd(cues[i], None))
  }

  predicate AllEnded(cues: seq<Cue>) { forall i :: 0 <= i < |cues| ==> cues[i].end.Some? }

  predicate NoneEnded(cues: seq<Cue>) { forall i :: 0 <= i < |cues| ==> cues[i].end.None? }

  predicate AllResolvable(cues: seq<Cue>, fallback: Option<int>) {
    forall i :: 0 <= i < |cues| ==> Resolvable(cues, i, fallback)
  }

  function Normalized(cues: seq<Cue>, fallback: Option<int>): (r: seq<Cue>)
    ensures |r| == |cues|
  {
    if AllEnded(Filled(cues, fallback)) then Filled(cues, fallback) else Cleared(cues)
  }

  lemma FilledEnded(cues: seq<Cue>, fallback: Option<int>)
    ensures AllEnded(Filled(cues, fallback)) <==> AllResolvable(cues, fallback)
  {
    var f := Filled(cues, fallback);
    assert forall i :: 0 <= i < |cues| ==> f[i].end.Some? == Resolvable(cues, i, fallback);
  }

  /** Only the ends differ. */
  predicate SameButEnds(a: seq<Cue>, b: seq<Cue>) {
    |a| == |b| && forall i :: 0 <= i < |a| ==> b[i] == WithEnd(a[i], b[i].end)
  }

  /** Ends are all-or-none, and there are ends exactly when each cue had one to take. */
  lemma AllOrNone(cues: seq<Cue>, fallback: Option<int>)
    ensures AllResolvable(cues, fallback) ==> AllEnded(Normalized(cues, fallback))
    ensures !AllResolvable(cues, fallback) ==> NoneEnded(Normalized(cues, fallback))
    ensures SameButEnds(cues, Normalized(cues, fallback))
  {
    FilledEnded(cues, fallback);
  }

  predicate Within(c: Cue, next: Option<int>) {
    c.end.Some? ==>
      && (c.start.Some? ==> c.start.value <= c.end.value)
      && (next.Some? && c.start.Some? ==> c.end.value <= Max(c.start.value, next.value))
      && (next.Some? && c.start.None? ==> c.end.value <= next.value)
  }

  lemma EndOfWithin(cues: seq<Cue>, i: nat, fallback: Option<int>)
    requires i < |cues|
    ensures Within(WithEnd(cues[i], EndOf(cues, i, fallback)), NextStart(cues, i))
  {
  }

  /** Every resolved end lies between its own start and the later of that and the next start. */
  lemma EndsWithin(cues: seq<Cue>, fallback: Option<int>, i: nat)
    requires i < |cues|
    ensures Within(Normalized(cues, fallback)[i], NextStart(Normalized(cues, fallback), i))
  {
    EndOfWithin(cues, i, fallback);
  }

  /** The cue has an end, or the next one has a start, or there is a fallback. */
  predicate HasSource(cues: seq<Cue>, k: nat, fallback: Option<int>)
    requires k < |cues|
  {
    cues[k].end.Some? || (k + 1 < |cues| && cues[k + 1].start.Some?) || fallback.Some?
  }

  /**
    Where each end comes from when all can be filled: the given one, or the next start, or the
    fallback; cut at the next start, and never before the own start.
   */
  lemma EndTable(cues: seq<Cue>, fallback: Option<int>, i: nat)
    requires i < |cues|
    requires forall k :: 0 <= k < |cues| ==> HasSource(cues, k, fallback)
    ensures var c, end := cues[i], Normalized(cues, fallback)[i].end;
            var hasNext := i + 1 < |cues| && cues[i + 1].start.Some?;
            && end.Some?
            && (hasNext ==>
                  var next := cues[i + 1].start.value;
                  && (c.start.Some? && c.start.value >= next ==> end == c.start)
                  && (c.end.None? && (c.start.None? || c.start.value < next) ==> end == Some(next))
                  && (c.end.Some? && c.end.value >= next && (c.start.None? || c.start.value < next) ==> end == Some(next))
                  && (c.end.Some? && c.end.value < next && (c.start.None? || c.start.value <= c.end.value) ==> end == c.end)
                  && (c.end.Some? && c.end.value < next && c.start.Some? && c.end.value < c.start.value ==> end == c.start))
            && (!hasNext ==>
                  var given := if c.end.Some? then c.end.value else fallback.value;
                  end == if c.start.Some? && given < c.start.value then c.start else Some(given))
  {
    forall k | 0 <= k < |cues| ensures Resolvable(cues, k, fallback) {
      assert HasSource(cues, k, fallback);
    }
    FilledEnded(cues, fallback);
  }

  /** An end that was given and fits stays as it was given. */
  lemma FittingEndsStay(cues: seq<Cue>, fallback: Option<int>, i: nat)
    requires i < |cues| && cues[i].end.Some? && AllResolvable(cues, fallback)
    ensures Within(cues[i], NextStart(cues, i)) <==> Normalized(cues, fallback)[i] == cues[i]
  {
    FilledEnded(cues, fallback);
    EndOfWithin(cues, i, fallback);
  }

  lemma FilledTwice(cues: seq<Cue>, fallback: Option<int>)
    requires AllEnded(Filled(cues, fallback))
    ensures Filled(Filled(cues, fallback), fallback) == Filled(cues, fallback)
  {
    var f := Filled(cues, fallback);
    forall i | 0 <= i < |cues| ensures Filled(f, fallback)[i] == f[i] {
      EndOfWithin(cues, i, fallback);
      assert f[i].start == cues[i].start && f[i].end.Some?;
      assert NextStart(f, i) == NextStart(cues, i);
    }
  }

  /** Normalising twice is normalising once. */
  lemma NormalizedTwice(cues: seq<Cue>, fallback: Option<int>)
    ensures Normalized(Normalized(cues, fallback), fallback) == Normalized(cues, fallback)
  {
    FilledEnded(cues, fallback);
    if AllEnded(Filled(cues, fallback)) {
      FilledTwice(cues, fallback);
    } else {
      var i :| 0 <= i < |cues| && !Resolvable(cues, i, fallback);
      var c := Cleared(cues);
      assert NextStart(c, i) == NextStart(cues, i);
      assert Filled(c, fallback)[i].end.None?;
      assert Cleared(c) == c;
    }
  }

  // ---------------------------------------------------------------- the loops

  method FillOne(c: Cue, next: Option<int>, fallback: Option<int>) returns (r: Cue)
    ensures r == WithEnd(c, Clamp(Candidate(c.end, next, fallback), c.start, next))
  {
    var end := c.end;
    if end.None? {
      if next.Some? {
        end := next;
      } else {
        end := fallback;
      }
    }
    if end.Some? && next.Some? && end.value > next.value {
      end := next;
    }
    if end.Some? && c.start.Some? && end.value < c.start.value {
      end := c.start;
    }
    return c.(end := end);
  }

  method ClearEnds(cues: seq<Cue>) returns (out: seq<Cue>)
    ensures out == Cleared(cues)
  {
    out := cues;
    for j := 0 to |cues|
      invariant |out| == |cues|
      invariant forall k :: 0 <= k < |cues| ==> out[k] == if k < j then WithEnd(cues[k], None) else cues[k]
    {
      out := out[j := out[j].(end := None)];
    }
  }

  method FillEnds(cues: seq<Cue>, fallback: Option<int>) returns (out: seq<Cue>)
    ensures out == Filled(cues, fallback)
  {
    out := cues;
    for i := 0 to |cues|
      invariant |out| == |cues|
      invariant forall k :: 0 <= k < i ==> out[k] == WithEnd(cues[k], EndOf(cues, k, fallback))
      invariant forall k :: i <= k < |cues| ==> out[k] == cues[k]
    {
      assert NextStart(out, i) == NextStart(cues, i);
      var c := FillOne(out[i], NextStart(out, i), fallback);
      out := out[i := c];
    }
  }

  method ClearUnlessAllEnded(cues: seq<Cue>) returns (out: seq<Cue>)
    ensures AllEnded(cues) ==> out == cues
    ensures !AllEnded(cues) ==> out == Cleared(cues)
  {
    for i := 0 to |cues|
      invariant forall k :: 0 <= k < i ==> cues[k].end.Some?
    {
      if cues[i].end.None? {
        out := ClearEnds(cues);
        return;
      }
    }
    out := cues;
  }

  lemma ClearedFilled(cues: seq<Cue>, fallback: Option<int>)
    ensures Cleared(Filled(cues, fallback)) == Cleared(cues)
  {
  }

  /** NormalizeCueEnds. */
  method NormalizeCueEnds(cues: seq<Cue>, fallback: Option<int>) returns (out: seq<Cue>)
    ensures out == Normalized(cues, fallback)
  {
    if cues == [] {
      return cues;
    }
    out := FillEnds(cues, fallback);
    out := ClearUnlessAllEnded(out);
    ClearedFilled(cues, fallback);
  }

  // ---------------------------------------------------------------- per agent

  /** Positions of an agent's cues, ascending. */
  function Indices(cues: seq<Cue>, agent: string): seq<nat> {
    if cues == [] then []
    else
      var n := |cues| - 1;
      Indices(cues[..n], agent) + (if cues[n].agent == agent then [n] else [])
  }

  /** An agent's own subsequence. */
  function Project(cues: seq<Cue>, agent: string): seq<Cue> {
    if cues == [] then []
    else
      var n := |cues| - 1;
      Project(cues[..n], agent) + (if cues[n].agent == agent then [cues[n]] else [])
  }

  /** Number of earlier cues of the same agent. */
  function Rank(cues: seq<Cue>, i: nat): nat
    requires i < |cues|
  {
    |Indices(cues[..i], cues[i].agent)|
  }

  lemma {:induction false} ProjectIsGather(cues: seq<Cue>, agent: string)
    ensures |Project(cues, agent)| == |Indices(cues, agent)|
    ensures forall g :: 0 <= g < |Indices(cues, agent)| ==>
              && Indices(cues, agent)[g] < |cues|
              && cues[Indices(cues, agent)[g]].agent == agent
              && Project(cues, agent)[g] == cues[Indices(cues, agent)[g]]
  {
    if cues != [] {
      ProjectIsGather(cues[..|cues| - 1], agent);
    }
  }

  lemma {:induction false} IndicesAtRank(cues: seq<Cue>, i: nat)
    requires i < |cues|
    ensures Rank(cues, i) < |Indices(cues, cues[i].agent)| && Indices(cues, cues[i].agent)[Rank(cues, i)] == i
  {
    var n := |cues| - 1;
    if i < n {
      IndicesAtRank(cues[..n], i);
      assert cues[..n][..i] == cues[..i];
    }
  }

  lemma {:induction false} RankOfIndex(cues: seq<Cue>, agent: string, g: nat)
    requires g < |Indices(cues, agent)|
    ensures var i := Indices(cues, agent)[g]; i < |cues| && cues[i].agent == agent && Rank(cues, i) == g
  {
    var n := |cues| - 1;
    if g < |Indices(cues[..n], agent)| {
      RankOfIndex(cues[..n], agent, g);
      var i := Indices(cues[..n], agent)[g];
      assert cues[..n][..i] == cues[..i];
    }
  }

  lemma RankInProject(cues: seq<Cue>, i: nat)
    requires i < |cues|
    ensures Rank(cues, i) < |Project(cues, cues[i].agent)|
    ensures Project(cues, cues[i].agent)[Rank(cues, i)] == cues[i]
  {
    IndicesAtRank(cues, i);
    ProjectIsGather(cues, cues[i].agent);
  }

  predicate SameAgents(a: seq<Cue>, b: seq<Cue>) {
    |a| == |b| && forall i :: 0 <= i < |a| ==> a[i].agent == b[i].agent
  }

  lemma {:induction false} SameIndices(a: seq<Cue>, b: seq<Cue>, agent: string)
    requires SameAgents(a, b)
    ensures Indices(a, agent) == Indices(b, agent)
  {
    if a != [] {
      SameIndices(a[..|a| - 1], b[..|b| - 1], agent);
    }
  }

  /** What the projections say determines the whole list. */
  lemma ProjectionsDetermine(a: seq<Cue>, b: seq<Cue>)
    requires SameAgents(a, b) && forall agent :: Project(a, agent) == Project(b, agent)
    ensures a == b
  {
    forall i | 0 <= i < |a| ensures a[i] == b[i] {
      RankInProject(a, i);
      RankInProject(b, i);
      assert SameAgents(a[..i], b[..i]);
      SameIndices(a[..i], b[..i], a[i].agent);
    }
  }

  /** The end a cue gets: the one it gets in its own agent's subsequence. */
  function Resolved(cues: seq<Cue>, i: nat, fallback: Option<int>): Cue
    requires i < |cues|
  {
    RankInProject(cues, i);
    Normalized(Project(cues, cues[i].agent), fallback)[Rank(cues, i)]
  }

  function ByAgent(cues: seq<Cue>, fallback: Option<int>): (r: seq<Cue>)
    ensures |r| == |cues|
    ensures forall i :: 0 <= i < |cues| ==> r[i] == Resolved(cues, i, fallback)
  {
    seq(|cues|, i requires 0 <= i < |cues| => Resolved(cues, i, fallback))
  }

  lemma ResolvedSameButEnd(cues: seq<Cue>, i: nat, fallback: Option<int>)
    requires i < |cues|
    ensures Resolved(cues, i, fallback) == WithEnd(cues[i], Resolved(cues, i, fallback).end)
  {
    RankInProject(cues, i);
    AllOrNone(Project(cues, cues[i].agent), fallback);
  }

  lemma ByAgentSame(cues: seq<Cue>, fallback: Option<int>)
    ensures SameButEnds(cues, ByAgent(cues, fallback)) && SameAgents(cues, ByAgent(cues, fallback))
  {
    forall i | 0 <= i < |cues|
      ensures ByAgent(cues, fallback)[i] == WithEnd(cues[i], ByAgent(cues, fallback)[i].end)
    {
      ResolvedSameButEnd(cues, i, fallback);
    }
  }

  /** For each agent, normalising by agent is normalising that agent's own subsequence. */
  lemma ByAgentProjects(cues: seq<Cue>, fallback: Option<int>, agent: string)
    ensures Project(ByAgent(cues, fallback), agent) == Normalized(Project(cues, agent), fallback)
  {
    var out := ByAgent(cues, fallback);
    ByAgentSame(cues, fallback);
    SameIndices(cues, out, agent);
    ProjectIsGather(cues, agent);
    ProjectIsGather(out, agent);
    forall g | 0 <= g < |Indices(cues, agent)|
      ensures Project(out, agent)[g] == Normalized(Project(cues, agent), fallback)[g]
    {
      RankOfIndex(cues, agent, g);
    }
  }

  /** A second application changes nothing. */
  lemma ByAgentTwice(cues: seq<Cue>, fallback: Option<int>)
    ensures ByAgent(ByAgent(cues, fallback), fallback) == ByAgent(cues, fallback)
  {
    var once := ByAgent(cues, fallback);
    var twice := ByAgent(once, fallback);
    ByAgentSame(cues, fallback);
    ByAgentSame(once, fallback);
    forall agent ensures Project(twice, agent) == Project(once, agent) {
      ByAgentProjects(cues, fallback, agent);
      ByAgentProjects(once, fallback, agent);
      NormalizedTwice(Project(cues, agent), fallback);
    }
    ProjectionsDetermine(twice, once);
  }

  /** Ends are all-or-none per agent, and lie within the agent's own neighbours. */
  lemma ByAgentEnds(cues: seq<Cue>, fallback: Option<int>, agent: string)
    ensures var mine := Project(ByAgent(cues, fallback), agent);
            && (if AllResolvable(Project(cues, agent), fallback) then AllEnded(mine) else NoneEnded(mine))
            && forall g :: 0 <= g < |mine| ==> Within(mine[g], NextStart(mine, g))
  {
    ByAgentProjects(cues, fallback, agent);
    AllOrNone(Project(cues, agent), fallback);
    forall g | 0 <= g < |Project(cues, agent)|
      ensures Within(Normalized(Project(cues, agent), fallback)[g],
                     NextStart(Normalized(Project(cues, agent), fallback), g))
    {
      EndsWithin(Project(cues, agent), fallback, g);
    }
  }

  // ---------------------------------------------------------------- grouping loops

  predicate AgentsIn(cues: seq<Cue>, ids: set<string>) {
    forall i :: 0 <= i < |cues| ==> cues[i].agent in ids
  }

  /** Each group lists exactly its agent's positions, and every agent has a group. */
  ghost predicate GroupsOf(cues: seq<Cue>, groups: map<string, seq<nat>>) {
    && (forall id :: id in groups ==> groups[id] == Indices(cues, id))
    && AgentsIn(cues, groups.Keys)
  }

  ghost predicate Lists(order: seq<string>, ids: set<string>) {
    && (forall id :: id in ids <==> id in order)
    && (forall k, l :: 0 <= k < l < |order| ==> order[k] != order[l])
  }

  lemma IndicesNext(cues: seq<Cue>, i: nat, id: string)
    requires i < |cues|
    ensures cues[i].agent == id ==> Indices(cues[..i + 1], id) == Indices(cues[..i], id) + [i]
    ensures cues[i].agent != id ==> Indices(cues[..i + 1], id) == Indices(cues[..i], id)
  {
    assert cues[..i + 1][..i] == cues[..i];
  }

  lemma {:induction false} NoIndices(cues: seq<Cue>, id: string)
    requires forall i :: 0 <= i < |cues| ==> cues[i].agent != id
    ensures Indices(cues, id) == []
  {
    if cues != [] {
      NoIndices(cues[..|cues| - 1], id);
    }
  }

  lemma AgentsGrow(cues: seq<Cue>, i: nat, before: set<string>, after: set<string>)
    requires i < |cues| && before <= after && cues[i].agent in after
    requires AgentsIn(cues[..i], before)
    ensures AgentsIn(cues[..i + 1], after)
  {
    forall k | 0 <= k < i ensures cues[k].agent in before {
      assert cues[..i][k] == cues[k];
    }
  }

  /** The positions an agent without a group yet has: none. */
  function Had(groups: map<string, seq<nat>>, id: string): seq<nat> {
    if id in groups then groups[id] else []
  }

  lemma HadIsIndices(cues: seq<Cue>, groups: map<string, seq<nat>>, id: string)
    requires GroupsOf(cues, groups)
    ensures Had(groups, id) == Indices(cues, id)
  {
    if id !in groups {
      NoIndices(cues, id);
    }
  }

  lemma GroupGrows(cues: seq<Cue>, i: nat, groups: map<string, seq<nat>>, grown: map<string, seq<nat>>)
    requires i < |cues| && GroupsOf(cues[..i], groups)
    requires grown == groups[cues[i].agent := Had(groups, cues[i].agent) + [i]]
    ensures GroupsOf(cues[..i + 1], grown)
  {
    forall id | id in grown ensures grown[id] == Indices(cues[..i + 1], id) {
      HadIsIndices(cues[..i], groups, id);
      IndicesNext(cues, i, id);
    }
    AgentsGrow(cues, i, groups.Keys, grown.Keys);
  }

  method Group(cues: seq<Cue>) returns (groups: map<string, seq<nat>>, order: seq<string>)
    ensures GroupsOf(cues, groups) && Lists(order, groups.Keys)
  {
    groups, order := map[], [];
    for i := 0 to |cues|
      invariant GroupsOf(cues[..i], groups) && Lists(order, groups.Keys)
    {
      ghost var before := groups;
      groups, order := AddToGroup(cues[i].agent, i, groups, order);
      GroupGrows(cues, i, before, groups);
    }
    assert cues[..|cues|] == cues;
  }

  method AddToGroup(id: string, i: nat, groups: map<string, seq<nat>>, order: seq<string>)
    returns (groups': map<string, seq<nat>>, order': seq<string>)
    requires Lists(order, groups.Keys)
    ensures Lists(order', groups'.Keys)
    ensures groups' == groups[id := Had(groups, id) + [i]]
  {
    groups', order' := groups, order;
    if id !in groups {
      order' := order + [id];
      groups' := groups'[id := []];
    }
    groups' := groups'[id := groups'[id] + [i]];
  }

  method Gather(cues: seq<Cue>, idxs: seq<nat>, ghost id: string) returns (group: seq<Cue>)
    requires idxs == Indices(cues, id)
    ensures group == Project(cues, id)
  {
    ProjectIsGather(cues, id);
    group := [];
    for g := 0 to |idxs|
      invariant group == Project(cues, id)[..g]
    {
      group := group + [cues[idxs[g]]];
    }
  }

  /** Writes the group back: exactly the agent's positions change. */
  method Scatter(out: seq<Cue>, idxs: seq<nat>, group: seq<Cue>, ghost cues: seq<Cue>, ghost id: string)
    returns (r: seq<Cue>)
    requires |out| == |cues| && idxs == Indices(cues, id) && |group| == |idxs|
    ensures |r| == |out|
    ensures forall i :: 0 <= i < |r| && cues[i].agent != id ==> r[i] == out[i]
    ensures forall i :: 0 <= i < |r| && cues[i].agent == id ==> Rank(cues, i) < |group| && r[i] == group[Rank(cues, i)]
  {
    r := out;
    ProjectIsGather(cues, id);
    for g := 0 to |idxs|
      invariant |r| == |out|
      invariant forall i :: 0 <= i < |r| && cues[i].agent != id ==> r[i] == out[i]
      invariant forall i :: 0 <= i < |r| && cues[i].agent == id && Rank(cues, i) < g ==> r[i] == group[Rank(cues, i)]
    {
      RankOfIndex(cues, id, g);
      forall i | 0 <= i < |r| && cues[i].agent == id && Rank(cues, i) == g ensures i == idxs[g] {
        IndicesAtRank(cues, i);
      }
      r := r[idxs[g] := group[g]];
    }
    forall i | 0 <= i < |r| && cues[i].agent == id ensures Rank(cues, i) < |group| {
      IndicesAtRank(cues, i);
    }
  }

  lemma {:induction false} OneAgentIndices(cues: seq<Cue>, id: string)
    requires forall i :: 0 <= i < |cues| ==> cues[i].agent == id
    ensures |Indices(cues, id)| == |cues| && Project(cues, id) == cues
  {
    if cues != [] {
      var n := |cues| - 1;
      assert cues[n].agent == id;
      OneAgentIndices(cues[..n], id);
      assert cues == cues[..n] + [cues[n]];
    }
  }

  /** With a single agent the plain normalisation already is the one by agent. */
  lemma OneAgent(cues: seq<Cue>, fallback: Option<int>, id: string)
    requires forall i :: 0 <= i < |cues| ==> cues[i].agent == id
    ensures ByAgent(cues, fallback) == Normalized(cues, fallback)
  {
    OneAgentIndices(cues, id);
    forall i | 0 <= i < |cues| ensures Rank(cues, i) == i {
      OneAgentIndices(cues[..i], id);
    }
  }

  /** Agents named in `done` are resolved, the others are untouched. */
  ghost predicate ResolvedFor(cues: seq<Cue>, out: seq<Cue>, done: seq<string>, fallback: Option<int>) {
    && |out| == |cues|
    && forall i :: 0 <= i < |cues| ==> out[i] == if cues[i].agent in done then Resolved(cues, i, fallback) else cues[i]
  }

  method ResolveAgent(cues: seq<Cue>, idxs: seq<nat>, id: string, fallback: Option<int>, out: seq<Cue>,
                      ghost done: seq<string>)
    returns (r: seq<Cue>)
    requires idxs == Indices(cues, id) && ResolvedFor(cues, out, done, fallback)
    ensures ResolvedFor(cues, r, done + [id], fallback)
  {
    var group := Gather(cues, idxs, id);
    group := NormalizeCueEnds(group, fallback);
    ProjectIsGather(cues, id);
    r := Scatter(out, idxs, group, cues, id);
  }

  /** normalizeCueEndsByAgent. */
  method NormalizeCueEndsByAgent(cues: seq<Cue>, fallback: Option<int>) returns (out: seq<Cue>)
    ensures out == ByAgent(cues, fallback)
  {
    var groups, order := Group(cues);
    if |order| <= 1 {
      OneAgent(cues, fallback, if order == [] then "" else order[0]);
      out := NormalizeCueEnds(cues, fallback);
      return;
    }
    out := cues;
    for k := 0 to |order|
      invariant ResolvedFor(cues, out, order[..k], fallback)
    {
      out := ResolveAgent(cues, groups[order[k]], order[k], fallback, out, order[..k]);
      assert order[..k] + [order[k]] == order[..k + 1];
    }
    AllResolved(cues, out, order, fallback);
  }

  lemma AllResolved(cues: seq<Cue>, out: seq<Cue>, order: seq<string>, fallback: Option<int>)
    requires ResolvedFor(cues, out, order, fallback)
    requires forall i :: 0 <= i < |cues| ==> cues[i].agent in order
    ensures out == ByAgent(cues, fallback)
  {
  }

  // ---------------------------------------------------------------- line timing

  /** When a cue is last known to sound. */
  function LastTime(c: Cue): Option<int> { if c.end.Some? then c.end else c.start }

  /** The least known cue start, if any is known. */
  ghost predicate IsEarliest(cues: seq<Cue>, t: Option<int>) {
    && (t.None? <==> forall i :: 0 <= i < |cues| ==> cues[i].start.None?)
    && (t.Some? ==> exists i :: 0 <= i < |cues| && cues[i].start == t)
    && (forall i :: 0 <= i < |cues| && cues[i].start.Some? ==> t.Some? && t.value <= cues[i].start.value)
  }

  /** The latest a cue is known to end, or to start when its end is not known. */
  ghost predicate IsLatest(cues: seq<Cue>, t: Option<int>) {
    && (t.None? <==> forall i :: 0 <= i < |cues| ==> cues[i].end.None? && cues[i].start.None?)
    && (t.Some? ==> exists i :: 0 <= i < |cues| && (cues[i].end == t || (cues[i].end.None? && cues[i].start == t)))
    && (forall i :: 0 <= i < |cues| && cues[i].end.Some? ==> t.Some? && cues[i].end.value <= t.value)
    && (forall i :: 0 <= i < |cues| && cues[i].end.None? && cues[i].start.Some? ==>
          t.Some? && cues[i].start.value <= t.value)
  }

  /** A line takes its missing bounds from its cues and keeps those it has. */
  ghost predicate Timed(line: Line, r: Line) {
    && r.value == line.value && r.cues == line.cues
    && (if line.start.Some? then r.start == line.start else IsEarliest(line.cues, r.start))
    && (if line.end.Some? then r.end == line.end else IsLatest(line.cues, r.end))
  }

  method EarliestStart(cues: seq<Cue>) returns (t: Option<int>)
    ensures IsEarliest(cues, t)
  {
    t := None;
    for i := 0 to |cues|
      invariant IsEarliest(cues[..i], t)
    {
      var s := cues[i].start;
      EarliestStep(cues, i, t, if s.Some? && (t.None? || s.value < t.value) then s else t);
      if s.Some? && (t.None? || s.value < t.value) {
        t := s;
      }
    }
    assert cues[..|cues|] == cues;
  }

  lemma EarliestStep(cues: seq<Cue>, i: nat, t: Option<int>, u: Option<int>)
    requires i < |cues| && IsEarliest(cues[..i], t)
    requires var s := cues[i].start; u == if s.Some? && (t.None? || s.value < t.value) then s else t
    ensures IsEarliest(cues[..i + 1], u)
  {
    var short, long := cues[..i], cues[..i + 1];
    assert long[i] == cues[i] && forall k :: 0 <= k < i ==> long[k] == short[k];
  }

  lemma LatestStep(cues: seq<Cue>, i: nat, t: Option<int>, u: Option<int>)
    requires i < |cues| && IsLatest(cues[..i], t)
    requires var s := LastTime(cues[i]); u == if s.Some? && (t.None? || s.value > t.value) then s else t
    ensures IsLatest(cues[..i + 1], u)
  {
    var short, long := cues[..i], cues[..i + 1];
    assert long[i] == cues[i] && forall k :: 0 <= k < i ==> long[k] == short[k];
  }

  method LatestEnd(cues: seq<Cue>) returns (t: Option<int>)
    ensures IsLatest(cues, t)
  {
    t := None;
    for i := 0 to |cues|
      invariant IsLatest(cues[..i], t)
    {
      var s := LastTime(cues[i]);
      LatestStep(cues, i, t, if s.Some? && (t.None? || s.value > t.value) then s else t);
      if s.Some? && (t.None? || s.value > t.value) {
        t := s;
      }
    }
    assert cues[..|cues|] == cues;
  }

  /** normalizeLineTiming. */
  method NormalizeLineTiming(line: Line) returns (r: Line)
    ensures Timed(line, r)
  {
    r := line;
    var earliest := EarliestStart(line.cues);
    var latest := LatestEnd(line.cues);
    if line.start.None? {
      r := r.(start := earliest);
    }
    if line.end.None? {
      r := r.(end := latest);
    }
  }

  /** normalizeCueLine. */
  method NormalizeCueLine(line: Line, fallback: Option<int>) returns (r: Line)
    ensures Timed(line.(cues := ByAgent(line.cues, fallback)), r)
  {
    var cues := NormalizeCueEndsByAgent(line.cues, fallback);
    r := NormalizeLineTiming(line.(cues := cues));
  }

  /** A line's own end, or the next line's start as it was given. */
  function LineFallback(lines: seq<Line>, i: nat): Option<int>
    requires i < |lines|
  {
    if lines[i].end.Some? then lines[i].end
    else if i + 1 < |lines| then lines[i + 1].start
    else None
  }

  /** normalizeCueLines. */
  method NormalizeCueLines(lines: seq<Line>) returns (r: seq<Line>)
    ensures |r| == |lines|
    ensures forall i :: 0 <= i < |lines| ==>
              Timed(lines[i].(cues := ByAgent(lines[i].cues, LineFallback(lines, i))), r[i])
    ensures forall i :: 0 <= i < |lines| && lines[i].end.Some? ==>
              r[i].end == lines[i].end && r[i].cues == ByAgent(lines[i].cues, lines[i].end)
    ensures forall i :: 0 <= i < |lines| && lines[i].end.None? && i + 1 < |lines| ==>
              r[i].cues == ByAgent(lines[i].cues, lines[i + 1].start)
    ensures lines != [] && lines[|lines| - 1].end.None? ==>
              r[|lines| - 1].cues == ByAgent(lines[|lines| - 1].cues, None)
  {
    r := [];
    for i := 0 to |lines|
      invariant |r| == i
      invariant forall k :: 0 <= k < i ==>
                  Timed(lines[k].(cues := ByAgent(lines[k].cues, LineFallback(lines, k))), r[k])
    {
      var line := NormalizeCueLine(lines[i], LineFallback(lines, i));
      r := r + [line];
    }
  }
}
