/**
  Voices for overlapping lyric lines: each line takes the lowest voice that no earlier,
  still sounding line holds.
 */
module VoiceAllocation {
  import opened Prelude

  /** When a line starts and until when it holds its voice. */
  datatype Interval = Interval(start: int, until: int)

  /** The voice of each line so far, and until when each busy voice is held. */
  datatype State = State(voices: seq<nat>, active: map<nat, int>)

  function Pruned(active: map<nat, int>, start: int): map<nat, int> {
    map v | v in active && active[v] > start :: active[v]
  }

  /** The lowest number from v on that is not taken; the search ends because `taken` is finite. */
  function FirstFree(taken: set<nat>, v: nat): (r: nat)
    ensures v <= r <= v + |taken| && r !in taken
    ensures forall u :: v <= u < r ==> u in taken
    decreases |taken|
  {
    if v in taken then
      var r := FirstFree(taken - {v}, v + 1);
      assert forall u :: v <= u < r ==> u in taken by {
        forall u | v <= u < r ensures u in taken {
          assert u == v || u in taken - {v};
        }
      }
      r
    else v
  }

  function Allocate(ivs: seq<Interval>): (r: State)
    ensures |r.voices| == |ivs|
  {
    if ivs == [] then State([], map[])
    else
      var n := |ivs| - 1;
      Next(Allocate(ivs[..n]), ivs[n])
  }

  function Next(s: State, iv: Interval): State {
    var busy := Pruned(s.active, iv.start);
    var v := FirstFree(busy.Keys, 0);
    State(s.voices + [v], busy[v := iv.until])
  }

  function Voices(ivs: seq<Interval>): (r: seq<nat>)
    ensures |r| == |ivs|
  {
    Allocate(ivs).voices
  }

  predicate Sorted(ivs: seq<Interval>) {
    forall i, j :: 0 <= i < j < |ivs| ==> ivs[i].start <= ivs[j].start
  }

  lemma {:induction false} VoicesPrefix(ivs: seq<Interval>, n: nat)
    requires n <= |ivs|
    ensures Voices(ivs[..n]) == Voices(ivs)[..n]
  {
    var m := |ivs| - 1;
    if n <= m {
      VoicesPrefix(ivs[..m], n);
      assert ivs[..m][..n] == ivs[..n];
    } else {
      assert ivs[..n] == ivs;
    }
  }

  // ---------------------------------------------------------------- what the table of busy voices knows

  /** Every line that sounds beyond `t` holds its voice in the table. */
  ghost predicate Holds(ivs: seq<Interval>, s: State, t: int)
    requires |s.voices| == |ivs|
  {
    forall i :: 0 <= i < |ivs| && ivs[i].until > t ==> HeldBy(s.active, s.voices[i], ivs[i].until)
  }

  predicate HeldBy(active: map<nat, int>, v: nat, until: int) { v in active && active[v] == until }

  /** Every entry of the table stems from a line. */
  ghost predicate Stems(ivs: seq<Interval>, s: State)
    requires |s.voices| == |ivs|
  {
    forall v :: v in s.active ==> exists i :: 0 <= i < |ivs| && s.voices[i] == v && ivs[i].until == s.active[v]
  }

  lemma HoldsNext(ivs: seq<Interval>, s: State, iv: Interval)
    requires |s.voices| == |ivs| && Holds(ivs, s, iv.start)
    ensures Holds(ivs + [iv], Next(s, iv), iv.start)
    ensures forall i :: 0 <= i < |ivs| && ivs[i].until > iv.start ==> s.voices[i] != Next(s, iv).voices[|ivs|]
  {
    var busy := Pruned(s.active, iv.start);
    var s' := Next(s, iv);
    forall i | 0 <= i < |ivs| && ivs[i].until > iv.start
      ensures s.voices[i] in busy.Keys && HeldBy(s'.active, s.voices[i], ivs[i].until)
    {
      assert HeldBy(s.active, s.voices[i], ivs[i].until);
    }
  }

  lemma StemsNext(ivs: seq<Interval>, s: State, iv: Interval)
    requires |s.voices| == |ivs| && Stems(ivs, s)
    ensures Stems(ivs + [iv], Next(s, iv))
  {
    var s', all := Next(s, iv), ivs + [iv];
    forall v | v in s'.active
      ensures exists i :: 0 <= i < |all| && s'.voices[i] == v && all[i].until == s'.active[v]
    {
      if v == s'.voices[|ivs|] {
        assert all[|ivs|].until == s'.active[v];
      } else {
        assert v in s.active && s'.active[v] == s.active[v];
        var i :| 0 <= i < |ivs| && s.voices[i] == v && ivs[i].until == s.active[v];
        assert s'.voices[i] == v && all[i] == ivs[i];
      }
    }
  }

  lemma HoldsLater(ivs: seq<Interval>, s: State, t: int, t': int)
    requires |s.voices| == |ivs| && Holds(ivs, s, t) && t <= t'
    ensures Holds(ivs, s, t')
  {
  }

  lemma {:induction false} TableStems(ivs: seq<Interval>)
    ensures Stems(ivs, Allocate(ivs))
  {
    if ivs != [] {
      var front, last := ivs[..|ivs| - 1], ivs[|ivs| - 1];
      TableStems(front);
      StemsNext(front, Allocate(front), last);
      assert ivs == front + [last];
    }
  }

  lemma {:induction false} TableHolds(ivs: seq<Interval>, t: int)
    requires Sorted(ivs) && (ivs != [] ==> ivs[|ivs| - 1].start <= t)
    ensures Holds(ivs, Allocate(ivs), t)
  {
    if ivs != [] {
      var front, last := ivs[..|ivs| - 1], ivs[|ivs| - 1];
      TableHolds(front, last.start);
      HoldsNext(front, Allocate(front), last);
      assert ivs == front + [last];
      assert Allocate(ivs) == Next(Allocate(front), last);
      HoldsLater(ivs, Allocate(ivs), last.start, t);
    }
  }

  lemma TableBefore(ivs: seq<Interval>, j: nat)
    requires Sorted(ivs) && j < |ivs|
    ensures Stems(ivs[..j], Allocate(ivs[..j])) && Holds(ivs[..j], Allocate(ivs[..j]), ivs[j].start)
  {
    TableStems(ivs[..j]);
    TableHolds(ivs[..j], ivs[j].start);
  }

  lemma VoiceOf(ivs: seq<Interval>, j: nat)
    requires j < |ivs|
    ensures Voices(ivs)[j] == Next(Allocate(ivs[..j]), ivs[j]).voices[j]
    ensures Voices(ivs)[..j] == Voices(ivs[..j])
  {
    VoicesPrefix(ivs, j);
    VoicesPrefix(ivs, j + 1);
    assert ivs[..j + 1][..j] == ivs[..j];
    assert Voices(ivs)[..j + 1][j] == Voices(ivs)[j];
  }

  // ---------------------------------------------------------------- no shared voices

  predicate Overlap(a: Interval, b: Interval) {
    Max(a.start, b.start) < Min(a.until, b.until)
  }

  /** No line after i, up to and including j, starts at or after i's end. */
  predicate SoundsThrough(ivs: seq<Interval>, i: nat, j: nat) {
    j < |ivs| && forall k :: i < k <= j ==> ivs[k].start < ivs[i].until
  }

  /** While that is so, line i's voice stays in the table of busy voices. */
  lemma {:induction false} VoiceStaysHeld(ivs: seq<Interval>, i: nat, n: nat)
    requires i < n <= |ivs| && SoundsThrough(ivs, i, n - 1)
    ensures HeldBy(Allocate(ivs[..n]).active, Voices(ivs)[i], ivs[i].until)
  {
    assert ivs[..n][..n - 1] == ivs[..n - 1];
    VoicesPrefix(ivs, n);
    if i < n - 1 {
      VoiceStaysHeld(ivs, i, n - 1);
      assert Voices(ivs)[i] in Pruned(Allocate(ivs[..n - 1]).active, ivs[n - 1].start).Keys;
    } else {
      VoiceOf(ivs, i);
    }
  }

  /** In whatever order the lines come, a later line does not take the voice of one that has sounded through. */
  lemma SoundingThroughKeepsVoice(ivs: seq<Interval>, i: nat, j: nat)
    requires i < j && SoundsThrough(ivs, i, j)
    ensures Voices(ivs)[i] != Voices(ivs)[j]
  {
    VoiceStaysHeld(ivs, i, j);
    VoiceOf(ivs, j);
  }

  lemma SortedSoundsThrough(ivs: seq<Interval>, i: nat, j: nat)
    requires Sorted(ivs) && i < j < |ivs| && ivs[i].until > ivs[j].start
    ensures SoundsThrough(ivs, i, j)
  {
  }

  /** In particular, with lines sorted by start, of an earlier line that still sounds at its start. */
  lemma StillSounding(ivs: seq<Interval>, i: nat, j: nat)
    requires Sorted(ivs) && i < j < |ivs| && ivs[i].until > ivs[j].start
    ensures Voices(ivs)[i] != Voices(ivs)[j]
  {
    SoundingThroughKeepsVoice(ivs, i, j);
  }

  /** Lines that overlap in time never share a voice, when sorted by start. */
  lemma OverlapNeverShares(ivs: seq<Interval>, i: nat, j: nat)
    requires Sorted(ivs) && i < |ivs| && j < |ivs| && i != j && Overlap(ivs[i], ivs[j])
    ensures Voices(ivs)[i] != Voices(ivs)[j]
  {
    if i < j {
      StillSounding(ivs, i, j);
    } else {
      StillSounding(ivs, j, i);
    }
  }

  /** Overlapping lines that share a voice have a line between them that starts when the first has ended. */
  lemma SharedVoiceHasGap(ivs: seq<Interval>, i: nat, j: nat)
    requires i < j < |ivs| && Overlap(ivs[i], ivs[j]) && Voices(ivs)[i] == Voices(ivs)[j]
    ensures exists k :: i < k < j && ivs[k].start >= ivs[i].until
  {
    if forall k :: i < k < j ==> ivs[k].start < ivs[i].until {
      SoundingThroughKeepsVoice(ivs, i, j);
    }
  }

  /** The next line takes voice v: the lowest that is not busy. */
  lemma TakesVoice(ivs: seq<Interval>, s: State, iv: Interval, busy: map<nat, int>, v: nat)
    requires Allocate(ivs) == s && Pruned(s.active, iv.start) == busy
    requires v !in busy && forall u :: 0 <= u < v ==> u in busy
    ensures Allocate(ivs + [iv]) == State(s.voices + [v], busy[v := iv.until])
  {
    assert (ivs + [iv])[..|ivs|] == ivs;
    assert FirstFree(busy.Keys, 0) == v;
  }

  lemma FirstTwo()
    ensures Allocate([Interval(0, 3), Interval(0, 5)]) == State([0, 1], map[0 := 3, 1 := 5])
  {
    TakesVoice([], State([], map[]), Interval(0, 3), map[], 0);
    var one := [] + [Interval(0, 3)];
    TakesVoice(one, State([0], map[0 := 3]), Interval(0, 5), map[0 := 3], 1);
    assert one + [Interval(0, 5)] == [Interval(0, 3), Interval(0, 5)];
  }

  /** Which does happen when lines are not sorted: lines 1 and 3 overlap and share a voice. */
  lemma UnsortedMayShare()
    ensures var ivs := [Interval(0, 3), Interval(0, 5), Interval(6, 7), Interval(1, 2)];
            Overlap(ivs[1], ivs[3]) && Voices(ivs)[1] == Voices(ivs)[3]
  {
    var two := [Interval(0, 3), Interval(0, 5)];
    FirstTwo();
    TakesVoice(two, State([0, 1], map[0 := 3, 1 := 5]), Interval(6, 7), map[], 0);
    var three := two + [Interval(6, 7)];
    TakesVoice(three, State([0, 1, 0], map[0 := 7]), Interval(1, 2), map[0 := 7], 1);
    assert three + [Interval(1, 2)] == [Interval(0, 3), Interval(0, 5), Interval(6, 7), Interval(1, 2)];
  }

  // ---------------------------------------------------------------- how many voices

  /** Earlier lines that still sound when line j starts. */
  function Sounding(ivs: seq<Interval>, j: nat): set<nat>
    requires j < |ivs|
  {
    set i: nat | i < j && ivs[i].until > ivs[j].start
  }

  function Depth(ivs: seq<Interval>, j: nat): nat
    requires j < |ivs|
  {
    |Sounding(ivs, j)|
  }

  function Image(s: set<nat>, voices: seq<nat>): set<nat>
    requires forall i :: i in s ==> i < |voices|
  {
    set i | i in s :: voices[i]
  }

  lemma {:induction false} ImageAtMost(s: set<nat>, voices: seq<nat>)
    requires forall i :: i in s ==> i < |voices|
    ensures |Image(s, voices)| <= |s|
  {
    if s != {} {
      var i :| i in s;
      var rest := s - {i};
      ImageAtMost(rest, voices);
      assert Image(s, voices) == Image(rest, voices) + {voices[i]};
    }
  }

  lemma {:induction false} ImageInjective(s: set<nat>, voices: seq<nat>)
    requires forall i :: i in s ==> i < |voices|
    requires forall i, j :: i in s && j in s && i != j ==> voices[i] != voices[j]
    ensures |Image(s, voices)| == |s|
  {
    if s != {} {
      var i :| i in s;
      var rest := s - {i};
      ImageInjective(rest, voices);
      assert Image(s, voices) == Image(rest, voices) + {voices[i]};
    }
  }

  lemma {:induction false} BelowAtMost(s: set<nat>, n: nat)
    requires forall v :: v in s ==> v < n
    ensures |s| <= n
  {
    if n == 0 {
      assert s == {};
    } else {
      BelowAtMost(s - {n - 1}, n - 1);
      assert s <= (s - {n - 1}) + {n - 1};
      SubsetSize(s, (s - {n - 1}) + {n - 1});
    }
  }

  /** The voices found busy are exactly those of the lines still sounding. */
  lemma BusyIsSounding(ivs: seq<Interval>, j: nat)
    requires Sorted(ivs) && j < |ivs|
    ensures Pruned(Allocate(ivs[..j]).active, ivs[j].start).Keys == Image(Sounding(ivs, j), Voices(ivs))
  {
    var s := Allocate(ivs[..j]);
    var busy := Pruned(s.active, ivs[j].start);
    TableBefore(ivs, j);
    VoiceOf(ivs, j);
    forall v | v in busy ensures v in Image(Sounding(ivs, j), Voices(ivs)) {
      var i :| 0 <= i < j && s.voices[i] == v && ivs[..j][i].until == s.active[v];
      assert i in Sounding(ivs, j) && Voices(ivs)[..j][i] == v;
    }
    forall i | i in Sounding(ivs, j) ensures Voices(ivs)[i] in busy {
      assert ivs[..j][i] == ivs[i] && Voices(ivs)[..j][i] == s.voices[i];
      assert HeldBy(s.active, s.voices[i], ivs[i].until);
    }
  }

  /** A line's voice is at most the number of lines still sounding, and all lower voices are theirs. */
  lemma VoiceAtMostDepth(ivs: seq<Interval>, j: nat)
    requires Sorted(ivs) && j < |ivs|
    ensures Voices(ivs)[j] <= Depth(ivs, j)
    ensures forall v :: 0 <= v < Voices(ivs)[j] ==> v in Image(Sounding(ivs, j), Voices(ivs))
  {
    BusyIsSounding(ivs, j);
    VoiceOf(ivs, j);
    ImageAtMost(Sounding(ivs, j), Voices(ivs));
  }

  /** So many distinct voices are below any bound on the voices of a line and of those still sounding. */
  lemma DepthBelowTop(ivs: seq<Interval>, j: nat, top: nat)
    requires Sorted(ivs) && j < |ivs|
    requires forall i :: 0 <= i < |ivs| ==> Voices(ivs)[i] <= top
    ensures Depth(ivs, j) <= top
  {
    var s := Sounding(ivs, j) + {j};
    forall a, b | a in s && b in s && a < b ensures Voices(ivs)[a] != Voices(ivs)[b] {
      StillSounding(ivs, a, b);
    }
    ImageInjective(s, Voices(ivs));
    BelowAtMost(Image(s, Voices(ivs)), top + 1);
  }

  /** The highest voice handed out, -1 when there is no line. */
  function Top(voices: seq<nat>): (r: int)
    ensures r >= -1
    ensures forall i :: 0 <= i < |voices| ==> voices[i] <= r
    ensures voices == [] <==> r == -1
    ensures voices != [] ==> exists i :: 0 <= i < |voices| && voices[i] == r
  {
    if voices == [] then -1
    else
      var n := |voices| - 1;
      var r := Max(Top(voices[..n]), voices[n]);
      assert r == voices[n] || exists i :: 0 <= i < n && voices[..n][i] == r;
      r
  }

  /** The number of voices is one more than the greatest number of lines any line meets still sounding. */
  lemma VoicesArePeakDepth(ivs: seq<Interval>)
    requires Sorted(ivs)
    ensures forall j :: 0 <= j < |ivs| ==> Depth(ivs, j) <= Top(Voices(ivs))
    ensures ivs != [] ==> exists j :: 0 <= j < |ivs| && Depth(ivs, j) == Top(Voices(ivs))
  {
    var voices := Voices(ivs);
    var top := Top(voices);
    forall j | 0 <= j < |ivs| ensures Depth(ivs, j) <= top {
      DepthBelowTop(ivs, j, top);
    }
    if ivs != [] {
      var j :| 0 <= j < |ivs| && voices[j] == top;
      VoiceAtMostDepth(ivs, j);
    }
  }

  /** A voice passed over was busy, so an earlier line took it. */
  lemma LowerVoiceUsed(ivs: seq<Interval>, j: nat, v: nat)
    requires j < |ivs| && v < Voices(ivs)[j]
    ensures v in Voices(ivs)
  {
    VoiceOf(ivs, j);
    TableStems(ivs[..j]);
    var s := Allocate(ivs[..j]);
    assert v in Pruned(s.active, ivs[j].start).Keys;
    var i :| 0 <= i < j && s.voices[i] == v && ivs[..j][i].until == s.active[v];
    assert Voices(ivs)[..j][i] == v;
  }

  /** No voice number is skipped, in whatever order the lines come. */
  lemma VoicesAreContiguous(ivs: seq<Interval>)
    ensures forall v: nat :: v in Voices(ivs) <==> v <= Top(Voices(ivs))
  {
    var voices := Voices(ivs);
    forall v: nat | v <= Top(voices) ensures v in voices {
      var j :| 0 <= j < |ivs| && voices[j] == Top(voices);
      if v < voices[j] {
        LowerVoiceUsed(ivs, j, v);
      }
    }
  }

  // ---------------------------------------------------------------- simultaneously active lines

  function ActiveAt(ivs: seq<Interval>, t: int): set<nat> {
    set i: nat | i < |ivs| && ivs[i].start <= t < ivs[i].until
  }

  /** The greatest number of lines active at one time. */
  ghost predicate IsMostActive(ivs: seq<Interval>, m: int) {
    (forall t :: |ActiveAt(ivs, t)| <= m) && exists t :: |ActiveAt(ivs, t)| == m
  }

  lemma {:induction false} Greatest(s: set<nat>) returns (j: nat)
    requires s != {}
    ensures j in s && forall i :: i in s ==> i <= j
  {
    var x :| x in s;
    j := x;
    if s - {x} != {} {
      var y := Greatest(s - {x});
      j := Max(x, y);
      forall i | i in s ensures i <= j {
        assert i == x || i in s - {x};
      }
    } else {
      assert s == {x};
    }
  }

  /** Lines active together are the latest of them and some of those it meets still sounding. */
  lemma ActiveBelowDepth(ivs: seq<Interval>, t: int) returns (j: nat)
    requires Sorted(ivs) && ActiveAt(ivs, t) != {}
    ensures j < |ivs| && ivs[j].start < ivs[j].until && |ActiveAt(ivs, t)| <= Depth(ivs, j) + 1
  {
    j := Greatest(ActiveAt(ivs, t));
    SubsetSize(ActiveAt(ivs, t), Sounding(ivs, j) + {j});
  }

  lemma DepthIsActive(ivs: seq<Interval>, j: nat)
    requires Sorted(ivs) && j < |ivs| && ivs[j].start < ivs[j].until
    ensures Depth(ivs, j) + 1 <= |ActiveAt(ivs, ivs[j].start)|
  {
    assert |Sounding(ivs, j) + {j}| == Depth(ivs, j) + 1;
    SubsetSize(Sounding(ivs, j) + {j}, ActiveAt(ivs, ivs[j].start));
  }

  /** No more lines are ever active together than there are voices. */
  lemma ActiveAtMostVoices(ivs: seq<Interval>, t: int)
    requires Sorted(ivs)
    ensures |ActiveAt(ivs, t)| <= Top(Voices(ivs)) + 1
  {
    VoicesArePeakDepth(ivs);
    if ActiveAt(ivs, t) != {} {
      var j := ActiveBelowDepth(ivs, t);
    }
  }

  /** Some line of positive length meets as many lines still sounding as any line does. */
  ghost predicate PeakHasLength(ivs: seq<Interval>) {
    exists j :: 0 <= j < |ivs| && DeepestWithLength(ivs, j)
  }

  predicate DeepestWithLength(ivs: seq<Interval>, j: nat)
    requires j < |ivs|
  {
    ivs[j].start < ivs[j].until && forall k :: 0 <= k < |ivs| ==> Depth(ivs, k) <= Depth(ivs, j)
  }

  /** The voices used are as many as the lines ever active together, exactly when the peak has length. */
  lemma VoicesAreMostActive(ivs: seq<Interval>)
    requires Sorted(ivs)
    ensures IsMostActive(ivs, Top(Voices(ivs)) + 1) <==> ivs == [] || PeakHasLength(ivs)
  {
    var top := Top(Voices(ivs));
    VoicesArePeakDepth(ivs);
    forall t ensures |ActiveAt(ivs, t)| <= top + 1 {
      ActiveAtMostVoices(ivs, t);
    }
    if ivs == [] {
      assert |ActiveAt(ivs, 0)| == 0;
    } else if PeakHasLength(ivs) {
      var j :| 0 <= j < |ivs| && DeepestWithLength(ivs, j);
      DepthIsActive(ivs, j);
      assert |ActiveAt(ivs, ivs[j].start)| == top + 1;
    } else if IsMostActive(ivs, top + 1) {
      var t :| |ActiveAt(ivs, t)| == top + 1;
      var j := ActiveBelowDepth(ivs, t);
      assert DeepestWithLength(ivs, j);
    }
  }

  /** In particular when every line has a positive length. */
  lemma AllWithLength(ivs: seq<Interval>)
    requires Sorted(ivs) && forall i :: 0 <= i < |ivs| ==> ivs[i].start < ivs[i].until
    ensures IsMostActive(ivs, Top(Voices(ivs)) + 1)
  {
    VoicesArePeakDepth(ivs);
    VoicesAreMostActive(ivs);
    if ivs != [] {
      var j :| 0 <= j < |ivs| && Depth(ivs, j) == Top(Voices(ivs));
      assert DeepestWithLength(ivs, j);
    }
  }

  /** A line of no length inside another takes a second voice though one line at most is active. */
  lemma InstantLineTakesVoice()
    ensures var ivs := [Interval(0, 10), Interval(5, 5)];
            Sorted(ivs) && Voices(ivs) == [0, 1] && forall t :: |ActiveAt(ivs, t)| <= 1
  {
    var a, b := Interval(0, 10), Interval(5, 5);
    var ivs := [a, b];
    assert ivs[..1] == [a] && [a][..0] == [];
    assert Allocate([a]) == Next(State([], map[]), a);
    assert Pruned(map[], 0).Keys == {};
    assert Allocate([a]).active == map[0 := 10];
    assert Pruned(map[0 := 10], 5).Keys == {0};
    forall t ensures |ActiveAt(ivs, t)| <= 1 {
      SubsetSize(ActiveAt(ivs, t), {0});
    }
  }

  // ---------------------------------------------------------------- the loops

  /** Voices whose line has ended are released. */
  method Prune(active: map<nat, int>, start: int) returns (r: map<nat, int>)
    ensures r == Pruned(active, start)
  {
    r := active;
    var todo := active.Keys;
    while todo != {}
      invariant todo <= active.Keys
      invariant r == map v | v in active && (v in todo || active[v] > start) :: active[v]
      decreases |todo|
    {
      var v :| v in todo;
      if r[v] <= start {
        r := r - {v};
      }
      todo := todo - {v};
    }
  }

  /** The search for a free voice ends: each busy voice is met at most once. */
  method LowestFree(active: map<nat, int>) returns (v: nat)
    ensures v == FirstFree(active.Keys, 0)
  {
    v := 0;
    ghost var rest := active.Keys;
    while v in active
      invariant forall u :: 0 <= u < v ==> u in active
      invariant forall u :: u in active && v <= u ==> u in rest
      decreases |rest|
    {
      rest := rest - {v};
      v := v + 1;
    }
  }

  // ---------------------------------------------------------------- when one voice is enough

  /** Line j starts while the line right before it still sounds. */
  predicate Interrupts(ivs: seq<Interval>, j: nat) {
    0 < j < |ivs| && ivs[j - 1].until > ivs[j].start
  }

  lemma FreeBesides(until: int, start: int)
    ensures Pruned(map[0 := until], start) == if until > start then map[0 := until] else map[]
    ensures FirstFree({}, 0) == 0 && FirstFree({0}, 0) == 1
  {
    var taken: set<nat> := {0};
    assert taken - {0} == {};
  }

  lemma {:induction false} AllOnVoiceZero(ivs: seq<Interval>)
    requires ivs != [] && forall j: nat :: !Interrupts(ivs, j)
    ensures Allocate(ivs).active == map[0 := ivs[|ivs| - 1].until]
    ensures forall j :: 0 <= j < |ivs| ==> Voices(ivs)[j] == 0
  {
    var n := |ivs| - 1;
    if n == 0 {
      assert ivs[..0] == [] && Pruned(map[], ivs[0].start) == map[];
      FreeBesides(0, 0);
    } else {
      forall j: nat ensures !Interrupts(ivs[..n], j) {
        assert !Interrupts(ivs, j);
      }
      AllOnVoiceZero(ivs[..n]);
      assert !Interrupts(ivs, n);
      FreeBesides(ivs[n - 1].until, ivs[n].start);
      VoicesPrefix(ivs, n);
    }
  }

  lemma {:induction false} FirstInterruption(ivs: seq<Interval>, j: nat) returns (i: nat)
    requires Interrupts(ivs, j)
    ensures Interrupts(ivs, i) && forall k: nat :: k < i ==> !Interrupts(ivs, k)
  {
    i := j;
    if k: nat :| k < j && Interrupts(ivs, k) {
      i := FirstInterruption(ivs, k);
    }
  }

  /** A second voice is taken exactly when some line starts before the one right before it has ended. */
  lemma SecondVoiceWhen(ivs: seq<Interval>)
    ensures Top(Voices(ivs)) > 0 <==> exists j: nat :: Interrupts(ivs, j)
  {
    if j: nat :| Interrupts(ivs, j) {
      var i := FirstInterruption(ivs, j);
      forall k: nat ensures !Interrupts(ivs[..i], k) {
        assert k < i ==> !Interrupts(ivs, k);
      }
      AllOnVoiceZero(ivs[..i]);
      FreeBesides(ivs[i - 1].until, ivs[i].start);
      VoiceOf(ivs, i);
    } else if ivs != [] {
      AllOnVoiceZero(ivs);
    }
  }
}
