/**
  Genre repair as a write-ahead protocol: live music files, a backup directory and a
  durable manifest, changed one step at a time, where the process may fail or die
  between any two steps.

  A file's bytes are one `Content` value, and a recorded SHA-256 is the content it was
  taken from (hashes do not collide).  What the tag library writes is any function of the
  file and the requested genres; the code under study checks its result before using it.
 */
module GenreRepair {
  import opened Prelude
  import opened Genres
  import opened Faults

  type Path = string
  type Dir = string

  /** Bytes of an audio file: its genre tag, all its other native tags, and the audio. */
  datatype Content = Content(genres: seq<Genre>, tags: nat, audio: nat)

  datatype BackupKey = BackupKey(dir: Dir, index: nat)

  datatype Backup = Backup(key: BackupKey, hash: Content)

  datatype Entry = Entry(
    media: string, path: Path, candidate: bool, identity: nat, dbGenres: seq<Genre>,
    pre: Content, replacement: seq<Genre>,
    backup: Option<Backup>, post: Option<Content>, rolledBack: bool)

  datatype RunMode = DryRun | Applied | RolledBack

  datatype Status = NotStarted | InProgress | Failing | Complete

  datatype Manifest = Manifest(mode: RunMode, status: Status, dir: Option<Dir>, entries: seq<Entry>)

  datatype DbRow = DbRow(identity: nat, missing: bool, genres: seq<Genre>)

  /** Everything that survives the death of the process. */
  datatype World = World(
    live: map<Path, Content>, backups: map<BackupKey, Content>, db: map<string, DbRow>, disk: Manifest)

  /** str.strip, genre normalisation and the tag writer, all arbitrary. */
  datatype Tools = Tools(strip: Genre -> Genre, norm: Genre -> Genre, write: (Content, seq<Genre>) -> Content)

  /** unique_values: stripped, without empty values and later repeats of a normalised value. */
  function Unique(t: Tools, gs: seq<Genre>): seq<Genre> {
    if gs == [] then []
    else
      var front, last := Unique(t, gs[..|gs| - 1]), t.strip(gs[|gs| - 1]);
      if last == "" || t.norm(last) == "" || t.norm(last) in NormAll(t.norm, front) then front else front + [last]
  }

  /** What a requested genre is compared by; None when it is empty, or empty once normalised. */
  function KeyOf(t: Tools, g: Genre): Option<Genre> {
    if t.strip(g) == "" || t.norm(t.strip(g)) == "" then None else Some(t.norm(t.strip(g)))
  }

  function KeysOf(t: Tools, gs: seq<Genre>): (r: seq<Option<Genre>>)
    ensures |r| == |gs| && forall i :: 0 <= i < |gs| ==> r[i] == KeyOf(t, gs[i])
  {
    seq(|gs|, i requires 0 <= i < |gs| => KeyOf(t, gs[i]))
  }

  /** Key a occurs before the first b. */
  predicate Precedes(keys: seq<Option<Genre>>, a: Genre, b: Genre) {
    exists i :: 0 <= i < |keys| && keys[i] == Some(a) && Some(b) !in keys[..i + 1]
  }

  /** `vals` are the keys, each once, in the order in which they first occur. */
  predicate Lists(keys: seq<Option<Genre>>, vals: seq<Genre>) {
    && (forall i :: 0 <= i < |keys| && keys[i].Some? ==> keys[i].value in vals)
    && (forall k :: 0 <= k < |vals| ==> Some(vals[k]) in keys)
    && (forall k, l :: 0 <= k < l < |vals| ==> Precedes(keys, vals[k], vals[l]))
  }

  lemma PrecedesGrows(keys: seq<Option<Genre>>, key: Option<Genre>, a: Genre, b: Genre)
    requires Precedes(keys, a, b) || (Some(a) in keys && Some(b) !in keys)
    ensures Precedes(keys + [key], a, b)
  {
    var all := keys + [key];
    var i :| 0 <= i < |keys| && keys[i] == Some(a) && Some(b) !in keys[..i + 1];
    assert all[i] == Some(a) && all[..i + 1] == keys[..i + 1];
  }

  lemma ListsGrows(keys: seq<Option<Genre>>, vals: seq<Genre>, key: Option<Genre>)
    requires Lists(keys, vals)
    ensures Lists(keys + [key], if key.None? || key.value in vals then vals else vals + [key.value])
  {
    var all := keys + [key];
    var vals' := if key.None? || key.value in vals then vals else vals + [key.value];
    forall k, l | 0 <= k < l < |vals'| ensures Precedes(all, vals'[k], vals'[l]) {
      if l < |vals| {
        assert Precedes(keys, vals[k], vals[l]);
      }
      PrecedesGrows(keys, key, vals'[k], vals'[l]);
    }
    assert all[|keys|] == key;
  }

  lemma KeysNext(t: Tools, gs: seq<Genre>)
    requires gs != []
    ensures KeysOf(t, gs) == KeysOf(t, gs[..|gs| - 1]) + [KeyOf(t, gs[|gs| - 1])]
  {
  }

  lemma UniqueNext(t: Tools, gs: seq<Genre>)
    requires gs != []
    ensures var front, key := NormAll(t.norm, Unique(t, gs[..|gs| - 1])), KeyOf(t, gs[|gs| - 1]);
            NormAll(t.norm, Unique(t, gs)) == if key.None? || key.value in front then front else front + [key.value]
  {
    var kept, last := Unique(t, gs[..|gs| - 1]), t.strip(gs[|gs| - 1]);
    if last != "" && t.norm(last) != "" && t.norm(last) !in NormAll(t.norm, kept) {
      NormNext(t.norm, kept, last);
      assert Unique(t, gs) == kept + [last];
    }
  }

  /** unique_values lists every usable genre once, in the order of first use, and nothing else. */
  lemma {:induction false} UniqueIs(t: Tools, gs: seq<Genre>)
    ensures Lists(KeysOf(t, gs), NormAll(t.norm, Unique(t, gs)))
  {
    if gs != [] {
      var n := |gs| - 1;
      UniqueIs(t, gs[..n]);
      ListsGrows(KeysOf(t, gs[..n]), NormAll(t.norm, Unique(t, gs[..n])), KeyOf(t, gs[n]));
      KeysNext(t, gs);
      UniqueNext(t, gs);
    }
  }

  /** What it lists are stripped requested genres. */
  lemma {:induction false} UniqueFrom(t: Tools, gs: seq<Genre>, g: Genre)
    requires g in Unique(t, gs)
    ensures exists r :: r in gs && g == t.strip(r)
  {
    var n := |gs| - 1;
    if g in Unique(t, gs[..n]) {
      UniqueFrom(t, gs[..n], g);
    } else {
      assert gs[n] in gs && g == t.strip(gs[n]);
    }
  }

  /** A file's genres are, up to normalisation, the usable requested ones in the order of first use. */
  predicate AsAsked(t: Tools, asked: seq<Genre>, got: seq<Genre>) {
    Lists(KeysOf(t, asked), NormAll(t.norm, got))
  }

  /** It has every genre that was requested, nothing else, and no genre twice. */
  lemma AsAskedMeans(t: Tools, asked: seq<Genre>, got: seq<Genre>)
    requires AsAsked(t, asked, got)
    ensures forall g :: g in asked && t.strip(g) != "" && t.norm(t.strip(g)) != "" ==>
              exists h :: h in got && t.norm(h) == t.norm(t.strip(g))
    ensures forall h :: h in got ==> exists g :: g in asked && t.norm(h) == t.norm(t.strip(g))
    ensures forall k, l :: 0 <= k < l < |got| ==> t.norm(got[k]) != t.norm(got[l])
  {
    var keys, vals := KeysOf(t, asked), NormAll(t.norm, got);
    forall g | g in asked && t.strip(g) != "" && t.norm(t.strip(g)) != ""
      ensures exists h :: h in got && t.norm(h) == t.norm(t.strip(g))
    {
      var i :| 0 <= i < |asked| && asked[i] == g;
      assert keys[i] == Some(t.norm(t.strip(g)));
      var k :| 0 <= k < |vals| && vals[k] == t.norm(t.strip(g));
      assert got[k] in got;
    }
    forall h | h in got ensures exists g :: g in asked && t.norm(h) == t.norm(t.strip(g)) {
      var k :| 0 <= k < |got| && got[k] == h;
      var i :| 0 <= i < |keys| && keys[i] == Some(vals[k]);
      assert asked[i] in asked;
    }
    forall k, l | 0 <= k < l < |got| ensures t.norm(got[k]) != t.norm(got[l]) {
      assert Precedes(keys, vals[k], vals[l]);
    }
  }

  /** The checks replace_genres makes on what it wrote. */
  predicate Verified(t: Tools, before: Content, after: Content, replacement: seq<Genre>) {
    after.tags == before.tags && NormAll(t.norm, after.genres) == NormAll(t.norm, replacement)
  }

  /** Content that is the entry's original with only the genre replaced. */
  predicate IsReplaced(t: Tools, e: Entry, c: Content) {
    Verified(t, e.pre, c, Unique(t, e.replacement))
  }

  // ---------------------------------------------------------------- validation

  predicate DbMatches(t: Tools, w: World, e: Entry, allowPost: bool) {
    && e.media in w.db
    && w.db[e.media].identity == e.identity
    && !w.db[e.media].missing
    && (NormAll(t.norm, w.db[e.media].genres) == NormAll(t.norm, e.dbGenres) ||
        (allowPost && NormAll(t.norm, w.db[e.media].genres) == NormAll(t.norm, e.replacement)))
  }

  /** The live file is the recorded pre-apply or post-apply content. */
  predicate KnownContent(w: World, e: Entry) {
    e.path in w.live && (w.live[e.path] == e.pre || (e.post.Some? && w.live[e.path] == e.post.value))
  }

  /** validate_apply_entry: whether the entry passes. */
  predicate ValidEntry(t: Tools, w: World, e: Entry, allowPost: bool, anyContent: bool) {
    && DbMatches(t, w, e, allowPost)
    && (anyContent || (KnownContent(w, e) && w.live[e.path].tags == e.pre.tags))
  }

  // ---------------------------------------------------------------- what every state keeps

  /** A recorded backup lies under the entry's own key and holds the content recorded as its pre-state. */
  predicate BackupSound(e: Entry, i: nat, dir: Option<Dir>, backups: map<BackupKey, Content>) {
    e.backup.Some? ==>
      && e.candidate
      && dir == Some(e.backup.value.key.dir) && e.backup.value.key.index == i
      && e.backup.value.key in backups && backups[e.backup.value.key] == e.pre
      && e.backup.value.hash == e.pre
  }

  predicate PostSound(t: Tools, e: Entry) {
    e.post.Some? ==> e.backup.Some? && IsReplaced(t, e, e.post.value)
  }

  /** Entry i has a recorded backup of file p. */
  predicate BackedUpAt(m: Manifest, p: Path, i: nat) {
    i < |m.entries| && m.entries[i].candidate && m.entries[i].path == p && m.entries[i].backup.Some?
  }

  /** Entry i's recorded backup holds p's original bytes. */
  predicate HoldsOriginal(m: Manifest, orig: map<Path, Content>, p: Path, i: nat) {
    BackedUpAt(m, p, i) && p in orig && m.entries[i].pre == orig[p]
  }

  /** c is p's original with the genre replaced as the backed-up entry j asks. */
  predicate ReplacedBy(t: Tools, m: Manifest, orig: map<Path, Content>, p: Path, c: Content, j: nat) {
    BackedUpAt(m, p, j) && p in orig && Verified(t, orig[p], c, Unique(t, m.entries[j].replacement))
  }

  /** What p may hold: its original bytes, or a replacement of them while their backup is recorded. */
  ghost predicate Reached(t: Tools, m: Manifest, orig: map<Path, Content>, p: Path, c: Content) {
    && p in orig
    && (c == orig[p] ||
        ((exists i :: HoldsOriginal(m, orig, p, i)) && (exists j :: ReplacedBy(t, m, orig, p, c, j))))
  }

  ghost predicate ManifestSound(t: Tools, m: Manifest, w: World, orig: map<Path, Content>) {
    && (m.status == NotStarted || m.dir.Some?)
    && (forall i :: 0 <= i < |m.entries| ==> BackupSound(m.entries[i], i, m.dir, w.backups) && PostSound(t, m.entries[i]))
    && (forall i :: 0 <= i < |m.entries| && m.entries[i].backup.Some? ==>
          Reached(t, m, orig, m.entries[i].path, m.entries[i].pre))
    && w.live.Keys == orig.Keys
    && (forall p :: p in w.live ==> Reached(t, m, orig, p, w.live[p]))
  }

  /** The safety property of the protocol, as it reads from durable state alone. */
  ghost predicate Sound(t: Tools, w: World, orig: map<Path, Content>) {
    ManifestSound(t, w.disk, w, orig)
  }

  /** The same plan row; only protocol bookkeeping may differ. */
  predicate SameEntry(a: Entry, b: Entry) {
    a.(backup := None, post := None, rolledBack := false) == b.(backup := None, post := None, rolledBack := false)
  }

  predicate SamePlan(a: Manifest, b: Manifest) {
    |a.entries| == |b.entries| && forall i :: 0 <= i < |a.entries| ==> SameEntry(a.entries[i], b.entries[i])
  }

  /** No recorded backup is forgotten. */
  predicate KeepsBackups(a: Manifest, b: Manifest) {
    |a.entries| == |b.entries| && forall i :: 0 <= i < |a.entries| && a.entries[i].backup.Some? ==> b.entries[i].backup.Some?
  }

  /** Every file is the candidate of at most one row. */
  predicate DistinctPaths(es: seq<Entry>) {
    forall i, j :: 0 <= i < j < |es| && es[i].candidate && es[j].candidate ==> es[i].path != es[j].path
  }

  /** Rows naming one file were planned from the same content of it. */
  predicate OnePre(m: Manifest) {
    forall i, j :: 0 <= i < j < |m.entries| && m.entries[i].candidate && m.entries[j].candidate ==>
      m.entries[i].path == m.entries[j].path ==> m.entries[i].pre == m.entries[j].pre
  }

  // ---------------------------------------------------------------- effect of each durable step

  /** A manifest that records more backups allows a file no less. */
  lemma ReachedStays(t: Tools, a: Manifest, b: Manifest, orig: map<Path, Content>, p: Path, c: Content)
    requires SamePlan(a, b) && KeepsBackups(a, b) && Reached(t, a, orig, p, c)
    ensures Reached(t, b, orig, p, c)
  {
    forall i: nat | BackedUpAt(a, p, i) ensures BackedUpAt(b, p, i) && SameEntry(a.entries[i], b.entries[i]) {
      assert SameEntry(a.entries[i], b.entries[i]);
    }
    if c != orig[p] {
      var i: nat :| HoldsOriginal(a, orig, p, i);
      assert BackedUpAt(a, p, i) && HoldsOriginal(b, orig, p, i);
      var j: nat :| ReplacedBy(t, a, orig, p, c, j);
      assert BackedUpAt(a, p, j) && ReplacedBy(t, b, orig, p, c, j);
    }
  }

  /** Copying entry i's file to its own key disturbs no recorded backup. */
  lemma SoundAfterBackup(t: Tools, w: World, i: nat, dir: Dir, c: Content, orig: map<Path, Content>)
    requires Sound(t, w, orig) && i < |w.disk.entries| && w.disk.entries[i].backup.None?
    ensures Sound(t, w.(backups := w.backups[BackupKey(dir, i) := c]), orig)
  {
  }

  /** Once entry i's backup is recorded its file may be replaced, and may be put back. */
  lemma SoundAfterLive(t: Tools, w: World, m: Manifest, i: nat, c: Content, orig: map<Path, Content>)
    requires ManifestSound(t, m, w, orig)
    requires i < |m.entries| && m.entries[i].backup.Some?
    requires c == m.entries[i].pre || IsReplaced(t, m.entries[i], c)
    ensures ManifestSound(t, m, w.(live := w.live[m.entries[i].path := c]), orig)
  {
    var e := m.entries[i];
    var p := e.path;
    assert BackupSound(e, i, m.dir, w.backups) && Reached(t, m, orig, p, e.pre);
    if c != e.pre {
      assert BackedUpAt(m, p, i);
      assert ReplacedBy(t, m, orig, p, c, i);
      if e.pre == orig[p] {
        assert HoldsOriginal(m, orig, p, i);
      }
    }
    assert Reached(t, m, orig, p, c);
    var w' := w.(live := w.live[p := c]);
    assert w'.live.Keys == w.live.Keys + {p};
    forall q | q in w'.live ensures Reached(t, m, orig, q, w'.live[q]) {
      if q != p {
        assert Reached(t, m, orig, q, w.live[q]);
      }
    }
  }

  /** A manifest of the same plan that forgets no backup is as sound as its entries are. */
  lemma GrowsSound(t: Tools, m: Manifest, m': Manifest, w: World, orig: map<Path, Content>)
    requires ManifestSound(t, m, w, orig) && SamePlan(m, m') && KeepsBackups(m, m')
    requires m'.status == NotStarted || m'.dir.Some?
    requires forall i :: 0 <= i < |m'.entries| ==>
               BackupSound(m'.entries[i], i, m'.dir, w.backups) && PostSound(t, m'.entries[i])
    requires forall i :: 0 <= i < |m'.entries| && m.entries[i].backup.None? && m'.entries[i].backup.Some? ==>
               Reached(t, m', orig, m'.entries[i].path, m'.entries[i].pre)
    ensures ManifestSound(t, m', w, orig)
  {
    forall i | 0 <= i < |m'.entries| && m'.entries[i].backup.Some?
      ensures Reached(t, m', orig, m'.entries[i].path, m'.entries[i].pre)
    {
      if m.entries[i].backup.Some? {
        assert SameEntry(m.entries[i], m'.entries[i]);
        ReachedStays(t, m, m', orig, m.entries[i].path, m.entries[i].pre);
      }
    }
    forall p | p in w.live ensures Reached(t, m', orig, p, w.live[p]) {
      ReachedStays(t, m, m', orig, p, w.live[p]);
    }
  }

  /** Recording a backup of reachable content, or a post-state, keeps the manifest sound. */
  lemma UpdateEntry(t: Tools, m: Manifest, i: nat, e: Entry, w: World, orig: map<Path, Content>)
    requires ManifestSound(t, m, w, orig) && i < |m.entries| && SameEntry(m.entries[i], e)
    requires m.entries[i].backup.Some? ==> e.backup.Some?
    requires BackupSound(e, i, m.dir, w.backups) && PostSound(t, e)
    requires e.backup.Some? ==> Reached(t, m, orig, e.path, e.pre)
    ensures ManifestSound(t, m.(entries := m.entries[i := e]), w, orig)
    ensures SamePlan(m, m.(entries := m.entries[i := e]))
  {
    var m' := m.(entries := m.entries[i := e]);
    assert SamePlan(m, m') && KeepsBackups(m, m');
    if e.backup.Some? {
      ReachedStays(t, m, m', orig, e.path, e.pre);
    }
    GrowsSound(t, m, m', w, orig);
  }

  /** When rows of one file agree on what they saw, every recorded backup is the original. */
  lemma RecordedIsOriginal(t: Tools, m: Manifest, w: World, orig: map<Path, Content>, i: nat)
    requires ManifestSound(t, m, w, orig) && OnePre(m) && i < |m.entries| && m.entries[i].backup.Some?
    ensures m.entries[i].path in orig && m.entries[i].pre == orig[m.entries[i].path] && m.entries[i].candidate
  {
    var p := m.entries[i].path;
    assert BackupSound(m.entries[i], i, m.dir, w.backups) && Reached(t, m, orig, p, m.entries[i].pre);
  }

  lemma OnePreKept(a: Manifest, b: Manifest)
    requires SamePlan(a, b)
    ensures OnePre(a) <==> OnePre(b)
    ensures DistinctPaths(a.entries) <==> DistinctPaths(b.entries)
    ensures DistinctPaths(a.entries) ==> OnePre(a)
  {
    assert forall i :: 0 <= i < |a.entries| && SameEntry(a.entries[i], b.entries[i]) ==>
             a.entries[i].path == b.entries[i].path && a.entries[i].pre == b.entries[i].pre &&
             a.entries[i].candidate == b.entries[i].candidate;
  }

  // ---------------------------------------------------------------- apply

  /** Everything but file i's live content is as before. */
  predicate OnlyLiveOf(p: Path, before: map<Path, Content>, after: map<Path, Content>) {
    before.Keys == after.Keys && forall q :: q in before && q != p ==> after[q] == before[q]
  }

  predicate SameElsewhere(a: seq<Entry>, b: seq<Entry>, i: nat) {
    |a| == |b| && forall j :: 0 <= j < |a| && j != i ==> a[j] == b[j]
  }

  /** A candidate that apply has finished with. */
  predicate EntryDone(e: Entry, live: map<Path, Content>) {
    e.candidate ==> e.backup.Some? && e.path in live && e.post == Some(live[e.path])
  }

  /**
    Exactly what an undisturbed apply needs of a candidate: it passes validation, and its file
    is already the recorded post-state or the tag writer passes its checks on it.
   */
  predicate ReadyEntry(t: Tools, w: World, e: Entry) {
    e.candidate ==>
      && ValidEntry(t, w, e, false, false)
      && (e.post == Some(w.live[e.path]) || IsReplaced(t, e, t.write(e.pre, Unique(t, e.replacement))))
  }

  /** The crash window: backed up and replaced, but what the file now holds is recorded nowhere. */
  predicate StuckEntry(w: World, e: Entry) {
    && e.candidate && e.backup.Some? && e.path in w.live
    && w.live[e.path] != e.pre && e.post != Some(w.live[e.path])
  }

  predicate Stuck(w: World, i: nat) {
    i < |w.disk.entries| && StuckEntry(w, w.disk.entries[i])
  }

  /** The file is untouched, or its backup is recorded. */
  predicate Covered(e: Entry, live: map<Path, Content>) {
    e.candidate ==> e.path in live && (live[e.path] == e.pre || e.backup.Some?)
  }

  /** A ready candidate that apply was stopped on is ready again or in the crash window, nothing else. */
  lemma CoveredEntry(t: Tools, w0: World, e0: Entry, w: World, e: Entry)
    requires SameEntry(e0, e) && w.db == w0.db && ReadyEntry(t, w0, e0)
    requires PostSound(t, e) && Covered(e, w.live)
    requires (w.live == w0.live && e == e0) || !e.candidate ||
             IsReplaced(t, e, t.write(e.pre, Unique(t, e.replacement))) || EntryDone(e, w.live)
    ensures ReadyEntry(t, w, e) || StuckEntry(w, e)
  {
  }

  predicate DirInUse(backups: map<BackupKey, Content>, dir: Dir) {
    exists k :: k in backups && k.dir == dir
  }

  predicate SameAt(p: Path, a: map<Path, Content>, b: map<Path, Content>) {
    (p in a <==> p in b) && (p in a ==> p in b && a[p] == b[p])
  }

  /** Entries from i on, and their files, are still as the run found them. */
  predicate Pending(m0: Manifest, live0: map<Path, Content>, m: Manifest, live: map<Path, Content>, i: nat) {
    && |m.entries| == |m0.entries|
    && (forall j :: i <= j < |m.entries| ==>
          m.entries[j] == m0.entries[j] && (m.entries[j].candidate ==> SameAt(m.entries[j].path, live0, live)))
  }

  predicate DoneBefore(m: Manifest, live: map<Path, Content>, i: nat) {
    forall j :: 0 <= j < i && j < |m.entries| ==> EntryDone(m.entries[j], live)
  }

  predicate ReadyBefore(t: Tools, w: World, m: Manifest, i: nat) {
    forall j :: 0 <= j < i && j < |m.entries| ==> ReadyEntry(t, w, m.entries[j])
  }

  /** What the loop knows i entries in, when every file has one row. */
  predicate LoopKnows(t: Tools, w0: World, m: Manifest, live: map<Path, Content>, i: nat) {
    Pending(w0.disk, w0.live, m, live, i) && DoneBefore(m, live, i) && ReadyBefore(t, w0, w0.disk, i)
  }

  /** Processing candidate i leaves both sides of the loop as they were. */
  lemma LoopStep(m0: Manifest, live0: map<Path, Content>, m: Manifest, live: map<Path, Content>, i: nat,
                 m': Manifest, live': map<Path, Content>)
    requires DistinctPaths(m.entries) && i < |m.entries|
    requires Pending(m0, live0, m, live, i) && DoneBefore(m, live, i)
    requires SameElsewhere(m.entries, m'.entries, i)
    requires if m.entries[i].candidate then OnlyLiveOf(m.entries[i].path, live, live') else live == live'
    ensures Pending(m0, live0, m', live', i + 1) && DoneBefore(m', live', i)
  {
    forall j | 0 <= j < i ensures EntryDone(m'.entries[j], live') {
      if m.entries[j].candidate {
        assert EntryDone(m.entries[j], live);
      }
    }
    forall j | i + 1 <= j < |m.entries| && m.entries[j].candidate
      ensures SameAt(m.entries[j].path, live0, live')
    {
      assert SameAt(m.entries[j].path, live0, live);
    }
  }

  /** Readiness of a pending entry does not depend on what the run did to other files. */
  lemma PendingReady(t: Tools, w0: World, w: World, m: Manifest, i: nat)
    requires i < |m.entries| && Pending(w0.disk, w0.live, m, w.live, i) && w.db == w0.db
    ensures ReadyEntry(t, w, m.entries[i]) <==> ReadyEntry(t, w0, w0.disk.entries[i])
  {
  }

  /** Apply may start: dry-run manifest and a backup directory that is new or this run's own. */
  predicate MayStart(w: World, target: Dir) {
    && w.disk.mode == DryRun
    && (DirInUse(w.backups, target) ==>
          w.disk.dir == Some(target) && (w.disk.status == InProgress || w.disk.status == Failing))
    && (w.disk.dir.Some? ==> w.disk.dir.value == target)
  }

  function Target(w: World, requested: Option<Dir>, newDir: Dir): Dir {
    if requested.Some? then requested.value else if w.disk.dir.Some? then w.disk.dir.value else newDir
  }

  /** The manifest of a run under way, or stopped, in directory target. */
  predicate Running(m: Manifest, target: Dir) {
    m.mode == DryRun && m.dir == Some(target) && (m.status == InProgress || m.status == Failing)
  }

  /** What work on entry i may do to a manifest. */
  predicate Stepped(m0: Manifest, m: Manifest, i: nat, target: Dir) {
    Running(m, target) && SamePlan(m0, m) && KeepsBackups(m0, m) && SameElsewhere(m0.entries, m.entries, i)
  }

  predicate AllReady(t: Tools, w: World) {
    forall i :: 0 <= i < |w.disk.entries| ==> ReadyEntry(t, w, w.disk.entries[i])
  }

  lemma ReadyKept(t: Tools, w: World, w': World)
    requires w'.disk.entries == w.disk.entries && w'.live == w.live && w'.db == w.db
    ensures AllReady(t, w') <==> AllReady(t, w)
  {
  }

  /** Every entry of m would be ready, or is in the crash window. */
  predicate ReadyOrStuck(t: Tools, w: World, m: Manifest) {
    forall i :: 0 <= i < |m.entries| ==> ReadyEntry(t, w, m.entries[i]) || StuckEntry(w, m.entries[i])
  }

  /** Stopped on entry i of a ready plan, every entry is ready or in the crash window. */
  lemma StoppedRun(t: Tools, w0: World, before: Manifest, live: map<Path, Content>, i: nat,
                   w: World, m: Manifest, orig: map<Path, Content>)
    requires ManifestSound(t, m, w, orig) && w.db == w0.db && AllReady(t, w0)
    requires DistinctPaths(before.entries) && i < |before.entries| && SamePlan(w0.disk, before)
    requires LoopKnows(t, w0, before, live, i) && SameElsewhere(before.entries, m.entries, i)
    requires if before.entries[i].candidate then OnlyLiveOf(before.entries[i].path, live, w.live) else live == w.live
    requires ReadyEntry(t, w, m.entries[i]) || StuckEntry(w, m.entries[i])
    ensures ReadyOrStuck(t, w, m)
  {
    LoopStep(w0.disk, w0.live, before, live, i, m, w.live);
    forall j | 0 <= j < |m.entries| ensures ReadyEntry(t, w, m.entries[j]) || StuckEntry(w, m.entries[j]) {
      assert ReadyEntry(t, w0, w0.disk.entries[j]);
      assert SameEntry(w0.disk.entries[j], before.entries[j]);
      if j < i {
        assert EntryDone(m.entries[j], w.live) && PostSound(t, m.entries[j]);
      }
    }
  }

  /** Every entry of a finished run is ready. */
  lemma FinishedRun(t: Tools, w0: World, w: World, m: Manifest, orig: map<Path, Content>)
    requires ManifestSound(t, m, w, orig) && w.db == w0.db && AllReady(t, w0) && SamePlan(w0.disk, m)
    requires DoneBefore(m, w.live, |m.entries|)
    ensures ReadyOrStuck(t, w, m)
  {
    forall j | 0 <= j < |m.entries| ensures ReadyEntry(t, w, m.entries[j]) {
      assert ReadyEntry(t, w0, w0.disk.entries[j]);
      assert SameEntry(w0.disk.entries[j], m.entries[j]);
      assert EntryDone(m.entries[j], w.live) && PostSound(t, m.entries[j]);
    }
  }

  /**
    A candidate is ready exactly when its database row still names the planned recording with
    the planned genres, its file has content this run knows, and the tag writer does its job.
   */
  lemma ReadyWhen(t: Tools, w: World, e: Entry)
    requires e.candidate
    ensures ReadyEntry(t, w, e) <==>
              && e.media in w.db && w.db[e.media].identity == e.identity && !w.db[e.media].missing
              && SameGenres(t.norm, w.db[e.media].genres, e.dbGenres)
              && e.path in w.live && w.live[e.path].tags == e.pre.tags
              && (e.post == Some(w.live[e.path]) ||
                  (w.live[e.path] == e.pre &&
                   var written := t.write(e.pre, Unique(t, e.replacement));
                   written.tags == e.pre.tags && SameGenres(t.norm, written.genres, Unique(t, e.replacement))))
  {
  }

  /** A finished candidate's file has its own other tags and the genres that were asked for. */
  lemma DoneIsAsAsked(t: Tools, w: World, orig: map<Path, Content>, i: nat)
    requires Sound(t, w, orig) && i < |w.disk.entries| && w.disk.entries[i].candidate && EntryDone(w.disk.entries[i], w.live)
    ensures var e := w.disk.entries[i];
            w.live[e.path].tags == e.pre.tags && AsAsked(t, e.replacement, w.live[e.path].genres)
  {
    assert PostSound(t, w.disk.entries[i]);
    UniqueIs(t, w.disk.entries[i].replacement);
  }

  lemma AllDoneAsAsked(t: Tools, w: World, orig: map<Path, Content>)
    requires Sound(t, w, orig) && DoneBefore(w.disk, w.live, |w.disk.entries|)
    ensures forall i :: 0 <= i < |w.disk.entries| && w.disk.entries[i].candidate ==>
              var e := w.disk.entries[i];
              e.path in w.live && w.live[e.path].tags == e.pre.tags && AsAsked(t, e.replacement, w.live[e.path].genres)
  {
    forall i | 0 <= i < |w.disk.entries| && w.disk.entries[i].candidate
      ensures var e := w.disk.entries[i];
              e.path in w.live && w.live[e.path].tags == e.pre.tags && AsAsked(t, e.replacement, w.live[e.path].genres)
    {
      DoneIsAsAsked(t, w, orig, i);
    }
  }

  /** Backups in other directories than `dir` are as they were. */
  predicate KeepsForeign(before: map<BackupKey, Content>, after: map<BackupKey, Content>, dir: Dir) {
    forall k :: k in before && k.dir != dir ==> k in after && after[k] == before[k]
  }

  // ---------------------------------------------------------------- rollback

  predicate MayRollBack(m: Manifest) {
    (m.mode == Applied || (m.mode == DryRun && m.status == Failing)) && m.dir.Some?
  }

  /** No earlier entry has a recorded backup of entry i's file. */
  predicate FirstAt(m: Manifest, i: nat) {
    forall j :: 0 <= j < i < |m.entries| && m.entries[j].backup.Some? ==> m.entries[j].path != m.entries[i].path
  }

  /** Entry i passes rollback's validation when its turn comes: a file already put back has its original bytes. */
  predicate MayRestore(t: Tools, w: World, m: Manifest, i: nat, force: bool) {
    i < |m.entries| && ValidEntry(t, w, m.entries[i], true, force || !FirstAt(m, i))
  }

  /**
    It passes exactly when its database row names the planned recording, with the planned or
    the replaced genres, and its file may be put back: forced, put back already for an earlier
    row, or with content this run knows.
   */
  lemma MayRestoreWhen(t: Tools, w: World, m: Manifest, i: nat, force: bool)
    requires i < |m.entries|
    ensures MayRestore(t, w, m, i, force) <==>
              var e := m.entries[i];
              && e.media in w.db && w.db[e.media].identity == e.identity && !w.db[e.media].missing
              && (SameGenres(t.norm, w.db[e.media].genres, e.dbGenres) ||
                  SameGenres(t.norm, w.db[e.media].genres, e.replacement))
              && (force ||
                  (exists j :: 0 <= j < i && m.entries[j].backup.Some? && m.entries[j].path == e.path) ||
                  (e.path in w.live && w.live[e.path].tags == e.pre.tags &&
                   (w.live[e.path] == e.pre || e.post == Some(w.live[e.path]))))
  {
  }

  /** Every backed-up entry passes rollback's validation. */
  predicate CanRestore(t: Tools, w: World, m: Manifest, force: bool) {
    forall i :: 0 <= i < |m.entries| && m.entries[i].backup.Some? ==> MayRestore(t, w, m, i, force)
  }

  /** Files only ever move back to their original bytes. */
  predicate Toward(live0: map<Path, Content>, live: map<Path, Content>, orig: map<Path, Content>) {
    && live.Keys == live0.Keys == orig.Keys
    && (forall p :: p in live ==> live[p] == live0[p] || live[p] == orig[p])
  }

  predicate SameButRolledBack(m0: Manifest, m: Manifest) {
    && m == m0.(entries := m.entries) && |m.entries| == |m0.entries|
    && (forall i :: 0 <= i < |m.entries| ==>
          m.entries[i].(rolledBack := false) == m0.entries[i].(rolledBack := false))
  }

  /** Entry i is recorded as rolled back, and no other entry was touched. */
  predicate Restored(m0: Manifest, m: Manifest, i: nat) {
    i < |m0.entries| && m == m0.(entries := m0.entries[i := m0.entries[i].(rolledBack := true)])
  }

  lemma MarkedNext(m0: Manifest, m: Manifest, i: nat)
    requires i < |m0.entries| && Marked(m0, i)
    requires if m0.entries[i].backup.Some? then Restored(m0, m, i) else m == m0
    ensures Marked(m, i + 1)
  {
  }

  /** The backed-up entries before i are recorded as rolled back. */
  predicate Marked(m: Manifest, i: nat) {
    forall j :: 0 <= j < i && j < |m.entries| && m.entries[j].backup.Some? ==> m.entries[j].rolledBack
  }

  lemma SameButPlan(a: Manifest, b: Manifest)
    requires SameButRolledBack(a, b)
    ensures SamePlan(a, b) && KeepsBackups(a, b)
  {
    forall i | 0 <= i < |a.entries| ensures SameEntry(a.entries[i], b.entries[i]) {
      assert b.entries[i].(rolledBack := false) == a.entries[i].(rolledBack := false);
    }
  }

  predicate RestoredBefore(m: Manifest, live: map<Path, Content>, orig: map<Path, Content>, i: nat) {
    forall j :: 0 <= j < i && j < |m.entries| && m.entries[j].backup.Some? ==>
      m.entries[j].path in orig && m.entries[j].path in live && live[m.entries[j].path] == orig[m.entries[j].path]
  }

  /** Files not yet visited, from entry i on, are still as rollback found them. */
  predicate Waiting(m: Manifest, live0: map<Path, Content>, live: map<Path, Content>, i: nat) {
    forall j :: i <= j < |m.entries| && m.entries[j].backup.Some? && FirstAt(m, j) ==>
      SameAt(m.entries[j].path, live0, live)
  }

  lemma FirstAtSame(a: Manifest, b: Manifest, i: nat)
    requires SameButRolledBack(a, b)
    ensures FirstAt(a, i) <==> FirstAt(b, i)
  {
    assert forall j :: 0 <= j < |a.entries| ==> b.entries[j].(rolledBack := false) == a.entries[j].(rolledBack := false);
  }

  lemma WaitingStep(orig: map<Path, Content>, m: Manifest, live0: map<Path, Content>, i: nat,
                    live: map<Path, Content>, m': Manifest, live': map<Path, Content>)
    requires i < |m.entries| && SameButRolledBack(m, m')
    requires Waiting(m, live0, live, i)
    requires if m.entries[i].backup.Some? then OnlyLiveOf(m.entries[i].path, live, live') else live == live'
    ensures Waiting(m', live0, live', i + 1)
  {
    forall j | i + 1 <= j < |m'.entries| && m'.entries[j].backup.Some? && FirstAt(m', j)
      ensures SameAt(m'.entries[j].path, live0, live')
    {
      assert m'.entries[j].(rolledBack := false) == m.entries[j].(rolledBack := false);
      FirstAtSame(m, m', j);
      assert SameAt(m.entries[j].path, live0, live);
    }
  }

  lemma RestoredStep(m: Manifest, live: map<Path, Content>, orig: map<Path, Content>, i: nat,
                     m': Manifest, live': map<Path, Content>)
    requires i < |m.entries| && SameButRolledBack(m, m') && Toward(live, live', orig)
    requires RestoredBefore(m, live, orig, i)
    requires m.entries[i].backup.Some? ==>
               m.entries[i].path in orig && m.entries[i].path in live' &&
               live'[m.entries[i].path] == orig[m.entries[i].path]
    ensures RestoredBefore(m', live', orig, i + 1)
  {
    forall j | 0 <= j < i + 1 && m'.entries[j].backup.Some?
      ensures m'.entries[j].path in orig && m'.entries[j].path in live' &&
              live'[m'.entries[j].path] == orig[m'.entries[j].path]
    {
      assert m'.entries[j].(rolledBack := false) == m.entries[j].(rolledBack := false);
    }
  }

  /** With every backed-up file restored, the whole library is byte for byte as it was. */
  lemma AllRestored(t: Tools, w: World, orig: map<Path, Content>)
    requires Sound(t, w, orig) && RestoredBefore(w.disk, w.live, orig, |w.disk.entries|)
    ensures w.live == orig
  {
    forall p | p in w.live ensures w.live[p] == orig[p] {
      assert Reached(t, w.disk, orig, p, w.live[p]);
    }
  }

  lemma TowardStep(live0: map<Path, Content>, live: map<Path, Content>, p: Path, live': map<Path, Content>,
                   orig: map<Path, Content>)
    requires Toward(live0, live, orig) && p in orig
    requires live' == live || live' == live[p := orig[p]]
    ensures Toward(live, live', orig) && Toward(live0, live', orig) && OnlyLiveOf(p, live, live')
  {
    assert live'.Keys == live.Keys;
  }

  /** What rollback knows i entries in, when rows of one file agree on its original. */
  predicate Progress(t: Tools, w0: World, m: Manifest, live: map<Path, Content>, orig: map<Path, Content>, i: nat,
                     force: bool)
  {
    && Toward(w0.live, live, orig) && RestoredBefore(m, live, orig, i) && Waiting(m, w0.live, live, i)
    && (forall j :: 0 <= j < i && j < |w0.disk.entries| && w0.disk.entries[j].backup.Some? ==>
          MayRestore(t, w0, w0.disk, j, force))
  }

  lemma ProgressStep(t: Tools, w0: World, m: Manifest, live: map<Path, Content>, orig: map<Path, Content>, i: nat,
                     force: bool, m': Manifest, live': map<Path, Content>)
    requires i < |m.entries| == |w0.disk.entries| && SameButRolledBack(m, m')
    requires Progress(t, w0, m, live, orig, i, force) && Toward(live, live', orig)
    requires m.entries[i].backup.Some? <==> w0.disk.entries[i].backup.Some?
    requires if m.entries[i].backup.Some?
             then OnlyLiveOf(m.entries[i].path, live, live') && m.entries[i].path in live' &&
                  live'[m.entries[i].path] == orig[m.entries[i].path] && MayRestore(t, w0, w0.disk, i, force)
             else live == live'
    ensures Progress(t, w0, m', live', orig, i + 1, force)
  {
    WaitingStep(orig, m, w0.live, i, live, m', live');
    RestoredStep(m, live, orig, i, m', live');
  }

  /** At its turn, entry i passes exactly when it could be restored from the state rollback found. */
  lemma TurnComes(t: Tools, w0: World, w: World, m: Manifest, orig: map<Path, Content>, i: nat, force: bool)
    requires ManifestSound(t, m, w, orig) && OnePre(m) && SameButRolledBack(w0.disk, m) && w.db == w0.db
    requires i < |m.entries| && m.entries[i].backup.Some?
    requires Waiting(m, w0.live, w.live, i) && RestoredBefore(m, w.live, orig, i)
    ensures ValidEntry(t, w, m.entries[i], true, force) <==> MayRestore(t, w0, w0.disk, i, force)
  {
    assert m.entries[i].(rolledBack := false) == w0.disk.entries[i].(rolledBack := false);
    FirstAtSame(w0.disk, m, i);
    if FirstAt(m, i) {
      assert SameAt(m.entries[i].path, w0.live, w.live);
    } else {
      RecordedIsOriginal(t, m, w, orig, i);
    }
  }

  // ---------------------------------------------------------------- reading the property

  /** p holds its original with the genre replaced as entry j asks, and entry i's durable backup has the original bytes. */
  predicate RecoverableFrom(t: Tools, w: World, orig: map<Path, Content>, p: Path, i: nat, j: nat) {
    && p in orig && p in w.live && i < |w.disk.entries| && j < |w.disk.entries|
    && var b, r := w.disk.entries[i], w.disk.entries[j];
       && b.candidate && b.path == p && r.candidate && r.path == p && b.backup.Some?
       && b.backup.value.key in w.backups && w.backups[b.backup.value.key] == orig[p]
       && w.live[p].tags == orig[p].tags
       && AsAsked(t, r.replacement, w.live[p].genres)
  }

  /** In a sound state every file is its original, or is recoverable from a recorded backup. */
  lemma EveryFileIsRecoverable(t: Tools, w: World, orig: map<Path, Content>, p: Path)
    requires Sound(t, w, orig) && p in orig
    ensures p in w.live
    ensures w.live[p] == orig[p] || exists i, j :: RecoverableFrom(t, w, orig, p, i, j)
    ensures OnePre(w.disk) ==> w.live[p] == orig[p] || exists j :: RecoverableFrom(t, w, orig, p, j, j)
  {
    assert Reached(t, w.disk, orig, p, w.live[p]);
    if w.live[p] != orig[p] {
      var i: nat :| HoldsOriginal(w.disk, orig, p, i);
      var j: nat :| ReplacedBy(t, w.disk, orig, p, w.live[p], j);
      assert BackupSound(w.disk.entries[i], i, w.disk.dir, w.backups);
      assert BackupSound(w.disk.entries[j], j, w.disk.dir, w.backups);
      UniqueIs(t, w.disk.entries[j].replacement);
      assert RecoverableFrom(t, w, orig, p, i, j);
      if OnePre(w.disk) {
        RecordedIsOriginal(t, w.disk, w, orig, j);
        assert RecoverableFrom(t, w, orig, p, j, j);
      }
    }
  }

  predicate DbAccepts(t: Tools, w: World) {
    forall i :: 0 <= i < |w.disk.entries| && w.disk.entries[i].candidate ==> DbMatches(t, w, w.disk.entries[i], true)
  }

  /** After a finished apply, rollback is accepted, forced or not, exactly as far as the database rows are. */
  lemma CompletedApplyCanRestore(t: Tools, w: World, orig: map<Path, Content>, force: bool)
    requires Sound(t, w, orig) && DoneBefore(w.disk, w.live, |w.disk.entries|)
    ensures CanRestore(t, w, w.disk, force) <==> DbAccepts(t, w)
  {
    forall i | 0 <= i < |w.disk.entries| && w.disk.entries[i].candidate
      ensures MayRestore(t, w, w.disk, i, force) <==> DbMatches(t, w, w.disk.entries[i], true)
      ensures w.disk.entries[i].backup.Some?
    {
      var e := w.disk.entries[i];
      assert EntryDone(e, w.live) && PostSound(t, e);
    }
    assert forall i :: 0 <= i < |w.disk.entries| ==> BackupSound(w.disk.entries[i], i, w.disk.dir, w.backups);
  }

  /** With --force only the database rows are checked. */
  lemma ForceCanRestore(t: Tools, w: World, orig: map<Path, Content>)
    requires Sound(t, w, orig) && DbAccepts(t, w)
    ensures CanRestore(t, w, w.disk, true)
  {
    forall i | 0 <= i < |w.disk.entries| && w.disk.entries[i].backup.Some?
      ensures MayRestore(t, w, w.disk, i, true)
    {
      assert BackupSound(w.disk.entries[i], i, w.disk.dir, w.backups);
    }
  }

  /** In the crash window neither a resumed apply nor a plain rollback finds what it needs. */
  lemma StuckIsUnknown(t: Tools, w: World, i: nat)
    requires Stuck(w, i)
    ensures !AllReady(t, w)
    ensures FirstAt(w.disk, i) ==> !CanRestore(t, w, w.disk, false)
  {
    assert !ReadyEntry(t, w, w.disk.entries[i]);
    if FirstAt(w.disk, i) {
      assert !MayRestore(t, w, w.disk, i, false);
    }
  }

  /** A stopped run is ready again exactly when no candidate is in the crash window. */
  lemma ReadyUnlessStuck(t: Tools, w: World)
    requires ReadyOrStuck(t, w, w.disk)
    ensures AllReady(t, w) <==> !exists i :: Stuck(w, i)
  {
    if i: nat :| Stuck(w, i) {
      StuckIsUnknown(t, w, i);
    } else {
      forall i | 0 <= i < |w.disk.entries| ensures ReadyEntry(t, w, w.disk.entries[i]) {
        assert !Stuck(w, i);
      }
    }
  }

  lemma DistinctFirst(t: Tools, w: World, orig: map<Path, Content>, i: nat)
    requires Sound(t, w, orig) && DistinctPaths(w.disk.entries) && i < |w.disk.entries| && w.disk.entries[i].candidate
    ensures FirstAt(w.disk, i)
  {
    assert forall j :: 0 <= j < |w.disk.entries| ==> BackupSound(w.disk.entries[j], j, w.disk.dir, w.backups);
  }

  lemma SamePlanDb(t: Tools, w0: World, w: World)
    requires DbAccepts(t, w0) && w.db == w0.db && SamePlan(w0.disk, w.disk)
    ensures DbAccepts(t, w)
  {
    forall i | 0 <= i < |w.disk.entries| && w.disk.entries[i].candidate
      ensures DbMatches(t, w, w.disk.entries[i], true)
    {
      assert SameEntry(w0.disk.entries[i], w.disk.entries[i]);
      assert DbMatches(t, w0, w0.disk.entries[i], true);
    }
  }

  // ---------------------------------------------------------------- a library scan after apply

  /** Candidates are different rows of the library database. */
  predicate DistinctMedia(es: seq<Entry>) {
    forall i, j :: 0 <= i < j < |es| && es[i].candidate && es[j].candidate ==> es[i].media != es[j].media
  }

  /** Every candidate's row now has the genres of its file, and is otherwise as it was. */
  predicate Rescanned(es: seq<Entry>, n: nat, live: map<Path, Content>, db0: map<string, DbRow>, db: map<string, DbRow>) {
    && db.Keys == db0.Keys
    && (forall i :: 0 <= i < |es| && es[i].candidate && es[i].media in db0 ==>
          db[es[i].media] == if i < n && es[i].path in live then db0[es[i].media].(genres := live[es[i].path].genres)
                             else db0[es[i].media])
  }

  /** Dropping repeats does not change how the replacement reads, or leaves what the database had anyway. */
  predicate ReadsBackAsPlanned(t: Tools, m: Manifest) {
    forall i :: 0 <= i < |m.entries| && m.entries[i].candidate ==>
      var kept := NormAll(t.norm, Unique(t, m.entries[i].replacement));
      kept == NormAll(t.norm, m.entries[i].replacement) || kept == NormAll(t.norm, m.entries[i].dbGenres)
  }

  /** After a finished apply and a scan, the database accepts a rollback exactly when the replacements read back as planned. */
  lemma ScannedDbAccepts(t: Tools, w0: World, w: World, orig: map<Path, Content>)
    requires Sound(t, w0, orig) && DoneBefore(w0.disk, w0.live, |w0.disk.entries|) && DbAccepts(t, w0)
    requires w == w0.(db := w.db) && Rescanned(w.disk.entries, |w.disk.entries|, w.live, w0.db, w.db)
    ensures DbAccepts(t, w) <==> ReadsBackAsPlanned(t, w.disk)
  {
    forall i | 0 <= i < |w.disk.entries| && w.disk.entries[i].candidate
      ensures var e := w.disk.entries[i];
              var kept := NormAll(t.norm, Unique(t, e.replacement));
              DbMatches(t, w, e, true) <==>
              kept == NormAll(t.norm, e.replacement) || kept == NormAll(t.norm, e.dbGenres)
    {
      var e := w.disk.entries[i];
      assert DbMatches(t, w0, e, true) && EntryDone(e, w.live) && PostSound(t, e);
      assert NormAll(t.norm, w.db[e.media].genres) == NormAll(t.norm, Unique(t, e.replacement));
    }
  }

  /** What str.strip is known by: stripped text stays as it is. */
  ghost predicate StripsOnce(t: Tools) { forall g :: t.strip(t.strip(g)) == t.strip(g) }

  lemma {:induction false} UniqueTwice(t: Tools, gs: seq<Genre>)
    requires StripsOnce(t)
    ensures Unique(t, Unique(t, gs)) == Unique(t, gs)
  {
    if gs != [] {
      var front, last := Unique(t, gs[..|gs| - 1]), t.strip(gs[|gs| - 1]);
      UniqueTwice(t, gs[..|gs| - 1]);
      var all := front + [last];
      assert all[..|all| - 1] == front && all[|all| - 1] == last;
    }
  }

  /** A plan whose replacement lists came through unique_values always reads back. */
  lemma UniquePlanReadsBack(t: Tools, m: Manifest, lists: seq<seq<Genre>>)
    requires StripsOnce(t)
    requires |lists| == |m.entries|
    requires forall i :: 0 <= i < |m.entries| ==> m.entries[i].replacement == Unique(t, lists[i])
    ensures ReadsBackAsPlanned(t, m)
  {
    forall i | 0 <= i < |m.entries| ensures Unique(t, m.entries[i].replacement) == m.entries[i].replacement {
      UniqueTwice(t, lists[i]);
    }
  }

  /** A hand-edited list naming a genre twice does not. */
  lemma RepeatDoesNotReadBack(t: Tools, m: Manifest, g: Genre, i: nat)
    requires i < |m.entries| && m.entries[i].candidate && m.entries[i].replacement == [g, g]
    requires t.strip(g) != "" && t.norm(t.strip(g)) != "" && NormAll(t.norm, m.entries[i].dbGenres) != NormAll(t.norm, [t.strip(g)])
    ensures !ReadsBackAsPlanned(t, m)
  {
    var gs, one := [g, g], [t.strip(g)];
    assert gs[..1] == [g] && [g][..0] == [];
    assert Unique(t, [g]) == one;
    assert t.norm(t.strip(g)) in NormAll(t.norm, one) by {
      assert NormAll(t.norm, one)[0] == t.norm(t.strip(g));
    }
    assert Unique(t, gs) == one;
    assert |NormAll(t.norm, gs)| == 2 && |NormAll(t.norm, one)| == 1;
  }

  /** One invocation of the tool, or a library scan rewriting the database, with its faults. */
  datatype Command =
    | DoApply(requested: Option<Dir>, newDir: Dir, confirm: bool, faults: seq<Fate>)
    | DoRollback(confirm: bool, force: bool, faults: seq<Fate>)
    | Scan(db: map<string, DbRow>)

  class Repair {
    var w: World
    var fates: seq<Fate>
    const t: Tools
    ghost const orig: map<Path, Content>

    /** A fresh dry-run manifest: nothing is recorded yet; rows may share files. */
    constructor (live: map<Path, Content>, backups: map<BackupKey, Content>, db: map<string, DbRow>,
                 plan: seq<Entry>, t: Tools)
      requires forall i :: 0 <= i < |plan| ==> plan[i].backup.None? && plan[i].post.None?
      ensures Sound(t, w, orig) && orig == live && this.t == t
      ensures w == World(live, backups, db, Manifest(DryRun, NotStarted, None, plan))
    {
      w := World(live, backups, db, Manifest(DryRun, NotStarted, None, plan));
      fates := [];
      this.t := t;
      orig := live;
    }

    method Next() returns (f: Fate)
      modifies this`fates
      ensures Quiet(old(fates)) ==> f == Go && Quiet(fates)
    {
      if fates == [] {
        return Go;
      }
      f := fates[0];
      fates := fates[1..];
    }

    /** atomic_write_json: the whole manifest replaces the durable one, or nothing happens. */
    method WriteManifest(m: Manifest) returns (r: Step)
      modifies this
      ensures w == if r.Fine? then old(w).(disk := m) else old(w)
      ensures Quiet(old(fates)) ==> r.Fine? && Quiet(fates)
    {
      var f := Next();
      if f == Go {
        w := w.(disk := m);
        return Fine;
      }
      return if f == Fail then Raised else Dead;
    }

    /** copy_backup from a live file to a backup key. */
    method CopyToBackup(p: Path, key: BackupKey) returns (r: Step)
      requires p in w.live
      modifies this
      ensures w == if r.Fine? then old(w).(backups := old(w).backups[key := old(w).live[p]]) else old(w)
      ensures Quiet(old(fates)) ==> r.Fine? && Quiet(fates)
    {
      var f := Next();
      if f == Go {
        w := w.(backups := w.backups[key := w.live[p]]);
        return Fine;
      }
      return if f == Fail then Raised else Dead;
    }

    /** copy_backup from a backup key over the live file. */
    method RestoreFromBackup(key: BackupKey, p: Path) returns (r: Step)
      requires key in w.backups
      modifies this
      ensures w == if r.Fine? then old(w).(live := old(w).live[p := old(w).backups[key]]) else old(w)
      ensures Quiet(old(fates)) ==> r.Fine? && Quiet(fates)
    {
      var f := Next();
      if f == Go {
        w := w.(live := w.live[p := w.backups[key]]);
        return Fine;
      }
      return if f == Fail then Raised else Dead;
    }

    /** replace_genres: write and verify a temporary copy, rename it over the file, touch and re-read. */
    method ReplaceGenres(p: Path, replacement: seq<Genre>) returns (r: Step, after: Content)
      requires p in w.live
      modifies this
      ensures after == t.write(old(w).live[p], replacement)
      ensures w == old(w) ||
              (Verified(t, old(w).live[p], after, replacement) && w == old(w).(live := old(w).live[p := after]))
      ensures r.Fine? ==> Verified(t, old(w).live[p], after, replacement) &&
                          w == old(w).(live := old(w).live[p := after])
      ensures Quiet(old(fates)) ==> Quiet(fates) && !r.Dead?
      ensures Quiet(old(fates)) && Verified(t, old(w).live[p], after, replacement) ==> r.Fine?
    {
      var before := w.live[p];
      after := t.write(before, replacement);
      var f := Next();
      if f != Go {
        return if f == Fail then Raised else Dead, after;
      }
      if !Verified(t, before, after, replacement) {
        return Raised, after;
      }
      f := Next();
      if f != Go {
        return if f == Fail then Raised else Dead, after;
      }
      w := w.(live := w.live[p := after]);
      f := Next();
      r := if f == Go then Fine else if f == Fail then Raised else Dead;
    }

    /** What one step of apply keeps while working on entry i, wherever it stops. */
    ghost predicate Working(w0: World, m0: Manifest, m: Manifest, i: nat, target: Dir)
      reads this
    {
      && Sound(t, w, orig) && ManifestSound(t, m, w, orig) && w.db == w0.db
      && Stepped(m0, m, i, target) && Stepped(m0, w.disk, i, target)
      && i < |m0.entries| && OnlyLiveOf(m0.entries[i].path, w0.live, w.live)
      && KeepsForeign(w0.backups, w.backups, target)
    }

    /** The backup half of an apply step: copy, check, and record durably before the file is touched. */
    method EnsureBackup(m0: Manifest, i: nat, target: Dir) returns (r: Step, m: Manifest)
      requires Sound(t, w, orig) && w.disk == m0 && Running(m0, target)
      requires i < |m0.entries| && m0.entries[i].candidate && m0.entries[i].backup.None?
      requires KnownContent(w, m0.entries[i])
      modifies this
      ensures Working(old(w), m0, m, i, target) && w.live == old(w).live
      ensures w.live[m0.entries[i].path] == m0.entries[i].pre
      ensures r.Fine? ==> w.disk == m && m.entries[i].backup.Some? && m.entries[i].post.None?
      ensures Quiet(old(fates)) ==> Quiet(fates) && r.Fine?
    {
      m := m0;
      var e := m.entries[i];
      var key := BackupKey(target, i);
      assert BackupSound(e, i, m.dir, w.backups) && PostSound(t, e) && Reached(t, m, orig, e.path, w.live[e.path]);
      SoundAfterBackup(t, w, i, target, w.live[e.path], orig);
      r := CopyToBackup(e.path, key);
      if !r.Fine? {
        return;
      }
      if w.backups[key] != e.pre {
        return Raised, m;
      }
      var e' := e.(backup := Some(Backup(key, w.backups[key])));
      UpdateEntry(t, m, i, e', w, orig);
      m := m.(entries := m.entries[i := e']);
      r := WriteManifest(m);
    }

    /** The except branch: put the backup back, mark the run failed, and re-raise whatever happens. */
    method UndoChange(m0: Manifest, i: nat, target: Dir) returns (r: Step, m: Manifest)
      requires Sound(t, w, orig) && w.disk == m0 && Running(m0, target)
      requires i < |m0.entries| && m0.entries[i].backup.Some?
      modifies this
      ensures Working(old(w), m0, m, i, target) && w.backups == old(w).backups
      ensures w.live == old(w).live || w.live == old(w).live[m0.entries[i].path := m0.entries[i].pre]
      ensures m.entries == m0.entries
      ensures !r.Fine?
      ensures Quiet(old(fates)) ==> Quiet(fates) && r.Raised? && m.status == Failing &&
                                    w.live == old(w).live[m0.entries[i].path := m0.entries[i].pre]
    {
      m := m0;
      var e := m.entries[i];
      assert BackupSound(e, i, m.dir, w.backups) && Reached(t, m, orig, e.path, e.pre);
      SoundAfterLive(t, w, m, i, e.pre, orig);
      r := RestoreFromBackup(e.backup.value.key, e.path);
      if !r.Fine? {
        return;
      }
      m := m.(status := Failing);
      StatusKept(w, m0, Failing);
      r := WriteManifest(m);
      if r.Fine? {
        r := Raised;
      }
    }

    /** The status field plays no part in the safety property. */
    lemma StatusKept(v: World, m: Manifest, status: Status)
      requires ManifestSound(t, m, v, orig) && m.dir.Some?
      ensures ManifestSound(t, m.(status := status), v, orig)
    {
      GrowsSound(t, m, m.(status := status), v, orig);
    }

    /** The post-state of a replaced file becomes durable. */
    method RecordPost(m0: Manifest, i: nat, after: Content, target: Dir) returns (r: Step, m: Manifest)
      requires Sound(t, w, orig) && w.disk == m0 && Running(m0, target)
      requires i < |m0.entries| && m0.entries[i].backup.Some? && IsReplaced(t, m0.entries[i], after)
      requires m0.entries[i].path in w.live && w.live[m0.entries[i].path] == after
      modifies this
      ensures Working(old(w), m0, m, i, target) && w == old(w).(disk := w.disk)
      ensures m == m0.(entries := m0.entries[i := m0.entries[i].(post := Some(after))])
      ensures r.Fine? ==> w.disk == m
      ensures Quiet(old(fates)) ==> Quiet(fates) && r.Fine?
    {
      var e := m0.entries[i];
      assert BackupSound(e, i, m0.dir, w.backups);
      UpdateEntry(t, m0, i, e.(post := Some(after)), w, orig);
      m := m0.(entries := m0.entries[i := e.(post := Some(after))]);
      r := WriteManifest(m);
    }

    /** Replace the genre of an entry whose backup is durable; wherever it stops, the state is sound. */
    method ReplaceEntry(i: nat) returns (r: Step, after: Content)
      requires Sound(t, w, orig)
      requires i < |w.disk.entries| && w.disk.entries[i].candidate && w.disk.entries[i].backup.Some?
      requires w.disk.entries[i].path in w.live && w.live[w.disk.entries[i].path] == w.disk.entries[i].pre
      modifies this
      ensures Sound(t, w, orig) && w == old(w).(live := w.live)
      ensures OnlyLiveOf(w.disk.entries[i].path, old(w).live, w.live)
      ensures after == t.write(w.disk.entries[i].pre, Unique(t, w.disk.entries[i].replacement))
      ensures w == old(w) || (IsReplaced(t, w.disk.entries[i], after) && w.live[w.disk.entries[i].path] == after)
      ensures r.Fine? ==> IsReplaced(t, w.disk.entries[i], after) && w.live[w.disk.entries[i].path] == after
      ensures Quiet(old(fates)) ==> Quiet(fates) && !r.Dead?
      ensures Quiet(old(fates)) && IsReplaced(t, w.disk.entries[i], after) ==> r.Fine?
    {
      var e := w.disk.entries[i];
      var wanted := Unique(t, e.replacement);
      assert BackupSound(e, i, w.disk.dir, w.backups);
      after := t.write(w.live[e.path], wanted);
      if Verified(t, e.pre, after, wanted) {
        SoundAfterLive(t, w, w.disk, i, after, orig);
      }
      r, after := ReplaceGenres(e.path, wanted);
    }

    /** The replacing half of an apply step, for an entry whose backup is durable. */
    method ChangeFile(m0: Manifest, i: nat, target: Dir) returns (r: Step, m: Manifest)
      requires Sound(t, w, orig) && w.disk == m0 && Running(m0, target)
      requires i < |m0.entries| && m0.entries[i].candidate && m0.entries[i].backup.Some?
      requires m0.entries[i].path in w.live && w.live[m0.entries[i].path] == m0.entries[i].pre
      modifies this
      ensures Working(old(w), m0, m, i, target) && w.backups == old(w).backups
      ensures r.Fine? ==> w.disk == m && EntryDone(m.entries[i], w.live)
      ensures Quiet(old(fates)) ==> Quiet(fates) && !r.Dead?
      ensures var e := m0.entries[i];
              var writes := IsReplaced(t, e, t.write(e.pre, Unique(t, e.replacement)));
              (r.Fine? ==> writes) && (Quiet(old(fates)) && writes ==> r.Fine?)
    {
      m := m0;
      var after;
      r, after := ReplaceEntry(i);
      if r.Raised? {
        r, m := UndoChange(m, i, target);
      } else if r.Fine? {
        r, m := RecordPost(m, i, after, target);
      }
    }

    /** An entry whose backup a previous run recorded. */
    method ResumeEntry(m0: Manifest, i: nat, target: Dir) returns (r: Step, m: Manifest)
      requires Sound(t, w, orig) && w.disk == m0 && Running(m0, target)
      requires i < |m0.entries| && m0.entries[i].candidate && m0.entries[i].backup.Some?
      requires m0.entries[i].path in w.live
      modifies this
      ensures Working(old(w), m0, m, i, target)
      ensures m0.entries[i].post == Some(old(w).live[m0.entries[i].path]) ==> r.Fine? && w == old(w) && m == m0
      ensures StuckEntry(old(w), m0.entries[i]) ==> r.Raised? && w == old(w) && m == m0
      ensures r.Fine? ==> w.disk == m && EntryDone(m.entries[i], w.live)
      ensures Quiet(old(fates)) ==> Quiet(fates) && !r.Dead?
      ensures var e := m0.entries[i];
              var writes := IsReplaced(t, e, t.write(e.pre, Unique(t, e.replacement)));
              (r.Fine? ==> e.post == Some(old(w).live[e.path]) || writes) &&
              (Quiet(old(fates)) && KnownContent(old(w), e) && writes ==> r.Fine?)
    {
      m := m0;
      var e := m.entries[i];
      var b := e.backup.value;
      assert BackupSound(e, i, m.dir, w.backups);
      if b.key.dir != target || b.key !in w.backups || w.backups[b.key] != b.hash {
        return Raised, m;
      }
      if e.post.Some? && w.live[e.path] == e.post.value {
        return Fine, m;
      }
      if w.live[e.path] != e.pre {
        return Raised, m;
      }
      r, m := ChangeFile(m, i, target);
    }

    /** A validated candidate seen for the first time. */
    method StartEntry(m0: Manifest, i: nat, target: Dir) returns (r: Step, m: Manifest)
      requires Sound(t, w, orig) && w.disk == m0 && Running(m0, target)
      requires i < |m0.entries| && m0.entries[i].candidate && m0.entries[i].backup.None?
      requires KnownContent(w, m0.entries[i])
      modifies this
      ensures Working(old(w), m0, m, i, target)
      ensures Covered(m.entries[i], w.live) && Covered(w.disk.entries[i], w.live)
      ensures r.Fine? ==> w.disk == m && EntryDone(m.entries[i], w.live)
      ensures Quiet(old(fates)) ==> Quiet(fates) && !r.Dead?
      ensures var e := m0.entries[i];
              var writes := IsReplaced(t, e, t.write(e.pre, Unique(t, e.replacement)));
              (r.Fine? ==> writes) && (Quiet(old(fates)) && writes ==> r.Fine?)
    {
      r, m := EnsureBackup(m0, i, target);
      assert SameEntry(m0.entries[i], m.entries[i]) && SameEntry(m0.entries[i], w.disk.entries[i]);
      if r.Fine? {
        ghost var m1, w1 := m, w;
        r, m := ChangeFile(m, i, target);
        StepsChain(m0, m1, m, i, target);
        StepsChain(m0, m1, w.disk, i, target);
        assert SameEntry(m0.entries[i], m.entries[i]) && SameEntry(m0.entries[i], w.disk.entries[i]);
      }
    }

    lemma StepsChain(a: Manifest, b: Manifest, c: Manifest, i: nat, target: Dir)
      requires Stepped(a, b, i, target) && Stepped(b, c, i, target)
      ensures Stepped(a, c, i, target)
    {
      PlanChain(a, b, c);
    }

    /** One iteration of apply_manifest's loop. */
    method ApplyEntry(m0: Manifest, i: nat, target: Dir) returns (r: Step, m: Manifest)
      requires Sound(t, w, orig) && w.disk == m0 && Running(m0, target)
      requires i < |m0.entries|
      modifies this
      ensures Working(old(w), m0, m, i, target)
      ensures !m0.entries[i].candidate ==> w == old(w) && m == m0
      ensures r.Fine? ==> w.disk == m && EntryDone(m.entries[i], w.live)
      ensures r.Fine? ==> ReadyEntry(t, old(w), m0.entries[i])
      ensures Quiet(old(fates)) ==> Quiet(fates) && !r.Dead?
      ensures Quiet(old(fates)) && ReadyEntry(t, old(w), m0.entries[i]) ==> r.Fine?
      ensures ReadyEntry(t, old(w), m0.entries[i]) ==>
                && (ReadyEntry(t, w, m.entries[i]) || StuckEntry(w, m.entries[i]))
                && (ReadyEntry(t, w, w.disk.entries[i]) || StuckEntry(w, w.disk.entries[i]))
    {
      var e := m0.entries[i];
      assert PostSound(t, e);
      if !e.candidate {
        return Fine, m0;
      }
      if !ValidEntry(t, w, e, false, false) {
        return Raised, m0;
      }
      if e.backup.Some? {
        r, m := ResumeEntry(m0, i, target);
      } else {
        r, m := StartEntry(m0, i, target);
      }
      assert SameEntry(e, m.entries[i]) && SameEntry(e, w.disk.entries[i]);
      assert PostSound(t, m.entries[i]) && PostSound(t, w.disk.entries[i]);
      if ReadyEntry(t, old(w), e) {
        CoveredEntry(t, old(w), e, w, m.entries[i]);
        CoveredEntry(t, old(w), e, w, w.disk.entries[i]);
      }
    }

    /** One row per file: what working on entry i tells about the whole manifest. */
    lemma AfterEntry(w0: World, was: World, i: nat, v: World, m: Manifest)
      requires DistinctPaths(was.disk.entries) && i < |was.disk.entries| && SamePlan(w0.disk, was.disk)
      requires LoopKnows(t, w0, was.disk, was.live, i) && w0.db == was.db == v.db
      requires ManifestSound(t, m, v, orig) && SameElsewhere(was.disk.entries, m.entries, i)
      requires if was.disk.entries[i].candidate then OnlyLiveOf(was.disk.entries[i].path, was.live, v.live)
               else was.live == v.live
      ensures ReadyEntry(t, was, was.disk.entries[i]) <==> ReadyEntry(t, w0, w0.disk.entries[i])
      ensures AllReady(t, w0) && (ReadyEntry(t, v, m.entries[i]) || StuckEntry(v, m.entries[i])) ==> ReadyOrStuck(t, v, m)
      ensures ReadyEntry(t, was, was.disk.entries[i]) && EntryDone(m.entries[i], v.live) ==>
                LoopKnows(t, w0, m, v.live, i + 1)
    {
      PendingReady(t, w0, was, was.disk, i);
      LoopStep(w0.disk, w0.live, was.disk, was.live, i, m, v.live);
      if AllReady(t, w0) && (ReadyEntry(t, v, m.entries[i]) || StuckEntry(v, m.entries[i])) {
        StoppedRun(t, w0, was.disk, was.live, i, v, m, orig);
      }
    }

    /** The loop of apply_manifest over a manifest whose in-progress record is durable. */
    method ApplyAll(m0: Manifest, target: Dir) returns (r: Step, m: Manifest)
      requires Sound(t, w, orig) && w.disk == m0 && Running(m0, target)
      modifies this
      ensures Sound(t, w, orig) && ManifestSound(t, m, w, orig) && w.db == old(w).db
      ensures KeepsForeign(old(w).backups, w.backups, target)
      ensures SamePlan(m0, m) && SamePlan(m0, w.disk) && Running(m, target) && Running(w.disk, target)
      ensures r.Fine? ==> w.disk == m
      ensures r.Fine? && DistinctPaths(m0.entries) ==> DoneBefore(m, w.live, |m.entries|) && AllReady(t, old(w))
      ensures DistinctPaths(m0.entries) && AllReady(t, old(w)) ==> ReadyOrStuck(t, w, m) && ReadyOrStuck(t, w, w.disk)
      ensures Quiet(old(fates)) ==> Quiet(fates) && !r.Dead?
      ensures Quiet(old(fates)) && DistinctPaths(m0.entries) && AllReady(t, old(w)) ==> r.Fine?
    {
      m := m0;
      r := Fine;
      ghost var w0, distinct := w, DistinctPaths(m0.entries);
      var i := 0;
      while i < |m.entries|
        invariant i <= |m.entries| == |m0.entries|
        invariant Sound(t, w, orig) && w.db == w0.db && w.disk == m && r.Fine?
        invariant SamePlan(m0, m) && Running(m, target) && KeepsForeign(w0.backups, w.backups, target)
        invariant distinct ==> LoopKnows(t, w0, m, w.live, i)
        invariant Quiet(old(fates)) ==> Quiet(fates)
      {
        ghost var was := w;
        OnePreKept(m0, m);
        r, m := ApplyEntry(m, i, target);
        PlanChain(m0, was.disk, m);
        PlanChain(m0, was.disk, w.disk);
        if distinct {
          AfterEntry(w0, was, i, w, m);
          AfterEntry(w0, was, i, w, w.disk);
        }
        if !r.Fine? {
          return;
        }
        i := i + 1;
      }
      if distinct {
        assert AllReady(t, w0);
        FinishedRun(t, w0, w, m, orig);
      }
    }

    /** Write the manifest with a new mode and status. */
    method WriteHeader(m: Manifest, mode: RunMode, status: Status, target: Dir) returns (r: Step)
      requires Sound(t, w, orig) && ManifestSound(t, m, w, orig)
      requires m.dir.None? || m.dir == Some(target)
      modifies this
      ensures Sound(t, w, orig)
      ensures w == if r.Fine? then old(w).(disk := m.(mode := mode, status := status, dir := Some(target))) else old(w)
      ensures Quiet(old(fates)) ==> r.Fine? && Quiet(fates)
    {
      var m' := m.(mode := mode, status := status, dir := Some(target));
      GrowsSound(t, m, m', w, orig);
      r := WriteManifest(m');
    }

    lemma PlanChain(a: Manifest, b: Manifest, c: Manifest)
      requires SamePlan(a, b) && SamePlan(b, c)
      ensures SamePlan(a, c)
    {
      forall i | 0 <= i < |a.entries| ensures SameEntry(a.entries[i], c.entries[i]) {
        assert SameEntry(a.entries[i], b.entries[i]) && SameEntry(b.entries[i], c.entries[i]);
      }
    }

    /**
      apply_manifest.  In every state it can leave behind, each file is original or replaced
      with a durable backup of the original.  When every file has one row: it completes only
      if every candidate was ready, and always completes when undisturbed and ready; and
      stopped on ready candidates, it leaves each ready again or in the crash window.
     */
    method Apply(requested: Option<Dir>, newDir: Dir, confirm: bool) returns (o: Outcome)
      requires Sound(t, w, orig)
      modifies this
      ensures Sound(t, w, orig) && w.db == old(w).db && SamePlan(old(w).disk, w.disk)
      ensures var m := old(w).disk;
              var target := if requested.Some? then requested.value else if m.dir.Some? then m.dir.value else newDir;
              && (o.Refused? <==> !confirm || m.mode != DryRun || (m.dir.Some? && m.dir.value != target) ||
                                  ((exists k :: k in old(w).backups && k.dir == target) &&
                                   (m.dir.None? || (m.status != InProgress && m.status != Failing))))
              && (o.Done? ==> w.disk.mode == Applied && w.disk.status == Complete && w.disk.dir == Some(target))
      ensures o.Refused? ==> w == old(w)
      ensures forall k :: k in old(w).backups && old(w).disk.dir != Some(k.dir) ==>
                k in w.backups && w.backups[k] == old(w).backups[k]
      ensures o.Done? && DistinctPaths(old(w).disk.entries) ==>
                forall i :: 0 <= i < |w.disk.entries| && w.disk.entries[i].candidate ==>
                  var e := w.disk.entries[i];
                  e.path in w.live && w.live[e.path].tags == e.pre.tags && AsAsked(t, e.replacement, w.live[e.path].genres)
      ensures o.Failed? || o.Crashed? ==> MayStart(w, Target(old(w), requested, newDir))
      ensures o.Done? && DistinctPaths(old(w).disk.entries) ==>
                DoneBefore(w.disk, w.live, |w.disk.entries|) && AllReady(t, old(w))
      ensures Quiet(old(fates)) && !o.Refused? && DistinctPaths(old(w).disk.entries) && AllReady(t, old(w)) ==> o.Done?
      ensures (o.Failed? || o.Crashed?) && DistinctPaths(old(w).disk.entries) && AllReady(t, old(w)) ==>
                ReadyOrStuck(t, w, w.disk)
      ensures Quiet(old(fates)) && !o.Refused? && !o.Done? ==>
                o.Failed? && w.disk.mode == DryRun && w.disk.status == Failing
    {
      var target := Target(w, requested, newDir);
      if !confirm || !MayStart(w, target) {
        return Refused;
      }
      var r := WriteHeader(w.disk, DryRun, InProgress, target);
      ReadyKept(t, old(w), w);
      if !r.Fine? {
        assert AllReady(t, w) ==> ReadyOrStuck(t, w, w.disk);
        return if r.Raised? then Failed else Crashed;
      }
      ghost var started := w.disk;
      o := ApplyStarted(target);
      assert SamePlan(old(w).disk, started);
      PlanChain(old(w).disk, started, w.disk);
      if o.Done? && DistinctPaths(old(w).disk.entries) {
        AllDoneAsAsked(t, w, orig);
      }
    }

    /** apply_manifest after its first write: the loop, and the closing write. */
    method ApplyStarted(target: Dir) returns (o: Outcome)
      requires Sound(t, w, orig) && Running(w.disk, target)
      modifies this
      ensures Sound(t, w, orig) && w.db == old(w).db && SamePlan(old(w).disk, w.disk) && !o.Refused?
      ensures KeepsForeign(old(w).backups, w.backups, target)
      ensures o.Done? ==> w.disk.mode == Applied && w.disk.status == Complete && w.disk.dir == Some(target)
      ensures o.Failed? || o.Crashed? ==> Running(w.disk, target)
      ensures o.Done? && DistinctPaths(old(w).disk.entries) ==>
                DoneBefore(w.disk, w.live, |w.disk.entries|) && AllReady(t, old(w))
      ensures Quiet(old(fates)) && DistinctPaths(old(w).disk.entries) && AllReady(t, old(w)) ==> o.Done?
      ensures (o.Failed? || o.Crashed?) && DistinctPaths(old(w).disk.entries) && AllReady(t, old(w)) ==>
                ReadyOrStuck(t, w, w.disk)
      ensures Quiet(old(fates)) && !o.Done? ==> o.Failed? && w.disk.status == Failing
    {
      ghost var was := w;
      var r, m := ApplyAll(w.disk, target);
      if r.Dead? {
        return Crashed;
      }
      if r.Raised? {
        r := WriteHeader(m, m.mode, Failing, target);
        return if r.Dead? then Crashed else Failed;
      }
      r := WriteHeader(m, Applied, Complete, target);
      o := if r.Fine? then Done else if r.Raised? then Failed else Crashed;
    }

    /** Copy the backup over the file, unless the file already is the backup. */
    method RestoreFile(m: Manifest, i: nat, force: bool) returns (r: Step)
      requires Sound(t, w, orig) && w.disk == m && i < |m.entries| && m.entries[i].backup.Some?
      modifies this
      ensures Sound(t, w, orig) && w == old(w).(live := w.live)
      ensures w.live == old(w).live || w.live == old(w).live[m.entries[i].path := m.entries[i].pre]
      ensures r.Fine? ==> w.live == old(w).live[m.entries[i].path := m.entries[i].pre]
      ensures Quiet(old(fates)) ==> Quiet(fates) && r.Fine?
    {
      var e := m.entries[i];
      var b := e.backup.value;
      assert BackupSound(e, i, m.dir, w.backups) && Reached(t, m, orig, e.path, e.pre);
      if e.path in w.live && !force && w.live[e.path] == b.hash {
        assert w.live == w.live[e.path := e.pre];
        return Fine;
      }
      SoundAfterLive(t, w, m, i, e.pre, orig);
      r := RestoreFromBackup(b.key, e.path);
      if r.Fine? && w.live[e.path] != b.hash {
        r := Raised;
      }
    }

    /** The entry is durable as rolled back. */
    method RecordRestored(m0: Manifest, i: nat) returns (r: Step, m: Manifest)
      requires Sound(t, w, orig) && w.disk == m0 && i < |m0.entries|
      modifies this
      ensures Sound(t, w, orig) && w == old(w).(disk := w.disk)
      ensures SameButRolledBack(m0, m) && SameButRolledBack(m0, w.disk)
      ensures m == m0.(entries := m0.entries[i := m0.entries[i].(rolledBack := true)])
      ensures r.Fine? ==> w.disk == m
      ensures Quiet(old(fates)) ==> Quiet(fates) && r.Fine?
    {
      var e := m0.entries[i];
      assert BackupSound(e, i, m0.dir, w.backups) && PostSound(t, e);
      UpdateEntry(t, m0, i, e.(rolledBack := true), w, orig);
      m := m0.(entries := m0.entries[i := e.(rolledBack := true)]);
      r := WriteManifest(m);
    }

    /** Whether rollback's own checks pass for a backed-up entry. */
    predicate RollbackChecks(m: Manifest, i: nat, force: bool)
      requires i < |m.entries| && m.entries[i].backup.Some? && m.dir.Some?
      reads this
    {
      var e := m.entries[i];
      var b := e.backup.value;
      && ValidEntry(t, w, e, true, force)
      && b.key.dir == m.dir.value && b.key in w.backups && w.backups[b.key] == b.hash
      && (e.path in w.live && !force && w.live[e.path] != b.hash && e.post.Some? ==> w.live[e.path] == e.post.value)
    }

    lemma ChecksAreValidation(m: Manifest, i: nat, force: bool)
      requires ManifestSound(t, m, w, orig) && i < |m.entries| && m.entries[i].backup.Some? && m.dir.Some?
      ensures RollbackChecks(m, i, force) <==> ValidEntry(t, w, m.entries[i], true, force)
    {
      assert BackupSound(m.entries[i], i, m.dir, w.backups);
    }

    /** One backed-up entry of rollback_manifest's loop: its own file goes back to the recorded backup. */
    method RollbackEntry(m0: Manifest, i: nat, force: bool) returns (r: Step, m: Manifest)
      requires Sound(t, w, orig) && w.disk == m0 && m0.dir.Some?
      requires i < |m0.entries| && m0.entries[i].backup.Some?
      modifies this
      ensures Sound(t, w, orig) && w.db == old(w).db && w.backups == old(w).backups
      ensures w.live == old(w).live || w.live == old(w).live[m0.entries[i].path := m0.entries[i].pre]
      ensures SameButRolledBack(m0, m) && SameButRolledBack(m0, w.disk)
      ensures r.Fine? ==> Restored(m0, m, i)
      ensures m0.entries[i].path in w.live
      ensures r.Fine? ==> w.disk == m && w.live == old(w).live[m0.entries[i].path := m0.entries[i].pre]
      ensures r.Fine? ==> ValidEntry(t, old(w), m0.entries[i], true, force)
      ensures Quiet(old(fates)) ==> Quiet(fates) && !r.Dead?
      ensures Quiet(old(fates)) && ValidEntry(t, old(w), m0.entries[i], true, force) ==> !r.Raised?
    {
      m := m0;
      ChecksAreValidation(m, i, force);
      assert Reached(t, m, orig, m.entries[i].path, m.entries[i].pre);
      if !RollbackChecks(m, i, force) {
        return Raised, m;
      }
      r := RestoreFile(m, i, force);
      if r.Fine? {
        r, m := RecordRestored(m, i);
      }
    }

    /** What rollback's loop keeps, i entries in; more is known when rows of one file agree on its original. */
    ghost predicate RollbackLoop(w0: World, v: World, i: nat, force: bool) {
      && Sound(t, v, orig) && v.db == w0.db && i <= |v.disk.entries| && SameButRolledBack(w0.disk, v.disk)
      && Marked(v.disk, i) && v.backups == w0.backups
      && (OnePre(w0.disk) ==> Progress(t, w0, v.disk, v.live, orig, i, force))
    }

    /** Whatever rollback did to entry i, its file only moved toward the original. */
    lemma EntryMovesToward(w0: World, was: World, i: nat, force: bool, v: World)
      requires RollbackLoop(w0, was, i, force) && OnePre(w0.disk) && i < |was.disk.entries|
      requires if was.disk.entries[i].backup.Some?
               then v.live == was.live || v.live == was.live[was.disk.entries[i].path := was.disk.entries[i].pre]
               else v.live == was.live
      ensures Toward(was.live, v.live, orig) && Toward(w0.live, v.live, orig)
      ensures was.disk.entries[i].backup.Some? ==>
                && OnlyLiveOf(was.disk.entries[i].path, was.live, v.live)
                && was.disk.entries[i].path in orig && was.disk.entries[i].pre == orig[was.disk.entries[i].path]
    {
      SameButPlan(w0.disk, was.disk);
      OnePreKept(w0.disk, was.disk);
      if was.disk.entries[i].backup.Some? {
        RecordedIsOriginal(t, was.disk, was, orig, i);
        TowardStep(w0.live, was.live, was.disk.entries[i].path, v.live, orig);
      }
    }

    /** With entry i restored and recorded, the loop is one entry further. */
    lemma EntryRestored(w0: World, was: World, i: nat, force: bool, v: World)
      requires RollbackLoop(w0, was, i, force) && OnePre(w0.disk) && i < |was.disk.entries|
      requires Sound(t, v, orig) && v.db == w0.db && SameButRolledBack(was.disk, v.disk)
      requires Marked(v.disk, i + 1) && v.backups == w0.backups
      requires if was.disk.entries[i].backup.Some?
               then v.live == was.live[was.disk.entries[i].path := was.disk.entries[i].pre] &&
                    ValidEntry(t, was, was.disk.entries[i], true, force)
               else v.live == was.live
      ensures RollbackLoop(w0, v, i + 1, force)
    {
      SameButPlan(w0.disk, was.disk);
      OnePreKept(w0.disk, was.disk);
      SameButChain(w0.disk, was.disk, v.disk);
      EntryMovesToward(w0, was, i, force, v);
      assert was.disk.entries[i].(rolledBack := false) == w0.disk.entries[i].(rolledBack := false);
      if was.disk.entries[i].backup.Some? {
        TurnComes(t, w0, was, was.disk, orig, i, force);
      }
      ProgressStep(t, w0, was.disk, was.live, orig, i, force, v.disk, v.live);
    }

    lemma SameButChain(a: Manifest, b: Manifest, c: Manifest)
      requires SameButRolledBack(a, b) && SameButRolledBack(b, c)
      ensures SameButRolledBack(a, c)
    {
      forall i | 0 <= i < |c.entries| ensures c.entries[i].(rolledBack := false) == a.entries[i].(rolledBack := false) {
        assert b.entries[i].(rolledBack := false) == a.entries[i].(rolledBack := false);
        assert c.entries[i].(rolledBack := false) == b.entries[i].(rolledBack := false);
      }
    }

    method RollbackStep(ghost w0: World, m0: Manifest, i: nat, force: bool) returns (r: Step, m: Manifest)
      requires RollbackLoop(w0, w, i, force) && w.disk == m0 && i < |m0.entries| && m0.dir.Some?
      modifies this
      ensures r.Fine? ==> RollbackLoop(w0, w, i + 1, force) && w.disk == m
      ensures w.backups == w0.backups
      ensures Sound(t, w, orig) && w.db == w0.db && (OnePre(w0.disk) ==> Toward(w0.live, w.live, orig))
      ensures SameButRolledBack(w0.disk, m) && SameButRolledBack(w0.disk, w.disk)
      ensures Quiet(old(fates)) ==> Quiet(fates) && !r.Dead?
      ensures Quiet(old(fates)) && OnePre(w0.disk) && CanRestore(t, w0, w0.disk, force) ==> !r.Raised?
    {
      ghost var was := w;
      if m0.entries[i].backup.None? {
        MarkedNext(m0, m0, i);
        if OnePre(w0.disk) {
          EntryRestored(w0, was, i, force, w);
        }
        return Fine, m0;
      }
      if OnePre(w0.disk) {
        SameButPlan(w0.disk, m0);
        OnePreKept(w0.disk, m0);
        TurnComes(t, w0, w, m0, orig, i, force);
        assert m0.entries[i].(rolledBack := false) == w0.disk.entries[i].(rolledBack := false);
      }
      r, m := RollbackEntry(m0, i, force);
      SameButChain(w0.disk, m0, m);
      SameButChain(w0.disk, m0, w.disk);
      if OnePre(w0.disk) {
        EntryMovesToward(w0, was, i, force, w);
        if r.Fine? {
          MarkedNext(m0, m, i);
          EntryRestored(w0, was, i, force, w);
        }
      } else if r.Fine? {
        MarkedNext(m0, m, i);
      }
    }

    lemma RollbackBegins(v: World, force: bool)
      requires Sound(t, v, orig)
      ensures RollbackLoop(v, v, 0, force)
    {
    }

    method RollbackAll(m0: Manifest, force: bool) returns (r: Step, m: Manifest)
      requires Sound(t, w, orig) && w.disk == m0 && m0.dir.Some?
      modifies this
      ensures Sound(t, w, orig) && w.db == old(w).db && (OnePre(m0) ==> Toward(old(w).live, w.live, orig))
      ensures SameButRolledBack(m0, m) && SameButRolledBack(m0, w.disk) && w.backups == old(w).backups
      ensures r.Fine? ==> w.disk == m && Marked(m, |m.entries|)
      ensures r.Fine? && OnePre(m0) ==> RestoredBefore(m, w.live, orig, |m.entries|) && CanRestore(t, old(w), m0, force)
      ensures Quiet(old(fates)) ==> Quiet(fates) && !r.Dead?
      ensures Quiet(old(fates)) && OnePre(m0) && CanRestore(t, old(w), m0, force) ==> !r.Raised?
    {
      m := m0;
      r := Fine;
      RollbackBegins(w, force);
      ghost var w0 := w;
      var i := 0;
      while i < |m.entries|
        invariant r.Fine? && |m.entries| == |m0.entries| && w.disk == m && RollbackLoop(w0, w, i, force)
        invariant Quiet(old(fates)) ==> Quiet(fates)
      {
        r, m := RollbackStep(w0, m, i, force);
        if !r.Fine? {
          return;
        }
        i := i + 1;
      }
      RollbackEnds(w0, i, force);
    }

    lemma RollbackEnds(w0: World, i: nat, force: bool)
      requires RollbackLoop(w0, w, i, force) && i == |w.disk.entries|
      ensures OnePre(w0.disk) ==>
                && Toward(w0.live, w.live, orig) && RestoredBefore(w.disk, w.live, orig, i)
                && CanRestore(t, w0, w0.disk, force)
    {
    }

    /** Files moving back to their originals stay restorable. */
    lemma RestorableStays(w0: World, force: bool)
      requires Sound(t, w, orig) && SameButRolledBack(w0.disk, w.disk) && OnePre(w0.disk)
      requires Toward(w0.live, w.live, orig) && w.db == w0.db && CanRestore(t, w0, w0.disk, force)
      ensures CanRestore(t, w, w.disk, force)
    {
      SameButPlan(w0.disk, w.disk);
      OnePreKept(w0.disk, w.disk);
      forall i | 0 <= i < |w.disk.entries| && w.disk.entries[i].backup.Some?
        ensures MayRestore(t, w, w.disk, i, force)
      {
        assert w.disk.entries[i].(rolledBack := false) == w0.disk.entries[i].(rolledBack := false);
        assert MayRestore(t, w0, w0.disk, i, force);
        FirstAtSame(w0.disk, w.disk, i);
        RecordedIsOriginal(t, w.disk, w, orig, i);
      }
    }

    /**
      rollback_manifest.  When rows of one file agree on its original: finishing means the
      whole library is byte for byte the original, and stopped part way it leaves a state
      from which it can be run again.
     */
    method Rollback(confirm: bool, force: bool) returns (o: Outcome)
      requires Sound(t, w, orig)
      modifies this
      ensures Sound(t, w, orig) && w.db == old(w).db && SamePlan(old(w).disk, w.disk)
      ensures w.backups == old(w).backups
      ensures var m := old(w).disk;
              o.Refused? <==> !confirm || m.dir.None? || (m.mode != Applied && (m.mode != DryRun || m.status != Failing))
      ensures o.Refused? ==> w == old(w)
      ensures o.Done? ==> w.disk.mode == RolledBack && Marked(w.disk, |w.disk.entries|)
      ensures o.Done? && OnePre(old(w).disk) ==> w.live == orig && CanRestore(t, old(w), old(w).disk, force)
      ensures OnePre(old(w).disk) && CanRestore(t, old(w), old(w).disk, force) && (o.Failed? || o.Crashed?) ==>
                MayRollBack(w.disk) && CanRestore(t, w, w.disk, force)
      ensures OnePre(old(w).disk) && CanRestore(t, old(w), old(w).disk, force) && Quiet(old(fates)) && !o.Refused? ==>
                o.Done?
      ensures Quiet(old(fates)) ==> !o.Crashed?
    {
      var m := w.disk;
      ghost var w0 := w;
      if !confirm || !MayRollBack(m) {
        return Refused;
      }
      var r;
      r, m := RollbackAll(m, force);
      SameButPlan(w0.disk, w.disk);
      if OnePre(w0.disk) && CanRestore(t, w0, w0.disk, force) {
        RestorableStays(w0, force);
      }
      if !r.Fine? {
        return if r.Raised? then Failed else Crashed;
      }
      if OnePre(w0.disk) {
        AllRestored(t, w, orig);
      }
      r := WriteHeader(m, RolledBack, m.status, m.dir.value);
      o := if r.Fine? then Done else if r.Raised? then Failed else Crashed;
    }

    /** Over every run of invocations, scans, failures and crashes, the safety property holds throughout. */
    method Run(commands: seq<Command>) returns (outcomes: seq<Outcome>)
      requires Sound(t, w, orig)
      modifies this
      ensures Sound(t, w, orig) && SamePlan(old(w).disk, w.disk)
      ensures forall p :: p in orig ==>
                p in w.live && (w.live[p] == orig[p] || exists i, j :: RecoverableFrom(t, w, orig, p, i, j))
      ensures OnePre(old(w).disk) ==> forall p :: p in orig ==>
                w.live[p] == orig[p] || exists j :: RecoverableFrom(t, w, orig, p, j, j)
    {
      outcomes := [];
      for k := 0 to |commands|
        invariant Sound(t, w, orig) && SamePlan(old(w).disk, w.disk)
      {
        ghost var was := w.disk;
        match commands[k] {
          case DoApply(requested, newDir, confirm, faults) =>
            fates := faults;
            var o := Apply(requested, newDir, confirm);
            outcomes := outcomes + [o];
          case DoRollback(confirm, force, faults) =>
            fates := faults;
            var o := Rollback(confirm, force);
            outcomes := outcomes + [o];
          case Scan(db) =>
            w := w.(db := db);
            assert Sound(t, w, orig);
        }
        PlanChain(old(w).disk, was, w.disk);
      }
      OnePreKept(old(w).disk, w.disk);
      forall p | p in orig
        ensures p in w.live && (w.live[p] == orig[p] || exists i, j :: RecoverableFrom(t, w, orig, p, i, j))
        ensures OnePre(old(w).disk) ==> w.live[p] == orig[p] || exists j :: RecoverableFrom(t, w, orig, p, j, j)
      {
        EveryFileIsRecoverable(t, w, orig, p);
      }
    }

    /** Rollback failing or killed at any point, any number of times, and then left alone: the library is the original. */
    method RollbackUntilDone(stops: seq<seq<Fate>>, force: bool)
      requires Sound(t, w, orig) && OnePre(w.disk) && MayRollBack(w.disk) && CanRestore(t, w, w.disk, force)
      modifies this
      ensures w.live == orig && w.disk.mode == RolledBack
    {
      for k := 0 to |stops|
        invariant Sound(t, w, orig) && OnePre(w.disk) && MayRollBack(w.disk) && CanRestore(t, w, w.disk, force)
      {
        ghost var was := w.disk;
        fates := stops[k];
        var o := Rollback(true, force);
        OnePreKept(was, w.disk);
        if o.Done? {
          return;
        }
      }
      fates := [];
      var _ := Rollback(true, force);
    }

    /** A completed apply can always be undone, without --force, whatever interrupts the undoing. */
    method ApplyThenUndo(requested: Option<Dir>, newDir: Dir, faults: seq<Fate>, stops: seq<seq<Fate>>)
      returns (applied: bool)
      requires Sound(t, w, orig) && DistinctPaths(w.disk.entries) && DbAccepts(t, w)
      modifies this
      ensures applied ==> w.live == orig
    {
      fates := faults;
      var o := Apply(requested, newDir, true);
      applied := o.Done?;
      if applied {
        OnePreKept(old(w).disk, w.disk);
        SamePlanDb(t, old(w), w);
        CompletedApplyCanRestore(t, w, orig, false);
        RollbackUntilDone(stops, false);
      }
    }

    /** A library scan copies each candidate file's genres into its database row. */
    method ScanLibrary()
      requires DistinctMedia(w.disk.entries)
      modifies this`w
      ensures w == old(w).(db := w.db)
      ensures Rescanned(w.disk.entries, |w.disk.entries|, w.live, old(w).db, w.db)
    {
      var es, live, db := w.disk.entries, w.live, w.db;
      for i := 0 to |es|
        invariant Rescanned(es, i, live, w.db, db)
      {
        var e := es[i];
        if e.candidate && e.media in db && e.path in live {
          db := db[e.media := db[e.media].(genres := live[e.path].genres)];
        }
      }
      w := w.(db := db);
    }

    /**
      The documented workflow: apply, library scan, rollback.  After a completed apply and a
      scan an undisturbed rollback, forced or not, restores everything exactly when every
      replacement list reads back as planned, and otherwise it fails.
     */
    method ApplyScanUndo(requested: Option<Dir>, newDir: Dir, faults: seq<Fate>, force: bool)
      returns (applied: bool, undone: Outcome)
      requires Sound(t, w, orig) && DistinctPaths(w.disk.entries) && DistinctMedia(w.disk.entries) && DbAccepts(t, w)
      modifies this
      ensures applied ==> (undone.Done? <==> ReadsBackAsPlanned(t, old(w).disk)) && (undone.Done? || undone.Failed?)
      ensures applied && undone.Done? ==> w.live == orig
    {
      undone := Refused;
      fates := faults;
      var o := Apply(requested, newDir, true);
      applied := o.Done?;
      if applied {
        OnePreKept(old(w).disk, w.disk);
        SamePlanDb(t, old(w), w);
        MediaKept(old(w).disk, w.disk);
        undone := ScanThenRollback(force);
      }
    }

    method ScanThenRollback(force: bool) returns (undone: Outcome)
      requires Sound(t, w, orig) && OnePre(w.disk) && DistinctMedia(w.disk.entries) && DbAccepts(t, w)
      requires w.disk.mode == Applied && w.disk.dir.Some? && DoneBefore(w.disk, w.live, |w.disk.entries|)
      modifies this
      ensures undone.Done? <==> ReadsBackAsPlanned(t, old(w).disk)
      ensures if undone.Done? then w.live == orig else undone.Failed?
    {
      ScanLibrary();
      assert Sound(t, w, orig);
      ScannedDbAccepts(t, old(w), w, orig);
      CompletedApplyCanRestore(t, w, orig, force);
      fates := [];
      undone := Rollback(true, force);
    }

    lemma MediaKept(a: Manifest, b: Manifest)
      requires SamePlan(a, b)
      ensures DistinctMedia(a.entries) <==> DistinctMedia(b.entries)
      ensures ReadsBackAsPlanned(t, a) <==> ReadsBackAsPlanned(t, b)
    {
      assert forall i :: 0 <= i < |a.entries| && SameEntry(a.entries[i], b.entries[i]) ==>
               a.entries[i].media == b.entries[i].media && a.entries[i].candidate == b.entries[i].candidate &&
               a.entries[i].replacement == b.entries[i].replacement && a.entries[i].dbGenres == b.entries[i].dbGenres;
    }

    /** From every failed apply, however it was reached, a forced rollback restores every file. */
    method ForceUndoOfFailed(stops: seq<seq<Fate>>)
      requires Sound(t, w, orig) && OnePre(w.disk) && DbAccepts(t, w)
      requires w.disk.mode == DryRun && w.disk.status == Failing
      modifies this
      ensures w.live == orig && w.disk.mode == RolledBack
    {
      ForceCanRestore(t, w, orig);
      RollbackUntilDone(stops, true);
    }

    /**
      An apply of ready candidates that failed or was killed anywhere, and then run again
      undisturbed: the second run completes exactly when no candidate is in the crash window.
     */
    method ApplyAgain(requested: Option<Dir>, newDir: Dir, faults: seq<Fate>)
      returns (first: Outcome, second: Outcome, ghost stopped: World)
      requires Sound(t, w, orig) && DistinctPaths(w.disk.entries) && AllReady(t, w)
      requires MayStart(w, Target(w, requested, newDir))
      modifies this
      ensures first.Failed? || first.Crashed? || first.Done?
      ensures !first.Done? ==> second.Done? || second.Failed?
      ensures !first.Done? ==> (second.Done? <==> !exists i :: Stuck(stopped, i))
      ensures !first.Done? && second.Done? ==> DoneBefore(w.disk, w.live, |w.disk.entries|)
    {
      second := Refused;
      ghost var w0 := w;
      var target := Target(w, requested, newDir);
      fates := faults;
      first := Apply(requested, newDir, true);
      stopped := w;
      if first.Done? {
        return;
      }
      OnePreKept(w0.disk, w.disk);
      ReadyUnlessStuck(t, w);
      fates := [];
      second := Apply(Some(target), newDir, true);
    }

    /**
      The crash window is reached: a run killed between replacing the first candidate's file
      and recording its post-state leaves it stuck exactly when the written bytes differ.
     */
    method CrashInWindow(i: nat, target: Dir) returns (r: Step)
      requires Sound(t, w, orig) && MayStart(w, target) && i < |w.disk.entries| && w.disk.entries[i].candidate
      requires w.disk.entries[i].backup.None? && ReadyEntry(t, w, w.disk.entries[i])
      modifies this
      ensures Sound(t, w, orig) && Running(w.disk, target) && SamePlan(old(w).disk, w.disk)
      ensures w.live.Keys == old(w).live.Keys
      ensures Stuck(w, i) <==> w.live[w.disk.entries[i].path] != old(w).live[w.disk.entries[i].path]
      ensures Stuck(w, i) || SameGenres(t.norm, old(w).live[w.disk.entries[i].path].genres,
                                        Unique(t, w.disk.entries[i].replacement))
    {
      fates := [];
      assert PostSound(t, w.disk.entries[i]);
      r := WriteHeader(w.disk, DryRun, InProgress, target);
      var m;
      r, m := EnsureBackup(w.disk, i, target);
      assert SameEntry(old(w).disk.entries[i], m.entries[i]);
      var after;
      r, after := ReplaceEntry(i);
    }

    /** In the crash window a rollback without --force never finishes. */
    method PlainRollbackOfStuck(ghost i: nat, faults: seq<Fate>) returns (o: Outcome)
      requires Sound(t, w, orig) && DistinctPaths(w.disk.entries) && Stuck(w, i)
      modifies this
      ensures !o.Done? && Sound(t, w, orig)
    {
      OnePreKept(w.disk, w.disk);
      DistinctFirst(t, w, orig, i);
      StuckIsUnknown(t, w, i);
      fates := faults;
      o := Rollback(true, false);
    }

    /** In the crash window a resumed apply stops and marks the run failed, and then --force restores everything. */
    method RecoverStuck(ghost i: nat) returns (resumed: Outcome, forced: Outcome)
      requires Sound(t, w, orig) && DistinctPaths(w.disk.entries) && Stuck(w, i) && DbAccepts(t, w)
      requires w.disk.mode == DryRun && (w.disk.status == InProgress || w.disk.status == Failing)
      modifies this
      ensures resumed.Failed? && forced.Done?
      ensures w.live == orig
    {
      StuckIsUnknown(t, w, i);
      fates := [];
      resumed := Apply(None, "", true);
      OnePreKept(old(w).disk, w.disk);
      SamePlanDb(t, old(w), w);
      ForceCanRestore(t, w, orig);
      fates := [];
      forced := Rollback(true, true);
    }
  }
}
