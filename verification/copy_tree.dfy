/** The copier applied to a tree: the plan comes from the manager's walk, the
    result is stated place by place in the tree. */
module CopyTree {
  import opened CopyPlan
  import opened Traversal
  import opened Copier
  import opened CopierInvariant
  import opened CopierSteps
  import opened CopierSafety
  import opened CopierLiveness

  ghost predicate FileIn(es: seq<Entry>, r: Rel) {
    Lookup(es, r).FoundFile?
  }

  ghost predicate DirIn(es: seq<Entry>, r: Rel) {
    Lookup(es, r).FoundDir?
  }

  /** The source directory holds the tree. */
  ghost predicate InPlace(fs: FileSystem, src: string, es: seq<Entry>) {
    forall r: Rel :: FileIn(es, r) ==>
      Join(src, r) in fs.files && fs.files[Join(src, r)] == Lookup(es, r).bytes
  }

  /** No file to be written is a file to be read. */
  ghost predicate Apart(src: string, dst: string, es: seq<Entry>) {
    forall r: Rel, q: Rel :: FileIn(es, r) && FileIn(es, q) ==> Join(src, r) != Join(dst, q)
  }

  /** The program's situation: a buffer, workers, and a source tree to walk. */
  ghost predicate Job(c: Config, src: string, dst: string, es: seq<Entry>) {
    && c.capacity > 0 && c.workers > 0
    && WellFormed(es)
    && c.plan == Plan(src, dst, es)
    && InPlace(c.fs, src, es)
    && Apart(src, dst, es)
  }

  /** Action `i` of the plan, after the first, belongs to visit `i - 1`. */
  lemma PlanIsWalk(src: string, dst: string, es: seq<Entry>)
    ensures var plan := Plan(src, dst, es); var walk := Walk([], es);
            && |plan| == |walk| + 1 && plan[0] == MkDir(Join(dst, []))
            && forall i :: 0 < i < |plan| ==> Matches(src, dst, plan[i], walk[i - 1])
  {
    assert Join(src, []) == src && Join(dst, []) == dst;
    PlanFollowsWalk(src, dst, [], es);
  }

  /** Which place of the tree an action is for. */
  lemma PlaceOf(src: string, dst: string, es: seq<Entry>, i: nat) returns (r: Rel)
    requires WellFormed(es) && 0 < i < |Plan(src, dst, es)|
    ensures |Walk([], es)| + 1 == |Plan(src, dst, es)|
    ensures Plain(r) && r != [] && Walk([], es)[i - 1].rel == r
    ensures var a := Plan(src, dst, es)[i];
            && (a.Copy? ==> FileIn(es, r) && a.src == Join(src, r) && a.dst == Join(dst, r))
            && (a.MkDir? ==> DirIn(es, r) && a.path == Join(dst, r))
  {
    PlanIsWalk(src, dst, es);
    var v := Walk([], es)[i - 1];
    r := WalkSound([], es, v);
    assert [] + r == r;
    assert Matches(src, dst, Plan(src, dst, es)[i], v);
  }

  lemma DistinctFiles(src: string, dst: string, es: seq<Entry>, i: nat, j: nat)
    requires WellFormed(es) && i < j < |Plan(src, dst, es)|
    requires Plan(src, dst, es)[i].Copy? && Plan(src, dst, es)[j].Copy?
    ensures Plan(src, dst, es)[i].src != Plan(src, dst, es)[j].src
    ensures Plan(src, dst, es)[i].dst != Plan(src, dst, es)[j].dst
  {
    var r := PlaceOf(src, dst, es, i);
    var q := PlaceOf(src, dst, es, j);
    WalkDistinct([], es);
    if Join(src, r) == Join(src, q) {
      JoinInjective(src, r, q);
    }
    if Join(dst, r) == Join(dst, q) {
      JoinInjective(dst, r, q);
    }
  }

  /** What the copier assumes of its plan holds of every plan the walk makes. */
  lemma JobIsAdmissible(c: Config, src: string, dst: string, es: seq<Entry>)
    requires Job(c, src, dst, es)
    ensures Admissible(c)
  {
    forall i | 0 <= i < |c.plan| && c.plan[i].Copy? ensures c.plan[i].src in c.fs.files {
      var r := PlaceOf(src, dst, es, i);
    }
    forall i, j | 0 <= i < |c.plan| && c.plan[i].Copy? && 0 <= j < |c.plan| && c.plan[j].Copy?
      ensures c.plan[i].src != c.plan[j].dst
    {
      var r := PlaceOf(src, dst, es, i);
      var q := PlaceOf(src, dst, es, j);
    }
    forall i, j | 0 <= i < j < |c.plan| && c.plan[i].Copy? && c.plan[j].Copy?
      ensures c.plan[i].src != c.plan[j].src && c.plan[i].dst != c.plan[j].dst
    {
      DistinctFiles(src, dst, es, i, j);
    }
  }

  /** Every place of the tree has its action. */
  lemma ActionFor(src: string, dst: string, es: seq<Entry>, r: Rel) returns (i: nat)
    requires WellFormed(es) && Lookup(es, r) != Nothing
    ensures i < |Plan(src, dst, es)|
    ensures var a := Plan(src, dst, es)[i];
            if FileIn(es, r) then a.Copy? && a.src == Join(src, r) && a.dst == Join(dst, r)
            else a == MkDir(Join(dst, r))
  {
    PlanIsWalk(src, dst, es);
    i := 0;
    if r != [] {
      var walk := Walk([], es);
      var v := WalkComplete([], es, r);
      assert [] + r == r;
      var k :| 0 <= k < |walk| && walk[k] == v;
      i := k + 1;
      assert Matches(src, dst, Plan(src, dst, es)[i], walk[i - 1]);
    }
  }

  /** The destination has the tree, byte for byte, and is otherwise unchanged. */
  ghost predicate Mirrors(before: FileSystem, after: FileSystem, dst: string, es: seq<Entry>) {
    && (forall r: Rel :: FileIn(es, r) ==>
          Join(dst, r) in after.files && after.files[Join(dst, r)] == Lookup(es, r).bytes)
    && (forall r: Rel :: DirIn(es, r) ==> Join(dst, r) in after.dirs)
    && (forall p :: p in after.files && (p !in before.files || after.files[p] != before.files[p]) ==>
          exists r: Rel :: FileIn(es, r) && p == Join(dst, r))
    && (forall d :: d in after.dirs && d !in before.dirs ==>
          exists r: Rel :: DirIn(es, r) && d == Join(dst, r))
    && before.files.Keys <= after.files.Keys && before.dirs <= after.dirs
  }

  lemma MirrorPlaces(c: Config, src: string, dst: string, es: seq<Entry>, fs: FileSystem)
    requires Job(c, src, dst, es) && IsMirror(c, fs)
    ensures forall r: Rel :: FileIn(es, r) ==>
              Join(dst, r) in fs.files && fs.files[Join(dst, r)] == Lookup(es, r).bytes
    ensures forall r: Rel :: DirIn(es, r) ==> Join(dst, r) in fs.dirs
  {
    forall r: Rel | FileIn(es, r)
      ensures Join(dst, r) in fs.files && fs.files[Join(dst, r)] == Lookup(es, r).bytes
    {
      var i := ActionFor(src, dst, es, r);
      assert Copied(c, fs.files, i);
    }
    forall r: Rel | DirIn(es, r) ensures Join(dst, r) in fs.dirs {
      var i := ActionFor(src, dst, es, r);
    }
  }

  lemma NothingElse(c: Config, src: string, dst: string, es: seq<Entry>, fs: FileSystem)
    requires Job(c, src, dst, es) && IsMirror(c, fs)
    ensures forall p :: p in fs.files && (p !in c.fs.files || fs.files[p] != c.fs.files[p]) ==>
              exists r: Rel :: FileIn(es, r) && p == Join(dst, r)
    ensures forall d :: d in fs.dirs && d !in c.fs.dirs ==>
              exists r: Rel :: DirIn(es, r) && d == Join(dst, r)
  {
    forall p | p in fs.files && (p !in c.fs.files || fs.files[p] != c.fs.files[p])
      ensures exists r: Rel :: FileIn(es, r) && p == Join(dst, r)
    {
      assert p in DstPaths(c.plan, |c.plan|);
      var i :| 0 <= i < |c.plan| && c.plan[i].Copy? && c.plan[i].dst == p;
      var r := PlaceOf(src, dst, es, i);
    }
    forall d | d in fs.dirs && d !in c.fs.dirs ensures exists r: Rel :: DirIn(es, r) && d == Join(dst, r) {
      assert d in DirPaths(c.plan, |c.plan|);
      var i :| 0 <= i < |c.plan| && c.plan[i].MkDir? && c.plan[i].path == d;
      if i == 0 {
        assert DirIn(es, []) && d == Join(dst, []);
      } else {
        var r := PlaceOf(src, dst, es, i);
      }
    }
  }

  /** End to end, for every source tree, every buffer size, every number of
      workers, every interleaving and every chunking of the reads: when the
      barrier opens, the destination mirrors the source. */
  lemma TreeIsMirrored(c: Config, src: string, dst: string, es: seq<Entry>, run: Run, k: nat)
    requires Job(c, src, dst, es)
    requires IsRun(c, run) && k < |run.states| && BarrierOpen(c, run.states[k])
    ensures Mirrors(c.fs, run.states[k].fs, dst, es)
  {
    JobIsAdmissible(c, src, dst, es);
    BarrierOpensOnMirror(c, run, k);
    MirrorPlaces(c, src, dst, es, run.states[k].fs);
    NothingElse(c, src, dst, es, run.states[k].fs);
  }

  /** And the barrier does open: a run that cannot go on without a spurious
      wake-up is finished, and every run is bounded by a cost told from the tree. */
  lemma TreeIsCopied(c: Config, src: string, dst: string, es: seq<Entry>, run: Run)
    requires Job(c, src, dst, es) && IsRun(c, run)
    ensures |run.labels| <= RunCost(c) + 2 * SpuriousCount(run.labels)
    ensures (forall l :: Enabled(c, run.states[|run.labels|], l) ==> Spurious(l)) ==>
              var s := run.states[|run.labels|];
              s.main.Exited? && s.fds == map[] && Mirrors(c.fs, s.fs, dst, es)
  {
    JobIsAdmissible(c, src, dst, es);
    RunIsBounded(c, run);
    var n := |run.labels|;
    if forall l :: Enabled(c, run.states[n], l) ==> Spurious(l) {
      MaximalRunFinishes(c, run);
      DestroyedAfterUse(c, run, n);
      TreeIsMirrored(c, src, dst, es, run, n);
    }
  }

  // ----- Directories come before what goes into them ---------------------------

  lemma {:induction false} ParentsFirst(base: Rel, es: seq<Entry>, i: nat)
    requires i < |Walk(base, es)|
    ensures var r := Walk(base, es)[i].rel;
            r != [] && (r[..|r| - 1] == base || VisitDir(r[..|r| - 1]) in Walk(base, es)[..i])
    decreases es, 0
  {
    var first, rest := WalkEntry(base, es[0]), Walk(base, es[1..]);
    if i < |first| {
      ParentsFirstEntry(base, es[0], i);
      assert Walk(base, es)[..i] == first[..i];
    } else {
      ParentsFirst(base, es[1..], i - |first|);
      assert Walk(base, es)[..i] == first + rest[..i - |first|];
    }
  }

  lemma {:induction false} ParentsFirstEntry(base: Rel, e: Entry, i: nat)
    requires i < |WalkEntry(base, e)|
    ensures var r := WalkEntry(base, e)[i].rel;
            r != [] && (r[..|r| - 1] == base || VisitDir(r[..|r| - 1]) in WalkEntry(base, e)[..i])
    decreases e, 1
  {
    var below := base + [e.name];
    assert below[..|below| - 1] == base;
    if i > 0 && e.node.Dir? {
      ParentsFirst(below, e.node.entries, i - 1);
      assert WalkEntry(base, e)[..i] == [VisitDir(below)] + Walk(below, e.node.entries)[..i - 1];
    }
  }

  /** The plan makes the directory of a file before it opens the file. */
  lemma ParentAction(src: string, dst: string, es: seq<Entry>, i: nat) returns (r: Rel, at: nat)
    requires WellFormed(es) && i < |Plan(src, dst, es)| && Plan(src, dst, es)[i].Copy?
    ensures r != [] && Plan(src, dst, es)[i].dst == Join(dst, r)
    ensures at < i && Plan(src, dst, es)[at] == MkDir(Join(dst, r[..|r| - 1]))
  {
    PlanIsWalk(src, dst, es);
    r := PlaceOf(src, dst, es, i);
    ParentsFirst([], es, i - 1);
    var parent := r[..|r| - 1];
    at := 0;
    if parent != [] {
      var walk := Walk([], es);
      var j :| 0 <= j < i - 1 && walk[..i - 1][j] == VisitDir(parent);
      at := j + 1;
      assert Matches(src, dst, Plan(src, dst, es)[at], walk[j]);
    }
  }

  /** When the manager creates a file, the directory it goes into exists. */
  lemma DirectoryIsThere(c: Config, src: string, dst: string, es: seq<Entry>, run: Run, k: nat) returns (r: Rel)
    requires Job(c, src, dst, es) && IsRun(c, run) && k < |run.states| && run.states[k].m.OpenDest?
    ensures var s := run.states[k];
            && s.m.i < |c.plan| && c.plan[s.m.i].Copy?
            && r != [] && c.plan[s.m.i].dst == Join(dst, r)
            && Join(dst, r[..|r| - 1]) in s.fs.dirs
  {
    JobIsAdmissible(c, src, dst, es);
    RunKeepsInv(c, run, k);
    assert Phase(c, run.states[k]) && Frame(c, run.states[k].m, run.states[k].fs);
    var i := run.states[k].m.i;
    var at;
    r, at := ParentAction(src, dst, es, i);
    assert c.plan[at].path in DirPaths(c.plan, i);
  }
}
