/** What the copier guarantees in every reachable state, and what holds when
    its barrier opens. */
module CopierSafety {
  import opened CopyPlan
  import opened Counting
  import opened Ring
  import opened Copier
  import opened CopierInvariant
  import opened CopierSteps

  /** `fs` is the file system the copier started from, plus every directory and
      every file of the plan with the bytes of its source, and nothing else. */
  ghost predicate IsMirror(c: Config, fs: FileSystem) {
    && fs.dirs == c.fs.dirs + DirPaths(c.plan, |c.plan|)
    && fs.files.Keys == c.fs.files.Keys + DstPaths(c.plan, |c.plan|)
    && (forall j: nat :: IsCopy(c, j) ==> Copied(c, fs.files, j))
    && (forall p :: p in c.fs.files && p !in DstPaths(c.plan, |c.plan|) ==> fs.files[p] == c.fs.files[p])
  }

  ghost predicate BarrierOpen(c: Config, s: State) {
    s.arrived == Parties(c)
  }

  /** At the barrier the manager has walked everything and no worker is in a copy. */
  lemma AtTheBarrier(c: Config, s: State)
    requires Admissible(c) && Inv(c, s) && BarrierOpen(c, s)
    ensures Announced(s.m) && s.ring.done && s.ring.count == 0
    ensures forall w :: 0 <= w < |s.ws| ==> Leaving(s.ws[w])
  {
    ArrivalsBounded(c, s);
    forall w | 0 <= w < |s.ws| ensures Leaving(s.ws[w]) {
      assert WorkerArrived(s.ws[w]) == 1;
    }
    assert Leaving(s.ws[0]);
  }

  lemma NothingOpen(s: State)
    requires Conserved(s) && Announced(s.m) && s.ring.count == 0
    requires forall w :: 0 <= w < |s.ws| ==> Leaving(s.ws[w])
    ensures s.fds == map[]
  {
    TotalBounds(FdWeights(s.ws), 0);
    assert |s.fds.Keys| == 0;
  }

  lemma NobodyHolds(c: Config, s: State)
    requires Admissible(c) && Inv(c, s) && BarrierOpen(c, s)
    ensures forall j: nat :: !Held(s.ws, j)
    ensures s.fds == map[]
  {
    AtTheBarrier(c, s);
    NothingOpen(s);
  }

  /** Every copy of the plan has gone through the ring, once and in order. */
  lemma AllDelivered(c: Config, s: State)
    requires Admissible(c) && Inv(c, s) && BarrierOpen(c, s)
    ensures s.popped == s.pushed
    ensures JobsOf(s.popped) == CopyJobs(c.plan, |c.plan|)
    ensures forall j: nat :: IsCopy(c, j) ==> j in JobsOf(s.popped)
  {
    AtTheBarrier(c, s);
    assert s.ring.Live() == [];
    CopyJobsExact(c.plan, |c.plan|, JobsOf(s.popped));
  }

  lemma EveryCopyFinished(c: Config, s: State, j: nat)
    requires Admissible(c) && Inv(c, s) && BarrierOpen(c, s) && IsCopy(c, j)
    ensures Finished(c, s, j)
  {
    AllDelivered(c, s);
    NobodyHolds(c, s);
  }

  ghost predicate AllClosedOnce(c: Config, closes: multiset<string>) {
    && (forall j: nat :: IsCopy(c, j) ==> closes[c.plan[j].src] == 1 && closes[c.plan[j].dst] == 1)
    && (forall p :: p in closes ==> p in SrcPaths(c.plan) + DstPaths(c.plan, |c.plan|))
  }

  lemma MirrorAtBarrier(c: Config, s: State)
    requires Admissible(c) && Inv(c, s) && BarrierOpen(c, s)
    ensures IsMirror(c, s.fs) && AllClosedOnce(c, s.closes)
  {
    AtTheBarrier(c, s);
    assert Position(c, s.m) == |c.plan| == Created(c, s.m);
    forall j: nat | IsCopy(c, j)
      ensures Copied(c, s.fs.files, j) && s.closes[c.plan[j].src] == 1 && s.closes[c.plan[j].dst] == 1
    {
      EveryCopyFinished(c, s, j);
    }
  }

  /** End to end: in every run, whenever the barrier is open, the destination
      mirrors the source, the ring is empty, no worker is in a copy, no
      descriptor is open, and every file of the plan has been closed once. */
  lemma BarrierOpensOnMirror(c: Config, r: Run, k: nat)
    requires Admissible(c) && IsRun(c, r) && k < |r.states| && BarrierOpen(c, r.states[k])
    ensures var s := r.states[k];
            && IsMirror(c, s.fs)
            && s.ring.count == 0 && s.fds == map[]
            && (forall w :: 0 <= w < |s.ws| ==> !Busy(s.ws[w]))
            && JobsOf(s.popped) == CopyJobs(c.plan, |c.plan|)
            && AllClosedOnce(c, s.closes)
  {
    RunKeepsInv(c, r, k);
    var s := r.states[k];
    AtTheBarrier(c, s);
    NobodyHolds(c, s);
    AllDelivered(c, s);
    MirrorAtBarrier(c, s);
  }

  /** When main has joined everyone and destroys the buffer, every thread has
      returned, and the barrier had opened. */
  lemma DestroyedAfterUse(c: Config, r: Run, k: nat)
    requires Admissible(c) && IsRun(c, r) && k < |r.states| && r.states[k].main.Exited?
    ensures var s := r.states[k];
            && s.m.MPassed? && (forall w :: 0 <= w < |s.ws| ==> s.ws[w].WPassed?)
            && BarrierOpen(c, s)
  {
    RunKeepsInv(c, r, k);
    var s := r.states[k];
    assert Returned(s, 0);
    forall w | 0 <= w < |s.ws| ensures s.ws[w].WPassed? {
      assert Returned(s, w + 1);
    }
  }

  // ----- Who holds which descriptor --------------------------------------------

  predicate ItemHas(it: Item, f: nat) {
    f == it.srcFd || f == it.destFd
  }

  predicate ManagerHas(m: ManagerPc, f: nat) {
    (m.OpenDest? && f == m.srcFd) || (HoldsItem(m) && ItemHas(m.item, f))
  }

  predicate WorkerHas(pc: WorkerPc, f: nat) {
    Busy(pc) && ItemHas(pc.item, f) && (pc.CloseDest? ==> f == pc.item.destFd)
  }

  ghost predicate RingHas(s: State, f: nat)
    requires s.ring.Valid()
  {
    exists i :: 0 <= i < s.ring.count && ItemHas(s.ring.Live()[i], f)
  }

  ghost predicate SomeWorkerHas(s: State, f: nat) {
    exists w :: 0 <= w < |s.ws| && WorkerHas(s.ws[w], f)
  }

  ghost predicate Has(s: State, f: nat)
    requires s.ring.Valid()
  {
    ManagerHas(s.m, f) || RingHas(s, f) || SomeWorkerHas(s, f)
  }

  /** Whatever somebody holds is open. */
  lemma HeldIsOpen(c: Config, s: State, f: nat)
    requires s.ring.Valid() && Contents(c, s) && Has(s, f)
    ensures f in s.fds
  {
    if i :| 0 <= i < s.ring.count && ItemHas(s.ring.Live()[i], f) {
      assert Untouched(c, s.fds, s.fs.files, s.ring.Live()[i]);
    } else if w :| 0 <= w < |s.ws| && WorkerHas(s.ws[w], f) {
      assert WorkerOk(c, s.fds, s.fs.files, s.ws[w]);
    }
  }

  /** What the manager opens or holds it keeps, or puts into the ring. */
  lemma ManagerKeeps(c: Config, s: State, l: Label, f: nat)
    requires Shape(c, s) && Enabled(c, s, l)
    requires ManagerHas(s.m, f) || (f !in s.fds && f in Apply(c, s, l).fds)
    ensures Apply(c, s, l).ring.Valid()
    ensures ManagerHas(Apply(c, s, l).m, f) || RingHas(Apply(c, s, l), f)
  {
    RingStep(c, s, l);
    var s' := Apply(c, s, l);
    if l.MPush? {
      assert s'.ring.Live()[s.ring.count] == s.m.item;
      assert ItemHas(s'.ring.Live()[s.ring.count], f);
    }
  }

  /** An item in the ring stays there, or a worker takes it. */
  lemma RingKeeps(c: Config, s: State, l: Label, f: nat)
    requires Shape(c, s) && Enabled(c, s, l) && RingHas(s, f)
    ensures Apply(c, s, l).ring.Valid()
    ensures RingHas(Apply(c, s, l), f) || SomeWorkerHas(Apply(c, s, l), f)
  {
    RingStep(c, s, l);
    var s' := Apply(c, s, l);
    var i :| 0 <= i < s.ring.count && ItemHas(s.ring.Live()[i], f);
    if l.WPop? {
      if i == 0 {
        assert WorkerHas(s'.ws[l.w], f);
      } else {
        assert s'.ring.Live()[i - 1] == s.ring.Live()[i];
      }
    } else {
      assert s'.ring.Live()[i] == s.ring.Live()[i];
    }
  }

  /** A worker keeps what it holds until it closes it. */
  lemma WorkerKeeps(c: Config, s: State, l: Label, w: nat, f: nat)
    requires Shape(c, s) && Enabled(c, s, l) && w < |s.ws| && WorkerHas(s.ws[w], f) && f in Apply(c, s, l).fds
    ensures SomeWorkerHas(Apply(c, s, l), f)
  {
    if l != WCloseDest(w) {
      BusyStays(c, s, l, w);
      assert WorkerHas(Apply(c, s, l).ws[w], f);
    }
  }

  lemma OpenStaysHeld(c: Config, s: State, l: Label, f: nat)
    requires Shape(c, s) && Enabled(c, s, l) && f in Apply(c, s, l).fds
    requires f in s.fds ==> Has(s, f)
    ensures Apply(c, s, l).ring.Valid() && Has(Apply(c, s, l), f)
  {
    if f !in s.fds || ManagerHas(s.m, f) {
      ManagerKeeps(c, s, l, f);
    } else if RingHas(s, f) {
      RingKeeps(c, s, l, f);
    } else {
      var w :| 0 <= w < |s.ws| && WorkerHas(s.ws[w], f);
      WorkerKeeps(c, s, l, w, f);
      RingStep(c, s, l);
    }
  }

  /** Whatever is open is held by somebody: no descriptor leaks. */
  ghost predicate OpenIsHeld(s: State)
    requires s.ring.Valid()
  {
    forall f: nat :: f in s.fds ==> Has(s, f)
  }

  lemma OpenIsHeldStep(c: Config, s: State, l: Label)
    requires Shape(c, s) && Enabled(c, s, l) && OpenIsHeld(s)
    ensures Apply(c, s, l).ring.Valid() && OpenIsHeld(Apply(c, s, l))
  {
    RingStep(c, s, l);
    forall f: nat | f in Apply(c, s, l).fds ensures Has(Apply(c, s, l), f) {
      OpenStaysHeld(c, s, l, f);
    }
  }

  lemma ShapeInRun(c: Config, r: Run, k: nat)
    requires Admissible(c) && IsRun(c, r) && k < |r.states|
    ensures Shape(c, r.states[k])
  {
    RunKeepsInv(c, r, k);
  }

  lemma {:induction false} OpenIsHeldInRun(c: Config, r: Run, k: nat)
    requires Admissible(c) && IsRun(c, r) && k < |r.states|
    ensures Shape(c, r.states[k]) && OpenIsHeld(r.states[k])
  {
    ShapeInRun(c, r, k);
    if k > 0 {
      OpenIsHeldInRun(c, r, k - 1);
      assert Enabled(c, r.states[k - 1], r.labels[k - 1]);
      OpenIsHeldStep(c, r.states[k - 1], r.labels[k - 1]);
    }
  }

  /** Conservation of descriptors, at every step of every run: the open ones are
      exactly those that the manager, an item in the ring or a worker holds, as
      many as there are to hold, and never more than the ring, the workers and
      the manager can hold. */
  lemma DescriptorBound(c: Config, r: Run, k: nat)
    requires Admissible(c) && IsRun(c, r) && k < |r.states|
    ensures r.states[k].ring.Valid() && forall f: nat :: f in r.states[k].fds <==> Has(r.states[k], f)
    ensures var s := r.states[k];
            |s.fds| == ManagerFds(s.m) + 2 * s.ring.count + Total(FdWeights(s.ws))
    ensures |r.states[k].fds| <= 2 * (c.capacity + c.workers + 1)
  {
    RunKeepsInv(c, r, k);
    TotalBounds(FdWeights(r.states[k].ws), 2);
    OpenIsHeldInRun(c, r, k);
    forall f: nat | Has(r.states[k], f) ensures f in r.states[k].fds {
      HeldIsOpen(c, r.states[k], f);
    }
  }

  // ----- Delivery --------------------------------------------------------------

  /** Delivery: at every step what was pushed is what was popped followed by
      what is queued; pushes follow the traversal; and nobody ever sleeps on a
      failed pop. */
  lemma DeliveredInOrder(c: Config, r: Run, k: nat)
    requires Admissible(c) && IsRun(c, r) && k < |r.states|
    ensures var s := r.states[k];
            && s.ring.Valid()
            && s.pushed == s.popped + s.ring.Live()
            && JobsOf(s.pushed) <= CopyJobs(c.plan, |c.plan|)
            && (forall w :: 0 <= w < |s.ws| ==> s.ws[w] != Sleeping)
  {
    RunKeepsInv(c, r, k);
    CopyJobsPrefix(c.plan, Position(c, r.states[k].m), |c.plan|);
  }

  lemma {:induction false} CopyJobsPrefix(plan: seq<Action>, m: nat, n: nat)
    requires m <= n <= |plan|
    ensures CopyJobs(plan, m) <= CopyJobs(plan, n)
    decreases n - m
  {
    if m < n {
      CopyJobsPrefix(plan, m, n - 1);
    }
  }

  /** What the answer of `buffer_is_done` means to a worker that asks after a pop
      answered 0: it is always yes, everything has been delivered, and the worker
      goes to the barrier; the retry is never reached. */
  lemma DoneAfterFailedPop(c: Config, r: Run, k: nat, w: nat)
    requires Admissible(c) && IsRun(c, r) && k < |r.states|
    requires w < |r.states[k].ws| && r.states[k].ws[w] == PopFailed
    ensures var s := r.states[k];
            && s.ring.done && s.pushed == s.popped && JobsOf(s.popped) == CopyJobs(c.plan, |c.plan|)
            && Enabled(c, s, WCheckDone(w)) && Apply(c, s, WCheckDone(w)).ws[w] == WArrive
  {
    RunKeepsInv(c, r, k);
    DrainedMeansDelivered(c, r.states[k], w);
  }

  lemma DrainedMeansDelivered(c: Config, s: State, w: nat)
    requires Inv(c, s) && w < |s.ws| && Leaving(s.ws[w])
    ensures s.ring.done && s.ring.count == 0 && s.pushed == s.popped
    ensures JobsOf(s.popped) == CopyJobs(c.plan, |c.plan|)
  {
    assert s.ring.Live() == [];
  }

  lemma DrainedInRun(c: Config, r: Run, k: nat, w: nat)
    requires Admissible(c) && IsRun(c, r) && k < |r.states|
    requires w < |r.states[k].ws| && Leaving(r.states[k].ws[w])
    ensures var s := r.states[k];
            && s.ring.done && s.ring.count == 0 && s.pushed == s.popped
            && JobsOf(s.popped) == CopyJobs(c.plan, |c.plan|)
  {
    RunKeepsInv(c, r, k);
    DrainedMeansDelivered(c, r.states[k], w);
  }

  lemma PhaseInRun(c: Config, r: Run, k: nat)
    requires Admissible(c) && IsRun(c, r) && k < |r.states|
    ensures Phase(c, r.states[k])
  {
    RunKeepsInv(c, r, k);
  }

  lemma DrainedStays(c: Config, s: State, l: Label)
    requires Phase(c, s) && Enabled(c, s, l) && s.ring.done && s.ring.count == 0
    ensures var s' := Apply(c, s, l); s'.ring == s.ring && s'.pushed == s.pushed && s'.popped == s.popped
  {
  }

  lemma DrainedNext(c: Config, r: Run, k: nat)
    requires Admissible(c) && IsRun(c, r) && k < |r.labels| && r.states[k].ring.done && r.states[k].ring.count == 0
    ensures var s, s' := r.states[k], r.states[k + 1];
            s'.ring == s.ring && s'.pushed == s.pushed && s'.popped == s.popped
  {
    PhaseInRun(c, r, k);
    assert Enabled(c, r.states[k], r.labels[k]);
    DrainedStays(c, r.states[k], r.labels[k]);
  }

  /** A pop answers that the buffer is drained only when everything ever to be
      pushed has been popped; from then on the ring never changes again. */
  lemma {:induction false} DrainedForGood(c: Config, r: Run, k: nat, k': nat, w: nat)
    requires Admissible(c) && IsRun(c, r) && k <= k' < |r.states|
    requires w < |r.states[k].ws| && Leaving(r.states[k].ws[w])
    ensures var s := r.states[k]; var s' := r.states[k'];
            && s.ring.done && s.ring.count == 0 && s.pushed == s.popped
            && JobsOf(s.popped) == CopyJobs(c.plan, |c.plan|)
            && s'.ring == s.ring && s'.pushed == s.pushed && s'.popped == s.popped
    decreases k'
  {
    if k == k' {
      DrainedInRun(c, r, k, w);
    } else {
      DrainedForGood(c, r, k, k' - 1, w);
      DrainedNext(c, r, k' - 1);
    }
  }

  // ----- What travels with an item, and how much a read takes ------------------

  ghost predicate Named(c: Config, it: Item) {
    IsCopy(c, it.job) && it.filename == c.plan[it.job].name
  }

  ghost predicate AllNamed(c: Config, s: State) {
    (HoldsItem(s.m) ==> Named(c, s.m.item)) && forall k :: 0 <= k < |s.pushed| ==> Named(c, s.pushed[k])
  }

  lemma NamedByManager(c: Config, s: State, l: Label)
    requires Enabled(c, s, l) && AllNamed(c, s) && (MainLabel(l) || ManagerLabel(l))
    ensures AllNamed(c, Apply(c, s, l))
  {
  }

  lemma NamedByWorker(c: Config, s: State, l: Label)
    requires Enabled(c, s, l) && AllNamed(c, s) && !MainLabel(l) && !ManagerLabel(l)
    ensures AllNamed(c, Apply(c, s, l))
  {
    assert Apply(c, s, l).pushed == s.pushed;
  }

  lemma AllNamedStep(c: Config, s: State, l: Label)
    requires Enabled(c, s, l) && AllNamed(c, s)
    ensures AllNamed(c, Apply(c, s, l))
  {
    if MainLabel(l) || ManagerLabel(l) {
      NamedByManager(c, s, l);
    } else {
      NamedByWorker(c, s, l);
    }
  }

  /** An item carries the name of the entry it was opened for, into the ring and
      out of it. */
  lemma {:induction false} ItemsAreNamed(c: Config, r: Run, k: nat)
    requires Admissible(c) && IsRun(c, r) && k < |r.states|
    ensures AllNamed(c, r.states[k])
  {
    if k > 0 {
      ItemsAreNamed(c, r, k - 1);
      assert Enabled(c, r.states[k - 1], r.labels[k - 1]);
      AllNamedStep(c, r.states[k - 1], r.labels[k - 1]);
    }
  }

  ghost predicate ChunksFit(s: State) {
    forall w :: 0 <= w < |s.ws| && s.ws[w].Writing? ==> 0 < |s.ws[w].chunk| <= 1024
  }

  lemma ActorChunkFits(c: Config, s: State, l: Label)
    requires Enabled(c, s, l) && !MainLabel(l) && !ManagerLabel(l)
    ensures var ws' := Apply(c, s, l).ws;
            |ws'| == |s.ws| && (ws'[l.w].Writing? ==> 0 < |ws'[l.w].chunk| <= 1024)
  {
  }

  lemma ChunksFitStep(c: Config, s: State, l: Label)
    requires Shape(c, s) && Enabled(c, s, l) && ChunksFit(s)
    ensures ChunksFit(Apply(c, s, l))
  {
    if MainLabel(l) || ManagerLabel(l) {
      WorkersWatched(c, s, l);
    } else {
      OneWorkerMoves(c, s, l);
      ActorChunkFits(c, s, l);
    }
  }

  /** A worker never has more in hand than its buffer of 1024 bytes holds. */
  lemma {:induction false} ChunksFitInRun(c: Config, r: Run, k: nat)
    requires Admissible(c) && IsRun(c, r) && k < |r.states|
    ensures ChunksFit(r.states[k])
  {
    if k > 0 {
      ChunksFitInRun(c, r, k - 1);
      ShapeInRun(c, r, k - 1);
      assert Enabled(c, r.states[k - 1], r.labels[k - 1]);
      ChunksFitStep(c, r.states[k - 1], r.labels[k - 1]);
    }
  }

  /** A read may deliver any number of bytes up to that, as far as there are any. */
  lemma AnyChunking(c: Config, s: State, w: nat, k: nat)
    requires w < |s.ws| && s.ws[w].Reading? && s.ws[w].item.srcFd in s.fds
    ensures Enabled(c, s, WRead(w, k)) <==> 0 < k <= 1024 && k <= Remaining(s, s.ws[w].item.srcFd)
    ensures Enabled(c, s, WReadEof(w)) <==> Remaining(s, s.ws[w].item.srcFd) == 0
  {
  }
}
