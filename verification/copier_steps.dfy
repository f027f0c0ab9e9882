/** Every step keeps every part of the copier's invariant. */
module CopierSteps {
  import opened CopyPlan
  import opened Counting
  import opened Ring
  import opened Sequences
  import opened Copier
  import opened CopierInvariant

  lemma InitRing(c: Config, s: State)
    requires Admissible(c) && Init(c, s)
    ensures s.ring.Valid() && s.ring.Live() == []
  {
    WrapOnce(0, c.capacity);
  }

  lemma InitSums(c: Config, s: State)
    requires Admissible(c) && Init(c, s)
    ensures Conserved(s) && Barrier(c, s)
  {
    TotalBounds(FdWeights(s.ws), 0);
    TotalBounds(ArrivedWeights(s.ws), 0);
  }

  lemma InitEstablishes(c: Config, s: State)
    requires Admissible(c) && Init(c, s)
    ensures Inv(c, s)
  {
    InitRing(c, s);
    InitSums(c, s);
    assert Shape(c, s);
    assert Phase(c, s);
    assert JobsOf(s.pushed) == CopyJobs(c.plan, 0);
    assert DirPaths(c.plan, 0) == {} && DstPaths(c.plan, 0) == {};
    assert s.fs.files.Keys == c.fs.files.Keys;
    assert Contents(c, s);
    assert ClosedOnce(c, s);
  }

  // ----- How the workers change ------------------------------------------------

  /** Workers are created or woken, and otherwise as before. */
  ghost predicate OnlyWakes(ws: seq<WorkerPc>, ws': seq<WorkerPc>) {
    && |ws'| == |ws|
    && forall w :: 0 <= w < |ws| ==>
         || ws'[w] == ws[w]
         || (ws[w] == WaitEmpty && ws'[w] == WokenEmpty)
         || (ws[w] == WUnborn && ws'[w] == Popping)
  }

  /** That is all main and the manager do to them. */
  lemma WorkersWatched(c: Config, s: State, l: Label)
    requires Shape(c, s) && Enabled(c, s, l) && (MainLabel(l) || ManagerLabel(l))
    ensures OnlyWakes(s.ws, Apply(c, s, l).ws)
  {
  }

  lemma OneWorkerMoves(c: Config, s: State, l: Label)
    requires Enabled(c, s, l) && !MainLabel(l) && !ManagerLabel(l)
    ensures var ws' := Apply(c, s, l).ws; |ws'| == |s.ws| && ws' == s.ws[l.w := ws'[l.w]]
  {
  }

  lemma SameWorkers(c: Config, s: State, l: Label)
    requires Shape(c, s) && Enabled(c, s, l)
    ensures |Apply(c, s, l).ws| == |s.ws|
  {
    if MainLabel(l) || ManagerLabel(l) {
      WorkersWatched(c, s, l);
    } else {
      OneWorkerMoves(c, s, l);
    }
  }

  // ----- The ring, the program counters, the phases ----------------------------

  lemma RingStep(c: Config, s: State, l: Label)
    requires Shape(c, s) && Enabled(c, s, l)
    ensures var s' := Apply(c, s, l);
            && s'.ring.Valid() && |s'.ring.slots| == c.capacity
            && s'.ring.Live() ==
               (if l.MPush? then s.ring.Live() + [s.m.item]
                else if l.WPop? then s.ring.Live()[1..]
                else s.ring.Live())
            && (l.WPop? ==> s.ring.Live()[0] == s.ring.Head())
  {
    var s' := Apply(c, s, l);
    if l.MPush? {
      PutAppends(s.ring, s.m.item);
    } else if l.WPop? {
      TakeRemovesOldest(s.ring);
    } else {
      assert s'.ring.Live() == s.ring.Live();
    }
  }

  lemma ShapeMainStep(c: Config, s: State, l: Label)
    requires Shape(c, s) && Enabled(c, s, l) && MainLabel(l)
    ensures Shape(c, Apply(c, s, l))
  {
    RingStep(c, s, l);
    var s' := Apply(c, s, l);
    forall t | 0 <= t < Parties(c) && Joined(s'.main, t) ensures Returned(s', t) {
      assert Joined(s.main, t) ==> Returned(s, t);
    }
  }

  /** A thread that has returned takes no further step. */
  lemma ReturnedStays(c: Config, s: State, l: Label, t: nat)
    requires Shape(c, s) && Enabled(c, s, l) && !MainLabel(l) && Returned(s, t)
    ensures Returned(Apply(c, s, l), t)
  {
    if ManagerLabel(l) {
      WorkersWatched(c, s, l);
    } else {
      OneWorkerMoves(c, s, l);
    }
  }

  /** Only main gives birth. */
  lemma NoBirthByManager(c: Config, s: State, l: Label)
    requires Enabled(c, s, l) && ManagerLabel(l)
    ensures var s' := Apply(c, s, l);
            && s'.main == s.main && !s.m.MUnborn? && !s'.m.MUnborn? && |s'.ws| == |s.ws|
            && forall w :: 0 <= w < |s.ws| ==> (s'.ws[w].WUnborn? <==> s.ws[w].WUnborn?)
  {
  }

  lemma NoBirthByWorker(c: Config, s: State, l: Label)
    requires Enabled(c, s, l) && !MainLabel(l) && !ManagerLabel(l)
    ensures var s' := Apply(c, s, l);
            && s'.main == s.main && (s'.m.MUnborn? <==> s.m.MUnborn?) && |s'.ws| == |s.ws|
            && !s.ws[l.w].WUnborn? && !s'.ws[l.w].WUnborn?
  {
  }

  lemma NoBirth(c: Config, s: State, l: Label)
    requires Shape(c, s) && Enabled(c, s, l) && !MainLabel(l)
    ensures var s' := Apply(c, s, l);
            && s'.main == s.main && (s'.m.MUnborn? <==> s.m.MUnborn?) && |s'.ws| == |s.ws|
            && forall w :: 0 <= w < |s.ws| ==> (s'.ws[w].WUnborn? <==> s.ws[w].WUnborn?)
  {
    if ManagerLabel(l) {
      NoBirthByManager(c, s, l);
    } else {
      NoBirthByWorker(c, s, l);
      OneWorkerMoves(c, s, l);
    }
  }

  lemma ShapeStep(c: Config, s: State, l: Label)
    requires Shape(c, s) && Enabled(c, s, l)
    ensures Shape(c, Apply(c, s, l))
  {
    if MainLabel(l) {
      ShapeMainStep(c, s, l);
    } else {
      RingStep(c, s, l);
      NoBirth(c, s, l);
      var s' := Apply(c, s, l);
      forall t | 0 <= t < Parties(c) && Joined(s'.main, t) ensures Returned(s', t) {
        ReturnedStays(c, s, l, t);
      }
    }
  }

  lemma PhaseWorkerStep(c: Config, s: State, l: Label)
    requires Shape(c, s) && Phase(c, s) && Enabled(c, s, l) && !MainLabel(l) && !ManagerLabel(l)
    ensures Phase(c, Apply(c, s, l))
  {
    var s' := Apply(c, s, l);
    assert s'.ring.done == s.ring.done;
    forall w | 0 <= w < |s'.ws| && Leaving(s'.ws[w]) ensures s'.ring.done && s'.ring.count == 0 {
      assert w != l.w ==> s'.ws[w] == s.ws[w];
    }
  }

  lemma PhaseStep(c: Config, s: State, l: Label)
    requires Shape(c, s) && Phase(c, s) && Enabled(c, s, l)
    ensures Phase(c, Apply(c, s, l))
  {
    if !MainLabel(l) && !ManagerLabel(l) {
      PhaseWorkerStep(c, s, l);
    } else {
      var s' := Apply(c, s, l);
      forall w | 0 <= w < |s'.ws| && Leaving(s'.ws[w]) ensures s'.ring.done && s'.ring.count == 0 {
        assert s'.ws[w] == s.ws[w];
      }
    }
  }

  /** The manager's position moves only past a directory or with a push. */
  lemma PositionStep(c: Config, s: State, l: Label)
    requires Shape(c, s) && Phase(c, s) && Enabled(c, s, l)
    ensures var p := Position(c, s.m); var p' := Position(c, Apply(c, s, l).m);
            && p' <= |c.plan|
            && (if l.MMkDir? then p' == p + 1 && c.plan[p].MkDir?
                else if l.MPush? then p' == p + 1 && c.plan[p].Copy? && s.m.item.job == p
                else p' == p)
  {
  }

  lemma CopyJobsNext(plan: seq<Action>, p: nat)
    requires p < |plan|
    ensures CopyJobs(plan, p + 1) == if plan[p].Copy? then CopyJobs(plan, p) + [p] else CopyJobs(plan, p)
  {
  }

  lemma JobsPush(c: Config, pushed: seq<Item>, it: Item)
    requires it.job < |c.plan| && c.plan[it.job].Copy?
    requires JobsOf(pushed) == CopyJobs(c.plan, it.job)
    ensures JobsOf(pushed + [it]) == CopyJobs(c.plan, it.job + 1)
  {
    CopyJobsNext(c.plan, it.job);
    assert JobsOf(pushed + [it]) == JobsOf(pushed) + [it.job];
  }

  /** The pushed jobs are those of the actions behind the manager. */
  lemma JobsStep(c: Config, s: State, l: Label)
    requires Shape(c, s) && Phase(c, s) && Enabled(c, s, l)
    requires JobsOf(s.pushed) == CopyJobs(c.plan, Position(c, s.m))
    ensures JobsOf(Apply(c, s, l).pushed) == CopyJobs(c.plan, Position(c, Apply(c, s, l).m))
  {
    PositionStep(c, s, l);
    if l.MPush? {
      JobsPush(c, s.pushed, s.m.item);
    } else if l.MMkDir? {
      CopyJobsNext(c.plan, Position(c, s.m));
    }
  }

  /** Nothing is lost, duplicated or reordered between the two ends of the ring. */
  lemma QueueStep(c: Config, s: State, l: Label)
    requires Shape(c, s) && Enabled(c, s, l)
    requires s.pushed == s.popped + s.ring.Live()
    ensures var s' := Apply(c, s, l); s'.ring.Valid() && s'.pushed == s'.popped + s'.ring.Live()
  {
    RingStep(c, s, l);
    var q := s.ring.Live();
    if l.MPush? {
      Regroup(s.popped, q, [s.m.item]);
    } else if l.WPop? {
      assert q == [q[0]] + q[1..];
      Regroup(s.popped, [q[0]], q[1..]);
    }
  }

  lemma HistoryStep(c: Config, s: State, l: Label)
    requires Shape(c, s) && Phase(c, s) && History(c, s) && Enabled(c, s, l)
    ensures Apply(c, s, l).ring.Valid() && History(c, Apply(c, s, l))
  {
    PositionStep(c, s, l);
    QueueStep(c, s, l);
    JobsStep(c, s, l);
  }

  // ----- Who holds which job ---------------------------------------------------

  /** Jobs go through the ring in increasing order and all lie behind the manager. */
  lemma PushedInOrder(c: Config, s: State)
    requires Shape(c, s) && History(c, s)
    ensures forall k :: 0 <= k < |s.pushed| ==> IsCopy(c, s.pushed[k].job) && s.pushed[k].job < Position(c, s.m)
    ensures forall j, k :: 0 <= j < k < |s.pushed| ==> s.pushed[j].job < s.pushed[k].job
  {
    var jobs := CopyJobs(c.plan, Position(c, s.m));
    CopyJobsExact(c.plan, Position(c, s.m), jobs);
    assert JobsOf(s.pushed) == jobs;
    forall k | 0 <= k < |s.pushed|
      ensures IsCopy(c, s.pushed[k].job) && s.pushed[k].job < Position(c, s.m)
    {
      assert s.pushed[k].job == jobs[k];
    }
    forall j, k | 0 <= j < k < |s.pushed| ensures s.pushed[j].job < s.pushed[k].job {
      assert s.pushed[j].job == jobs[j] && s.pushed[k].job == jobs[k];
    }
  }

  /** A queued job is not among the popped ones. */
  lemma QueuedNotPopped(c: Config, s: State, i: nat)
    requires Shape(c, s) && History(c, s) && i < s.ring.count
    ensures s.ring.Live()[i].job !in JobsOf(s.popped)
  {
    PushedInOrder(c, s);
    assert s.pushed[|s.popped| + i] == s.ring.Live()[i];
    forall k | 0 <= k < |s.popped| ensures s.popped[k].job != s.ring.Live()[i].job {
      assert s.pushed[k] == s.popped[k];
    }
  }

  lemma PoppedBehindManager(c: Config, s: State, j: nat)
    requires Shape(c, s) && History(c, s) && j in JobsOf(s.popped)
    ensures IsCopy(c, j) && j < Position(c, s.m)
  {
    PushedInOrder(c, s);
    var k :| 0 <= k < |s.popped| && JobsOf(s.popped)[k] == j;
    assert s.pushed[k] == s.popped[k];
  }

  lemma BusyAfterWorker(c: Config, s: State, l: Label, w: nat)
    requires Enabled(c, s, l) && !MainLabel(l) && !ManagerLabel(l) && w < |s.ws| && !l.WPop?
    ensures var s' := Apply(c, s, l);
            && |s'.ws| == |s.ws|
            && (Busy(s'.ws[w]) ==> Busy(s.ws[w]) && s'.ws[w].item == s.ws[w].item)
  {
  }

  /** Only a pop gives a worker an item. */
  lemma BusyAfter(c: Config, s: State, l: Label, w: nat)
    requires Enabled(c, s, l) && w < |s.ws| && !l.WPop?
    ensures var s' := Apply(c, s, l);
            && |s'.ws| == |s.ws|
            && (Busy(s'.ws[w]) ==> Busy(s.ws[w]) && s'.ws[w].item == s.ws[w].item)
  {
    if !MainLabel(l) && !ManagerLabel(l) {
      BusyAfterWorker(c, s, l, w);
    }
  }

  /** A job just popped is nobody else's. */
  lemma PopIsNew(c: Config, s: State, l: Label, v: nat)
    requires Shape(c, s) && History(c, s) && Holders(s.ws, s.popped) && Enabled(c, s, l) && l.WPop?
    requires v < |s.ws| && Busy(s.ws[v])
    ensures s.ws[v].item.job != s.ring.Head().job
  {
    RingStep(c, s, l);
    QueuedNotPopped(c, s, 0);
    var k :| 0 <= k < |s.popped| && s.popped[k] == s.ws[v].item;
    assert JobsOf(s.popped)[k] == s.ws[v].item.job;
  }

  lemma PoppedGrows(c: Config, s: State, l: Label)
    requires Enabled(c, s, l)
    ensures Apply(c, s, l).popped == if l.WPop? then s.popped + [s.ring.Head()] else s.popped
  {
  }

  lemma PopperHolds(c: Config, s: State, l: Label)
    requires Enabled(c, s, l) && l.WPop?
    ensures Apply(c, s, l).ws == s.ws[l.w := Reading(s.ring.Head())]
    ensures Apply(c, s, l).popped == s.popped + [s.ring.Head()]
  {
  }

  /** Another holder, with a job of its own. */
  lemma OneMoreHolder(ws: seq<WorkerPc>, popped: seq<Item>, w: nat, it: Item)
    requires Holders(ws, popped) && w < |ws|
    requires forall v :: 0 <= v < |ws| && Busy(ws[v]) ==> ws[v].item.job != it.job
    ensures Holders(ws[w := Reading(it)], popped + [it])
  {
    assert (popped + [it])[|popped|] == it;
  }

  lemma HoldersStep(c: Config, s: State, l: Label)
    requires Shape(c, s) && History(c, s) && Holders(s.ws, s.popped) && Enabled(c, s, l)
    ensures Holders(Apply(c, s, l).ws, Apply(c, s, l).popped)
  {
    if l.WPop? {
      forall v | 0 <= v < |s.ws| && Busy(s.ws[v]) ensures s.ws[v].item.job != s.ring.Head().job {
        PopIsNew(c, s, l, v);
      }
      PopperHolds(c, s, l);
      OneMoreHolder(s.ws, s.popped, l.w, s.ring.Head());
    } else {
      var ws' := Apply(c, s, l).ws;
      PoppedGrows(c, s, l);
      SameWorkers(c, s, l);
      forall w | 0 <= w < |s.ws| && Busy(ws'[w]) ensures Busy(s.ws[w]) && ws'[w].item == s.ws[w].item {
        BusyAfter(c, s, l, w);
      }
    }
  }

  // ----- Descriptors and file contents -----------------------------------------

  predicate TouchesFiles(l: Label) {
    l.MOpenSrc? || l.MOpenDest? || l.WRead? || l.WWrite? || l.WCloseSrc? || l.WCloseDest?
  }

  /** The one job whose files a step touches. */
  function JobTouched(c: Config, s: State, l: Label): nat
    requires TouchesFiles(l) && Enabled(c, s, l)
  {
    if ManagerLabel(l) then s.m.i else s.ws[l.w].item.job
  }

  /** Whatever does not belong to job `j` is as before. */
  ghost predicate OnlyJob(c: Config, j: nat, fds: map<nat, Desc>, files: map<string, Bytes>,
                          fds': map<nat, Desc>, files': map<string, Bytes>)
    requires IsCopy(c, j)
  {
    && (forall f :: f in fds && fds[f].path != c.plan[j].src && fds[f].path != c.plan[j].dst ==>
          f in fds' && fds'[f] == fds[f])
    && (forall p :: p in files && p != c.plan[j].dst ==> p in files' && files'[p] == files[p])
  }

  lemma WorkerTouchesOneJob(c: Config, s: State, l: Label)
    requires Shape(c, s) && Contents(c, s) && Enabled(c, s, l) && TouchesFiles(l) && !ManagerLabel(l)
    ensures var s' := Apply(c, s, l); var j := JobTouched(c, s, l);
            IsCopy(c, j) && OnlyJob(c, j, s.fds, s.fs.files, s'.fds, s'.fs.files)
  {
    assert WorkerOk(c, s.fds, s.fs.files, s.ws[l.w]);
  }

  lemma StepTouchesOneJob(c: Config, s: State, l: Label)
    requires Shape(c, s) && Phase(c, s) && Contents(c, s) && Enabled(c, s, l)
    ensures var s' := Apply(c, s, l);
            if TouchesFiles(l) then
              var j := JobTouched(c, s, l);
              IsCopy(c, j) && OnlyJob(c, j, s.fds, s.fs.files, s'.fds, s'.fs.files)
            else s'.fds == s.fds && s'.fs.files == s.fs.files
  {
    if !ManagerLabel(l) && TouchesFiles(l) {
      WorkerTouchesOneJob(c, s, l);
    }
  }

  lemma OtherItemKept(c: Config, j: nat, fds: map<nat, Desc>, files: map<string, Bytes>,
                      fds': map<nat, Desc>, files': map<string, Bytes>, it: Item)
    requires Sound(c.plan, c.fs)
    requires IsCopy(c, j) && OnlyJob(c, j, fds, files, fds', files')
    requires Untouched(c, fds, files, it) && it.job != j
    ensures Untouched(c, fds', files', it)
  {
  }

  lemma OtherWorkerKept(c: Config, j: nat, fds: map<nat, Desc>, files: map<string, Bytes>,
                        fds': map<nat, Desc>, files': map<string, Bytes>, pc: WorkerPc)
    requires Sound(c.plan, c.fs)
    requires IsCopy(c, j) && OnlyJob(c, j, fds, files, fds', files')
    requires WorkerOk(c, fds, files, pc)
    requires Busy(pc) ==> pc.item.job != j
    ensures WorkerOk(c, fds', files', pc)
  {
  }

  /** The actor of a step is the only holder of the job it touches. */
  lemma HoldersApart(c: Config, s: State, l: Label)
    requires Shape(c, s) && Phase(c, s) && History(c, s) && Holders(s.ws, s.popped)
    requires TouchesFiles(l) && Enabled(c, s, l)
    ensures var j := JobTouched(c, s, l);
            && (forall i :: 0 <= i < s.ring.count ==> s.ring.Live()[i].job != j)
            && (forall w :: 0 <= w < |s.ws| && Busy(s.ws[w]) && (ManagerLabel(l) || w != l.w) ==> s.ws[w].item.job != j)
            && (HoldsItem(s.m) ==> s.m.item.job != j)
            && (s.m.OpenDest? && !ManagerLabel(l) ==> s.m.i != j)
  {
    PushedInOrder(c, s);
    var j := JobTouched(c, s, l);
    forall w | 0 <= w < |s.ws| && Busy(s.ws[w])
      ensures s.ws[w].item.job in JobsOf(s.popped) && s.ws[w].item.job < Position(c, s.m)
    {
      var k :| 0 <= k < |s.popped| && s.popped[k] == s.ws[w].item;
      assert JobsOf(s.popped)[k] == s.ws[w].item.job;
      PoppedBehindManager(c, s, s.ws[w].item.job);
    }
    forall i | 0 <= i < s.ring.count ensures s.ring.Live()[i].job != j {
      QueuedNotPopped(c, s, i);
      assert s.pushed[|s.popped| + i] == s.ring.Live()[i];
    }
  }

  /** A source file is never written. */
  lemma SourceStays(c: Config, s: State, j: nat)
    requires Sound(c.plan, c.fs) && Frame(c, s.m, s.fs) && IsCopy(c, j)
    ensures KnownJob(c, j)
    ensures c.plan[j].src in s.fs.files && s.fs.files[c.plan[j].src] == Source(c, j)
  {
    assert c.plan[j].src !in DstPaths(c.plan, Created(c, s.m));
  }

  /** A worker's step does not disturb what the manager has opened. */
  lemma ManagerUndisturbed(c: Config, s: State, l: Label)
    requires Sound(c.plan, c.fs) && Shape(c, s) && Phase(c, s) && History(c, s) && Holders(s.ws, s.popped)
    requires Contents(c, s) && Enabled(c, s, l) && !ManagerLabel(l) && TouchesFiles(l)
    ensures var s' := Apply(c, s, l); ManagerOk(c, s'.fds, s'.fs.files, s'.m)
  {
    var s' := Apply(c, s, l);
    StepTouchesOneJob(c, s, l);
    HoldersApart(c, s, l);
    if HoldsItem(s.m) {
      OtherItemKept(c, JobTouched(c, s, l), s.fds, s.fs.files, s'.fds, s'.fs.files, s.m.item);
    }
  }

  lemma ManagerContentsStep(c: Config, s: State, l: Label)
    requires Sound(c.plan, c.fs) && Shape(c, s) && Phase(c, s) && History(c, s) && Holders(s.ws, s.popped)
    requires Contents(c, s) && Enabled(c, s, l)
    ensures var s' := Apply(c, s, l); ManagerOk(c, s'.fds, s'.fs.files, s'.m)
  {
    if !ManagerLabel(l) && TouchesFiles(l) {
      ManagerUndisturbed(c, s, l);
    }
  }

  lemma QueueContentsStep(c: Config, s: State, l: Label)
    requires Sound(c.plan, c.fs) && Shape(c, s) && Phase(c, s) && History(c, s) && Holders(s.ws, s.popped)
    requires Contents(c, s) && Enabled(c, s, l)
    ensures var s' := Apply(c, s, l);
            s'.ring.Valid() && forall i :: 0 <= i < s'.ring.count ==> Untouched(c, s'.fds, s'.fs.files, s'.ring.Live()[i])
  {
    var s' := Apply(c, s, l);
    RingStep(c, s, l);
    StepTouchesOneJob(c, s, l);
    if TouchesFiles(l) {
      HoldersApart(c, s, l);
      var j := JobTouched(c, s, l);
      forall i | 0 <= i < s'.ring.count ensures Untouched(c, s'.fds, s'.fs.files, s'.ring.Live()[i]) {
        OtherItemKept(c, j, s.fds, s.fs.files, s'.fds, s'.fs.files, s.ring.Live()[i]);
      }
    }
  }

  lemma ActingReadStep(c: Config, s: State, l: Label)
    requires Sound(c.plan, c.fs) && Shape(c, s) && Contents(c, s) && Frame(c, s.m, s.fs) && Enabled(c, s, l)
    requires l.WRead?
    ensures var s' := Apply(c, s, l); WorkerOk(c, s'.fds, s'.fs.files, s'.ws[l.w])
  {
    assert WorkerOk(c, s.fds, s.fs.files, s.ws[l.w]);
    SourceStays(c, s, s.ws[l.w].item.job);
  }

  lemma ActingEofStep(c: Config, s: State, l: Label)
    requires Sound(c.plan, c.fs) && Shape(c, s) && Contents(c, s) && Frame(c, s.m, s.fs) && Enabled(c, s, l)
    requires l.WReadEof?
    ensures var s' := Apply(c, s, l); WorkerOk(c, s'.fds, s'.fs.files, s'.ws[l.w])
  {
    assert WorkerOk(c, s.fds, s.fs.files, s.ws[l.w]);
    SourceStays(c, s, s.ws[l.w].item.job);
  }

  lemma ActingWriteStep(c: Config, s: State, l: Label)
    requires Sound(c.plan, c.fs) && Shape(c, s) && Contents(c, s) && Enabled(c, s, l) && l.WWrite?
    ensures var s' := Apply(c, s, l); WorkerOk(c, s'.fds, s'.fs.files, s'.ws[l.w])
  {
    var it := s.ws[l.w].item;
    assert WorkerOk(c, s.fds, s.fs.files, s.ws[l.w]);
    var src := Source(c, it.job);
    var done, read := s.fds[it.destFd].off, s.fds[it.srcFd].off;
    assert src[..done] + src[done..read] == src[..read];
  }

  /** The worker that acts: its own part of the invariant, step by step. */
  lemma ActingWorkerStep(c: Config, s: State, l: Label)
    requires Sound(c.plan, c.fs) && Shape(c, s) && Contents(c, s) && Frame(c, s.m, s.fs) && Enabled(c, s, l)
    requires !MainLabel(l) && !ManagerLabel(l)
    ensures var s' := Apply(c, s, l); WorkerOk(c, s'.fds, s'.fs.files, s'.ws[l.w])
  {
    if l.WPop? {
      RingStep(c, s, l);
      assert Untouched(c, s.fds, s.fs.files, s.ring.Live()[0]);
    } else if l.WRead? {
      ActingReadStep(c, s, l);
    } else if l.WReadEof? {
      ActingEofStep(c, s, l);
    } else if l.WWrite? {
      ActingWriteStep(c, s, l);
    } else {
      assert WorkerOk(c, s.fds, s.fs.files, s.ws[l.w]);
    }
  }

  /** A worker that does not act: its program counter changes only by a wake-up
      or its creation, and what it holds is not touched. */
  lemma IdlePc(c: Config, s: State, l: Label, w: nat)
    requires Shape(c, s) && Enabled(c, s, l)
    requires w < |s.ws| && (MainLabel(l) || ManagerLabel(l) || w != l.w)
    ensures var ws' := Apply(c, s, l).ws; |ws'| == |s.ws| && (ws'[w] == s.ws[w] || ws'[w] == WokenEmpty || ws'[w] == Popping)
  {
    if MainLabel(l) || ManagerLabel(l) {
      WorkersWatched(c, s, l);
    } else {
      OneWorkerMoves(c, s, l);
    }
  }

  lemma IdleHoldsOn(c: Config, s: State, l: Label, w: nat)
    requires Sound(c.plan, c.fs) && Shape(c, s) && Phase(c, s) && History(c, s) && Holders(s.ws, s.popped)
    requires Contents(c, s) && Enabled(c, s, l)
    requires w < |s.ws| && (MainLabel(l) || ManagerLabel(l) || w != l.w)
    ensures var s' := Apply(c, s, l); WorkerOk(c, s'.fds, s'.fs.files, s.ws[w])
  {
    var s' := Apply(c, s, l);
    assert WorkerOk(c, s.fds, s.fs.files, s.ws[w]);
    StepTouchesOneJob(c, s, l);
    if TouchesFiles(l) {
      HoldersApart(c, s, l);
      OtherWorkerKept(c, JobTouched(c, s, l), s.fds, s.fs.files, s'.fds, s'.fs.files, s.ws[w]);
    }
  }

  lemma IdleWorkerStep(c: Config, s: State, l: Label, w: nat)
    requires Sound(c.plan, c.fs) && Shape(c, s) && Phase(c, s) && History(c, s) && Holders(s.ws, s.popped)
    requires Contents(c, s) && Enabled(c, s, l)
    requires w < |s.ws| && (MainLabel(l) || ManagerLabel(l) || w != l.w)
    ensures var s' := Apply(c, s, l); |s'.ws| == |s.ws| && WorkerOk(c, s'.fds, s'.fs.files, s'.ws[w])
  {
    IdlePc(c, s, l, w);
    IdleHoldsOn(c, s, l, w);
  }

  lemma WorkerContentsStep(c: Config, s: State, l: Label, w: nat)
    requires Sound(c.plan, c.fs) && Shape(c, s) && Phase(c, s) && History(c, s) && Holders(s.ws, s.popped)
    requires Contents(c, s) && Frame(c, s.m, s.fs) && Enabled(c, s, l) && w < |s.ws|
    ensures var s' := Apply(c, s, l); |s'.ws| == |s.ws| && WorkerOk(c, s'.fds, s'.fs.files, s'.ws[w])
  {
    SameWorkers(c, s, l);
    if !MainLabel(l) && !ManagerLabel(l) && w == l.w {
      ActingWorkerStep(c, s, l);
    } else {
      IdleWorkerStep(c, s, l, w);
    }
  }

  lemma ContentsStep(c: Config, s: State, l: Label)
    requires Sound(c.plan, c.fs) && Shape(c, s) && Phase(c, s) && History(c, s) && Holders(s.ws, s.popped)
    requires Contents(c, s) && Frame(c, s.m, s.fs) && Enabled(c, s, l)
    ensures var s' := Apply(c, s, l); s'.ring.Valid() && Contents(c, s')
  {
    var s' := Apply(c, s, l);
    ManagerContentsStep(c, s, l);
    QueueContentsStep(c, s, l);
    SameWorkers(c, s, l);
    forall w | 0 <= w < |s'.ws| ensures WorkerOk(c, s'.fds, s'.fs.files, s'.ws[w]) {
      WorkerContentsStep(c, s, l, w);
    }
  }

  // ----- The file system -------------------------------------------------------

  lemma FrameMkDir(c: Config, i: nat, fs: FileSystem)
    requires i < |c.plan| && c.plan[i].MkDir? && Frame(c, Walking(i), fs)
    ensures Frame(c, Walking(i + 1), fs.(dirs := fs.dirs + {c.plan[i].path}))
  {
    assert DirPaths(c.plan, i + 1) == DirPaths(c.plan, i) + {c.plan[i].path};
    assert DstPaths(c.plan, i + 1) == DstPaths(c.plan, i);
  }

  lemma FrameOpenDest(c: Config, m: ManagerPc, it: Item, fs: FileSystem)
    requires m.OpenDest? && m.i == it.job && IsCopy(c, it.job) && Frame(c, m, fs)
    ensures Frame(c, Pushing(it), fs.(files := fs.files[c.plan[it.job].dst := []]))
  {
    var dst := c.plan[it.job].dst;
    assert DstPaths(c.plan, it.job + 1) == DstPaths(c.plan, it.job) + {dst};
    assert fs.files[dst := []].Keys == fs.files.Keys + {dst};
  }

  lemma FramePush(c: Config, m: ManagerPc, fs: FileSystem)
    requires HoldsItem(m) && IsCopy(c, m.item.job) && Frame(c, m, fs)
    ensures Frame(c, Walking(m.item.job + 1), fs)
  {
    assert DirPaths(c.plan, m.item.job + 1) == DirPaths(c.plan, m.item.job);
  }

  lemma FrameManagerStep(c: Config, s: State, l: Label)
    requires Shape(c, s) && Phase(c, s) && Frame(c, s.m, s.fs)
    requires Enabled(c, s, l) && (l.MMkDir? || l.MOpenDest? || l.MPush?)
    ensures var s' := Apply(c, s, l); Frame(c, s'.m, s'.fs)
  {
    if l.MMkDir? {
      FrameMkDir(c, s.m.i, s.fs);
    } else if l.MOpenDest? {
      FrameOpenDest(c, s.m, Apply(c, s, l).m.item, s.fs);
    } else {
      FramePush(c, s.m, s.fs);
    }
  }

  lemma FrameWriteStep(c: Config, s: State, l: Label)
    requires Shape(c, s) && Phase(c, s) && History(c, s) && Holders(s.ws, s.popped)
    requires Contents(c, s) && Frame(c, s.m, s.fs) && Enabled(c, s, l) && l.WWrite?
    ensures var s' := Apply(c, s, l); Frame(c, s'.m, s'.fs)
  {
    WriterBehindManager(c, s, l.w);
    assert WorkerOk(c, s.fds, s.fs.files, s.ws[l.w]);
    var d := c.plan[s.ws[l.w].item.job].dst;
    assert Apply(c, s, l).fs.files.Keys == s.fs.files.Keys + {d};
  }

  /** The other steps leave the file system and the manager's progress alone. */
  lemma NoFileEffect(c: Config, s: State, l: Label)
    requires Shape(c, s) && Phase(c, s) && Enabled(c, s, l)
    requires !l.MMkDir? && !l.MOpenDest? && !l.MPush? && !l.WWrite?
    ensures var s' := Apply(c, s, l);
            s'.fs == s.fs && Position(c, s'.m) == Position(c, s.m) && Created(c, s'.m) == Created(c, s.m)
  {
  }

  lemma FrameStep(c: Config, s: State, l: Label)
    requires Shape(c, s) && Phase(c, s) && History(c, s) && Holders(s.ws, s.popped)
    requires Contents(c, s) && Frame(c, s.m, s.fs) && Enabled(c, s, l)
    ensures var s' := Apply(c, s, l); Frame(c, s'.m, s'.fs)
  {
    if l.MMkDir? || l.MOpenDest? || l.MPush? {
      FrameManagerStep(c, s, l);
    } else if l.WWrite? {
      FrameWriteStep(c, s, l);
    } else {
      NoFileEffect(c, s, l);
    }
  }

  /** What a worker writes to was created by the manager. */
  lemma WriterBehindManager(c: Config, s: State, w: nat)
    requires Shape(c, s) && Phase(c, s) && History(c, s) && Holders(s.ws, s.popped) && Contents(c, s)
    requires w < |s.ws| && Busy(s.ws[w])
    ensures var j := s.ws[w].item.job;
            && j in JobsOf(s.popped)
            && IsCopy(c, j) && j < Position(c, s.m)
            && c.plan[j].dst in DstPaths(c.plan, Created(c, s.m))
  {
    var k :| 0 <= k < |s.popped| && s.popped[k] == s.ws[w].item;
    assert JobsOf(s.popped)[k] == s.ws[w].item.job;
    PoppedBehindManager(c, s, s.ws[w].item.job);
  }

  // ----- Counting descriptors --------------------------------------------------

  lemma FdSumSet(ws: seq<WorkerPc>, w: nat, pc: WorkerPc)
    requires w < |ws|
    ensures Total(FdWeights(ws[w := pc])) + WorkerFds(ws[w]) == Total(FdWeights(ws)) + WorkerFds(pc)
  {
    TotalUpdate(FdWeights(ws), w, WorkerFds(pc));
    assert FdWeights(ws[w := pc]) == FdWeights(ws)[w := WorkerFds(pc)];
  }

  lemma FdSumWakes(ws: seq<WorkerPc>, ws': seq<WorkerPc>)
    requires OnlyWakes(ws, ws')
    ensures Total(FdWeights(ws')) == Total(FdWeights(ws))
  {
    assert FdWeights(ws') == FdWeights(ws);
  }

  lemma FdSumStep(c: Config, s: State, l: Label)
    requires Shape(c, s) && Enabled(c, s, l)
    ensures var s' := Apply(c, s, l);
            if MainLabel(l) || ManagerLabel(l) then Total(FdWeights(s'.ws)) == Total(FdWeights(s.ws))
            else Total(FdWeights(s'.ws)) + WorkerFds(s.ws[l.w]) == Total(FdWeights(s.ws)) + WorkerFds(s'.ws[l.w])
  {
    var ws' := Apply(c, s, l).ws;
    if MainLabel(l) || ManagerLabel(l) {
      WorkersWatched(c, s, l);
      FdSumWakes(s.ws, ws');
    } else {
      OneWorkerMoves(c, s, l);
      FdSumSet(s.ws, l.w, ws'[l.w]);
    }
  }

  lemma OpenOne<T>(m: map<nat, T>, f: nat, d: T)
    requires f !in m
    ensures |m[f := d]| == |m| + 1
  {
    assert m[f := d].Keys == m.Keys + {f};
  }

  lemma CloseOne<T>(m: map<nat, T>, f: nat)
    requires f in m
    ensures |m - {f}| == |m| - 1
  {
    assert (m - {f}).Keys == m.Keys - {f};
  }

  lemma MoveOne<T>(m: map<nat, T>, f: nat, d: T)
    requires f in m
    ensures |m[f := d]| == |m|
  {
    assert m[f := d].Keys == m.Keys;
  }

  /** How a step changes the size of the descriptor table. */
  lemma FdTableByWorker(c: Config, s: State, l: Label)
    requires Shape(c, s) && Contents(c, s) && Enabled(c, s, l) && !MainLabel(l) && !ManagerLabel(l)
    ensures |Apply(c, s, l).fds| == if l.WCloseSrc? || l.WCloseDest? then |s.fds| - 1 else |s.fds|
  {
    assert WorkerOk(c, s.fds, s.fs.files, s.ws[l.w]);
    match l
    case WRead(w, k) => MoveOne(s.fds, s.ws[w].item.srcFd, Apply(c, s, l).fds[s.ws[w].item.srcFd]);
    case WWrite(w) => MoveOne(s.fds, s.ws[w].item.destFd, Apply(c, s, l).fds[s.ws[w].item.destFd]);
    case WCloseSrc(w) => CloseOne(s.fds, s.ws[w].item.srcFd);
    case WCloseDest(w) => CloseOne(s.fds, s.ws[w].item.destFd);
    case _ =>
  }

  lemma FdTableByManager(c: Config, s: State, l: Label)
    requires Enabled(c, s, l) && (MainLabel(l) || ManagerLabel(l))
    ensures |Apply(c, s, l).fds| == if l.MOpenSrc? || l.MOpenDest? then |s.fds| + 1 else |s.fds|
  {
    if l.MOpenSrc? {
      OpenOne(s.fds, l.fd, Desc(c.plan[s.m.i].src, 0));
    } else if l.MOpenDest? {
      OpenOne(s.fds, l.fd, Desc(c.plan[s.m.i].dst, 0));
    }
  }

  /** Descriptors change hands with the item; only opens and closes change their number. */
  lemma WorkerHandsOn(c: Config, s: State, l: Label)
    requires Enabled(c, s, l) && !MainLabel(l) && !ManagerLabel(l)
    ensures var s' := Apply(c, s, l);
            ManagerFds(s'.m) + 2 * s'.ring.count + WorkerFds(s'.ws[l.w])
            == ManagerFds(s.m) + 2 * s.ring.count + WorkerFds(s.ws[l.w])
               + (if l.WCloseSrc? || l.WCloseDest? then -1 else 0)
  {
  }

  lemma ManagerHandsOn(c: Config, s: State, l: Label)
    requires Shape(c, s) && Enabled(c, s, l) && (MainLabel(l) || ManagerLabel(l))
    ensures var s' := Apply(c, s, l);
            ManagerFds(s'.m) + 2 * s'.ring.count
            == ManagerFds(s.m) + 2 * s.ring.count + (if l.MOpenSrc? || l.MOpenDest? then 1 else 0)
  {
  }

  lemma ConservedStep(c: Config, s: State, l: Label)
    requires Shape(c, s) && Contents(c, s) && Conserved(s) && Enabled(c, s, l)
    ensures Conserved(Apply(c, s, l))
  {
    FdSumStep(c, s, l);
    if MainLabel(l) || ManagerLabel(l) {
      FdTableByManager(c, s, l);
      ManagerHandsOn(c, s, l);
    } else {
      FdTableByWorker(c, s, l);
      WorkerHandsOn(c, s, l);
    }
  }

  // ----- Wake-ups and the barrier ----------------------------------------------

  lemma WokenSumSet(ws: seq<WorkerPc>, w: nat, pc: WorkerPc)
    requires w < |ws|
    ensures Total(WokenWeights(ws[w := pc])) + Woken(ws[w]) == Total(WokenWeights(ws)) + Woken(pc)
  {
    TotalUpdate(WokenWeights(ws), w, Woken(pc));
    assert WokenWeights(ws[w := pc]) == WokenWeights(ws)[w := Woken(pc)];
  }

  lemma WorkerWakeupStep(c: Config, s: State, l: Label)
    requires Shape(c, s) && NoLostWakeup(c, s) && Enabled(c, s, l)
    requires !MainLabel(l) && !ManagerLabel(l)
    ensures NoLostWakeup(c, Apply(c, s, l))
  {
    var s' := Apply(c, s, l);
    assert s'.ws == s.ws[l.w := s'.ws[l.w]];
    WokenSumSet(s.ws, l.w, s'.ws[l.w]);
    if w :| 0 <= w < |s'.ws| && s'.ws[w] == WaitEmpty {
      assert s.ws[w] == WaitEmpty || l == WPopWait(w);
    }
  }

  lemma NoLostWakeupStep(c: Config, s: State, l: Label)
    requires Shape(c, s) && Phase(c, s) && NoLostWakeup(c, s) && Enabled(c, s, l)
    ensures NoLostWakeup(c, Apply(c, s, l))
  {
    var s' := Apply(c, s, l);
    if !MainLabel(l) && !ManagerLabel(l) {
      WorkerWakeupStep(c, s, l);
    } else {
      if l.MPush? && l.wake < |s.ws| {
        WokenSumSet(s.ws, l.wake, WokenEmpty);
      } else if l.MainSpawn? && s'.ws != s.ws {
        WokenSumSet(s.ws, s.main.t - 1, Popping);
      }
      if w :| 0 <= w < |s'.ws| && s'.ws[w] == WaitEmpty {
        assert s.ws[w] == WaitEmpty;
      }
    }
  }

  lemma ArrivedSumSet(ws: seq<WorkerPc>, w: nat, pc: WorkerPc)
    requires w < |ws|
    ensures Total(ArrivedWeights(ws[w := pc])) + WorkerArrived(ws[w]) == Total(ArrivedWeights(ws)) + WorkerArrived(pc)
  {
    TotalUpdate(ArrivedWeights(ws), w, WorkerArrived(pc));
    assert ArrivedWeights(ws[w := pc]) == ArrivedWeights(ws)[w := WorkerArrived(pc)];
  }

  lemma ArrivedSumWakes(ws: seq<WorkerPc>, ws': seq<WorkerPc>)
    requires OnlyWakes(ws, ws')
    ensures Total(ArrivedWeights(ws')) == Total(ArrivedWeights(ws))
  {
    assert ArrivedWeights(ws') == ArrivedWeights(ws);
  }

  /** What the actor itself adds to the arrivals. */
  lemma WorkerArrives(c: Config, s: State, l: Label)
    requires Enabled(c, s, l) && !MainLabel(l) && !ManagerLabel(l)
    ensures var s' := Apply(c, s, l);
            && |s'.ws| == |s.ws| && ManagerArrived(s'.m) == ManagerArrived(s.m)
            && s'.arrived + WorkerArrived(s.ws[l.w]) == s.arrived + WorkerArrived(s'.ws[l.w])
            && s'.arrived >= s.arrived
  {
  }

  lemma ManagerArrives(c: Config, s: State, l: Label)
    requires Shape(c, s) && Enabled(c, s, l) && (MainLabel(l) || ManagerLabel(l))
    ensures var s' := Apply(c, s, l);
            && s'.arrived + ManagerArrived(s.m) == s.arrived + ManagerArrived(s'.m)
            && s'.arrived >= s.arrived
  {
  }

  lemma BarrierSumStep(c: Config, s: State, l: Label)
    requires Shape(c, s) && Enabled(c, s, l)
    requires s.arrived == ManagerArrived(s.m) + Total(ArrivedWeights(s.ws))
    ensures var s' := Apply(c, s, l); s'.arrived == ManagerArrived(s'.m) + Total(ArrivedWeights(s'.ws))
  {
    var ws' := Apply(c, s, l).ws;
    if MainLabel(l) || ManagerLabel(l) {
      ManagerArrives(c, s, l);
      WorkersWatched(c, s, l);
      ArrivedSumWakes(s.ws, ws');
    } else {
      WorkerArrives(c, s, l);
      OneWorkerMoves(c, s, l);
      ArrivedSumSet(s.ws, l.w, ws'[l.w]);
    }
  }

  /** No more threads arrive than there are. */
  lemma ArrivalsBounded(c: Config, s: State)
    requires Shape(c, s) && Barrier(c, s)
    ensures s.arrived <= Parties(c)
    ensures s.arrived == Parties(c) <==>
              ManagerArrived(s.m) == 1 && forall w :: 0 <= w < |s.ws| ==> WorkerArrived(s.ws[w]) == 1
  {
    var xs := ArrivedWeights(s.ws);
    TotalBounds(xs, 1);
    forall w | 0 <= w < |s.ws| ensures xs[w] == WorkerArrived(s.ws[w]) {}
  }

  /** Whoever has passed the barrier had passed it, or finds it open. */
  lemma ManagerPasses(c: Config, s: State, l: Label)
    requires Shape(c, s) && Enabled(c, s, l) && Apply(c, s, l).m.MPassed?
    ensures s.m.MPassed? || s.arrived == Parties(c)
  {
  }

  lemma WorkerPasses(c: Config, s: State, l: Label)
    requires Enabled(c, s, l) && !MainLabel(l) && !ManagerLabel(l)
    ensures |Apply(c, s, l).ws| == |s.ws|
    ensures Apply(c, s, l).ws[l.w].WPassed? ==> s.arrived == Parties(c)
  {
  }

  lemma SomeWorkerPasses(c: Config, s: State, l: Label, w: nat)
    requires Shape(c, s) && Enabled(c, s, l) && w < |s.ws|
    ensures |Apply(c, s, l).ws| == |s.ws|
    ensures Apply(c, s, l).ws[w].WPassed? ==> s.ws[w].WPassed? || s.arrived == Parties(c)
  {
    if MainLabel(l) || ManagerLabel(l) {
      WorkersWatched(c, s, l);
    } else {
      OneWorkerMoves(c, s, l);
      WorkerPasses(c, s, l);
    }
  }

  lemma ArrivedGrows(c: Config, s: State, l: Label)
    requires Shape(c, s) && Enabled(c, s, l)
    ensures Apply(c, s, l).arrived >= s.arrived
  {
    if MainLabel(l) || ManagerLabel(l) {
      ManagerArrives(c, s, l);
    } else {
      WorkerArrives(c, s, l);
    }
  }

  lemma BarrierStep(c: Config, s: State, l: Label)
    requires Shape(c, s) && Barrier(c, s) && Enabled(c, s, l)
    ensures Barrier(c, Apply(c, s, l))
  {
    var s' := Apply(c, s, l);
    BarrierSumStep(c, s, l);
    ArrivedGrows(c, s, l);
    ShapeStep(c, s, l);
    TotalBounds(ArrivedWeights(s'.ws), 1);
    if s'.m.MPassed? {
      ManagerPasses(c, s, l);
    }
    forall w | 0 <= w < |s'.ws| && s'.ws[w].WPassed? ensures s'.arrived == Parties(c) {
      SomeWorkerPasses(c, s, l, w);
    }
  }

  // ----- Closing exactly once --------------------------------------------------

  lemma ActorKeepsItem(c: Config, s: State, l: Label)
    requires Enabled(c, s, l) && !MainLabel(l) && !ManagerLabel(l) && !l.WCloseDest? && Busy(s.ws[l.w])
    ensures var pc, ws' := s.ws[l.w], Apply(c, s, l).ws;
            |ws'| == |s.ws| && Busy(ws'[l.w]) && ws'[l.w].item == pc.item
  {
  }

  /** A worker keeps its item until it closes the destination. */
  lemma BusyStays(c: Config, s: State, l: Label, w: nat)
    requires Shape(c, s) && Enabled(c, s, l) && w < |s.ws| && Busy(s.ws[w]) && l != WCloseDest(w)
    ensures var s' := Apply(c, s, l);
            |s'.ws| == |s.ws| && Busy(s'.ws[w]) && s'.ws[w].item == s.ws[w].item
  {
    if MainLabel(l) || ManagerLabel(l) {
      WorkersWatched(c, s, l);
    } else {
      OneWorkerMoves(c, s, l);
      if w == l.w {
        ActorKeepsItem(c, s, l);
      }
    }
  }

  lemma HeldStep(c: Config, s: State, l: Label, j: nat)
    requires Shape(c, s) && Enabled(c, s, l) && Held(s.ws, j)
    requires !(l.WCloseDest? && s.ws[l.w].item.job == j)
    ensures Held(Apply(c, s, l).ws, j)
  {
    var w :| 0 <= w < |s.ws| && Busy(s.ws[w]) && s.ws[w].item.job == j;
    BusyStays(c, s, l, w);
  }

  /** A close step closes the actor's own file, which had not been closed before. */
  lemma CloseIsFirst(c: Config, s: State, l: Label)
    requires Sound(c.plan, c.fs) && Shape(c, s) && Contents(c, s) && ClosedOnce(c, s) && Enabled(c, s, l)
    requires l.WCloseSrc? || l.WCloseDest?
    ensures var j := s.ws[l.w].item.job;
            && KnownJob(c, j) && Busy(s.ws[l.w])
            && var p := if l.WCloseSrc? then c.plan[j].src else c.plan[j].dst;
               p !in s.closes && Apply(c, s, l).closes == s.closes + multiset{p}
  {
    assert WorkerOk(c, s.fds, s.fs.files, s.ws[l.w]);
  }

  lemma PoppedStep(c: Config, s: State, l: Label, j: nat)
    requires Shape(c, s) && Enabled(c, s, l)
    ensures j in JobsOf(Apply(c, s, l).popped) <==>
              j in JobsOf(s.popped) || (l.WPop? && j == s.ring.Head().job)
  {
    var s' := Apply(c, s, l);
    if l.WPop? {
      assert JobsOf(s'.popped) == JobsOf(s.popped) + [s.ring.Head().job];
    }
  }

  lemma PathsOfOthersDiffer(c: Config, i: nat, j: nat)
    requires Sound(c.plan, c.fs) && IsCopy(c, i) && IsCopy(c, j) && i != j
    ensures {c.plan[i].src, c.plan[i].dst} !! {c.plan[j].src, c.plan[j].dst}
  {
  }

  lemma ClosesGrow(c: Config, popped: seq<Item>, closes: multiset<string>, j: nat, p: string)
    requires Sound(c.plan, c.fs) && ClosesSound(c, popped, closes)
    requires IsCopy(c, j) && j in JobsOf(popped) && p !in closes
    requires p == c.plan[j].src || p == c.plan[j].dst
    ensures ClosesSound(c, popped, closes + multiset{p})
  {
    var closes' := closes + multiset{p};
    forall q ensures closes'[q] <= 1 && (q in closes' ==> q in closes || q == p) {}
    forall i: nat | IsCopy(c, i) && i !in JobsOf(popped)
      ensures c.plan[i].src !in closes' && c.plan[i].dst !in closes'
    {
      PathsOfOthersDiffer(c, i, j);
      assert p in {c.plan[j].src, c.plan[j].dst};
    }
    assert p in SrcPaths(c.plan) + DstPaths(c.plan, |c.plan|);
  }

  lemma CloseIsSound(c: Config, s: State, l: Label)
    requires Sound(c.plan, c.fs) && Shape(c, s) && Contents(c, s) && Holders(s.ws, s.popped) && ClosedOnce(c, s)
    requires Enabled(c, s, l) && (l.WCloseSrc? || l.WCloseDest?)
    ensures ClosesSound(c, s.popped, Apply(c, s, l).closes)
  {
    CloseIsFirst(c, s, l);
    var it := s.ws[l.w].item;
    var k :| 0 <= k < |s.popped| && s.popped[k] == it;
    assert JobsOf(s.popped)[k] == it.job;
    ClosesGrow(c, s.popped, s.closes, it.job, if l.WCloseSrc? then c.plan[it.job].src else c.plan[it.job].dst);
  }

  lemma ClosesSoundLater(c: Config, popped: seq<Item>, popped': seq<Item>, closes: multiset<string>)
    requires ClosesSound(c, popped, closes) && popped <= popped'
    ensures ClosesSound(c, popped', closes)
  {
    forall j: nat | j in JobsOf(popped) ensures j in JobsOf(popped') {
      var k :| 0 <= k < |popped| && JobsOf(popped)[k] == j;
      assert JobsOf(popped')[k] == j;
    }
  }

  lemma ClosesStep(c: Config, s: State, l: Label)
    requires Sound(c.plan, c.fs) && Shape(c, s) && Contents(c, s) && Holders(s.ws, s.popped) && ClosedOnce(c, s)
    requires Enabled(c, s, l)
    ensures ClosesSound(c, Apply(c, s, l).popped, Apply(c, s, l).closes)
  {
    PoppedGrows(c, s, l);
    if l.WCloseSrc? || l.WCloseDest? {
      CloseIsSound(c, s, l);
    } else {
      NothingClosed(c, s, l);
      ClosesSoundLater(c, s.popped, Apply(c, s, l).popped, s.closes);
    }
  }

  /** The worker that has just popped has closed nothing of its new item. */
  lemma PopClosesStep(c: Config, s: State, l: Label)
    requires Shape(c, s) && History(c, s) && ClosedOnce(c, s) && Enabled(c, s, l) && l.WPop?
    ensures var j := s.ring.Head().job;
            IsCopy(c, j) ==> c.plan[j].src !in s.closes && c.plan[j].dst !in s.closes
  {
    RingStep(c, s, l);
    QueuedNotPopped(c, s, 0);
  }

  /** Closing moves one worker on and concerns no path of another worker. */
  lemma CloseLeavesOthers(c: Config, j: nat, p: string, closes: multiset<string>, pc: WorkerPc)
    requires Sound(c.plan, c.fs) && IsCopy(c, j) && (p == c.plan[j].src || p == c.plan[j].dst)
    requires ClosesMatch(c, closes, pc) && (Busy(pc) ==> pc.item.job != j)
    ensures ClosesMatch(c, closes + multiset{p}, pc)
  {
    if Busy(pc) && IsCopy(c, pc.item.job) {
      PathsOfOthersDiffer(c, pc.item.job, j);
      assert p in {c.plan[j].src, c.plan[j].dst};
    }
  }

  lemma ActorAfterClose(c: Config, s: State, l: Label)
    requires Enabled(c, s, l) && (l.WCloseSrc? || l.WCloseDest?)
    ensures var pc, ws' := s.ws[l.w], Apply(c, s, l).ws;
            |ws'| == |s.ws| && ws'[l.w] == if l.WCloseSrc? then CloseDest(pc.item) else Popping
  {
  }

  lemma CloseMovesActor(c: Config, s: State, l: Label)
    requires Sound(c.plan, c.fs) && Shape(c, s) && Contents(c, s) && ClosedOnce(c, s) && Enabled(c, s, l)
    requires l.WCloseSrc? || l.WCloseDest?
    ensures |Apply(c, s, l).ws| == |s.ws|
    ensures ClosesMatch(c, Apply(c, s, l).closes, Apply(c, s, l).ws[l.w])
  {
    CloseIsFirst(c, s, l);
    ActorAfterClose(c, s, l);
    if l.WCloseSrc? {
      assert ClosesMatch(c, s.closes, s.ws[l.w]);
      var j := s.ws[l.w].item.job;
      assert c.plan[j].src != c.plan[j].dst;
    }
  }

  lemma CloseConcernsActor(c: Config, s: State, l: Label, w: nat)
    requires Sound(c.plan, c.fs) && Shape(c, s) && Contents(c, s)
    requires Holders(s.ws, s.popped) && ClosedOnce(c, s) && Enabled(c, s, l)
    requires l.WCloseSrc? || l.WCloseDest?
    requires w < |s.ws|
    ensures |Apply(c, s, l).ws| == |s.ws|
    ensures ClosesMatch(c, Apply(c, s, l).closes, Apply(c, s, l).ws[w])
  {
    OneWorkerMoves(c, s, l);
    if w == l.w {
      CloseMovesActor(c, s, l);
    } else {
      CloseIsFirst(c, s, l);
      var j := s.ws[l.w].item.job;
      CloseLeavesOthers(c, j, if l.WCloseSrc? then c.plan[j].src else c.plan[j].dst, s.closes, s.ws[w]);
    }
  }

  lemma ActorKeepsStage(c: Config, s: State, l: Label)
    requires Enabled(c, s, l) && !MainLabel(l) && !ManagerLabel(l)
    requires !l.WCloseSrc? && !l.WCloseDest? && !l.WPop?
    ensures var pc, ws' := s.ws[l.w], Apply(c, s, l).ws;
            && |ws'| == |s.ws|
            && (Busy(ws'[l.w]) ==> Busy(pc) && ws'[l.w].item == pc.item)
            && (ws'[l.w].CloseDest? <==> pc.CloseDest?)
  {
  }

  lemma NothingClosed(c: Config, s: State, l: Label)
    requires Enabled(c, s, l) && !l.WCloseSrc? && !l.WCloseDest?
    ensures Apply(c, s, l).closes == s.closes
  {
  }

  /** Without a close or a pop of its own, a worker keeps its item and its stage. */
  lemma StageKept(c: Config, s: State, l: Label, w: nat)
    requires Shape(c, s) && Enabled(c, s, l) && w < |s.ws|
    requires !l.WCloseSrc? && !l.WCloseDest? && l != WPop(w)
    ensures var s' := Apply(c, s, l);
            && |s'.ws| == |s.ws| && s'.closes == s.closes
            && (Busy(s'.ws[w]) ==> Busy(s.ws[w]) && s'.ws[w].item == s.ws[w].item)
            && (s'.ws[w].CloseDest? <==> s.ws[w].CloseDest?)
  {
    NothingClosed(c, s, l);
    if MainLabel(l) || ManagerLabel(l) {
      WorkersWatched(c, s, l);
    } else {
      OneWorkerMoves(c, s, l);
      if w == l.w {
        ActorKeepsStage(c, s, l);
      }
    }
  }

  /** A step that closes nothing keeps what the busy workers have closed. */
  lemma NoCloseStep(c: Config, s: State, l: Label, w: nat)
    requires Shape(c, s) && History(c, s) && ClosedOnce(c, s) && Enabled(c, s, l)
    requires !l.WCloseSrc? && !l.WCloseDest?
    requires w < |s.ws|
    ensures ClosesMatch(c, Apply(c, s, l).closes, Apply(c, s, l).ws[w])
  {
    if l == WPop(w) {
      PopClosesStep(c, s, l);
    } else {
      StageKept(c, s, l, w);
      assert ClosesMatch(c, s.closes, s.ws[w]);
    }
  }

  /** No step touches the files of a job that is popped and held by nobody. */
  lemma FinishedNotTouched(c: Config, s: State, l: Label, j: nat)
    requires Shape(c, s) && Phase(c, s) && History(c, s) && Enabled(c, s, l) && TouchesFiles(l)
    requires j in JobsOf(s.popped) && !Held(s.ws, j)
    ensures JobTouched(c, s, l) != j
  {
    PoppedBehindManager(c, s, j);
    if !ManagerLabel(l) {
      assert Busy(s.ws[l.w]) && s.ws[l.w].item.job == JobTouched(c, s, l);
    }
  }

  lemma FinishedKept(c: Config, j: nat, s: State, s': State, i: nat)
    requires Sound(c.plan, c.fs) && IsCopy(c, i) && i != j && Finished(c, s, j) && s.closes <= s'.closes
    requires OnlyJob(c, i, s.fds, s.fs.files, s'.fds, s'.fs.files)
    ensures Finished(c, s', j)
  {
    PathsOfOthersDiffer(c, i, j);
    assert c.plan[i].dst in {c.plan[i].src, c.plan[i].dst} && c.plan[j].dst in {c.plan[j].src, c.plan[j].dst};
  }

  lemma ClosesStay(c: Config, s: State, l: Label)
    requires Enabled(c, s, l)
    ensures s.closes <= Apply(c, s, l).closes
  {
  }

  /** A finished copy stays finished. */
  lemma FinishedStays(c: Config, s: State, l: Label, j: nat)
    requires Sound(c.plan, c.fs) && Shape(c, s) && Phase(c, s) && History(c, s) && Contents(c, s)
    requires Enabled(c, s, l)
    requires j in JobsOf(s.popped) && !Held(s.ws, j) && Finished(c, s, j)
    ensures Finished(c, Apply(c, s, l), j)
  {
    StepTouchesOneJob(c, s, l);
    ClosesStay(c, s, l);
    if TouchesFiles(l) {
      FinishedNotTouched(c, s, l, j);
      FinishedKept(c, j, s, Apply(c, s, l), JobTouched(c, s, l));
    }
  }

  lemma PoppedIsHeld(c: Config, s: State, l: Label)
    requires Enabled(c, s, l) && l.WPop?
    ensures Held(Apply(c, s, l).ws, s.ring.Head().job)
  {
    var s' := Apply(c, s, l);
    assert Busy(s'.ws[l.w]) && s'.ws[l.w].item.job == s.ring.Head().job;
  }

  lemma FinishedStep(c: Config, s: State, l: Label, j: nat)
    requires Sound(c.plan, c.fs) && Shape(c, s) && Phase(c, s) && History(c, s) && Contents(c, s)
    requires Holders(s.ws, s.popped) && ClosedOnce(c, s) && Enabled(c, s, l)
    requires j in JobsOf(Apply(c, s, l).popped) && !Held(Apply(c, s, l).ws, j)
    ensures Finished(c, Apply(c, s, l), j)
  {
    var s' := Apply(c, s, l);
    PoppedStep(c, s, l, j);
    if l.WPop? && j == s.ring.Head().job {
      PoppedIsHeld(c, s, l);
    } else if Held(s.ws, j) {
      if !(l.WCloseDest? && s.ws[l.w].item.job == j) {
        HeldStep(c, s, l, j);
      }
      CloseIsFirst(c, s, l);
      assert WorkerOk(c, s.fds, s.fs.files, s.ws[l.w]);
    } else {
      FinishedStays(c, s, l, j);
    }
  }

  lemma WorkerClosesStep(c: Config, s: State, l: Label, w: nat)
    requires Sound(c.plan, c.fs) && Shape(c, s) && History(c, s) && Contents(c, s)
    requires Holders(s.ws, s.popped) && ClosedOnce(c, s) && Enabled(c, s, l) && w < |s.ws|
    ensures |Apply(c, s, l).ws| == |s.ws|
    ensures ClosesMatch(c, Apply(c, s, l).closes, Apply(c, s, l).ws[w])
  {
    SameWorkers(c, s, l);
    if l.WCloseSrc? || l.WCloseDest? {
      CloseConcernsActor(c, s, l, w);
    } else {
      NoCloseStep(c, s, l, w);
    }
  }

  lemma BusyClosesStep(c: Config, s: State, l: Label)
    requires Sound(c.plan, c.fs) && Shape(c, s) && History(c, s) && Contents(c, s)
    requires Holders(s.ws, s.popped) && ClosedOnce(c, s) && Enabled(c, s, l)
    ensures var s' := Apply(c, s, l);
            forall w :: 0 <= w < |s'.ws| ==> ClosesMatch(c, s'.closes, s'.ws[w])
  {
    var s' := Apply(c, s, l);
    SameWorkers(c, s, l);
    forall w | 0 <= w < |s'.ws| ensures ClosesMatch(c, s'.closes, s'.ws[w]) {
      WorkerClosesStep(c, s, l, w);
    }
  }

  lemma ClosedOnceStep(c: Config, s: State, l: Label)
    requires Sound(c.plan, c.fs) && Shape(c, s) && Phase(c, s) && History(c, s) && Contents(c, s)
    requires Holders(s.ws, s.popped) && ClosedOnce(c, s) && Enabled(c, s, l)
    ensures ClosedOnce(c, Apply(c, s, l))
  {
    var s' := Apply(c, s, l);
    ClosesStep(c, s, l);
    BusyClosesStep(c, s, l);
    forall j: nat | j in JobsOf(s'.popped) && !Held(s'.ws, j) ensures Finished(c, s', j) {
      FinishedStep(c, s, l, j);
    }
  }

  // ----- Together --------------------------------------------------------------

  /** Every step of every thread keeps the whole invariant. */
  lemma StepKeepsInv(c: Config, s: State, l: Label)
    requires Admissible(c) && Inv(c, s) && Enabled(c, s, l)
    ensures Inv(c, Apply(c, s, l))
  {
    ShapeStep(c, s, l);
    PhaseStep(c, s, l);
    HistoryStep(c, s, l);
    HoldersStep(c, s, l);
    ContentsStep(c, s, l);
    FrameStep(c, s, l);
    ConservedStep(c, s, l);
    ClosedOnceStep(c, s, l);
    NoLostWakeupStep(c, s, l);
    BarrierStep(c, s, l);
  }

  lemma InvNext(c: Config, r: Run, k: nat)
    requires Admissible(c) && IsRun(c, r) && k < |r.labels| && Inv(c, r.states[k])
    ensures Inv(c, r.states[k + 1])
  {
    assert Enabled(c, r.states[k], r.labels[k]);
    StepKeepsInv(c, r.states[k], r.labels[k]);
  }

  /** So it holds all along every run. */
  lemma {:induction false} RunKeepsInv(c: Config, r: Run, k: nat)
    requires Admissible(c) && IsRun(c, r) && k < |r.states|
    ensures Inv(c, r.states[k])
  {
    if k == 0 {
      InitEstablishes(c, r.states[0]);
    } else {
      RunKeepsInv(c, r, k - 1);
      InvNext(c, r, k - 1);
    }
  }
}
