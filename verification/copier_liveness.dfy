/** The copier always finishes: it never blocks as a whole, and a measure on
    its states falls with every step that is not a spurious wake-up. */
module CopierLiveness {
  import opened CopyPlan
  import opened Counting
  import opened Ring
  import opened Copier
  import opened CopierInvariant
  import opened CopierSteps
  import opened CopierSafety

  // ----- No deadlock -----------------------------------------------------------

  predicate Blocked(c: Config, s: State, pc: WorkerPc) {
    pc.WUnborn? || pc.WaitEmpty? || pc.WPassed? || (pc.WAtBarrier? && s.arrived < Parties(c))
  }

  lemma BusyCanStep(c: Config, s: State, w: nat) returns (l: Label)
    requires Admissible(c) && s.ring.Valid() && Contents(c, s) && Frame(c, s.m, s.fs) && w < |s.ws| && Busy(s.ws[w])
    ensures !Spurious(l) && Enabled(c, s, l)
  {
    var pc := s.ws[w];
    assert WorkerOk(c, s.fds, s.fs.files, pc);
    if pc.Reading? {
      SourceStays(c, s, pc.item.job);
      l := if Remaining(s, pc.item.srcFd) == 0 then WReadEof(w) else WRead(w, 1);
    } else if pc.Writing? {
      l := WWrite(w);
    } else if pc.CloseSrc? {
      l := WCloseSrc(w);
    } else {
      l := WCloseDest(w);
    }
  }

  lemma WorkerCanStep(c: Config, s: State, w: nat) returns (l: Label)
    requires Admissible(c) && Inv(c, s) && w < |s.ws| && !Blocked(c, s, s.ws[w])
    ensures !Spurious(l) && Enabled(c, s, l)
  {
    var pc := s.ws[w];
    if Busy(pc) {
      l := BusyCanStep(c, s, w);
    } else if pc.PopFailed? {
      l := WCheckDone(w);
    } else if pc.WArrive? {
      l := WArriveBarrier(w);
    } else if pc.WAtBarrier? {
      ArrivalsBounded(c, s);
      l := WLeaveBarrier(w);
    } else {
      l := if !s.ring.IsEmpty() then WPop(w) else if s.ring.done then WPopFail(w) else WPopWait(w);
    }
  }

  lemma ManagerCanStep(c: Config, s: State) returns (l: Label)
    requires Admissible(c) && Inv(c, s)
    requires !s.m.MUnborn? && !s.m.WaitFull? && !s.m.MPassed? && (s.m.MAtBarrier? ==> s.arrived == Parties(c))
    ensures !Spurious(l) && Enabled(c, s, l)
  {
    if s.m.Walking? {
      if s.m.i == |c.plan| {
        l := MSetDone;
      } else if c.plan[s.m.i].MkDir? {
        l := MMkDir;
      } else {
        SourceStays(c, s, s.m.i);
        var fd := FreshFd(s.fds.Keys);
        l := MOpenSrc(fd);
      }
    } else if s.m.OpenDest? {
      var fd := FreshFd(s.fds.Keys);
      l := MOpenDest(fd);
    } else if s.m.MArrive? {
      l := MArriveBarrier;
    } else if s.m.MAtBarrier? {
      l := MLeaveBarrier;
    } else if s.ring.IsFull() {
      l := MPushWait;
    } else if w :| 0 <= w < |s.ws| && s.ws[w] == WaitEmpty {
      l := MPush(w);
    } else {
      l := MPush(|s.ws|);
    }
  }

  /** The kernel can always hand out a number that is not in use. */
  lemma {:induction false} FreshFd(inUse: set<nat>) returns (fd: nat)
    ensures forall f :: f in inUse ==> f < fd
  {
    fd := 0;
    if inUse != {} {
      var f :| f in inUse;
      var rest := inUse - {f};
      fd := FreshFd(rest);
      if fd <= f {
        fd := f + 1;
      }
      assert forall g :: g in inUse ==> g in rest || g == f;
    }
  }

  /** If nobody is woken, nobody waits on a ring that holds something. */
  lemma NobodyWaitsOnItems(c: Config, s: State, v: nat)
    requires Shape(c, s) && NoLostWakeup(c, s) && s.ring.count > 0
    requires v < |s.ws| && s.ws[v] == WaitEmpty
    ensures exists w :: 0 <= w < |s.ws| && s.ws[w] == WokenEmpty
  {
    if forall w :: 0 <= w < |s.ws| ==> s.ws[w] != WokenEmpty {
      TotalBounds(WokenWeights(s.ws), 0);
    }
  }

  /** A full ring with its producer waiting always has a worker that can take from it. */
  lemma SomeWorkerTakes(c: Config, s: State) returns (w: nat)
    requires Admissible(c) && Inv(c, s) && s.m.WaitFull? && !s.main.Spawn?
    ensures w < |s.ws| && !Blocked(c, s, s.ws[w])
  {
    assert !Leaving(s.ws[0]);
    if s.ws[0] == WaitEmpty {
      NobodyWaitsOnItems(c, s, 0);
      w :| 0 <= w < |s.ws| && s.ws[w] == WokenEmpty;
    } else {
      w := 0;
    }
  }

  /** Once the end is announced nobody waits in a pop, so whoever has not
      arrived at the barrier can move. */
  lemma SomeWorkerArrives(c: Config, s: State) returns (w: nat)
    requires Admissible(c) && Inv(c, s) && Announced(s.m) && !s.main.Spawn?
    requires ManagerArrived(s.m) == 1 && s.arrived < Parties(c)
    ensures w < |s.ws| && !Blocked(c, s, s.ws[w])
  {
    ArrivalsBounded(c, s);
    w :| 0 <= w < |s.ws| && WorkerArrived(s.ws[w]) != 1;
  }

  /** No deadlock and no lost wake-up: until main has joined everyone and left,
      some thread can take a step without any spurious wake-up. */
  lemma SomeThreadCanStep(c: Config, s: State) returns (l: Label)
    requires Admissible(c) && Inv(c, s) && !s.main.Exited?
    ensures !Spurious(l) && Enabled(c, s, l)
  {
    if s.main.Spawn? {
      l := MainSpawn;
    } else if s.m.WaitFull? {
      var w := SomeWorkerTakes(c, s);
      l := WorkerCanStep(c, s, w);
    } else if ManagerArrived(s.m) == 1 && s.arrived < Parties(c) {
      var w := SomeWorkerArrives(c, s);
      l := WorkerCanStep(c, s, w);
    } else if !s.m.MPassed? {
      ArrivalsBounded(c, s);
      l := ManagerCanStep(c, s);
    } else if w :| 0 <= w < |s.ws| && !s.ws[w].WPassed? {
      ArrivalsBounded(c, s);
      assert WorkerArrived(s.ws[w]) == 1;
      l := WLeaveBarrier(w);
    } else {
      assert s.main.t < Parties(c) ==> Returned(s, s.main.t);
      l := MainJoin;
    }
  }

  /** Every run can be continued until main has left. */
  lemma NoDeadlock(c: Config, r: Run, k: nat)
    requires Admissible(c) && IsRun(c, r) && k < |r.states|
    ensures r.states[k].main.Exited? || exists l :: !Spurious(l) && Enabled(c, r.states[k], l)
  {
    RunKeepsInv(c, r, k);
    if !r.states[k].main.Exited? {
      var l := SomeThreadCanStep(c, r.states[k]);
    }
  }

  // ----- The measure -----------------------------------------------------------

  ghost function SourceLen(c: Config, j: nat): nat {
    if KnownJob(c, j) then |Source(c, j)| else 0
  }

  /** What one file costs once a worker has it: every byte is at most one read
      and one write, then the end of file and the two closes. */
  ghost function ItemCost(c: Config, j: nat): nat {
    8 + 2 * SourceLen(c, j)
  }

  ghost function PlanCost(c: Config, i: nat): nat
    decreases |c.plan| - i
  {
    if i >= |c.plan| then c.workers + 3
    else if c.plan[i].MkDir? then PlanCost(c, i + 1) + 1
    else PlanCost(c, i + 1) + ItemCost(c, i) + 6
  }

  function MainRank(c: Config, main: MainPc): nat {
    match main
    case Spawn(t) => if t <= Parties(c) then 2 * Parties(c) + 2 - t else 0
    case Joining(t) => if t <= Parties(c) then Parties(c) + 1 - t else 0
    case Exited => 0
  }

  ghost function ManagerRank(c: Config, m: ManagerPc): nat {
    match m
    case MUnborn => PlanCost(c, 0)
    case Walking(i) => PlanCost(c, i)
    case OpenDest(i, _) => PlanCost(c, i + 1) + ItemCost(c, i) + 5
    case Pushing(it) => PlanCost(c, it.job + 1) + ItemCost(c, it.job) + 4
    case WokenFull(it) => PlanCost(c, it.job + 1) + ItemCost(c, it.job) + 3
    case WaitFull(it) => PlanCost(c, it.job + 1) + ItemCost(c, it.job) + 2
    case MArrive => 2
    case MAtBarrier => 1
    case MPassed => 0
  }

  ghost function QueueRank(c: Config, q: seq<Item>): nat {
    if q == [] then 0 else ItemCost(c, q[0].job) + QueueRank(c, q[1..])
  }

  /** The bytes of the item that its worker has not read yet. */
  ghost function Unread(c: Config, fds: map<nat, Desc>, it: Item): nat {
    var off := if it.srcFd in fds then fds[it.srcFd].off else 0;
    if off <= SourceLen(c, it.job) then SourceLen(c, it.job) - off else 0
  }

  ghost function WorkerRank(c: Config, fds: map<nat, Desc>, pc: WorkerPc): nat {
    match pc
    case WUnborn => 5
    case Popping => 5
    case WokenEmpty => 4
    case WaitEmpty => 3
    case Reading(it) => 8 + 2 * Unread(c, fds, it)
    case Writing(it, _) => 9 + 2 * Unread(c, fds, it)
    case CloseSrc(_) => 7
    case CloseDest(_) => 6
    case PopFailed => 3
    case WArrive => 2
    case WAtBarrier => 1
    case WPassed => 0
    case Sleeping => 0
  }

  ghost function RankWeights(c: Config, fds: map<nat, Desc>, ws: seq<WorkerPc>): seq<nat> {
    seq(|ws|, w requires 0 <= w < |ws| => WorkerRank(c, fds, ws[w]))
  }

  /** An upper bound on the steps still to come. */
  ghost function Measure(c: Config, s: State): nat
    requires s.ring.Valid()
  {
    MainRank(c, s.main) + ManagerRank(c, s.m) + QueueRank(c, s.ring.Live()) + Total(RankWeights(c, s.fds, s.ws))
  }

  lemma {:induction false} QueueRankPush(c: Config, q: seq<Item>, it: Item)
    ensures QueueRank(c, q + [it]) == QueueRank(c, q) + ItemCost(c, it.job)
  {
    if q == [] {
      assert q + [it] == [it];
    } else {
      assert (q + [it])[1..] == q[1..] + [it];
      QueueRankPush(c, q[1..], it);
    }
  }

  lemma QueueStepRank(c: Config, s: State, l: Label)
    requires Shape(c, s) && Enabled(c, s, l)
    ensures var s' := Apply(c, s, l);
            && s'.ring.Valid()
            && QueueRank(c, s'.ring.Live()) + (if l.WPop? then ItemCost(c, s.ring.Head().job) else 0)
               == QueueRank(c, s.ring.Live()) + (if l.MPush? then ItemCost(c, s.m.item.job) else 0)
  {
    RingStep(c, s, l);
    if l.MPush? {
      QueueRankPush(c, s.ring.Live(), s.m.item);
    }
  }

  /** A worker that does not act keeps its rank, but for being woken. */
  lemma IdleRank(c: Config, s: State, l: Label, w: nat)
    requires Sound(c.plan, c.fs) && Shape(c, s) && Phase(c, s) && History(c, s) && Holders(s.ws, s.popped)
    requires Contents(c, s) && Enabled(c, s, l)
    requires w < |s.ws| && (MainLabel(l) || ManagerLabel(l) || w != l.w)
    ensures var s' := Apply(c, s, l);
            && |s'.ws| == |s.ws|
            && WorkerRank(c, s'.fds, s'.ws[w])
               == WorkerRank(c, s.fds, s.ws[w])
                  + (if s.ws[w] == WaitEmpty && ((l.MPush? && l.wake == w) || l.MSetDone?) then 1 else 0)
  {
    IdleStage(c, s, l, w);
    if s.ws[w].Reading? || s.ws[w].Writing? {
      SourceFdKept(c, s, l, w);
    }
  }

  lemma IdleStage(c: Config, s: State, l: Label, w: nat)
    requires Shape(c, s) && Enabled(c, s, l)
    requires w < |s.ws| && (MainLabel(l) || ManagerLabel(l) || w != l.w)
    ensures var s' := Apply(c, s, l);
            && |s'.ws| == |s.ws|
            && s'.ws[w] == if s.ws[w] == WaitEmpty && ((l.MPush? && l.wake == w) || l.MSetDone?) then WokenEmpty
                           else if s.ws[w] == WUnborn && s'.ws[w] == Popping then Popping
                           else s.ws[w]
  {
    if !MainLabel(l) && !ManagerLabel(l) {
      OneWorkerMoves(c, s, l);
    }
  }

  /** No step of another thread moves a worker's read position. */
  lemma SourceFdKept(c: Config, s: State, l: Label, w: nat)
    requires Sound(c.plan, c.fs) && Shape(c, s) && Phase(c, s) && History(c, s) && Holders(s.ws, s.popped)
    requires Contents(c, s) && Enabled(c, s, l)
    requires w < |s.ws| && (MainLabel(l) || ManagerLabel(l) || w != l.w) && (s.ws[w].Reading? || s.ws[w].Writing?)
    ensures Unread(c, Apply(c, s, l).fds, s.ws[w].item) == Unread(c, s.fds, s.ws[w].item)
  {
    StepTouchesOneJob(c, s, l);
    assert WorkerOk(c, s.fds, s.fs.files, s.ws[w]);
    if TouchesFiles(l) {
      HoldersApart(c, s, l);
      PathsOfOthersDiffer(c, s.ws[w].item.job, JobTouched(c, s, l));
    }
  }

  lemma {:induction false} TotalGrows(xs: seq<nat>, ys: seq<nat>)
    requires |xs| == |ys| && forall i :: 0 <= i < |xs| ==> ys[i] <= xs[i] + 1
    ensures Total(ys) <= Total(xs) + |xs|
  {
    if xs != [] {
      var xs', ys' := xs[1..], ys[1..];
      forall i | 0 <= i < |xs'| ensures ys'[i] <= xs'[i] + 1 {
        assert ys[i + 1] <= xs[i + 1] + 1;
      }
      TotalGrows(xs', ys');
    }
  }

  lemma AllButOne(xs: seq<nat>, ys: seq<nat>, i: nat)
    requires |xs| == |ys| && i < |xs| && forall w :: 0 <= w < |xs| && w != i ==> ys[w] == xs[w]
    ensures Total(ys) + xs[i] == Total(xs) + ys[i]
  {
    TotalUpdate(xs, i, ys[i]);
    assert ys == xs[i := ys[i]];
  }

  /** Some weights grow by one: all of them, one, or none. */
  lemma WokenGrow(xs: seq<nat>, ys: seq<nat>, all: bool, i: nat)
    requires |xs| == |ys| && forall w :: 0 <= w < |xs| ==> xs[w] <= ys[w] <= xs[w] + 1
    requires !all ==> forall w :: 0 <= w < |xs| && w != i ==> ys[w] == xs[w]
    ensures Total(ys) <= Total(xs) + (if all then |xs| else 1)
    ensures !all && (i < |xs| ==> ys[i] == xs[i]) ==> Total(ys) == Total(xs)
  {
    if all {
      TotalGrows(xs, ys);
    } else if i < |xs| {
      AllButOne(xs, ys, i);
    } else {
      assert ys == xs;
    }
  }

  /** The workers' share of the measure, when main or the manager steps. */
  lemma WorkersWatch(c: Config, s: State, l: Label)
    requires Sound(c.plan, c.fs) && Shape(c, s) && Phase(c, s) && History(c, s) && Holders(s.ws, s.popped)
    requires Contents(c, s) && Enabled(c, s, l) && (MainLabel(l) || ManagerLabel(l))
    ensures var s' := Apply(c, s, l);
            Total(RankWeights(c, s'.fds, s'.ws))
            <= Total(RankWeights(c, s.fds, s.ws)) + (if l.MPush? then 1 else if l.MSetDone? then c.workers else 0)
  {
    var s' := Apply(c, s, l);
    var xs, ys := RankWeights(c, s.fds, s.ws), RankWeights(c, s'.fds, s'.ws);
    SameWorkers(c, s, l);
    forall w | 0 <= w < |s.ws|
      ensures ys[w] == xs[w] + (if s.ws[w] == WaitEmpty && ((l.MPush? && l.wake == w) || l.MSetDone?) then 1 else 0)
    {
      IdleRank(c, s, l, w);
    }
    WokenGrow(xs, ys, l.MSetDone?, if l.MPush? then l.wake else |xs|);
  }

  /** The workers' share of the measure, when a worker steps. */
  lemma WorkersAct(c: Config, s: State, l: Label)
    requires Sound(c.plan, c.fs) && Shape(c, s) && Phase(c, s) && History(c, s) && Holders(s.ws, s.popped)
    requires Contents(c, s) && Enabled(c, s, l) && !MainLabel(l) && !ManagerLabel(l)
    ensures var s' := Apply(c, s, l);
            && |s'.ws| == |s.ws|
            && Total(RankWeights(c, s'.fds, s'.ws)) + WorkerRank(c, s.fds, s.ws[l.w])
               == Total(RankWeights(c, s.fds, s.ws)) + WorkerRank(c, s'.fds, s'.ws[l.w])
  {
    var s' := Apply(c, s, l);
    var xs, ys := RankWeights(c, s.fds, s.ws), RankWeights(c, s'.fds, s'.ws);
    SameWorkers(c, s, l);
    forall w | 0 <= w < |s.ws| && w != l.w ensures ys[w] == xs[w] {
      IdleRank(c, s, l, w);
    }
    AllButOne(xs, ys, l.w);
  }

  lemma PopRank(c: Config, s: State, l: Label)
    requires Shape(c, s) && Contents(c, s) && Enabled(c, s, l) && l.WPop?
    ensures WorkerRank(c, Apply(c, s, l).fds, Apply(c, s, l).ws[l.w]) + 4
            <= WorkerRank(c, s.fds, s.ws[l.w]) + ItemCost(c, s.ring.Head().job)
  {
    RingStep(c, s, l);
    assert Untouched(c, s.fds, s.fs.files, s.ring.Live()[0]);
  }

  /** A read delivers at least one byte, so fewer are left. */
  lemma ReadRank(c: Config, s: State, l: Label)
    requires s.ring.Valid() && Sound(c.plan, c.fs) && Contents(c, s) && Frame(c, s.m, s.fs)
    requires Enabled(c, s, l) && l.WRead?
    ensures WorkerRank(c, Apply(c, s, l).fds, Apply(c, s, l).ws[l.w]) < WorkerRank(c, s.fds, s.ws[l.w])
  {
    assert WorkerOk(c, s.fds, s.fs.files, s.ws[l.w]);
    SourceStays(c, s, s.ws[l.w].item.job);
  }

  lemma WriteRank(c: Config, s: State, l: Label)
    requires s.ring.Valid() && Sound(c.plan, c.fs) && Contents(c, s)
    requires Enabled(c, s, l) && l.WWrite?
    ensures WorkerRank(c, Apply(c, s, l).fds, Apply(c, s, l).ws[l.w]) < WorkerRank(c, s.fds, s.ws[l.w])
  {
    assert WorkerOk(c, s.fds, s.fs.files, s.ws[l.w]);
  }

  lemma StageRank(c: Config, s: State, l: Label)
    requires Phase(c, s) && Enabled(c, s, l) && !MainLabel(l) && !ManagerLabel(l)
    requires !l.WPop? && !l.WRead? && !l.WWrite?
    ensures var before, after := WorkerRank(c, s.fds, s.ws[l.w]), WorkerRank(c, Apply(c, s, l).fds, Apply(c, s, l).ws[l.w]);
            if l.SpuriousEmpty? then after == before + 1 else after < before
  {
  }

  /** The acting worker's own rank, against the item it may have taken. */
  lemma ActorRank(c: Config, s: State, l: Label)
    requires Sound(c.plan, c.fs) && Shape(c, s) && Phase(c, s) && Contents(c, s) && Frame(c, s.m, s.fs)
    requires Enabled(c, s, l) && !MainLabel(l) && !ManagerLabel(l)
    ensures var before, after := WorkerRank(c, s.fds, s.ws[l.w]), WorkerRank(c, Apply(c, s, l).fds, Apply(c, s, l).ws[l.w]);
            if l.WPop? then after + 4 <= before + ItemCost(c, s.ring.Head().job)
            else if l.SpuriousEmpty? then after == before + 1
            else after < before
  {
    if l.WPop? {
      PopRank(c, s, l);
    } else if l.WRead? {
      ReadRank(c, s, l);
    } else if l.WWrite? {
      WriteRank(c, s, l);
    } else {
      StageRank(c, s, l);
    }
  }

  /** A worker's step leaves main alone and may wake the manager. */
  lemma ManagerWatches(c: Config, s: State, l: Label)
    requires Enabled(c, s, l) && !MainLabel(l) && !ManagerLabel(l)
    ensures Apply(c, s, l).main == s.main
    ensures ManagerRank(c, Apply(c, s, l).m) <= ManagerRank(c, s.m) + (if l.WPop? then 1 else 0)
  {
  }

  lemma WorkerMeasure(c: Config, s: State, l: Label)
    requires Sound(c.plan, c.fs) && Shape(c, s) && Phase(c, s) && History(c, s) && Holders(s.ws, s.popped)
    requires Contents(c, s) && Frame(c, s.m, s.fs)
    requires Enabled(c, s, l) && !MainLabel(l) && !ManagerLabel(l)
    ensures Apply(c, s, l).ring.Valid()
    ensures if Spurious(l) then Measure(c, Apply(c, s, l)) <= Measure(c, s) + 1
            else Measure(c, Apply(c, s, l)) < Measure(c, s)
  {
    var s' := Apply(c, s, l);
    QueueStepRank(c, s, l);
    WorkersAct(c, s, l);
    ActorRank(c, s, l);
    ManagerWatches(c, s, l);
    AddUp(c, s, s', WorkerRank(c, s.fds, s.ws[l.w]), WorkerRank(c, s'.fds, s'.ws[l.w]));
  }

  /** The parts of the measure, when one worker's rank goes from `before` to `after`. */
  lemma AddUp(c: Config, s: State, s': State, before: nat, after: nat)
    requires s.ring.Valid() && s'.ring.Valid() && s'.main == s.main
    requires Total(RankWeights(c, s'.fds, s'.ws)) + before == Total(RankWeights(c, s.fds, s.ws)) + after
    ensures Measure(c, s') - Measure(c, s)
            == ManagerRank(c, s'.m) - ManagerRank(c, s.m)
               + QueueRank(c, s'.ring.Live()) - QueueRank(c, s.ring.Live()) + after - before
  {
  }

  /** The manager's own rank, with what it hands to the ring. */
  lemma ManagerRankStep(c: Config, s: State, l: Label)
    requires Shape(c, s) && Phase(c, s) && Enabled(c, s, l) && ManagerLabel(l)
    ensures var before, after := ManagerRank(c, s.m), ManagerRank(c, Apply(c, s, l).m);
            if l.SpuriousFull? then after == before + 1
            else if l.MPush? then after + ItemCost(c, s.m.item.job) + 3 <= before
            else if l.MSetDone? then after + c.workers < before
            else after < before
  {
  }

  lemma MainRankStep(c: Config, s: State, l: Label)
    requires Shape(c, s) && Enabled(c, s, l) && MainLabel(l)
    ensures MainRank(c, Apply(c, s, l).main) < MainRank(c, s.main)
    ensures ManagerRank(c, Apply(c, s, l).m) == ManagerRank(c, s.m)
  {
  }

  lemma MainMeasure(c: Config, s: State, l: Label)
    requires Sound(c.plan, c.fs) && Shape(c, s) && Phase(c, s) && History(c, s) && Holders(s.ws, s.popped)
    requires Contents(c, s) && Enabled(c, s, l) && MainLabel(l)
    ensures Apply(c, s, l).ring.Valid() && Measure(c, Apply(c, s, l)) < Measure(c, s)
  {
    MainRankStep(c, s, l);
    QueueStepRank(c, s, l);
    WorkersWatch(c, s, l);
  }

  lemma MainWatches(c: Config, s: State, l: Label)
    requires Enabled(c, s, l) && ManagerLabel(l)
    ensures Apply(c, s, l).main == s.main
  {
  }

  lemma ManagerMeasure(c: Config, s: State, l: Label)
    requires Sound(c.plan, c.fs) && Shape(c, s) && Phase(c, s) && History(c, s) && Holders(s.ws, s.popped)
    requires Contents(c, s) && Enabled(c, s, l) && ManagerLabel(l)
    ensures Apply(c, s, l).ring.Valid()
    ensures if Spurious(l) then Measure(c, Apply(c, s, l)) <= Measure(c, s) + 1
            else Measure(c, Apply(c, s, l)) < Measure(c, s)
  {
    MainWatches(c, s, l);
    QueueStepRank(c, s, l);
    WorkersWatch(c, s, l);
    ManagerRankStep(c, s, l);
  }

  /** Every step that is not a spurious wake-up lowers the measure; a spurious
      wake-up raises it by one. */
  lemma MeasureStep(c: Config, s: State, l: Label)
    requires Admissible(c) && Inv(c, s) && Enabled(c, s, l)
    ensures Apply(c, s, l).ring.Valid()
    ensures if Spurious(l) then Measure(c, Apply(c, s, l)) <= Measure(c, s) + 1
            else Measure(c, Apply(c, s, l)) < Measure(c, s)
  {
    if MainLabel(l) {
      MainMeasure(c, s, l);
    } else if ManagerLabel(l) {
      ManagerMeasure(c, s, l);
    } else {
      WorkerMeasure(c, s, l);
    }
  }

  // ----- Termination -----------------------------------------------------------

  ghost function SpuriousCount(labels: seq<Label>): nat {
    if labels == [] then 0
    else SpuriousCount(labels[..|labels| - 1]) + (if Spurious(labels[|labels| - 1]) then 1 else 0)
  }

  /** Reads, writes and closes for every byte and file, and a fixed number of
      steps for each thread: what a run can cost, told from the plan alone. */
  ghost function RunCost(c: Config): nat {
    2 * Parties(c) + 2 + PlanCost(c, 0) + 5 * c.workers
  }

  lemma InitialMeasure(c: Config, s: State)
    requires Admissible(c) && Init(c, s)
    ensures s.ring.Valid() && Measure(c, s) == RunCost(c)
  {
    InitRing(c, s);
    TotalBounds(RankWeights(c, s.fds, s.ws), 5);
  }

  lemma RunPrefix(c: Config, r: Run)
    requires IsRun(c, r) && r.labels != []
    ensures IsRun(c, Run(r.states[..|r.labels|], r.labels[..|r.labels| - 1]))
  {
    var n := |r.labels|;
    var r' := Run(r.states[..n], r.labels[..n - 1]);
    forall k | 0 <= k < n - 1
      ensures Enabled(c, r'.states[k], r'.labels[k]) && r'.states[k + 1] == Apply(c, r'.states[k], r'.labels[k])
    {
      assert r'.labels[k] == r.labels[k];
    }
  }

  lemma LastStep(c: Config, r: Run)
    requires Admissible(c) && IsRun(c, r) && r.labels != []
    ensures var n := |r.labels|; var s, s' := r.states[n - 1], r.states[n];
            && s.ring.Valid() && s'.ring.Valid()
            && if Spurious(r.labels[n - 1]) then Measure(c, s') <= Measure(c, s) + 1
               else Measure(c, s') < Measure(c, s)
  {
    var n := |r.labels|;
    RunKeepsInv(c, r, n - 1);
    MeasureStep(c, r.states[n - 1], r.labels[n - 1]);
  }

  /** Every run is finite: a run has at most `RunCost` steps, and two more for
      each spurious wake-up in it. */
  lemma {:induction false} RunIsBounded(c: Config, r: Run)
    requires Admissible(c) && IsRun(c, r)
    ensures var s := r.states[|r.labels|];
            && s.ring.Valid()
            && |r.labels| + Measure(c, s) <= RunCost(c) + 2 * SpuriousCount(r.labels)
    decreases |r.labels|
  {
    var n := |r.labels|;
    if n == 0 {
      InitialMeasure(c, r.states[0]);
    } else {
      RunPrefix(c, r);
      RunIsBounded(c, Run(r.states[..n], r.labels[..n - 1]));
      LastStep(c, r);
    }
  }

  /** Total correctness: a run that cannot be continued without a spurious
      wake-up has finished, with every thread joined and the mirror complete. */
  lemma MaximalRunFinishes(c: Config, r: Run)
    requires Admissible(c) && IsRun(c, r)
    requires forall l :: Enabled(c, r.states[|r.labels|], l) ==> Spurious(l)
    ensures var s := r.states[|r.labels|];
            s.main.Exited? && s.m.MPassed? && IsMirror(c, s.fs) && s.fds == map[] && AllClosedOnce(c, s.closes)
  {
    var n := |r.labels|;
    NoDeadlock(c, r, n);
    DestroyedAfterUse(c, r, n);
    BarrierOpensOnMirror(c, r, n);
  }
}
