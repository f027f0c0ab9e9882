/** What every reachable state of the copier satisfies. */
module CopierInvariant {
  import opened CopyPlan
  import opened Ring
  import opened Copier
  import opened Counting

  // ----- Where the threads are -------------------------------------------------

  ghost predicate Born(main: MainPc, t: nat) {
    main.Spawn? ==> t < main.t
  }

  ghost predicate Shape(c: Config, s: State) {
    && |s.ws| == c.workers
    && s.ring.Valid() && |s.ring.slots| == c.capacity
    && (s.main.Spawn? ==> s.main.t <= Parties(c))
    && (s.main.Joining? ==> s.main.t <= Parties(c))
    && (forall t :: 0 <= t < Parties(c) && Joined(s.main, t) ==> Returned(s, t))
    && (s.m.MUnborn? <==> !Born(s.main, 0))
    && (forall w :: 0 <= w < |s.ws| ==> (s.ws[w].WUnborn? <==> !Born(s.main, w + 1)))
  }

  ghost predicate Joined(main: MainPc, t: nat) {
    main.Exited? || (main.Joining? && t < main.t)
  }

  /** The manager has told everyone that nothing more will come. */
  predicate Announced(m: ManagerPc) {
    m.MArrive? || m.MAtBarrier? || m.MPassed?
  }

  /** The worker's pop has answered that the buffer is drained for good. */
  predicate Leaving(pc: WorkerPc) {
    pc.PopFailed? || pc.WArrive? || pc.WAtBarrier? || pc.WPassed?
  }

  predicate HoldsItem(m: ManagerPc) {
    m.Pushing? || m.WaitFull? || m.WokenFull?
  }

  predicate Busy(pc: WorkerPc) {
    pc.Reading? || pc.Writing? || pc.CloseSrc? || pc.CloseDest?
  }

  /** How many actions of the plan the manager has completed. */
  function Position(c: Config, m: ManagerPc): nat {
    match m
    case MUnborn => 0
    case Walking(i) => i
    case OpenDest(i, _) => i
    case Pushing(it) => it.job
    case WaitFull(it) => it.job
    case WokenFull(it) => it.job
    case _ => |c.plan|
  }

  /** Destination files of the actions below this bound have been created. */
  function Created(c: Config, m: ManagerPc): nat {
    if HoldsItem(m) then Position(c, m) + 1 else Position(c, m)
  }

  ghost predicate Phase(c: Config, s: State) {
    && Position(c, s.m) <= |c.plan|
    && (s.m.OpenDest? || HoldsItem(s.m) ==> IsCopy(c, Position(c, s.m)))
    && (s.ring.done <==> Announced(s.m))
    && (forall w :: 0 <= w < |s.ws| && Leaving(s.ws[w]) ==> s.ring.done && s.ring.count == 0)
    && (forall w :: 0 <= w < |s.ws| ==> s.ws[w] != Sleeping)
  }

  // ----- What went through the ring --------------------------------------------

  ghost function JobsOf(items: seq<Item>): (jobs: seq<nat>)
    ensures |jobs| == |items|
    ensures forall k :: 0 <= k < |items| ==> jobs[k] == items[k].job
  {
    seq(|items|, k requires 0 <= k < |items| => items[k].job)
  }

  ghost predicate History(c: Config, s: State)
    requires s.ring.Valid()
  {
    && s.pushed == s.popped + s.ring.Live()
    && Position(c, s.m) <= |c.plan|
    && JobsOf(s.pushed) == CopyJobs(c.plan, Position(c, s.m))
  }

  ghost predicate Holders(ws: seq<WorkerPc>, popped: seq<Item>) {
    && (forall w :: 0 <= w < |ws| && Busy(ws[w]) ==> ws[w].item in popped)
    && (forall v, w :: 0 <= v < w < |ws| && Busy(ws[v]) && Busy(ws[w]) ==> ws[v].item.job != ws[w].item.job)
  }

  // ----- Descriptors and file contents -----------------------------------------

  ghost function Source(c: Config, j: nat): Bytes
    requires IsCopy(c, j) && c.plan[j].src in c.fs.files
  {
    c.fs.files[c.plan[j].src]
  }

  ghost predicate KnownJob(c: Config, j: nat) {
    IsCopy(c, j) && c.plan[j].src in c.fs.files
  }

  /** Both descriptors of the item are open on its own two files. */
  ghost predicate BothOpen(c: Config, fds: map<nat, Desc>, it: Item) {
    && KnownJob(c, it.job)
    && it.srcFd in fds && fds[it.srcFd].path == c.plan[it.job].src
    && it.destFd in fds && fds[it.destFd].path == c.plan[it.job].dst
  }

  /** Opened and untouched: nothing read, the destination empty. */
  ghost predicate Untouched(c: Config, fds: map<nat, Desc>, files: map<string, Bytes>, it: Item) {
    && BothOpen(c, fds, it)
    && fds[it.srcFd].off == 0 && fds[it.destFd].off == 0
    && c.plan[it.job].dst in files && files[c.plan[it.job].dst] == []
  }

  /** The destination holds the first bytes of the source, up to where it was written. */
  ghost predicate PrefixCopied(c: Config, fds: map<nat, Desc>, files: map<string, Bytes>, it: Item) {
    && BothOpen(c, fds, it)
    && c.plan[it.job].dst in files
    && var done := fds[it.destFd].off;
       done <= |Source(c, it.job)| && files[c.plan[it.job].dst] == Source(c, it.job)[..done]
  }

  ghost predicate Copied(c: Config, files: map<string, Bytes>, j: nat) {
    && KnownJob(c, j)
    && c.plan[j].dst in files && files[c.plan[j].dst] == Source(c, j)
  }

  ghost predicate WorkerOk(c: Config, fds: map<nat, Desc>, files: map<string, Bytes>, pc: WorkerPc) {
    match pc
    case Reading(it) =>
      PrefixCopied(c, fds, files, it) && fds[it.srcFd].off == fds[it.destFd].off
    case Writing(it, chunk) =>
      && PrefixCopied(c, fds, files, it)
      && var done := fds[it.destFd].off; var read := fds[it.srcFd].off;
         done < read <= |Source(c, it.job)| && chunk == Source(c, it.job)[done..read]
    case CloseSrc(it) => BothOpen(c, fds, it) && Copied(c, files, it.job)
    case CloseDest(it) =>
      && Copied(c, files, it.job)
      && it.destFd in fds && fds[it.destFd].path == c.plan[it.job].dst
    case _ => true
  }

  ghost predicate ManagerOk(c: Config, fds: map<nat, Desc>, files: map<string, Bytes>, m: ManagerPc) {
    match m
    case OpenDest(i, fd) => KnownJob(c, i) && fd in fds && fds[fd] == Desc(c.plan[i].src, 0)
    case Pushing(it) => Untouched(c, fds, files, it)
    case WaitFull(it) => Untouched(c, fds, files, it)
    case WokenFull(it) => Untouched(c, fds, files, it)
    case _ => true
  }

  ghost predicate Contents(c: Config, s: State)
    requires s.ring.Valid()
  {
    && ManagerOk(c, s.fds, s.fs.files, s.m)
    && (forall i :: 0 <= i < s.ring.count ==> Untouched(c, s.fds, s.fs.files, s.ring.Live()[i]))
    && (forall w :: 0 <= w < |s.ws| ==> WorkerOk(c, s.fds, s.fs.files, s.ws[w]))
  }

  /** Only destinations of the plan are ever written, and only directories of
      the plan are ever made. */
  ghost predicate Frame(c: Config, m: ManagerPc, fs: FileSystem) {
    && Position(c, m) <= |c.plan| && Created(c, m) <= |c.plan|
    && fs.dirs == c.fs.dirs + DirPaths(c.plan, Position(c, m))
    && fs.files.Keys == c.fs.files.Keys + DstPaths(c.plan, Created(c, m))
    && forall p :: p in c.fs.files && p !in DstPaths(c.plan, Created(c, m)) ==> fs.files[p] == c.fs.files[p]
  }

  // ----- Counting --------------------------------------------------------------

  function ManagerFds(m: ManagerPc): nat {
    if m.OpenDest? then 1 else if HoldsItem(m) then 2 else 0
  }

  function WorkerFds(pc: WorkerPc): nat {
    if pc.CloseDest? then 1 else if Busy(pc) then 2 else 0
  }

  ghost function FdWeights(ws: seq<WorkerPc>): seq<nat> {
    seq(|ws|, w requires 0 <= w < |ws| => WorkerFds(ws[w]))
  }

  /** Every open descriptor is accounted for by exactly one holder. */
  ghost predicate Conserved(s: State) {
    |s.fds| == ManagerFds(s.m) + 2 * s.ring.count + Total(FdWeights(s.ws))
  }

  /** How often each path has been closed, told from where its item is. */
  ghost predicate ClosedOnce(c: Config, s: State) {
    && ClosesSound(c, s.popped, s.closes)
    && (forall w :: 0 <= w < |s.ws| ==> ClosesMatch(c, s.closes, s.ws[w]))
    && (forall j: nat :: j in JobsOf(s.popped) && !Held(s.ws, j) ==> Finished(c, s, j))
  }

  /** No path is closed twice, or for an item that has not left the ring. */
  ghost predicate ClosesSound(c: Config, popped: seq<Item>, closes: multiset<string>) {
    && (forall p :: closes[p] <= 1)
    && (forall p :: p in closes ==> p in SrcPaths(c.plan) + DstPaths(c.plan, |c.plan|))
    && (forall j: nat :: IsCopy(c, j) && j !in JobsOf(popped) ==>
          c.plan[j].src !in closes && c.plan[j].dst !in closes)
  }

  /** A busy worker has closed its source once it is about to close its
      destination, and nothing before that. */
  ghost predicate ClosesMatch(c: Config, closes: multiset<string>, pc: WorkerPc) {
    Busy(pc) && IsCopy(c, pc.item.job) ==>
      && (c.plan[pc.item.job].src in closes <==> pc.CloseDest?)
      && c.plan[pc.item.job].dst !in closes
  }

  ghost predicate Held(ws: seq<WorkerPc>, j: nat) {
    exists w :: 0 <= w < |ws| && Busy(ws[w]) && ws[w].item.job == j
  }

  ghost predicate Finished(c: Config, s: State, j: nat) {
    && Copied(c, s.fs.files, j)
    && c.plan[j].src in s.closes && c.plan[j].dst in s.closes
  }

  // ----- Wake-ups --------------------------------------------------------------

  function Woken(pc: WorkerPc): nat {
    if pc.WokenEmpty? then 1 else 0
  }

  ghost function WokenWeights(ws: seq<WorkerPc>): seq<nat> {
    seq(|ws|, w requires 0 <= w < |ws| => Woken(ws[w]))
  }

  /** Nobody sleeps through a signal: a manager still waiting means a full ring;
      a worker still waiting means that the woken workers suffice for the items
      in the ring, and that more may come. */
  ghost predicate NoLostWakeup(c: Config, s: State) {
    && (s.m.WaitFull? ==> s.ring.count == c.capacity)
    && ((exists w :: 0 <= w < |s.ws| && s.ws[w] == WaitEmpty) ==>
          !s.ring.done && s.ring.count <= Total(WokenWeights(s.ws)))
  }

  // ----- The barrier -----------------------------------------------------------

  function ManagerArrived(m: ManagerPc): nat {
    if m.MAtBarrier? || m.MPassed? then 1 else 0
  }

  function WorkerArrived(pc: WorkerPc): nat {
    if pc.WAtBarrier? || pc.WPassed? then 1 else 0
  }

  ghost function ArrivedWeights(ws: seq<WorkerPc>): seq<nat> {
    seq(|ws|, w requires 0 <= w < |ws| => WorkerArrived(ws[w]))
  }

  ghost predicate Barrier(c: Config, s: State) {
    && s.arrived == ManagerArrived(s.m) + Total(ArrivedWeights(s.ws))
    && (s.m.MPassed? ==> s.arrived == Parties(c))
    && (forall w :: 0 <= w < |s.ws| && s.ws[w].WPassed? ==> s.arrived == Parties(c))
  }

  ghost predicate Inv(c: Config, s: State) {
    && Shape(c, s)
    && Phase(c, s)
    && History(c, s)
    && Holders(s.ws, s.popped)
    && Contents(c, s)
    && Frame(c, s.m, s.fs)
    && Conserved(s)
    && ClosedOnce(c, s)
    && NoLostWakeup(c, s)
    && Barrier(c, s)
  }
}
