/** The running copier: one main thread, one manager, any number of workers,
    stepping in any order. A stretch of code that holds the mutex is one step;
    every system call outside it is a step of its own. Waiting on a condition
    variable puts a thread into a waiting state, from which only a signal, a
    broadcast or a spurious wake-up moves it to a woken state that re-checks. */
module Copier {
  import opened CopyPlan
  import opened Ring

  const CHUNK: nat := 1024

  datatype Config = Config(capacity: nat, workers: nat, plan: seq<Action>, fs: FileSystem)

  /** The barrier is initialised for the workers and the manager. */
  function Parties(c: Config): nat {
    c.workers + 1
  }

  /** What travels through the ring. `job` is the position of the copy in the
      plan; the program itself only carries the other three. */
  datatype Item = Item(srcFd: nat, destFd: nat, filename: string, job: nat)

  /** An open file: the file and how far this descriptor has moved in it. */
  datatype Desc = Desc(path: string, off: nat)

  datatype ManagerPc =
    | MUnborn
    | Walking(i: nat)
    | OpenDest(i: nat, srcFd: nat)
    | Pushing(item: Item)
    | WaitFull(item: Item)
    | WokenFull(item: Item)
    | MArrive
    | MAtBarrier
    | MPassed

  datatype WorkerPc =
    | WUnborn
    | Popping
    | WaitEmpty
    | WokenEmpty
    | PopFailed
    | Sleeping
    | Reading(item: Item)
    | Writing(item: Item, chunk: Bytes)
    | CloseSrc(item: Item)
    | CloseDest(item: Item)
    | WArrive
    | WAtBarrier
    | WPassed

  /** Threads are numbered 0 for the manager and w + 1 for worker w. */
  datatype MainPc = Spawn(t: nat) | Joining(t: nat) | Exited

  datatype State = State(
    ring: Ring<Item>,
    m: ManagerPc,
    ws: seq<WorkerPc>,
    main: MainPc,
    fs: FileSystem,
    fds: map<nat, Desc>,
    arrived: nat,
    // What happened so far: items through the ring, and descriptors closed.
    pushed: seq<Item>,
    popped: seq<Item>,
    closes: multiset<string>)

  ghost predicate Init(c: Config, s: State) {
    && |s.ring.slots| == c.capacity
    && s.ring.inIdx == s.ring.outIdx == s.ring.count == 0
    && !s.ring.done
    && s.m == MUnborn
    && |s.ws| == c.workers
    && (forall w :: 0 <= w < |s.ws| ==> s.ws[w] == WUnborn)
    && s.main == Spawn(0)
    && s.fs == c.fs
    && s.fds == map[]
    && s.arrived == 0
    && s.pushed == [] && s.popped == [] && s.closes == multiset{}
  }

  /** One label per step; the arguments are the choices the scheduler, the
      kernel or the condition variable makes. */
  datatype Label =
    | MainSpawn
    | MainJoin
    | MMkDir
    | MOpenSrc(fd: nat)
    | MOpenDest(fd: nat)
    | MPush(wake: nat)
    | MPushWait
    | MSetDone
    | MArriveBarrier
    | MLeaveBarrier
    | WPop(w: nat)
    | WPopWait(w: nat)
    | WPopFail(w: nat)
    | WCheckDone(w: nat)
    | WRetry(w: nat)
    | WRead(w: nat, k: nat)
    | WReadEof(w: nat)
    | WWrite(w: nat)
    | WCloseSrc(w: nat)
    | WCloseDest(w: nat)
    | WArriveBarrier(w: nat)
    | WLeaveBarrier(w: nat)
    | SpuriousFull
    | SpuriousEmpty(w: nat)

  predicate Spurious(l: Label) {
    l.SpuriousFull? || l.SpuriousEmpty?
  }

  predicate Returned(s: State, t: nat) {
    if t == 0 then s.m == MPassed else t - 1 < |s.ws| && s.ws[t - 1] == WPassed
  }

  predicate IsCopy(c: Config, i: nat) {
    i < |c.plan| && c.plan[i].Copy?
  }

  /** `pthread_cond_signal`: one waiting worker is woken, any of them; if none
      waits, nothing happens (`wake` is then the number of workers). */
  predicate MayWake(ws: seq<WorkerPc>, wake: nat) {
    if wake < |ws| then ws[wake] == WaitEmpty
    else wake == |ws| && forall w :: 0 <= w < |ws| ==> ws[w] != WaitEmpty
  }

  function SignalEmpty(ws: seq<WorkerPc>, wake: nat): seq<WorkerPc> {
    if wake < |ws| then ws[wake := WokenEmpty] else ws
  }

  function BroadcastEmpty(ws: seq<WorkerPc>): (r: seq<WorkerPc>)
    ensures |r| == |ws|
    ensures forall w :: 0 <= w < |ws| ==> r[w] == if ws[w] == WaitEmpty then WokenEmpty else ws[w]
  {
    seq(|ws|, w requires 0 <= w < |ws| => if ws[w] == WaitEmpty then WokenEmpty else ws[w])
  }

  function SignalFull(m: ManagerPc): ManagerPc {
    if m.WaitFull? then WokenFull(m.item) else m
  }

  /** How much a read at `off` can still deliver. */
  function Remaining(s: State, fd: nat): nat {
    if fd in s.fds && s.fds[fd].path in s.fs.files && s.fds[fd].off <= |s.fs.files[s.fds[fd].path]|
    then |s.fs.files[s.fds[fd].path]| - s.fds[fd].off
    else 0
  }

  /** A write at the descriptor's position: it overwrites, and grows the file at its end. */
  function WriteAt(content: Bytes, off: nat, chunk: Bytes): Bytes
    requires off <= |content|
  {
    content[..off] + chunk + (if off + |chunk| <= |content| then content[off + |chunk|..] else [])
  }

  predicate Enabled(c: Config, s: State, l: Label) {
    && (MainLabel(l) ==> MainEnabled(c, s, l))
    && (ManagerLabel(l) ==> ManagerEnabled(c, s, l))
    && (!MainLabel(l) && !ManagerLabel(l) ==> l.w < |s.ws| && WorkerEnabled(c, s, l))
  }

  predicate MainLabel(l: Label) {
    l.MainSpawn? || l.MainJoin?
  }

  predicate ManagerLabel(l: Label) {
    || l.MMkDir? || l.MOpenSrc? || l.MOpenDest? || l.MPush? || l.MPushWait?
    || l.MSetDone? || l.MArriveBarrier? || l.MLeaveBarrier? || l.SpuriousFull?
  }

  predicate MainEnabled(c: Config, s: State, l: Label)
    requires MainLabel(l)
  {
    match l
    case MainSpawn => s.main.Spawn?
    case MainJoin => s.main.Joining? && (s.main.t < Parties(c) ==> Returned(s, s.main.t))
  }

  predicate ManagerEnabled(c: Config, s: State, l: Label)
    requires ManagerLabel(l)
  {
    match l
    case MMkDir => s.m.Walking? && s.m.i < |c.plan| && c.plan[s.m.i].MkDir?
    case MOpenSrc(fd) => s.m.Walking? && IsCopy(c, s.m.i) && fd !in s.fds && c.plan[s.m.i].src in s.fs.files
    case MOpenDest(fd) => s.m.OpenDest? && IsCopy(c, s.m.i) && fd !in s.fds
    case MPush(wake) =>
      && (s.m.Pushing? || s.m.WokenFull?)
      && !s.ring.IsFull() && s.ring.inIdx < |s.ring.slots|
      && MayWake(s.ws, wake)
    case MPushWait => (s.m.Pushing? || s.m.WokenFull?) && s.ring.IsFull()
    case MSetDone => s.m == Walking(|c.plan|)
    case MArriveBarrier => s.m == MArrive
    case MLeaveBarrier => s.m == MAtBarrier && s.arrived == Parties(c)
    case SpuriousFull => s.m.WaitFull?
  }

  predicate WorkerEnabled(c: Config, s: State, l: Label)
    requires !MainLabel(l) && !ManagerLabel(l) && l.w < |s.ws|
  {
    var pc := s.ws[l.w];
    match l
    case WPop(_) => (pc == Popping || pc == WokenEmpty) && !s.ring.IsEmpty() && s.ring.outIdx < |s.ring.slots|
    case WPopWait(_) => (pc == Popping || pc == WokenEmpty) && s.ring.IsEmpty() && !s.ring.done
    case WPopFail(_) => (pc == Popping || pc == WokenEmpty) && s.ring.IsEmpty() && s.ring.done
    case WCheckDone(_) => pc == PopFailed
    case WRetry(_) => pc == Sleeping
    case WRead(_, k) => pc.Reading? && 0 < k <= CHUNK && k <= Remaining(s, pc.item.srcFd)
    case WReadEof(_) => pc.Reading? && pc.item.srcFd in s.fds && Remaining(s, pc.item.srcFd) == 0
    case WWrite(_) =>
      && pc.Writing? && pc.item.destFd in s.fds
      && var d := s.fds[pc.item.destFd]; d.path in s.fs.files && d.off <= |s.fs.files[d.path]|
    case WCloseSrc(_) => pc.CloseSrc? && pc.item.srcFd in s.fds
    case WCloseDest(_) => pc.CloseDest? && pc.item.destFd in s.fds
    case WArriveBarrier(_) => pc == WArrive
    case WLeaveBarrier(_) => pc == WAtBarrier && s.arrived == Parties(c)
    case SpuriousEmpty(_) => pc == WaitEmpty
  }

  function Apply(c: Config, s: State, l: Label): State
    requires Enabled(c, s, l)
  {
    if MainLabel(l) then MainStep(c, s, l)
    else if ManagerLabel(l) then ManagerStep(c, s, l)
    else WorkerStep(c, s, l)
  }

  /** Creates the manager, then the workers, then joins them in the same order. */
  function MainStep(c: Config, s: State, l: Label): State
    requires MainLabel(l) && MainEnabled(c, s, l)
  {
    match l
    case MainSpawn =>
      var t := s.main.t;
      if t == 0 then s.(m := Walking(0), main := Spawn(1))
      else if t - 1 < |s.ws| then s.(ws := s.ws[t - 1 := Popping], main := Spawn(t + 1))
      else s.(main := Joining(0))
    case MainJoin =>
      if s.main.t < Parties(c) then s.(main := Joining(s.main.t + 1)) else s.(main := Exited)
  }

  function ManagerStep(c: Config, s: State, l: Label): State
    requires ManagerLabel(l) && ManagerEnabled(c, s, l)
  {
    match l
    case MMkDir =>
      s.(m := Walking(s.m.i + 1), fs := s.fs.(dirs := s.fs.dirs + {c.plan[s.m.i].path}))
    case MOpenSrc(fd) =>
      s.(m := OpenDest(s.m.i, fd), fds := s.fds[fd := Desc(c.plan[s.m.i].src, 0)])
    case MOpenDest(fd) =>
      var a := c.plan[s.m.i];
      // O_CREAT and O_TRUNC: the file exists afterwards and is empty.
      s.(m := Pushing(Item(s.m.srcFd, fd, a.name, s.m.i)),
         fds := s.fds[fd := Desc(a.dst, 0)],
         fs := s.fs.(files := s.fs.files[a.dst := []]))
    case MPush(wake) =>
      s.(ring := s.ring.Put(s.m.item),
         ws := SignalEmpty(s.ws, wake),
         m := Walking(s.m.item.job + 1),
         pushed := s.pushed + [s.m.item])
    case MPushWait => s.(m := WaitFull(s.m.item))
    case MSetDone => s.(m := MArrive, ring := s.ring.(done := true), ws := BroadcastEmpty(s.ws))
    case MArriveBarrier => s.(m := MAtBarrier, arrived := s.arrived + 1)
    case MLeaveBarrier => s.(m := MPassed)
    case SpuriousFull => s.(m := WokenFull(s.m.item))
  }

  function WorkerStep(c: Config, s: State, l: Label): State
    requires !MainLabel(l) && !ManagerLabel(l) && l.w < |s.ws| && WorkerEnabled(c, s, l)
  {
    var w := l.w;
    var pc := s.ws[w];
    match l
    case WPop(_) =>
      s.(ring := s.ring.Take(),
         ws := s.ws[w := Reading(s.ring.Head())],
         m := SignalFull(s.m),
         popped := s.popped + [s.ring.Head()])
    case WPopWait(_) => s.(ws := s.ws[w := WaitEmpty])
    case WPopFail(_) => s.(ws := s.ws[w := PopFailed])
    case WCheckDone(_) => s.(ws := s.ws[w := if s.ring.done then WArrive else Sleeping])
    case WRetry(_) => s.(ws := s.ws[w := Popping])
    case WRead(_, k) =>
      var d := s.fds[pc.item.srcFd];
      s.(ws := s.ws[w := Writing(pc.item, s.fs.files[d.path][d.off..d.off + k])],
         fds := s.fds[pc.item.srcFd := Desc(d.path, d.off + k)])
    case WReadEof(_) => s.(ws := s.ws[w := CloseSrc(pc.item)])
    case WWrite(_) =>
      var d := s.fds[pc.item.destFd];
      s.(ws := s.ws[w := Reading(pc.item)],
         fds := s.fds[pc.item.destFd := Desc(d.path, d.off + |pc.chunk|)],
         fs := s.fs.(files := s.fs.files[d.path := WriteAt(s.fs.files[d.path], d.off, pc.chunk)]))
    case WCloseSrc(_) =>
      s.(ws := s.ws[w := CloseDest(pc.item)],
         fds := s.fds - {pc.item.srcFd},
         closes := s.closes + multiset{s.fds[pc.item.srcFd].path})
    case WCloseDest(_) =>
      s.(ws := s.ws[w := Popping],
         fds := s.fds - {pc.item.destFd},
         closes := s.closes + multiset{s.fds[pc.item.destFd].path})
    case WArriveBarrier(_) => s.(ws := s.ws[w := WAtBarrier], arrived := s.arrived + 1)
    case WLeaveBarrier(_) => s.(ws := s.ws[w := WPassed])
    case SpuriousEmpty(_) => s.(ws := s.ws[w := WokenEmpty])
  }

  /** A run: states and the labels between them, starting from an initial state. */
  datatype Run = Run(states: seq<State>, labels: seq<Label>)

  ghost predicate IsRun(c: Config, r: Run) {
    && |r.states| == |r.labels| + 1
    && Init(c, r.states[0])
    && forall k :: 0 <= k < |r.labels| ==>
         Enabled(c, r.states[k], r.labels[k])
         && r.states[k + 1] == Apply(c, r.states[k], r.labels[k])
  }

  /** What the environment is assumed to provide: a buffer and workers to use
      it, and a plan whose files exist and do not collide. */
  ghost predicate Admissible(c: Config) {
    c.capacity > 0 && c.workers > 0 && Sound(c.plan, c.fs)
  }
}
