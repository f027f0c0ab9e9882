/** What the parking lot keeps at every step, and why it always shuts down. */
module ParkingProofs {
  import opened Counting
  import opened Parking
  import opened Sequences

  // ----- One lane --------------------------------------------------------------

  /** Cars let in and not yet put away. */
  function Waiting(l: Lane): int {
    l.admitted - l.parked
  }

  predicate HasTaken(v: ValetPc) {
    v.WaitCharge? || v.Check? || v.Park? || v.Store?
  }

  predicate HasCar(v: ValetPc) {
    v.Park? || v.Store?
  }

  predicate InCharge(v: ValetPc) {
    v.Check? || v.Park? || v.GiveUp?
  }

  predicate Leaving(v: ValetPc) {
    v.GiveUp? || v.Gone?
  }

  /** Every car that was let in has its real space reserved. */
  predicate Reserved(size: nat, l: Lane) {
    && l.freeTemp <= size
    && l.freeTemp + l.freeReal >= size
    && l.parked == size - l.freeReal
    && Waiting(l) == size - l.freeTemp
  }

  predicate LaneInv(size: nat, l: Lane, ended: bool) {
    && Reserved(size, l)
    && (!ended ==> l.newCars + (if HasTaken(l.valet) then 1 else 0) == Waiting(l))
    && (HasCar(l.valet) ==> Waiting(l) > 0)
    && l.inCharge + (if InCharge(l.valet) then 1 else 0) >= 1
    && (Leaving(l.valet) ==> ended)
  }

  lemma AdmitKeeps(size: nat, l: Lane, ended: bool)
    requires LaneInv(size, l, ended)
    ensures LaneInv(size, Admit(l, size), ended)
    ensures l.freeReal == 0 ==> Admit(l, size) == l
  {
  }

  /** Exactly when a car is let in: as long as fewer have been than fit. */
  lemma AdmitExactly(size: nat, l: Lane, ended: bool)
    requires LaneInv(size, l, ended)
    ensures Admit(l, size)
            == if l.admitted < size then l.(freeTemp := l.freeTemp - 1, newCars := l.newCars + 1, admitted := l.admitted + 1)
               else l
  {
  }

  lemma ValetKeeps(size: nat, l: Lane, ended: bool)
    requires LaneInv(size, l, ended) && ValetReady(l)
    ensures LaneInv(size, ValetStep(l, ended), ended)
    ensures l.freeReal == 0 ==> ValetStep(l, ended).freeReal == 0
  {
  }

  /** Once the flag is set, a wait that fails does no harm. */
  lemma FailedWaitKeeps(size: nat, l: Lane)
    requires LaneInv(size, l, true) && Waits(l.valet)
    ensures LaneInv(size, WaitFails(l), true)
    ensures Provided(WaitFails(l)) && ValetRank(WaitFails(l).valet) < ValetRank(l.valet)
  {
  }

  // ----- The whole lot ---------------------------------------------------------

  /** Someone who has seen or set the end flag has yet to post this lane's semaphore. */
  ghost predicate AutoPending(s: State) {
    s.owner == PostAuto || exists h :: 0 <= h < |s.handlers| && s.handlers[h] == 1
  }

  ghost predicate PickupPending(s: State) {
    s.owner == PostAuto || s.owner == PostPickup || exists h :: 0 <= h < |s.handlers| && 1 <= s.handlers[h] <= 2
  }

  /** The valet will reach the end: a token is there or it is past needing one. */
  predicate Provided(l: Lane) {
    l.newCars > 0 || l.valet.WaitCharge? || l.valet.Check? || Leaving(l.valet)
  }

  predicate SawAutoFull(o: OwnerPc) {
    o.TestPickup? || SawFull(o)
  }

  predicate SawFull(o: OwnerPc) {
    o.SetEnd? || o.PostAuto? || o.PostPickup?
  }

  ghost predicate Inv(m: Sizes, s: State) {
    && LaneInv(m.auto, s.auto, s.ended)
    && LaneInv(m.pickup, s.pickup, s.ended)
    && (s.ended ==> (AutoPending(s) || Provided(s.auto)) && (PickupPending(s) || Provided(s.pickup)))
    && (SawAutoFull(s.owner) ==> s.auto.freeReal == 0)
    && (SawFull(s.owner) ==> s.pickup.freeReal == 0)
    && (s.owner.PostAuto? || s.owner.PostPickup? || s.owner.OwnerGone? ==> s.ended)
    && (forall h :: 0 <= h < |s.handlers| && s.handlers[h] > 0 ==> s.ended)
  }

  lemma ArrivalKeepsInv(m: Sizes, s: State, isAuto: bool)
    requires Inv(m, s) && s.owner == Arrival
    ensures Inv(m, OwnerStep(m, s, isAuto))
  {
    AdmitKeeps(m.auto, s.auto, s.ended);
    AdmitKeeps(m.pickup, s.pickup, s.ended);
    assert OwnerStep(m, s, isAuto).handlers == s.handlers;
  }

  lemma OwnerKeepsInv(m: Sizes, s: State, isAuto: bool)
    requires Inv(m, s) && s.owner != OwnerGone
    ensures Inv(m, OwnerStep(m, s, isAuto))
  {
    if s.owner == Arrival {
      ArrivalKeepsInv(m, s, isAuto);
    }
  }

  lemma HandlerKeepsInv(m: Sizes, s: State, h: nat)
    requires Inv(m, s) && h < |s.handlers| && s.handlers[h] < 5
    ensures Inv(m, HandlerStep(s, h))
  {
    var s' := HandlerStep(s, h);
    assert s'.handlers[h] == s.handlers[h] + 1;
    forall g | 0 <= g < |s.handlers| && g != h ensures s'.handlers[g] == s.handlers[g] {}
    if g :| 0 <= g < |s.handlers| && s.handlers[g] == 1 && g != h {
      assert s'.handlers[g] == 1;
    }
    if g :| 0 <= g < |s.handlers| && 1 <= s.handlers[g] <= 2 && g != h {
      assert 1 <= s'.handlers[g] <= 2;
    }
  }

  lemma SignalKeepsInv(m: Sizes, s: State)
    requires Inv(m, s)
    ensures Inv(m, s.(handlers := s.handlers + [0]))
  {
    var s' := s.(handlers := s.handlers + [0]);
    forall h | 0 <= h < |s.handlers| ensures s'.handlers[h] == s.handlers[h] {}
    if h :| 0 <= h < |s.handlers| && s.handlers[h] == 1 {
      assert s'.handlers[h] == 1;
    }
    if h :| 0 <= h < |s.handlers| && 1 <= s.handlers[h] <= 2 {
      assert 1 <= s'.handlers[h] <= 2;
    }
  }

  lemma StepKeepsInv(m: Sizes, s: State, l: Label)
    requires Inv(m, s) && Enabled(s, l)
    ensures Inv(m, Apply(m, s, l))
  {
    match l
    case Owner(isAuto) => OwnerKeepsInv(m, s, isAuto);
    case AutoValet => ValetKeeps(m.auto, s.auto, s.ended);
    case PickupValet => ValetKeeps(m.pickup, s.pickup, s.ended);
    case AutoInterrupted => FailedWaitKeeps(m.auto, s.auto);
    case PickupInterrupted => FailedWaitKeeps(m.pickup, s.pickup);
    case Signal => SignalKeepsInv(m, s);
    case Handler(h) => HandlerKeepsInv(m, s, h);
  }

  lemma {:induction false} PathKeepsInv(m: Sizes, r: Run, k: nat)
    requires IsPath(m, r) && Inv(m, r.states[0]) && k < |r.states|
    ensures Inv(m, r.states[k])
  {
    if k > 0 {
      PathKeepsInv(m, r, k - 1);
      assert Enabled(r.states[k - 1], r.labels[k - 1]);
      StepKeepsInv(m, r.states[k - 1], r.labels[k - 1]);
    }
  }

  lemma RunKeepsInv(m: Sizes, r: Run, k: nat)
    requires IsRun(m, r) && k < |r.states|
    ensures Inv(m, r.states[k])
  {
    assert Inv(m, r.states[0]);
    PathKeepsInv(m, r, k);
  }

  /** One lane's reservation: nothing is negative, the cars waiting never
      outnumber the real spaces left, and no more cars are let in than there
      are real spaces. */
  ghost predicate LaneSafe(size: nat, l: Lane) {
    && 0 <= l.freeTemp <= size && 0 <= l.freeReal <= size
    && l.freeTemp + l.freeReal >= size
    && 0 <= Waiting(l) <= l.freeReal
    && l.admitted == l.parked + Waiting(l) && l.admitted <= size
  }

  lemma ReservedIsSafe(size: nat, l: Lane, ended: bool)
    requires LaneInv(size, l, ended)
    ensures LaneSafe(size, l)
    ensures l.valet.WaitCharge? ==> ValetReady(l)
  {
  }

  /** The reservation holds for any lot sizes, at every step of every run; and
      the in-charge semaphore never holds a valet up. */
  lemma ReservationHolds(m: Sizes, r: Run, k: nat)
    requires IsRun(m, r) && k < |r.states|
    ensures var s := r.states[k];
            && LaneSafe(m.auto, s.auto) && LaneSafe(m.pickup, s.pickup)
            && (s.auto.valet.WaitCharge? ==> ValetReady(s.auto))
            && (s.pickup.valet.WaitCharge? ==> ValetReady(s.pickup))
  {
    RunKeepsInv(m, r, k);
    ReservedIsSafe(m.auto, r.states[k].auto, r.states[k].ended);
    ReservedIsSafe(m.pickup, r.states[k].pickup, r.states[k].ended);
  }

  /** The lane's semaphore and its valet's hands account for exactly the
      temporary spaces taken. */
  predicate TokensMatch(size: nat, l: Lane) {
    l.newCars + (if HasTaken(l.valet) then 1 else 0) == size - l.freeTemp
  }

  lemma TokensAreCars(m: Sizes, r: Run, k: nat)
    requires IsRun(m, r) && k < |r.states| && !r.states[k].ended
    ensures TokensMatch(m.auto, r.states[k].auto) && TokensMatch(m.pickup, r.states[k].pickup)
  {
    RunKeepsInv(m, r, k);
  }

  /** An arriving car is turned away if and only if as many cars of its kind have
      been let in as the lot has places for them; otherwise it takes a temporary
      space and the valet of its lane is told. The other lane does not change. */
  lemma ArrivalExactly(m: Sizes, r: Run, k: nat)
    requires IsRun(m, r) && k < |r.labels| && r.labels[k].Owner? && r.states[k].owner == Arrival
    ensures var s, s' := r.states[k], r.states[k + 1]; var isAuto := r.labels[k].isAuto;
            && s'.auto == (if isAuto && s.auto.admitted < m.auto then
                             s.auto.(freeTemp := s.auto.freeTemp - 1, newCars := s.auto.newCars + 1,
                                     admitted := s.auto.admitted + 1)
                           else s.auto)
            && s'.pickup == (if !isAuto && s.pickup.admitted < m.pickup then
                               s.pickup.(freeTemp := s.pickup.freeTemp - 1, newCars := s.pickup.newCars + 1,
                                         admitted := s.pickup.admitted + 1)
                             else s.pickup)
  {
    RunKeepsInv(m, r, k);
    assert Enabled(r.states[k], r.labels[k]);
    AdmitExactly(m.auto, r.states[k].auto, r.states[k].ended);
    AdmitExactly(m.pickup, r.states[k].pickup, r.states[k].ended);
  }

  // ----- Progress before the end -----------------------------------------------

  /** The valet's steps until it has put a car away. */
  function ParkRank(v: ValetPc): nat {
    match v
    case WaitNew => 5
    case WaitCharge => 4
    case Check => 3
    case Park => 2
    case Store => 1
    case GiveUp => 0
    case Gone => 0
  }

  /** As long as no end is signalled and a car waits, its valet is not held up,
      and at most five of its steps put a car away. */
  lemma WaitingCarsGetParked(m: Sizes, r: Run, k: nat)
    requires IsRun(m, r) && k < |r.states| && !r.states[k].ended
    ensures var l := r.states[k].auto;
            Waiting(l) > 0 ==>
              && ValetReady(l) && 1 <= ParkRank(l.valet) <= 5
              && (if ParkRank(l.valet) == 1 then ValetStep(l, false).parked == l.parked + 1
                  else ParkRank(ValetStep(l, false).valet) < ParkRank(l.valet))
    ensures var l := r.states[k].pickup;
            Waiting(l) > 0 ==>
              && ValetReady(l) && 1 <= ParkRank(l.valet) <= 5
              && (if ParkRank(l.valet) == 1 then ValetStep(l, false).parked == l.parked + 1
                  else ParkRank(ValetStep(l, false).valet) < ParkRank(l.valet))
  {
    RunKeepsInv(m, r, k);
  }

  /** The owner's steps once the lot is full. */
  function FullRank(o: OwnerPc): nat {
    match o
    case LoopTest => 7
    case Arrival => 6
    case TestAuto => 5
    case TestPickup => 4
    case SetEnd => 3
    case PostAuto => 2
    case PostPickup => 1
    case OwnerGone => 0
  }

  /** Once all real spaces are taken, every step of the owner brings it nearer to
      its end, and the lot stays full: at most seven steps of its own. */
  lemma FullLotEnds(m: Sizes, s: State, isAuto: bool)
    requires Inv(m, s) && s.auto.freeReal == 0 && s.pickup.freeReal == 0 && s.owner != OwnerGone
    ensures var s' := OwnerStep(m, s, isAuto);
            && s'.auto.freeReal == 0 && s'.pickup.freeReal == 0
            && FullRank(s'.owner) < FullRank(s.owner)
            && (s'.owner == OwnerGone ==> s'.ended)
  {
  }

  /** One activation of the handler, undisturbed: it sets the flag and posts each
      of the four semaphores once. */
  lemma HandlerPostsAll(m: Sizes, s: State, h: nat)
    requires h < |s.handlers| && s.handlers[h] == 0
    ensures var s1 := HandlerStep(s, h); var s2 := HandlerStep(s1, h); var s3 := HandlerStep(s2, h);
            var s4 := HandlerStep(s3, h); var s5 := HandlerStep(s4, h);
            s5 == s.(ended := true, handlers := s.handlers[h := 5],
                     auto := s.auto.(newCars := s.auto.newCars + 1, inCharge := s.auto.inCharge + 1),
                     pickup := s.pickup.(newCars := s.pickup.newCars + 1, inCharge := s.pickup.inCharge + 1))
  {
    var hs := s.handlers;
    assert hs[h := 1][h := 2][h := 3][h := 4][h := 5] == hs[h := 5];
  }

  // ----- The in-charge semaphore, and waits that fail --------------------------

  predicate ChargeIsOne(l: Lane) {
    l.inCharge + (if InCharge(l.valet) then 1 else 0) == 1
  }

  lemma ChargeStep(m: Sizes, s: State, l: Label)
    requires Enabled(s, l) && s.handlers == [] && !l.Signal?
    requires ChargeIsOne(s.auto) && ChargeIsOne(s.pickup)
    ensures Apply(m, s, l).handlers == [] && ChargeIsOne(Apply(m, s, l).auto) && ChargeIsOne(Apply(m, s, l).pickup)
  {
  }

  lemma HandlersStay(m: Sizes, s: State, l: Label)
    requires Enabled(s, l)
    ensures |Apply(m, s, l).handlers| == |s.handlers| + (if l.Signal? then 1 else 0)
  {
  }

  /** Without a signal each in-charge semaphore is a mutex: one token, or one
      valet in charge; and no wait fails. */
  lemma {:induction false} QuietCharge(m: Sizes, r: Run, k: nat)
    requires IsRun(m, r) && k < |r.states| && r.states[k].handlers == []
    ensures ChargeIsOne(r.states[k].auto) && ChargeIsOne(r.states[k].pickup)
    ensures !Enabled(r.states[k], AutoInterrupted) && !Enabled(r.states[k], PickupInterrupted)
  {
    if k > 0 {
      assert Enabled(r.states[k - 1], r.labels[k - 1]);
      HandlersStay(m, r.states[k - 1], r.labels[k - 1]);
      QuietCharge(m, r, k - 1);
      ChargeStep(m, r.states[k - 1], r.labels[k - 1]);
    }
  }

  /** Once a handler has returned, a valet's wait can fail, for a new car as well
      as for being in charge, and only a wait. */
  lemma WaitsCanFail(s: State, h: nat)
    requires h < |s.handlers| && s.handlers[h] == 5
    ensures Enabled(s, AutoInterrupted) <==> s.auto.valet == WaitNew || s.auto.valet == WaitCharge
    ensures Enabled(s, PickupInterrupted) <==> s.pickup.valet == WaitNew || s.pickup.valet == WaitCharge
  {
  }

  /** As long as none has, none does. */
  lemma NoWaitFailsBefore(s: State)
    requires forall h :: 0 <= h < |s.handlers| ==> s.handlers[h] < 5
    ensures !Enabled(s, AutoInterrupted) && !Enabled(s, PickupInterrupted)
  {
  }

  predicate LotFull(m: Sizes, s: State) {
    && s.auto.admitted == s.auto.parked == m.auto
    && s.pickup.admitted == s.pickup.parked == m.pickup
  }

  /** The owner's two unlocked reads are safe: once both have seen zero, every
      car ever let in is parked, in both lanes, and the lot is full. */
  lemma FullMeansAllParked(m: Sizes, r: Run, k: nat)
    requires IsRun(m, r) && k < |r.states| && SawFull(r.states[k].owner)
    ensures LotFull(m, r.states[k])
  {
    RunKeepsInv(m, r, k);
  }

  /** Without a handler, only the owner sets the flag, and only on a full lot. */
  lemma QuietStep(m: Sizes, s: State, l: Label)
    requires Inv(m, s) && Enabled(s, l)
    requires Apply(m, s, l).ended && Apply(m, s, l).handlers == []
    requires s.ended && s.handlers == [] ==> LotFull(m, s)
    ensures LotFull(m, Apply(m, s, l))
  {
    if s.ended {
      FullLotStays(m, s, l);
    }
  }

  /** Without a signal the simulation ends only with a full lot. */
  lemma {:induction false} QuietEndIsFull(m: Sizes, r: Run, k: nat)
    requires IsRun(m, r) && k < |r.states|
    requires r.states[k].ended && r.states[k].handlers == []
    ensures LotFull(m, r.states[k])
  {
    if k > 0 {
      var before := r.states[k - 1];
      if before.ended && before.handlers == [] {
        QuietEndIsFull(m, r, k - 1);
      }
      RunKeepsInv(m, r, k - 1);
      assert Enabled(before, r.labels[k - 1]) && r.states[k] == Apply(m, before, r.labels[k - 1]);
      QuietStep(m, before, r.labels[k - 1]);
    }
  }

  /** A full lot admits and parks nobody. */
  lemma FullLotStays(m: Sizes, s: State, l: Label)
    requires Inv(m, s) && Enabled(s, l)
    requires s.auto.parked == m.auto && s.pickup.parked == m.pickup
    ensures var s' := Apply(m, s, l);
            && s'.auto.admitted == s.auto.admitted && s'.auto.parked == s.auto.parked
            && s'.pickup.admitted == s.pickup.admitted && s'.pickup.parked == s.pickup.parked
  {
  }

  // ----- Shutdown --------------------------------------------------------------

  predicate AllGone(s: State) {
    s.owner == OwnerGone && s.auto.valet == Gone && s.pickup.valet == Gone
  }

  ghost predicate HandlersReturned(s: State) {
    forall h :: 0 <= h < |s.handlers| ==> s.handlers[h] == 5
  }

  /** Once the end flag is set, until all three threads have exited and the
      handlers have returned, one of them can step. */
  lemma ShutdownProgresses(m: Sizes, s: State) returns (l: Label)
    requires Inv(m, s) && s.ended && !(AllGone(s) && HandlersReturned(s))
    ensures !l.Signal? && Enabled(s, l)
  {
    if s.owner != OwnerGone {
      l := Owner(true);
    } else if h :| 0 <= h < |s.handlers| && s.handlers[h] != 5 {
      l := Handler(h);
    } else if s.auto.valet != Gone {
      l := AutoValet;
    } else {
      l := PickupValet;
    }
  }

  /** Then a valet can be held up only as long as the owner or a handler has yet
      to post its semaphore, and neither of those is ever held up itself. */
  lemma HeldUpOnlyByPost(m: Sizes, r: Run, k: nat)
    requires IsRun(m, r) && k < |r.states| && r.states[k].ended
    ensures var s := r.states[k];
            && (s.owner == OwnerGone || Enabled(s, Owner(true)))
            && (forall h :: 0 <= h < |s.handlers| ==> s.handlers[h] == 5 || Enabled(s, Handler(h)))
            && (s.auto.valet == Gone || Enabled(s, AutoValet) || (s.auto.valet == WaitNew && AutoPending(s)))
            && (s.pickup.valet == Gone || Enabled(s, PickupValet) || (s.pickup.valet == WaitNew && PickupPending(s)))
  {
    RunKeepsInv(m, r, k);
  }

  function OwnerRank(o: OwnerPc): nat {
    match o
    case OwnerGone => 0
    case LoopTest => 1
    case PostPickup => 1
    case PostAuto => 2
    case SetEnd => 3
    case TestPickup => 4
    case TestAuto => 5
    case Arrival => 6
  }

  function ValetRank(v: ValetPc): nat {
    match v
    case Gone => 0
    case GiveUp => 1
    case Check => 2
    case WaitCharge => 3
    case WaitNew => 4
    case Store => 5
    case Park => 6
  }

  ghost function HandlerRanks(hs: seq<HandlerPc>): seq<nat> {
    seq(|hs|, h requires 0 <= h < |hs| => 5 - hs[h])
  }

  /** The steps the three threads have left once the flag is set. */
  function ThreadSteps(s: State): nat {
    OwnerRank(s.owner) + ValetRank(s.auto.valet) + ValetRank(s.pickup.valet)
  }

  /** With those of the handlers. */
  ghost function StepsLeft(s: State): nat {
    ThreadSteps(s) + Total(HandlerRanks(s.handlers))
  }

  predicate OfThread(l: Label) {
    !l.Signal? && !l.Handler?
  }

  ghost function Signals(labels: seq<Label>): nat {
    if labels == [] then 0 else Signals(Front(labels)) + (if Last(labels).Signal? then 1 else 0)
  }

  ghost function OwnSteps(labels: seq<Label>): nat {
    if labels == [] then 0 else OwnSteps(Front(labels)) + (if OfThread(Last(labels)) then 1 else 0)
  }

  lemma HandlerAdvances(hs: seq<HandlerPc>, h: nat)
    requires h < |hs| && hs[h] < 5
    ensures Total(HandlerRanks(hs[h := hs[h] + 1])) + 1 == Total(HandlerRanks(hs))
  {
    TotalUpdate(HandlerRanks(hs), h, 4 - hs[h]);
    assert HandlerRanks(hs[h := hs[h] + 1]) == HandlerRanks(hs)[h := 4 - hs[h]];
  }

  lemma ValetFalls(l: Lane)
    requires ValetReady(l)
    ensures ValetRank(ValetStep(l, true).valet) < ValetRank(l.valet)
  {
  }

  lemma OwnerFalls(m: Sizes, s: State, isAuto: bool)
    requires s.ended && s.owner != OwnerGone
    ensures var s' := OwnerStep(m, s, isAuto);
            && OwnerRank(s'.owner) < OwnerRank(s.owner)
            && s'.ended && s'.auto.valet == s.auto.valet && s'.pickup.valet == s.pickup.valet && s'.handlers == s.handlers
  {
  }

  lemma HandlerArrives(hs: seq<HandlerPc>)
    ensures Total(HandlerRanks(hs + [0])) == Total(HandlerRanks(hs)) + 5
    decreases |hs|
  {
    var xs := HandlerRanks(hs + [0]);
    if hs == [] {
      assert xs == [5] && xs[1..] == [];
    } else {
      HandlerArrives(hs[1..]);
      assert xs[1..] == HandlerRanks(hs[1..] + [0]) && HandlerRanks(hs)[1..] == HandlerRanks(hs[1..]);
    }
  }

  /** Once the flag is set every step of a thread or of a handler brings the end
      nearer; a further signal adds a handler, and no step to the threads. */
  lemma ShutdownStep(m: Sizes, s: State, l: Label)
    requires Inv(m, s) && s.ended && Enabled(s, l)
    ensures var s' := Apply(m, s, l);
            && s'.ended
            && ThreadSteps(s') + (if OfThread(l) then 1 else 0) <= ThreadSteps(s)
            && 1 + StepsLeft(s') <= StepsLeft(s) + (if l.Signal? then 6 else 0)
  {
    match l
    case Owner(isAuto) => OwnerFalls(m, s, isAuto);
    case AutoValet => ValetFalls(s.auto);
    case PickupValet => ValetFalls(s.pickup);
    case AutoInterrupted => FailedWaitKeeps(m.auto, s.auto);
    case PickupInterrupted => FailedWaitKeeps(m.pickup, s.pickup);
    case Signal => HandlerArrives(s.handlers);
    case Handler(h) => HandlerAdvances(s.handlers, h);
  }

  lemma ShorterPath(m: Sizes, r: Run)
    requires IsPath(m, r) && r.labels != []
    ensures IsPath(m, Run(Front(r.states), Front(r.labels)))
    ensures var before := Last(Front(r.states));
            Enabled(before, Last(r.labels)) && Last(r.states) == Apply(m, before, Last(r.labels))
  {
    var labels := Front(r.labels);
    forall k | 0 <= k < |labels| ensures labels[k] == r.labels[k] {}
  }

  /** Shutdown is bounded, however many signals arrive during it: after the flag
      is set, by whomever and wherever the threads then are, they take at most
      `ThreadSteps` steps of their own; all steps together number at most
      `StepsLeft` and six for each further signal; and when nothing but another
      signal can happen, all three threads have exited. */
  lemma {:induction false} ShutdownTerminates(m: Sizes, r: Run)
    requires IsPath(m, r) && Inv(m, r.states[0]) && r.states[0].ended
    ensures var s, s' := r.states[0], Last(r.states);
            && s'.ended
            && OwnSteps(r.labels) + ThreadSteps(s') <= ThreadSteps(s)
            && |r.labels| + StepsLeft(s') <= StepsLeft(s) + 6 * Signals(r.labels)
            && ((forall l :: Enabled(s', l) ==> l.Signal?) ==> AllGone(s'))
    decreases |r.labels|
  {
    var s' := Last(r.states);
    PathKeepsInv(m, r, |r.labels|);
    if r.labels != [] {
      ShorterPath(m, r);
      ShutdownTerminates(m, Run(Front(r.states), Front(r.labels)));
      PathKeepsInv(m, r, |r.labels| - 1);
      ShutdownStep(m, r.states[|r.labels| - 1], Last(r.labels));
    }
    if (forall l :: Enabled(s', l) ==> l.Signal?) && !(AllGone(s') && HandlersReturned(s')) {
      var l := ShutdownProgresses(m, s');
    }
  }

  /** From any point of any run at which the flag is set, the bounds are
      constants: at most six steps for each thread, and five for each handler. */
  lemma ShutdownBound(m: Sizes, r: Run, k: nat)
    requires IsRun(m, r) && k < |r.states| && r.states[k].ended
    ensures Inv(m, r.states[k])
    ensures ThreadSteps(r.states[k]) <= 18
    ensures StepsLeft(r.states[k]) <= ThreadSteps(r.states[k]) + 5 * |r.states[k].handlers|
  {
    RunKeepsInv(m, r, k);
    TotalBounds(HandlerRanks(r.states[k].handlers), 5);
  }

  lemma SuffixPath(m: Sizes, r: Run, k: nat)
    requires IsPath(m, r) && k < |r.states|
    ensures IsPath(m, Run(r.states[k..], r.labels[k..]))
  {
    var r' := Run(r.states[k..], r.labels[k..]);
    forall i | 0 <= i < |r'.labels|
      ensures Enabled(r'.states[i], r'.labels[i]) && r'.states[i + 1] == Apply(m, r'.states[i], r'.labels[i])
    {
      assert r'.labels[i] == r.labels[k + i];
    }
  }

  /** In every run the three threads take at most eighteen steps after the flag
      is set, whatever further signals do. */
  lemma EighteenSteps(m: Sizes, r: Run, k: nat)
    requires IsRun(m, r) && k < |r.states| && r.states[k].ended
    ensures OwnSteps(r.labels[k..]) <= 18
    ensures (forall l :: Enabled(Last(r.states), l) ==> l.Signal?) ==> AllGone(Last(r.states))
  {
    ShutdownBound(m, r, k);
    SuffixPath(m, r, k);
    ShutdownTerminates(m, Run(r.states[k..], r.labels[k..]));
  }

  // ----- The bound is attained -------------------------------------------------

  lemma Extend(m: Sizes, r: Run, l: Label) returns (r': Run)
    requires IsRun(m, r) && Enabled(Last(r.states), l)
    ensures IsRun(m, r') && r'.labels == r.labels + [l] && Last(r'.states) == Apply(m, Last(r.states), l)
    ensures |r'.states| == |r.states| + 1 && r'.states[..|r.states|] == r.states
  {
    r' := Run(r.states + [Apply(m, Last(r.states), l)], r.labels + [l]);
  }

  /** A run that goes on from `r` with `n` steps of the threads. */
  ghost predicate GoesOn(m: Sizes, r: Run, r': Run, n: nat) {
    && IsRun(m, r) && IsRun(m, r') && |r.states| <= |r'.states| && r'.states[..|r.states|] == r.states
    && r'.labels[..|r.labels|] == r.labels && OwnSteps(r'.labels[|r.labels|..]) == n
  }

  lemma OwnStepsMore(labels: seq<Label>, l: Label, k: nat)
    requires k <= |labels|
    ensures OwnSteps((labels + [l])[k..]) == OwnSteps(labels[k..]) + (if OfThread(l) then 1 else 0)
  {
    var tail, tail' := labels[k..], (labels + [l])[k..];
    assert tail' == tail + [l] && Front(tail') == tail && Last(tail') == l;
  }

  lemma ExtendMore(m: Sizes, r0: Run, r: Run, l: Label, n: nat) returns (r': Run)
    requires GoesOn(m, r0, r, n) && Enabled(Last(r.states), l)
    ensures GoesOn(m, r0, r', if OfThread(l) then n + 1 else n) && Last(r'.states) == Apply(m, Last(r.states), l)
  {
    r' := Extend(m, r, l);
    OwnStepsMore(r.labels, l, |r0.labels|);
    assert r'.states[..|r0.states|] == r.states[..|r0.states|];
    assert r'.labels[..|r0.labels|] == r.labels[..|r0.labels|];
  }

  const ONE_EACH: Sizes := Sizes(1, 1)

  /** A car of each kind is let in ... */
  lemma TwoArrive() returns (r: Run)
    ensures IsRun(ONE_EACH, r)
    ensures var lane := Lane(0, 1, 1, 1, WaitNew, 1, 0); Last(r.states) == State(lane, lane, false, Arrival, [])
  {
    r := Run([InitState(ONE_EACH)], []);
    r := Extend(ONE_EACH, r, Owner(true));
    r := Extend(ONE_EACH, r, Owner(true));
    r := Extend(ONE_EACH, r, Owner(true));
    r := Extend(ONE_EACH, r, Owner(true));
    r := Extend(ONE_EACH, r, Owner(false));
    r := Extend(ONE_EACH, r, Owner(true));
    r := Extend(ONE_EACH, r, Owner(true));
  }

  /** ... both valets drive when the signal comes ... */
  lemma EndWhileDriving() returns (r: Run)
    ensures IsRun(ONE_EACH, r)
    ensures var lane := Lane(0, 1, 0, 0, Park, 1, 0); Last(r.states) == State(lane, lane, true, Arrival, [1])
  {
    r := TwoArrive();
    r := Extend(ONE_EACH, r, AutoValet);
    r := Extend(ONE_EACH, r, AutoValet);
    r := Extend(ONE_EACH, r, AutoValet);
    r := Extend(ONE_EACH, r, PickupValet);
    r := Extend(ONE_EACH, r, PickupValet);
    r := Extend(ONE_EACH, r, PickupValet);
    r := Extend(ONE_EACH, r, Signal);
    r := Extend(ONE_EACH, r, Handler(0));
  }

  /** ... the handler posts its tokens ... */
  lemma TokensPosted(r0: Run) returns (r: Run)
    requires IsRun(ONE_EACH, r0)
    requires var lane := Lane(0, 1, 0, 0, Park, 1, 0); Last(r0.states) == State(lane, lane, true, Arrival, [1])
    ensures GoesOn(ONE_EACH, r0, r, 0)
    ensures var lane := Lane(0, 1, 1, 0, Park, 1, 0); Last(r.states) == State(lane, lane, true, Arrival, [3])
  {
    r := ExtendMore(ONE_EACH, r0, r0, Handler(0), 0);
    r := ExtendMore(ONE_EACH, r0, r, Handler(0), 0);
  }

  /** ... the cars are parked ... */
  lemma BothPark(r0: Run, r1: Run) returns (r: Run)
    requires GoesOn(ONE_EACH, r0, r1, 0)
    requires var lane := Lane(0, 1, 1, 0, Park, 1, 0); Last(r1.states) == State(lane, lane, true, Arrival, [3])
    ensures GoesOn(ONE_EACH, r0, r, 4)
    ensures var lane := Lane(1, 0, 1, 1, WaitNew, 1, 1); Last(r.states) == State(lane, lane, true, Arrival, [3])
  {
    r := ExtendMore(ONE_EACH, r0, r1, AutoValet, 0);
    r := ExtendMore(ONE_EACH, r0, r, AutoValet, 1);
    r := ExtendMore(ONE_EACH, r0, r, PickupValet, 2);
    r := ExtendMore(ONE_EACH, r0, r, PickupValet, 3);
  }

  /** ... the owner finds the lot full ... */
  lemma OwnerSeesFull(r0: Run, r1: Run) returns (r: Run)
    requires GoesOn(ONE_EACH, r0, r1, 4)
    requires var lane := Lane(1, 0, 1, 1, WaitNew, 1, 1); Last(r1.states) == State(lane, lane, true, Arrival, [3])
    ensures GoesOn(ONE_EACH, r0, r, 7)
    ensures var lane := Lane(1, 0, 1, 1, WaitNew, 1, 1); Last(r.states) == State(lane, lane, true, SetEnd, [3])
  {
    r := ExtendMore(ONE_EACH, r0, r1, Owner(true), 4);
    r := ExtendMore(ONE_EACH, r0, r, Owner(true), 5);
    r := ExtendMore(ONE_EACH, r0, r, Owner(true), 6);
  }

  /** ... announces the end again and leaves ... */
  lemma OwnerEndsToo(r0: Run, r1: Run) returns (r: Run)
    requires GoesOn(ONE_EACH, r0, r1, 7)
    requires var lane := Lane(1, 0, 1, 1, WaitNew, 1, 1); Last(r1.states) == State(lane, lane, true, SetEnd, [3])
    ensures GoesOn(ONE_EACH, r0, r, 10)
    ensures var lane := Lane(1, 0, 2, 1, WaitNew, 1, 1); Last(r.states) == State(lane, lane, true, OwnerGone, [3])
  {
    r := ExtendMore(ONE_EACH, r0, r1, Owner(true), 7);
    r := ExtendMore(ONE_EACH, r0, r, Owner(true), 8);
    r := ExtendMore(ONE_EACH, r0, r, Owner(true), 9);
  }

  /** ... and the valets leave. */
  lemma BothLeave(r0: Run, r1: Run) returns (r: Run)
    requires GoesOn(ONE_EACH, r0, r1, 10)
    requires var lane := Lane(1, 0, 2, 1, WaitNew, 1, 1); Last(r1.states) == State(lane, lane, true, OwnerGone, [3])
    ensures GoesOn(ONE_EACH, r0, r, 18)
  {
    r := ExtendMore(ONE_EACH, r0, r1, AutoValet, 10);
    r := ExtendMore(ONE_EACH, r0, r, AutoValet, 11);
    r := ExtendMore(ONE_EACH, r0, r, AutoValet, 12);
    r := ExtendMore(ONE_EACH, r0, r, AutoValet, 13);
    r := ExtendMore(ONE_EACH, r0, r, PickupValet, 14);
    r := ExtendMore(ONE_EACH, r0, r, PickupValet, 15);
    r := ExtendMore(ONE_EACH, r0, r, PickupValet, 16);
    r := ExtendMore(ONE_EACH, r0, r, PickupValet, 17);
  }

  /** No smaller number will do: a run in which the threads take all eighteen. */
  lemma EighteenHappen() returns (r: Run, k: nat)
    ensures IsRun(ONE_EACH, r) && k < |r.states| && r.states[k].ended && OwnSteps(r.labels[k..]) == 18
  {
    var r0 := EndWhileDriving();
    k := |r0.labels|;
    r := TokensPosted(r0);
    r := BothPark(r0, r);
    r := OwnerSeesFull(r0, r);
    r := OwnerEndsToo(r0, r);
    r := BothLeave(r0, r);
    assert r.states[k] == r.states[..|r0.states|][k];
  }
}
