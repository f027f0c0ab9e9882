/** The parking lot: an owner, one valet for each of two lanes, and a signal
    handler that may run at any point, any number of times. A stretch of code
    that holds the mutex is one step; every semaphore operation outside it,
    every unlocked read and every statement of the handler is one of its own. */
module Parking {

  /** The lot sizes, automobiles and pickups. */
  datatype Sizes = Sizes(auto: nat, pickup: nat)

  datatype ValetPc =
    | WaitNew       // sem_wait for a new car
    | WaitCharge    // sem_wait for being in charge
    | Check         // locked test of the end flag
    | Park          // parking, then sem_post of being in charge
    | Store         // locked update of the counters
    | GiveUp        // sem_post of being in charge, on the way out
    | Gone

  /** One lane: its counters, its two semaphores and its valet. `admitted` and
      `parked` count the cars let in and the cars put away. */
  datatype Lane = Lane(freeTemp: int, freeReal: int, newCars: nat, inCharge: nat, valet: ValetPc,
                       admitted: nat, parked: nat)

  datatype OwnerPc =
    | LoopTest      // unlocked test of the end flag
    | Arrival       // a car arrives: locked admission
    | TestAuto      // unlocked read of the automobile spaces
    | TestPickup    // unlocked read of the pickup spaces
    | SetEnd        // locked write of the end flag
    | PostAuto
    | PostPickup
    | OwnerGone

  /** A handler activation: how many of its five statements it has run. */
  type HandlerPc = h: nat | h <= 5

  datatype State = State(auto: Lane, pickup: Lane, ended: bool, owner: OwnerPc, handlers: seq<HandlerPc>)

  function InitLane(size: nat): Lane {
    Lane(size, size, 0, 1, WaitNew, 0, 0)
  }

  function InitState(m: Sizes): State {
    State(InitLane(m.auto), InitLane(m.pickup), false, LoopTest, [])
  }

  /** `Owner` carries the kind of the arriving car, which is random. A valet
      waiting on a semaphore can be interrupted by a handler that has run in its
      thread: the wait then returns without a token, and the result is ignored. */
  datatype Label =
    | Owner(isAuto: bool)
    | AutoValet
    | PickupValet
    | AutoInterrupted
    | PickupInterrupted
    | Signal
    | Handler(h: nat)

  predicate ValetReady(l: Lane) {
    && (l.valet == WaitNew ==> l.newCars > 0)
    && (l.valet == WaitCharge ==> l.inCharge > 0)
    && l.valet != Gone
  }

  predicate Waits(v: ValetPc) {
    v.WaitNew? || v.WaitCharge?
  }

  /** Some activation of the handler has returned. */
  predicate HandlerReturned(s: State) {
    exists h :: 0 <= h < |s.handlers| && s.handlers[h] == 5
  }

  predicate Enabled(s: State, l: Label) {
    match l
    case Owner(_) => s.owner != OwnerGone
    case AutoValet => ValetReady(s.auto)
    case PickupValet => ValetReady(s.pickup)
    case AutoInterrupted => Waits(s.auto.valet) && HandlerReturned(s)
    case PickupInterrupted => Waits(s.pickup.valet) && HandlerReturned(s)
    case Signal => true
    case Handler(h) => h < |s.handlers| && s.handlers[h] < 5
  }

  /** The admission test: a temporary space, a real space, and a real space that
      is not already spoken for by a waiting car. */
  function Admit(l: Lane, size: nat): Lane {
    if l.freeTemp > 0 && l.freeReal > 0 && l.freeReal + l.freeTemp > size then
      l.(freeTemp := l.freeTemp - 1, newCars := l.newCars + 1, admitted := l.admitted + 1)
    else l
  }

  function ValetStep(l: Lane, ended: bool): Lane
    requires ValetReady(l)
  {
    match l.valet
    case WaitNew => l.(newCars := l.newCars - 1, valet := WaitCharge)
    case WaitCharge => l.(inCharge := l.inCharge - 1, valet := Check)
    case Check => l.(valet := if ended then GiveUp else Park)
    case Park => l.(inCharge := l.inCharge + 1, valet := Store)
    case Store => l.(freeTemp := l.freeTemp + 1, freeReal := l.freeReal - 1, valet := WaitNew, parked := l.parked + 1)
    case GiveUp => l.(inCharge := l.inCharge + 1, valet := Gone)
  }

  /** The wait returns, but the semaphore keeps its tokens. */
  function WaitFails(l: Lane): Lane
    requires Waits(l.valet)
  {
    l.(valet := if l.valet.WaitNew? then WaitCharge else Check)
  }

  function OwnerStep(m: Sizes, s: State, isAuto: bool): State
    requires s.owner != OwnerGone
  {
    match s.owner
    case LoopTest => s.(owner := if s.ended then OwnerGone else Arrival)
    case Arrival =>
      if isAuto then s.(auto := Admit(s.auto, m.auto), owner := TestAuto)
      else s.(pickup := Admit(s.pickup, m.pickup), owner := TestAuto)
    case TestAuto => s.(owner := if s.auto.freeReal == 0 then TestPickup else LoopTest)
    case TestPickup => s.(owner := if s.pickup.freeReal == 0 then SetEnd else LoopTest)
    case SetEnd => s.(ended := true, owner := PostAuto)
    case PostAuto => s.(auto := PostNew(s.auto), owner := PostPickup)
    case PostPickup => s.(pickup := PostNew(s.pickup), owner := OwnerGone)
  }

  function PostNew(l: Lane): Lane {
    l.(newCars := l.newCars + 1)
  }

  function PostCharge(l: Lane): Lane {
    l.(inCharge := l.inCharge + 1)
  }

  function HandlerStep(s: State, h: nat): State
    requires h < |s.handlers| && s.handlers[h] < 5
  {
    var s' := s.(handlers := s.handlers[h := s.handlers[h] + 1]);
    match s.handlers[h]
    case 0 => s'.(ended := true)
    case 1 => s'.(auto := PostNew(s.auto))
    case 2 => s'.(pickup := PostNew(s.pickup))
    case 3 => s'.(auto := PostCharge(s.auto))
    case _ => s'.(pickup := PostCharge(s.pickup))
  }

  function Apply(m: Sizes, s: State, l: Label): State
    requires Enabled(s, l)
  {
    match l
    case Owner(isAuto) => OwnerStep(m, s, isAuto)
    case AutoValet => s.(auto := ValetStep(s.auto, s.ended))
    case PickupValet => s.(pickup := ValetStep(s.pickup, s.ended))
    case AutoInterrupted => s.(auto := WaitFails(s.auto))
    case PickupInterrupted => s.(pickup := WaitFails(s.pickup))
    case Signal => s.(handlers := s.handlers + [0])
    case Handler(h) => HandlerStep(s, h)
  }

  datatype Run = Run(states: seq<State>, labels: seq<Label>)

  /** A stretch of a run, from any state. */
  ghost predicate IsPath(m: Sizes, r: Run) {
    && |r.states| == |r.labels| + 1
    && forall k :: 0 <= k < |r.labels| ==>
         Enabled(r.states[k], r.labels[k]) && r.states[k + 1] == Apply(m, r.states[k], r.labels[k])
  }

  ghost predicate IsRun(m: Sizes, r: Run) {
    IsPath(m, r) && r.states[0] == InitState(m)
  }
}
