/** The server's admission of clients: the endless loop of the parent process,
    its wait queue, and child processes whose exits reach it as signals that
    can merge and can arrive between any two of its statements. */
module Admission {
  import opened ClientQueue

  datatype Pc =
    | Top                      // room, and somebody waiting?
    | TakeWaiting              // dequeue
    | CountWaiting(c: Client)  // num_clients++
    | ForkWaiting(c: Client)   // fork
    | Read                     // read a request, or find that there is none
    | Decide(c: Client)        // room, and nobody waiting?
    | CountNew(c: Client)      // num_clients++
    | ForkNew(c: Client)       // fork
    | PutOff(c: Client)        // enqueue or turn away

  /** `live` child processes run; `pending` says that a SIGCHLD is on its way.
      The rest is history: what arrived, what became of it, and how many exits
      found a signal already on its way and left no signal of their own. */
  datatype State = State(pc: Pc, numClients: int, waiting: Que, live: nat, pending: bool,
                         arrived: seq<Client>, admitted: seq<Client>, rejected: seq<Client>, merged: nat)

  const INIT := State(Top, 0, EMPTY, 0, false, [], [], [], 0)

  /** `EmptyRead` is the pass on which the read, which does not block, finds no
      request: the server goes back to the top of its loop. */
  datatype Label = Server | Arrive(c: Client) | EmptyRead | Enqueue(q: Que) | ChildExits | SignalArrives

  ghost predicate Enabled(max: nat, s: State, l: Label) {
    match l
    case Server => !s.pc.Read? && !(s.pc.PutOff? && s.pc.c.tryConnect == 0)
                   && (s.pc.TakeWaiting? && s.waiting.size > 0 ==> s.waiting.front < |s.waiting.slots|)
    case Arrive(_) => s.pc.Read?
    case EmptyRead => s.pc.Read?
    case Enqueue(q) => s.pc.PutOff? && s.pc.c.tryConnect == 0 && Enqueued(s.waiting, s.pc.c, q)
    case ChildExits => s.live > 0
    case SignalArrives => s.pending
  }

  ghost function Apply(max: nat, s: State, l: Label): State
    requires Enabled(max, s, l)
  {
    match l
    case Server => ServerStep(max, s)
    case Arrive(c) => s.(pc := Decide(c), arrived := s.arrived + [c])
    case EmptyRead => s.(pc := Top)
    case Enqueue(q) => s.(pc := Top, waiting := q)
    case ChildExits =>
      s.(live := s.live - 1, pending := true, merged := s.merged + (if s.pending then 1 else 0))
    case SignalArrives => s.(numClients := s.numClients - 1, pending := false)
  }

  function ServerStep(max: nat, s: State): State
    requires !s.pc.Read?
    requires s.pc.TakeWaiting? && s.waiting.size > 0 ==> s.waiting.front < |s.waiting.slots|
  {
    match s.pc
    case Top => s.(pc := if s.numClients < max && s.waiting.size > 0 then TakeWaiting else Read)
    case TakeWaiting =>
      var (item, q) := Dequeued(s.waiting);
      if item.Ptr? then s.(pc := CountWaiting(item.client), waiting := q) else s.(pc := Read)
    case CountWaiting(c) => s.(pc := ForkWaiting(c), numClients := s.numClients + 1)
    case ForkWaiting(c) => s.(pc := Top, live := s.live + 1, admitted := s.admitted + [c])
    case Decide(c) => s.(pc := if s.numClients < max && s.waiting.size == 0 then CountNew(c) else PutOff(c))
    case CountNew(c) => s.(pc := ForkNew(c), numClients := s.numClients + 1)
    case ForkNew(c) => s.(pc := Top, live := s.live + 1, admitted := s.admitted + [c])
    case PutOff(c) => s.(pc := Top, rejected := s.rejected + [c])
  }

  datatype Run = Run(states: seq<State>, labels: seq<Label>)

  ghost predicate IsRun(max: nat, r: Run) {
    && |r.states| == |r.labels| + 1
    && r.states[0] == INIT
    && forall k :: 0 <= k < |r.labels| ==>
         Enabled(max, r.states[k], r.labels[k]) && r.states[k + 1] == Apply(max, r.states[k], r.labels[k])
  }
}
