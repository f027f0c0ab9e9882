/** The order and the limit of admission, and the slots that merged signals cost. */
module AdmissionProofs {
  import opened ClientQueue
  import opened Sequences
  import opened Admission

  /** The clients that asked to wait if there is no room, in order. */
  ghost function Connects(cs: seq<Client>): seq<Client> {
    if cs == [] then []
    else Connects(Front(cs)) + (if Last(cs).tryConnect == 0 then [Last(cs)] else [])
  }

  /** The client between the queue or the request and its child process. */
  function InHand(pc: Pc): seq<Client> {
    match pc
    case Top => []
    case TakeWaiting => []
    case Read => []
    case CountWaiting(c) => [c]
    case ForkWaiting(c) => [c]
    case Decide(c) => [c]
    case CountNew(c) => [c]
    case ForkNew(c) => [c]
    case PutOff(c) => [c]
  }

  function Counting(pc: Pc): int {
    if pc.ForkWaiting? || pc.ForkNew? then 1 else 0
  }

  /** Every place in `num_clients` is a running child, a signal on its way, a
      child about to be forked, or an exit whose signal merged with another. */
  predicate Balance(s: State) {
    s.numClients == s.live + (if s.pending then 1 else 0) + s.merged + Counting(s.pc)
  }

  ghost predicate Inv(max: nat, s: State) {
    && Balance(s)
    && s.numClients <= max
    && (s.pc.TakeWaiting? || s.pc.CountWaiting? || s.pc.CountNew? ==> s.numClients < max)
    && (s.merged > 0 ==> s.merged < max)
    && WellFormed(s.waiting)
    && (forall k :: 0 <= k < s.waiting.size ==> Contents(s.waiting)[k].tryConnect == 0)
    && (s.pc.CountWaiting? || s.pc.ForkWaiting? ==> s.pc.c.tryConnect == 0)
    && (s.pc.TakeWaiting? ==> s.waiting.size > 0)
    && (s.pc.CountNew? || s.pc.ForkNew? ==> s.waiting.size == 0)
    && InOrder(s)
  }

  /** Nobody who is willing to wait is overtaken or lost. */
  ghost predicate InOrder(s: State)
    requires WellFormed(s.waiting)
  {
    if s.pc.Decide? || s.pc.PutOff? then
      Connects(s.arrived) == Connects(s.admitted) + Contents(s.waiting) + Connects(InHand(s.pc))
    else
      Connects(s.arrived) == Connects(s.admitted) + Connects(InHand(s.pc)) + Contents(s.waiting)
  }

  lemma ConnectsAppend(cs: seq<Client>, c: Client)
    ensures Connects(cs + [c]) == Connects(cs) + Connects([c])
    ensures Connects([c]) == if c.tryConnect == 0 then [c] else []
  {
    assert Front(cs + [c]) == cs && Last(cs + [c]) == c;
    assert Front([c]) == [];
  }

  lemma TakeKeepsOrder(max: nat, s: State)
    requires WellFormed(s.waiting) && InOrder(s) && s.pc.TakeWaiting? && s.waiting.size > 0
    requires forall k :: 0 <= k < s.waiting.size ==> Contents(s.waiting)[k].tryConnect == 0
    ensures s.waiting.front < |s.waiting.slots| && WellFormed(ServerStep(max, s).waiting)
    ensures InOrder(ServerStep(max, s))
  {
    DequeueRemovesOldest(s.waiting);
    var s' := ServerStep(max, s);
    var admitted, q, rest := Connects(s.admitted), Contents(s.waiting), Contents(s'.waiting);
    var first := q[0];
    assert first.tryConnect == 0;
    ConnectsAppend([], first);
    assert InHand(s.pc) == [] && InHand(s'.pc) == [first] == [] + [first];
    assert Connects([]) == [] && admitted + [] == admitted;
    assert q == [first] + rest;
    Regroup(admitted, [first], rest);
  }

  lemma TakeKeepsInv(max: nat, s: State)
    requires Inv(max, s) && s.pc.TakeWaiting?
    ensures s.waiting.front < |s.waiting.slots|
    ensures Inv(max, ServerStep(max, s))
  {
    TakeKeepsOrder(max, s);
    DequeueRemovesOldest(s.waiting);
    var s' := ServerStep(max, s);
    var q := Contents(s.waiting);
    assert q[0].tryConnect == 0;
    forall k | 0 <= k < s'.waiting.size ensures Contents(s'.waiting)[k].tryConnect == 0 {
      assert Contents(s'.waiting)[k] == q[k + 1];
    }
  }

  /** A new client goes ahead only of an empty queue. */
  lemma DecideKeepsOrder(max: nat, s: State)
    requires WellFormed(s.waiting) && InOrder(s) && s.pc.Decide?
    ensures InOrder(ServerStep(max, s))
  {
    if s.waiting.size == 0 {
      var before, hand := Connects(s.admitted), Connects(InHand(s.pc));
      assert Contents(s.waiting) == [];
      assert before + [] + hand == before + hand + [];
    }
  }

  /** What was in hand has joined the admitted. */
  lemma HandOver(arrived: seq<Client>, before: seq<Client>, hand: seq<Client>, after: seq<Client>, q: seq<Client>)
    requires arrived == before + hand + q && after == before + hand
    ensures arrived == after + [] + q
  {
    assert after + [] == after;
  }

  lemma ForkKeepsOrder(max: nat, s: State)
    requires WellFormed(s.waiting) && InOrder(s) && (s.pc.ForkWaiting? || s.pc.ForkNew?)
    ensures InOrder(ServerStep(max, s))
  {
    var c, s' := s.pc.c, ServerStep(max, s);
    ConnectsAppend(s.admitted, c);
    assert InHand(s.pc) == [c] && InHand(s'.pc) == [] && Connects([]) == [];
    HandOver(Connects(s.arrived), Connects(s.admitted), Connects([c]), Connects(s'.admitted), Contents(s.waiting));
  }

  lemma RejectKeepsOrder(max: nat, s: State)
    requires WellFormed(s.waiting) && InOrder(s) && s.pc.PutOff? && s.pc.c.tryConnect != 0
    ensures InOrder(ServerStep(max, s))
  {
    ConnectsAppend([], s.pc.c);
    var admitted, q := Connects(s.admitted), Contents(s.waiting);
    assert admitted + q + [] == admitted + [] + q;
  }

  lemma ServerKeepsInv(max: nat, s: State)
    requires Inv(max, s) && !s.pc.Read? && !(s.pc.PutOff? && s.pc.c.tryConnect == 0)
    requires s.pc.TakeWaiting? && s.waiting.size > 0 ==> s.waiting.front < |s.waiting.slots|
    ensures Inv(max, ServerStep(max, s))
  {
    if s.pc.TakeWaiting? {
      TakeKeepsInv(max, s);
    } else if s.pc.ForkWaiting? || s.pc.ForkNew? {
      ForkKeepsOrder(max, s);
    } else if s.pc.Decide? {
      DecideKeepsOrder(max, s);
    } else if s.pc.PutOff? {
      RejectKeepsOrder(max, s);
    }
  }

  lemma ArriveKeepsInv(max: nat, s: State, c: Client)
    requires Inv(max, s) && s.pc.Read?
    ensures Inv(max, s.(pc := Decide(c), arrived := s.arrived + [c]))
  {
    ConnectsAppend(s.arrived, c);
  }

  lemma EnqueueKeepsOrder(s: State, q: Que)
    requires WellFormed(s.waiting) && InOrder(s) && s.pc.PutOff? && s.pc.c.tryConnect == 0
    requires Enqueued(s.waiting, s.pc.c, q)
    ensures WellFormed(q) && InOrder(s.(pc := Top, waiting := q))
  {
    EnqueueAppends(s.waiting, s.pc.c, q);
    ConnectsAppend([], s.pc.c);
    assert [] + [s.pc.c] == [s.pc.c] && Connects([]) == [];
    var admitted, before := Connects(s.admitted), Contents(s.waiting);
    Regroup(admitted, before, [s.pc.c]);
    assert admitted + [] + Contents(q) == admitted + Contents(q);
  }

  lemma EnqueueKeepsInv(max: nat, s: State, q: Que)
    requires Inv(max, s) && s.pc.PutOff? && s.pc.c.tryConnect == 0 && Enqueued(s.waiting, s.pc.c, q)
    ensures Inv(max, s.(pc := Top, waiting := q))
  {
    EnqueueKeepsOrder(s, q);
    EnqueueAppends(s.waiting, s.pc.c, q);
    forall k | 0 <= k < q.size ensures Contents(q)[k].tryConnect == 0 {
      assert k < s.waiting.size ==> Contents(q)[k] == Contents(s.waiting)[k];
    }
  }

  lemma StepKeepsInv(max: nat, s: State, l: Label)
    requires Inv(max, s) && Enabled(max, s, l)
    ensures Inv(max, Apply(max, s, l))
  {
    match l
    case Server => ServerKeepsInv(max, s);
    case Arrive(c) => ArriveKeepsInv(max, s, c);
    case EmptyRead =>
    case Enqueue(q) => EnqueueKeepsInv(max, s, q);
    case ChildExits =>
    case SignalArrives =>
  }

  lemma {:induction false} RunKeepsInv(max: nat, r: Run, k: nat)
    requires IsRun(max, r) && k < |r.states|
    ensures Inv(max, r.states[k])
  {
    if k == 0 {
      assert Contents(EMPTY) == [];
    } else {
      RunKeepsInv(max, r, k - 1);
      assert Enabled(max, r.states[k - 1], r.labels[k - 1]);
      StepKeepsInv(max, r.states[k - 1], r.labels[k - 1]);
    }
  }

  // ----- Order -----------------------------------------------------------------

  /** First come, first served: between requests, the clients willing to wait
      that have arrived are those admitted followed by those queued, in order. */
  lemma FirstComeFirstServed(max: nat, r: Run, k: nat)
    requires IsRun(max, r) && k < |r.states| && r.states[k].pc.Top?
    ensures WellFormed(r.states[k].waiting)
    ensures Connects(r.states[k].arrived) == Connects(r.states[k].admitted) + Contents(r.states[k].waiting)
  {
    RunKeepsInv(max, r, k);
    assert Connects([]) == [];
  }

  /** Clients that will not wait are never queued, and one is let in only when
      nobody is waiting. */
  lemma TryConnectYields(max: nat, r: Run, k: nat)
    requires IsRun(max, r) && k < |r.states|
    ensures WellFormed(r.states[k].waiting)
    ensures forall c :: c in Contents(r.states[k].waiting) ==> c.tryConnect == 0
    ensures var pc := r.states[k].pc;
            (pc.ForkWaiting? || pc.ForkNew?) && pc.c.tryConnect != 0 ==> r.states[k].waiting.size == 0
  {
    RunKeepsInv(max, r, k);
    forall c | c in Contents(r.states[k].waiting) ensures c.tryConnect == 0 {
      var i :| 0 <= i < r.states[k].waiting.size && Contents(r.states[k].waiting)[i] == c;
    }
  }

  // ----- The limit, and what merged signals cost -------------------------------

  /** At every step, with signals arriving anywhere and merging: the running
      children never exceed the counter, nor the counter the limit, and the
      difference is fully explained. */
  lemma LimitHolds(max: nat, r: Run, k: nat)
    requires IsRun(max, r) && k < |r.states|
    ensures var s := r.states[k];
            && 0 <= s.live <= s.numClients <= max
            && s.numClients - s.live == (if s.pending then 1 else 0) + s.merged + Counting(s.pc)
  {
    RunKeepsInv(max, r, k);
  }

  /** A place lost to a merged signal never comes back. */
  lemma {:induction false} LostForGood(max: nat, r: Run, k: nat, k': nat)
    requires IsRun(max, r) && k <= k' < |r.states|
    ensures r.states[k].merged <= r.states[k'].merged
    ensures r.states[k'].live <= max - r.states[k].merged
    decreases k'
  {
    RunKeepsInv(max, r, k');
    if k < k' {
      LostForGood(max, r, k, k' - 1);
      assert Enabled(max, r.states[k' - 1], r.labels[k' - 1]);
    }
  }

  lemma Extend(max: nat, r: Run, l: Label) returns (r': Run)
    requires IsRun(max, r) && Enabled(max, Last(r.states), l)
    ensures IsRun(max, r') && Last(r'.states) == Apply(max, Last(r.states), l)
  {
    r' := Run(r.states + [Apply(max, Last(r.states), l)], r.labels + [l]);
  }

  /** The state after an idle server with room has let a new client in. */
  function Admitted(s: State, c: Client): State {
    s.(pc := Top, numClients := s.numClients + 1, live := s.live + 1,
       arrived := s.arrived + [c], admitted := s.admitted + [c])
  }

  lemma AdmitOne(max: nat, r: Run, c: Client) returns (r': Run)
    requires IsRun(max, r)
    requires var s := Last(r.states); s.pc.Top? && s.waiting.size == 0 && s.numClients < max
    ensures IsRun(max, r') && Last(r'.states) == Admitted(Last(r.states), c)
  {
    r' := Extend(max, r, Server);
    r' := Extend(max, r', Arrive(c));
    r' := Extend(max, r', Server);
    r' := Extend(max, r', Server);
    r' := Extend(max, r', Server);
  }

  lemma {:induction false} FillUp(max: nat, n: nat) returns (r: Run)
    requires n <= max
    ensures IsRun(max, r)
    ensures var s := Last(r.states);
            && s.pc.Top? && s.waiting.size == 0 && !s.pending && s.merged == 0
            && s.numClients == s.live == n
  {
    if n == 0 {
      r := Run([INIT], []);
    } else {
      r := FillUp(max, n - 1);
      r := AdmitOne(max, r, Client(n, 0));
    }
  }

  /** With a signal on its way, every further exit merges with it. */
  lemma {:induction false} AllExit(max: nat, r: Run) returns (r': Run)
    requires IsRun(max, r) && Last(r.states).pending
    ensures IsRun(max, r')
    ensures var s := Last(r.states); Last(r'.states) == s.(live := 0, merged := s.merged + s.live)
    decreases Last(r.states).live
  {
    r' := r;
    if Last(r.states).live > 0 {
      r' := Extend(max, r, ChildExits);
      r' := AllExit(max, r');
    }
  }

  /** All places but one can get lost, whatever the limit: if all children exit
      before the first signal is delivered, the counter stays that much above. */
  lemma PlaceGetsLost(max: nat) returns (r: Run)
    requires max > 0
    ensures IsRun(max, r)
    ensures var s := Last(r.states);
            s.pc.Top? && s.live == 0 && !s.pending && s.merged == s.numClients == max - 1
  {
    r := FillUp(max, max);
    r := Extend(max, r, ChildExits);
    r := AllExit(max, r);
    r := Extend(max, r, SignalArrives);
  }

  // ----- A free place is used --------------------------------------------------

  /** The server's own steps: everything but the children's exits and signals. */
  predicate OwnStep(l: Label) {
    !l.ChildExits? && !l.SignalArrives?
  }

  ghost function OwnSteps(labels: seq<Label>): nat {
    if labels == [] then 0 else OwnSteps(Front(labels)) + (if OwnStep(Last(labels)) then 1 else 0)
  }

  /** The server takes the client that has waited longest out of the queue. */
  predicate Takes(s: State, l: Label) {
    s.pc.TakeWaiting? && l.Server?
  }

  /** Somebody waits, and there is a place besides the one of the client in hand. */
  ghost predicate PlaceAndWaiter(max: nat, s: State) {
    s.waiting.size > 0 && s.numClients + (if s.pc.CountWaiting? then 1 else 0) < max
  }

  /** The client already taken from the queue, if its child is not forked yet. */
  function BeingAdmitted(pc: Pc): seq<Client> {
    if pc.CountWaiting? || pc.ForkWaiting? then [pc.c] else []
  }

  /** At least one place is never lost: with no child running and no signal on
      its way, whoever waits has a place, unless another is just being let in. */
  lemma OnePlaceRemains(max: nat, r: Run, k: nat)
    requires IsRun(max, r) && k < |r.states| && max > 0
    requires var s := r.states[k]; s.live == 0 && !s.pending && s.waiting.size > 0 && BeingAdmitted(s.pc) == []
    ensures var s := r.states[k];
            s.merged < max && PlaceAndWaiter(max, s) && (s.pc.Top? ==> ServerStep(max, s).pc == TakeWaiting)
  {
    RunKeepsInv(max, r, k);
  }

  /** How far the server is from taking the first waiting client. With somebody
      in the queue it is never about to let a new client in. */
  function Distance(pc: Pc): nat {
    match pc
    case TakeWaiting => 1
    case Top => 2
    case PutOff(_) => 3
    case ForkWaiting(_) => 3
    case ForkNew(_) => 3
    case Decide(_) => 4
    case CountWaiting(_) => 4
    case CountNew(_) => 4
    case Read => 5
  }

  /** From `s` to `s'` the queue has kept its first client, nobody else got in,
      and the server came nearer by at least the number of its own steps. */
  ghost predicate Nearer(s: State, s': State, steps: nat) {
    && WellFormed(s.waiting) && WellFormed(s'.waiting) && s.waiting.size > 0 && s'.waiting.size > 0
    && Contents(s'.waiting)[0] == Contents(s.waiting)[0]
    && s'.admitted + BeingAdmitted(s'.pc) == s.admitted + BeingAdmitted(s.pc)
    && steps + Distance(s'.pc) <= Distance(s.pc)
  }

  lemma TowardsTheWaiter(max: nat, s: State, l: Label)
    requires Inv(max, s) && PlaceAndWaiter(max, s) && Enabled(max, s, l) && !Takes(s, l)
    ensures PlaceAndWaiter(max, Apply(max, s, l))
    ensures Nearer(s, Apply(max, s, l), if OwnStep(l) then 1 else 0)
  {
    if l.Enqueue? {
      EnqueueAppends(s.waiting, s.pc.c, l.q);
    }
  }

  lemma NearerStill(s: State, t: State, u: State, m: nat, n: nat)
    requires Nearer(s, t, m) && Nearer(t, u, n)
    ensures Nearer(s, u, m + n)
  {
  }

  lemma OwnStepsLast(labels: seq<Label>, k: nat, k': nat)
    requires k < k' <= |labels|
    ensures OwnSteps(labels[k..k']) == OwnSteps(labels[k..k' - 1]) + (if OwnStep(labels[k' - 1]) then 1 else 0)
  {
    assert Front(labels[k..k']) == labels[k..k' - 1] && Last(labels[k..k']) == labels[k' - 1];
  }

  /** Until the first waiting client is taken, every step of the server brings it
      nearer, and nobody else gets in. */
  lemma {:induction false} UntilTaken(max: nat, r: Run, k: nat, k': nat)
    requires IsRun(max, r) && k <= k' < |r.states| && PlaceAndWaiter(max, r.states[k])
    requires forall i :: k <= i < k' ==> !Takes(r.states[i], r.labels[i])
    ensures PlaceAndWaiter(max, r.states[k'])
    ensures Nearer(r.states[k], r.states[k'], OwnSteps(r.labels[k..k']))
    decreases k'
  {
    if k == k' {
      RunKeepsInv(max, r, k);
    } else {
      var before, l := r.states[k' - 1], r.labels[k' - 1];
      UntilTaken(max, r, k, k' - 1);
      RunKeepsInv(max, r, k' - 1);
      assert Enabled(max, before, l) && r.states[k'] == Apply(max, before, l) && !Takes(before, l);
      TowardsTheWaiter(max, before, l);
      NearerStill(r.states[k], before, r.states[k'], OwnSteps(r.labels[k..k' - 1]), if OwnStep(l) then 1 else 0);
      OwnStepsLast(r.labels, k, k');
    }
  }

  /** When there is a place and somebody waits, the server's next five steps of
      its own take the client that has waited longest, with or without requests,
      whatever exits and signals come in between; nobody is let in before it. */
  lemma FirstWaiterIsTaken(max: nat, r: Run, k: nat, k': nat) returns (i: nat)
    requires IsRun(max, r) && k <= k' < |r.states| && PlaceAndWaiter(max, r.states[k])
    requires OwnSteps(r.labels[k..k']) >= 5
    ensures k <= i < k' && WellFormed(r.states[k].waiting)
    ensures r.states[i].pc.TakeWaiting? && r.states[i + 1].pc == CountWaiting(Contents(r.states[k].waiting)[0])
    ensures r.states[i + 1].admitted == r.states[k].admitted + BeingAdmitted(r.states[k].pc)
  {
    if forall i :: k <= i < k' ==> !Takes(r.states[i], r.labels[i]) {
      UntilTaken(max, r, k, k');
      assert false;
    }
    i := FirstTake(r, k, k');
    UntilTaken(max, r, k, i);
    assert Enabled(max, r.states[i], r.labels[i]);
    DequeueRemovesOldest(r.states[i].waiting);
  }

  lemma {:induction false} FirstTake(r: Run, k: nat, k': nat) returns (i: nat)
    requires |r.states| == |r.labels| + 1 && k <= k' < |r.states|
    requires exists i :: k <= i < k' && Takes(r.states[i], r.labels[i])
    ensures k <= i < k' && Takes(r.states[i], r.labels[i])
    ensures forall j :: k <= j < i ==> !Takes(r.states[j], r.labels[j])
    decreases k' - k
  {
    if Takes(r.states[k], r.labels[k]) {
      i := k;
    } else {
      i := FirstTake(r, k + 1, k');
    }
  }

  /** The server is never stuck: in every reachable state it has a step of its own. */
  lemma ServerCanStep(max: nat, r: Run, k: nat) returns (l: Label)
    requires IsRun(max, r) && k < |r.states|
    ensures OwnStep(l) && Enabled(max, r.states[k], l)
  {
    RunKeepsInv(max, r, k);
    var s := r.states[k];
    if s.pc.Read? {
      l := EmptyRead;
    } else if s.pc.PutOff? && s.pc.c.tryConnect == 0 {
      var q := EnqueueIsPossible(s.waiting, s.pc.c);
      l := Enqueue(q);
    } else {
      l := Server;
    }
  }
}
