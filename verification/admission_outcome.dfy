/** What becomes of every client that asks: let in, queued or turned away. */
module AdmissionOutcome {
  import opened ClientQueue
  import opened Sequences
  import opened Admission
  import opened AdmissionProofs

  // ----- Nobody is forgotten ---------------------------------------------------

  /** Everybody who asked is let in, queued, in the server's hand or turned away,
      as often as they asked. */
  ghost predicate AllAccounted(s: State)
    requires WellFormed(s.waiting)
  {
    multiset(s.arrived) == multiset(s.admitted) + multiset(Contents(s.waiting)) + multiset(InHand(s.pc)) + multiset(s.rejected)
  }

  lemma OneMore(cs: seq<Client>, c: Client)
    ensures multiset(cs + [c]) == multiset(cs) + multiset([c])
    ensures multiset([c] + cs) == multiset([c]) + multiset(cs)
  {
  }

  lemma AccountedByTake(max: nat, s: State)
    requires Inv(max, s) && AllAccounted(s) && s.pc.TakeWaiting?
    ensures s.waiting.front < |s.waiting.slots| && WellFormed(ServerStep(max, s).waiting)
    ensures AllAccounted(ServerStep(max, s))
  {
    DequeueRemovesOldest(s.waiting);
    var s' := ServerStep(max, s);
    var q, rest := Contents(s.waiting), Contents(s'.waiting);
    assert q == [q[0]] + rest && InHand(s.pc) == [] && InHand(s'.pc) == [q[0]];
    OneMore(rest, q[0]);
  }

  /** The other statements of the server leave the queue alone; a client in hand
      stays there, joins the admitted or joins the rejected. */
  lemma ServerHandsOn(max: nat, s: State)
    requires !s.pc.Read? && !s.pc.TakeWaiting?
    ensures var s' := ServerStep(max, s);
            && s'.waiting == s.waiting && s'.arrived == s.arrived
            && if s.pc.ForkWaiting? || s.pc.ForkNew? then
                 s'.admitted == s.admitted + [s.pc.c] && s'.rejected == s.rejected
                 && InHand(s.pc) == [s.pc.c] && InHand(s'.pc) == []
               else if s.pc.PutOff? then
                 s'.admitted == s.admitted && s'.rejected == s.rejected + [s.pc.c]
                 && InHand(s.pc) == [s.pc.c] && InHand(s'.pc) == []
               else s'.admitted == s.admitted && s'.rejected == s.rejected && InHand(s'.pc) == InHand(s.pc)
  {
  }

  lemma AccountedByServer(max: nat, s: State)
    requires WellFormed(s.waiting) && AllAccounted(s)
    requires !s.pc.Read? && !s.pc.TakeWaiting?
    ensures ServerStep(max, s).waiting == s.waiting && AllAccounted(ServerStep(max, s))
  {
    ServerHandsOn(max, s);
    if s.pc.ForkWaiting? || s.pc.ForkNew? {
      OneMore(s.admitted, s.pc.c);
      assert multiset(InHand(ServerStep(max, s).pc)) == multiset{};
    } else if s.pc.PutOff? {
      OneMore(s.rejected, s.pc.c);
      assert multiset(InHand(ServerStep(max, s).pc)) == multiset{};
    }
  }

  lemma AccountedByRequest(s: State, c: Client)
    requires WellFormed(s.waiting) && AllAccounted(s) && s.pc.Read?
    ensures AllAccounted(s.(pc := Decide(c), arrived := s.arrived + [c]))
  {
    OneMore(s.arrived, c);
    assert InHand(s.pc) == [] && InHand(Decide(c)) == [c] && multiset(InHand(s.pc)) == multiset{};
  }

  lemma AccountedByEnqueue(s: State, q: Que)
    requires WellFormed(s.waiting) && AllAccounted(s) && s.pc.PutOff? && Enqueued(s.waiting, s.pc.c, q)
    ensures WellFormed(q) && AllAccounted(s.(pc := Top, waiting := q))
  {
    EnqueueAppends(s.waiting, s.pc.c, q);
    OneMore(Contents(s.waiting), s.pc.c);
    assert InHand(s.pc) == [s.pc.c] && multiset(InHand(Top)) == multiset{};
  }

  lemma AccountedStep(max: nat, s: State, l: Label)
    requires Inv(max, s) && AllAccounted(s) && Enabled(max, s, l)
    ensures WellFormed(Apply(max, s, l).waiting) && AllAccounted(Apply(max, s, l))
  {
    match l
    case Server =>
      if s.pc.TakeWaiting? {
        AccountedByTake(max, s);
      } else {
        AccountedByServer(max, s);
      }
    case Arrive(c) => AccountedByRequest(s, c);
    case EmptyRead => assert InHand(s.pc) == InHand(Top);
    case Enqueue(q) => AccountedByEnqueue(s, q);
    case ChildExits =>
    case SignalArrives =>
  }

  lemma AccountedNext(max: nat, r: Run, k: nat)
    requires IsRun(max, r) && k < |r.labels| && WellFormed(r.states[k].waiting) && AllAccounted(r.states[k])
    ensures WellFormed(r.states[k + 1].waiting) && AllAccounted(r.states[k + 1])
  {
    RunKeepsInv(max, r, k);
    assert Enabled(max, r.states[k], r.labels[k]);
    AccountedStep(max, r.states[k], r.labels[k]);
  }

  lemma {:induction false} NobodyForgotten(max: nat, r: Run, k: nat)
    requires IsRun(max, r) && k < |r.states|
    ensures WellFormed(r.states[k].waiting) && AllAccounted(r.states[k])
  {
    if k == 0 {
      assert Contents(EMPTY) == [];
    } else {
      NobodyForgotten(max, r, k - 1);
      AccountedNext(max, r, k - 1);
    }
  }

  // ----- Who is turned away ----------------------------------------------------

  /** At its decision a client that will not wait finds no place, or a queue. */
  predicate FindsNoPlace(max: nat, s: State, l: Label) {
    l.Server? && s.pc.Decide? && s.pc.c.tryConnect != 0 && !(s.numClients < max && s.waiting.size == 0)
  }

  ghost function WithoutPlace(max: nat, r: Run, k: nat): seq<Client>
    requires k <= |r.labels| < |r.states|
  {
    if k == 0 then []
    else WithoutPlace(max, r, k - 1)
         + (if FindsNoPlace(max, r.states[k - 1], r.labels[k - 1]) then [r.states[k - 1].pc.c] else [])
  }

  /** Every decision, in every run: whoever asks is let in at once if there is a
      place and nobody waits, and put off otherwise, willing to wait or not. */
  lemma DecisionExactly(max: nat, r: Run, k: nat)
    requires IsRun(max, r) && k < |r.labels| && r.states[k].pc.Decide? && OwnStep(r.labels[k])
    ensures WellFormed(r.states[k].waiting)
    ensures var s := r.states[k];
            && s.arrived != [] && Last(s.arrived) == s.pc.c
            && r.states[k + 1].pc
               == if s.numClients < max && Contents(s.waiting) == [] then CountNew(Last(s.arrived)) else PutOff(Last(s.arrived))
  {
    RunKeepsInv(max, r, k);
    RejectedInOrderOfArrival(max, r, k);
    assert Enabled(max, r.states[k], r.labels[k]);
  }

  /** The client that is about to be turned away. */
  function BeingRejected(pc: Pc): seq<Client> {
    if pc.PutOff? && pc.c.tryConnect != 0 then [pc.c] else []
  }

  lemma RejectedStep(max: nat, s: State, l: Label)
    requires Enabled(max, s, l)
    ensures var s' := Apply(max, s, l);
            s'.rejected + BeingRejected(s'.pc)
            == s.rejected + BeingRejected(s.pc) + (if FindsNoPlace(max, s, l) then [s.pc.c] else [])
  {
  }

  /** Turned away are exactly the clients that will not wait and at their decision
      found no place or a queue, each once, in the order of the decisions. */
  lemma {:induction false} RejectedExactly(max: nat, r: Run, k: nat)
    requires IsRun(max, r) && k < |r.states|
    ensures r.states[k].rejected + BeingRejected(r.states[k].pc) == WithoutPlace(max, r, k)
  {
    if k > 0 {
      RejectedExactly(max, r, k - 1);
      assert Enabled(max, r.states[k - 1], r.labels[k - 1]);
      RejectedStep(max, r.states[k - 1], r.labels[k - 1]);
    }
  }

  /** In particular nobody willing to wait is turned away. */
  lemma {:induction false} OnlyUnwillingRejected(max: nat, r: Run, k: nat)
    requires IsRun(max, r) && k < |r.states|
    ensures forall c :: c in r.states[k].rejected ==> c.tryConnect != 0
  {
    RejectedExactly(max, r, k);
    UnwillingWithoutPlace(max, r, k);
    forall c | c in r.states[k].rejected ensures c in WithoutPlace(max, r, k) {
      assert c in r.states[k].rejected + BeingRejected(r.states[k].pc);
    }
  }

  lemma {:induction false} UnwillingWithoutPlace(max: nat, r: Run, k: nat)
    requires k <= |r.labels| < |r.states|
    ensures forall c :: c in WithoutPlace(max, r, k) ==> c.tryConnect != 0
  {
    if k > 0 {
      UnwillingWithoutPlace(max, r, k - 1);
    }
  }

  // ----- In the order of arrival -----------------------------------------------

  /** `a` is `b` with some elements left out. */
  ghost predicate PartOf(a: seq<Client>, b: seq<Client>)
    decreases |b|
  {
    a == [] || (b != [] && (PartOf(a, Front(b)) || (Last(a) == Last(b) && PartOf(Front(a), Front(b)))))
  }

  lemma PartOfMore(a: seq<Client>, b: seq<Client>, c: Client)
    requires PartOf(a, b)
    ensures PartOf(a, b + [c]) && PartOf(a + [c], b + [c])
  {
    assert Front(b + [c]) == b && Front(a + [c]) == a;
  }

  /** The client whose request was read and is not yet settled is the last that asked. */
  ghost predicate RejectedInOrder(s: State) {
    if s.pc.Decide? || s.pc.CountNew? || s.pc.ForkNew? || s.pc.PutOff? then
      s.arrived != [] && Last(s.arrived) == s.pc.c && PartOf(s.rejected, Front(s.arrived))
    else PartOf(s.rejected, s.arrived)
  }

  lemma RejectedInOrderStep(max: nat, s: State, l: Label)
    requires RejectedInOrder(s) && Enabled(max, s, l)
    ensures RejectedInOrder(Apply(max, s, l))
  {
    if l.Arrive? {
      assert Front(s.arrived + [l.c]) == s.arrived;
    } else if s.pc.ForkNew? || s.pc.PutOff? {
      PartOfMore(s.rejected, Front(s.arrived), s.pc.c);
      assert Front(s.arrived) + [s.pc.c] == s.arrived;
    }
  }

  /** The clients turned away are so in the order in which they asked. */
  lemma {:induction false} RejectedInOrderOfArrival(max: nat, r: Run, k: nat)
    requires IsRun(max, r) && k < |r.states|
    ensures RejectedInOrder(r.states[k]) && (r.states[k].pc.Top? ==> PartOf(r.states[k].rejected, r.states[k].arrived))
  {
    if k > 0 {
      RejectedInOrderOfArrival(max, r, k - 1);
      assert Enabled(max, r.states[k - 1], r.labels[k - 1]);
      RejectedInOrderStep(max, r.states[k - 1], r.labels[k - 1]);
    }
  }
}
