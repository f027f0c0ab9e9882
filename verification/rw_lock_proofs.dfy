/** What the lock guarantees for balanced calls, and exactly when it stalls. */
module RwLockProofs {
  import opened Counting
  import opened RwLock

  // ----- Who owns what ---------------------------------------------------------

  function HoldsReader(pc: Pc): nat {
    match pc
    case Idle => 0
    case REnterWait => 0
    case Reading => 0
    case RExitWait => 0
    case WWaitWriter => 0
    case WWaitReader => 0
    case WPostWriter => 0
    case _ => 1
  }

  function WriterHolds(pc: Pc): nat {
    if pc.WWaitReader? || pc.Writing? || pc.WPostReader? || pc.WPostWriter? then 1 else 0
  }

  /** The process is included in reader_count. */
  function Counted(pc: Pc): nat {
    if pc.RTestFirst? || pc.RTakeWriter? || pc.RRelease? || pc.Reading? || pc.RExitWait? || pc.RUncount? then 1 else 0
  }

  ghost function ReaderHolders(ps: seq<Pc>): seq<nat> {
    seq(|ps|, p requires 0 <= p < |ps| => HoldsReader(ps[p]))
  }

  ghost function WriterHolders(ps: seq<Pc>): seq<nat> {
    seq(|ps|, p requires 0 <= p < |ps| => WriterHolds(ps[p]))
  }

  ghost function Readers(ps: seq<Pc>): seq<nat> {
    seq(|ps|, p requires 0 <= p < |ps| => Counted(ps[p]))
  }

  /** Both semaphores are taken or free, never more; the count is right. */
  ghost predicate Accounted(s: State) {
    && s.readerMutex + Total(ReaderHolders(s.procs)) == 1
    && s.writerMutex + Total(WriterHolders(s.procs)) + (if s.owned then 1 else 0) == 1
    && s.readerCount == Total(Readers(s.procs))
  }

  /** The count and the ownership of writer_mutex disagree only while the
      process at `pc` is between changing the one and the other. */
  predicate Deciding(s: State, pc: Pc) {
    match pc
    case RTestFirst => s.owned == (s.readerCount > 1)
    case RTakeWriter => s.readerCount == 1 && !s.owned
    case RTestLast => s.owned
    case RGiveWriter => s.readerCount == 0 && s.owned
    case _ => true
  }

  predicate Between(pc: Pc) {
    pc.RTestFirst? || pc.RTakeWriter? || pc.RTestLast? || pc.RGiveWriter?
  }

  ghost predicate Consistent(s: State) {
    && (forall p :: 0 <= p < |s.procs| ==> Deciding(s, s.procs[p]))
    && ((forall p :: 0 <= p < |s.procs| ==> !Between(s.procs[p])) ==> s.owned == (s.readerCount > 0))
  }

  ghost predicate Inv(s: State) {
    Accounted(s) && Consistent(s)
  }

  lemma Sums(ps: seq<Pc>, p: nat, pc: Pc)
    requires p < |ps|
    ensures Total(ReaderHolders(ps[p := pc])) + HoldsReader(ps[p]) == Total(ReaderHolders(ps)) + HoldsReader(pc)
    ensures Total(WriterHolders(ps[p := pc])) + WriterHolds(ps[p]) == Total(WriterHolders(ps)) + WriterHolds(pc)
    ensures Total(Readers(ps[p := pc])) + Counted(ps[p]) == Total(Readers(ps)) + Counted(pc)
  {
    TotalUpdate(ReaderHolders(ps), p, HoldsReader(pc));
    assert ReaderHolders(ps[p := pc]) == ReaderHolders(ps)[p := HoldsReader(pc)];
    TotalUpdate(WriterHolders(ps), p, WriterHolds(pc));
    assert WriterHolders(ps[p := pc]) == WriterHolders(ps)[p := WriterHolds(pc)];
    TotalUpdate(Readers(ps), p, Counted(pc));
    assert Readers(ps[p := pc]) == Readers(ps)[p := Counted(pc)];
  }

  /** Only one process at a time owns reader_mutex. */
  lemma OneReaderHolder(s: State, p: nat, q: nat)
    requires Accounted(s) && p < |s.procs| && q < |s.procs| && p != q
    ensures HoldsReader(s.procs[p]) + HoldsReader(s.procs[q]) <= 1
    ensures WriterHolds(s.procs[p]) + WriterHolds(s.procs[q]) <= 1
  {
    TotalOfTwo(ReaderHolders(s.procs), p, q);
    TotalOfTwo(WriterHolders(s.procs), p, q);
  }

  lemma OneOfThem(s: State, p: nat)
    requires p < |s.procs|
    ensures HoldsReader(s.procs[p]) <= Total(ReaderHolders(s.procs))
    ensures WriterHolds(s.procs[p]) <= Total(WriterHolders(s.procs))
    ensures Counted(s.procs[p]) <= Total(Readers(s.procs))
  {
    TotalAtLeast(ReaderHolders(s.procs), p);
    TotalAtLeast(WriterHolders(s.procs), p);
    TotalAtLeast(Readers(s.procs), p);
  }

  lemma InitHolds(s: State)
    requires Init(s)
    ensures Inv(s)
  {
    TotalBounds(ReaderHolders(s.procs), 0);
    TotalBounds(WriterHolders(s.procs), 0);
    TotalBounds(Readers(s.procs), 0);
  }

  /** What the actor gives up or takes, the semaphores and the count show. */
  lemma ActorAccounted(s: State, l: Label)
    requires Enabled(s, l) && !l.ExitAgain? && Deciding(s, s.procs[l.p])
    ensures var s' := Apply(s, l); var pc, pc' := s.procs[l.p], s'.procs[l.p];
            && s'.procs == s.procs[l.p := pc']
            && s'.readerMutex + HoldsReader(pc') == s.readerMutex + HoldsReader(pc)
            && s'.writerMutex + WriterHolds(pc') + (if s'.owned then 1 else 0)
               == s.writerMutex + WriterHolds(pc) + (if s.owned then 1 else 0)
            && s'.readerCount - Counted(pc') == s.readerCount - Counted(pc)
  {
  }

  lemma AccountedStep(s: State, l: Label)
    requires Accounted(s) && Enabled(s, l) && !l.ExitAgain?
    requires Deciding(s, s.procs[l.p])
    ensures Accounted(Apply(s, l))
  {
    ActorAccounted(s, l);
    Sums(s.procs, l.p, Apply(s, l).procs[l.p]);
  }

  /** While the actor is between count and ownership, nobody else is. */
  lemma OthersNotBetween(s: State, p: nat, q: nat)
    requires Accounted(s) && p < |s.procs| && q < |s.procs| && p != q && HoldsReader(s.procs[p]) == 1
    ensures !Between(s.procs[q])
  {
    OneReaderHolder(s, p, q);
  }

  lemma ActorConsistent(s: State, l: Label)
    requires Inv(s) && Enabled(s, l) && !l.ExitAgain?
    ensures Deciding(Apply(s, l), Apply(s, l).procs[l.p])
  {
    OneOfThem(s, l.p);
    if HoldsReader(s.procs[l.p]) == 1 && !Between(s.procs[l.p]) {
      forall q | 0 <= q < |s.procs| ensures !Between(s.procs[q]) {
        if q != l.p {
          OthersNotBetween(s, l.p, q);
        }
      }
    }
  }

  lemma OthersConsistent(s: State, l: Label, q: nat)
    requires Inv(s) && Enabled(s, l) && !l.ExitAgain? && q < |s.procs| && q != l.p
    ensures |Apply(s, l).procs| == |s.procs| && Apply(s, l).procs[q] == s.procs[q]
    ensures Deciding(Apply(s, l), s.procs[q])
  {
    OneReaderHolder(s, l.p, q);
    assert Deciding(s, s.procs[q]);
  }

  lemma OwnershipStep(s: State, l: Label)
    requires Inv(s) && Enabled(s, l) && !l.ExitAgain?
    ensures var s' := Apply(s, l);
            (forall p :: 0 <= p < |s'.procs| ==> !Between(s'.procs[p])) ==> s'.owned == (s'.readerCount > 0)
  {
    var s' := Apply(s, l);
    OneOfThem(s, l.p);
    if forall p :: 0 <= p < |s'.procs| ==> !Between(s'.procs[p]) {
      assert !Between(s'.procs[l.p]);
      if Between(s.procs[l.p]) {
        assert Deciding(s, s.procs[l.p]);
      } else {
        forall q | 0 <= q < |s.procs| ensures !Between(s.procs[q]) {
          assert q != l.p ==> s'.procs[q] == s.procs[q];
        }
      }
    }
  }

  lemma StepKeepsInv(s: State, l: Label)
    requires Inv(s) && Enabled(s, l) && !l.ExitAgain?
    ensures Inv(Apply(s, l))
  {
    var s' := Apply(s, l);
    AccountedStep(s, l);
    OwnershipStep(s, l);
    forall q | 0 <= q < |s'.procs| ensures Deciding(s', s'.procs[q]) {
      if q == l.p {
        ActorConsistent(s, l);
      } else {
        OthersConsistent(s, l, q);
      }
    }
  }

  lemma {:induction false} LeadsKeepsInv(s: State, labels: seq<Label>, s': State)
    requires Inv(s) && Balanced(labels) && Leads(s, labels, s')
    ensures Inv(s')
    decreases |labels|
  {
    if labels != [] {
      StepKeepsInv(s, labels[0]);
      LeadsKeepsInv(Apply(s, labels[0]), labels[1..], s');
    }
  }

  /** Both semaphores stay within {0, 1}, each with one owner when taken, and
      the count is the number of readers counted in. */
  lemma ReachableInv(s: State)
    requires Reachable(s)
    ensures Inv(s)
    ensures s.readerMutex <= 1 && s.writerMutex <= 1 && s.readerCount == Total(Readers(s.procs))
  {
    var s0: State, labels :| Init(s0) && Balanced(labels) && Leads(s0, labels, s);
    InitHolds(s0);
    LeadsKeepsInv(s0, labels, s);
  }

  // ----- Mutual exclusion ------------------------------------------------------

  /** Whoever owns reader_mutex and is not between count and ownership sees
      them agree. */
  lemma AgreedWhileHeld(s: State, p: nat)
    requires Inv(s) && p < |s.procs| && HoldsReader(s.procs[p]) == 1 && !Between(s.procs[p])
    ensures s.owned == (s.readerCount > 0)
  {
    forall q | 0 <= q < |s.procs| ensures !Between(s.procs[q]) {
      if q != p {
        OthersNotBetween(s, p, q);
      }
    }
  }

  /** A writer inside excludes every other writer and every reader. */
  lemma MutualExclusion(s: State, p: nat, q: nat)
    requires Reachable(s) && p < |s.procs| && q < |s.procs| && p != q && s.procs[p] == Writing
    ensures s.procs[q] != Writing && s.procs[q] != Reading
  {
    ReachableInv(s);
    OneReaderHolder(s, p, q);
    AgreedWhileHeld(s, p);
    OneOfThem(s, p);
    OneOfThem(s, q);
  }

  // ----- The stall -------------------------------------------------------------

  /** Somebody is inside a call and nobody inside a call can take a step. */
  ghost predicate Stalled(s: State) {
    && (exists p :: 0 <= p < |s.procs| && s.procs[p] != Idle)
    && (forall p :: 0 <= p < |s.procs| ==> !CanAdvance(s, p))
  }

  /** A writer has writer_mutex and wants reader_mutex; a reader has
      reader_mutex and wants writer_mutex. */
  ghost predicate Crossed(s: State, w: nat, r: nat) {
    w < |s.procs| && r < |s.procs| && s.procs[w] == WWaitReader && s.procs[r] == RTakeWriter
  }

  predicate AtTheDoor(pc: Pc) {
    pc.Idle? || pc.REnterWait? || pc.WWaitWriter?
  }

  /** A crossed pair holds both semaphores, and the reader is the only one counted. */
  lemma CrossedHoldsBoth(s: State, w: nat, r: nat)
    requires Inv(s) && Crossed(s, w, r)
    ensures s.readerMutex == 0 && s.writerMutex == 0 && s.readerCount == 1
    ensures forall p :: 0 <= p < |s.procs| && p != w && p != r ==>
              HoldsReader(s.procs[p]) == 0 && WriterHolds(s.procs[p]) == 0 && Counted(s.procs[p]) == 0
  {
    OneOfThem(s, w);
    OneOfThem(s, r);
    assert Deciding(s, s.procs[r]);
    forall p | 0 <= p < |s.procs| && p != w && p != r
      ensures HoldsReader(s.procs[p]) == 0 && WriterHolds(s.procs[p]) == 0 && Counted(s.procs[p]) == 0
    {
      OneReaderHolder(s, p, r);
      OneReaderHolder(s, p, w);
      TotalOfTwo(Readers(s.procs), p, r);
    }
  }

  /** If everybody inside a call is blocked, two of them are crossed. */
  lemma BlockedMeansCrossed(s: State) returns (w: nat, r: nat)
    requires Inv(s) && Stalled(s)
    ensures Crossed(s, w, r)
  {
    if s.readerMutex > 0 {
      NobodyBlockedOutside(s);
    }
    r := TotalPositive(ReaderHolders(s.procs));
    assert !CanAdvance(s, r);
    assert Deciding(s, s.procs[r]);
    w := TotalPositive(WriterHolders(s.procs));
    assert !CanAdvance(s, w);
  }

  /** With reader_mutex free, somebody inside a call can go on. */
  lemma NobodyBlockedOutside(s: State)
    requires Inv(s) && s.readerMutex > 0 && exists p :: 0 <= p < |s.procs| && s.procs[p] != Idle
    ensures exists p :: 0 <= p < |s.procs| && CanAdvance(s, p)
  {
    var busy :| 0 <= busy < |s.procs| && s.procs[busy] != Idle;
    if forall p :: 0 <= p < |s.procs| ==> !CanAdvance(s, p) {
      assert !CanAdvance(s, busy);
      forall p | 0 <= p < |s.procs| ensures s.procs[p] == Idle || s.procs[p] == WWaitWriter {
        OneOfThem(s, p);
        assert !CanAdvance(s, p);
      }
      TotalBounds(Readers(s.procs), 0);
      TotalBounds(WriterHolders(s.procs), 0);
    }
  }

  ghost predicate SomeCrossed(s: State) {
    exists w: nat, r: nat :: Crossed(s, w, r)
  }

  /** With a crossed pair, everybody else is outside or at the door. */
  lemma OthersOutside(s: State, w: nat, r: nat)
    requires Inv(s) && Crossed(s, w, r)
    ensures forall p :: 0 <= p < |s.procs| && p != w && p != r ==> AtTheDoor(s.procs[p])
  {
    CrossedHoldsBoth(s, w, r);
  }

  /** Exactly when the lock stalls: nobody inside a call can move if and only if
      some pair is crossed. Then nobody reads or writes. */
  lemma StallExactly(s: State)
    requires Reachable(s)
    ensures Stalled(s) <==> SomeCrossed(s)
    ensures Stalled(s) ==> s.readerCount == 1
    ensures Stalled(s) ==> forall p :: 0 <= p < |s.procs| ==> s.procs[p] != Reading && s.procs[p] != Writing
  {
    ReachableInv(s);
    if Stalled(s) {
      var w, r := BlockedMeansCrossed(s);
    }
    if w: nat, r: nat :| Crossed(s, w, r) {
      CrossedHoldsBoth(s, w, r);
      OthersOutside(s, w, r);
      assert s.procs[w] != Idle;
    }
  }

  /** As long as no pair is crossed, somebody inside a call can move. */
  lemma MovesUnlessCrossed(s: State)
    requires Reachable(s) && (exists p :: 0 <= p < |s.procs| && s.procs[p] != Idle)
    requires !SomeCrossed(s)
    ensures exists p :: 0 <= p < |s.procs| && CanAdvance(s, p)
  {
    StallExactly(s);
  }

  lemma CrossedStays(s: State, l: Label, w: nat, r: nat)
    requires Inv(s) && Crossed(s, w, r) && Enabled(s, l)
    ensures Crossed(Apply(s, l), w, r)
  {
    CrossedHoldsBoth(s, w, r);
  }

  /** A crossed pair never comes apart: from then on nobody ever enters. */
  lemma {:induction false} CrossedForever(s: State, labels: seq<Label>, s': State, w: nat, r: nat)
    requires Inv(s) && Crossed(s, w, r) && Balanced(labels) && Leads(s, labels, s')
    ensures Crossed(s', w, r)
    ensures forall p :: 0 <= p < |s'.procs| ==> s'.procs[p] != Reading && s'.procs[p] != Writing
    decreases |labels|
  {
    if labels == [] {
      CrossedHoldsBoth(s, w, r);
    } else {
      StepKeepsInv(s, labels[0]);
      CrossedStays(s, labels[0], w, r);
      CrossedForever(Apply(s, labels[0]), labels[1..], s', w, r);
    }
  }

  // ----- The stall does happen -------------------------------------------------

  lemma {:induction false} LeadsConcat(s: State, a: seq<Label>, mid: State, b: seq<Label>, s': State)
    requires Leads(s, a, mid) && Leads(mid, b, s')
    ensures Leads(s, a + b, s')
    decreases |a|
  {
    if a == [] {
      assert a + b == b;
    } else {
      LeadsConcat(Apply(s, a[0]), a[1..], mid, b, s');
      assert (a + b)[1..] == a[1..] + b;
    }
  }

  /** One step more at the end. */
  lemma Then(s: State, a: seq<Label>, mid: State, l: Label, s': State)
    requires Leads(s, a, mid) && Enabled(mid, l) && Apply(mid, l) == s'
    ensures Leads(s, a + [l], s')
    ensures Balanced(a) && !l.ExitAgain? ==> Balanced(a + [l])
  {
    assert Leads(mid, [l], s') by {
      assert Leads(s', [l][1..], s');
    }
    LeadsConcat(s, a, mid, [l], s');
  }

  function Rest3(): (s: State)
    ensures Init(s)
  {
    State([Idle, Idle, Idle], 1, 1, 0, false)
  }

  lemma WriterTakesFirst() returns (labels: seq<Label>)
    ensures Balanced(labels) && Leads(Rest3(), labels, State([WWaitReader, Idle, Idle], 1, 0, 0, false))
  {
    var s0 := Rest3();
    var s1 := State([WWaitWriter, Idle, Idle], 1, 1, 0, false);
    var s2 := State([WWaitReader, Idle, Idle], 1, 0, 0, false);
    labels := [];
    Then(s0, labels, s0, BeginWrite(0), s1); labels := labels + [BeginWrite(0)];
    Then(s0, labels, s1, Advance(0), s2); labels := labels + [Advance(0)];
  }

  /** A writer takes its first semaphore; then a reader takes its own, counts
      itself in, and the two are crossed. */
  lemma StallHappens() returns (labels: seq<Label>, s: State)
    ensures Balanced(labels) && Leads(Rest3(), labels, s) && Reachable(s) && Stalled(s)
  {
    var s0 := Rest3();
    var s2 := State([WWaitReader, Idle, Idle], 1, 0, 0, false);
    var s3 := State([WWaitReader, REnterWait, Idle], 1, 0, 0, false);
    var s4 := State([WWaitReader, RCount, Idle], 0, 0, 0, false);
    var s5 := State([WWaitReader, RTestFirst, Idle], 0, 0, 1, false);
    s := State([WWaitReader, RTakeWriter, Idle], 0, 0, 1, false);
    labels := WriterTakesFirst();
    Then(s0, labels, s2, BeginRead(1), s3); labels := labels + [BeginRead(1)];
    Then(s0, labels, s3, Advance(1), s4); labels := labels + [Advance(1)];
    Then(s0, labels, s4, Advance(1), s5); labels := labels + [Advance(1)];
    Then(s0, labels, s5, Advance(1), s); labels := labels + [Advance(1)];
    assert s.procs[0] != Idle;
  }
}
