/** What a second exit does to the lock, exactly; and when the lock can still
    come back to rest. */
module RwLockExits {
  import opened Counting
  import opened RwLock
  import opened RwLockProofs

  /** A reader that will ask for writer_mutex before it gives up reader_mutex,
      when it is the first one counted. */
  predicate GoesForWriter(pc: Pc) {
    pc.RCount? || pc.RTestFirst? || pc.RTakeWriter?
  }

  ghost predicate DoomedBy(s: State, w: nat, r: nat) {
    w < |s.procs| && r < |s.procs| && s.procs[w] == WWaitReader && GoesForWriter(s.procs[r])
  }

  /** Two processes are crossed or on their way to be. */
  ghost predicate Doomed(s: State) {
    exists w: nat, r: nat :: DoomedBy(s, w, r)
  }

  ghost predicate SomebodyInside(s: State) {
    exists p :: 0 <= p < |s.procs| && s.procs[p] != Idle
  }

  // ----- Without new calls -----------------------------------------------------

  ghost predicate AdvancesOnly(labels: seq<Label>) {
    forall k :: 0 <= k < |labels| ==> labels[k].Advance?
  }

  /** How many steps are left of a call. */
  function Rank(pc: Pc): nat {
    match pc
    case Idle => 0
    case REnterWait => 11
    case RCount => 10
    case RTestFirst => 9
    case RTakeWriter => 8
    case RRelease => 7
    case Reading => 6
    case RExitWait => 5
    case RUncount => 4
    case RTestLast => 3
    case RGiveWriter => 2
    case RExitRelease => 1
    case WWaitWriter => 5
    case WWaitReader => 4
    case Writing => 3
    case WPostReader => 2
    case WPostWriter => 1
  }

  ghost function Ranks(ps: seq<Pc>): seq<nat> {
    seq(|ps|, p requires 0 <= p < |ps| => Rank(ps[p]))
  }

  lemma RankFalls(s: State, p: nat)
    requires p < |s.procs| && CanAdvance(s, p)
    ensures Total(Ranks(Step(s, p).procs)) < Total(Ranks(s.procs))
  {
    var pc := Step(s, p).procs[p];
    TotalUpdate(Ranks(s.procs), p, Rank(pc));
    assert Ranks(s.procs[p := pc]) == Ranks(s.procs)[p := Rank(pc)];
    assert Step(s, p).procs == s.procs[p := pc];
  }

  /** Calls that have begun take a bounded number of steps; when none of them can
      go on, the lock is at rest or a pair is crossed. */
  lemma {:induction false} CallsEndOrCross(s: State, labels: seq<Label>, s': State)
    requires Inv(s) && AdvancesOnly(labels) && Leads(s, labels, s')
    ensures |labels| + Total(Ranks(s'.procs)) <= Total(Ranks(s.procs))
    ensures (forall p :: 0 <= p < |s'.procs| ==> !CanAdvance(s', p)) ==> Init(s') || SomeCrossed(s')
    decreases |labels|
  {
    if labels == [] {
      if SomebodyInside(s) {
        if Stalled(s) {
          var w, r := BlockedMeansCrossed(s);
        }
      } else {
        RestIsInit(s);
      }
    } else {
      RankFalls(s, labels[0].p);
      StepKeepsInv(s, labels[0]);
      CallsEndOrCross(Apply(s, labels[0]), labels[1..], s');
    }
  }

  lemma RestIsInit(s: State)
    requires Inv(s) && !SomebodyInside(s)
    ensures Init(s)
  {
    TotalBounds(ReaderHolders(s.procs), 0);
    TotalBounds(WriterHolders(s.procs), 0);
    TotalBounds(Readers(s.procs), 0);
  }

  // ----- Coming back to rest ---------------------------------------------------

  /** Only the process that moves can become one that dooms the lock. */
  lemma StillNotDoomed(s: State, p: nat)
    requires p < |s.procs| && CanAdvance(s, p) && !Doomed(s)
    requires var pc := Step(s, p).procs[p];
             && (pc == WWaitReader ==> forall r :: 0 <= r < |s.procs| && r != p ==> !GoesForWriter(s.procs[r]))
             && (GoesForWriter(pc) && !GoesForWriter(s.procs[p]) ==>
                   forall w :: 0 <= w < |s.procs| && w != p ==> s.procs[w] != WWaitReader)
    ensures !Doomed(Step(s, p))
  {
    var s' := Step(s, p);
    assert s'.procs == s.procs[p := s'.procs[p]];
    if w: nat, r: nat :| DoomedBy(s', w, r) {
      assert w != r;
      if w != p {
        assert s.procs[w] == WWaitReader;
      }
      if r != p {
        assert s.procs[r] == s'.procs[r];
      }
      assert DoomedBy(s, w, r);
    }
  }

  /** With reader_mutex taken, its owner can move, or waits for a writer on the
      way out. */
  lemma MoveOfOwner(s: State) returns (p: nat)
    requires Inv(s) && !Doomed(s) && s.readerMutex == 0
    ensures p < |s.procs| && CanAdvance(s, p) && !Doomed(Step(s, p))
  {
    p := TotalPositive(ReaderHolders(s.procs));
    if !CanAdvance(s, p) {
      var reader := p;
      assert Deciding(s, s.procs[reader]);
      p := TotalPositive(WriterHolders(s.procs));
      assert !DoomedBy(s, p, reader);
      OneReaderHolder(s, p, reader);
    }
    StillNotDoomed(s, p);
  }

  /** With reader_mutex free, a writer that waits for it goes first. */
  lemma MoveOfWriter(s: State, w: nat)
    requires Inv(s) && !Doomed(s) && s.readerMutex > 0 && w < |s.procs| && s.procs[w] == WWaitReader
    ensures CanAdvance(s, w) && !Doomed(Step(s, w))
  {
    StillNotDoomed(s, w);
  }

  lemma MoveOfAny(s: State) returns (p: nat)
    requires Inv(s) && !Doomed(s) && s.readerMutex > 0 && SomebodyInside(s)
    requires forall w :: 0 <= w < |s.procs| ==> s.procs[w] != WWaitReader
    ensures p < |s.procs| && CanAdvance(s, p) && !Doomed(Step(s, p))
  {
    NobodyBlockedOutside(s);
    p :| 0 <= p < |s.procs| && CanAdvance(s, p);
    forall r | 0 <= r < |s.procs| ensures !GoesForWriter(s.procs[r]) {
      OneOfThem(s, r);
    }
    StillNotDoomed(s, p);
  }

  lemma NextMove(s: State) returns (p: nat)
    requires Inv(s) && !Doomed(s) && SomebodyInside(s)
    ensures p < |s.procs| && CanAdvance(s, p) && !Doomed(Step(s, p))
  {
    if s.readerMutex == 0 {
      p := MoveOfOwner(s);
    } else if w :| 0 <= w < |s.procs| && s.procs[w] == WWaitReader {
      p := w;
      MoveOfWriter(s, w);
    } else {
      p := MoveOfAny(s);
    }
  }

  /** Unless it is doomed, the lock can be brought to rest without new calls. */
  lemma {:induction false} ComesToRest(s: State) returns (labels: seq<Label>, s': State)
    requires Inv(s) && !Doomed(s)
    ensures AdvancesOnly(labels) && Leads(s, labels, s') && Init(s')
    decreases Total(Ranks(s.procs))
  {
    if SomebodyInside(s) {
      var p := NextMove(s);
      RankFalls(s, p);
      StepKeepsInv(s, Advance(p));
      var rest;
      rest, s' := ComesToRest(Step(s, p));
      labels := [Advance(p)] + rest;
      assert labels[1..] == rest;
    } else {
      RestIsInit(s);
      labels, s' := [], s;
    }
  }

  // ----- A doomed lock ---------------------------------------------------------

  /** What a doomed lock looks like: both semaphores are taken for good, nobody
      is inside, and everybody else waits or is outside. */
  ghost predicate HopelessBy(s: State, w: nat, r: nat) {
    && w < |s.procs| && r < |s.procs| && w != r
    && s.readerMutex == 0 && s.writerMutex == 0
    && s.procs[w] == WWaitReader
    && GoesForWriter(s.procs[r])
    && (s.procs[r].RCount? ==> s.readerCount == 0)
    && (s.procs[r].RTestFirst? ==> s.readerCount == 1)
    && forall p :: 0 <= p < |s.procs| && p != w && p != r ==> AtTheDoor(s.procs[p]) || s.procs[p] == RExitWait
  }

  lemma DoomedIsHopeless(s: State, w: nat, r: nat)
    requires Inv(s) && DoomedBy(s, w, r)
    ensures HopelessBy(s, w, r)
  {
    OneOfThem(s, w);
    OneOfThem(s, r);
    assert Deciding(s, s.procs[r]);
    if s.procs[r].RCount? {
      AgreedWhileHeld(s, r);
    }
    forall p | 0 <= p < |s.procs| && p != w && p != r ensures AtTheDoor(s.procs[p]) {
      OneOfThem(s, p);
      OneReaderHolder(s, p, r);
      OneReaderHolder(s, p, w);
      TotalOfTwo(Readers(s.procs), p, r);
    }
  }

  lemma HopelessStep(s: State, l: Label, w: nat, r: nat)
    requires HopelessBy(s, w, r) && Enabled(s, l)
    ensures HopelessBy(Apply(s, l), w, r)
  {
  }

  /** A doomed lock stays so whatever is called, second exits included: nobody
      ever enters, and it never comes to rest. */
  lemma {:induction false} HopelessForever(s: State, labels: seq<Label>, s': State, w: nat, r: nat)
    requires HopelessBy(s, w, r) && Leads(s, labels, s')
    ensures HopelessBy(s', w, r)
    ensures forall p :: 0 <= p < |s'.procs| ==> s'.procs[p] != Reading && s'.procs[p] != Writing
    decreases |labels|
  {
    if labels != [] {
      HopelessStep(s, labels[0], w, r);
      HopelessForever(Apply(s, labels[0]), labels[1..], s', w, r);
    }
  }

  ghost predicate CanRest(s: State) {
    exists labels, s' :: Balanced(labels) && Leads(s, labels, s') && Init(s')
  }

  /** The lock can come back to rest if and only if it is not doomed. */
  lemma RestExactly(s: State)
    requires Reachable(s)
    ensures CanRest(s) <==> !Doomed(s)
  {
    ReachableInv(s);
    if Doomed(s) {
      var w: nat, r: nat :| DoomedBy(s, w, r);
      DoomedIsHopeless(s, w, r);
      forall labels, s' | Leads(s, labels, s') ensures !Init(s') {
        HopelessForever(s, labels, s', w, r);
        assert s'.procs[w] != Idle;
      }
    } else {
      var labels, s' := ComesToRest(s);
      assert Balanced(labels);
    }
  }

  // ----- A second exit ---------------------------------------------------------

  /** A step of another process does not depend on one that waits in its second exit. */
  lemma StepBeside(s: State, q: nat, p: nat)
    requires p < |s.procs| && s.procs[p] == Idle && q < |s.procs| && CanAdvance(s, q)
    ensures p != q && CanAdvance(Apply(s, ExitAgain(p)), q)
    ensures |Step(s, q).procs| == |s.procs| && Step(s, q).procs[p] == Idle
    ensures Step(Apply(s, ExitAgain(p)), q) == Apply(Step(s, q), ExitAgain(p))
  {
    var waiting, pc := Apply(s, ExitAgain(p)), Step(s, q).procs[q];
    assert Step(s, q).procs == s.procs[q := pc];
    assert waiting.procs[q] == s.procs[q] && Step(waiting, q).procs == waiting.procs[q := pc];
    assert s.procs[p := RExitWait][q := pc] == s.procs[q := pc][p := RExitWait];
  }

  lemma {:induction false} BesideSecondExit(s: State, labels: seq<Label>, s': State, p: nat)
    requires p < |s.procs| && s.procs[p] == Idle && AdvancesOnly(labels) && Leads(s, labels, s')
    ensures |s'.procs| == |s.procs| && s'.procs[p] == Idle
    ensures Leads(Apply(s, ExitAgain(p)), labels, Apply(s', ExitAgain(p)))
    decreases |labels|
  {
    if labels != [] {
      var l := labels[0];
      assert l.Advance?;
      StepBeside(s, l.p, p);
      BesideSecondExit(Apply(s, l), labels[1..], s', p);
    }
  }

  /** At rest, a second exit leaves the count at -1 with both semaphores free. */
  lemma SecondExit(s: State, p: nat) returns (labels: seq<Label>, s': State)
    requires Init(s) && p < |s.procs|
    ensures Balanced(labels) && Leads(Apply(s, ExitAgain(p)), labels, s')
    ensures s' == s.(readerCount := -1)
  {
    var s0 := Apply(s, ExitAgain(p));
    var s1, s2 := Apply(s0, Advance(p)), s0.(procs := s.procs[p := RTestLast], readerMutex := 0, readerCount := -1);
    var s3 := s2.(procs := s.procs[p := RExitRelease]);
    s' := s.(readerCount := -1);
    labels := [];
    Then(s0, labels, s0, Advance(p), s1); labels := labels + [Advance(p)];
    Then(s0, labels, s1, Advance(p), s2); labels := labels + [Advance(p)];
    Then(s0, labels, s2, Advance(p), s3); labels := labels + [Advance(p)];
    assert s'.procs == s3.procs[p := Idle];
    Then(s0, labels, s3, Advance(p), s'); labels := labels + [Advance(p)];
  }

  /** From there a reader counts itself from -1 to 0 and enters without taking
      writer_mutex. */
  lemma ReaderEnters(s: State, p: nat) returns (labels: seq<Label>, s': State)
    requires p < |s.procs| && s.procs[p] == Idle && s.readerMutex == 1 && s.readerCount == -1
    ensures Balanced(labels) && Leads(s, labels, s')
    ensures s' == s.(procs := s.procs[p := Reading], readerCount := 0)
  {
    var s1 := Apply(s, BeginRead(p));
    var s2 := s.(procs := s.procs[p := RCount], readerMutex := 0);
    var s3 := s.(procs := s.procs[p := RTestFirst], readerMutex := 0, readerCount := 0);
    var s4 := s3.(procs := s.procs[p := RRelease]);
    s' := s.(procs := s.procs[p := Reading], readerCount := 0);
    labels := [];
    Then(s, labels, s, BeginRead(p), s1); labels := labels + [BeginRead(p)];
    Then(s, labels, s1, Advance(p), s2); labels := labels + [Advance(p)];
    Then(s, labels, s2, Advance(p), s3); labels := labels + [Advance(p)];
    Then(s, labels, s3, Advance(p), s4); labels := labels + [Advance(p)];
    Then(s, labels, s4, Advance(p), s'); labels := labels + [Advance(p)];
  }

  lemma WriterEnters(s: State, q: nat) returns (labels: seq<Label>, s': State)
    requires q < |s.procs| && s.procs[q] == Idle && s.readerMutex == 1 && s.writerMutex == 1
    ensures Balanced(labels) && Leads(s, labels, s')
    ensures s'.procs == s.procs[q := Writing]
  {
    var s1 := Apply(s, BeginWrite(q));
    var s2 := s.(procs := s.procs[q := WWaitReader], writerMutex := 0);
    s' := s.(procs := s.procs[q := Writing], writerMutex := 0, readerMutex := 0);
    labels := [];
    Then(s, labels, s, BeginWrite(q), s1); labels := labels + [BeginWrite(q)];
    Then(s, labels, s1, Advance(q), s2); labels := labels + [Advance(q)];
    Then(s, labels, s2, Advance(q), s'); labels := labels + [Advance(q)];
  }

  lemma BalancedConcat(a: seq<Label>, b: seq<Label>)
    requires Balanced(a) && Balanced(b)
    ensures Balanced(a + b)
  {
    forall k | 0 <= k < |a + b| ensures !(a + b)[k].ExitAgain? {
      assert (a + b)[k] == if k < |a| then a[k] else b[k - |a|];
    }
  }

  /** One after the other. */
  lemma InTurn(s: State, a: seq<Label>, mid: State, b: seq<Label>, s': State)
    requires Leads(s, a, mid) && Leads(mid, b, s') && Balanced(a) && Balanced(b)
    ensures Leads(s, a + b, s') && Balanced(a + b)
  {
    LeadsConcat(s, a, mid, b, s');
    BalancedConcat(a, b);
  }

  /** From any state that is not doomed, a process that exits a second time can
      find itself reading while any other process writes. */
  lemma DoubleExitBreaksExclusion(s: State, p: nat, q: nat) returns (labels: seq<Label>, s': State)
    requires Reachable(s) && !Doomed(s)
    requires p < |s.procs| && q < |s.procs| && p != q && s.procs[p] == Idle
    ensures Balanced(labels) && Leads(Apply(s, ExitAgain(p)), labels, s')
    ensures p < |s'.procs| && q < |s'.procs| && s'.procs[p] == Reading && s'.procs[q] == Writing
  {
    ReachableInv(s);
    var start := Apply(s, ExitAgain(p));
    var toRest, rest := ComesToRest(s);
    BesideSecondExit(s, toRest, rest, p);
    var out, broken := SecondExit(rest, p);
    InTurn(start, toRest, Apply(rest, ExitAgain(p)), out, broken);
    var reading, inside := ReaderEnters(broken, p);
    InTurn(start, toRest + out, broken, reading, inside);
    var writing;
    writing, s' := WriterEnters(inside, q);
    InTurn(start, toRest + out + reading, inside, writing, s');
    labels := toRest + out + reading + writing;
  }

  /** A writer inside is alone inside. */
  ghost predicate Excludes(s: State) {
    forall p, q :: 0 <= p < |s.procs| && 0 <= q < |s.procs| && p != q && s.procs[p] == Writing ==>
      s.procs[q] != Writing && s.procs[q] != Reading
  }

  /** In every continuation with balanced calls, in any interleaving. */
  ghost predicate AlwaysExcludes(s: State) {
    forall labels, s' :: Balanced(labels) && Leads(s, labels, s') ==> Excludes(s')
  }

  lemma BalancedAlwaysExcludes(s: State)
    requires Reachable(s)
    ensures AlwaysExcludes(s)
  {
    forall labels, s' | Balanced(labels) && Leads(s, labels, s') ensures Excludes(s') {
      var s0: State, before :| Init(s0) && Balanced(before) && Leads(s0, before, s);
      InTurn(s0, before, s, labels, s');
      assert Reachable(s');
      forall p, q | 0 <= p < |s'.procs| && 0 <= q < |s'.procs| && p != q && s'.procs[p] == Writing
        ensures s'.procs[q] != Writing && s'.procs[q] != Reading
      {
        MutualExclusion(s', p, q);
      }
    }
  }

  lemma DoomedAlwaysExcludes(s: State, p: nat)
    requires Reachable(s) && Doomed(s) && p < |s.procs| && s.procs[p] == Idle
    ensures AlwaysExcludes(Apply(s, ExitAgain(p)))
  {
    ReachableInv(s);
    var w: nat, r: nat :| DoomedBy(s, w, r);
    DoomedIsHopeless(s, w, r);
    HopelessStep(s, ExitAgain(p), w, r);
    forall labels, s' | Leads(Apply(s, ExitAgain(p)), labels, s') ensures Excludes(s') {
      HopelessForever(Apply(s, ExitAgain(p)), labels, s', w, r);
    }
  }

  /** Exactly when a step loses exclusion: with two or more processes, writers
      exclude everybody in all that can follow if and only if the step is not a
      second exit, or the lock is doomed and lets nobody in again. */
  lemma ExclusionExactly(s: State, l: Label)
    requires Reachable(s) && |s.procs| >= 2 && Enabled(s, l)
    ensures AlwaysExcludes(Apply(s, l)) <==> !l.ExitAgain? || Doomed(s)
  {
    if !l.ExitAgain? {
      var s0: State, before :| Init(s0) && Balanced(before) && Leads(s0, before, s);
      Then(s0, before, s, l, Apply(s, l));
      assert Reachable(Apply(s, l));
      BalancedAlwaysExcludes(Apply(s, l));
    } else if Doomed(s) {
      DoomedAlwaysExcludes(s, l.p);
    } else {
      var q := if l.p == 0 then 1 else 0;
      var labels, s' := DoubleExitBreaksExclusion(s, l.p, q);
      assert !Excludes(s');
    }
  }

  // ----- Calls of one kind -----------------------------------------------------

  predicate WriterPc(pc: Pc) {
    pc.WWaitWriter? || pc.WWaitReader? || pc.Writing? || pc.WPostReader? || pc.WPostWriter?
  }

  ghost predicate NoWriters(s: State) {
    forall p :: 0 <= p < |s.procs| ==> !WriterPc(s.procs[p])
  }

  ghost predicate NoReaders(s: State) {
    forall p :: 0 <= p < |s.procs| ==> s.procs[p] == Idle || WriterPc(s.procs[p])
  }

  lemma {:induction false} OneKindStays(s: State, labels: seq<Label>, s': State)
    requires Leads(s, labels, s') && Balanced(labels)
    ensures NoWriters(s) && (forall k :: 0 <= k < |labels| ==> !labels[k].BeginWrite?) ==> NoWriters(s')
    ensures NoReaders(s) && (forall k :: 0 <= k < |labels| ==> !labels[k].BeginRead?) ==> NoReaders(s')
    decreases |labels|
  {
    if labels != [] {
      OneKindStep(s, labels[0]);
      OneKindStays(Apply(s, labels[0]), labels[1..], s');
    }
  }

  lemma OneKindStep(s: State, l: Label)
    requires Enabled(s, l) && !l.ExitAgain?
    ensures NoWriters(s) && !l.BeginWrite? ==> NoWriters(Apply(s, l))
    ensures NoReaders(s) && !l.BeginRead? ==> NoReaders(Apply(s, l))
  {
    var pc := Apply(s, l).procs[l.p];
    assert Apply(s, l).procs == s.procs[l.p := pc];
    if l.Advance? {
      assert WriterPc(pc) ==> WriterPc(s.procs[l.p]);
      assert pc != Idle && !WriterPc(pc) ==> !WriterPc(s.procs[l.p]);
    }
  }

  /** Only readers, or only writers, never stall. */
  lemma OneKindNeverStalls(s0: State, labels: seq<Label>, s: State)
    requires Init(s0) && Balanced(labels) && Leads(s0, labels, s)
    requires || (forall k :: 0 <= k < |labels| ==> !labels[k].BeginWrite?)
             || (forall k :: 0 <= k < |labels| ==> !labels[k].BeginRead?)
    ensures !Stalled(s)
  {
    assert Reachable(s);
    StallExactly(s);
    OneKindStays(s0, labels, s);
  }
}
