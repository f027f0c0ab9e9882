/** What a call is for: every balanced read reads once, every write writes once,
    and a free lock lets a caller in by its own steps. */
module RwLockCalls {
  import opened Counting
  import opened RwLock
  import opened RwLockProofs

  // ----- Every call is served once ---------------------------------------------

  /** How often process `p` comes to `at` along the labels. */
  ghost function Enters(s: State, labels: seq<Label>, p: nat, at: Pc): nat
    decreases |labels|
  {
    if labels == [] || !Enabled(s, labels[0]) then 0
    else
      var next := Apply(s, labels[0]);
      (if p < |s.procs| && p < |next.procs| && s.procs[p] != at && next.procs[p] == at then 1 else 0)
      + Enters(next, labels[1..], p, at)
  }

  ghost function Calls(labels: seq<Label>, call: Label): nat {
    if labels == [] then 0 else (if labels[0] == call then 1 else 0) + Calls(labels[1..], call)
  }

  /** A read call that has not read yet. */
  function OwesRead(pc: Pc): nat {
    if pc.REnterWait? || pc.RCount? || pc.RTestFirst? || pc.RTakeWriter? || pc.RRelease? then 1 else 0
  }

  function OwesWrite(pc: Pc): nat {
    if pc.WWaitWriter? || pc.WWaitReader? then 1 else 0
  }

  lemma OneStepServes(s: State, l: Label, p: nat)
    requires Enabled(s, l) && !l.ExitAgain? && p < |s.procs|
    ensures |Apply(s, l).procs| == |s.procs|
    ensures var pc, pc' := s.procs[p], Apply(s, l).procs[p];
            && (if pc != Reading && pc' == Reading then 1 else 0) + OwesRead(pc')
               == OwesRead(pc) + (if l == BeginRead(p) then 1 else 0)
            && (if pc != Writing && pc' == Writing then 1 else 0) + OwesWrite(pc')
               == OwesWrite(pc) + (if l == BeginWrite(p) then 1 else 0)
  {
    var pc' := Apply(s, l).procs[l.p];
    assert Apply(s, l).procs == s.procs[l.p := pc'];
  }

  /** Along every balanced path, in any interleaving: the reads begun are those
      that have read and the one that has still to, and so for the writes. */
  lemma {:induction false} CallsServed(s: State, labels: seq<Label>, s': State, p: nat)
    requires Balanced(labels) && Leads(s, labels, s') && p < |s.procs|
    ensures |s'.procs| == |s.procs|
    ensures Enters(s, labels, p, Reading) + OwesRead(s'.procs[p]) == OwesRead(s.procs[p]) + Calls(labels, BeginRead(p))
    ensures Enters(s, labels, p, Writing) + OwesWrite(s'.procs[p]) == OwesWrite(s.procs[p]) + Calls(labels, BeginWrite(p))
    decreases |labels|
  {
    if labels != [] {
      OneStepServes(s, labels[0], p);
      CallsServed(Apply(s, labels[0]), labels[1..], s', p);
    }
  }

  /** So between two moments at which a process is idle it has read as often as it
      called for reading, and written as often as it called for writing. */
  lemma ServedOnce(s: State, labels: seq<Label>, s': State, p: nat)
    requires Balanced(labels) && Leads(s, labels, s') && p < |s.procs| && s.procs[p] == Idle
    ensures |s'.procs| == |s.procs|
    ensures s'.procs[p] == Idle ==>
              && Enters(s, labels, p, Reading) == Calls(labels, BeginRead(p))
              && Enters(s, labels, p, Writing) == Calls(labels, BeginWrite(p))
  {
    CallsServed(s, labels, s', p);
  }

  // ----- A free lock lets callers in -------------------------------------------

  ghost predicate OwnSteps(labels: seq<Label>, p: nat) {
    forall k :: 0 <= k < |labels| ==> labels[k].p == p && !labels[k].ExitAgain?
  }

  /** Nobody owns writer_mutex as a writer. */
  ghost predicate NoWriterInside(s: State) {
    forall q :: 0 <= q < |s.procs| ==> WriterHolds(s.procs[q]) == 0
  }

  /** What the owner of nothing can tell of a lock whose reader_mutex is free. */
  lemma FreeLock(s: State)
    requires Inv(s) && s.readerMutex == 1
    ensures s.owned == (s.readerCount > 0) && s.readerCount >= 0
    ensures NoWriterInside(s) ==> s.writerMutex == if s.readerCount > 0 then 0 else 1
  {
    forall p | 0 <= p < |s.procs| ensures !Between(s.procs[p]) {
      OneOfThem(s, p);
    }
    if NoWriterInside(s) {
      TotalBounds(WriterHolders(s.procs), 0);
    }
  }

  lemma FirstReaderEnters(s: State, p: nat) returns (labels: seq<Label>, s': State)
    requires p < |s.procs| && s.procs[p] == Idle && s.readerMutex == 1 && s.writerMutex == 1 && s.readerCount == 0
    ensures OwnSteps(labels, p) && |labels| == 6 && Leads(s, labels, s') && s'.procs == s.procs[p := Reading]
  {
    var s1 := Apply(s, BeginRead(p));
    var s2 := s.(procs := s.procs[p := RCount], readerMutex := 0);
    var s3 := s.(procs := s.procs[p := RTestFirst], readerMutex := 0, readerCount := 1);
    var s4 := s3.(procs := s.procs[p := RTakeWriter]);
    var s5 := s3.(procs := s.procs[p := RRelease], writerMutex := 0, owned := true);
    s' := s5.(procs := s.procs[p := Reading], readerMutex := 1);
    labels := [];
    Then(s, labels, s, BeginRead(p), s1); labels := labels + [BeginRead(p)];
    Then(s, labels, s1, Advance(p), s2); labels := labels + [Advance(p)];
    Then(s, labels, s2, Advance(p), s3); labels := labels + [Advance(p)];
    Then(s, labels, s3, Advance(p), s4); labels := labels + [Advance(p)];
    Then(s, labels, s4, Advance(p), s5); labels := labels + [Advance(p)];
    Then(s, labels, s5, Advance(p), s'); labels := labels + [Advance(p)];
  }

  lemma FurtherReaderEnters(s: State, p: nat) returns (labels: seq<Label>, s': State)
    requires p < |s.procs| && s.procs[p] == Idle && s.readerMutex == 1 && s.readerCount > 0
    ensures OwnSteps(labels, p) && |labels| == 5 && Leads(s, labels, s') && s'.procs == s.procs[p := Reading]
  {
    var s1 := Apply(s, BeginRead(p));
    var s2 := s.(procs := s.procs[p := RCount], readerMutex := 0);
    var s3 := s.(procs := s.procs[p := RTestFirst], readerMutex := 0, readerCount := s.readerCount + 1);
    var s4 := s3.(procs := s.procs[p := RRelease]);
    s' := s4.(procs := s.procs[p := Reading], readerMutex := 1);
    labels := [];
    Then(s, labels, s, BeginRead(p), s1); labels := labels + [BeginRead(p)];
    Then(s, labels, s1, Advance(p), s2); labels := labels + [Advance(p)];
    Then(s, labels, s2, Advance(p), s3); labels := labels + [Advance(p)];
    Then(s, labels, s3, Advance(p), s4); labels := labels + [Advance(p)];
    Then(s, labels, s4, Advance(p), s'); labels := labels + [Advance(p)];
  }

  /** With reader_mutex free and no writer inside, a reader gets in by its own
      steps, also beside others that read. */
  lemma ReaderGetsIn(s: State, p: nat) returns (labels: seq<Label>, s': State)
    requires Reachable(s) && p < |s.procs| && s.procs[p] == Idle && s.readerMutex == 1 && NoWriterInside(s)
    ensures OwnSteps(labels, p) && |labels| <= 6 && Leads(s, labels, s') && s'.procs == s.procs[p := Reading]
  {
    ReachableInv(s);
    FreeLock(s);
    if s.readerCount == 0 {
      labels, s' := FirstReaderEnters(s, p);
    } else {
      labels, s' := FurtherReaderEnters(s, p);
    }
  }

  /** With both semaphores free, a writer does. */
  lemma WriterGetsIn(s: State, p: nat) returns (labels: seq<Label>, s': State)
    requires p < |s.procs| && s.procs[p] == Idle && s.readerMutex == 1 && s.writerMutex == 1
    ensures OwnSteps(labels, p) && |labels| == 3 && Leads(s, labels, s') && s'.procs == s.procs[p := Writing]
  {
    var s1 := Apply(s, BeginWrite(p));
    var s2 := s.(procs := s.procs[p := WWaitReader], writerMutex := 0);
    s' := s.(procs := s.procs[p := Writing], writerMutex := 0, readerMutex := 0);
    labels := [];
    Then(s, labels, s, BeginWrite(p), s1); labels := labels + [BeginWrite(p)];
    Then(s, labels, s1, Advance(p), s2); labels := labels + [Advance(p)];
    Then(s, labels, s2, Advance(p), s'); labels := labels + [Advance(p)];
  }

  /** As long as somebody reads, no writer is inside, and the first of the two
      semaphores a writer asks for stays taken. */
  lemma ReadersKeepWritersOut(s: State, r: nat)
    requires Reachable(s) && r < |s.procs| && s.procs[r] == Reading
    ensures s.writerMutex == 0 && NoWriterInside(s)
  {
    ReachableInv(s);
    OneOfThem(s, r);
    if s.readerMutex == 1 {
      FreeLock(s);
    } else {
      var h := TotalPositive(ReaderHolders(s.procs));
      assert Deciding(s, s.procs[h]);
      if s.procs[h].RTestFirst? || s.procs[h].RTakeWriter? {
        TotalOfTwo(Readers(s.procs), h, r);
      }
      if !Between(s.procs[h]) {
        AgreedWhileHeld(s, h);
      }
    }
    forall q | 0 <= q < |s.procs| ensures WriterHolds(s.procs[q]) == 0 {
      OneOfThem(s, q);
    }
  }
}
