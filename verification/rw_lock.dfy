/** The reader/writer lock kept for every file: two semaphores and a count.
    Every semaphore operation and every access to the count is a step of its
    own, taken by any of any number of processes. */
module RwLock {

  /** Where a process is; the comment gives what its next step does. */
  datatype Pc =
    | Idle
    | REnterWait     // sem_wait(reader_mutex)
    | RCount         // reader_count++
    | RTestFirst     // reader_count == 1 ?
    | RTakeWriter    // sem_wait(writer_mutex)
    | RRelease       // sem_post(reader_mutex)
    | Reading        // the critical section of a reader
    | RExitWait      // sem_wait(reader_mutex)
    | RUncount       // reader_count--
    | RTestLast      // reader_count == 0 ?
    | RGiveWriter    // sem_post(writer_mutex)
    | RExitRelease   // sem_post(reader_mutex)
    | WWaitWriter    // sem_wait(writer_mutex)
    | WWaitReader    // sem_wait(reader_mutex)
    | Writing        // the critical section of a writer
    | WPostReader    // sem_post(reader_mutex)
    | WPostWriter    // sem_post(writer_mutex)

  /** `owned` records whether the readers as a group have taken writer_mutex
      and not given it back. */
  datatype State = State(procs: seq<Pc>, readerMutex: nat, writerMutex: nat, readerCount: int, owned: bool)

  predicate Init(s: State) {
    && (forall p :: 0 <= p < |s.procs| ==> s.procs[p] == Idle)
    && s.readerMutex == 1 && s.writerMutex == 1 && s.readerCount == 0 && !s.owned
  }

  /** A process starts a call, or takes its next step inside one. `ExitAgain`
      is a second `reader_exit` after the first: what the line lookup of readF
      does when it finds its line. */
  datatype Label = BeginRead(p: nat) | BeginWrite(p: nat) | Advance(p: nat) | ExitAgain(p: nat)

  predicate NeedsReaderMutex(pc: Pc) {
    pc.REnterWait? || pc.RExitWait? || pc.WWaitReader?
  }

  predicate NeedsWriterMutex(pc: Pc) {
    pc.RTakeWriter? || pc.WWaitWriter?
  }

  predicate CanAdvance(s: State, p: nat)
    requires p < |s.procs|
  {
    && s.procs[p] != Idle
    && (NeedsReaderMutex(s.procs[p]) ==> s.readerMutex > 0)
    && (NeedsWriterMutex(s.procs[p]) ==> s.writerMutex > 0)
  }

  predicate Enabled(s: State, l: Label) {
    && l.p < |s.procs|
    && if l.Advance? then CanAdvance(s, l.p) else s.procs[l.p] == Idle
  }

  function Apply(s: State, l: Label): State
    requires Enabled(s, l)
  {
    match l
    case BeginRead(p) => s.(procs := s.procs[p := REnterWait])
    case BeginWrite(p) => s.(procs := s.procs[p := WWaitWriter])
    case ExitAgain(p) => s.(procs := s.procs[p := RExitWait])
    case Advance(p) => Step(s, p)
  }

  function Step(s: State, p: nat): State
    requires p < |s.procs| && CanAdvance(s, p)
  {
    match s.procs[p]
    case REnterWait => s.(procs := s.procs[p := RCount], readerMutex := s.readerMutex - 1)
    case RCount => s.(procs := s.procs[p := RTestFirst], readerCount := s.readerCount + 1)
    case RTestFirst => s.(procs := s.procs[p := if s.readerCount == 1 then RTakeWriter else RRelease])
    case RTakeWriter => s.(procs := s.procs[p := RRelease], writerMutex := s.writerMutex - 1, owned := true)
    case RRelease => s.(procs := s.procs[p := Reading], readerMutex := s.readerMutex + 1)
    case Reading => s.(procs := s.procs[p := RExitWait])
    case RExitWait => s.(procs := s.procs[p := RUncount], readerMutex := s.readerMutex - 1)
    case RUncount => s.(procs := s.procs[p := RTestLast], readerCount := s.readerCount - 1)
    case RTestLast => s.(procs := s.procs[p := if s.readerCount == 0 then RGiveWriter else RExitRelease])
    case RGiveWriter => s.(procs := s.procs[p := RExitRelease], writerMutex := s.writerMutex + 1, owned := false)
    case RExitRelease => s.(procs := s.procs[p := Idle], readerMutex := s.readerMutex + 1)
    case WWaitWriter => s.(procs := s.procs[p := WWaitReader], writerMutex := s.writerMutex - 1)
    case WWaitReader => s.(procs := s.procs[p := Writing], readerMutex := s.readerMutex - 1)
    case Writing => s.(procs := s.procs[p := WPostReader])
    case WPostReader => s.(procs := s.procs[p := WPostWriter], readerMutex := s.readerMutex + 1)
    case WPostWriter => s.(procs := s.procs[p := Idle], writerMutex := s.writerMutex + 1)
  }

  /** The state after a sequence of labels, each enabled in its turn. */
  ghost predicate Leads(s: State, labels: seq<Label>, s': State)
    decreases |labels|
  {
    if labels == [] then s == s'
    else Enabled(s, labels[0]) && Leads(Apply(s, labels[0]), labels[1..], s')
  }

  /** Every process that entered leaves exactly once. */
  ghost predicate Balanced(labels: seq<Label>) {
    forall k :: 0 <= k < |labels| ==> !labels[k].ExitAgain?
  }

  /** Reached from rest by balanced calls, in any interleaving. */
  ghost predicate Reachable(s: State) {
    exists s0: State, labels :: Init(s0) && Balanced(labels) && Leads(s0, labels, s)
  }
}
