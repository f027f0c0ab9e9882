/** Vocabulary shared by the traversal and the copier: a file system, and the
    things a traversal asks for, in order. */
module CopyPlan {

  newtype byte = x: int | 0 <= x < 256

  type Bytes = seq<byte>

  datatype FileSystem = FileSystem(dirs: set<string>, files: map<string, Bytes>)

  /** `MkDir` creates a directory unless it exists; `Copy` opens both files and
      hands the pair to the workers. */
  datatype Action = MkDir(path: string) | Copy(src: string, dst: string, name: string)

  /** The copies among the first `n` actions, in order. */
  ghost function CopyJobs(plan: seq<Action>, n: nat): seq<nat>
    requires n <= |plan|
  {
    if n == 0 then []
    else if plan[n - 1].Copy? then CopyJobs(plan, n - 1) + [n - 1]
    else CopyJobs(plan, n - 1)
  }

  /** They are exactly the copies, each once, in plan order. */
  lemma {:induction false} CopyJobsExact(plan: seq<Action>, n: nat, jobs: seq<nat>)
    requires n <= |plan| && jobs == CopyJobs(plan, n)
    ensures forall k :: 0 <= k < |jobs| ==> jobs[k] < n && plan[jobs[k]].Copy?
    ensures forall j, k :: 0 <= j < k < |jobs| ==> jobs[j] < jobs[k]
    ensures forall i :: 0 <= i < n && plan[i].Copy? ==> i in jobs
  {
    if n > 0 {
      var before := CopyJobs(plan, n - 1);
      CopyJobsExact(plan, n - 1, before);
      if plan[n - 1].Copy? {
        assert jobs == before + [n - 1] && jobs[|before|] == n - 1;
        forall i | 0 <= i < n && plan[i].Copy? ensures i in jobs {
          assert i in before || i == n - 1;
        }
      }
    }
  }

  /** The destination files named by the first `n` actions. */
  ghost function DstPaths(plan: seq<Action>, n: nat): set<string>
    requires n <= |plan|
  {
    set i | 0 <= i < n && plan[i].Copy? :: plan[i].dst
  }

  ghost function SrcPaths(plan: seq<Action>): set<string> {
    set i | 0 <= i < |plan| && plan[i].Copy? :: plan[i].src
  }

  /** The directories named by the first `n` actions. */
  ghost function DirPaths(plan: seq<Action>, n: nat): set<string>
    requires n <= |plan|
  {
    set i | 0 <= i < n && plan[i].MkDir? :: plan[i].path
  }

  /** Every source exists, no two copies share a file, and no copy writes to a
      file that another one reads. */
  ghost predicate Sound(plan: seq<Action>, fs: FileSystem) {
    && (forall i :: 0 <= i < |plan| && plan[i].Copy? ==> plan[i].src in fs.files)
    && (forall i, j :: 0 <= i < |plan| && plan[i].Copy? && 0 <= j < |plan| && plan[j].Copy?
          ==> plan[i].src != plan[j].dst)
    && (forall i, j :: 0 <= i < j < |plan| && plan[i].Copy? && plan[j].Copy?
          ==> plan[i].src != plan[j].src && plan[i].dst != plan[j].dst)
  }
}
