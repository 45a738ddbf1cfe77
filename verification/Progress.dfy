/**
 The progress callback of a run: status writes whose failure is only logged
 (worker/internal/consumer/consumer.go).
 */
module Progress {
  import opened Jobs
  import opened Storage

  /** The marks that both pipelines pass, in order. */
  const IMPORT_MARKS: seq<int> := [10, 45, 70, 95]
  const DEID_MARKS: seq<int> := [10, 35, 70, 95]

  /** Of the first `n` marks, those before the fourth and last. */
  function BeforeLast(n: nat): nat
  {
    if n <= 3 then n else 3
  }

  /** The job rows after the first `n` marks; `heard` tells what became of the write at each of them. */
  function Marked(jobs: JobTable, job: JobId, marks: seq<int>, n: nat, heard: int -> Reply): JobTable
    requires n <= |marks|
  {
    if n == 0 then jobs
    else
      var before := Marked(jobs, job, marks, n - 1, heard);
      if heard(marks[n - 1]).Refused? then before else Progressed(before, job, marks[n - 1])
  }

  /** Only the row of `job` may differ. */
  ghost predicate OnlyRow(before: JobTable, after: JobTable, job: JobId)
  {
    after.Keys == before.Keys && forall j :: j in before && j != job ==> after[j] == before[j]
  }

  /** Marks touch one row, and leave it as it was or processing at one of the marks. */
  lemma {:induction false} MarkedRow(jobs: JobTable, job: JobId, marks: seq<int>, n: nat, heard: int -> Reply)
    requires n <= |marks|
    ensures OnlyRow(jobs, Marked(jobs, job, marks, n, heard), job)
    ensures job in jobs ==>
              var row := Marked(jobs, job, marks, n, heard)[job];
              row == jobs[job] || exists p :: p in marks && row == jobs[job].(status := Processing, progress := p)
  {
    if n > 0 {
      MarkedRow(jobs, job, marks, n - 1, heard);
      assert marks[n - 1] in marks;
    }
  }

  /** Progress never goes down along increasing marks. */
  lemma {:induction false} MarksClimb(jobs: JobTable, job: JobId, marks: seq<int>, n: nat, heard: int -> Reply,
                                      top: int)
    requires n <= |marks| && job in jobs && forall i, j :: 0 <= i < j < |marks| ==> marks[i] <= marks[j]
    requires forall i :: 0 <= i < |marks| ==> jobs[job].progress <= marks[i]
    requires jobs[job].progress <= top && forall i :: 0 <= i < n ==> marks[i] <= top
    ensures job in Marked(jobs, job, marks, n, heard)
    ensures jobs[job].progress <= Marked(jobs, job, marks, n, heard)[job].progress <= top
  {
    if n > 0 {
      MarksClimb(jobs, job, marks, n - 1, heard, top);
    }
  }

  /** One call of the callback. */
  method Mark(store: Store, job: JobId, ghost from: JobTable, marks: seq<int>, n: nat, heard: int -> Reply)
    requires n < |marks| && store.jobs == Marked(from, job, marks, n, heard)
    modifies store`jobs
    ensures store.jobs == Marked(from, job, marks, n + 1, heard)
  {
    var _ := store.UpdateStatus(job, marks[n], heard(marks[n]));
  }
}
