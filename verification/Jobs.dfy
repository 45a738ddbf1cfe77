/** The rows of `core.jobs` and the three status writes (worker/internal/store/store.go). */
module Jobs {
  import opened Text

  type JobId = nat

  datatype Status = Pending | Processing | Done | Failed

  datatype Job = Job(status: Status, progress: int, error: Option<string>, result: bool)

  type JobTable = map<JobId, Job>

  const NEW_JOB := Job(Pending, 0, None, false)

  predicate Terminal(j: Job)
  {
    j.status.Done? || j.status.Failed?
  }

  /** `UpdateStatus(job, "processing", progress)`. */
  function Progressed(jobs: JobTable, id: JobId, progress: int): JobTable
  {
    if id in jobs then jobs[id := jobs[id].(status := Processing, progress := progress)] else jobs
  }

  /** `MarkDone`: progress 100, the report, and no error. */
  function Finished(jobs: JobTable, id: JobId): JobTable
  {
    if id in jobs then jobs[id := Job(Done, 100, None, true)] else jobs
  }

  /** `MarkFailed`: progress and an earlier report stay. */
  function Broken(jobs: JobTable, id: JobId, message: string): JobTable
  {
    if id in jobs then jobs[id := jobs[id].(status := Failed, error := Some(message))] else jobs
  }
}
