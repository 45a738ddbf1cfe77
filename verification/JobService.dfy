/** Job creation in the backend: commit the row, then announce it (backend/app/services/job_service.py). */
module JobService {
  import opened Text
  import opened Jobs
  import opened Storage

  class Backend {
    var jobs: JobTable
    var stream: seq<JobId>

    constructor ()
      ensures jobs == map[] && stream == [] && Announced()
    {
      jobs, stream := map[], [];
    }

    /** Every announcement names a committed row, and no row is announced twice. */
    ghost predicate Announced()
      reads this
    {
      && (forall i :: 0 <= i < |stream| ==> stream[i] in jobs)
      && forall i, k :: 0 <= i < k < |stream| ==> stream[i] != stream[k]
    }

    /**
     `create_job`. The announcement comes after the commit, so whichever of the
     two fails, or loses its reply, no worker ever hears of a row that is not there.
     */
    method CreateJob(id: JobId, commit: Reply, publish: Reply) returns (created: Option<JobId>)
      requires Announced() && id !in jobs
      modifies this
      ensures Announced()
      ensures jobs == if commit.Refused? then old(jobs) else old(jobs)[id := NEW_JOB]
      ensures stream == if commit.Acknowledged? && !publish.Refused? then old(stream) + [id] else old(stream)
      ensures created == if commit.Acknowledged? && publish.Acknowledged? then Some(id) else None
    {
      created := None;
      if !commit.Refused? {
        jobs := jobs[id := NEW_JOB];
      }
      if !commit.Acknowledged? {
        return;
      }
      if !publish.Refused? {
        stream := stream + [id];
      }
      if publish.Acknowledged? {
        created := Some(id);
      }
    }
  }
}
