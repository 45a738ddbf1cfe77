/** One worker's loop over the stream, run on its own (worker/internal/consumer/consumer.go). */
module Consumer {
  import opened Text
  import opened Records
  import opened Vault
  import opened Jobs
  import opened Cells
  import opened Storage
  import opened Progress
  import Importer
  import Anonymizer

  /**
   The decoded payload of a message. An import comes with the files of its
   directory, every row with its validation outcome, or with none if the
   directory cannot be read; `OtherTask` stands for an unknown type and for an
   import that names no directory.
   */
  datatype Task =
    | ImportTask(files: Option<Importer.Files>)
    | DeidTask(mode: string, dataset: string)
    | OtherTask

  datatype Message = Undecodable | Decoded(job: JobId, task: Task)

  /** Everything that may go wrong while one message is processed. */
  datatype Weather = Weather(
    begin: Reply, heard: int -> Reply, importing: Importer.Trouble, deid: Anonymizer.Trouble, supply: nat -> string,
    finish: Reply, fail: Reply, ack: bool)

  ghost predicate Calm(w: Weather)
  {
    && w.begin.Acknowledged? && w.finish.Acknowledged? && w.fail.Acknowledged? && w.ack
    && w.importing == Importer.Trouble(None, None, {}, None)
    && w.deid == Anonymizer.Trouble(false, None, false)
  }

  /** The job can be carried out as asked. */
  predicate Runnable(t: Task)
  {
    match t
    case ImportTask(files) =>
      files.Some? && files.value.students.Parsed?
      && !files.value.guardians.Unreadable? && !files.value.links.Unreadable?
    case DeidTask(mode, dataset) => Anonymizer.GoodMode(mode) && Anonymizer.GoodDataset(dataset)
    case OtherTask => false
  }

  /** What is refused before the first status write. */
  predicate Startable(t: Task)
  {
    match t
    case ImportTask(_) => true
    case DeidTask(mode, _) => mode != ""
    case OtherTask => false
  }

  function MarksOf(t: Task): (marks: seq<int>)
    ensures |marks| == 4
  {
    if t.ImportTask? then IMPORT_MARKS else DEID_MARKS
  }

  /** The rows after an execution that reached the first `n` progress marks; with all four the run went through. */
  function RowsAfter(jobs: JobTable, job: JobId, task: Task, w: Weather, n: nat): JobTable
    requires n <= 4
  {
    if !Startable(task) || w.begin.Refused? then jobs
    else
      var processing := Progressed(jobs, job, 5);
      if !w.begin.Acknowledged? || job !in jobs then processing
      else
        var marked := Marked(processing, job, MarksOf(task), n, w.heard);
        if n == 4 && !w.finish.Refused? then Finished(marked, job) else marked
  }

  lemma RowsAfterOnlyRow(jobs: JobTable, job: JobId, task: Task, w: Weather, n: nat)
    requires n <= 4
    ensures OnlyRow(jobs, RowsAfter(jobs, job, task, w, n), job)
  {
    MarkedRow(Progressed(jobs, job, 5), job, MarksOf(task), n, w.heard);
  }

  class Consumer {
    const store: Store
    const stream: seq<Message>
    var cursor: nat
    var pending: set<nat>
    var acked: set<nat>
    /** The entries processed so far, in order. */
    ghost var processed: seq<nat>

    constructor (store: Store, stream: seq<Message>)
      ensures this.store == store && this.stream == stream && cursor == 0 && pending == {} && acked == {}
      ensures processed == []
    {
      this.store, this.stream := store, stream;
      cursor, pending, acked, processed := 0, {}, {}, [];
    }

    ghost predicate Valid()
      reads this, store
    {
      && store.Valid() && cursor <= |stream| && pending !! acked
      && (forall e: nat :: e in pending || e in acked <==> e < cursor)
      && |processed| == cursor && forall i :: 0 <= i < cursor ==> processed[i] == i
    }

    /** The run behind `executeJob`, without the status writes around it; `n` counts the progress marks reached. */
    method Work(job: JobId, task: Task, w: Weather) returns (ok: bool, ghost n: nat)
      requires store.Valid()
      modifies store`students, store`guardians, store`links, store`pseudonyms, store`jobs
      ensures store.Valid()
      ensures n <= 4 && (ok <==> n == 4)
      ensures store.jobs == Marked(old(store.jobs), job, MarksOf(task), n, w.heard)
      ensures Calm(w) && Runnable(task) ==> ok
      ensures ok ==> Runnable(task)
      ensures !(task.ImportTask? && task.files.Some?) ==> store.Tables() == old(store.Tables())
      ensures ok && task.ImportTask? && w.importing.flaky == {} ==>
                store.Tables() == Import(old(store.Tables()), Importer.Validated(task.files.value))
      ensures task.ImportTask? && task.files.Some? ==>
                Importer.PartlyImported(old(store.Tables()), Importer.Validated(task.files.value), store.Tables())
      ensures KeepsTokens(old(store.pseudonyms), store.pseudonyms)
      ensures (task.DeidTask? ==> task.mode != "pseudonymize") ==> store.pseudonyms == old(store.pseudonyms)
    {
      ok, n := false, 0;
      match task {
        case ImportTask(files) =>
          if files.Some? {
            var report;
            report, ok := Importer.Run(store, files.value, w.importing, job, w.heard);
            n := Importer.Reached(files.value, w.importing);
          }
        case DeidTask(mode, dataset) =>
          ghost var upserts;
          var r;
          r, upserts := Anonymizer.Run(store, mode, dataset, w.supply, w.deid, job, w.heard);
          ok := r.Ok?;
          n := if Runnable(task) then Anonymizer.Reached(w.deid, mode == "pseudonymize", upserts) else 0;
        case OtherTask =>
      }
    }

    /** `executeJob` with `runImport` and `runAnonymize`: processing, the run, done. */
    method ExecuteJob(job: JobId, task: Task, w: Weather) returns (ok: bool, ghost n: nat)
      requires store.Valid()
      modifies store`students, store`guardians, store`links, store`pseudonyms, store`jobs
      ensures store.Valid()
      ensures n <= 4 && store.jobs == RowsAfter(old(store.jobs), job, task, w, n)
      ensures ok <==> n == 4 && w.finish.Acknowledged?
      ensures task.OtherTask? || (task.DeidTask? && task.mode == "") ==> store.jobs == old(store.jobs)
      ensures n == 4 ==> Runnable(task) && job in old(store.jobs) && w.begin.Acknowledged?
      ensures Calm(w) && Runnable(task) && job in old(store.jobs) ==> ok
      ensures !(task.ImportTask? && task.files.Some?) ==> store.Tables() == old(store.Tables())
      ensures n == 4 && task.ImportTask? && w.importing.flaky == {} ==>
                store.Tables() == Import(old(store.Tables()), Importer.Validated(task.files.value))
      ensures task.ImportTask? && task.files.Some? ==>
                Importer.PartlyImported(old(store.Tables()), Importer.Validated(task.files.value), store.Tables())
      ensures KeepsTokens(old(store.pseudonyms), store.pseudonyms)
      ensures (task.DeidTask? ==> task.mode != "pseudonymize") ==> store.pseudonyms == old(store.pseudonyms)
    {
      ok, n := false, 0;
      if task.ImportTask? && task.files.Some? {
        Importer.StoppedInStudents(store.Tables(), Importer.Validated(task.files.value), 0);
      }
      if !Startable(task) {
        return;
      }
      var begun := store.UpdateStatus(job, 5, w.begin);
      if !begun {
        return;
      }
      var fine;
      fine, n := Work(job, task, w);
      RowsAfterOnlyRow(old(store.jobs), job, task, w, n);
      if fine {
        ok := store.MarkDone(job, w.finish);
      }
    }

    /** What processing a message does to the rows, as far as any outcome allows. */
    ghost predicate RowSettles(before: JobTable, m: Message, w: Weather)
      reads store
    {
      match m
      case Undecodable => store.jobs == before
      case Decoded(job, task) =>
        && OnlyRow(before, store.jobs, job)
        && (job in before && !w.fail.Refused? ==>
              && Terminal(store.jobs[job])
              && (store.jobs[job].status.Done? ==> Runnable(task) && w.begin.Acknowledged? && w.finish.Acknowledged?))
        && (job in before && Calm(w) ==> (store.jobs[job].status.Done? <==> Runnable(task)))
    }

    /** What it does to the tables and to the reversible map. */
    ghost predicate DataSettles(before: Core, vault: PseudonymMap, m: Message, w: Weather)
      reads store
    {
      && KeepsTokens(vault, store.pseudonyms)
      && (m.Undecodable? || !m.task.DeidTask? || m.task.mode != "pseudonymize" ==> store.pseudonyms == vault)
      && (m.Undecodable? || !m.task.ImportTask? || m.task.files.None? ==> store.Tables() == before)
      && (m.Decoded? && m.task.ImportTask? && m.task.files.Some? ==>
            Importer.PartlyImported(before, Importer.Validated(m.task.files.value), store.Tables()))
      && (m.Decoded? && m.job in store.jobs && Calm(w) && Runnable(m.task) && m.task.ImportTask? ==>
            store.Tables() == Import(before, Importer.Validated(m.task.files.value)))
    }

    /**
     `processMessage`. Whatever happens to the run, the row ends up terminal
     unless the write of its failure was refused, and done only if the run went
     through and its finishing write was heard of. The entry leaves the pending
     list exactly when the acknowledgement gets through.
     */
    method ProcessMessage(e: nat, w: Weather)
      requires store.Valid() && e in pending && e < |stream|
      modifies this`pending, this`acked, this`processed,
               store`students, store`guardians, store`links, store`pseudonyms, store`jobs
      ensures store.Valid() && processed == old(processed) + [e]
      ensures pending == (if w.ack then old(pending) - {e} else old(pending))
      ensures acked == (if w.ack then old(acked) + {e} else old(acked))
      ensures RowSettles(old(store.jobs), stream[e], w)
      ensures DataSettles(old(store.Tables()), old(store.pseudonyms), stream[e], w)
    {
      processed := processed + [e];
      if stream[e].Decoded? {
        var ok;
        ghost var n;
        ok, n := ExecuteJob(stream[e].job, stream[e].task, w);
        RowsAfterOnlyRow(old(store.jobs), stream[e].job, stream[e].task, w, n);
        if !ok {
          var _ := store.MarkFailed(stream[e].job, "job failed", w.fail);
        }
      }
      Acknowledge(e, w.ack);
    }

    method Acknowledge(e: nat, ok: bool)
      requires e in pending
      modifies this`pending, this`acked
      ensures pending == (if ok then old(pending) - {e} else old(pending))
      ensures acked == (if ok then old(acked) + {e} else old(acked))
    {
      if ok {
        pending, acked := pending - {e}, acked + {e};
      }
    }

    /** The entry's job row is terminal, or the write of its failure was refused. */
    ghost predicate DealtWith(jobs: JobTable, e: nat, weather: nat -> Weather)
      requires e < |stream|
    {
      stream[e].Decoded? && stream[e].job in jobs && !weather(e).fail.Refused? ==> Terminal(jobs[stream[e].job])
    }

    /** No later one of the first `n` entries names the same job. */
    ghost predicate LastOfJob(e: nat, n: nat)
      requires e < n <= |stream|
    {
      forall d :: e < d < n && stream[d].Decoded? && stream[e].Decoded? ==> stream[d].job != stream[e].job
    }

    /** Processing entry `at` settles its own row and leaves those of other jobs. */
    lemma NextDealtWith(before: JobTable, after: JobTable, from: nat, at: nat, weather: nat -> Weather)
      requires from <= at < |stream| && DealtWith(after, at, weather)
      requires if stream[at].Decoded? then OnlyRow(before, after, stream[at].job) else after == before
      requires forall e: nat :: from <= e < at && LastOfJob(e, at) ==> DealtWith(before, e, weather)
      ensures forall e: nat :: from <= e < at + 1 && LastOfJob(e, at + 1) ==> DealtWith(after, e, weather)
    {
    }

    /** One successful read: the next undelivered entry becomes pending and is processed. */
    method Receive(weather: nat -> Weather)
      requires Valid() && cursor < |stream|
      modifies this`cursor, this`pending, this`acked, this`processed,
               store`students, store`guardians, store`links, store`pseudonyms, store`jobs
      ensures Valid() && cursor == old(cursor) + 1
      ensures old(cursor) in acked <==> weather(old(cursor)).ack
      ensures forall e: nat :: e < old(cursor) ==> (e in acked <==> e in old(acked))
      ensures RowSettles(old(store.jobs), stream[old(cursor)], weather(old(cursor)))
      ensures DataSettles(old(store.Tables()), old(store.pseudonyms), stream[old(cursor)], weather(old(cursor)))
    {
      var e := cursor;
      cursor, pending := cursor + 1, pending + {e};
      ProcessMessage(e, weather(e));
    }

    /**
     The loop of `Start`, for as many reads as happen before the context is
     cancelled. It works through the stream from where the group stands, every
     entry once and in order (`Valid` says that `processed` lists 0, 1, 2, …); an
     entry stays pending exactly when its acknowledgement failed, and is not
     looked at again; the row of every job ends settled by its last entry.
     */
    method Start(rounds: nat, weather: nat -> Weather)
      requires Valid()
      modifies this`cursor, this`pending, this`acked, this`processed,
               store`students, store`guardians, store`links, store`pseudonyms, store`jobs
      ensures Valid()
      ensures cursor == if old(cursor) + rounds <= |stream| then old(cursor) + rounds else |stream|
      ensures store.jobs.Keys == old(store.jobs.Keys)
      ensures forall e: nat :: old(cursor) <= e < cursor ==> (e in acked <==> weather(e).ack)
      ensures forall e: nat :: old(cursor) <= e < cursor && LastOfJob(e, cursor) ==> DealtWith(store.jobs, e, weather)
      ensures forall e: nat :: e < old(cursor) ==> (e in acked <==> e in old(acked))
      ensures forall j :: j in store.jobs && !NamedIn(j, old(cursor), cursor) ==> store.jobs[j] == old(store.jobs[j])
      ensures KeepsTokens(old(store.pseudonyms), store.pseudonyms)
    {
      var n := 0;
      while n < rounds
        invariant n <= rounds && Valid()
        invariant cursor == if old(cursor) + n <= |stream| then old(cursor) + n else |stream|
        invariant store.jobs.Keys == old(store.jobs.Keys)
        invariant forall e: nat :: old(cursor) <= e < cursor ==> (e in acked <==> weather(e).ack)
        invariant forall e: nat ::
                    old(cursor) <= e < cursor && LastOfJob(e, cursor) ==> DealtWith(store.jobs, e, weather)
        invariant forall e: nat :: e < old(cursor) ==> (e in acked <==> e in old(acked))
        invariant forall j ::
                    j in store.jobs && !NamedIn(j, old(cursor), cursor) ==> store.jobs[j] == old(store.jobs[j])
        invariant KeepsTokens(old(store.pseudonyms), store.pseudonyms)
      {
        if cursor < |stream| {
          ghost var at, jobs := cursor, store.jobs;
          Receive(weather);
          NextDealtWith(jobs, store.jobs, old(cursor), at, weather);
        }
        n := n + 1;
      }
    }

    /** Some entry between the two positions names the job. */
    ghost predicate NamedIn(job: JobId, from: nat, to: nat)
      requires to <= |stream|
    {
      exists e :: from <= e < to && stream[e].Decoded? && stream[e].job == job
    }
  }
}
