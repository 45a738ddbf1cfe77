/**
 What holds of jobs and stream entries over whole runs, whatever the workers,
 their crashes and the database do in between.
 */
module JobSafety {
  import opened Records
  import opened Vault
  import opened Jobs
  import opened Storage
  import opened Cluster
  import opened Protocol

  // ── Each entry is processed at most once ───────────────────────────────

  /** The entries delivered so far are exactly the first ones of the stream, each handed out once, in order. */
  lemma DeliveredIsAPrefix(core: Core, acts: seq<Action>)
    ensures var s := Run(core, acts);
            && |s.history.deliveries| == s.queue.cursor <= |s.queue.stream|
            && (forall i :: 0 <= i < s.queue.cursor ==> s.history.deliveries[i] == i)
            && s.queue.pending !! s.queue.acked
            && forall e: nat :: e < s.queue.cursor <==> e in s.queue.pending || e in s.queue.acked
  {
    EveryRunKeepsProtocol(core, acts);
  }

  /** Two workers never hold one entry, nor two entries of one job. */
  lemma NoJobHasTwoOwners(core: Core, acts: seq<Action>, v: WorkerId, w: WorkerId)
    requires var s := Run(core, acts); v in s.workers && w in s.workers && v != w
    requires var s := Run(core, acts); !s.workers[v].Idle? && !s.workers[w].Idle?
    ensures var s := Run(core, acts);
            var i, k := s.workers[v].entry, s.workers[w].entry;
            && i != k && i in s.queue.pending && k in s.queue.pending
            && forall j :: !(PostedAt(s.queue.stream, i, j) && PostedAt(s.queue.stream, k, j))
  {
    EveryRunKeepsProtocol(core, acts);
  }

  lemma BegunGrows(s: State, a: Action)
    requires Enabled(s, a)
    ensures s.history.begun <= Next(s, a).history.begun
    ensures s.queue.stream <= Next(s, a).queue.stream
  {
  }

  lemma {:induction false} BegunStays(core: Core, acts: seq<Action>, n: nat)
    requires n <= |acts|
    ensures Run(core, acts[..n]).history.begun <= Run(core, acts).history.begun
    ensures Run(core, acts[..n]).queue.stream <= Run(core, acts).queue.stream
  {
    if n == |acts| {
      assert acts[..n] == acts;
    } else {
      var k := |acts| - 1;
      assert acts[..k][..n] == acts[..n];
      BegunStays(core, acts[..k], n);
      if Enabled(Run(core, acts[..k]), acts[k]) {
        BegunGrows(Run(core, acts[..k]), acts[k]);
      }
    }
  }

  /** Action `n` of a run is a worker starting on entry `e`. */
  ghost predicate Begins(core: Core, acts: seq<Action>, n: nat, e: nat)
    requires n < |acts|
  {
    var s := Run(core, acts[..n]);
    acts[n].Begin? && Enabled(s, acts[n]) && s.workers[acts[n].w].entry == e
  }

  /** No entry is ever started twice, by the same worker or by another, and no job is either. */
  lemma NothingBeginsTwice(core: Core, acts: seq<Action>, m: nat, n: nat, d: nat, e: nat)
    requires m < n < |acts| && Begins(core, acts, m, d) && Begins(core, acts, n, e)
    ensures d != e
    ensures forall j :: !(PostedAt(Run(core, acts).queue.stream, d, j) && PostedAt(Run(core, acts).queue.stream, e, j))
  {
    EveryRunKeepsProtocol(core, acts);
    var next := acts[..m + 1];
    assert next[..m] == acts[..m] && acts[..n][..m + 1] == next;
    assert d in Run(core, next).history.begun;
    BegunStays(core, acts[..n], m + 1);
    var s := Run(core, acts[..n]);
    EveryRunKeepsProtocol(core, acts[..n]);
    assert Owns(s.queue, s.history.begun, s.workers[acts[n].w]);
  }

  // ── No silent loss ─────────────────────────────────────────────────────

  /** The row still waits for its announcement, for delivery, or for a worker to be done with its entry. */
  ghost predicate InFlight(s: State, job: JobId)
  {
    job in s.queue.unpublished
    || exists i :: PostedAt(s.queue.stream, i, job) && (s.queue.cursor <= i || i in s.queue.pending)
  }

  /** In every reachable state a row is terminal, in flight, or had the write of its failure fail. */
  lemma NoSilentLoss(core: Core, acts: seq<Action>, job: JobId)
    requires job in Run(core, acts).jobs
    ensures var s := Run(core, acts);
            Terminal(s.jobs[job]) || InFlight(s, job) || job in s.history.lost
  {
    var s := Run(core, acts);
    EveryRunKeepsProtocol(core, acts);
    if job !in s.queue.unpublished {
      var i :| PostedAt(s.queue.stream, i, job);
    }
  }

  /** Every entry names a committed row, and an acknowledged one a settled row. */
  lemma AckedIsSettled(core: Core, acts: seq<Action>, i: nat, job: JobId)
    requires PostedAt(Run(core, acts).queue.stream, i, job)
    ensures var s := Run(core, acts);
            && job in s.jobs
            && (i in s.queue.acked ==> Terminal(s.jobs[job]) || job in s.history.lost)
            && (i >= s.queue.cursor ==> s.jobs[job] == NEW_JOB)
  {
    EveryRunKeepsProtocol(core, acts);
  }

  // ── Rows only move forward ─────────────────────────────────────────────

  /** The one thing that may still happen to a done row: its finishing write was not heard of, so it is failed. */
  ghost predicate Undone(before: Job, after: Job)
  {
    before.status.Done? && after.status.Failed? && after == before.(status := Failed, error := after.error)
  }

  ghost predicate Forward(before: JobTable, after: JobTable, unheard: set<JobId>)
  {
    forall j :: j in before ==>
      && j in after && before[j].progress <= after[j].progress
      && (before[j].status.Failed? ==> after[j] == before[j])
      && (before[j].status.Done? ==> after[j] == before[j] || (Undone(before[j], after[j]) && j in unheard))
  }

  lemma PerformMovesForward(s: State, w: WorkerId, reply: Reply, token: string, loaded: seq<Cell>)
    requires ProtocolOk(s) && Enabled(s, Perform(w, reply, token, loaded))
    ensures Forward(s.jobs, Performed(s, w, reply, token, loaded).jobs, s.history.unheard)
  {
    var l := s.workers[w];
    assert RowFits(s.jobs, s.history, s.queue.stream, l);
  }

  lemma BeginMovesForward(s: State, w: WorkerId, plan: seq<Op>, reply: Reply)
    requires ProtocolOk(s) && Enabled(s, Begin(w, plan, reply))
    ensures Forward(s.jobs, Begun(s, w, plan, reply).jobs, s.history.unheard)
    ensures forall j :: j in s.jobs && s.jobs[j].status.Done? ==> Begun(s, w, plan, reply).jobs[j] == s.jobs[j]
  {
    assert Owns(s.queue, s.history.begun, s.workers[w]);
    var e := s.queue.stream[s.workers[w].entry];
    if e.JobEntry? {
      assert PostedAt(s.queue.stream, s.workers[w].entry, e.job);
    }
  }

  lemma StepMovesForward(s: State, a: Action)
    requires ProtocolOk(s) && Enabled(s, a)
    ensures Forward(s.jobs, Next(s, a).jobs, s.history.unheard)
    ensures s.history.unheard <= Next(s, a).history.unheard
  {
    match a
    case Begin(w, plan, reply) => BeginMovesForward(s, w, plan, reply);
    case Perform(w, reply, token, loaded) => PerformMovesForward(s, w, reply, token, loaded);
    case Fail(w, _) => assert RowFits(s.jobs, s.history, s.queue.stream, s.workers[w]);
    case _ =>
  }

  lemma ForwardTwice(a: JobTable, b: JobTable, c: JobTable, early: set<JobId>, late: set<JobId>)
    requires Forward(a, b, early) && Forward(b, c, late) && early <= late
    ensures Forward(a, c, late)
  {
  }

  /**
   Over any stretch of any run: rows stay, progress never decreases, a failed
   row never changes, and a done row changes only to failed, and only if the
   reply to its finishing write was lost.
   */
  lemma {:induction false} RowsMoveForward(core: Core, acts: seq<Action>, n: nat)
    requires n <= |acts|
    ensures Forward(Run(core, acts[..n]).jobs, Run(core, acts).jobs, Run(core, acts).history.unheard)
  {
    if n == |acts| {
      assert acts[..n] == acts;
    } else {
      var k := |acts| - 1;
      assert acts[..k][..n] == acts[..n];
      RowsMoveForward(core, acts[..k], n);
      EveryRunKeepsProtocol(core, acts[..k]);
      if Enabled(Run(core, acts[..k]), acts[k]) {
        var s, t := Run(core, acts[..k]), Run(core, acts);
        StepMovesForward(s, acts[k]);
        ForwardTwice(Run(core, acts[..n]).jobs, s.jobs, t.jobs, s.history.unheard, t.history.unheard);
      }
    }
  }

  /** So with every finishing write heard of, done and failed are both final. */
  lemma TerminalIsFinal(core: Core, acts: seq<Action>, n: nat, job: JobId)
    requires n <= |acts| && Run(core, acts).history.unheard == {}
    requires job in Run(core, acts[..n]).jobs && Terminal(Run(core, acts[..n]).jobs[job])
    ensures job in Run(core, acts).jobs && Run(core, acts).jobs[job] == Run(core, acts[..n]).jobs[job]
  {
    RowsMoveForward(core, acts, n);
  }

  /** The step at `n` is a successful acknowledgement of the entry by the worker that dealt with it. */
  ghost predicate Acknowledges(core: Core, acts: seq<Action>, n: nat, e: nat)
    requires n < |acts|
  {
    && acts[n].Acknowledge? && acts[n].ok
    && acts[n].w in Run(core, acts[..n]).workers && Run(core, acts[..n]).workers[acts[n].w] == Acking(e)
  }

  /** An entry leaves the pending list only by a call that got through, of a worker that had dealt with it. */
  lemma {:induction false} AckedWasAcknowledged(core: Core, acts: seq<Action>, e: nat)
    requires e in Run(core, acts).queue.acked
    ensures exists n :: 0 <= n < |acts| && Acknowledges(core, acts, n, e)
  {
    var k := |acts| - 1;
    var s := Run(core, acts[..k]);
    if e in s.queue.acked {
      AckedWasAcknowledged(core, acts[..k], e);
      var n :| 0 <= n < k && Acknowledges(core, acts[..k], n, e);
      assert acts[..k][..n] == acts[..n];
      assert Acknowledges(core, acts, n, e);
    } else {
      assert Enabled(s, acts[k]);
      assert Acknowledges(core, acts, k, e);
    }
  }

  // ── What a row looks like ──────────────────────────────────────────────

  /** Status, progress, error and report of a row belong together. */
  ghost predicate Coherent(j: Job)
  {
    match j.status
    case Pending => j.progress == 0 && j.error.None? && !j.result
    case Processing => 5 <= j.progress <= 95 && j.error.None? && !j.result
    case Done => j.progress == 100 && j.error.None? && j.result
    case Failed => 0 <= j.progress <= 100 && j.error.Some? && (j.result ==> j.progress == 100)
  }

  lemma StepKeepsCoherent(s: State, a: Action, job: JobId)
    requires ProtocolOk(s) && Enabled(s, a) && (job in s.jobs ==> Coherent(s.jobs[job])) && job in Next(s, a).jobs
    ensures Coherent(Next(s, a).jobs[job])
  {
    match a
    case Perform(w, reply, _, _) =>
      assert RowFits(s.jobs, s.history, s.queue.stream, s.workers[w]);
      assert Climbs(s.jobs[s.workers[w].job].progress, s.workers[w].ops);
    case Begin(w, plan, reply) =>
      var e := s.queue.stream[s.workers[w].entry];
      assert Owns(s.queue, s.history.begun, s.workers[w]);
      assert e.JobEntry? ==> PostedAt(s.queue.stream, s.workers[w].entry, e.job);
    case Fail(w, _) => assert RowFits(s.jobs, s.history, s.queue.stream, s.workers[w]);
    case _ =>
  }

  /**
   Every row of every reachable state makes sense on its own: a pending one is
   untouched, a processing one stands between 5 and 95, a done one is at 100 with
   its report and without an error, a failed one has an error, and a report only
   if its work had been finished.
   */
  lemma {:induction false} RowsAreCoherent(core: Core, acts: seq<Action>, job: JobId)
    requires job in Run(core, acts).jobs
    ensures Coherent(Run(core, acts).jobs[job])
  {
    var n := |acts| - 1;
    var s, a := Run(core, acts[..n]), acts[n];
    EveryRunKeepsProtocol(core, acts[..n]);
    if job in s.jobs {
      RowsAreCoherent(core, acts[..n], job);
    }
    if Enabled(s, a) {
      StepKeepsCoherent(s, a, job);
    }
  }

  ghost predicate FailingOn(s: State, w: WorkerId, job: JobId)
  {
    w in s.workers && s.workers[w].Failing? && s.workers[w].job == job
  }

  lemma PerformSparesDone(s: State, a: Action, job: JobId)
    requires ProtocolOk(s) && Enabled(s, a) && a.Perform? && job in s.jobs && s.jobs[job].status.Done?
    ensures Next(s, a).jobs[job] == s.jobs[job]
  {
    assert RowFits(s.jobs, s.history, s.queue.stream, s.workers[a.w]);
  }

  lemma OnlyFailingUndoes(s: State, a: Action, job: JobId)
    requires ProtocolOk(s) && Enabled(s, a) && job in s.jobs && s.jobs[job].status.Done?
    requires job in Next(s, a).jobs && Next(s, a).jobs[job] != s.jobs[job]
    ensures a.Fail? && FailingOn(s, a.w, job)
  {
    match a
    case Begin(w, plan, reply) => BeginMovesForward(s, w, plan, reply);
    case Perform(w, _, _, _) => PerformSparesDone(s, a, job);
    case _ =>
  }

  /** The row is done and no worker is reporting a failure of its job. */
  ghost predicate QuietlyDone(s: State, job: JobId)
  {
    job in s.jobs && s.jobs[job].status.Done? && forall w :: !FailingOn(s, w, job)
  }

  lemma StepKeepsQuiet(s: State, a: Action, job: JobId)
    requires ProtocolOk(s) && Enabled(s, a) && QuietlyDone(s, job)
    ensures QuietlyDone(Next(s, a), job) && Next(s, a).jobs[job] == s.jobs[job]
  {
    StepMovesForward(s, a);
    if Next(s, a).jobs[job] != s.jobs[job] {
      OnlyFailingUndoes(s, a, job);
    }
    forall w ensures !FailingOn(Next(s, a), w, job) {
      NobodyStartsFailing(s, a, job, w);
    }
  }

  /** Nobody is running a job that is done, so nobody gets to fail it. */
  lemma NobodyStartsFailing(s: State, a: Action, job: JobId, w: WorkerId)
    requires ProtocolOk(s) && Enabled(s, a) && job in s.jobs && s.jobs[job].status.Done? && !FailingOn(s, w, job)
    ensures !FailingOn(Next(s, a), w, job)
  {
  }

  lemma {:induction false} QuietForever(core: Core, acts: seq<Action>, n: nat, job: JobId)
    requires n <= |acts| && QuietlyDone(Run(core, acts[..n]), job)
    ensures QuietlyDone(Run(core, acts), job) && Run(core, acts).jobs[job] == Run(core, acts[..n]).jobs[job]
  {
    if n == |acts| {
      assert acts[..n] == acts;
    } else {
      var k := |acts| - 1;
      assert acts[..k][..n] == acts[..n];
      QuietForever(core, acts[..k], n, job);
      EveryRunKeepsProtocol(core, acts[..k]);
      if Enabled(Run(core, acts[..k]), acts[k]) {
        StepKeepsQuiet(Run(core, acts[..k]), acts[k], job);
      }
    }
  }

  /** In some continuation of the run the row is no longer what it is now. */
  ghost predicate MayChange(core: Core, acts: seq<Action>, job: JobId)
    requires job in Run(core, acts).jobs
  {
    exists more :: acts <= more && job in Run(core, more).jobs && Run(core, more).jobs[job] != Run(core, acts).jobs[job]
  }

  /**
   A done row changes in some continuation if and only if a worker is reporting a
   failure of its job now; otherwise done is final.
   */
  lemma DoneIsFinalUnlessFailing(core: Core, acts: seq<Action>, job: JobId)
    requires job in Run(core, acts).jobs && Run(core, acts).jobs[job].status.Done?
    ensures MayChange(core, acts, job) <==> exists w :: FailingOn(Run(core, acts), w, job)
  {
    var s := Run(core, acts);
    if w :| FailingOn(s, w, job) {
      var a := Fail(w, Acknowledged);
      assert (acts + [a])[..|acts|] == acts;
      assert Run(core, acts + [a]) == Next(s, a) && Next(s, a).jobs[job].status.Failed?;
    } else if MayChange(core, acts, job) {
      var more :| acts <= more && job in Run(core, more).jobs && Run(core, more).jobs[job] != s.jobs[job];
      assert more[..|acts|] == acts;
      assert QuietlyDone(s, job);
      QuietForever(core, more, |acts|, job);
    }
  }

  // ── Entries nobody holds ───────────────────────────────────────────────

  /** Delivered, not acknowledged, and held by no worker: what a crash leaves behind. */
  ghost predicate Orphaned(s: State, e: nat)
  {
    e in s.queue.pending && forall w :: w in s.workers && !s.workers[w].Idle? ==> s.workers[w].entry != e
  }

  lemma BeginSparesOrphans(s: State, w: WorkerId, plan: seq<Op>, reply: Reply, e: nat, job: JobId)
    requires ProtocolOk(s) && Enabled(s, Begin(w, plan, reply)) && Orphaned(s, e) && PostedAt(s.queue.stream, e, job)
    ensures Orphaned(Begun(s, w, plan, reply), e) && Begun(s, w, plan, reply).jobs[job] == s.jobs[job]
  {
    assert Owns(s.queue, s.history.begun, s.workers[w]);
    var x := s.queue.stream[s.workers[w].entry];
    if x.JobEntry? {
      assert PostedAt(s.queue.stream, s.workers[w].entry, x.job);
    }
  }

  lemma PerformSparesOrphans(s: State, w: WorkerId, reply: Reply, token: string, loaded: seq<Cell>, e: nat, job: JobId)
    requires ProtocolOk(s) && Enabled(s, Perform(w, reply, token, loaded))
    requires Orphaned(s, e) && PostedAt(s.queue.stream, e, job)
    ensures var t := Performed(s, w, reply, token, loaded); Orphaned(t, e) && t.jobs[job] == s.jobs[job]
  {
  }

  lemma StepSparesOrphans(s: State, a: Action, e: nat, job: JobId)
    requires ProtocolOk(s) && Enabled(s, a) && Orphaned(s, e) && PostedAt(s.queue.stream, e, job)
    ensures Orphaned(Next(s, a), e) && PostedAt(Next(s, a).queue.stream, e, job)
    ensures job in Next(s, a).jobs && Next(s, a).jobs[job] == s.jobs[job]
  {
    BegunGrows(s, a);
    match a
    case Begin(w, plan, reply) => BeginSparesOrphans(s, w, plan, reply, e, job);
    case Perform(w, reply, token, loaded) => PerformSparesOrphans(s, w, reply, token, loaded, e, job);
    case Fail(w, _) => assert Owns(s.queue, s.history.begun, s.workers[w]);
    case _ =>
  }

  /** The entry is orphaned, and this is the row of its job. */
  ghost predicate OrphanedRow(s: State, e: nat, job: JobId, row: Job)
  {
    Orphaned(s, e) && PostedAt(s.queue.stream, e, job) && job in s.jobs && s.jobs[job] == row
  }

  lemma {:induction false} OrphansStay(core: Core, acts: seq<Action>, n: nat, e: nat, job: JobId, row: Job)
    requires n <= |acts| && OrphanedRow(Run(core, acts[..n]), e, job, row)
    ensures OrphanedRow(Run(core, acts), e, job, row)
  {
    if n == |acts| {
      assert acts[..n] == acts;
    } else {
      var k := |acts| - 1;
      var s := Run(core, acts[..k]);
      assert acts[..k][..n] == acts[..n];
      OrphansStay(core, acts[..k], n, e, job, row);
      EveryRunKeepsProtocol(core, acts[..k]);
      if Enabled(s, acts[k]) {
        StepSparesOrphans(s, acts[k], e, job);
      }
    }
  }

  /**
   Workers read new entries only, so an orphaned entry stays pending for ever
   and the row of its job never changes again: delivery is at most once.
   */
  lemma OrphansAreForever(core: Core, acts: seq<Action>, n: nat, e: nat, job: JobId)
    requires n <= |acts| && Orphaned(Run(core, acts[..n]), e) && PostedAt(Run(core, acts[..n]).queue.stream, e, job)
    ensures var s, t := Run(core, acts[..n]), Run(core, acts);
            && Orphaned(t, e) && e !in t.queue.acked && PostedAt(t.queue.stream, e, job)
            && job in s.jobs && job in t.jobs && t.jobs[job] == s.jobs[job]
  {
    EveryRunKeepsProtocol(core, acts[..n]);
    OrphansStay(core, acts, n, e, job, Run(core, acts[..n]).jobs[job]);
    EveryRunKeepsProtocol(core, acts);
  }

  lemma StepKeepsOrphan(s: State, a: Action, e: nat)
    requires ProtocolOk(s) && Enabled(s, a) && Orphaned(s, e)
    ensures Orphaned(Next(s, a), e)
  {
  }

  /** The entry need not even be decodable. */
  lemma {:induction false} OrphansStayPending(core: Core, acts: seq<Action>, n: nat, e: nat)
    requires n <= |acts| && Orphaned(Run(core, acts[..n]), e)
    ensures Orphaned(Run(core, acts), e) && e !in Run(core, acts).queue.acked
  {
    EveryRunKeepsProtocol(core, acts);
    if n == |acts| {
      assert acts[..n] == acts;
    } else {
      var k := |acts| - 1;
      assert acts[..k][..n] == acts[..n];
      OrphansStayPending(core, acts[..k], n, e);
      EveryRunKeepsProtocol(core, acts[..k]);
      if Enabled(Run(core, acts[..k]), acts[k]) {
        StepKeepsOrphan(Run(core, acts[..k]), acts[k], e);
      }
    }
  }
}
