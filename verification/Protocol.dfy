/**
 What every step of the system keeps about the queue and the job rows: who owns
 which entry, and which row may still change (worker/internal/consumer/consumer.go,
 backend/app/services/job_service.py, worker/internal/store/store.go).
 */
module Protocol {
  import opened Records
  import opened Vault
  import opened Jobs
  import opened Storage
  import opened Cluster

  // ── The invariant ──────────────────────────────────────────────────────

  /** Delivered entries are a prefix of the stream, handed out once each, in order, and never forgotten. */
  ghost predicate QueueOk(s: State)
  {
    var q := s.queue;
    && q.cursor <= |q.stream|
    && q.pending !! q.acked
    && (forall i: nat :: i in q.pending || i in q.acked <==> i < q.cursor)
    && |s.history.deliveries| == q.cursor
    && forall i :: 0 <= i < q.cursor ==> s.history.deliveries[i] == i
  }

  ghost predicate PostedAt(stream: seq<Entry>, i: int, job: JobId)
  {
    0 <= i < |stream| && stream[i].JobEntry? && stream[i].job == job
  }

  ghost predicate Posted(stream: seq<Entry>, job: JobId)
  {
    exists i :: PostedAt(stream, i, job)
  }

  /** Every entry names a committed row, every row is announced once or still to be announced. */
  ghost predicate PostsOk(s: State)
  {
    var q := s.queue;
    && q.unpublished <= s.jobs.Keys
    && (forall i, j :: PostedAt(q.stream, i, j) ==> j in s.jobs && j !in q.unpublished)
    && (forall i, k, j :: PostedAt(q.stream, i, j) && PostedAt(q.stream, k, j) ==> i == k)
    && forall j :: j in s.jobs && j !in q.unpublished ==> Posted(q.stream, j)
  }

  /** The entry a worker holds is pending, and it has been looked into unless just received. */
  ghost predicate Owns(q: Queue, begun: set<nat>, l: Local)
  {
    l.Idle? || (
      && l.entry in q.pending && l.entry < |q.stream|
      && (l.entry in begun <==> !l.Got?)
      && (l.Busy? || l.Failing? ==> PostedAt(q.stream, l.entry, l.job)))
  }

  ghost predicate OwnersOk(s: State)
  {
    && (forall w :: w in s.workers ==> Owns(s.queue, s.history.begun, s.workers[w]))
    && (forall v, w :: v in s.workers && w in s.workers && v != w && !s.workers[v].Idle? && !s.workers[w].Idle?
          ==> s.workers[v].entry != s.workers[w].entry)
    && forall e :: e in s.history.begun ==> e < s.queue.cursor
  }

  /** The statements left move progress up, to at most 95, and a finishing one is the last. */
  ghost predicate Climbs(p: int, ops: seq<Op>)
    decreases ops
  {
    && ops != []
    && match ops[0]
       case Report(q) => p <= q <= 95 && Climbs(q, ops[1..])
       case Load(_, _) => p <= 35 && |ops| == 1
       case Finish => |ops| == 1
       case _ => Climbs(p, ops[1..])
  }

  /** Nothing more is owed to this row: it is terminal, or its failure could not be written. */
  ghost predicate Settled(jobs: JobTable, lost: set<JobId>, job: JobId)
  {
    job in jobs && (Terminal(jobs[job]) || job in lost)
  }

  /** What a worker's position says about the row of its job. */
  ghost predicate RowFits(jobs: JobTable, h: History, stream: seq<Entry>, l: Local)
  {
    match l
    case Busy(_, job, ops, _) => job in jobs && jobs[job].status.Processing? && Climbs(jobs[job].progress, ops)
    case Failing(_, job) => job in jobs && !jobs[job].status.Failed? && (jobs[job].status.Done? ==> job in h.unheard)
    case Acking(e) => forall j :: PostedAt(stream, e, j) ==> Settled(jobs, h.lost, j)
    case _ => true
  }

  ghost predicate RowsOk(s: State)
  {
    && (forall w :: w in s.workers ==> RowFits(s.jobs, s.history, s.queue.stream, s.workers[w]))
    && (forall j :: j in s.queue.unpublished && j in s.jobs ==> s.jobs[j] == NEW_JOB)
    && (forall i, j :: PostedAt(s.queue.stream, i, j) && i !in s.history.begun && j in s.jobs ==> s.jobs[j] == NEW_JOB)
    && (forall i, j :: PostedAt(s.queue.stream, i, j) && i in s.queue.acked ==> Settled(s.jobs, s.history.lost, j))
    && forall j :: j in s.jobs ==> 0 <= s.jobs[j].progress <= 100
  }

  ghost predicate ProtocolOk(s: State)
  {
    QueueOk(s) && PostsOk(s) && OwnersOk(s) && RowsOk(s)
  }

  // ── Plans ──────────────────────────────────────────────────────────────

  lemma {:induction false} ClimbsFromBelow(p: int, q: int, ops: seq<Op>)
    requires p <= q && Climbs(q, ops)
    ensures Climbs(p, ops)
  {
    if !ops[0].Report? && !ops[0].Load? && !ops[0].Finish? {
      ClimbsFromBelow(p, q, ops[1..]);
    }
  }

  /** Statements without effect on progress can be put in front. */
  ghost predicate Quiet(op: Op)
  {
    !op.Report? && !op.Load? && !op.Finish?
  }

  lemma {:induction false} ClimbsAfterQuiet(p: int, quiet: seq<Op>, rest: seq<Op>)
    requires (forall op :: op in quiet ==> Quiet(op)) && Climbs(p, rest)
    ensures Climbs(p, quiet + rest)
  {
    if quiet == [] {
      assert quiet + rest == rest;
    } else {
      assert quiet[0] in quiet;
      ClimbsAfterQuiet(p, quiet[1..], rest);
      assert (quiet + rest)[1..] == quiet[1..] + rest;
    }
  }

  lemma ClimbsAfterReport(p: int, q: int, rest: seq<Op>)
    requires p <= q <= 95 && Climbs(q, rest)
    ensures Climbs(p, [Report(q)] + rest)
  {
  }

  lemma EndClimbs()
    ensures Climbs(95, [Finish]) && Climbs(70, [Report(95), Finish])
  {
  }

  lemma ImportClimbs(students: seq<seq<StudentRow>>, guardians: seq<seq<GuardianRow>>, links: seq<LinkRow>)
    ensures Climbs(5, ImportPlan(students, guardians, links))
  {
    var end := [Report(95), Finish];
    EndClimbs();
    ClimbsAfterQuiet(70, LinkOps(links), end);
    ClimbsAfterReport(45, 70, LinkOps(links) + end);
    var second := [Report(70)] + (LinkOps(links) + end);
    ClimbsAfterQuiet(45, GuardianOps(guardians), second);
    ClimbsAfterReport(10, 45, GuardianOps(guardians) + second);
    var first := [Report(45)] + (GuardianOps(guardians) + second);
    ClimbsAfterQuiet(10, StudentOps(students), first);
    ClimbsAfterReport(5, 10, StudentOps(students) + first);
  }

  lemma DeidClimbs(pseudonymize: bool, kind: Kind)
    ensures Climbs(5, DeidPlan(pseudonymize, kind))
  {
  }

  lemma AfterLoadClimbs(p: int, pseudonymize: bool, cells: seq<Cell>)
    requires p <= 35
    ensures Climbs(p, AfterLoad(pseudonymize, cells))
  {
    EndClimbs();
    var end := [WriteFile, Report(95), Finish];
    assert end[1..] == [Report(95), Finish];
    ClimbsAfterReport(35, 70, end);
    var todo := TokenizeOps(ToTokenize(pseudonymize, cells));
    assert [Report(70), WriteFile, Report(95), Finish] == [Report(70)] + end;
    ClimbsAfterQuiet(35, todo, [Report(70), WriteFile, Report(95), Finish]);
    ClimbsAfterReport(p, 35, todo + [Report(70), WriteFile, Report(95), Finish]);
  }

  lemma PlanClimbs(entry: Entry, plan: seq<Op>)
    requires entry.JobEntry? && !entry.msg.UnknownJob? && PlanFits(entry, plan)
    ensures Climbs(5, plan)
  {
    match entry.msg
    case ImportJob =>
      var st, g, l :| plan == ImportPlan(st, g, l);
      ImportClimbs(st, g, l);
    case DeidJob(p, k) => DeidClimbs(p, k);
  }

  // ── Steps of the backend and of delivery ───────────────────────────────

  lemma SubmitKeeps(s: State, job: JobId)
    requires ProtocolOk(s) && Enabled(s, Submit(job))
    ensures ProtocolOk(Next(s, Submit(job)))
  {
  }

  /** Longer streams name the same jobs at the old positions. */
  lemma PostedGrows(stream: seq<Entry>, e: Entry)
    ensures forall i, j :: PostedAt(stream + [e], i, j)
              <==> PostedAt(stream, i, j) || (i == |stream| && e.JobEntry? && e.job == j)
    ensures forall j :: Posted(stream, j) ==> Posted(stream + [e], j)
  {
  }

  lemma PublishKeeps(s: State, job: JobId, msg: Message)
    requires ProtocolOk(s) && Enabled(s, Publish(job, msg))
    ensures ProtocolOk(Next(s, Publish(job, msg)))
  {
    var t := Next(s, Publish(job, msg));
    PostedGrows(s.queue.stream, JobEntry(job, msg));
    assert PostedAt(t.queue.stream, |s.queue.stream|, job);
    forall i, j | PostedAt(t.queue.stream, i, j) ensures j in t.jobs && j !in t.queue.unpublished {
      if i < |s.queue.stream| {
        assert PostedAt(s.queue.stream, i, j);
      }
    }
  }

  lemma IntrudeKeeps(s: State)
    requires ProtocolOk(s)
    ensures ProtocolOk(Next(s, Intrude))
  {
    PostedGrows(s.queue.stream, Junk);
  }

  lemma DeliveryKeeps(s: State, a: Action)
    requires ProtocolOk(s) && Enabled(s, a) && (a.Deliver? || a.LoseDelivery?)
    ensures ProtocolOk(Next(s, a))
  {
  }

  lemma AcknowledgeKeeps(s: State, w: WorkerId, ok: bool)
    requires ProtocolOk(s) && Enabled(s, Acknowledge(w, ok))
    ensures ProtocolOk(Next(s, Acknowledge(w, ok)))
  {
  }

  lemma StartOrCrashKeeps(s: State, a: Action)
    requires ProtocolOk(s) && Enabled(s, a) && (a.Start? || a.Crash?)
    ensures ProtocolOk(Next(s, a))
  {
  }

  // ── Steps of a worker that holds an entry ──────────────────────────────

  /** A worker's move that touches at most the row of its own entry. */
  ghost predicate OwnMove(s: State, t: State, w: WorkerId)
  {
    && w in s.workers && !s.workers[w].Idle? && s.workers[w].entry < |s.queue.stream|
    && var e := s.workers[w].entry;
       && t.queue == s.queue && w in t.workers && t.workers == s.workers[w := t.workers[w]]
       && t.history.deliveries == s.history.deliveries
       && t.history.begun == s.history.begun + {e}
       && s.history.lost <= t.history.lost && s.history.unheard <= t.history.unheard
       && t.jobs.Keys == s.jobs.Keys
       && (forall j :: j in s.jobs && !PostedAt(s.queue.stream, e, j) ==> t.jobs[j] == s.jobs[j])
       && !t.workers[w].Idle? && !t.workers[w].Got? && t.workers[w].entry == e
  }

  lemma OwnMoveKeepsOwners(s: State, t: State, w: WorkerId)
    requires ProtocolOk(s) && OwnMove(s, t, w)
    requires t.workers[w].Busy? || t.workers[w].Failing? ==>
               PostedAt(s.queue.stream, t.workers[w].entry, t.workers[w].job)
    ensures QueueOk(t) && PostsOk(t) && OwnersOk(t)
  {
  }

  /** Nobody else's job is affected, so only the mover's own row has to be looked at. */
  lemma OwnMoveKeepsRows(s: State, t: State, w: WorkerId)
    requires ProtocolOk(s) && OwnMove(s, t, w)
    requires RowFits(t.jobs, t.history, t.queue.stream, t.workers[w])
    requires forall j ::
               j in t.jobs && PostedAt(s.queue.stream, s.workers[w].entry, j) ==> 0 <= t.jobs[j].progress <= 100
    ensures RowsOk(t)
  {
    var e := s.workers[w].entry;
    forall v | v in t.workers ensures RowFits(t.jobs, t.history, t.queue.stream, t.workers[v]) {
      if v != w && !s.workers[v].Idle? {
        assert Owns(s.queue, s.history.begun, s.workers[v]) && s.workers[v].entry != e;
        assert RowFits(s.jobs, s.history, s.queue.stream, s.workers[v]);
      }
    }
  }

  lemma BeginKeeps(s: State, w: WorkerId, plan: seq<Op>, reply: Reply)
    requires ProtocolOk(s) && Enabled(s, Begin(w, plan, reply))
    ensures ProtocolOk(Next(s, Begin(w, plan, reply)))
  {
    var t, e := Next(s, Begin(w, plan, reply)), s.workers[w].entry;
    if s.queue.stream[e].JobEntry? {
      var job := s.queue.stream[e].job;
      assert PostedAt(s.queue.stream, e, job) && s.jobs[job] == NEW_JOB;
      if !s.queue.stream[e].msg.UnknownJob? {
        PlanClimbs(s.queue.stream[e], plan);
      }
    }
    OwnMoveKeepsOwners(s, t, w);
    OwnMoveKeepsRows(s, t, w);
  }

  /** The row of a job keeps up with the statements its worker has left. */
  lemma PerformedFits(s: State, w: WorkerId, reply: Reply, token: string, loaded: seq<Cell>)
    requires Enabled(s, Perform(w, reply, token, loaded))
    requires RowFits(s.jobs, s.history, s.queue.stream, s.workers[w])
    requires 0 <= s.jobs[s.workers[w].job].progress <= 100
    ensures var t, l := Performed(s, w, reply, token, loaded), s.workers[w];
            && w in t.workers && l.job in t.jobs && 0 <= t.jobs[l.job].progress <= 100
            && (t.workers[w].Acking? ==> Terminal(t.jobs[l.job]))
            && (!t.workers[w].Acking? ==> RowFits(t.jobs, t.history, t.queue.stream, t.workers[w]))
  {
    var l := s.workers[w];
    match l.ops[0] {
      case Report(q) => ClimbsFromBelow(s.jobs[l.job].progress, q, l.ops[1..]);
      case Load(_, p) => AfterLoadClimbs(s.jobs[l.job].progress, p, loaded);
      case _ =>
    }
  }

  lemma PerformedIsOwn(s: State, w: WorkerId, reply: Reply, token: string, loaded: seq<Cell>)
    requires Enabled(s, Perform(w, reply, token, loaded))
    requires Owns(s.queue, s.history.begun, s.workers[w])
    ensures var t, l := Performed(s, w, reply, token, loaded), s.workers[w];
            && OwnMove(s, t, w)
            && (t.workers[w].Busy? || t.workers[w].Failing? ==> t.workers[w].job == l.job)
            && (t.workers[w].Acking? ==> t.jobs == Finished(s.jobs, l.job))
  {
  }

  lemma PerformKeeps(s: State, w: WorkerId, reply: Reply, token: string, loaded: seq<Cell>)
    requires ProtocolOk(s) && Enabled(s, Perform(w, reply, token, loaded))
    ensures ProtocolOk(Next(s, Perform(w, reply, token, loaded)))
  {
    var t, l := Performed(s, w, reply, token, loaded), s.workers[w];
    assert Owns(s.queue, s.history.begun, l);
    PerformedIsOwn(s, w, reply, token, loaded);
    PerformedFits(s, w, reply, token, loaded);
    OwnMoveKeepsOwners(s, t, w);
    OwnMoveKeepsRows(s, t, w);
  }

  lemma AbortOrFailKeeps(s: State, a: Action)
    requires ProtocolOk(s) && Enabled(s, a) && (a.Abort? || a.Fail?)
    ensures ProtocolOk(Next(s, a))
  {
    var t, l := Next(s, a), s.workers[a.w];
    assert Owns(s.queue, s.history.begun, l) && RowFits(s.jobs, s.history, s.queue.stream, l);
    OwnMoveKeepsOwners(s, t, a.w);
    OwnMoveKeepsRows(s, t, a.w);
  }

  // ── Every run ──────────────────────────────────────────────────────────

  lemma StepKeepsProtocol(s: State, a: Action)
    requires ProtocolOk(s) && Enabled(s, a)
    ensures ProtocolOk(Next(s, a))
  {
    match a
    case Submit(job) => SubmitKeeps(s, job);
    case Publish(job, msg) => PublishKeeps(s, job, msg);
    case Intrude => IntrudeKeeps(s);
    case Start(_) => StartOrCrashKeeps(s, a);
    case Crash(_) => StartOrCrashKeeps(s, a);
    case Deliver(_) => DeliveryKeeps(s, a);
    case LoseDelivery => DeliveryKeeps(s, a);
    case Begin(w, plan, reply) => BeginKeeps(s, w, plan, reply);
    case Perform(w, reply, token, loaded) => PerformKeeps(s, w, reply, token, loaded);
    case Abort(_) => AbortOrFailKeeps(s, a);
    case Fail(_, _) => AbortOrFailKeeps(s, a);
    case Acknowledge(w, ok) => AcknowledgeKeeps(s, w, ok);
  }

  lemma {:induction false} EveryRunKeepsProtocol(core: Core, acts: seq<Action>)
    ensures ProtocolOk(Run(core, acts))
  {
    if acts != [] {
      var n := |acts| - 1;
      EveryRunKeepsProtocol(core, acts[..n]);
      if Enabled(Run(core, acts[..n]), acts[n]) {
        StepKeepsProtocol(Run(core, acts[..n]), acts[n]);
      }
    }
  }
}
