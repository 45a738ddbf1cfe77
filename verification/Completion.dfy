/**
 What the system can still do: a running job can always be driven to its end, and
 an import that is driven undisturbed leaves the tables of the sequential import.
 */
module Completion {
  import opened Text
  import opened Records
  import opened Vault
  import opened Jobs
  import opened Cells
  import opened Storage
  import opened Ordering
  import opened Cluster
  import opened Protocol
  import opened JobSafety

  // ── Choices a step needs ───────────────────────────────────────────────

  lemma LoadExists<D>(t: map<Uuid, D>) returns (rows: seq<Row<D>>)
    ensures LoadedFrom(rows, t)
  {
    var list := ListingExists(t.Keys);
    forall i | 0 <= i < |list| ensures list[i] in t {
      assert list[i] in list;
    }
    rows := seq(|list|, i requires 0 <= i < |list| => Row(list[i], t[list[i]]));
    assert RowIds(rows) == list;
  }

  lemma CellsExist(core: Core, kind: Kind) returns (cells: seq<Cell>)
    ensures IsLoad(core, kind, cells)
  {
    match kind
    case Student =>
      var rows := LoadExists(core.students);
      cells := AllCells(Anonymizer.Entities(rows), FIELDS);
    case Guardian =>
      var rows := LoadExists(core.guardians);
      cells := AllCells(Anonymizer.GuardianEntities(rows), FIELDS);
  }

  lemma {:induction false} LongerThanAll(tokens: set<string>) returns (token: string)
    ensures forall t :: t in tokens ==> |t| < |token|
    decreases tokens
  {
    if tokens == {} {
      token := "";
    } else {
      var x :| x in tokens;
      var longer := LongerThanAll(tokens - {x});
      token := longer + x + "t";
    }
  }

  lemma TokenExists(issued: set<string>) returns (token: string)
    ensures token !in issued
  {
    token := LongerThanAll(issued);
  }

  // ── A running job can finish ───────────────────────────────────────────

  ghost predicate Loads(ops: seq<Op>)
  {
    exists op :: op in ops && op.Load?
  }

  lemma {:induction false} LoadsComeLast(p: int, ops: seq<Op>)
    requires Climbs(p, ops)
    ensures Loads(ops[1..]) ==> Loads(ops)
    ensures ops[0].Load? ==> |ops| == 1
  {
  }

  lemma NothingLoadsAfterLoad(pseudonymize: bool, cells: seq<Cell>)
    ensures !Loads(AfterLoad(pseudonymize, cells))
  {
  }

  lemma Extend(core: Core, acts: seq<Action>, a: Action)
    requires Enabled(Run(core, acts), a)
    ensures Run(core, acts + [a]) == Next(Run(core, acts), a)
  {
  }

  /** One acknowledged statement that is not the last brings a running job closer to its end. */
  lemma OneStatement(core: Core, acts: seq<Action>, w: WorkerId) returns (a: Action)
    requires var s := Run(core, acts);
             w in s.workers && s.workers[w].Busy? && s.workers[w].ops != [] && !s.workers[w].ops[0].Finish?
    ensures Enabled(Run(core, acts), a) && a.Perform? && a.w == w
    ensures var l, m := Run(core, acts).workers[w], Next(Run(core, acts), a).workers[w];
            && m.Busy? && m.entry == l.entry && m.job == l.job
            && (l.ops[0].Load? ==> !Loads(m.ops)) && (!l.ops[0].Load? ==> m.ops == l.ops[1..])
  {
    var s := Run(core, acts);
    var op := s.workers[w].ops[0];
    var loaded: seq<Cell>, token := [], "";
    if op.Load? {
      loaded := CellsExist(s.data.core, op.kind);
      NothingLoadsAfterLoad(op.pseudonymize, loaded);
    }
    if op.Tokenize? {
      token := TokenExists(s.data.issued);
    }
    a := Perform(w, Acknowledged, token, loaded);
  }

  lemma LastStatement(core: Core, acts: seq<Action>, w: WorkerId) returns (more: seq<Action>)
    requires var s := Run(core, acts);
             w in s.workers && s.workers[w].Busy? && s.workers[w].ops != [] && s.workers[w].ops[0].Finish?
    ensures var l, t := Run(core, acts).workers[w], Run(core, more);
            acts <= more && l.job in t.jobs && t.jobs[l.job] == Job(Done, 100, None, true) && l.entry in t.queue.acked
    ensures Run(core, more).data == Run(core, acts).data
  {
    EveryRunKeepsProtocol(core, acts);
    var s := Run(core, acts);
    assert RowFits(s.jobs, s.history, s.queue.stream, s.workers[w]);
    var a, b := Perform(w, Acknowledged, "", []), Acknowledge(w, true);
    Extend(core, acts, a);
    Extend(core, acts + [a], b);
    more := acts + [a] + [b];
  }

  /**
   No reachable state traps a running job: from wherever its worker stands there
   is a continuation in which the job is done and its entry acknowledged.
   */
  lemma {:induction false} RunningJobsCanFinish(core: Core, acts: seq<Action>, w: WorkerId) returns (more: seq<Action>)
    requires var s := Run(core, acts); w in s.workers && s.workers[w].Busy?
    ensures var l, t := Run(core, acts).workers[w], Run(core, more);
            acts <= more && l.job in t.jobs && t.jobs[l.job] == Job(Done, 100, None, true) && l.entry in t.queue.acked
    decreases Loads(Run(core, acts).workers[w].ops), |Run(core, acts).workers[w].ops|
  {
    var s := Run(core, acts);
    var l := s.workers[w];
    EveryRunKeepsProtocol(core, acts);
    assert RowFits(s.jobs, s.history, s.queue.stream, l);
    LoadsComeLast(s.jobs[l.job].progress, l.ops);
    if l.ops[0].Finish? {
      more := LastStatement(core, acts, w);
    } else {
      var a := OneStatement(core, acts, w);
      Extend(core, acts, a);
      assert l.ops[0] in l.ops;
      more := RunningJobsCanFinish(core, acts + [a], w);
    }
  }

  // ── An undisturbed import ──────────────────────────────────────────────

  function Flatten<T>(batches: seq<seq<T>>): seq<T>
  {
    if batches == [] then [] else batches[0] + Flatten(batches[1..])
  }

  /** The statements of an import, all acknowledged. */
  function Applying(core: Core, ops: seq<Op>): Core
    decreases ops
  {
    if ops == [] then core else Applying(Effect(Data(core, map[], {}, {}), ops[0], "", File(0, [])).core, ops[1..])
  }

  predicate OfImport(op: Op)
  {
    op.Report? || op.PutStudents? || op.PutGuardians? || op.PutLinkRow?
  }

  lemma {:induction false} ApplyingTogether(core: Core, a: seq<Op>, b: seq<Op>)
    ensures Applying(core, a + b) == Applying(Applying(core, a), b)
    decreases a
  {
    if a == [] {
      assert a + b == b;
    } else {
      assert (a + b)[1..] == a[1..] + b;
      ApplyingTogether(Effect(Data(core, map[], {}, {}), a[0], "", File(0, [])).core, a[1..], b);
    }
  }

  lemma {:induction false} ApplyingStudents(core: Core, batches: seq<seq<StudentRow>>)
    ensures Applying(core, StudentOps(batches)) == core.(students := PutAll(core.students, Flatten(batches)))
    decreases batches
  {
    if batches != [] {
      assert StudentOps(batches)[1..] == StudentOps(batches[1..]);
      ApplyingStudents(core.(students := PutAll(core.students, batches[0])), batches[1..]);
      PutAllConcat(core.students, batches[0], Flatten(batches[1..]));
    }
  }

  lemma {:induction false} ApplyingGuardians(core: Core, batches: seq<seq<GuardianRow>>)
    ensures Applying(core, GuardianOps(batches)) == core.(guardians := PutAll(core.guardians, Flatten(batches)))
    decreases batches
  {
    if batches != [] {
      assert GuardianOps(batches)[1..] == GuardianOps(batches[1..]);
      ApplyingGuardians(core.(guardians := PutAll(core.guardians, batches[0])), batches[1..]);
      PutAllConcat(core.guardians, batches[0], Flatten(batches[1..]));
    }
  }

  lemma {:induction false} ApplyingLinks(core: Core, links: seq<LinkRow>)
    ensures Applying(core, LinkOps(links)) == PutLinks(core, links)
  {
    if links != [] {
      var n := |links| - 1;
      ApplyingLinks(core, links[..n]);
      assert LinkOps(links) == LinkOps(links[..n]) + [PutLinkRow(links[n])];
      ApplyingTogether(core, LinkOps(links[..n]), [PutLinkRow(links[n])]);
    }
  }

  lemma ApplyingReport(core: Core, p: int, ops: seq<Op>)
    ensures Applying(core, [Report(p)] + ops) == Applying(core, ops)
  {
  }

  /** However the rows are split into batches, the statements of an import make up `Import`. */
  lemma ApplyingImport(core: Core, students: seq<seq<StudentRow>>, guardians: seq<seq<GuardianRow>>,
                       links: seq<LinkRow>)
    ensures Applying(core, ImportPlan(students, guardians, links))
            == Import(core, Dataset(Flatten(students), Flatten(guardians), links))
  {
    var end := [Report(95), Finish];
    var third := LinkOps(links) + end;
    var second := GuardianOps(guardians) + ([Report(70)] + third);
    var first := StudentOps(students) + ([Report(45)] + second);
    var c := core.(students := PutAll(core.students, Flatten(students)));
    var d := c.(guardians := PutAll(core.guardians, Flatten(guardians)));
    ApplyingReport(core, 10, first);
    ApplyingTogether(core, StudentOps(students), [Report(45)] + second);
    ApplyingStudents(core, students);
    ApplyingReport(c, 45, second);
    ApplyingTogether(c, GuardianOps(guardians), [Report(70)] + third);
    ApplyingGuardians(c, guardians);
    ApplyingReport(d, 70, third);
    ApplyingTogether(d, LinkOps(links), end);
    ApplyingLinks(d, links);
    ApplyingReport(PutLinks(d, links), 95, [Finish]);
    assert [Report(95)] + [Finish] == end;
    assert [Finish][1..] == [];
  }

  /** A worker left alone carries out its import statements one after the other. */
  lemma {:induction false} AloneApplies(core: Core, acts: seq<Action>, w: WorkerId, ops: seq<Op>)
    returns (more: seq<Action>)
    requires var s := Run(core, acts);
             w in s.workers && s.workers[w].Busy? && s.workers[w].ops == ops + [Finish]
    requires forall op :: op in ops ==> OfImport(op)
    ensures var l, t := Run(core, acts).workers[w], Run(core, more);
            && acts <= more && w in t.workers && t.workers[w] == l.(ops := [Finish])
            && t.data.core == Applying(Run(core, acts).data.core, ops)
    decreases ops
  {
    more := acts;
    if ops != [] {
      assert ops[0] in ops;
      var a := Perform(w, Acknowledged, "", []);
      Extend(core, acts, a);
      assert (ops + [Finish])[1..] == ops[1..] + [Finish];
      more := AloneApplies(core, acts + [a], w, ops[1..]);
    }
  }

  /** The tables after some link inserts and progress writes, of which the refused ones did nothing. */
  function AfterLinks(core: Core, ops: seq<Op>, replies: seq<Reply>): Core
    requires |ops| == |replies|
    decreases ops
  {
    if ops == [] then core
    else
      var next := if ops[0].PutLinkRow? && !replies[0].Refused? then PutLink(core, ops[0].link) else core;
      AfterLinks(next, ops[1..], replies[1..])
  }

  function Performs(w: WorkerId, replies: seq<Reply>): (acts: seq<Action>)
    ensures |acts| == |replies|
  {
    seq(|replies|, i requires 0 <= i < |replies| => Perform(w, replies[i], "", []))
  }

  /**
   What stops a run: a run goes on behind a status write or a link insert in any
   case, and behind any other statement exactly when that was heard to succeed;
   it begins only when the first status write was.
   */
  lemma RunGoesOn(s: State, w: WorkerId, reply: Reply, token: string, loaded: seq<Cell>, plan: seq<Op>)
    ensures Enabled(s, Perform(w, reply, token, loaded)) ==>
              var op, m := s.workers[w].ops[0], Next(s, Perform(w, reply, token, loaded)).workers[w];
              && (m.Busy? <==> op.Report? || op.PutLinkRow? || (reply.Acknowledged? && !op.Finish?))
              && (m.Acking? <==> op.Finish? && reply.Acknowledged?)
    ensures Enabled(s, Begin(w, plan, reply)) ==>
              var m := Next(s, Begin(w, plan, reply)).workers[w];
              m.Busy? ==> reply.Acknowledged? && m.job in s.jobs && m.ops == plan && m.cells == []
  {
  }

  /** One of these statements, whatever becomes of it. */
  lemma PassedOver(core: Core, acts: seq<Action>, w: WorkerId, reply: Reply)
    requires var s := Run(core, acts);
             && w in s.workers && s.workers[w].Busy? && s.workers[w].ops != []
             && (s.workers[w].ops[0].PutLinkRow? || s.workers[w].ops[0].Report?)
    ensures var s, t := Run(core, acts), Run(core, acts + [Perform(w, reply, "", [])]);
            var l := s.workers[w];
            && w in t.workers && t.workers[w] == l.(ops := l.ops[1..])
            && t.data == s.data.(core := if l.ops[0].PutLinkRow? && !reply.Refused?
                                         then PutLink(s.data.core, l.ops[0].link) else s.data.core)
  {
    Extend(core, acts, Perform(w, reply, "", []));
  }

  /**
   Neither a link insert nor a progress write ever stops an import: whatever
   becomes of each of them, the worker goes on to the statement behind them, and
   only the links whose statement was refused are missing.
   */
  lemma {:induction false} LinksNeverStopARun(core: Core, acts: seq<Action>, w: WorkerId, ops: seq<Op>, rest: seq<Op>,
                                              replies: seq<Reply>)
    requires var s := Run(core, acts); w in s.workers && s.workers[w].Busy? && s.workers[w].ops == ops + rest
    requires |ops| == |replies| && forall op :: op in ops ==> op.PutLinkRow? || op.Report?
    ensures var s, t := Run(core, acts), Run(core, acts + Performs(w, replies));
            && w in t.workers && t.workers[w] == s.workers[w].(ops := rest)
            && t.data == s.data.(core := AfterLinks(s.data.core, ops, replies))
    decreases ops
  {
    if ops == [] {
      assert acts + Performs(w, replies) == acts && ops + rest == rest;
    } else {
      var a := Perform(w, replies[0], "", []);
      assert ops[0] in ops && (ops + rest)[1..] == ops[1..] + rest;
      PassedOver(core, acts, w, replies[0]);
      LinksNeverStopARun(core, acts + [a], w, ops[1..], rest, replies[1..]);
      assert acts + Performs(w, replies) == acts + [a] + Performs(w, replies[1..]);
    }
  }

  /** All statements of an import but the finishing write. */
  function ImportBody(students: seq<seq<StudentRow>>, guardians: seq<seq<GuardianRow>>, links: seq<LinkRow>): seq<Op>
  {
    var plan := ImportPlan(students, guardians, links);
    plan[..|plan| - 1]
  }

  lemma ImportBodyOfImport(students: seq<seq<StudentRow>>, guardians: seq<seq<GuardianRow>>, links: seq<LinkRow>)
    ensures ImportPlan(students, guardians, links) == ImportBody(students, guardians, links) + [Finish]
    ensures forall op :: op in ImportBody(students, guardians, links) ==> OfImport(op)
  {
  }

  lemma ApplyingBody(core: Core, students: seq<seq<StudentRow>>, guardians: seq<seq<GuardianRow>>, links: seq<LinkRow>)
    ensures Applying(core, ImportBody(students, guardians, links))
            == Import(core, Dataset(Flatten(students), Flatten(guardians), links))
  {
    var body := ImportBody(students, guardians, links);
    ImportBodyOfImport(students, guardians, links);
    ApplyingTogether(core, body, [Finish]);
    ApplyingImport(core, students, guardians, links);
    assert [Finish][1..] == [];
  }

  /** An import that nobody disturbs gets through everything but its finishing write. */
  lemma ImportDriven(core: Core, acts: seq<Action>, w: WorkerId,
                     students: seq<seq<StudentRow>>, guardians: seq<seq<GuardianRow>>, links: seq<LinkRow>)
    returns (driven: seq<Action>)
    requires var s := Run(core, acts);
             w in s.workers && s.workers[w].Busy? && s.workers[w].ops == ImportPlan(students, guardians, links)
    ensures var s, t := Run(core, acts), Run(core, driven);
            && acts <= driven && w in t.workers && t.workers[w] == s.workers[w].(ops := [Finish])
            && t.data.core == Import(s.data.core, Dataset(Flatten(students), Flatten(guardians), links))
  {
    var ops := ImportBody(students, guardians, links);
    ImportBodyOfImport(students, guardians, links);
    driven := AloneApplies(core, acts, w, ops);
    ApplyingBody(Run(core, acts).data.core, students, guardians, links);
  }

  /**
   An import that nobody disturbs ends done, and its batches and statements
   together have done to the tables what the sequential import does.
   */
  lemma ImportAlone(core: Core, acts: seq<Action>, w: WorkerId,
                    students: seq<seq<StudentRow>>, guardians: seq<seq<GuardianRow>>, links: seq<LinkRow>)
    returns (more: seq<Action>)
    requires var s := Run(core, acts);
             w in s.workers && s.workers[w].Busy? && s.workers[w].ops == ImportPlan(students, guardians, links)
    ensures var s, t := Run(core, acts), Run(core, more);
            && acts <= more
            && t.data.core == Import(s.data.core, Dataset(Flatten(students), Flatten(guardians), links))
            && s.workers[w].job in t.jobs && t.jobs[s.workers[w].job].status.Done?
            && s.workers[w].entry in t.queue.acked
  {
    var driven := ImportDriven(core, acts, w, students, guardians, links);
    more := LastStatement(core, driven, w);
  }

  // ── Runs from the very start ───────────────────────────────────────────

  function Opening(job: JobId, msg: Message): seq<Action>
  {
    [Submit(job), Publish(job, msg), Start(0), Deliver(0)]
  }

  /** One job is created, announced and received. */
  lemma OpeningRuns(core: Core, job: JobId, msg: Message)
    ensures var s := Run(core, Opening(job, msg));
            && s.workers == map[0 := Got(0)] && s.queue.stream == [JobEntry(job, msg)] && s.data.core == core
            && s.jobs == map[job := NEW_JOB]
            && s.queue.cursor == 1 && s.queue.pending == {0} && s.queue.acked == {}
  {
    assert Run(core, []) == Init(core);
    Extend(core, [], Submit(job));
    var a := [] + [Submit(job)];
    Extend(core, a, Publish(job, msg));
    Extend(core, a + [Publish(job, msg)], Start(0));
    Extend(core, a + [Publish(job, msg)] + [Start(0)], Deliver(0));
    assert Opening(job, msg) == a + [Publish(job, msg)] + [Start(0)] + [Deliver(0)];
  }

  /**
   At-least-once is not what the queue gives: a worker that crashes after it has
   received an entry leaves the entry orphaned and the job's row as created.
   */
  lemma CrashOrphans(core: Core, job: JobId, msg: Message)
    ensures var s := Run(core, Opening(job, msg) + [Crash(0)]);
            Orphaned(s, 0) && PostedAt(s.queue.stream, 0, job) && job in s.jobs && s.jobs[job] == NEW_JOB
  {
    OpeningRuns(core, job, msg);
    Extend(core, Opening(job, msg), Crash(0));
  }

  /** Wherever a finishing write is all that is left: if its reply is lost, the row becomes done and then failed. */
  lemma LostReplyUndoesDone(core: Core, acts: seq<Action>, w: WorkerId)
    requires var s := Run(core, acts); w in s.workers && s.workers[w].Busy? && s.workers[w].ops == [Finish]
    ensures var job, a := Run(core, acts).workers[w].job, Perform(w, Unheard, "", []);
            var t, u := Run(core, acts + [a]), Run(core, acts + [a] + [Fail(w, Acknowledged)]);
            && job in t.jobs && t.jobs[job].status.Done? && job in u.jobs && Undone(t.jobs[job], u.jobs[job])
            && u.data == Run(core, acts).data
  {
    var s, a := Run(core, acts), Perform(w, Unheard, "", []);
    EveryRunKeepsProtocol(core, acts);
    assert RowFits(s.jobs, s.history, s.queue.stream, s.workers[w]);
    Extend(core, acts, a);
    Extend(core, acts + [a], Fail(w, Acknowledged));
  }

  /** A run from the start in which a row goes from done to failed; there is one for every import. */
  lemma DoneCanBeUndone(core: Core, job: JobId, students: seq<seq<StudentRow>>, guardians: seq<seq<GuardianRow>>,
                        links: seq<LinkRow>)
    ensures exists acts: seq<Action>, n: nat ::
              && n <= |acts| && job in Run(core, acts[..n]).jobs && job in Run(core, acts).jobs
              && Run(core, acts[..n]).jobs[job].status.Done?
              && Undone(Run(core, acts[..n]).jobs[job], Run(core, acts).jobs[job])
              && Run(core, acts).data.core == Import(core, Dataset(Flatten(students), Flatten(guardians), links))
  {
    var driven := ImportFromScratch(core, job, students, guardians, links);
    LostReplyUndoesDone(core, driven, 0);
    var done := driven + [Perform(0, Unheard, "", [])];
    var run := done + [Fail(0, Acknowledged)];
    assert run[..|done|] == done;
  }

  /** An import that has done everything but its finishing write. */
  lemma ImportFromScratch(core: Core, job: JobId, students: seq<seq<StudentRow>>, guardians: seq<seq<GuardianRow>>,
                          links: seq<LinkRow>)
    returns (driven: seq<Action>)
    ensures var t := Run(core, driven);
            && 0 in t.workers && t.workers[0] == Busy(0, job, [Finish], [])
            && t.data.core == Import(core, Dataset(Flatten(students), Flatten(guardians), links))
  {
    var plan := ImportPlan(students, guardians, links);
    var begin := Begin(0, plan, Acknowledged);
    OpeningRuns(core, job, ImportJob);
    Extend(core, Opening(job, ImportJob), begin);
    driven := ImportDriven(core, Opening(job, ImportJob) + [begin], 0, students, guardians, links);
  }

  // ── Which entries can still be dealt with ──────────────────────────────

  ghost predicate Holds(s: State, w: WorkerId, e: nat)
  {
    w in s.workers && !s.workers[w].Idle? && s.workers[w].entry == e
  }

  lemma OrphanedOrHeld(s: State, e: nat)
    requires e in s.queue.pending && !Orphaned(s, e)
    ensures exists w :: Holds(s, w, e)
  {
    var w :| w in s.workers && !s.workers[w].Idle? && s.workers[w].entry == e;
    assert Holds(s, w, e);
  }

  lemma AckingCanAck(core: Core, acts: seq<Action>, w: WorkerId, e: nat) returns (more: seq<Action>)
    requires Holds(Run(core, acts), w, e) && Run(core, acts).workers[w].Acking?
    ensures acts <= more && e in Run(core, more).queue.acked
  {
    Extend(core, acts, Acknowledge(w, true));
    more := acts + [Acknowledge(w, true)];
  }

  lemma FailingCanAck(core: Core, acts: seq<Action>, w: WorkerId, e: nat) returns (more: seq<Action>)
    requires Holds(Run(core, acts), w, e) && Run(core, acts).workers[w].Failing?
    ensures acts <= more && e in Run(core, more).queue.acked
  {
    Extend(core, acts, Fail(w, Acknowledged));
    more := AckingCanAck(core, acts + [Fail(w, Acknowledged)], w, e);
  }

  /** A program that the message allows. */
  function SomePlan(entry: Entry): seq<Op>
  {
    match entry
    case Junk => []
    case JobEntry(_, msg) =>
      match msg
      case ImportJob => ImportPlan([], [], [])
      case DeidJob(p, k) => DeidPlan(p, k)
      case UnknownJob => []
  }

  lemma GotCanAck(core: Core, acts: seq<Action>, w: WorkerId, e: nat) returns (more: seq<Action>)
    requires Holds(Run(core, acts), w, e) && Run(core, acts).workers[w].Got?
    ensures acts <= more && e in Run(core, more).queue.acked
  {
    var s := Run(core, acts);
    EveryRunKeepsProtocol(core, acts);
    assert Owns(s.queue, s.history.begun, s.workers[w]);
    var entry := s.queue.stream[e];
    var begin := Begin(w, SomePlan(entry), Acknowledged);
    if entry.JobEntry? {
      assert PostedAt(s.queue.stream, e, entry.job);
    }
    Extend(core, acts, begin);
    var t := Run(core, acts + [begin]);
    if t.workers[w].Busy? {
      more := RunningJobsCanFinish(core, acts + [begin], w);
    } else if t.workers[w].Failing? {
      more := FailingCanAck(core, acts + [begin], w, e);
    } else {
      more := AckingCanAck(core, acts + [begin], w, e);
    }
  }

  lemma HeldCanBeAcked(core: Core, acts: seq<Action>, w: WorkerId, e: nat) returns (more: seq<Action>)
    requires Holds(Run(core, acts), w, e)
    ensures acts <= more && e in Run(core, more).queue.acked
  {
    var l := Run(core, acts).workers[w];
    if l.Got? {
      more := GotCanAck(core, acts, w, e);
    } else if l.Busy? {
      more := RunningJobsCanFinish(core, acts, w);
    } else if l.Failing? {
      more := FailingCanAck(core, acts, w, e);
    } else {
      more := AckingCanAck(core, acts, w, e);
    }
  }

  lemma {:induction false} AboveAll(ids: set<nat>) returns (n: nat)
    ensures forall i :: i in ids ==> i < n
    decreases ids
  {
    if ids == {} {
      n := 0;
    } else {
      var x :| x in ids;
      var m := AboveAll(ids - {x});
      n := if x < m then m else x + 1;
      assert forall i :: i in ids ==> i == x || i in ids - {x};
    }
  }

  /** An undelivered entry is reached by delivering those before it, if need be to nobody. */
  lemma {:induction false} UndeliveredCanBeAcked(core: Core, acts: seq<Action>, e: nat) returns (more: seq<Action>)
    requires Run(core, acts).queue.cursor <= e < |Run(core, acts).queue.stream|
    ensures acts <= more && e in Run(core, more).queue.acked
    decreases e - Run(core, acts).queue.cursor
  {
    var s := Run(core, acts);
    if s.queue.cursor < e {
      Extend(core, acts, LoseDelivery);
      more := UndeliveredCanBeAcked(core, acts + [LoseDelivery], e);
    } else {
      var w := AboveAll(s.workers.Keys);
      Extend(core, acts, Start(w));
      Extend(core, acts + [Start(w)], Deliver(w));
      more := HeldCanBeAcked(core, acts + [Start(w)] + [Deliver(w)], w, e);
    }
  }

  /** In some continuation of the run the entry is acknowledged. */
  ghost predicate CanBeAcked(core: Core, acts: seq<Action>, e: nat)
  {
    exists more :: acts <= more && e in Run(core, more).queue.acked
  }

  /**
   An entry of the stream can still be dealt with and acknowledged if and only if
   it is not orphaned: an orphaned one never is, and any other one, delivered or
   not, has a continuation that gets there.
   */
  lemma DealtWithUnlessOrphaned(core: Core, acts: seq<Action>, e: nat)
    requires e < |Run(core, acts).queue.stream|
    ensures CanBeAcked(core, acts, e) <==> !Orphaned(Run(core, acts), e)
  {
    var s := Run(core, acts);
    EveryRunKeepsProtocol(core, acts);
    if Orphaned(s, e) {
      forall more | acts <= more ensures e !in Run(core, more).queue.acked {
        assert more[..|acts|] == acts;
        OrphansStayPending(core, more, |acts|, e);
      }
    } else if e in s.queue.acked {
      assert acts <= acts;
    } else if e < s.queue.cursor {
      OrphanedOrHeld(s, e);
      var w :| Holds(s, w, e);
      var more := HeldCanBeAcked(core, acts, w, e);
    } else {
      var more := UndeliveredCanBeAcked(core, acts, e);
    }
  }

  // ── Progress writes ────────────────────────────────────────────────────

  ghost predicate SameButProgress(a: JobTable, b: JobTable)
  {
    a.Keys == b.Keys && forall j :: j in a ==> a[j].(progress := 0) == b[j].(progress := 0)
  }

  /** Two states that nobody can tell apart but by the progress shown. */
  ghost predicate Alike(s: State, t: State)
  {
    s.data == t.data && s.queue == t.queue && s.workers == t.workers && s.history == t.history
    && SameButProgress(s.jobs, t.jobs)
  }

  lemma PerformAlike(s: State, t: State, w: WorkerId, reply: Reply, token: string, loaded: seq<Cell>)
    requires Alike(s, t) && Enabled(s, Perform(w, reply, token, loaded))
    ensures Alike(Performed(s, w, reply, token, loaded), Performed(t, w, reply, token, loaded))
  {
  }

  lemma BeginAlike(s: State, t: State, w: WorkerId, plan: seq<Op>, reply: Reply)
    requires Alike(s, t) && Enabled(s, Begin(w, plan, reply))
    ensures Alike(Begun(s, w, plan, reply), Begun(t, w, plan, reply))
  {
  }

  lemma OtherAlike(s: State, t: State, a: Action)
    requires Alike(s, t) && Enabled(s, a) && Enabled(t, a) && !a.Perform? && !a.Begin?
    ensures Alike(Next(s, a), Next(t, a))
  {
  }

  lemma EnabledAlike(s: State, t: State, a: Action)
    requires Alike(s, t)
    ensures Enabled(s, a) <==> Enabled(t, a)
  {
  }

  lemma StepsAlike(s: State, t: State, a: Action)
    requires Alike(s, t)
    ensures Enabled(s, a) <==> Enabled(t, a)
    ensures Enabled(s, a) ==> Alike(Next(s, a), Next(t, a))
  {
    EnabledAlike(s, t, a);
    if Enabled(s, a) {
      match a
      case Perform(w, reply, token, loaded) => PerformAlike(s, t, w, reply, token, loaded);
      case Begin(w, plan, reply) => BeginAlike(s, t, w, plan, reply);
      case _ => OtherAlike(s, t, a);
    }
  }

  /** Whatever becomes of a progress write, the worker goes on, and nothing but the progress differs. */
  lemma ReportsAlike(s: State, t: State, w: WorkerId, q: Reply, r: Reply, token: string, loaded: seq<Cell>)
    requires Alike(s, t) && w in s.workers && RowFits(s.jobs, s.history, s.queue.stream, s.workers[w])
    requires s.workers[w].Busy? && s.workers[w].ops != [] && s.workers[w].ops[0].Report?
    ensures Enabled(s, Perform(w, q, token, loaded)) && Enabled(t, Perform(w, r, token, loaded))
    ensures Alike(Performed(s, w, q, token, loaded), Performed(t, w, r, token, loaded))
  {
  }

  /** The two actions are one, or a progress write of the run so far with different replies. */
  ghost predicate SameBesideReports(s: State, a: Action, b: Action)
  {
    a == b || (a.Perform? && b.Perform? && b == Perform(a.w, b.reply, a.token, a.loaded)
               && a.w in s.workers && s.workers[a.w].Busy? && s.workers[a.w].ops != [] && s.workers[a.w].ops[0].Report?)
  }

  /**
   Progress writes never matter: change the fate of any of them in any run, and
   everything else stays as it was, tables, map, files, queue, workers and the
   outcome of every job; only the progress shown may differ.
   */
  lemma {:induction false} ProgressWritesDoNotMatter(core: Core, acts: seq<Action>, others: seq<Action>)
    requires |acts| == |others|
    requires forall i :: 0 <= i < |acts| ==> SameBesideReports(Run(core, acts[..i]), acts[i], others[i])
    ensures Alike(Run(core, acts), Run(core, others))
  {
    if acts != [] {
      var n := |acts| - 1;
      forall i | 0 <= i < n ensures SameBesideReports(Run(core, acts[..n][..i]), acts[..n][i], others[..n][i]) {
        assert acts[..n][..i] == acts[..i];
      }
      ProgressWritesDoNotMatter(core, acts[..n], others[..n]);
      EveryRunKeepsProtocol(core, acts[..n]);
      var s, t := Run(core, acts[..n]), Run(core, others[..n]);
      if acts[n] == others[n] {
        StepsAlike(s, t, acts[n]);
      } else {
        ReportsAlike(s, t, acts[n].w, acts[n].reply, others[n].reply, acts[n].token, acts[n].loaded);
      }
    }
  }
}
