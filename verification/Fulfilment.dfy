/** Done means done: a job whose row says so has brought about everything its run set out to. */
module Fulfilment {
  import opened Records
  import opened Vault
  import opened Jobs
  import opened Storage
  import opened Cluster
  import opened Protocol
  import opened TokenSafety

  // ── Facts ──────────────────────────────────────────────────────────────

  /** The job has written a file about exactly these fields, in this order. */
  ghost predicate Written(files: set<File>, job: JobId, load: seq<Cell>)
  {
    exists f :: f in files && f.job == job && FieldsOf(f.cells) == load
  }

  ghost predicate Achieved(d: Data, f: Fact)
  {
    match f
    case StudentStored(id) => id in d.core.students
    case GuardianStored(id) => id in d.core.guardians
    case FileWritten(job, load) => Written(d.released, job, load)
  }

  ghost predicate NoFileLeft(ops: seq<Op>)
  {
    forall op :: op in ops ==> !op.WriteFile? && !op.Load?
  }

  /** With `held` in hand, the statements left will write a file about exactly `load`. */
  ghost predicate Filing(held: seq<Cell>, ops: seq<Op>, load: seq<Cell>)
    decreases ops
  {
    && ops != []
    && match ops[0]
       case Tokenize(c) => Filing(held + [c], ops[1..], load)
       case WriteFile => held == load && NoFileLeft(ops[1..])
       case Report(_) => Filing(held, ops[1..], load)
       case _ => false
  }

  /** The statements left will bring the fact about. */
  ghost predicate Owed(l: Local, f: Fact)
    requires l.Busy?
  {
    match f
    case StudentStored(_) => f in Promised(l.ops)
    case GuardianStored(_) => f in Promised(l.ops)
    case FileWritten(job, load) => job == l.job && Filing(FieldsOf(l.cells), l.ops, load)
  }

  ghost predicate OnTrack(d: Data, h: History, l: Local)
  {
    l.Busy? ==> l.job in h.goals && forall f :: f in h.goals[l.job] ==> Achieved(d, f) || Owed(l, f)
  }

  ghost predicate StartedOn(s: State, i: nat, job: JobId)
  {
    i in s.history.begun && PostedAt(s.queue.stream, i, job)
  }

  ghost predicate GoalsOk(s: State)
  {
    && (forall w :: w in s.workers ==> OnTrack(s.data, s.history, s.workers[w]))
    && (forall j, f :: j in s.history.goals && j in s.jobs && s.jobs[j].status.Done? && f in s.history.goals[j]
          ==> Achieved(s.data, f))
    && forall j :: j in s.history.goals ==> exists i :: StartedOn(s, i, j)
  }

  lemma AchievedStays(d: Data, e: Data, f: Fact)
    requires Grows(d, e) && Achieved(d, f)
    ensures Achieved(e, f)
  {
  }

  lemma OnTrackStays(d: Data, e: Data, h: History, l: Local)
    requires Grows(d, e) && OnTrack(d, h, l)
    ensures OnTrack(e, h, l)
  {
  }

  /** What the first statement leaves owed, or brings about by itself. */
  lemma OwedAfter(d: Data, l: Local, reply: Reply, token: string, loaded: seq<Cell>, f: Fact)
    requires l.Busy? && l.ops != [] && !l.ops[0].Load?
    requires LocalAfter(d, l, reply, token, loaded).Busy?
    requires Achieved(d, f) || Owed(l, f)
    ensures Achieved(DataAfter(d, l, reply, token), f) || Owed(LocalAfter(d, l, reply, token, loaded), f)
  {
    StatementGrows(d, l, reply, token);
    assert LocalAfter(d, l, reply, token, loaded).ops == l.ops[1..];
    if Achieved(d, f) {
      AchievedStays(d, DataAfter(d, l, reply, token), f);
    } else if f.FileWritten? {
      FilingAfter(d, l, reply, token, loaded, f.load);
    } else {
      match l.ops[0]
      case PutStudents(rows) => PutAllKeys(d.core.students, rows);
      case PutGuardians(rows) => PutAllKeys(d.core.guardians, rows);
      case _ =>
    }
  }

  lemma ValuesSnoc(cells: seq<Emitted>, e: Emitted)
    ensures FieldsOf(cells + [e]) == FieldsOf(cells) + [Cell(e.key, e.value)]
  {
  }

  /** One more statement toward the file, or the file itself. */
  lemma FilingAfter(d: Data, l: Local, reply: Reply, token: string, loaded: seq<Cell>, load: seq<Cell>)
    requires l.Busy? && l.ops != [] && Filing(FieldsOf(l.cells), l.ops, load)
    requires LocalAfter(d, l, reply, token, loaded).Busy?
    ensures var e, m := DataAfter(d, l, reply, token), LocalAfter(d, l, reply, token, loaded);
            if l.ops[0].WriteFile? then Written(e.released, l.job, load) && NoFileLeft(m.ops)
            else Filing(FieldsOf(m.cells), m.ops, load)
  {
    var e, m := DataAfter(d, l, reply, token), LocalAfter(d, l, reply, token, loaded);
    match l.ops[0]
    case Tokenize(c) => ValuesSnoc(l.cells, m.cells[|l.cells|]);
    case WriteFile => assert File(l.job, l.cells) in e.released;
    case _ =>
  }

  lemma {:induction false} FilingTokens(held: seq<Cell>, cells: seq<Cell>, rest: seq<Op>, load: seq<Cell>)
    requires load == held + cells && Filing(load, rest, load)
    ensures Filing(held, TokenizeOps(cells) + rest, load)
    decreases cells
  {
    var ops := TokenizeOps(cells) + rest;
    if cells == [] {
      assert ops == rest && held == load;
    } else {
      assert ops[1..] == TokenizeOps(cells[1..]) + rest;
      assert load == held + [cells[0]] + cells[1..];
      FilingTokens(held + [cells[0]], cells[1..], rest, load);
    }
  }

  /** Right after a load, a file about exactly the cells to tokenize is on its way. */
  lemma LoadFiles(pseudonymize: bool, loaded: seq<Cell>)
    ensures Filing([], AfterLoad(pseudonymize, loaded), ToTokenize(pseudonymize, loaded))
  {
    var load := ToTokenize(pseudonymize, loaded);
    var rest := [Report(70), WriteFile, Report(95), Finish];
    assert rest[1..] == [WriteFile, Report(95), Finish] && rest[1..][1..] == [Report(95), Finish];
    assert [] + load == load;
    FilingTokens([], load, rest, load);
    assert AfterLoad(pseudonymize, loaded)[1..] == TokenizeOps(load) + rest;
  }

  lemma PlanOwes(entry: Entry, plan: seq<Op>, f: Fact)
    requires entry.JobEntry? && !entry.msg.UnknownJob? && PlanFits(entry, plan) && f in Promised(plan)
    ensures forall l: Local :: l.Busy? && l.ops == plan ==> Owed(l, f)
  {
  }

  lemma PerformKeepsTrack(s: State, w: WorkerId, reply: Reply, token: string, loaded: seq<Cell>)
    requires Enabled(s, Perform(w, reply, token, loaded))
    requires OnTrack(s.data, s.history, s.workers[w]) && RowFits(s.jobs, s.history, s.queue.stream, s.workers[w])
    ensures var t := Performed(s, w, reply, token, loaded); OnTrack(t.data, t.history, t.workers[w])
  {
    var t, l := Performed(s, w, reply, token, loaded), s.workers[w];
    var m := t.workers[w];
    if m.Busy? {
      forall f | f in t.history.goals[m.job] ensures Achieved(t.data, f) || Owed(m, f) {
        if l.ops[0].Load? {
          if f == FileWritten(l.job, ToTokenize(l.ops[0].pseudonymize, loaded)) {
            LoadFiles(l.ops[0].pseudonymize, loaded);
            assert FieldsOf(m.cells) == [];
          } else {
            OnlyLoadLeft(l, f);
          }
        } else {
          OwedAfter(s.data, l, reply, token, loaded, f);
        }
      }
    }
  }

  /** A load, or a finishing write, that stands alone owes nothing. */
  lemma OnlyLoadLeft(l: Local, f: Fact)
    requires l.Busy? && |l.ops| == 1 && (l.ops[0].Load? || l.ops[0].Finish?)
    ensures !Owed(l, f)
  {
  }

  // ── Every run ──────────────────────────────────────────────────────────

  /** No other job's goals or row are touched by a worker's step. */
  ghost predicate SameElsewhere(s: State, t: State, job: JobId)
  {
    && (forall j :: j in s.jobs && j != job ==> j in t.jobs && t.jobs[j] == s.jobs[j])
    && t.jobs.Keys == s.jobs.Keys
    && (forall j ::
          j in s.history.goals && j != job ==> j in t.history.goals && t.history.goals[j] == s.history.goals[j])
    && t.history.goals.Keys <= s.history.goals.Keys + {job}
    && t.history.begun >= s.history.begun && t.queue == s.queue
  }

  lemma GoalsAfterOwnStep(s: State, t: State, w: WorkerId, job: JobId)
    requires ProtocolOk(s) && GoalsOk(s)
    requires w in s.workers && !s.workers[w].Idle? && PostedAt(s.queue.stream, s.workers[w].entry, job)
    requires SameElsewhere(s, t, job) && Grows(s.data, t.data) && s.workers[w].entry in t.history.begun
    requires w in t.workers && t.workers == s.workers[w := t.workers[w]] && OnTrack(t.data, t.history, t.workers[w])
    requires forall f ::
               job in t.jobs && t.jobs[job].status.Done? && job in t.history.goals && f in t.history.goals[job]
               ==> Achieved(t.data, f)
    ensures GoalsOk(t)
  {
    forall v | v in t.workers ensures OnTrack(t.data, t.history, t.workers[v]) {
      if v != w {
        assert Owns(s.queue, s.history.begun, s.workers[v]);
        OnTrackStays(s.data, t.data, s.history, s.workers[v]);
      }
    }
    forall j, f | j in t.history.goals && j in t.jobs && t.jobs[j].status.Done? && f in t.history.goals[j]
      ensures Achieved(t.data, f)
    {
      if j != job {
        AchievedStays(s.data, t.data, f);
      }
    }
    forall j | j in t.history.goals ensures exists i :: StartedOn(t, i, j) {
      if j == job {
        assert StartedOn(t, s.workers[w].entry, j);
      } else {
        var i :| StartedOn(s, i, j);
        assert StartedOn(t, i, j);
      }
    }
  }

  lemma PerformFulfils(s: State, w: WorkerId, reply: Reply, token: string, loaded: seq<Cell>, f: Fact)
    requires Enabled(s, Perform(w, reply, token, loaded))
    requires OnTrack(s.data, s.history, s.workers[w]) && RowFits(s.jobs, s.history, s.queue.stream, s.workers[w])
    requires var t, l := Performed(s, w, reply, token, loaded), s.workers[w];
             l.job in t.jobs && t.jobs[l.job].status.Done? && l.job in t.history.goals && f in t.history.goals[l.job]
    ensures Achieved(Performed(s, w, reply, token, loaded).data, f)
  {
  }

  lemma PerformKeepsElsewhere(s: State, w: WorkerId, reply: Reply, token: string, loaded: seq<Cell>)
    requires Enabled(s, Perform(w, reply, token, loaded))
    ensures SameElsewhere(s, Performed(s, w, reply, token, loaded), s.workers[w].job)
  {
  }

  lemma PerformKeepsGoals(s: State, w: WorkerId, reply: Reply, token: string, loaded: seq<Cell>)
    requires ProtocolOk(s) && GoalsOk(s) && Enabled(s, Perform(w, reply, token, loaded))
    ensures GoalsOk(Performed(s, w, reply, token, loaded))
  {
    var t, l := Performed(s, w, reply, token, loaded), s.workers[w];
    assert Owns(s.queue, s.history.begun, l) && RowFits(s.jobs, s.history, s.queue.stream, l);
    StatementGrows(s.data, l, reply, token);
    PerformKeepsTrack(s, w, reply, token, loaded);
    PerformKeepsElsewhere(s, w, reply, token, loaded);
    forall f | l.job in t.jobs && t.jobs[l.job].status.Done? && l.job in t.history.goals && f in t.history.goals[l.job]
      ensures Achieved(t.data, f)
    {
      PerformFulfils(s, w, reply, token, loaded, f);
    }
    GoalsAfterOwnStep(s, t, w, l.job);
  }

  lemma BeginKeepsGoals(s: State, w: WorkerId, plan: seq<Op>, reply: Reply)
    requires ProtocolOk(s) && GoalsOk(s) && Enabled(s, Begin(w, plan, reply))
    ensures GoalsOk(Begun(s, w, plan, reply))
  {
    var t, l := Begun(s, w, plan, reply), s.workers[w];
    var e := s.queue.stream[l.entry];
    assert Owns(s.queue, s.history.begun, l);
    if e.JobEntry? {
      assert PostedAt(s.queue.stream, l.entry, e.job);
      if t.workers[w].Busy? {
        forall f | f in Promised(plan) ensures Owed(t.workers[w], f) {
          PlanOwes(e, plan, f);
        }
      }
      GoalsAfterOwnStep(s, t, w, e.job);
    } else {
      forall j | j in t.history.goals ensures exists i :: StartedOn(t, i, j) {
        var i :| StartedOn(s, i, j);
        assert StartedOn(t, i, j);
      }
    }
  }

  lemma AbortKeepsGoals(s: State, w: WorkerId)
    requires ProtocolOk(s) && GoalsOk(s) && Enabled(s, Abort(w))
    ensures GoalsOk(Next(s, Abort(w)))
  {
    assert Owns(s.queue, s.history.begun, s.workers[w]);
    GoalsAfterOwnStep(s, Next(s, Abort(w)), w, s.workers[w].job);
  }

  lemma FailKeepsGoals(s: State, w: WorkerId, reply: Reply)
    requires ProtocolOk(s) && GoalsOk(s) && Enabled(s, Fail(w, reply))
    ensures GoalsOk(Next(s, Fail(w, reply)))
  {
    assert Owns(s.queue, s.history.begun, s.workers[w]);
    GoalsAfterOwnStep(s, Next(s, Fail(w, reply)), w, s.workers[w].job);
  }

  lemma OthersKeepGoals(s: State, a: Action)
    requires ProtocolOk(s) && GoalsOk(s) && Enabled(s, a)
    requires !a.Begin? && !a.Perform? && !a.Abort? && !a.Fail?
    ensures GoalsOk(Next(s, a))
  {
    var t := Next(s, a);
    forall j | j in t.history.goals ensures exists i :: StartedOn(t, i, j) {
      var i :| StartedOn(s, i, j);
      assert StartedOn(t, i, j);
    }
  }

  lemma StepKeepsGoals(s: State, a: Action)
    requires ProtocolOk(s) && GoalsOk(s) && Enabled(s, a)
    ensures GoalsOk(Next(s, a))
  {
    match a
    case Begin(w, plan, reply) => BeginKeepsGoals(s, w, plan, reply);
    case Perform(w, reply, token, loaded) => PerformKeepsGoals(s, w, reply, token, loaded);
    case Abort(w) => AbortKeepsGoals(s, w);
    case Fail(w, reply) => FailKeepsGoals(s, w, reply);
    case _ => OthersKeepGoals(s, a);
  }

  lemma {:induction false} EveryRunKeepsGoals(core: Core, acts: seq<Action>)
    ensures GoalsOk(Run(core, acts))
  {
    if acts != [] {
      var n := |acts| - 1;
      EveryRunKeepsGoals(core, acts[..n]);
      EveryRunKeepsProtocol(core, acts[..n]);
      if Enabled(Run(core, acts[..n]), acts[n]) {
        StepKeepsGoals(Run(core, acts[..n]), acts[n]);
      }
    }
  }

  /** What a job set out to do is never forgotten, because no job is begun again. */
  lemma StepKeepsPromises(s: State, a: Action, job: JobId)
    requires ProtocolOk(s) && GoalsOk(s) && Enabled(s, a) && job in s.history.goals
    ensures job in Next(s, a).history.goals && s.history.goals[job] <= Next(s, a).history.goals[job]
  {
    if a.Begin? {
      var i :| StartedOn(s, i, job);
      assert Owns(s.queue, s.history.begun, s.workers[a.w]);
      assert !PostedAt(s.queue.stream, s.workers[a.w].entry, job);
    }
  }

  lemma {:induction false} PromisesStay(core: Core, acts: seq<Action>, n: nat, job: JobId)
    requires n <= |acts| && job in Run(core, acts[..n]).history.goals
    ensures job in Run(core, acts).history.goals
            && Run(core, acts[..n]).history.goals[job] <= Run(core, acts).history.goals[job]
  {
    if n == |acts| {
      assert acts[..n] == acts;
    } else {
      var k := |acts| - 1;
      assert acts[..k][..n] == acts[..n];
      PromisesStay(core, acts[..k], n, job);
      EveryRunKeepsGoals(core, acts[..k]);
      EveryRunKeepsProtocol(core, acts[..k]);
      if Enabled(Run(core, acts[..k]), acts[k]) {
        StepKeepsPromises(Run(core, acts[..k]), acts[k], job);
      }
    }
  }

  lemma RunSnoc(core: Core, acts: seq<Action>, n: nat)
    requires n < |acts| && Enabled(Run(core, acts[..n]), acts[n])
    ensures Run(core, acts[..n + 1]) == Next(Run(core, acts[..n]), acts[n])
  {
    assert acts[..n + 1][..n] == acts[..n];
  }

  /**
   An import that ended up done has stored every student and every guardian it
   set out to insert: whatever failed or crashed on the way, no row of a batch
   was dropped.
   */
  lemma DoneImportIsStored(core: Core, acts: seq<Action>, n: nat, w: WorkerId, plan: seq<Op>, job: JobId)
    requires n < |acts| && acts[n] == Begin(w, plan, Acknowledged) && Enabled(Run(core, acts[..n]), acts[n])
    requires var s := Run(core, acts[..n]); s.queue.stream[s.workers[w].entry] == JobEntry(job, ImportJob)
    requires var t := Run(core, acts); job in t.jobs && t.jobs[job].status.Done?
    ensures var t := Run(core, acts);
            && (forall op, r ::
                  op in plan && op.PutStudents? && r in op.students ==> Canon(r.id) in t.data.core.students)
            && (forall op, r ::
                  op in plan && op.PutGuardians? && r in op.guardians ==> Canon(r.id) in t.data.core.guardians)
  {
    var s, t := Run(core, acts[..n]), Run(core, acts);
    RunSnoc(core, acts, n);
    EveryRunKeepsProtocol(core, acts[..n]);
    assert PostedAt(s.queue.stream, s.workers[w].entry, job);
    PromisesStay(core, acts, n + 1, job);
    EveryRunKeepsGoals(core, acts);
    forall op, r | op in plan && op.PutStudents? && r in op.students ensures Canon(r.id) in t.data.core.students {
      assert StudentStored(Canon(r.id)) in Promised(plan);
      assert Achieved(t.data, StudentStored(Canon(r.id)));
    }
    forall op, r | op in plan && op.PutGuardians? && r in op.guardians ensures Canon(r.id) in t.data.core.guardians {
      assert GuardianStored(Canon(r.id)) in Promised(plan);
      assert Achieved(t.data, GuardianStored(Canon(r.id)));
    }
  }
}
