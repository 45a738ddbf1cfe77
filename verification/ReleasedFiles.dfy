/**
 The files that pseudonymize jobs leave behind: every job writes at most one, and
 it holds exactly the fields the job loaded, in order, each with its token
 (worker/internal/anonymizer/anonymizer.go).
 */
module ReleasedFiles {
  import opened Records
  import opened Vault
  import opened Jobs
  import opened Storage
  import opened Cluster
  import opened Protocol
  import opened TokenSafety
  import opened Fulfilment
  import opened Datasets

  ghost predicate NoFilePromised(goals: set<Fact>)
  {
    forall f :: f in goals ==> !f.FileWritten?
  }

  /** The job's file about `load` is promised, and either on its way or no longer to be written. */
  ghost predicate Promising(goals: set<Fact>, l: Local, load: seq<Cell>)
    requires l.Busy?
  {
    FileWritten(l.job, load) in goals && (Filing(FieldsOf(l.cells), l.ops, load) || NoFileLeft(l.ops))
  }

  /** Before the load no file is promised and none is written; after it, the promised one and no other. */
  ghost predicate Stage(goals: map<JobId, set<Fact>>, l: Local)
  {
    l.Busy? ==> (
      && l.job in goals
      && ((NoFilePromised(goals[l.job]) && WriteFile !in l.ops) || exists load :: Promising(goals[l.job], l, load)))
  }

  /** A job promises at most one file, its own. */
  ghost predicate OneFileEach(goals: map<JobId, set<Fact>>)
  {
    forall j, f, g :: j in goals && f in goals[j] && g in goals[j] && f.FileWritten? && g.FileWritten?
      ==> f == g && f.job == j
  }

  /** Every file written is the one its job promised. */
  ghost predicate AsPromised(files: set<File>, goals: map<JobId, set<Fact>>)
  {
    forall f :: f in files ==> f.job in goals && FileWritten(f.job, FieldsOf(f.cells)) in goals[f.job]
  }

  ghost predicate FilesOk(s: State)
  {
    && OneFileEach(s.history.goals)
    && AsPromised(s.data.released, s.history.goals)
    && forall w :: w in s.workers ==> Stage(s.history.goals, s.workers[w])
  }

  // ── Steps ──────────────────────────────────────────────────────────────

  lemma StageAfterLoad(goals: map<JobId, set<Fact>>, l: Local, pseudonymize: bool, loaded: seq<Cell>)
    requires l.Busy? && l.cells == [] && l.ops == AfterLoad(pseudonymize, loaded)
    requires l.job in goals && FileWritten(l.job, ToTokenize(pseudonymize, loaded)) in goals[l.job]
    ensures Stage(goals, l)
  {
    LoadFiles(pseudonymize, loaded);
    assert FieldsOf(l.cells) == [];
    assert Promising(goals[l.job], l, ToTokenize(pseudonymize, loaded));
  }

  /** A statement other than a load keeps the stage, and what it writes is what was promised. */
  lemma StageAfterStatement(d: Data, goals: map<JobId, set<Fact>>, l: Local, reply: Reply, token: string,
                            loaded: seq<Cell>)
    requires l.Busy? && l.ops != [] && !l.ops[0].Load? && Stage(goals, l) && AsPromised(d.released, goals)
    ensures Stage(goals, LocalAfter(d, l, reply, token, loaded))
    ensures AsPromised(DataAfter(d, l, reply, token).released, goals)
  {
    var m := LocalAfter(d, l, reply, token, loaded);
    if NoFilePromised(goals[l.job]) && WriteFile !in l.ops {
      assert m.Busy? ==> m.ops == l.ops[1..];
    } else {
      var load :| Promising(goals[l.job], l, load);
      if m.Busy? {
        assert m.ops == l.ops[1..];
        if Filing(FieldsOf(l.cells), l.ops, load) {
          FilingAfter(d, l, reply, token, loaded, load);
        }
        assert Promising(goals[l.job], m, load);
      }
    }
  }

  lemma LoadPromisesOne(goals: map<JobId, set<Fact>>, l: Local)
    requires l.Busy? && l.ops != [] && l.ops[0].Load? && Stage(goals, l)
    ensures NoFilePromised(goals[l.job])
  {
  }

  /** Other workers have other jobs. */
  lemma OthersKeepStage(s: State, t: State, w: WorkerId)
    requires ProtocolOk(s) && FilesOk(s) && w in s.workers && w in t.workers && t.workers.Keys == s.workers.Keys
    requires forall v :: v in s.workers && v != w ==> t.workers[v] == s.workers[v]
    requires !s.workers[w].Idle?
    requires forall j ::
               j in s.history.goals && !PostedAt(s.queue.stream, s.workers[w].entry, j)
               ==> j in t.history.goals && t.history.goals[j] == s.history.goals[j]
    requires Stage(t.history.goals, t.workers[w])
    ensures forall v :: v in t.workers ==> Stage(t.history.goals, t.workers[v])
  {
  }

  lemma PromiseOneMore(files: set<File>, goals: map<JobId, set<Fact>>, job: JobId, load: seq<Cell>)
    requires OneFileEach(goals) && AsPromised(files, goals) && job in goals && NoFilePromised(goals[job])
    ensures var more := goals[job := goals[job] + {FileWritten(job, load)}];
            OneFileEach(more) && AsPromised(files, more)
  {
  }

  lemma LoadKeepsFiles(s: State, w: WorkerId, reply: Reply, token: string, loaded: seq<Cell>)
    requires ProtocolOk(s) && FilesOk(s) && Enabled(s, Perform(w, reply, token, loaded)) && s.workers[w].ops[0].Load?
    ensures FilesOk(Performed(s, w, reply, token, loaded))
  {
    var t, l := Performed(s, w, reply, token, loaded), s.workers[w];
    assert Owns(s.queue, s.history.begun, l);
    LoadPromisesOne(s.history.goals, l);
    if reply.Acknowledged? {
      PromiseOneMore(s.data.released, s.history.goals, l.job, ToTokenize(l.ops[0].pseudonymize, loaded));
      StageAfterLoad(t.history.goals, t.workers[w], l.ops[0].pseudonymize, loaded);
    }
    OthersKeepStage(s, t, w);
  }

  lemma PerformKeepsFiles(s: State, w: WorkerId, reply: Reply, token: string, loaded: seq<Cell>)
    requires ProtocolOk(s) && FilesOk(s) && Enabled(s, Perform(w, reply, token, loaded)) && !s.workers[w].ops[0].Load?
    ensures FilesOk(Performed(s, w, reply, token, loaded))
  {
    StageAfterStatement(s.data, s.history.goals, s.workers[w], reply, token, loaded);
    OthersKeepStage(s, Performed(s, w, reply, token, loaded), w);
  }

  lemma PlansPromiseNoFile(entry: Entry, plan: seq<Op>)
    requires entry.JobEntry? && !entry.msg.UnknownJob? && PlanFits(entry, plan)
    ensures NoFilePromised(Promised(plan)) && WriteFile !in plan
  {
  }

  lemma BeginKeepsFiles(s: State, w: WorkerId, plan: seq<Op>, reply: Reply)
    requires ProtocolOk(s) && GoalsOk(s) && FilesOk(s) && Enabled(s, Begin(w, plan, reply))
    ensures FilesOk(Begun(s, w, plan, reply))
  {
    var t, l := Begun(s, w, plan, reply), s.workers[w];
    var e := s.queue.stream[l.entry];
    assert Owns(s.queue, s.history.begun, l);
    if t.workers[w].Busy? {
      assert PostedAt(s.queue.stream, l.entry, e.job);
      PlansPromiseNoFile(e, plan);
      assert forall i :: !StartedOn(s, i, e.job);
    }
    OthersKeepStage(s, t, w);
  }

  lemma StepKeepsFiles(s: State, a: Action)
    requires ProtocolOk(s) && GoalsOk(s) && FilesOk(s) && Enabled(s, a)
    ensures FilesOk(Next(s, a))
  {
    match a
    case Begin(w, plan, reply) => BeginKeepsFiles(s, w, plan, reply);
    case Perform(w, reply, token, loaded) =>
      if s.workers[w].ops[0].Load? {
        LoadKeepsFiles(s, w, reply, token, loaded);
      } else {
        PerformKeepsFiles(s, w, reply, token, loaded);
      }
    case _ =>
  }

  lemma {:induction false} EveryRunKeepsFiles(core: Core, acts: seq<Action>)
    ensures FilesOk(Run(core, acts))
  {
    if acts != [] {
      var n := |acts| - 1;
      EveryRunKeepsFiles(core, acts[..n]);
      EveryRunKeepsGoals(core, acts[..n]);
      EveryRunKeepsProtocol(core, acts[..n]);
      if Enabled(Run(core, acts[..n]), acts[n]) {
        StepKeepsFiles(Run(core, acts[..n]), acts[n]);
      }
    }
  }

  // ── From the announcement to the file ──────────────────────────────────

  /** The load is the last statement known so far, and only status writes are before it. */
  ghost predicate LoadIsDue(ops: seq<Op>)
  {
    ops != [] && ops[|ops| - 1].Load? && forall i :: 0 <= i < |ops| - 1 ==> ops[i].Report?
  }

  ghost predicate HasPromise(goals: map<JobId, set<Fact>>, job: JobId)
  {
    job in goals && exists load :: FileWritten(job, load) in goals[job]
  }

  ghost predicate DeidAt(stream: seq<Entry>, i: int, job: JobId)
  {
    PostedAt(stream, i, job) && stream[i].msg.DeidJob?
  }

  /** A de-identification still has its load ahead, or has promised its file; one that is done has promised it. */
  ghost predicate PromisesOk(s: State)
  {
    && (forall w :: w in s.workers && s.workers[w].Busy? && DeidAt(s.queue.stream, s.workers[w].entry, s.workers[w].job)
          ==> LoadIsDue(s.workers[w].ops) || HasPromise(s.history.goals, s.workers[w].job))
    && forall i, j :: DeidAt(s.queue.stream, i, j) && j in s.jobs && s.jobs[j].status.Done?
         ==> HasPromise(s.history.goals, j)
  }

  lemma PromisesAfterPerform(s: State, w: WorkerId, reply: Reply, token: string, loaded: seq<Cell>)
    requires ProtocolOk(s) && PromisesOk(s) && Enabled(s, Perform(w, reply, token, loaded))
    ensures PromisesOk(Performed(s, w, reply, token, loaded))
  {
    var t, l := Performed(s, w, reply, token, loaded), s.workers[w];
    assert Owns(s.queue, s.history.begun, l);
    forall j | HasPromise(s.history.goals, j) ensures HasPromise(t.history.goals, j) {
      var load :| FileWritten(j, load) in s.history.goals[j];
      assert FileWritten(j, load) in t.history.goals[j];
    }
    if t.workers[w].Busy? && l.ops[0].Load? {
      assert FileWritten(l.job, ToTokenize(l.ops[0].pseudonymize, loaded)) in t.history.goals[l.job];
    }
  }

  lemma PromisesAfterBegin(s: State, w: WorkerId, plan: seq<Op>, reply: Reply)
    requires ProtocolOk(s) && PromisesOk(s) && Enabled(s, Begin(w, plan, reply))
    ensures PromisesOk(Begun(s, w, plan, reply))
  {
    var t, l := Begun(s, w, plan, reply), s.workers[w];
    var e := s.queue.stream[l.entry];
    assert Owns(s.queue, s.history.begun, l);
    if e.JobEntry? {
      assert PostedAt(s.queue.stream, l.entry, e.job);
    }
  }

  /** A longer stream announces the same de-identifications at the old positions. */
  lemma DeidGrows(stream: seq<Entry>, e: Entry)
    ensures forall i, j :: DeidAt(stream + [e], i, j)
              <==> DeidAt(stream, i, j) || (i == |stream| && e.JobEntry? && e.job == j && e.msg.DeidJob?)
  {
  }

  lemma PromisesAfterOther(s: State, a: Action)
    requires ProtocolOk(s) && PromisesOk(s) && Enabled(s, a) && !a.Perform? && !a.Begin?
    ensures PromisesOk(Next(s, a))
  {
    if a.Publish? {
      DeidGrows(s.queue.stream, JobEntry(a.job, a.msg));
    } else if a.Intrude? {
      DeidGrows(s.queue.stream, Junk);
    }
  }

  lemma {:induction false} EveryRunKeepsPromises(core: Core, acts: seq<Action>)
    ensures PromisesOk(Run(core, acts))
  {
    if acts != [] {
      var n := |acts| - 1;
      var s, a := Run(core, acts[..n]), acts[n];
      EveryRunKeepsPromises(core, acts[..n]);
      EveryRunKeepsProtocol(core, acts[..n]);
      if Enabled(s, a) {
        match a
        case Perform(w, reply, token, loaded) => PromisesAfterPerform(s, w, reply, token, loaded);
        case Begin(w, plan, reply) => PromisesAfterBegin(s, w, plan, reply);
        case _ => PromisesAfterOther(s, a);
      }
    }
  }

  // ── What the files hold ────────────────────────────────────────────────

  /** What a pseudonymize job loaded stays promised as its file. */
  lemma LoadStaysPromised(core: Core, acts: seq<Action>, n: nat, w: WorkerId, token: string, loaded: seq<Cell>,
                          job: JobId)
    requires n < |acts| && acts[n] == Perform(w, Acknowledged, token, loaded) && Enabled(Run(core, acts[..n]), acts[n])
    requires var l := Run(core, acts[..n]).workers[w]; l.ops[0].Load? && l.ops[0].pseudonymize && l.job == job
    ensures var goals := Run(core, acts).history.goals; job in goals && FileWritten(job, loaded) in goals[job]
  {
    RunSnoc(core, acts, n);
    assert FileWritten(job, loaded) in Run(core, acts[..n + 1]).history.goals[job];
    PromisesStay(core, acts, n + 1, job);
  }

  /** Some load of this kind, at some time of the run, gave out these cells. */
  ghost predicate LoadedBefore(core: Core, acts: seq<Action>, kind: Kind, load: seq<Cell>)
  {
    exists n: nat :: n <= |acts| && IsLoad(Run(core, acts[..n]).data.core, kind, load)
  }

  /** What a file about `load` owes to the announcement: a load of the table named, or nothing when anonymizing. */
  ghost predicate AskedFor(core: Core, acts: seq<Action>, msg: Message, load: seq<Cell>)
  {
    msg.DeidJob? && if msg.pseudonymize then LoadedBefore(core, acts, msg.kind, load) else load == []
  }

  ghost predicate PromiseAskedFor(core: Core, acts: seq<Action>, s: State, job: JobId, load: seq<Cell>)
  {
    exists i :: DeidAt(s.queue.stream, i, job) && AskedFor(core, acts, s.queue.stream[i].msg, load)
  }

  lemma LoadedStays(core: Core, acts: seq<Action>, k: nat, kind: Kind, load: seq<Cell>)
    requires k <= |acts| && LoadedBefore(core, acts[..k], kind, load)
    ensures LoadedBefore(core, acts, kind, load)
  {
    var n: nat :| n <= k && IsLoad(Run(core, acts[..k][..n]).data.core, kind, load);
    assert acts[..k][..n] == acts[..n];
  }

  lemma AskedForStays(core: Core, acts: seq<Action>, k: nat, s: State, t: State, job: JobId, load: seq<Cell>)
    requires k <= |acts| && PromiseAskedFor(core, acts[..k], s, job, load) && s.queue.stream <= t.queue.stream
    ensures PromiseAskedFor(core, acts, t, job, load)
  {
    var i :| DeidAt(s.queue.stream, i, job) && AskedFor(core, acts[..k], s.queue.stream[i].msg, load);
    if s.queue.stream[i].msg.pseudonymize {
      LoadedStays(core, acts, k, s.queue.stream[i].msg.kind, load);
    }
    assert DeidAt(t.queue.stream, i, job);
  }

  /** A promise that a step adds is that of a load of the table which the announcement names. */
  lemma NewPromise(core: Core, acts: seq<Action>, n: nat, job: JobId, load: seq<Cell>)
    requires n < |acts| && Enabled(Run(core, acts[..n]), acts[n])
    requires var s, t := Run(core, acts[..n]), Next(Run(core, acts[..n]), acts[n]);
             && job in t.history.goals && FileWritten(job, load) in t.history.goals[job]
             && !(job in s.history.goals && FileWritten(job, load) in s.history.goals[job])
    ensures PromiseAskedFor(core, acts, Run(core, acts[..n]), job, load)
  {
    var s, a := Run(core, acts[..n]), acts[n];
    EveryRunKeepsDatasets(core, acts[..n]);
    EveryRunKeepsProtocol(core, acts[..n]);
    if a.Begin? {
      NoFileAtBegin(s, a.w, a.plan, a.reply, job, load);
    } else {
      var l := s.workers[a.w];
      assert l.ops[0] in l.ops && HandFits(s.queue.stream, l) && DeidAt(s.queue.stream, l.entry, job);
      if l.ops[0].pseudonymize {
        assert IsLoad(Run(core, acts[..n]).data.core, l.ops[0].kind, load);
      }
    }
  }

  lemma NoFileAtBegin(s: State, w: WorkerId, plan: seq<Op>, reply: Reply, job: JobId, load: seq<Cell>)
    requires Enabled(s, Begin(w, plan, reply))
    requires !(job in s.history.goals && FileWritten(job, load) in s.history.goals[job])
    ensures var t := Begun(s, w, plan, reply);
            !(job in t.history.goals && FileWritten(job, load) in t.history.goals[job])
  {
  }

  lemma StreamGrows(s: State, a: Action)
    requires Enabled(s, a)
    ensures s.queue.stream <= Next(s, a).queue.stream
  {
  }

  /** Every file promised in a run is about a load, made in that run, of the table that the job was asked for. */
  lemma {:induction false} PromisesAreAskedFor(core: Core, acts: seq<Action>, job: JobId, load: seq<Cell>)
    requires var goals := Run(core, acts).history.goals; job in goals && FileWritten(job, load) in goals[job]
    ensures PromiseAskedFor(core, acts, Run(core, acts), job, load)
  {
    var n := |acts| - 1;
    var s := Run(core, acts[..n]);
    if Enabled(s, acts[n]) {
      StreamGrows(s, acts[n]);
    }
    if job in s.history.goals && FileWritten(job, load) in s.history.goals[job] {
      PromisesAreAskedFor(core, acts[..n], job, load);
      AskedForStays(core, acts, n, s, Run(core, acts), job, load);
    } else {
      NewPromise(core, acts, n, job, load);
      assert acts[..|acts|] == acts;
      var i :| DeidAt(s.queue.stream, i, job) && AskedFor(core, acts, s.queue.stream[i].msg, load);
      assert DeidAt(Run(core, acts).queue.stream, i, job);
    }
  }

  /**
   From the announcement to the file: when a job that was announced as a
   de-identification of one table is done, its file is there; pseudonymized, the
   file holds exactly the cells that some load of that table in this run gave
   out, in order and with the tokens in force, and anonymized it holds no token.
   */
  lemma DoneDeidHasItsFile(core: Core, acts: seq<Action>, i: nat, job: JobId, pseudonymize: bool, kind: Kind)
    requires var t := Run(core, acts);
             && i < |t.queue.stream| && t.queue.stream[i] == JobEntry(job, DeidJob(pseudonymize, kind))
             && job in t.jobs && t.jobs[job].status.Done?
    ensures exists f :: f in Run(core, acts).data.released && f.job == job && AllCurrent(Run(core, acts).data, f.cells)
              && if pseudonymize then LoadedBefore(core, acts, kind, FieldsOf(f.cells)) else f.cells == []
  {
    var t := Run(core, acts);
    EveryRunKeepsPromises(core, acts);
    EveryRunKeepsGoals(core, acts);
    EveryRunKeepsSecrets(core, acts);
    EveryRunKeepsProtocol(core, acts);
    assert DeidAt(t.queue.stream, i, job);
    var load :| FileWritten(job, load) in t.history.goals[job];
    PromisesAreAskedFor(core, acts, job, load);
    var k :| DeidAt(t.queue.stream, k, job) && AskedFor(core, acts, t.queue.stream[k].msg, load);
    assert k == i;
    assert Achieved(t.data, FileWritten(job, load));
  }

  /**
   The same for a given load: a pseudonymize job that ended up done has written
   its file, and any file of that job holds exactly the cells it loaded, which
   were a load of the table that its announcement names.
   */
  lemma DonePseudonymizeIsReleased(core: Core, acts: seq<Action>, n: nat, w: WorkerId, token: string,
                                   loaded: seq<Cell>, job: JobId, kind: Kind)
    requires n < |acts| && acts[n] == Perform(w, Acknowledged, token, loaded) && Enabled(Run(core, acts[..n]), acts[n])
    requires var s := Run(core, acts[..n]);
             var l := s.workers[w];
             && l.ops[0].Load? && l.entry < |s.queue.stream|
             && s.queue.stream[l.entry] == JobEntry(job, DeidJob(true, kind))
    requires var t := Run(core, acts); job in t.jobs && t.jobs[job].status.Done?
    ensures IsLoad(Run(core, acts[..n]).data.core, kind, loaded)
    ensures var d := Run(core, acts).data;
            && Written(d.released, job, loaded)
            && forall f :: f in d.released && f.job == job ==>
                 FieldsOf(f.cells) == loaded && AllCurrent(d, f.cells) && OfKind(f.cells, kind)
  {
    var s, t := Run(core, acts[..n]), Run(core, acts);
    EveryRunKeepsDatasets(core, acts[..n]);
    assert HandFits(s.queue.stream, s.workers[w]) && s.workers[w].ops[0] in s.workers[w].ops;
    LoadStaysPromised(core, acts, n, w, token, loaded, job);
    EveryRunKeepsGoals(core, acts);
    EveryRunKeepsFiles(core, acts);
    EveryRunKeepsSecrets(core, acts);
    assert Achieved(t.data, FileWritten(job, loaded));
    forall f | f in t.data.released && f.job == job ensures FieldsOf(f.cells) == loaded && OfKind(f.cells, kind) {
      assert FileWritten(job, FieldsOf(f.cells)) in t.history.goals[job];
      LoadedKind(s.data.core, kind, loaded, f.cells);
    }
  }

  lemma LoadedKind(core: Core, kind: Kind, loaded: seq<Cell>, cells: seq<Emitted>)
    requires IsLoad(core, kind, loaded) && FieldsOf(cells) == loaded
    ensures OfKind(cells, kind)
  {
    forall e | e in cells ensures e.key.kind == kind {
      var i :| 0 <= i < |cells| && cells[i] == e;
      assert FieldsOf(cells)[i] == Cell(e.key, e.value);
      LoadHasOneKind(core, kind, loaded, loaded[i]);
    }
  }

  /** No job ever leaves two different files. */
  lemma OneFilePerJob(core: Core, acts: seq<Action>, f: File, g: File)
    requires f in Run(core, acts).data.released && g in Run(core, acts).data.released && f.job == g.job
    ensures f == g
  {
    EveryRunKeepsFiles(core, acts);
    var goals := Run(core, acts).history.goals;
    var a, b := FileWritten(f.job, FieldsOf(f.cells)), FileWritten(g.job, FieldsOf(g.cells));
    assert a in goals[f.job] && b in goals[g.job] && goals[f.job] == goals[g.job];
    assert a == b;
    EqualLoadsEqualFiles(core, acts, f, g);
  }

  /**
   A re-run over unchanged people is identical: two files about the same fields,
   of whichever jobs and times, are the same cell by cell.
   */
  lemma EqualLoadsEqualFiles(core: Core, acts: seq<Action>, f: File, g: File)
    requires f in Run(core, acts).data.released && g in Run(core, acts).data.released
    requires FieldsOf(f.cells) == FieldsOf(g.cells)
    ensures f.cells == g.cells
  {
    EveryRunKeepsSecrets(core, acts);
    var d := Run(core, acts).data;
    assert |f.cells| == |FieldsOf(f.cells)| && |g.cells| == |FieldsOf(g.cells)|;
    forall i | 0 <= i < |f.cells| ensures f.cells[i] == g.cells[i] {
      assert FieldsOf(f.cells)[i] == FieldsOf(g.cells)[i];
      assert f.cells[i] in f.cells && g.cells[i] in g.cells;
      assert Current(d, f.cells[i]) && Current(d, g.cells[i]);
    }
  }
}
