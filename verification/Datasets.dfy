/**
 Which table a job works on: the one its message names, from the load to the
 file (worker/internal/consumer/consumer.go, worker/internal/anonymizer/anonymizer.go).
 */
module Datasets {
  import opened Records
  import opened Vault
  import opened Cells
  import opened Storage
  import opened Cluster
  import opened Protocol
  import opened TokenSafety

  // ── Loads ──────────────────────────────────────────────────────────────

  /** A load gives out cells of its own kind only. */
  lemma LoadHasOneKind(core: Core, kind: Kind, cells: seq<Cell>, c: Cell)
    requires IsLoad(core, kind, cells) && c in cells
    ensures c.key.kind == kind
  {
    match kind
    case Student =>
      var rows :| LoadedFrom(rows, core.students) && cells == AllCells(Anonymizer.Entities(rows), FIELDS);
      CellsHaveKind(Anonymizer.Entities(rows), kind, c);
    case Guardian =>
      var rows :| LoadedFrom(rows, core.guardians) && cells == AllCells(Anonymizer.GuardianEntities(rows), FIELDS);
      CellsHaveKind(Anonymizer.GuardianEntities(rows), kind, c);
  }

  lemma {:induction false} CellsHaveKind(es: seq<Entity>, kind: Kind, c: Cell)
    requires (forall i :: 0 <= i < |es| ==> es[i].kind == kind) && c in AllCells(es, FIELDS)
    ensures c.key.kind == kind
  {
    CellFromEntity(es, FIELDS, c);
    var i :| 0 <= i < |es| && c in EntityCells(es[i], FIELDS);
    EntityCellsMeaning(es[i], FIELDS, c);
  }

  // ── The invariant ──────────────────────────────────────────────────────

  ghost predicate OfKind(cells: seq<Emitted>, kind: Kind)
  {
    forall e :: e in cells ==> e.key.kind == kind
  }

  /**
   What a running job has in hand and still has to do is about the table its
   message names: an import neither loads nor tokenizes, an anonymize job
   tokenizes nothing, a pseudonymize job only cells of its kind.
   */
  ghost predicate HandFits(stream: seq<Entry>, l: Local)
  {
    l.Busy? ==> (
      && l.entry < |stream| && stream[l.entry].JobEntry? && stream[l.entry].job == l.job
      && match stream[l.entry].msg
         case ImportJob => l.cells == [] && forall op :: op in l.ops ==> !op.Load? && !op.Tokenize? && !op.WriteFile?
         case DeidJob(p, k) =>
           && OfKind(l.cells, k) && (!p ==> l.cells == [])
           && forall op :: op in l.ops ==>
                && (op.Load? ==> op.kind == k && op.pseudonymize == p)
                && (op.Tokenize? ==> p && op.cell.key.kind == k)
         case UnknownJob => false)
  }

  /** A file belongs to an announced de-identification, and holds tokens of the kind that was asked for only. */
  ghost predicate FileFits(stream: seq<Entry>, f: File)
  {
    exists i :: PostedAt(stream, i, f.job) && stream[i].msg.DeidJob?
      && OfKind(f.cells, stream[i].msg.kind) && (!stream[i].msg.pseudonymize ==> f.cells == [])
  }

  ghost predicate DatasetsOk(s: State)
  {
    && (forall w :: w in s.workers ==> HandFits(s.queue.stream, s.workers[w]))
    && forall f :: f in s.data.released ==> FileFits(s.queue.stream, f)
  }

  lemma FileFitsStays(stream: seq<Entry>, e: Entry, f: File)
    requires FileFits(stream, f)
    ensures FileFits(stream + [e], f)
  {
    var i :| PostedAt(stream, i, f.job) && stream[i].msg.DeidJob?
             && OfKind(f.cells, stream[i].msg.kind) && (!stream[i].msg.pseudonymize ==> f.cells == []);
    assert PostedAt(stream + [e], i, f.job);
  }

  lemma AfterLoadIsAbout(pseudonymize: bool, loaded: seq<Cell>, kind: Kind, op: Op)
    requires (forall c :: c in loaded ==> c.key.kind == kind) && op in AfterLoad(pseudonymize, loaded)
    ensures !op.Load? && (op.Tokenize? ==> pseudonymize && op.cell.key.kind == kind)
  {
    if op.Tokenize? {
      TodoAfterLoad(pseudonymize, loaded, op);
    }
  }

  lemma LoadFits(stream: seq<Entry>, l: Local, core: Core, loaded: seq<Cell>, ops: seq<Op>)
    requires l.Busy? && l.ops != [] && l.ops[0].Load? && HandFits(stream, l) && IsLoad(core, l.ops[0].kind, loaded)
    requires ops == AfterLoad(l.ops[0].pseudonymize, loaded)
    ensures HandFits(stream, l.(ops := ops, cells := []))
  {
    assert l.ops[0] in l.ops;
    forall c | c in loaded ensures c.key.kind == l.ops[0].kind {
      LoadHasOneKind(core, l.ops[0].kind, loaded, c);
    }
    forall op | op in ops
      ensures !op.Load? && (op.Tokenize? ==> l.ops[0].pseudonymize && op.cell.key.kind == l.ops[0].kind)
    {
      AfterLoadIsAbout(l.ops[0].pseudonymize, loaded, l.ops[0].kind, op);
    }
  }

  /** A worker with one statement less, and perhaps one more token of the right kind. */
  lemma RestFits(stream: seq<Entry>, l: Local, cells: seq<Emitted>)
    requires l.Busy? && l.ops != [] && HandFits(stream, l)
    requires cells == l.cells || (l.ops[0].Tokenize? && |cells| == |l.cells| + 1 && cells[..|l.cells|] == l.cells
                                  && cells[|l.cells|].key == l.ops[0].cell.key)
    ensures HandFits(stream, l.(ops := l.ops[1..], cells := cells))
  {
    assert l.ops[0] in l.ops;
    forall e | e in cells && e !in l.cells ensures l.ops[0].Tokenize? && e.key == l.ops[0].cell.key {
      assert e == cells[|l.cells|];
    }
  }

  /** The statement a worker performs keeps what it has in hand in order. */
  lemma StatementFits(d: Data, stream: seq<Entry>, l: Local, reply: Reply, token: string, loaded: seq<Cell>)
    requires l.Busy? && l.ops != [] && HandFits(stream, l)
    requires l.ops[0].Load? ==> IsLoad(d.core, l.ops[0].kind, loaded)
    ensures HandFits(stream, LocalAfter(d, l, reply, token, loaded))
  {
    var m := LocalAfter(d, l, reply, token, loaded);
    if m.Busy? {
      if l.ops[0].Load? {
        LoadFits(stream, l, d.core, loaded, m.ops);
      } else {
        RestFits(stream, l, m.cells);
        assert m == l.(ops := l.ops[1..], cells := m.cells);
      }
    }
  }

  lemma PerformKeepsDatasets(s: State, w: WorkerId, reply: Reply, token: string, loaded: seq<Cell>)
    requires DatasetsOk(s) && Enabled(s, Perform(w, reply, token, loaded))
    ensures DatasetsOk(Performed(s, w, reply, token, loaded))
  {
    var t, l := Performed(s, w, reply, token, loaded), s.workers[w];
    StatementFits(s.data, s.queue.stream, l, reply, token, loaded);
    forall f | f in t.data.released ensures FileFits(t.queue.stream, f) {
      if f !in s.data.released {
        assert f == File(l.job, l.cells) && l.ops[0] in l.ops;
        assert PostedAt(s.queue.stream, l.entry, l.job);
      }
    }
  }

  lemma ImportPlanIsOnly(students: seq<seq<StudentRow>>, guardians: seq<seq<GuardianRow>>, links: seq<LinkRow>, op: Op)
    requires op in ImportPlan(students, guardians, links)
    ensures !op.Load? && !op.Tokenize? && !op.WriteFile?
  {
  }

  lemma PlanIsAboutItsMessage(stream: seq<Entry>, l: Local)
    requires l.Busy? && l.entry < |stream| && stream[l.entry].JobEntry? && stream[l.entry].job == l.job
    requires !stream[l.entry].msg.UnknownJob? && PlanFits(stream[l.entry], l.ops) && l.cells == []
    ensures HandFits(stream, l)
  {
    if stream[l.entry].msg.ImportJob? {
      var s, g, ls :| l.ops == ImportPlan(s, g, ls);
      forall op | op in l.ops ensures !op.Load? && !op.Tokenize? && !op.WriteFile? {
        ImportPlanIsOnly(s, g, ls, op);
      }
    }
  }

  lemma BeginKeepsDatasets(s: State, w: WorkerId, plan: seq<Op>, reply: Reply)
    requires DatasetsOk(s) && Enabled(s, Begin(w, plan, reply))
    ensures DatasetsOk(Begun(s, w, plan, reply))
  {
    var t := Begun(s, w, plan, reply);
    if t.workers[w].Busy? {
      PlanIsAboutItsMessage(t.queue.stream, t.workers[w]);
    }
  }

  lemma AnnouncementKeepsDatasets(s: State, a: Action)
    requires DatasetsOk(s) && Enabled(s, a) && (a.Publish? || a.Intrude?)
    ensures DatasetsOk(Next(s, a))
  {
    var t := Next(s, a);
    forall f | f in t.data.released ensures FileFits(t.queue.stream, f) {
      FileFitsStays(s.queue.stream, t.queue.stream[|s.queue.stream|], f);
    }
  }

  lemma StepKeepsDatasets(s: State, a: Action)
    requires DatasetsOk(s) && Enabled(s, a)
    ensures DatasetsOk(Next(s, a))
  {
    match a
    case Publish(_, _) => AnnouncementKeepsDatasets(s, a);
    case Intrude => AnnouncementKeepsDatasets(s, a);
    case Begin(w, plan, reply) => BeginKeepsDatasets(s, w, plan, reply);
    case Perform(w, reply, token, loaded) => PerformKeepsDatasets(s, w, reply, token, loaded);
    case _ =>
  }

  /**
   In every reachable state the tokens a worker holds, and those of every file,
   are of the kind that the announcement of the job names; an anonymize job and
   an import have none.
   */
  lemma {:induction false} EveryRunKeepsDatasets(core: Core, acts: seq<Action>)
    ensures DatasetsOk(Run(core, acts))
  {
    if acts != [] {
      var n := |acts| - 1;
      EveryRunKeepsDatasets(core, acts[..n]);
      if Enabled(Run(core, acts[..n]), acts[n]) {
        StepKeepsDatasets(Run(core, acts[..n]), acts[n]);
      }
    }
  }
}
