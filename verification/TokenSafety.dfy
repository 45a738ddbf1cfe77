/**
 Tokens over whole runs: however imports, pseudonymize and anonymize jobs of any
 number of workers interleave, statement by statement, with crashes and lost
 replies, every token ever put into an output keeps leading back to the plaintext
 it replaced.
 */
module TokenSafety {
  import opened Text
  import opened Records
  import opened Vault
  import opened Cells
  import opened Storage
  import opened Cluster

  // ── Data only grows ────────────────────────────────────────────────────

  ghost predicate CoreGrows(c: Core, d: Core)
  {
    && (forall id :: id in c.students ==> id in d.students && d.students[id] == c.students[id])
    && (forall id :: id in c.guardians ==> id in d.guardians && d.guardians[id] == c.guardians[id])
    && c.links <= d.links
  }

  ghost predicate Grows(d: Data, e: Data)
  {
    && CoreGrows(d.core, e.core) && KeepsTokens(d.vault, e.vault)
    && d.issued <= e.issued && d.released <= e.released
  }

  lemma StatementGrows(d: Data, l: Local, reply: Reply, token: string)
    requires l.Busy? && l.ops != []
    ensures Grows(d, DataAfter(d, l, reply, token))
  {
    match l.ops[0]
    case PutStudents(rows) => PutAllKeys(d.core.students, rows);
    case PutGuardians(rows) => PutAllKeys(d.core.guardians, rows);
    case _ =>
  }

  lemma StepGrows(s: State, a: Action)
    requires Enabled(s, a)
    ensures Grows(s.data, Next(s, a).data)
  {
    if a.Perform? {
      StatementGrows(s.data, s.workers[a.w], a.reply, a.token);
    }
  }

  /** Over any stretch of any run, stored rows, token assignments and released files stay. */
  lemma {:induction false} RunGrows(core: Core, acts: seq<Action>, n: nat)
    requires n <= |acts|
    ensures Grows(Run(core, acts[..n]).data, Run(core, acts).data)
  {
    if n == |acts| {
      assert acts[..n] == acts;
    } else {
      var k := |acts| - 1;
      assert acts[..k][..n] == acts[..n];
      RunGrows(core, acts[..k], n);
      if Enabled(Run(core, acts[..k]), acts[k]) {
        StepGrows(Run(core, acts[..k]), acts[k]);
      }
    }
  }

  /** Foreign keys hold throughout, because links are checked and rows are never deleted. */
  lemma {:induction false} LinksStayAnchored(core: Core, acts: seq<Action>)
    requires Referential(core)
    ensures Referential(Run(core, acts).data.core)
  {
    if acts != [] {
      var s, a := Run(core, acts[..|acts| - 1]), acts[|acts| - 1];
      LinksStayAnchored(core, acts[..|acts| - 1]);
      if Enabled(s, a) {
        StepAnchorsLinks(s, a);
      }
    }
  }

  lemma StepAnchorsLinks(s: State, a: Action)
    requires Enabled(s, a) && Referential(s.data.core)
    ensures Referential(Next(s, a).data.core)
  {
    StepGrows(s, a);
  }

  // ── The invariant ──────────────────────────────────────────────────────

  /** The cell is what `core` holds, and not empty. */
  ghost predicate Readable(core: Core, c: Cell)
  {
    c.value != "" && Plaintext(core, c.key) == Some(c.value)
  }

  /** The token is the one in force for a field that still reads as it did. */
  ghost predicate Current(d: Data, e: Emitted)
  {
    Readable(d.core, Cell(e.key, e.value)) && e.key in d.vault && d.vault[e.key].token == e.token
  }

  ghost predicate AllCurrent(d: Data, cells: seq<Emitted>)
  {
    forall e :: e in cells ==> Current(d, e)
  }

  ghost predicate VaultOk(d: Data)
  {
    && TokensDistinct(d.vault)
    && forall k :: k in d.vault ==> d.vault[k].token in d.issued && Readable(d.core, Cell(k, d.vault[k].hash.plaintext))
  }

  /** What a running job still has to tokenize, and the tokens it holds for its output. */
  ghost predicate HandOk(d: Data, l: Local)
  {
    l.Busy? ==>
      && (forall op :: op in l.ops && op.Tokenize? ==> Readable(d.core, op.cell))
      && AllCurrent(d, l.cells)
  }

  ghost predicate SecretsOk(s: State)
  {
    && VaultOk(s.data)
    && (forall f :: f in s.data.released ==> AllCurrent(s.data, f.cells))
    && forall w :: w in s.workers ==> HandOk(s.data, s.workers[w])
  }

  lemma ReadableStays(c: Core, d: Core, x: Cell)
    requires CoreGrows(c, d) && Readable(c, x)
    ensures Readable(d, x)
  {
  }

  lemma HandStays(d: Data, e: Data, l: Local)
    requires Grows(d, e) && HandOk(d, l)
    ensures HandOk(e, l)
  {
  }

  // ── Loads ──────────────────────────────────────────────────────────────

  /** Every cell of a load is a non-empty field of a stored row. */
  lemma LoadIsReadable(core: Core, kind: Kind, cells: seq<Cell>, c: Cell)
    requires IsLoad(core, kind, cells) && c in cells
    ensures Readable(core, c)
  {
    match kind
    case Student =>
      var rows :| LoadedFrom(rows, core.students) && cells == AllCells(Anonymizer.Entities(rows), FIELDS);
      var es := Anonymizer.Entities(rows);
      CellFromEntity(es, FIELDS, c);
      var i :| 0 <= i < |es| && c in EntityCells(es[i], FIELDS);
      EntityCellsMeaning(es[i], FIELDS, c);
    case Guardian =>
      var rows :| LoadedFrom(rows, core.guardians) && cells == AllCells(Anonymizer.GuardianEntities(rows), FIELDS);
      var es := Anonymizer.GuardianEntities(rows);
      CellFromEntity(es, FIELDS, c);
      var i :| 0 <= i < |es| && c in EntityCells(es[i], FIELDS);
      EntityCellsMeaning(es[i], FIELDS, c);
  }

  /** A plan starts with nothing to tokenize, and loads for tokenizing only if its message asks for it. */
  lemma PlansStartUntokenized(entry: Entry, plan: seq<Op>)
    requires entry.JobEntry? && !entry.msg.UnknownJob? && PlanFits(entry, plan)
    ensures forall op :: op in plan ==>
              !op.Tokenize? && (op.Load? ==> entry.msg.DeidJob? && op.pseudonymize == entry.msg.pseudonymize)
  {
  }

  // ── Statements ─────────────────────────────────────────────────────────

  lemma UpsertKeepsVault(d: Data, c: Cell, token: string)
    requires VaultOk(d) && Readable(d.core, c) && token !in d.issued
    ensures VaultOk(d.(vault := Upsert(d.vault, c.key, Sha256(c.value), token), issued := d.issued + {token}))
  {
  }

  lemma VaultStays(d: Data, e: Data)
    requires VaultOk(d) && CoreGrows(d.core, e.core) && e.vault == d.vault && d.issued <= e.issued
    ensures VaultOk(e)
  {
  }

  lemma StatementKeepsVault(d: Data, l: Local, reply: Reply, token: string)
    requires l.Busy? && l.ops != [] && VaultOk(d) && HandOk(d, l)
    requires l.ops[0].Tokenize? ==> token !in d.issued
    ensures VaultOk(DataAfter(d, l, reply, token))
  {
    StatementGrows(d, l, reply, token);
    if l.ops[0].Tokenize? {
      UpsertKeepsVault(d, l.ops[0].cell, token);
    } else {
      VaultStays(d, DataAfter(d, l, reply, token));
    }
  }

  lemma TodoAfterLoad(pseudonymize: bool, cells: seq<Cell>, op: Op)
    requires op in AfterLoad(pseudonymize, cells) && op.Tokenize?
    ensures op.cell in cells
  {
  }

  lemma StatementKeepsHand(d: Data, l: Local, reply: Reply, token: string, loaded: seq<Cell>)
    requires l.Busy? && l.ops != [] && HandOk(d, l)
    requires l.ops[0].Load? ==> IsLoad(d.core, l.ops[0].kind, loaded)
    ensures HandOk(DataAfter(d, l, reply, token), LocalAfter(d, l, reply, token, loaded))
  {
    var e, m := DataAfter(d, l, reply, token), LocalAfter(d, l, reply, token, loaded);
    StatementGrows(d, l, reply, token);
    HandStays(d, e, l);
    if m.Busy? {
      forall op | op in m.ops && op.Tokenize? ensures Readable(e.core, op.cell) {
        if l.ops[0].Load? {
          TodoAfterLoad(l.ops[0].pseudonymize, loaded, op);
          LoadIsReadable(d.core, l.ops[0].kind, loaded, op.cell);
        } else {
          assert op in l.ops;
        }
      }
    }
  }

  lemma CurrentStays(d: Data, e: Data, cells: seq<Emitted>)
    requires Grows(d, e) && AllCurrent(d, cells)
    ensures AllCurrent(e, cells)
  {
  }

  lemma StatementKeepsReleased(d: Data, l: Local, reply: Reply, token: string)
    requires l.Busy? && l.ops != [] && HandOk(d, l)
    requires forall f :: f in d.released ==> AllCurrent(d, f.cells)
    ensures forall f :: f in DataAfter(d, l, reply, token).released ==>
              AllCurrent(DataAfter(d, l, reply, token), f.cells)
  {
    var n := DataAfter(d, l, reply, token);
    StatementGrows(d, l, reply, token);
    forall f | f in n.released ensures AllCurrent(n, f.cells) {
      CurrentStays(d, n, f.cells);
    }
  }

  // ── Every run ──────────────────────────────────────────────────────────

  lemma PerformKeepsSecrets(s: State, w: WorkerId, reply: Reply, token: string, loaded: seq<Cell>)
    requires SecretsOk(s) && Enabled(s, Perform(w, reply, token, loaded))
    ensures SecretsOk(Performed(s, w, reply, token, loaded))
  {
    var t, l := Performed(s, w, reply, token, loaded), s.workers[w];
    StatementGrows(s.data, l, reply, token);
    StatementKeepsVault(s.data, l, reply, token);
    StatementKeepsReleased(s.data, l, reply, token);
    StatementKeepsHand(s.data, l, reply, token, loaded);
    forall v | v in t.workers ensures HandOk(t.data, t.workers[v]) {
      if v != w {
        HandStays(s.data, t.data, s.workers[v]);
      }
    }
  }

  lemma BeginKeepsSecrets(s: State, w: WorkerId, plan: seq<Op>, reply: Reply)
    requires SecretsOk(s) && Enabled(s, Begin(w, plan, reply))
    ensures SecretsOk(Begun(s, w, plan, reply))
  {
    var e := s.queue.stream[s.workers[w].entry];
    if e.JobEntry? && !e.msg.UnknownJob? {
      PlansStartUntokenized(e, plan);
    }
  }

  lemma StepKeepsSecrets(s: State, a: Action)
    requires SecretsOk(s) && Enabled(s, a)
    ensures SecretsOk(Next(s, a))
  {
    match a
    case Begin(w, plan, reply) => BeginKeepsSecrets(s, w, plan, reply);
    case Perform(w, reply, token, loaded) => PerformKeepsSecrets(s, w, reply, token, loaded);
    case _ =>
  }

  lemma {:induction false} EveryRunKeepsSecrets(core: Core, acts: seq<Action>)
    ensures SecretsOk(Run(core, acts))
  {
    if acts != [] {
      var n := |acts| - 1;
      EveryRunKeepsSecrets(core, acts[..n]);
      if Enabled(Run(core, acts[..n]), acts[n]) {
        StepKeepsSecrets(Run(core, acts[..n]), acts[n]);
      }
    }
  }

  // ── What outputs may contain ───────────────────────────────────────────

  /** The token is in some file. */
  ghost predicate Released(files: set<File>, e: Emitted)
  {
    exists f :: f in files && e in f.cells
  }

  /** Some running worker has the token in the output it is preparing. */
  ghost predicate Held(workers: map<WorkerId, Local>, e: Emitted)
  {
    exists w :: w in workers && workers[w].Busy? && e in workers[w].cells
  }

  /** A token put into an output: released in a file, or held by a run that may never write its file. */
  ghost predicate PutOut(s: State, e: Emitted)
  {
    Released(s.data.released, e) || Held(s.workers, e)
  }

  lemma PutOutStaysCurrent(core: Core, acts: seq<Action>, n: nat, e: Emitted)
    requires n <= |acts| && PutOut(Run(core, acts[..n]), e)
    ensures Current(Run(core, acts).data, e)
  {
    EveryRunKeepsSecrets(core, acts[..n]);
    RunGrows(core, acts, n);
    ReadableStays(Run(core, acts[..n]).data.core, Run(core, acts).data.core, Cell(e.key, e.value));
  }

  /**
   Lifelong reversibility: whatever happens after a student token was put into
   an output, a lookup of it at any time `m`, followed by the decryption at any
   later time, gives back the plaintext it replaced; looking up a guardian token
   never gives anything.
   */
  lemma TokensStayReversible(core: Core, acts: seq<Action>, n: nat, m: nat, e: Emitted, r: Restored)
    requires n <= m <= |acts| && PutOut(Run(core, acts[..n]), e)
    requires MayRestore(Run(core, acts).data.core, Run(core, acts[..m]).data.vault, e.token, r)
    ensures r == if e.key.kind.Student? then Found(e.value) else Unknown
  {
    var looked, now := Run(core, acts[..m]).data, Run(core, acts).data;
    assert acts[..m][..n] == acts[..n];
    PutOutStaysCurrent(core, acts[..m], n, e);
    PutOutStaysCurrent(core, acts, n, e);
    EveryRunKeepsSecrets(core, acts[..m]);
    if e.key.kind.Student? {
      RestoreIsInverse(now.core, looked.vault, e.key, r);
    } else {
      assert forall k :: !Matches(looked.vault, k, e.token);
    }
  }

  /**
   Agreement: two outputs, of whichever runs at whichever times, even of runs
   still going or aborted later, give a field the same token, and two fields
   never share one.
   */
  lemma OutputsAgree(core: Core, acts: seq<Action>, m: nat, n: nat, d: Emitted, e: Emitted)
    requires m <= |acts| && n <= |acts|
    requires PutOut(Run(core, acts[..m]), d) && PutOut(Run(core, acts[..n]), e)
    ensures d.key == e.key <==> d.token == e.token
    ensures d.key == e.key ==> d == e
  {
    PutOutStaysCurrent(core, acts, m, d);
    PutOutStaysCurrent(core, acts, n, e);
    EveryRunKeepsSecrets(core, acts);
  }

  // ── anonymize ──────────────────────────────────────────────────────────

  /** The entry a worker holds asks for pseudonymization. */
  ghost predicate Pseudonymizes(stream: seq<Entry>, l: Local)
  {
    l.Busy? && l.entry < |stream| && stream[l.entry].JobEntry?
    && match stream[l.entry].msg case DeidJob(p, _) => p case _ => false
  }

  /** The statements of any other job neither tokenize nor load for tokenizing. */
  ghost predicate NothingToTokenize(stream: seq<Entry>, l: Local)
  {
    l.Busy? ==> (
      && l.entry < |stream|
      && (!Pseudonymizes(stream, l) ==> forall op :: op in l.ops ==> !op.Tokenize? && (op.Load? ==> !op.pseudonymize)))
  }

  lemma BeginTokenizesOnlyWhenAsked(s: State, w: WorkerId, plan: seq<Op>, reply: Reply)
    requires Enabled(s, Begin(w, plan, reply))
    ensures NothingToTokenize(s.queue.stream, Begun(s, w, plan, reply).workers[w])
  {
    var e := s.queue.stream[s.workers[w].entry];
    if e.JobEntry? && !e.msg.UnknownJob? {
      PlansStartUntokenized(e, plan);
    }
  }

  lemma PerformTokenizesOnlyWhenAsked(s: State, w: WorkerId, reply: Reply, token: string, loaded: seq<Cell>)
    requires Enabled(s, Perform(w, reply, token, loaded)) && NothingToTokenize(s.queue.stream, s.workers[w])
    ensures NothingToTokenize(s.queue.stream, Performed(s, w, reply, token, loaded).workers[w])
  {
    var l, m := s.workers[w], Performed(s, w, reply, token, loaded).workers[w];
    assert l.ops[0] in l.ops;
    if m.Busy? && !l.ops[0].Load? {
      assert m.ops == l.ops[1..];
    }
  }

  ghost predicate AskedOk(s: State)
  {
    forall w :: w in s.workers ==> NothingToTokenize(s.queue.stream, s.workers[w])
  }

  lemma StepTokenizesOnlyWhenAsked(s: State, a: Action)
    requires AskedOk(s) && Enabled(s, a)
    ensures AskedOk(Next(s, a))
  {
    match a
    case Begin(w, plan, reply) => BeginTokenizesOnlyWhenAsked(s, w, plan, reply);
    case Perform(w, reply, token, loaded) => PerformTokenizesOnlyWhenAsked(s, w, reply, token, loaded);
    case _ =>
  }

  lemma {:induction false} EveryRunTokenizesOnlyWhenAsked(core: Core, acts: seq<Action>)
    ensures AskedOk(Run(core, acts))
  {
    if acts != [] {
      var n := |acts| - 1;
      EveryRunTokenizesOnlyWhenAsked(core, acts[..n]);
      if Enabled(Run(core, acts[..n]), acts[n]) {
        StepTokenizesOnlyWhenAsked(Run(core, acts[..n]), acts[n]);
      }
    }
  }

  /**
   The reversible map is written by pseudonymize jobs only: no step of an import,
   of an anonymize job, or of anything else ever changes it.
   */
  lemma OnlyPseudonymizeWritesTheMap(core: Core, acts: seq<Action>, a: Action)
    requires Enabled(Run(core, acts), a) && Next(Run(core, acts), a).data.vault != Run(core, acts).data.vault
    ensures var s := Run(core, acts); a.Perform? && Pseudonymizes(s.queue.stream, s.workers[a.w])
  {
    var s := Run(core, acts);
    EveryRunTokenizesOnlyWhenAsked(core, acts);
    if a.Perform? {
      assert s.workers[a.w].ops[0] in s.workers[a.w].ops;
    }
  }
}
