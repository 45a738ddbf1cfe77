/**
 The import job: validate every row, insert the valid ones, account for all of
 them (worker/internal/importer/importer.go and report.go).
 */
module Importer {
  import opened Text
  import opened Records
  import opened Validation
  import opened Jobs
  import opened Storage
  import opened Progress

  const MAX_ERRORS_PER_ENTITY := 100

  datatype RowError = RowError(row: nat, fault: Fault)

  // ── The per-file report ────────────────────────────────────────────────

  class EntityReport {
    var total: nat
    var inserted: int
    var skipped: int
    var failed: nat
    var errors: seq<RowError>
    var truncated: bool

    constructor (total: nat)
      ensures this.total == total && inserted == 0 && skipped == 0 && Logged([])
    {
      this.total := total;
      inserted, skipped, failed, errors, truncated := 0, 0, 0, [], false;
    }

    /** The report after exactly these row errors, in this order. */
    ghost predicate Logged(faults: seq<RowError>)
      reads this
    {
      && failed == |faults|
      && errors == (if |faults| <= MAX_ERRORS_PER_ENTITY then faults else faults[..MAX_ERRORS_PER_ENTITY])
      && (truncated <==> |faults| > MAX_ERRORS_PER_ENTITY)
    }

    /** `addError`: counts every error, keeps the first hundred. */
    method AddError(row: nat, fault: Fault, ghost before: seq<RowError>)
      requires Logged(before)
      modifies this`failed, this`errors, this`truncated
      ensures Logged(before + [RowError(row, fault)])
    {
      failed := failed + 1;
      if |errors| < MAX_ERRORS_PER_ENTITY {
        errors := errors + [RowError(row, fault)];
      } else {
        truncated := true;
      }
    }
  }

  // ── Which rows fail ────────────────────────────────────────────────────

  /** The verdict on each row of a file, in file order. */
  type Verdicts = seq<Option<Fault>>

  /** The failing rows in increasing order, numbered from 1. */
  function Faults(v: Verdicts): seq<RowError>
  {
    if v == [] then []
    else
      var n := |v| - 1;
      Faults(v[..n]) + match v[n] case None => [] case Some(f) => [RowError(n + 1, f)]
  }

  /** The error list names exactly the failing rows, each once, in increasing order. */
  lemma {:induction false} FaultsAreTheFailingRows(v: Verdicts)
    ensures forall i, j :: 0 <= i < j < |Faults(v)| ==> Faults(v)[i].row < Faults(v)[j].row
    ensures forall e :: e in Faults(v) <==> 1 <= e.row <= |v| && v[e.row - 1] == Some(e.fault)
  {
    if v != [] {
      var n := |v| - 1;
      FaultsAreTheFailingRows(v[..n]);
      forall i | 0 <= i < |Faults(v[..n])| ensures Faults(v[..n])[i].row <= n {
        assert Faults(v[..n])[i] in Faults(v[..n]);
      }
      forall e ensures e in Faults(v) <==> 1 <= e.row <= |v| && v[e.row - 1] == Some(e.fault) {
        if e.row <= n {
          assert e in Faults(v) <==> e in Faults(v[..n]);
        }
      }
    }
  }

  /** The validated rows of a file, in file order. */
  type Checked<D> = seq<Result<D, Fault>>

  function CheckStudents(recs: seq<Record>): (c: Checked<StudentRow>)
    ensures |c| == |recs|
  {
    seq(|recs|, i requires 0 <= i < |recs| => ValidateStudent(recs[i]))
  }

  function CheckGuardians(recs: seq<Record>): (c: Checked<GuardianRow>)
    ensures |c| == |recs|
  {
    seq(|recs|, i requires 0 <= i < |recs| => ValidateGuardian(recs[i]))
  }

  function CheckLinks(recs: seq<Record>): (c: Checked<LinkRow>)
    ensures |c| == |recs|
  {
    seq(|recs|, i requires 0 <= i < |recs| => ValidateLink(recs[i]))
  }

  function RowVerdicts<D>(c: Checked<D>): (v: Verdicts)
    ensures |v| == |c|
  {
    seq(|c|, i requires 0 <= i < |c| => if c[i].Err? then Some(c[i].error) else None)
  }

  /** A link fails validation, or lacks an endpoint, or meets a database error (`down`). */
  function LinkVerdict(core: Core, r: Result<LinkRow, Fault>, down: bool): Option<Fault>
  {
    if r.Err? then Some(r.error)
    else if down || LinkResult(core, r.value).LinkRejected? then Some(DatabaseError)
    else None
  }

  /** `flaky` names the rows whose statement the database fails for reasons of its own. */
  function LinkVerdicts(core: Core, c: Checked<LinkRow>, flaky: set<nat>): (v: Verdicts)
    ensures |v| == |c|
  {
    seq(|c|, i requires 0 <= i < |c| => LinkVerdict(core, c[i], i in flaky))
  }

  /** The rows that passed validation. */
  function Accepted<D>(c: Checked<D>): seq<D>
  {
    if c == [] then []
    else
      var n := |c| - 1;
      Accepted(c[..n]) + match c[n] case Ok(row) => [row] case Err(_) => []
  }

  /** The valid links, leaving out the rows whose statement the database failed. */
  function Tried(c: Checked<LinkRow>, flaky: set<nat>): seq<LinkRow>
  {
    if c == [] then []
    else
      var n := |c| - 1;
      Tried(c[..n], flaky) + if n in flaky then [] else match c[n] case Ok(l) => [l] case Err(_) => []
  }

  // ── The three files ────────────────────────────────────────────────────

  /** The validation loop: collects the valid rows and logs the others. */
  method Sift<D>(rep: EntityReport, checked: Checked<D>) returns (valid: seq<D>)
    requires rep.Logged([])
    modifies rep`failed, rep`errors, rep`truncated
    ensures valid == Accepted(checked)
    ensures rep.Logged(Faults(RowVerdicts(checked)))
    ensures rep.failed + |valid| == |checked|
  {
    valid := [];
    ghost var verdicts := RowVerdicts(checked);
    for i := 0 to |checked|
      invariant rep.Logged(Faults(verdicts[..i]))
      invariant valid == Accepted(checked[..i])
      invariant |valid| + rep.failed == i
    {
      assert checked[..i + 1][..i] == checked[..i] && verdicts[..i + 1][..i] == verdicts[..i];
      match checked[i] {
        case Err(fault) => rep.AddError(i + 1, fault, Faults(verdicts[..i]));
        case Ok(row) => valid := valid + [row];
      }
    }
    assert checked[..|checked|] == checked && verdicts[..|checked|] == verdicts;
  }

  /** Every data row was inserted, skipped or failed. */
  ghost predicate Balanced(rep: EntityReport)
    reads rep
  {
    0 <= rep.inserted && 0 <= rep.skipped && rep.total == rep.inserted + rep.skipped + rep.failed
  }

  /** `importStudents`, from the validated rows of the file on. */
  method ImportStudents(store: Store, checked: Checked<StudentRow>, outage: Outage)
    returns (rep: EntityReport, ok: bool)
    requires store.Valid()
    modifies store`students
    ensures store.Valid() && fresh(rep)
    ensures rep.total == |checked| && rep.Logged(Faults(RowVerdicts(checked)))
    ensures ok <==> !Hits(outage, |Accepted(checked)|)
    ensures ok ==> store.students == PutAll(old(store.students), Accepted(checked))
    ensures !ok ==> store.students == PutAll(old(store.students),
                      Accepted(checked)[..CommittedRows(outage.value, store.chunk)])
    ensures ok ==> rep.inserted == Added(old(store.students), Accepted(checked)) && Balanced(rep)
  {
    rep := new EntityReport(|checked|);
    var valid := Sift(rep, checked);
    var inserted, fine := store.InsertStudents(valid, outage);
    if !fine {
      return rep, false;
    }
    AddedBound(old(store.students), valid);
    rep.inserted := inserted;
    rep.skipped := |valid| - inserted;
    ok := true;
  }

  /** `importGuardians`. */
  method ImportGuardians(store: Store, checked: Checked<GuardianRow>, outage: Outage)
    returns (rep: EntityReport, ok: bool)
    requires store.Valid()
    modifies store`guardians
    ensures store.Valid() && fresh(rep)
    ensures rep.total == |checked| && rep.Logged(Faults(RowVerdicts(checked)))
    ensures ok <==> !Hits(outage, |Accepted(checked)|)
    ensures ok ==> store.guardians == PutAll(old(store.guardians), Accepted(checked))
    ensures !ok ==> store.guardians == PutAll(old(store.guardians),
                      Accepted(checked)[..CommittedRows(outage.value, store.chunk)])
    ensures ok ==> rep.inserted == Added(old(store.guardians), Accepted(checked)) && Balanced(rep)
  {
    rep := new EntityReport(|checked|);
    var valid := Sift(rep, checked);
    var inserted, fine := store.InsertGuardians(valid, outage);
    if !fine {
      return rep, false;
    }
    AddedBound(old(store.guardians), valid);
    rep.inserted := inserted;
    rep.skipped := |valid| - inserted;
    ok := true;
  }

  /** Whether a link is rejected depends on the two entity tables alone. */
  lemma LinksLeaveVerdicts(core: Core, ls: seq<LinkRow>, r: Result<LinkRow, Fault>, down: bool)
    requires Referential(core)
    ensures LinkVerdict(PutLinks(core, ls), r, down) == LinkVerdict(core, r, down)
  {
  }

  /** One more row extends the tables and the count by its own outcome. */
  lemma LinkStep(core: Core, c: Checked<LinkRow>, i: nat, flaky: set<nat>)
    requires i < |c|
    ensures var done, more := Tried(c[..i], flaky), Tried(c[..i + 1], flaky);
            if c[i].Err? || i in flaky then more == done
            else
              && PutLinks(core, more) == PutLink(PutLinks(core, done), c[i].value)
              && LinksAdded(core, more) == LinksAdded(core, done)
                 + if LinkResult(PutLinks(core, done), c[i].value).LinkInserted? then 1 else 0
  {
    assert c[..i + 1][..i] == c[..i];
    if c[i].Ok? && i !in flaky {
      var done, more := Tried(c[..i], flaky), Tried(c[..i + 1], flaky);
      assert more == done + [c[i].value];
      assert more[..|more| - 1] == done;
    }
  }

  /** Everything the loop body owes for row `i`, told from the starting tables. */
  lemma LinkRowDone(core: Core, c: Checked<LinkRow>, i: nat, flaky: set<nat>)
    requires Referential(core) && i < |c|
    ensures var v := LinkVerdicts(core, c, flaky);
            var done, more := Tried(c[..i], flaky), Tried(c[..i + 1], flaky);
            var at := PutLinks(core, done);
            && LinkVerdict(at, c[i], i in flaky) == v[i]
            && Faults(v[..i + 1]) == Faults(v[..i]) + (if v[i].Some? then [RowError(i + 1, v[i].value)] else [])
            && (v[i].Some? ==> PutLinks(core, more) == at && LinksAdded(core, more) == LinksAdded(core, done))
            && (v[i].None? ==> PutLinks(core, more) == PutLink(at, c[i].value)
                               && LinksAdded(core, more) == LinksAdded(core, done)
                                  + if LinkResult(at, c[i].value).LinkInserted? then 1 else 0)
  {
    var v := LinkVerdicts(core, c, flaky);
    assert v[..i + 1][..i] == v[..i];
    LinksLeaveVerdicts(core, Tried(c[..i], flaky), c[i], i in flaky);
    LinkStep(core, c, i, flaky);
  }

  /** The context is cancelled from row `i` on. */
  predicate Cancelled(cancel: Outage, i: nat)
  {
    cancel.Some? && cancel.value <= i
  }

  /** The loop body: one row, one statement, one entry in the report. */
  method RecordLink(store: Store, rep: EntityReport, r: Result<LinkRow, Fault>, row: nat, down: bool,
                    ghost before: seq<RowError>)
    requires store.Valid() && rep.Logged(before)
    modifies store`links, rep
    ensures store.Valid() && rep.total == old(rep.total)
    ensures match LinkVerdict(old(store.Tables()), r, down)
            case Some(fault) =>
              && rep.Logged(before + [RowError(row, fault)]) && store.Tables() == old(store.Tables())
              && rep.inserted == old(rep.inserted) && rep.skipped == old(rep.skipped)
            case None =>
              var gain := if LinkResult(old(store.Tables()), r.value).LinkInserted? then 1 else 0;
              && rep.Logged(before) && store.Tables() == PutLink(old(store.Tables()), r.value)
              && rep.inserted == old(rep.inserted) + gain && rep.skipped == old(rep.skipped) + 1 - gain
  {
    match r {
      case Err(fault) => rep.AddError(row, fault, before);
      case Ok(l) =>
        var inserted, fine := store.InsertLink(l, down);
        if !fine {
          rep.AddError(row, DatabaseError, before);
        } else if inserted {
          rep.inserted := rep.inserted + 1;
        } else {
          rep.skipped := rep.skipped + 1;
        }
    }
  }

  /** The state of the link loop before row `i`. */
  ghost predicate LinksSoFar(store: Store, rep: EntityReport, core: Core, c: Checked<LinkRow>, flaky: set<nat>, i: nat)
    requires i <= |c|
    reads store, rep
  {
    && store.Valid() && rep.total == |c|
    && rep.Logged(Faults(LinkVerdicts(core, c, flaky)[..i]))
    && store.Tables() == PutLinks(core, Tried(c[..i], flaky))
    && rep.inserted == LinksAdded(core, Tried(c[..i], flaky))
    && 0 <= rep.skipped && rep.inserted + rep.skipped + rep.failed == i
  }

  method InsertRow(store: Store, rep: EntityReport, ghost core: Core, c: Checked<LinkRow>, flaky: set<nat>, i: nat)
    requires i < |c| && Referential(core) && LinksSoFar(store, rep, core, c, flaky, i)
    modifies store`links, rep
    ensures LinksSoFar(store, rep, core, c, flaky, i + 1)
  {
    LinkRowDone(core, c, i, flaky);
    RecordLink(store, rep, c[i], i + 1, i in flaky, Faults(LinkVerdicts(core, c, flaky)[..i]));
  }

  /** No statement of the first `n` rows met a cancelled context. */
  ghost predicate Uncut(c: Checked<LinkRow>, cancel: Outage, n: nat)
    requires n <= |c|
  {
    forall i :: 0 <= i < n && c[i].Ok? ==> !Cancelled(cancel, i)
  }

  /**
   `importLinks`: one statement per link, so a rejected link is a failed row and
   not a failed run; only a statement that fails because the context is
   cancelled ends the loop. `done` counts the rows dealt with.
   */
  method ImportLinks(store: Store, checked: Checked<LinkRow>, flaky: set<nat>, cancel: Outage)
    returns (rep: EntityReport, done: nat, ok: bool)
    requires store.Valid()
    modifies store`links
    ensures done <= |checked| && fresh(rep) && LinksSoFar(store, rep, old(store.Tables()), checked, flaky, done)
    ensures ok <==> done == |checked|
    ensures ok <==> Uncut(checked, cancel, |checked|)
  {
    rep := new EntityReport(|checked|);
    done := 0;
    while done < |checked|
      invariant done <= |checked| && fresh(rep) && LinksSoFar(store, rep, old(store.Tables()), checked, flaky, done)
      invariant Uncut(checked, cancel, done)
    {
      if checked[done].Ok? && Cancelled(cancel, done) {
        return rep, done, false;
      }
      InsertRow(store, rep, old(store.Tables()), checked, flaky, done);
      done := done + 1;
    }
    ok := true;
  }

  // ── The whole run ──────────────────────────────────────────────────────

  /** A file of the dataset directory, and what reading it gives. */
  datatype File<R> = Missing | Unreadable | Parsed(rows: seq<R>)

  /** A dataset directory; only the students file is required. */
  datatype Directory = Directory(students: File<Record>, guardians: File<Record>, links: File<Record>)

  /** Its files with the outcome of validating each row. */
  datatype Files = Files(
    students: File<Result<StudentRow, Fault>>,
    guardians: File<Result<GuardianRow, Fault>>,
    links: File<Result<LinkRow, Fault>>)

  function Contents<R>(file: File<R>): seq<R>
  {
    if file.Parsed? then file.rows else []
  }

  function Check(dir: Directory): (files: Files)
    ensures (files.students.Missing? <==> dir.students.Missing?) && (files.students.Parsed? <==> dir.students.Parsed?)
    ensures files.guardians.Missing? <==> dir.guardians.Missing?
    ensures files.guardians.Parsed? <==> dir.guardians.Parsed?
    ensures (files.links.Missing? <==> dir.links.Missing?) && (files.links.Parsed? <==> dir.links.Parsed?)
  {
    Files(
      match dir.students
      case Missing => Missing
      case Unreadable => Unreadable
      case Parsed(recs) => Parsed(CheckStudents(recs)),
      match dir.guardians
      case Missing => Missing
      case Unreadable => Unreadable
      case Parsed(recs) => Parsed(CheckGuardians(recs)),
      match dir.links
      case Missing => Missing
      case Unreadable => Unreadable
      case Parsed(recs) => Parsed(CheckLinks(recs)))
  }

  /** What may go wrong in a run besides its files. */
  datatype Trouble = Trouble(students: Outage, guardians: Outage, flaky: set<nat>, cancel: Outage)

  predicate StudentsGo(files: Files, t: Trouble)
  {
    files.students.Parsed? && !Hits(t.students, |Accepted(files.students.rows)|)
  }

  predicate GuardiansGo(files: Files, t: Trouble)
  {
    !files.guardians.Unreadable? && !Hits(t.guardians, |Accepted(Contents(files.guardians))|)
  }

  ghost predicate LinksGo(files: Files, t: Trouble)
  {
    !files.links.Unreadable? && Uncut(Contents(files.links), t.cancel, |Contents(files.links)|)
  }

  /** How many progress marks a run reaches. */
  ghost function Reached(files: Files, t: Trouble): (n: nat)
    ensures n <= 4
  {
    if !StudentsGo(files, t) then 1 else if !GuardiansGo(files, t) then 2 else if !LinksGo(files, t) then 3 else 4
  }

  /** The rows that an undisturbed run tries to insert. */
  function Validated(files: Files): Dataset
  {
    Dataset(Accepted(Contents(files.students)), Accepted(Contents(files.guardians)), Tried(Contents(files.links), {}))
  }

  datatype Report = Report(students: EntityReport?, guardians: EntityReport?, links: EntityReport?)

  /** The tables when the links of a dataset are about to be inserted. */
  function EntitiesStored(core: Core, ds: Dataset): Core
  {
    core.(students := PutAll(core.students, ds.students), guardians := PutAll(core.guardians, ds.guardians))
  }

  /** The tables are those of an import of part of the dataset. */
  ghost predicate PartlyImported(core: Core, ds: Dataset, now: Core)
  {
    exists part :: PartOf(part, ds) && now == Import(core, part)
  }

  lemma StoppedInStudents(core: Core, ds: Dataset, n: nat)
    requires n <= |ds.students|
    ensures PartlyImported(core, ds, core.(students := PutAll(core.students, ds.students[..n])))
  {
    var part := Dataset(ds.students[..n], [], []);
    assert PartOf(part, ds) && Import(core, part) == core.(students := PutAll(core.students, ds.students[..n]));
  }

  lemma StoppedInGuardians(core: Core, ds: Dataset, n: nat)
    requires n <= |ds.guardians|
    ensures PartlyImported(core, ds, core.(students := PutAll(core.students, ds.students),
                                           guardians := PutAll(core.guardians, ds.guardians[..n])))
  {
    var part := Dataset(ds.students, ds.guardians[..n], []);
    assert PartOf(part, ds);
    assert Import(core, part) == core.(students := PutAll(core.students, ds.students),
                                       guardians := PutAll(core.guardians, ds.guardians[..n]));
  }

  lemma StoppedInLinks(core: Core, ds: Dataset, some: seq<LinkRow>)
    requires forall l :: l in some ==> l in ds.links
    ensures PartlyImported(core, ds, PutLinks(EntitiesStored(core, ds), some))
  {
    var part := Dataset(ds.students, ds.guardians, some);
    assert PartOf(part, ds) && Import(core, part) == PutLinks(EntitiesStored(core, ds), some);
  }

  /** Whatever was tried of the first rows is among the valid links of the file. */
  lemma {:induction false} TriedIsPart(c: Checked<LinkRow>, flaky: set<nat>, n: nat)
    requires n <= |c|
    ensures forall l :: l in Tried(c[..n], flaky) ==> l in Tried(c, {})
    decreases |c|
  {
    if c != [] {
      var k := |c| - 1;
      if n == |c| {
        assert c[..n] == c;
        TriedIsPart(c[..k], flaky, k);
        assert c[..k][..k] == c[..k];
      } else {
        TriedIsPart(c[..k], flaky, n);
        assert c[..k][..n] == c[..n];
      }
    }
  }

  /** However a run was cut short or disturbed, repeating it undisturbed gives what one clean run gives. */
  lemma RetryConverges(core: Core, ds: Dataset, now: Core)
    requires PartlyImported(core, ds, now)
    ensures Import(now, ds) == Import(core, ds)
  {
    var part :| PartOf(part, ds) && now == Import(core, part);
    PartsConverge(core, ds, part);
  }

  /** Where the link loop may leave the tables. */
  lemma LinksLoopEnded(core: Core, files: Files, flaky: set<nat>, done: nat)
    requires done <= |Contents(files.links)|
    ensures var c, ds := Contents(files.links), Validated(files);
            && PartlyImported(core, ds, PutLinks(EntitiesStored(core, ds), Tried(c[..done], flaky)))
            && (done == |c| ==> c[..done] == c
                                && LinkVerdicts(EntitiesStored(core, ds), c, flaky)[..done]
                                   == LinkVerdicts(EntitiesStored(core, ds), c, flaky))
  {
    var c, ds := Contents(files.links), Validated(files);
    TriedIsPart(c, flaky, done);
    StoppedInLinks(core, ds, Tried(c[..done], flaky));
  }

  /** The report on a file: all its rows, the failing ones logged. */
  ghost predicate Reports<R>(rep: EntityReport?, rows: seq<R>, faults: seq<RowError>)
    reads rep
  {
    rep != null && rep.total == |rows| && Balanced(rep) && rep.Logged(faults)
  }

  /** How many rows a report says were inserted; none for a file that is missing. */
  function Inserted(rep: EntityReport?): int
    reads rep
  {
    if rep == null then 0 else rep.inserted
  }

  lemma CountByStages(core: Core, ds: Dataset)
    ensures ImportCount(core, ds)
            == Added(core.students, ds.students) + Added(core.guardians, ds.guardians)
               + LinksAdded(EntitiesStored(core, ds), ds.links)
  {
  }

  /** The links stage of a run, once the entities are stored. */
  method RunLinks(store: Store, files: Files, ghost core: Core, t: Trouble) returns (rep: EntityReport?, ok: bool)
    requires store.Valid() && store.Tables() == EntitiesStored(core, Validated(files))
    modifies store`links
    ensures store.Valid() && PartlyImported(core, Validated(files), store.Tables())
    ensures ok <==> LinksGo(files, t)
    ensures rep != null ==> fresh(rep)
    ensures ok ==> (rep != null <==> files.links.Parsed?)
    ensures ok && t.flaky == {} ==> store.Tables() == Import(core, Validated(files))
    ensures ok && rep != null ==>
              Reports(rep, files.links.rows,
                      Faults(LinkVerdicts(EntitiesStored(core, Validated(files)), files.links.rows, t.flaky)))
    ensures ok && t.flaky == {} ==>
              Inserted(rep) == LinksAdded(EntitiesStored(core, Validated(files)), Validated(files).links)
  {
    match files.links {
      case Missing =>
        StoppedInLinks(core, Validated(files), []);
        return null, true;
      case Unreadable =>
        StoppedInLinks(core, Validated(files), []);
        return null, false;
      case Parsed(rows) =>
        var done;
        rep, done, ok := ImportLinks(store, rows, t.flaky, t.cancel);
        LinksLoopEnded(core, files, t.flaky, done);
    }
  }

  /** The guardians stage of a run, once the students are stored. */
  method RunGuardians(store: Store, files: Files, ghost core: Core, t: Trouble) returns (rep: EntityReport?, ok: bool)
    requires store.Valid() && store.Tables() == core.(students := PutAll(core.students, Validated(files).students))
    modifies store`guardians
    ensures store.Valid() && PartlyImported(core, Validated(files), store.Tables())
    ensures ok <==> GuardiansGo(files, t)
    ensures rep != null ==> fresh(rep)
    ensures ok ==> (rep != null <==> files.guardians.Parsed?)
                   && store.Tables() == EntitiesStored(core, Validated(files))
    ensures ok && rep != null ==>
              Reports(rep, files.guardians.rows, Faults(RowVerdicts(files.guardians.rows)))
    ensures ok ==> Inserted(rep) == Added(core.guardians, Validated(files).guardians)
  {
    StoppedInGuardians(core, Validated(files), 0);
    match files.guardians {
      case Missing => return null, true;
      case Unreadable => return null, false;
      case Parsed(rows) =>
        rep, ok := ImportGuardians(store, rows, t.guardians);
        var valid := Validated(files).guardians;
        assert valid[..|valid|] == valid;
        StoppedInGuardians(core, Validated(files),
                           if ok then |valid| else CommittedRows(t.guardians.value, store.chunk));
    }
  }

  /** The students stage of a run. */
  method RunStudents(store: Store, files: Files, t: Trouble) returns (rep: EntityReport?, ok: bool)
    requires store.Valid()
    modifies store`students
    ensures store.Valid() && PartlyImported(old(store.Tables()), Validated(files), store.Tables())
    ensures ok <==> StudentsGo(files, t)
    ensures rep != null ==> fresh(rep)
    ensures ok ==> store.students == PutAll(old(store.students), Validated(files).students)
                   && Reports(rep, files.students.rows, Faults(RowVerdicts(files.students.rows)))
                   && Inserted(rep) == Added(old(store.students), Validated(files).students)
  {
    StoppedInStudents(store.Tables(), Validated(files), 0);
    if !files.students.Parsed? {
      return null, false;
    }
    ghost var core, rows := store.Tables(), Validated(files).students;
    rep, ok := ImportStudents(store, files.students.rows, t.students);
    assert rows[..|rows|] == rows;
    StoppedInStudents(core, Validated(files), if ok then |rows| else CommittedRows(t.students.value, store.chunk));
  }

  /** What the reports of a successful run say about the two optional files. */
  ghost predicate OptionalReports(core: Core, files: Files, flaky: set<nat>, guardians: EntityReport?,
                                  links: EntityReport?)
    reads guardians, links
  {
    && (if files.guardians.Missing? then guardians == null
        else Reports(guardians, Contents(files.guardians), Faults(RowVerdicts(Contents(files.guardians)))))
    && (if files.links.Missing? then links == null
        else Reports(links, Contents(files.links),
                     Faults(LinkVerdicts(EntitiesStored(core, Validated(files)), Contents(files.links), flaky))))
  }

  /** The stages after the students, with the progress marks between them. */
  method RunOptional(store: Store, files: Files, ghost core: Core, t: Trouble,
                     job: JobId, ghost jobs: JobTable, heard: int -> Reply)
    returns (guardians: EntityReport?, links: EntityReport?, ok: bool)
    requires store.Valid() && StudentsGo(files, t)
    requires store.Tables() == core.(students := PutAll(core.students, Validated(files).students))
    requires store.jobs == Marked(jobs, job, IMPORT_MARKS, 2, heard)
    modifies store`guardians, store`links, store`jobs
    ensures store.Valid() && PartlyImported(core, Validated(files), store.Tables())
    ensures ok <==> Reached(files, t) == 4
    ensures store.jobs == Marked(jobs, job, IMPORT_MARKS, BeforeLast(Reached(files, t)), heard)
    ensures (guardians != null ==> fresh(guardians)) && (links != null ==> fresh(links))
    ensures ok && t.flaky == {} ==> store.Tables() == Import(core, Validated(files))
    ensures ok ==> OptionalReports(core, files, t.flaky, guardians, links)
    ensures ok && t.flaky == {} ==>
              Inserted(guardians) + Inserted(links)
              == Added(core.guardians, Validated(files).guardians)
                 + LinksAdded(EntitiesStored(core, Validated(files)), Validated(files).links)
  {
    links := null;
    guardians, ok := RunGuardians(store, files, core, t);
    if !ok {
      return;
    }
    Mark(store, job, jobs, IMPORT_MARKS, 2, heard);
    links, ok := RunLinks(store, files, core, t);
  }

  /**
   `Run`. An undisturbed run of a directory with a students file has the effect
   and the counts of `Import`; any other run leaves the tables of an import of
   part of the dataset. A run that fails has passed exactly the progress marks
   before the stage that failed.
   */
  method Run(store: Store, files: Files, t: Trouble, job: JobId, heard: int -> Reply) returns (report: Report, ok: bool)
    requires store.Valid()
    modifies store`students, store`guardians, store`links, store`jobs
    ensures store.Valid()
    ensures ok <==> Reached(files, t) == 4
    ensures store.jobs == Marked(old(store.jobs), job, IMPORT_MARKS, Reached(files, t), heard)
    ensures PartlyImported(old(store.Tables()), Validated(files), store.Tables())
    ensures ok && t.flaky == {} ==> store.Tables() == Import(old(store.Tables()), Validated(files))
    ensures ok ==> Reports(report.students, files.students.rows, Faults(RowVerdicts(files.students.rows)))
    ensures ok ==> OptionalReports(old(store.Tables()), files, t.flaky, report.guardians, report.links)
    ensures ok && t.flaky == {} ==>
              Inserted(report.students) + Inserted(report.guardians) + Inserted(report.links)
              == ImportCount(old(store.Tables()), Validated(files))
  {
    ghost var core, jobs := store.Tables(), store.jobs;
    CountByStages(core, Validated(files));
    report := Report(null, null, null);
    Mark(store, job, jobs, IMPORT_MARKS, 0, heard);
    var students, guardians, links;
    students, ok := RunStudents(store, files, t);
    if !ok {
      return;
    }
    Mark(store, job, jobs, IMPORT_MARKS, 1, heard);
    guardians, links, ok := RunOptional(store, files, core, t, job, jobs, heard);
    if ok {
      Mark(store, job, jobs, IMPORT_MARKS, 3, heard);
    }
    report := Report(students, guardians, links);
  }

  /**
   Running the same directory again right away: nothing is inserted, the tables
   stay, and the links meet the same verdicts as the first time.
   */
  lemma SecondRun(core: Core, ds: Dataset, links: Checked<LinkRow>)
    requires Referential(core)
    ensures var after := Import(core, ds);
            && Import(after, ds) == after && ImportCount(after, ds) == 0
            && EntitiesStored(after, ds) == after
            && LinkVerdicts(after, links, {}) == LinkVerdicts(EntitiesStored(core, ds), links, {})
  {
    ImportTwice(core, ds);
    EntitiesTwice(core, ds);
    var base := EntitiesStored(core, ds);
    forall i | 0 <= i < |links|
      ensures LinkVerdict(Import(core, ds), links[i], false) == LinkVerdict(base, links[i], false)
    {
      LinksLeaveVerdicts(base, ds.links, links[i], false);
    }
  }

  lemma EntitiesTwice(core: Core, ds: Dataset)
    requires Referential(core)
    ensures EntitiesStored(Import(core, ds), ds) == Import(core, ds)
    ensures Referential(EntitiesStored(core, ds))
  {
    var base := EntitiesStored(core, ds);
    PutAllKeys(core.students, ds.students);
    PutAllKeys(core.guardians, ds.guardians);
    PutLinksPairs(base, ds.links);
    PutAllPresent(base.students, ds.students);
    PutAllPresent(base.guardians, ds.guardians);
  }
}
