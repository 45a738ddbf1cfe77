/**
 The worker's access to PostgreSQL (worker/internal/store/store.go): a class
 whose fields are the tables it writes. Each method is one statement or one
 batch, and a batch commits as a whole.
 */
module Storage {
  import opened Text
  import opened Records
  import opened Vault
  import opened Columns
  import opened Jobs
  import opened Ordering

  const INSERT_CHUNK_SIZE: nat := 500

  /** What became of a statement: done, not done, or done while its reply was lost. */
  datatype Reply = Acknowledged | Refused | Unheard

  /** The statement of a call at which the database reports an error, if any. */
  type Outage = Option<nat>

  predicate Hits(outage: Outage, count: nat)
  {
    outage.Some? && outage.value < count
  }

  function Shift(outage: Outage, n: nat): Outage
  {
    if outage.Some? && n <= outage.value then Some(outage.value - n) else None
  }

  class Store {
    var students: map<Uuid, StudentData>
    var guardians: map<Uuid, GuardianData>
    var links: set<(Uuid, Uuid)>
    var pseudonyms: PseudonymMap
    var jobs: JobTable
    const chunk: nat

    ghost predicate Valid()
      reads this
    {
      chunk > 0 && Referential(Tables())
    }

    function Tables(): Core
      reads this
    {
      Core(students, guardians, links)
    }

    constructor (chunk: nat := INSERT_CHUNK_SIZE)
      requires chunk > 0
      ensures Valid() && Tables() == Core(map[], map[], {}) && pseudonyms == map[] && jobs == map[]
      ensures this.chunk == chunk
    {
      this.chunk := chunk;
      students, guardians, links := map[], map[], {};
      pseudonyms, jobs := map[], map[];
    }

    // ── Batched inserts ──────────────────────────────────────────────────

    /**
     `execBatch` over student inserts: counts the affected rows until the first
     error. The statements form one transaction, so after an error none of them
     remains, although the ones before it were counted.
     */
    method ExecStudentBatch(batch: seq<StudentRow>, outage: Outage) returns (affected: nat, ok: bool)
      modifies this`students
      ensures ok <==> !Hits(outage, |batch|)
      ensures ok ==> students == PutAll(old(students), batch) && affected == Added(old(students), batch)
      ensures !ok ==> students == old(students) && affected == Added(students, batch[..outage.value])
    {
      affected := 0;
      var working := students;
      for i := 0 to |batch|
        invariant !Hits(outage, i)
        invariant students == old(students)
        invariant working == PutAll(students, batch[..i]) && affected == Added(students, batch[..i])
      {
        if outage == Some(i) {
          return affected, false;
        }
        assert batch[..i + 1][..i] == batch[..i];
        if Canon(batch[i].id) !in working {
          affected := affected + 1;
        }
        working := Put(working, batch[i]);
      }
      assert batch[..|batch|] == batch;
      students := working;
      ok := true;
    }

    /**
     `InsertStudents`. Without an error it is the row-by-row fold, for every
     chunk size. An error in a chunk leaves exactly the chunks before it.
     */
    method InsertStudents(rows: seq<StudentRow>, outage: Outage) returns (inserted: nat, ok: bool)
      requires Valid()
      modifies this`students
      ensures Valid()
      ensures ok <==> !Hits(outage, |rows|)
      ensures ok ==> students == PutAll(old(students), rows) && inserted == Added(old(students), rows)
      ensures !ok ==> students == PutAll(old(students), rows[..CommittedRows(outage.value, chunk)])
                      && inserted == Added(old(students), rows[..outage.value])
    {
      inserted := 0;
      var start := 0;
      ghost var t, done := students, 0;
      while start < |rows|
        invariant 0 <= done <= |rows| && done == (if start <= |rows| then start else |rows|)
        invariant CommittedRows(start, chunk) == start
        invariant !Hits(outage, done)
        invariant students == PutAll(t, rows[..done]) && inserted == Added(t, rows[..done])
        invariant guardians == old(guardians) && links == old(links)
        decreases |rows| - start
      {
        var end := if start + chunk <= |rows| then start + chunk else |rows|;
        var n, fine := ExecStudentBatch(rows[start..end], Shift(outage, start));
        inserted := inserted + n;
        if !fine {
          ChunkFailed(t, rows, start, outage.value, end, chunk);
          TablesGrow(old(Tables()), Tables());
          return inserted, false;
        }
        ChunkDone(t, rows, start, end);
        start, done := start + chunk, end;
      }
      assert rows[..|rows|] == rows;
      PutAllKeys(t, rows);
      TablesGrow(old(Tables()), Tables());
      ok := true;
    }

    method ExecGuardianBatch(batch: seq<GuardianRow>, outage: Outage) returns (affected: nat, ok: bool)
      modifies this`guardians
      ensures ok <==> !Hits(outage, |batch|)
      ensures ok ==> guardians == PutAll(old(guardians), batch) && affected == Added(old(guardians), batch)
      ensures !ok ==> guardians == old(guardians) && affected == Added(guardians, batch[..outage.value])
    {
      affected := 0;
      var working := guardians;
      for i := 0 to |batch|
        invariant !Hits(outage, i)
        invariant guardians == old(guardians)
        invariant working == PutAll(guardians, batch[..i]) && affected == Added(guardians, batch[..i])
      {
        if outage == Some(i) {
          return affected, false;
        }
        assert batch[..i + 1][..i] == batch[..i];
        if Canon(batch[i].id) !in working {
          affected := affected + 1;
        }
        working := Put(working, batch[i]);
      }
      assert batch[..|batch|] == batch;
      guardians := working;
      ok := true;
    }

    /** `InsertGuardians`: the same loop over the guardians table. */
    method InsertGuardians(rows: seq<GuardianRow>, outage: Outage) returns (inserted: nat, ok: bool)
      requires Valid()
      modifies this`guardians
      ensures Valid()
      ensures ok <==> !Hits(outage, |rows|)
      ensures ok ==> guardians == PutAll(old(guardians), rows) && inserted == Added(old(guardians), rows)
      ensures !ok ==> guardians == PutAll(old(guardians), rows[..CommittedRows(outage.value, chunk)])
                      && inserted == Added(old(guardians), rows[..outage.value])
    {
      inserted := 0;
      var start := 0;
      ghost var t, done := guardians, 0;
      while start < |rows|
        invariant 0 <= done <= |rows| && done == (if start <= |rows| then start else |rows|)
        invariant CommittedRows(start, chunk) == start
        invariant !Hits(outage, done)
        invariant guardians == PutAll(t, rows[..done]) && inserted == Added(t, rows[..done])
        invariant students == old(students) && links == old(links)
        decreases |rows| - start
      {
        var end := if start + chunk <= |rows| then start + chunk else |rows|;
        var n, fine := ExecGuardianBatch(rows[start..end], Shift(outage, start));
        inserted := inserted + n;
        if !fine {
          ChunkFailed(t, rows, start, outage.value, end, chunk);
          TablesGrow(old(Tables()), Tables());
          return inserted, false;
        }
        ChunkDone(t, rows, start, end);
        start, done := start + chunk, end;
      }
      assert rows[..|rows|] == rows;
      PutAllKeys(t, rows);
      TablesGrow(old(Tables()), Tables());
      ok := true;
    }

    /** `InsertLink`: an error is a missing endpoint, or a failure of the database (`down`). */
    method InsertLink(l: LinkRow, down: bool) returns (inserted: bool, ok: bool)
      requires Valid()
      modifies this`links
      ensures Valid()
      ensures ok <==> !down && !LinkResult(old(Tables()), l).LinkRejected?
      ensures Tables() == if ok then PutLink(old(Tables()), l) else old(Tables())
      ensures inserted <==> ok && LinkResult(old(Tables()), l).LinkInserted?
    {
      var result := LinkResult(Tables(), l);
      if down || result.LinkRejected? {
        return false, false;
      }
      if result.LinkInserted? {
        links := links + {(Canon(l.student), Canon(l.guardian))};
      }
      return result.LinkInserted?, true;
    }

    // ── Reading for de-identification ────────────────────────────────────

    /** `LoadStudents`: every student once, in id order, with its plaintext. */
    method LoadStudents() returns (rows: seq<StudentRow>)
      ensures LoadedFrom(rows, students)
    {
      var ids := OrderById(students.Keys);
      rows := [];
      for i := 0 to |ids|
        invariant |rows| == i
        invariant forall j :: 0 <= j < i ==> ids[j] in students && rows[j] == Row(ids[j], students[ids[j]])
      {
        assert ids[i] in ids;
        rows := rows + [Row(ids[i], students[ids[i]])];
      }
      assert RowIds(rows) == ids;
    }

    method LoadGuardians() returns (rows: seq<GuardianRow>)
      ensures LoadedFrom(rows, guardians)
    {
      var ids := OrderById(guardians.Keys);
      rows := [];
      for i := 0 to |ids|
        invariant |rows| == i
        invariant forall j :: 0 <= j < i ==> ids[j] in guardians && rows[j] == Row(ids[j], guardians[ids[j]])
      {
        assert ids[i] in ids;
        rows := rows + [Row(ids[i], guardians[ids[i]])];
      }
      assert RowIds(rows) == ids;
    }

    // ── The reversible map ───────────────────────────────────────────────

    /** `UpsertPseudonym`: returns the token that is in force afterwards. */
    method UpsertPseudonym(key: Key, hash: Digest, token: string) returns (effective: string)
      modifies this`pseudonyms
      ensures pseudonyms == Upsert(old(pseudonyms), key, hash, token)
      ensures effective == pseudonyms[key].token
      ensures effective == if key in old(pseudonyms) then old(pseudonyms)[key].token else token
    {
      if key in pseudonyms {
        pseudonyms := pseudonyms[key := pseudonyms[key].(hash := hash)];
      } else {
        pseudonyms := pseudonyms[key := Mapping(hash, token)];
      }
      effective := pseudonyms[key].token;
    }

    method CountPseudonyms() returns (n: nat)
      ensures n == |pseudonyms.Keys|
    {
      assert |pseudonyms| == |pseudonyms.Keys|;
      n := |pseudonyms|;
    }

    /** `RestorePseudonym`: looks the token up among student rows only, then decrypts that field. */
    method RestorePseudonym(token: string) returns (r: Restored)
      ensures MayRestore(Tables(), pseudonyms, token, r)
      ensures r.Unknown? <==> forall key :: !Matches(pseudonyms, key, token)
      ensures r.Found? ==> exists key ::
                Matches(pseudonyms, key, token) && key.id in students
                && ColumnReads(students[key.id], key.field, r.original)
    {
      var matching := set key | key in pseudonyms && key.kind.Student? && pseudonyms[key].token == token;
      if matching == {} {
        assert forall key :: Matches(pseudonyms, key, token) ==> key in matching;
        return Unknown;
      }
      var key :| key in matching;
      assert Matches(pseudonyms, key, token);
      return Decrypted(Tables(), key);
    }

    // ── Job rows ─────────────────────────────────────────────────────────

    method UpdateStatus(id: JobId, progress: int, reply: Reply) returns (ok: bool)
      modifies this`jobs
      ensures jobs == if reply.Refused? then old(jobs) else Progressed(old(jobs), id, progress)
      ensures ok <==> reply.Acknowledged? && id in jobs
    {
      if !reply.Refused? && id in jobs {
        jobs := jobs[id := jobs[id].(status := Processing, progress := progress)];
      }
      ok := reply.Acknowledged? && id in jobs;
    }

    method MarkDone(id: JobId, reply: Reply) returns (ok: bool)
      modifies this`jobs
      ensures jobs == if reply.Refused? then old(jobs) else Finished(old(jobs), id)
      ensures ok <==> reply.Acknowledged? && id in jobs
    {
      if !reply.Refused? && id in jobs {
        jobs := jobs[id := Job(Done, 100, None, true)];
      }
      ok := reply.Acknowledged? && id in jobs;
    }

    method MarkFailed(id: JobId, message: string, reply: Reply) returns (ok: bool)
      modifies this`jobs
      ensures jobs == if reply.Refused? then old(jobs) else Broken(old(jobs), id, message)
      ensures ok <==> reply.Acknowledged? && id in jobs
    {
      if !reply.Refused? && id in jobs {
        jobs := jobs[id := jobs[id].(status := Failed, error := Some(message))];
      }
      ok := reply.Acknowledged? && id in jobs;
    }
  }

  ghost function RowIds<D>(rows: seq<Row<D>>): (ids: seq<Uuid>)
    ensures |ids| == |rows|
  {
    seq(|rows|, i requires 0 <= i < |rows| => rows[i].id)
  }

  /** The rows of a table, each once, in id order. */
  ghost predicate LoadedFrom<D>(rows: seq<Row<D>>, t: map<Uuid, D>)
  {
    && IsListing(RowIds(rows), t.Keys)
    && forall i :: 0 <= i < |rows| ==> rows[i].id in t && rows[i].data == t[rows[i].id]
  }

  /** A load is determined by the table. */
  lemma LoadIsDetermined<D>(rows: seq<Row<D>>, more: seq<Row<D>>, t: map<Uuid, D>)
    requires LoadedFrom(rows, t) && LoadedFrom(more, t)
    ensures rows == more
  {
    ListingUnique(RowIds(rows), RowIds(more), t.Keys);
    forall i | 0 <= i < |rows| ensures rows[i] == more[i] {
      assert RowIds(rows)[i] == RowIds(more)[i];
    }
  }

  /** How many rows remain when statement `at` of a chunked insert fails: the whole chunks before it. */
  function CommittedRows(at: nat, chunk: nat): (n: nat)
    requires chunk > 0
    ensures n <= at < n + chunk
  {
    if at < chunk then 0 else chunk + CommittedRows(at - chunk, chunk)
  }

  /** A position that starts a chunk is where the rows of that chunk fall back to. */
  lemma {:induction false} WithinChunk(start: nat, at: nat, chunk: nat)
    requires chunk > 0 && CommittedRows(start, chunk) == start && start <= at < start + chunk
    ensures CommittedRows(at, chunk) == start
  {
    if start >= chunk {
      WithinChunk(start - chunk, at - chunk, chunk);
    }
  }

  lemma ChunkDone<D>(t: map<Uuid, D>, rows: seq<Row<D>>, start: nat, end: nat)
    requires start <= end <= |rows|
    ensures PutAll(t, rows[..end]) == PutAll(PutAll(t, rows[..start]), rows[start..end])
    ensures Added(t, rows[..end]) == Added(t, rows[..start]) + Added(PutAll(t, rows[..start]), rows[start..end])
  {
    assert rows[..end] == rows[..start] + rows[start..end];
    PutAllConcat(t, rows[..start], rows[start..end]);
  }

  lemma ChunkFailed<D>(t: map<Uuid, D>, rows: seq<Row<D>>, start: nat, at: nat, end: nat, chunk: nat)
    requires chunk > 0 && CommittedRows(start, chunk) == start && start <= at < end <= |rows| && end <= start + chunk
    ensures CommittedRows(at, chunk) == start
    ensures Added(t, rows[..at])
            == Added(t, rows[..start]) + Added(PutAll(t, rows[..start]), rows[start..end][..at - start])
    ensures t.Keys <= PutAll(t, rows[..start]).Keys
  {
    WithinChunk(start, at, chunk);
    ChunkDone(t, rows, start, at);
    assert rows[start..end][..at - start] == rows[start..at];
    PutAllKeys(t, rows[..start]);
  }

  /** Foreign keys stay satisfied while tables only gain ids. */
  lemma TablesGrow(before: Core, after: Core)
    requires Referential(before) && before.links == after.links
    requires before.students.Keys <= after.students.Keys && before.guardians.Keys <= after.guardians.Keys
    ensures Referential(after)
  {
  }

  /**
   The count returned beside an error is never too small, and it is the number
   of rows really stored exactly when the rolled-back part of the failing chunk
   would have added nothing.
   */
  lemma CountBesideError<D>(t: map<Uuid, D>, rows: seq<Row<D>>, at: nat, chunk: nat)
    requires chunk > 0 && at < |rows|
    ensures var n := CommittedRows(at, chunk);
            && Added(t, rows[..at]) >= Added(t, rows[..n])
            && (Added(t, rows[..at]) == Added(t, rows[..n])
                <==> Ids(rows[n..at]) <= PutAll(t, rows[..n]).Keys)
  {
    var n := CommittedRows(at, chunk);
    assert rows[..at] == rows[..n] + rows[n..at];
    PutAllConcat(t, rows[..n], rows[n..at]);
    var kept := PutAll(t, rows[..n]);
    AddedMeaning(kept, rows[n..at]);
    if Ids(rows[n..at]) <= kept.Keys {
      PutAllPresent(kept, rows[n..at]);
    } else {
      var id :| id in Ids(rows[n..at]) && id !in kept.Keys;
      assert id in Ids(rows[n..at]) - kept.Keys;
    }
  }
}
