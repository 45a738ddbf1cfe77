/** The consent register and its headline number (backend/app/services/privacy_service.py). */
module Consents {
  import opened Records
  import opened Vault
  import opened Finite

  /** A data subject: the type column together with the id. */
  type Subject = (Kind, Uuid)

  datatype Consent = Consent(subject: Subject, purpose: string, granted: bool, revoked: bool)

  datatype Kpi = Kpi(subjects: nat, consents: nat, granted: nat, revoked: nat, without: nat)

  const DEFAULT_PURPOSE := "Оказание образовательных услуг"

  // ── Who is covered ─────────────────────────────────────────────────────

  function Students(core: Core): set<Subject>
  {
    set id | id in core.students :: (Student, id)
  }

  function Guardians(core: Core): set<Subject>
  {
    set id | id in core.guardians :: (Guardian, id)
  }

  function Subjects(core: Core): set<Subject>
  {
    Students(core) + Guardians(core)
  }

  function Covered(consents: seq<Consent>): set<Subject>
  {
    set c | c in consents :: c.subject
  }

  function Uncovered(core: Core, consents: seq<Consent>): set<Subject>
  {
    Subjects(core) - Covered(consents)
  }

  /** A stored person is uncovered when no row of the register, granted or revoked, names it. */
  lemma UncoveredMeaning(core: Core, consents: seq<Consent>, s: Subject)
    ensures s in Uncovered(core, consents)
            <==>
            && (match s.0 case Student => s.1 in core.students case Guardian => s.1 in core.guardians)
            && forall i :: 0 <= i < |consents| ==> consents[i].subject != s
  {
    if s in Covered(consents) {
      var c :| c in consents && c.subject == s;
    }
    assert forall i :: 0 <= i < |consents| ==> consents[i] in consents;
  }

  /** Subjects of consents that are in neither table: no foreign key rules them out. */
  function Orphans(core: Core, consents: seq<Consent>): set<Subject>
  {
    Covered(consents) - Subjects(core)
  }

  lemma SubjectsCounted(core: Core)
    ensures |Subjects(core)| == |core.students.Keys| + |core.guardians.Keys|
  {
    SumImage(core.students.Keys, (id: Uuid) => (Student, id), _ => 0, Students(core), _ => 0);
    SumImage(core.guardians.Keys, (id: Uuid) => (Guardian, id), _ => 0, Guardians(core), _ => 0);
    assert Students(core) !! Guardians(core);
  }

  lemma Differences<T>(a: set<T>, b: set<T>)
    ensures |a| - |b| == |a - b| - |b - a|
  {
  }

  lemma SomeOrNone<T>(a: set<T>)
    ensures |a| == 0 <==> a == {}
  {
  }

  /** `max(subjects_total - subjects_with, 0)`. */
  function Shortfall(core: Core, consents: seq<Consent>): nat
  {
    var d := |core.students.Keys| + |core.guardians.Keys| - |Covered(consents)|;
    if d > 0 then d else 0
  }

  /**
   The reported number of subjects without consent never exceeds the true one,
   and it is the true one exactly when there are no orphans, or nobody is
   uncovered anyway.
   */
  lemma ShortfallMeaning(core: Core, consents: seq<Consent>)
    ensures Shortfall(core, consents) <= |Uncovered(core, consents)|
    ensures Shortfall(core, consents) == |Uncovered(core, consents)|
            <==> Orphans(core, consents) == {} || Uncovered(core, consents) == {}
  {
    SubjectsCounted(core);
    Differences(Subjects(core), Covered(consents));
    SomeOrNone(Orphans(core, consents));
    SomeOrNone(Uncovered(core, consents));
  }

  // ── The register over time ─────────────────────────────────────────────

  /** The rows grant the default purpose to exactly these subjects, once each. */
  ghost predicate Grants(rows: seq<Consent>, to: set<Subject>)
  {
    && (forall c :: c in rows ==> c == Consent(c.subject, DEFAULT_PURPOSE, true, false))
    && Covered(rows) == to
    && |rows| == |to|
  }

  lemma CoveredTogether(a: seq<Consent>, b: seq<Consent>)
    ensures Covered(a + b) == Covered(a) + Covered(b)
  {
  }

  lemma GrantOneMore(rows: seq<Consent>, to: set<Subject>, s: Subject)
    requires Grants(rows, to) && s !in to
    ensures Grants(rows + [Consent(s, DEFAULT_PURPOSE, true, false)], to + {s})
  {
  }

  lemma {:induction false} CoveredAtMost(rows: seq<Consent>)
    ensures |Covered(rows)| <= |rows|
  {
    if rows == [] {
      assert Covered(rows) == {};
    } else {
      var n := |rows| - 1;
      CoveredAtMost(rows[..n]);
      assert rows == rows[..n] + [rows[n]];
      CoveredTogether(rows[..n], [rows[n]]);
      assert Covered([rows[n]]) == {rows[n].subject};
      assert |Covered(rows[..n]) + {rows[n].subject}| <= |Covered(rows[..n])| + 1;
    }
  }

  lemma CoveredWithout(rows: seq<Consent>, j: nat)
    requires j < |rows|
    ensures Covered(rows) == Covered(rows[..j] + rows[j + 1..]) + {rows[j].subject}
  {
  }

  /** No subject is granted twice: as many rows as subjects means that the subjects of the rows differ. */
  lemma GrantsOnceEach(rows: seq<Consent>, to: set<Subject>, i: nat, j: nat)
    requires Grants(rows, to) && i < j < |rows|
    ensures rows[i].subject != rows[j].subject
  {
    var rest := rows[..j] + rows[j + 1..];
    CoveredWithout(rows, j);
    CoveredAtMost(rest);
    assert rest[i] == rows[i] && rest[i] in rest;
    assert rows[i].subject in Covered(rest);
    assert rows[i].subject == rows[j].subject ==> Covered(rest) == to;
  }

  /** Exactly one granted consent was appended for every uncovered subject. */
  ghost predicate Synced(core: Core, before: seq<Consent>, after: seq<Consent>)
  {
    before <= after && Grants(after[|before|..], Uncovered(core, before))
  }

  /** A sync creates as many rows as there were uncovered subjects, and leaves none; orphans are not affected. */
  lemma SyncCovers(core: Core, before: seq<Consent>, after: seq<Consent>)
    requires Synced(core, before, after)
    ensures |after| - |before| == |Uncovered(core, before)|
    ensures Uncovered(core, after) == {} && Shortfall(core, after) == 0
    ensures Orphans(core, after) == Orphans(core, before)
  {
    assert after == before + after[|before|..];
    CoveredTogether(before, after[|before|..]);
    Filling(Subjects(core), Covered(before), Covered(after));
    ShortfallMeaning(core, after);
  }

  /** After a sync every stored person has a row, and nobody who had one, of whatever kind, got another. */
  lemma SyncReachesEveryone(core: Core, before: seq<Consent>, after: seq<Consent>)
    requires Synced(core, before, after)
    ensures forall id :: id in core.students ==> exists i :: 0 <= i < |after| && after[i].subject == (Student, id)
    ensures forall id :: id in core.guardians ==> exists i :: 0 <= i < |after| && after[i].subject == (Guardian, id)
    ensures forall i, j :: 0 <= i < |before| <= j < |after| ==> after[j].subject != before[i].subject
  {
    SyncCovers(core, before, after);
    forall id | id in core.students ensures exists i :: 0 <= i < |after| && after[i].subject == (Student, id) {
      UncoveredMeaning(core, after, (Student, id));
    }
    forall id | id in core.guardians ensures exists i :: 0 <= i < |after| && after[i].subject == (Guardian, id) {
      UncoveredMeaning(core, after, (Guardian, id));
    }
    forall i, j | 0 <= i < |before| <= j < |after| ensures after[j].subject != before[i].subject {
      var rows := after[|before|..];
      assert rows[j - |before|] == after[j] && after[j] in rows;
      UncoveredMeaning(core, before, after[j].subject);
    }
  }

  lemma Filling<T>(all: set<T>, some: set<T>, more: set<T>)
    requires more == some + (all - some)
    ensures all - more == {} && more - all == some - all
  {
  }

  lemma AppendingSyncs(core: Core, before: seq<Consent>, rows: seq<Consent>)
    requires Grants(rows, Uncovered(core, before))
    ensures Synced(core, before, before + rows)
  {
  }

  /** A second sync right away creates nothing. */
  lemma SecondSyncCreatesNone(core: Core, before: seq<Consent>, after: seq<Consent>, again: seq<Consent>)
    requires Synced(core, before, after) && Synced(core, after, again)
    ensures again == after
  {
    SyncCovers(core, before, after);
    SyncCovers(core, after, again);
  }

  datatype Moment = Moment(core: Core, consents: seq<Consent>)

  /** What may happen between two moments: the tables gain subjects, in whatever portions, or the register is synced. */
  ghost predicate Follows(a: Moment, b: Moment)
  {
    || (b.consents == a.consents && Subjects(a.core) <= Subjects(b.core))
    || (b.core == a.core && Synced(a.core, a.consents, b.consents))
  }

  /** Imports are such a step. */
  lemma ImportsFollow(core: Core, ds: Dataset, consents: seq<Consent>)
    ensures Follows(Moment(core, consents), Moment(Import(core, ds), consents))
  {
    ImportKeepsRows(core, ds);
  }

  lemma NoOrphansKept(a: Moment, b: Moment)
    requires Follows(a, b) && Orphans(a.core, a.consents) == {}
    ensures Orphans(b.core, b.consents) == {}
  {
    if b.core == a.core && Synced(a.core, a.consents, b.consents) {
      SyncCovers(a.core, a.consents, b.consents);
    } else {
      assert forall s :: s in Covered(b.consents) ==> s in Subjects(a.core) by {
        forall s | s in Covered(a.consents) ensures s in Subjects(a.core) {
          assert s !in Orphans(a.core, a.consents);
        }
      }
    }
  }

  /**
   Starting from an empty register, after any succession of imports and syncs the
   reported number is the true number of uncovered subjects, which is the number
   of rows the next sync would create.
   */
  lemma {:induction false} ReportIsExact(history: seq<Moment>, i: nat, next: seq<Consent>)
    requires i < |history| && history[0].consents == []
    requires forall k :: 0 <= k < |history| - 1 ==> Follows(history[k], history[k + 1])
    ensures Shortfall(history[i].core, history[i].consents) == |Uncovered(history[i].core, history[i].consents)|
    ensures Synced(history[i].core, history[i].consents, next) ==>
              |next| - |history[i].consents| == Shortfall(history[i].core, history[i].consents)
  {
    NeverAnyOrphans(history, i);
    ShortfallMeaning(history[i].core, history[i].consents);
    if Synced(history[i].core, history[i].consents, next) {
      SyncCovers(history[i].core, history[i].consents, next);
    }
  }

  lemma {:induction false} NeverAnyOrphans(history: seq<Moment>, i: nat)
    requires i < |history| && history[0].consents == []
    requires forall k :: 0 <= k < |history| - 1 ==> Follows(history[k], history[k + 1])
    ensures Orphans(history[i].core, history[i].consents) == {}
  {
    if i == 0 {
      assert Covered([]) == {};
    } else {
      NeverAnyOrphans(history, i - 1);
      assert Follows(history[i - 1], history[i - 1 + 1]);
      NoOrphansKept(history[i - 1], history[i]);
    }
  }

  /** Without that history the report can be short: one orphan hides one uncovered subject. */
  lemma OrphansHideSubjects(core: Core, consents: seq<Consent>)
    requires Orphans(core, consents) != {} && Uncovered(core, consents) != {}
    ensures Shortfall(core, consents) < |Uncovered(core, consents)|
  {
    ShortfallMeaning(core, consents);
  }

  // ── The service ────────────────────────────────────────────────────────

  class Register {
    var core: Core
    var consents: seq<Consent>

    constructor (core: Core)
      ensures this.core == core && consents == []
    {
      this.core, consents := core, [];
    }

    /** `sync_consents`: one INSERT … SELECT; its rows come in any order. */
    method SyncConsents() returns (created: nat)
      modifies this`consents
      ensures Synced(core, old(consents), consents)
      ensures created == |Uncovered(core, old(consents))| == |consents| - |old(consents)|
    {
      var rows := ConsentsFor(Uncovered(core, consents));
      AppendingSyncs(core, consents, rows);
      created := |rows|;
      consents := consents + rows;
    }

    /** The selected rows, in any order. */
    static method ConsentsFor(to: set<Subject>) returns (rows: seq<Consent>)
      ensures Grants(rows, to)
    {
      var todo := to;
      rows := [];
      assert Covered([]) == {};
      while todo != {}
        invariant todo <= to && Grants(rows, to - todo)
        decreases todo
      {
        var s :| s in todo;
        GrantOneMore(rows, to - todo, s);
        assert to - todo + {s} == to - (todo - {s});
        rows, todo := rows + [Consent(s, DEFAULT_PURPOSE, true, false)], todo - {s};
      }
      assert to - todo == to;
    }

    /** `consent_kpi`. */
    method ConsentKpi() returns (kpi: Kpi)
      ensures kpi.subjects == |Subjects(core)| && kpi.consents == |consents|
      ensures kpi.granted == |set i: nat | i < |consents| && consents[i].granted|
      ensures kpi.revoked == |set i: nat | i < |consents| && consents[i].revoked|
      ensures kpi.without <= |Uncovered(core, consents)|
      ensures kpi.without == |Uncovered(core, consents)|
              <==> Orphans(core, consents) == {} || Uncovered(core, consents) == {}
    {
      SubjectsCounted(core);
      ShortfallMeaning(core, consents);
      var granted := set i: nat | i < |consents| && consents[i].granted;
      var revoked := set i: nat | i < |consents| && consents[i].revoked;
      kpi := Kpi(|core.students.Keys| + |core.guardians.Keys|, |consents|, |granted|, |revoked|,
                 Shortfall(core, consents));
    }
  }
}
