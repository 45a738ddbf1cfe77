/** Group transfer and enrollment (backend/app/services/learning_service.py). */
module Learning {
  import opened Text

  type StudentId = nat
  type GroupId = nat
  type CourseId = nat
  type EnrollmentId = nat

  datatype Enrollment = Enrollment(student: StudentId, group: GroupId, status: string, progress: int)

  type Table = map<EnrollmentId, Enrollment>

  /** `by_student`: for a student, one enrollment in the course and the group it is in. */
  type Index = map<StudentId, (EnrollmentId, GroupId)>

  predicate HasRow(t: Table, e: EnrollmentId, s: StudentId, g: GroupId)
  {
    e in t && t[e].student == s && t[e].group == g
  }

  ghost predicate In(t: Table, s: StudentId, g: GroupId)
  {
    exists e :: HasRow(t, e, s, g)
  }

  /** The constraints of `core.enrollments`: two foreign keys, and one row per student and group. */
  ghost predicate Constraints(students: set<StudentId>, groups: map<GroupId, CourseId>, t: Table)
  {
    && (forall e :: e in t ==> t[e].student in students && t[e].group in groups)
    && forall d, e, s, g :: HasRow(t, d, s, g) && HasRow(t, e, s, g) ==> d == e
  }

  ghost predicate InCourse(groups: map<GroupId, CourseId>, course: CourseId, t: Table, e: EnrollmentId)
  {
    e in t && t[e].group in groups && groups[t[e].group] == course
  }

  // ── The statements of a transfer ───────────────────────────────────────

  ghost predicate IndexSound(t: Table, groups: map<GroupId, CourseId>, course: CourseId, index: Index)
  {
    forall s :: s in index ==> InCourse(groups, course, t, index[s].0) && HasRow(t, index[s].0, s, index[s].1)
  }

  ghost predicate IndexFull(t: Table, groups: map<GroupId, CourseId>, course: CourseId, index: Index,
                            listed: seq<StudentId>)
  {
    forall e :: InCourse(groups, course, t, e) && t[e].student in listed ==> t[e].student in index
  }

  /** One iteration of the loop; None is an integrity error. */
  ghost function TransferOne(t: Table, students: set<StudentId>, index: Index, g: GroupId, s: StudentId,
                             id: EnrollmentId): Option<Table>
  {
    if s !in index then
      if s !in students || In(t, s, g) then None else Some(t[id := Enrollment(s, g, "active", 0)])
    else if index[s].1 == g || index[s].0 !in t then Some(t)
    else if exists e :: e != index[s].0 && HasRow(t, e, s, g) then None
    else Some(t[index[s].0 := t[index[s].0].(group := g)])
  }

  ghost function TransferAll(t: Table, students: set<StudentId>, index: Index, g: GroupId,
                             listed: seq<StudentId>, ids: seq<EnrollmentId>): Option<Table>
    requires |listed| <= |ids|
  {
    if listed == [] then Some(t)
    else
      var n := |listed| - 1;
      match TransferAll(t, students, index, g, listed[..n], ids)
      case None => None
      case Some(u) => TransferOne(u, students, index, g, listed[n], ids[n])
  }

  // ── What a transfer comes to ───────────────────────────────────────────

  /**
   The list position can be served: a student without an enrollment in the
   course exists and was not listed before; one whose indexed enrollment is
   elsewhere has no other one in the target group.
   */
  ghost predicate Servable(t: Table, students: set<StudentId>, index: Index, g: GroupId, listed: seq<StudentId>, i: nat)
    requires i < |listed|
  {
    var s := listed[i];
    if s !in index then s in students && forall j :: 0 <= j < i ==> listed[j] != s
    else index[s].1 == g || !In(t, s, g)
  }

  ghost predicate Committable(t: Table, students: set<StudentId>, index: Index, g: GroupId, listed: seq<StudentId>)
  {
    forall i :: 0 <= i < |listed| ==> Servable(t, students, index, g, listed, i)
  }

  ghost predicate Picked(t: Table, index: Index, listed: seq<StudentId>, e: EnrollmentId)
  {
    e in t && t[e].student in listed && t[e].student in index && index[t[e].student].0 == e
  }

  /** Position `i` names a student who is enrolled anew, with the id drawn for it. */
  ghost predicate Anew(index: Index, listed: seq<StudentId>, i: int)
  {
    0 <= i < |listed| && listed[i] !in index
  }

  /**
   The table after a committed transfer: indexed enrollments are reassigned,
   missing ones added, all else is as it was.
   */
  ghost predicate Transferred(t: Table, index: Index, g: GroupId, listed: seq<StudentId>, ids: seq<EnrollmentId>,
                              u: Table)
    requires |listed| <= |ids|
  {
    && (forall e :: e in t ==> e in u && u[e] == if Picked(t, index, listed, e) then t[e].(group := g) else t[e])
    && (forall i :: Anew(index, listed, i) ==> ids[i] in u && u[ids[i]] == Enrollment(listed[i], g, "active", 0))
    && (forall e :: e in u ==> e in t || exists i :: Anew(index, listed, i) && ids[i] == e)
  }

  ghost predicate FreshIds(t: Table, ids: seq<EnrollmentId>)
  {
    && (forall i :: 0 <= i < |ids| ==> ids[i] !in t)
    && forall i, j :: 0 <= i < j < |ids| ==> ids[i] != ids[j]
  }

  /** Who is in the target group halfway through: those who were, those moved there, those enrolled anew. */
  lemma InAfterPrefix(t: Table, index: Index, g: GroupId, listed: seq<StudentId>, ids: seq<EnrollmentId>, u: Table,
                      e: EnrollmentId, s: StudentId)
    requires |listed| <= |ids| && FreshIds(t, ids) && Transferred(t, index, g, listed, ids, u)
    ensures HasRow(u, e, s, g) <==>
              || HasRow(t, e, s, g)
              || (Picked(t, index, listed, e) && t[e].student == s)
              || exists i :: Anew(index, listed, i) && ids[i] == e && listed[i] == s
  {
  }

  /** One more iteration succeeds exactly when the position can be served, and does what it should. */
  lemma TransferStep(t: Table, students: set<StudentId>, groups: map<GroupId, CourseId>, index: Index, g: GroupId,
                     listed: seq<StudentId>, ids: seq<EnrollmentId>, n: nat, u: Table)
    requires n < |listed| <= |ids| && FreshIds(t, ids) && g in groups
    requires IndexSound(t, groups, groups[g], index) && IndexFull(t, groups, groups[g], index, listed)
    requires Transferred(t, index, g, listed[..n], ids, u)
    ensures var r := TransferOne(u, students, index, g, listed[n], ids[n]);
            && (r.Some? <==> Servable(t, students, index, g, listed, n))
            && (r.Some? ==> Transferred(t, index, g, listed[..n + 1], ids, r.value))
  {
    var s, done, more := listed[n], listed[..n], listed[..n + 1];
    assert more == done + [s] && s in listed;
    forall e ensures Picked(t, index, more, e) <==> Picked(t, index, done, e) || (s in index && index[s].0 == e) {
    }
    if s !in index {
      StepAnew(t, students, groups, index, g, listed, ids, n, u);
    } else {
      StepMoved(t, students, groups, index, g, listed, ids, n, u);
    }
  }

  /** A student without an enrollment in the course is in the target group halfway through only if listed before. */
  lemma AnewInGroup(t: Table, groups: map<GroupId, CourseId>, index: Index, g: GroupId,
                    listed: seq<StudentId>, ids: seq<EnrollmentId>, n: nat, u: Table)
    requires n < |listed| <= |ids| && FreshIds(t, ids) && g in groups && listed[n] !in index
    requires IndexFull(t, groups, groups[g], index, listed)
    requires Transferred(t, index, g, listed[..n], ids, u)
    ensures In(u, listed[n], g) <==> exists j :: 0 <= j < n && listed[j] == listed[n]
  {
    var s, done := listed[n], listed[..n];
    assert s in listed;
    assert forall e :: !HasRow(t, e, s, g) by {
      assert forall e :: HasRow(t, e, s, g) ==> InCourse(groups, groups[g], t, e);
    }
    if In(u, s, g) {
      var e :| HasRow(u, e, s, g);
      InAfterPrefix(t, index, g, done, ids, u, e, s);
    }
    forall j | 0 <= j < n && listed[j] == s ensures In(u, s, g) {
      assert Anew(index, done, j);
      assert HasRow(u, ids[j], s, g);
    }
  }

  lemma StepAnew(t: Table, students: set<StudentId>, groups: map<GroupId, CourseId>, index: Index, g: GroupId,
                 listed: seq<StudentId>, ids: seq<EnrollmentId>, n: nat, u: Table)
    requires n < |listed| <= |ids| && FreshIds(t, ids) && g in groups && listed[n] !in index
    requires IndexFull(t, groups, groups[g], index, listed)
    requires Transferred(t, index, g, listed[..n], ids, u)
    ensures var r := TransferOne(u, students, index, g, listed[n], ids[n]);
            && (r.Some? <==> Servable(t, students, index, g, listed, n))
            && (r.Some? ==> Transferred(t, index, g, listed[..n + 1], ids, r.value))
  {
    AnewInGroup(t, groups, index, g, listed, ids, n, u);
    AnewAdds(t, index, g, listed, ids, n, u);
  }

  lemma AnewAdds(t: Table, index: Index, g: GroupId, listed: seq<StudentId>, ids: seq<EnrollmentId>, n: nat, u: Table)
    requires n < |listed| <= |ids| && FreshIds(t, ids) && listed[n] !in index
    requires Transferred(t, index, g, listed[..n], ids, u)
    ensures Transferred(t, index, g, listed[..n + 1], ids, u[ids[n] := Enrollment(listed[n], g, "active", 0)])
  {
  }

  lemma StepMoved(t: Table, students: set<StudentId>, groups: map<GroupId, CourseId>, index: Index, g: GroupId,
                  listed: seq<StudentId>, ids: seq<EnrollmentId>, n: nat, u: Table)
    requires n < |listed| <= |ids| && FreshIds(t, ids) && g in groups && listed[n] in index
    requires IndexSound(t, groups, groups[g], index)
    requires Transferred(t, index, g, listed[..n], ids, u)
    ensures var r := TransferOne(u, students, index, g, listed[n], ids[n]);
            && (r.Some? <==> Servable(t, students, index, g, listed, n))
            && (r.Some? ==> Transferred(t, index, g, listed[..n + 1], ids, r.value))
  {
    var s, done, more := listed[n], listed[..n], listed[..n + 1];
    var id := index[s].0;
    assert HasRow(t, id, s, index[s].1) && s in more;
    assert forall i :: Anew(index, more, i) <==> Anew(index, done, i);
    assert forall e :: Picked(t, index, more, e) <==> Picked(t, index, done, e) || e == id;
    if index[s].1 != g {
      forall e | e != id ensures HasRow(u, e, s, g) <==> HasRow(t, e, s, g) {
        InAfterPrefix(t, index, g, done, ids, u, e, s);
      }
      if In(t, s, g) {
        var e :| HasRow(t, e, s, g);
        assert e != id && HasRow(u, e, s, g);
      }
    }
  }

  ghost predicate ServableUpTo(t: Table, students: set<StudentId>, index: Index, g: GroupId, listed: seq<StudentId>,
                               n: nat)
    requires n <= |listed|
  {
    forall i :: 0 <= i < n ==> Servable(t, students, index, g, listed, i)
  }

  lemma TransferUnfolds(t: Table, students: set<StudentId>, index: Index, g: GroupId,
                        listed: seq<StudentId>, ids: seq<EnrollmentId>, n: nat)
    requires n < |listed| <= |ids|
    ensures var before := TransferAll(t, students, index, g, listed[..n], ids);
            TransferAll(t, students, index, g, listed[..n + 1], ids)
            == match before case None => None case Some(u) => TransferOne(u, students, index, g, listed[n], ids[n])
  {
    assert listed[..n + 1][..n] == listed[..n];
  }

  /** The first `n` iterations succeed exactly when they can, and do what they should. */
  ghost predicate Explained(t: Table, students: set<StudentId>, index: Index, g: GroupId,
                            listed: seq<StudentId>, ids: seq<EnrollmentId>, n: nat)
    requires n <= |listed| <= |ids|
  {
    var r := TransferAll(t, students, index, g, listed[..n], ids);
    && (r.Some? <==> ServableUpTo(t, students, index, g, listed, n))
    && (r.Some? ==> Transferred(t, index, g, listed[..n], ids, r.value))
  }

  lemma ExplainedStep(t: Table, students: set<StudentId>, groups: map<GroupId, CourseId>, index: Index, g: GroupId,
                      listed: seq<StudentId>, ids: seq<EnrollmentId>, n: nat)
    requires n < |listed| <= |ids| && FreshIds(t, ids) && g in groups
    requires IndexSound(t, groups, groups[g], index) && IndexFull(t, groups, groups[g], index, listed)
    requires Explained(t, students, index, g, listed, ids, n)
    ensures Explained(t, students, index, g, listed, ids, n + 1)
  {
    TransferUnfolds(t, students, index, g, listed, ids, n);
    var r := TransferAll(t, students, index, g, listed[..n], ids);
    if r.Some? {
      TransferStep(t, students, groups, index, g, listed, ids, n, r.value);
    }
  }

  lemma {:induction false} TransferPrefix(t: Table, students: set<StudentId>, groups: map<GroupId, CourseId>,
                                          index: Index,
                                          g: GroupId, listed: seq<StudentId>, ids: seq<EnrollmentId>, n: nat)
    requires n <= |listed| <= |ids| && FreshIds(t, ids) && g in groups
    requires IndexSound(t, groups, groups[g], index) && IndexFull(t, groups, groups[g], index, listed)
    ensures Explained(t, students, index, g, listed, ids, n)
  {
    if n > 0 {
      TransferPrefix(t, students, groups, index, g, listed, ids, n - 1);
      ExplainedStep(t, students, groups, index, g, listed, ids, n - 1);
    }
  }

  /**
   A transfer goes through exactly when every position of the list can be
   served, and then the table is the one described by `Transferred`.
   */
  lemma TransferMeaning(t: Table, students: set<StudentId>, groups: map<GroupId, CourseId>, index: Index,
                        g: GroupId, listed: seq<StudentId>, ids: seq<EnrollmentId>)
    requires |listed| <= |ids| && FreshIds(t, ids) && g in groups
    requires IndexSound(t, groups, groups[g], index) && IndexFull(t, groups, groups[g], index, listed)
    ensures var r := TransferAll(t, students, index, g, listed, ids);
            && (r.Some? <==> Committable(t, students, index, g, listed))
            && (r.Some? ==> Transferred(t, index, g, listed, ids, r.value))
  {
    TransferPrefix(t, students, groups, index, g, listed, ids, |listed|);
    assert listed[..|listed|] == listed;
  }

  // ── What the transfer promises ─────────────────────────────────────────

  /** Every listed student is in the group, and exactly one enrollment is new for each who had none in the course. */
  lemma EveryoneListedIsIn(t: Table, groups: map<GroupId, CourseId>, index: Index, g: GroupId,
                           listed: seq<StudentId>, ids: seq<EnrollmentId>, u: Table)
    requires |listed| <= |ids| && FreshIds(t, ids) && g in groups
    requires IndexSound(t, groups, groups[g], index) && Transferred(t, index, g, listed, ids, u)
    ensures forall s :: s in listed ==> In(u, s, g)
    ensures forall s :: s in listed && s !in index ==> exists e :: e !in t && HasRow(u, e, s, g)
  {
    forall s | s in listed
      ensures In(u, s, g) && (s !in index ==> exists e :: e !in t && HasRow(u, e, s, g))
    {
      if s in index {
        assert Picked(t, index, listed, index[s].0);
        assert HasRow(u, index[s].0, s, g);
      } else {
        var i :| 0 <= i < |listed| && listed[i] == s;
        assert Anew(index, listed, i);
        assert HasRow(u, ids[i], s, g);
      }
    }
  }

  /** Existing enrollments keep their id, student, status and progress, and change groups within the course only. */
  lemma EnrollmentsAreKept(t: Table, groups: map<GroupId, CourseId>, index: Index, g: GroupId,
                           listed: seq<StudentId>, ids: seq<EnrollmentId>, u: Table)
    requires |listed| <= |ids| && g in groups
    requires IndexSound(t, groups, groups[g], index) && Transferred(t, index, g, listed, ids, u)
    ensures forall e :: e in t ==>
              && e in u && u[e] == t[e].(group := u[e].group)
              && (u[e].group != t[e].group ==>
                    u[e].group == g && t[e].student in listed && InCourse(groups, groups[g], t, e))
  {
  }

  /** New enrollments are fresh ones of listed students without any in the course, one each. */
  lemma NewcomersEnrollOnce(t: Table, students: set<StudentId>, groups: map<GroupId, CourseId>, index: Index,
                            g: GroupId, listed: seq<StudentId>, ids: seq<EnrollmentId>, u: Table)
    requires |listed| <= |ids| && FreshIds(t, ids) && g in groups
    requires Committable(t, students, index, g, listed) && Transferred(t, index, g, listed, ids, u)
    ensures forall e :: e in u && e !in t ==>
              && u[e].student in listed && u[e].student !in index && u[e].student in students
              && u[e] == Enrollment(u[e].student, g, "active", 0)
    ensures forall d, e :: d in u && e in u && d !in t && e !in t && u[d].student == u[e].student ==> d == e
  {
    forall e | e in u && e !in t
      ensures exists i :: Anew(index, listed, i) && ids[i] == e && u[e] == Enrollment(listed[i], g, "active", 0)
    {
    }
    forall i | Anew(index, listed, i) ensures listed[i] in students {
      assert Servable(t, students, index, g, listed, i);
    }
    forall d, e | d in u && e in u && d !in t && e !in t && u[d].student == u[e].student ensures d == e {
      var i :| Anew(index, listed, i) && ids[i] == d;
      var j :| Anew(index, listed, j) && ids[j] == e;
      assert Servable(t, students, index, g, listed, i) && Servable(t, students, index, g, listed, j);
      assert listed[i] == listed[j];
    }
  }

  /** A row that reaches the target group was there, was picked, or is new. */
  lemma RowOrigin(t: Table, index: Index, g: GroupId, listed: seq<StudentId>, ids: seq<EnrollmentId>, u: Table,
                  e: EnrollmentId, s: StudentId, h: GroupId)
    requires |listed| <= |ids| && Transferred(t, index, g, listed, ids, u) && HasRow(u, e, s, h)
    ensures e in t && !Picked(t, index, listed, e) ==> HasRow(t, e, s, h)
    ensures e in t && Picked(t, index, listed, e) ==> h == g && s in index && s in listed && index[s].0 == e
    ensures e !in t ==> h == g && s in listed && s !in index
  {
  }

  lemma TransferKeepsUnique(t: Table, students: set<StudentId>, groups: map<GroupId, CourseId>, index: Index,
                            g: GroupId, listed: seq<StudentId>, ids: seq<EnrollmentId>, u: Table, d: EnrollmentId,
                            e: EnrollmentId, s: StudentId, h: GroupId)
    requires |listed| <= |ids| && FreshIds(t, ids) && g in groups && Constraints(students, groups, t)
    requires IndexSound(t, groups, groups[g], index) && IndexFull(t, groups, groups[g], index, listed)
    requires Committable(t, students, index, g, listed) && Transferred(t, index, g, listed, ids, u)
    requires HasRow(u, d, s, h) && HasRow(u, e, s, h)
    ensures d == e
  {
    RowOrigin(t, index, g, listed, ids, u, d, s, h);
    RowOrigin(t, index, g, listed, ids, u, e, s, h);
    NewcomersEnrollOnce(t, students, groups, index, g, listed, ids, u);
    if s in listed && h == g {
      var i :| 0 <= i < |listed| && listed[i] == s;
      assert Servable(t, students, index, g, listed, i);
      assert forall x :: HasRow(t, x, s, g) ==> InCourse(groups, groups[g], t, x);
    }
  }

  lemma TransferKeepsConstraints(t: Table, students: set<StudentId>, groups: map<GroupId, CourseId>, index: Index,
                                 g: GroupId, listed: seq<StudentId>, ids: seq<EnrollmentId>, u: Table)
    requires |listed| <= |ids| && FreshIds(t, ids) && g in groups && Constraints(students, groups, t)
    requires IndexSound(t, groups, groups[g], index) && IndexFull(t, groups, groups[g], index, listed)
    requires Committable(t, students, index, g, listed) && Transferred(t, index, g, listed, ids, u)
    ensures Constraints(students, groups, u)
  {
    NewcomersEnrollOnce(t, students, groups, index, g, listed, ids, u);
    forall d, e, s, h | HasRow(u, d, s, h) && HasRow(u, e, s, h) ensures d == e {
      TransferKeepsUnique(t, students, groups, index, g, listed, ids, u, d, e, s, h);
    }
  }

  // ── When it goes through ───────────────────────────────────────────────

  ghost predicate OnceEach(listed: seq<StudentId>)
  {
    forall i, j :: 0 <= i < j < |listed| ==> listed[i] != listed[j]
  }

  /** Distinct existing students with at most one enrollment each in the course can always be transferred. */
  lemma SimpleListsCommit(t: Table, students: set<StudentId>, groups: map<GroupId, CourseId>, index: Index, g: GroupId,
                          listed: seq<StudentId>)
    requires g in groups && IndexSound(t, groups, groups[g], index)
    requires OnceEach(listed) && forall s :: s in listed ==> s in students
    requires forall d, e ::
               InCourse(groups, groups[g], t, d) && InCourse(groups, groups[g], t, e)
               && t[d].student == t[e].student && t[d].student in listed
               ==> d == e
    ensures Committable(t, students, index, g, listed)
  {
  }

  /** A student who is not in the course yet must not be listed twice: the second insert is refused. */
  lemma ListedTwiceFails(t: Table, students: set<StudentId>, index: Index, g: GroupId, listed: seq<StudentId>, i: nat,
                         j: nat)
    requires i < j < |listed| && listed[i] == listed[j] && listed[i] !in index
    ensures !Committable(t, students, index, g, listed)
  {
    assert !Servable(t, students, index, g, listed, j);
  }

  /** After a committed call, a repetition indexes every listed student, and can serve those it finds in the group. */
  lemma RepeatServes(t: Table, students: set<StudentId>, groups: map<GroupId, CourseId>, index: Index, g: GroupId,
                     listed: seq<StudentId>, ids: seq<EnrollmentId>, u: Table, again: Index, i: nat)
    requires i < |listed| <= |ids| && FreshIds(t, ids) && g in groups
    requires IndexSound(t, groups, groups[g], index) && Transferred(t, index, g, listed, ids, u)
    requires IndexFull(u, groups, groups[g], again, listed)
    ensures listed[i] in again
    ensures Servable(u, students, again, g, listed, i) <==> again[listed[i]].1 == g
  {
    EveryoneListedIsIn(t, groups, index, g, listed, ids, u);
    assert listed[i] in listed;
    var e :| HasRow(u, e, listed[i], g);
    assert InCourse(groups, groups[g], u, e);
  }

  lemma AllInPlace(u: Table, groups: map<GroupId, CourseId>, again: Index, g: GroupId,
                   listed: seq<StudentId>, more: seq<EnrollmentId>, v: Table)
    requires |listed| <= |more| && g in groups && IndexSound(u, groups, groups[g], again)
    requires forall i :: 0 <= i < |listed| ==> listed[i] in again && again[listed[i]].1 == g
    requires Transferred(u, again, g, listed, more, v)
    ensures v == u
  {
  }

  /**
   Repeating a committed call never changes the table, whichever enrollments the
   second call happens to index; it goes through exactly when it indexes for
   every listed student the enrollment in the target group.
   */
  lemma RepeatChangesNothing(t: Table, students: set<StudentId>, groups: map<GroupId, CourseId>, index: Index,
                             g: GroupId, listed: seq<StudentId>, ids: seq<EnrollmentId>, u: Table, again: Index,
                             more: seq<EnrollmentId>, v: Table)
    requires |listed| <= |ids| && FreshIds(t, ids) && g in groups && |listed| <= |more|
    requires IndexSound(t, groups, groups[g], index) && Transferred(t, index, g, listed, ids, u)
    requires IndexSound(u, groups, groups[g], again) && IndexFull(u, groups, groups[g], again, listed)
    ensures Committable(u, students, again, g, listed)
            <==> forall i :: 0 <= i < |listed| ==> listed[i] in again && again[listed[i]].1 == g
    ensures Committable(u, students, again, g, listed) && Transferred(u, again, g, listed, more, v) ==> v == u
  {
    forall i | 0 <= i < |listed|
      ensures listed[i] in again
      ensures Servable(u, students, again, g, listed, i) <==> again[listed[i]].1 == g
    {
      RepeatServes(t, students, groups, index, g, listed, ids, u, again, i);
    }
    if Committable(u, students, again, g, listed) && Transferred(u, again, g, listed, more, v) {
      AllInPlace(u, groups, again, g, listed, more, v);
    }
  }

  // ── Whatever the order of the query's rows ─────────────────────────────

  ghost predicate Enrolled(t: Table, groups: map<GroupId, CourseId>, course: CourseId, s: StudentId)
  {
    exists e :: InCourse(groups, course, t, e) && t[e].student == s
  }

  /** The student has an enrollment in the course outside the group. */
  ghost predicate Elsewhere(t: Table, groups: map<GroupId, CourseId>, g: GroupId, s: StudentId)
    requires g in groups
  {
    exists e :: InCourse(groups, groups[g], t, e) && t[e].student == s && t[e].group != g
  }

  /** An existing student, not listed before. */
  ghost predicate NewOnce(students: set<StudentId>, listed: seq<StudentId>, i: nat)
    requires i < |listed|
  {
    listed[i] in students && forall j :: 0 <= j < i ==> listed[j] != listed[i]
  }

  /**
   Every listed student is new to the course, exists and is listed once, or is
   not in the group yet, or has no enrollment of the course outside the group.
   */
  ghost predicate SurelyServed(t: Table, students: set<StudentId>, groups: map<GroupId, CourseId>, g: GroupId,
                               listed: seq<StudentId>)
    requires g in groups
  {
    forall i :: 0 <= i < |listed| ==>
      if Enrolled(t, groups, groups[g], listed[i])
      then !In(t, listed[i], g) || !Elsewhere(t, groups, g, listed[i])
      else NewOnce(students, listed, i)
  }

  /** Every listed student who is new to the course exists and is listed once. */
  ghost predicate PossiblyServed(t: Table, students: set<StudentId>, groups: map<GroupId, CourseId>, g: GroupId,
                                 listed: seq<StudentId>)
    requires g in groups
  {
    forall i :: 0 <= i < |listed| && !Enrolled(t, groups, groups[g], listed[i]) ==> NewOnce(students, listed, i)
  }

  /** One of the student's enrollments in the course, if possible one of the favoured. */
  ghost function Pick(t: Table, groups: map<GroupId, CourseId>, course: CourseId, s: StudentId,
                      favoured: set<EnrollmentId>): (e: EnrollmentId)
    requires Enrolled(t, groups, course, s)
    ensures InCourse(groups, course, t, e) && t[e].student == s
    ensures (exists f :: f in favoured && InCourse(groups, course, t, f) && t[f].student == s) ==> e in favoured
  {
    if exists f :: f in favoured && InCourse(groups, course, t, f) && t[f].student == s then
      var f: EnrollmentId :| f in favoured && InCourse(groups, course, t, f) && t[f].student == s; f
    else
      var f: EnrollmentId :| InCourse(groups, course, t, f) && t[f].student == s; f
  }

  /** The index that some order of the query's rows leads to. */
  ghost function IndexFor(t: Table, groups: map<GroupId, CourseId>, course: CourseId, listed: seq<StudentId>,
                          favoured: set<EnrollmentId>): (index: Index)
    ensures IndexSound(t, groups, course, index) && IndexFull(t, groups, course, index, listed)
    ensures forall s :: s in index <==> s in listed && Enrolled(t, groups, course, s)
    ensures forall s :: s in index ==> index[s].0 == Pick(t, groups, course, s, favoured)
  {
    map s: StudentId | s in listed && Enrolled(t, groups, course, s) ::
      var e := Pick(t, groups, course, s, favoured); (e, t[e].group)
  }

  /** Some order of the rows makes the call fail. */
  ghost predicate MayBeRefused(t: Table, students: set<StudentId>, groups: map<GroupId, CourseId>, g: GroupId,
                               listed: seq<StudentId>)
    requires g in groups
  {
    exists index :: IndexSound(t, groups, groups[g], index) && IndexFull(t, groups, groups[g], index, listed)
                    && !Committable(t, students, index, g, listed)
  }

  /** Some order of the rows lets the call commit. */
  ghost predicate MayCommit(t: Table, students: set<StudentId>, groups: map<GroupId, CourseId>, g: GroupId,
                            listed: seq<StudentId>)
    requires g in groups
  {
    exists index :: IndexSound(t, groups, groups[g], index) && IndexFull(t, groups, groups[g], index, listed)
                    && Committable(t, students, index, g, listed)
  }

  lemma SurelyMeansServable(t: Table, students: set<StudentId>, groups: map<GroupId, CourseId>, g: GroupId,
                            listed: seq<StudentId>, index: Index, i: nat)
    requires g in groups && i < |listed| && SurelyServed(t, students, groups, g, listed)
    requires IndexSound(t, groups, groups[g], index) && IndexFull(t, groups, groups[g], index, listed)
    ensures Servable(t, students, index, g, listed, i)
  {
  }

  /** The position that is not surely served fails for an index that shows the enrollment outside the group. */
  lemma UnsureMeansRefusal(t: Table, students: set<StudentId>, groups: map<GroupId, CourseId>, g: GroupId,
                           listed: seq<StudentId>, i: nat)
    requires g in groups && i < |listed|
    requires !(if Enrolled(t, groups, groups[g], listed[i])
               then !In(t, listed[i], g) || !Elsewhere(t, groups, g, listed[i])
               else NewOnce(students, listed, i))
    ensures MayBeRefused(t, students, groups, g, listed)
  {
    var s := listed[i];
    var away := set e | e in t && t[e].group != g;
    var index := IndexFor(t, groups, groups[g], listed, away);
    assert s in listed;
    assert s in index <==> Enrolled(t, groups, groups[g], s);
    assert !Servable(t, students, index, g, listed, i);
  }

  /** The call commits for every order of the rows if and only if every listed student is surely served. */
  lemma CommitsForEveryOrder(t: Table, students: set<StudentId>, groups: map<GroupId, CourseId>, g: GroupId,
                             listed: seq<StudentId>)
    requires g in groups
    ensures !MayBeRefused(t, students, groups, g, listed) <==> SurelyServed(t, students, groups, g, listed)
  {
    if SurelyServed(t, students, groups, g, listed) {
      forall index | IndexSound(t, groups, groups[g], index) && IndexFull(t, groups, groups[g], index, listed)
        ensures Committable(t, students, index, g, listed)
      {
        forall i | 0 <= i < |listed| ensures Servable(t, students, index, g, listed, i) {
          SurelyMeansServable(t, students, groups, g, listed, index, i);
        }
      }
    } else {
      var i :| 0 <= i < |listed| && !(if Enrolled(t, groups, groups[g], listed[i])
                                      then !In(t, listed[i], g) || !Elsewhere(t, groups, g, listed[i])
                                      else NewOnce(students, listed, i));
      UnsureMeansRefusal(t, students, groups, g, listed, i);
    }
  }

  /** It commits for some order if and only if every newcomer to the course exists and is listed once. */
  lemma CommitsForSomeOrder(t: Table, students: set<StudentId>, groups: map<GroupId, CourseId>, g: GroupId,
                            listed: seq<StudentId>)
    requires g in groups
    ensures MayCommit(t, students, groups, g, listed) <==> PossiblyServed(t, students, groups, g, listed)
  {
    if PossiblyServed(t, students, groups, g, listed) {
      var here := set e | e in t && t[e].group == g;
      var index := IndexFor(t, groups, groups[g], listed, here);
      forall i | 0 <= i < |listed| ensures Servable(t, students, index, g, listed, i) {
        PossiblyMeansServable(t, students, groups, g, listed, here, i);
      }
      assert Committable(t, students, index, g, listed);
    } else if MayCommit(t, students, groups, g, listed) {
      var index :| IndexSound(t, groups, groups[g], index) && IndexFull(t, groups, groups[g], index, listed)
                   && Committable(t, students, index, g, listed);
      forall i | 0 <= i < |listed| && !Enrolled(t, groups, groups[g], listed[i]) ensures NewOnce(students, listed, i) {
        assert Servable(t, students, index, g, listed, i) && listed[i] !in index;
      }
    }
  }

  lemma PossiblyMeansServable(t: Table, students: set<StudentId>, groups: map<GroupId, CourseId>, g: GroupId,
                              listed: seq<StudentId>, here: set<EnrollmentId>, i: nat)
    requires g in groups && i < |listed| && PossiblyServed(t, students, groups, g, listed)
    requires here == set e | e in t && t[e].group == g
    ensures Servable(t, students, IndexFor(t, groups, groups[g], listed, here), g, listed, i)
  {
  }

  /**
   Repeating a committed call can be refused if and only if some listed student
   still has an enrollment of the course outside the group.
   */
  lemma RepeatRefusedOnlyByLeftovers(t: Table, students: set<StudentId>, groups: map<GroupId, CourseId>, index: Index,
                                     g: GroupId, listed: seq<StudentId>, ids: seq<EnrollmentId>, u: Table)
    requires |listed| <= |ids| && FreshIds(t, ids) && g in groups
    requires IndexSound(t, groups, groups[g], index) && Transferred(t, index, g, listed, ids, u)
    ensures MayBeRefused(u, students, groups, g, listed)
            <==> exists e :: InCourse(groups, groups[g], u, e) && u[e].student in listed && u[e].group != g
  {
    EveryoneListedIsIn(t, groups, index, g, listed, ids, u);
    CommitsForEveryOrder(u, students, groups, g, listed);
    forall s | s in listed ensures Enrolled(u, groups, groups[g], s) {
      var e :| HasRow(u, e, s, g);
      assert InCourse(groups, groups[g], u, e);
    }
    if e :| InCourse(groups, groups[g], u, e) && u[e].student in listed && u[e].group != g {
      var i :| 0 <= i < |listed| && listed[i] == u[e].student;
      assert Elsewhere(u, groups, g, listed[i]) && listed[i] in listed;
    } else {
      forall i | 0 <= i < |listed| ensures !Elsewhere(u, groups, g, listed[i]) {
        assert listed[i] in listed;
      }
    }
  }

  /** A committed call whose repetition some order of the rows makes fail. */
  ghost predicate FailsOnRepeat(t: Table, groups: map<GroupId, CourseId>, index: Index, g: GroupId, s: StudentId,
                                u: Table)
  {
    && g in groups && Constraints({s}, groups, t)
    && IndexSound(t, groups, groups[g], index) && IndexFull(t, groups, groups[g], index, [s])
    && Committable(t, {s}, index, g, [s]) && Transferred(t, index, g, [s], [0], u)
    && MayBeRefused(u, {s}, groups, g, [s])
  }

  /**
   The enrollments of a student who is in groups 1 and 2 of one course, and
   after the transfer of the first one to 3.
   */
  function Twice(s: StudentId, first: GroupId): Table
  {
    map[10 := Enrollment(s, first, "active", 40), 20 := Enrollment(s, 2, "active", 60)]
  }

  lemma TwiceTransfers(s: StudentId, course: CourseId)
    ensures var groups: map<GroupId, CourseId> := map[1 := course, 2 := course, 3 := course];
            var index: Index := map[s := (10, 1)];
            && Constraints({s}, groups, Twice(s, 1))
            && IndexSound(Twice(s, 1), groups, course, index) && IndexFull(Twice(s, 1), groups, course, index, [s])
            && Committable(Twice(s, 1), {s}, index, 3, [s])
            && Transferred(Twice(s, 1), index, 3, [s], [0], Twice(s, 3))
  {
    var index: Index := map[s := (10, 1)];
    assert s in [s];
    assert !In(Twice(s, 1), s, 3);
    assert Servable(Twice(s, 1), {s}, index, 3, [s], 0);
    assert forall i :: !Anew(index, [s], i);
  }

  /** That happens: one student with two enrollments in the course suffices. */
  lemma RepeatCanFail(s: StudentId, course: CourseId)
    ensures exists t, groups, index, g, u :: FailsOnRepeat(t, groups, index, g, s, u)
  {
    var groups: map<GroupId, CourseId> := map[1 := course, 2 := course, 3 := course];
    var index: Index := map[s := (10, 1)];
    TwiceTransfers(s, course);
    assert InCourse(groups, course, Twice(s, 3), 20) && s in [s];
    RepeatRefusedOnlyByLeftovers(Twice(s, 1), {s}, groups, index, 3, [s], [0], Twice(s, 3));
    assert FailsOnRepeat(Twice(s, 1), groups, index, 3, s, Twice(s, 3));
  }

  // ── The service ────────────────────────────────────────────────────────

  datatype Outcome = NoSuchGroup | Refused | Committed

  class Roster {
    const students: set<StudentId>
    const groups: map<GroupId, CourseId>
    var enrollments: Table

    ghost predicate Valid()
      reads this
    {
      Constraints(students, groups, enrollments)
    }

    constructor (students: set<StudentId>, groups: map<GroupId, CourseId>)
      ensures Valid() && this.students == students && this.groups == groups && enrollments == map[]
    {
      this.students, this.groups, enrollments := students, groups, map[];
    }

    /**
     The dictionary over the query's rows, which come in any order: a later row
     of the same student replaces an earlier one.
     */
    method BuildIndex(course: CourseId, listed: seq<StudentId>) returns (index: Index)
      ensures IndexSound(enrollments, groups, course, index)
      ensures IndexFull(enrollments, groups, course, index, listed)
      ensures forall s :: s in index ==> s in listed
    {
      index := map[];
      var todo := enrollments.Keys;
      while todo != {}
        invariant todo <= enrollments.Keys
        invariant IndexSound(enrollments, groups, course, index)
        invariant forall s :: s in index ==> s in listed
        invariant forall e :: e !in todo && InCourse(groups, course, enrollments, e) && enrollments[e].student in listed
                    ==> enrollments[e].student in index
        decreases todo
      {
        var e :| e in todo;
        var row := enrollments[e];
        if row.group in groups && groups[row.group] == course && row.student in listed {
          index := index[row.student := (e, row.group)];
        }
        todo := todo - {e};
      }
    }

    /** Whether some other row already has this student in this group. */
    method Conflict(t: Table, s: StudentId, g: GroupId, self: Option<EnrollmentId>) returns (yes: bool)
      ensures yes <==> exists e: EnrollmentId :: Some(e) != self && HasRow(t, e, s, g)
    {
      yes := exists e: EnrollmentId :: e in t && Some(e) != self && HasRow(t, e, s, g);
    }

    /** The loop body: an insert, an update or nothing, under the table's constraints. */
    method Serve(t: Table, index: Index, g: GroupId, s: StudentId, id: EnrollmentId) returns (r: Option<Table>)
      ensures r == TransferOne(t, students, index, g, s, id)
    {
      if s !in index {
        var taken := Conflict(t, s, g, None);
        assert taken <==> In(t, s, g);
        if taken || s !in students {
          return None;
        }
        return Some(t[id := Enrollment(s, g, "active", 0)]);
      }
      var e := index[s].0;
      if index[s].1 == g || e !in t {
        return Some(t);
      }
      var taken := Conflict(t, s, g, Some(e));
      if taken {
        return None;
      }
      return Some(t[e := t[e].(group := g)]);
    }

    /**
     `update_group_members`. All or nothing: it commits exactly when every
     position of the list can be served for the enrollments that were indexed,
     and any refused statement leaves the table as it was.
     */
    method UpdateGroupMembers(g: GroupId, listed: seq<StudentId>, ids: seq<EnrollmentId>)
      returns (outcome: Outcome, index: Index)
      requires Valid() && |listed| <= |ids| && FreshIds(enrollments, ids)
      modifies this`enrollments
      ensures Valid()
      ensures outcome.NoSuchGroup? <==> g !in groups
      ensures !outcome.Committed? ==> enrollments == old(enrollments)
      ensures g in groups ==>
                && IndexSound(old(enrollments), groups, groups[g], index)
                && IndexFull(old(enrollments), groups, groups[g], index, listed)
                && (outcome.Committed? <==> Committable(old(enrollments), students, index, g, listed))
      ensures outcome.Committed? ==> Transferred(old(enrollments), index, g, listed, ids, enrollments)
      ensures g in groups && SurelyServed(old(enrollments), students, groups, g, listed) ==> outcome.Committed?
      ensures outcome.Committed? ==> PossiblyServed(old(enrollments), students, groups, g, listed)
    {
      index := map[];
      if g !in groups {
        return NoSuchGroup, index;
      }
      index := BuildIndex(groups[g], listed);
      TransferMeaning(enrollments, students, groups, index, g, listed, ids);
      CommitsForEveryOrder(enrollments, students, groups, g, listed);
      CommitsForSomeOrder(enrollments, students, groups, g, listed);
      var r := RunStatements(index, g, listed, ids);
      if r.None? {
        return Refused, index;
      }
      TransferKeepsConstraints(enrollments, students, groups, index, g, listed, ids, r.value);
      enrollments := r.value;
      outcome := Committed;
    }

    /** The statements of one transaction, which sees its own changes and stops at the first refusal. */
    method RunStatements(index: Index, g: GroupId, listed: seq<StudentId>, ids: seq<EnrollmentId>)
      returns (r: Option<Table>)
      requires |listed| <= |ids|
      ensures r == TransferAll(enrollments, students, index, g, listed, ids)
    {
      r := Some(enrollments);
      assert listed[..|listed|] == listed;
      for i := 0 to |listed|
        invariant r.Some? && TransferAll(enrollments, students, index, g, listed[..i], ids) == r
      {
        TransferUnfolds(enrollments, students, index, g, listed, ids, i);
        r := Serve(r.value, index, g, listed[i], ids[i]);
        if r.None? {
          OneRefusalSuffices(enrollments, students, index, g, listed, ids, i + 1, |listed|);
          return;
        }
      }
    }

    /** `create_enrollment`: any violated constraint, a missing student included, is reported as already enrolled. */
    method CreateEnrollment(s: StudentId, g: GroupId, id: EnrollmentId) returns (outcome: Outcome)
      requires Valid() && id !in enrollments
      modifies this`enrollments
      ensures Valid()
      ensures outcome.NoSuchGroup? <==> g !in groups
      ensures outcome.Committed? <==> g in groups && s in students && !In(old(enrollments), s, g)
      ensures enrollments
              == if outcome.Committed? then old(enrollments)[id := Enrollment(s, g, "active", 0)] else old(enrollments)
    {
      if g !in groups {
        return NoSuchGroup;
      }
      var taken := Conflict(enrollments, s, g, None);
      assert taken <==> In(enrollments, s, g);
      if taken || s !in students {
        return Refused;
      }
      InsertKeepsConstraints(students, groups, enrollments, s, g, id);
      enrollments := enrollments[id := Enrollment(s, g, "active", 0)];
      outcome := Committed;
    }
  }

  lemma InsertKeepsConstraints(students: set<StudentId>, groups: map<GroupId, CourseId>, t: Table,
                               s: StudentId, g: GroupId, id: EnrollmentId)
    requires Constraints(students, groups, t) && id !in t && s in students && g in groups && !In(t, s, g)
    ensures Constraints(students, groups, t[id := Enrollment(s, g, "active", 0)])
  {
    var u := t[id := Enrollment(s, g, "active", 0)];
    forall d, e, x, h | HasRow(u, d, x, h) && HasRow(u, e, x, h) ensures d == e {
      assert d in t ==> HasRow(t, d, x, h);
      assert e in t ==> HasRow(t, e, x, h);
    }
  }

  /** Once an iteration is refused, so is the whole call. */
  lemma {:induction false} OneRefusalSuffices(t: Table, students: set<StudentId>, index: Index, g: GroupId,
                                              listed: seq<StudentId>, ids: seq<EnrollmentId>, i: nat, n: nat)
    requires i <= n <= |listed| <= |ids| && TransferAll(t, students, index, g, listed[..i], ids).None?
    ensures TransferAll(t, students, index, g, listed[..n], ids).None?
  {
    if i < n {
      OneRefusalSuffices(t, students, index, g, listed, ids, i, n - 1);
      TransferUnfolds(t, students, index, g, listed, ids, n - 1);
    }
  }
}
