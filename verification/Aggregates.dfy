/**
 The counting queries over chains of left joins, against counts taken directly
 (backend/app/services/learning_service.py). Every joined table brings its
 primary key into the rows, so a bag of joined rows is a set.
 */
module Aggregates {
  import opened Text
  import opened Finite
  import opened Learning

  // ── LEFT JOIN ──────────────────────────────────────────────────────────

  ghost function LeftJoin<X(!new), Y(!new)>(xs: set<X>, ys: set<Y>, on: (X, Y) -> bool): set<(X, Option<Y>)>
  {
    (set x, y | x in xs && y in ys && on(x, y) :: (x, Some(y)))
    + (set x | x in xs && (forall y :: y in ys ==> !on(x, y)) :: (x, None))
  }

  ghost function Matched<X(!new), Y(!new)>(rows: set<(X, Option<Y>)>): set<(X, Option<Y>)>
  {
    set r | r in rows && r.1.Some?
  }

  /** Every `y` joins exactly one `x`, as a foreign key makes it. */
  ghost predicate OwnedBy<X(!new), Y(!new)>(xs: set<X>, ys: set<Y>, on: (X, Y) -> bool, owner: Y -> X)
  {
    forall y :: y in ys ==> owner(y) in xs && forall x :: x in xs ==> (on(x, y) <==> x == owner(y))
  }

  /** Along a foreign key the matched rows are the right-hand rows, each once. */
  lemma MatchedAreOwned<X(!new), Y(!new)>(xs: set<X>, ys: set<Y>, on: (X, Y) -> bool, owner: Y -> X)
    requires OwnedBy(xs, ys, on, owner)
    ensures forall r :: r in Matched(LeftJoin(xs, ys, on)) <==> r.1.Some? && r.1.value in ys && r.0 == owner(r.1.value)
  {
  }

  /** The rows that pair each `y` with its owner. */
  ghost predicate PairsUp<X(!new), Y(!new)>(rows: set<(X, Option<Y>)>, ys: set<Y>, owner: Y -> X)
  {
    forall r :: r in rows <==> r.1.Some? && r.1.value in ys && r.0 == owner(r.1.value)
  }

  function Pairing<X, Y>(owner: Y -> X): Y -> (X, Option<Y>)
  {
    y => (owner(y), Some(y))
  }

  lemma PairsAreImage<X(!new), Y(!new)>(rows: set<(X, Option<Y>)>, ys: set<Y>, owner: Y -> X)
    requires PairsUp(rows, ys, owner)
    ensures rows == set y | y in ys :: Pairing(owner)(y)
  {
  }

  /** So sums and counts over the matched rows are those over the right-hand table. */
  lemma JoinSums<X(!new), Y(!new)>(rows: set<(X, Option<Y>)>, ys: set<Y>, owner: Y -> X, f: Y -> int,
                   g: ((X, Option<Y>)) -> int)
    requires PairsUp(rows, ys, owner)
    requires forall y :: y in ys ==> g(Pairing(owner)(y)) == f(y)
    ensures |rows| == |ys|
    ensures SumOver(rows, g) == SumOver(ys, f)
  {
    PairsAreImage(rows, ys, owner);
    SumImage(ys, Pairing(owner), g, rows, f);
  }

  lemma JoinCounts<X(!new), Y(!new)>(rows: set<(X, Option<Y>)>, ys: set<Y>, owner: Y -> X)
    requires PairsUp(rows, ys, owner)
    ensures |rows| == |ys|
  {
    JoinSums(rows, ys, owner, _ => 0, _ => 0);
  }

  // ── The tables ─────────────────────────────────────────────────────────

  datatype Course = Course(direction: Option<string>, status: string)

  datatype School = School(
    courses: map<CourseId, Course>, groups: map<GroupId, CourseId>,
    students: set<StudentId>, enrollments: Table)

  const NO_DIRECTION := "Без направления"

  ghost predicate Sound(sc: School)
  {
    && (forall g :: g in sc.groups ==> sc.groups[g] in sc.courses)
    && Constraints(sc.students, sc.groups, sc.enrollments)
  }

  function DirectionOf(sc: School, c: CourseId): string
  {
    if c in sc.courses && sc.courses[c].direction.Some? then sc.courses[c].direction.value else NO_DIRECTION
  }

  function CourseOf(sc: School, e: EnrollmentId): CourseId
  {
    if e in sc.enrollments && sc.enrollments[e].group in sc.groups then sc.groups[sc.enrollments[e].group] else 0
  }

  predicate Completed(sc: School, e: EnrollmentId)
  {
    e in sc.enrollments && sc.enrollments[e].status == "completed"
  }

  predicate InDirection(sc: School, e: EnrollmentId, d: string)
  {
    e in sc.enrollments && DirectionOf(sc, CourseOf(sc, e)) == d
  }

  // ── Analytics by direction ─────────────────────────────────────────────

  type GroupRow = (CourseId, Option<GroupId>)
  type CourseRow = (GroupRow, Option<EnrollmentId>)

  ghost function CourseGroups(sc: School): set<GroupRow>
  {
    LeftJoin(sc.courses.Keys, sc.groups.Keys, (c, g) => g in sc.groups && sc.groups[g] == c)
  }

  function HasGroup(sc: School): (GroupRow, EnrollmentId) -> bool
  {
    (r: GroupRow, e) => e in sc.enrollments && r.1 == Some(sc.enrollments[e].group)
  }

  /** `courses LEFT JOIN groups LEFT JOIN enrollments`. */
  ghost function CourseRows(sc: School): set<CourseRow>
  {
    LeftJoin(CourseGroups(sc), sc.enrollments.Keys, HasGroup(sc))
  }

  /** One group of `GROUP BY COALESCE(direction, …)`. */
  ghost function DirectionRows(sc: School, d: string): set<CourseRow>
  {
    set r | r in CourseRows(sc) && DirectionOf(sc, r.0.0) == d
  }

  ghost function CountEnrollments(sc: School, d: string): nat
  {
    |Matched(DirectionRows(sc, d))|
  }

  ghost function CountCompleted(sc: School, d: string): nat
  {
    |set r | r in Matched(DirectionRows(sc, d)) && Completed(sc, r.1.value)|
  }

  ghost function CountCourses(sc: School, d: string): nat
  {
    |set r | r in DirectionRows(sc, d) :: r.0.0|
  }

  ghost function CountStudents(sc: School, d: string): nat
  {
    |set r | r in Matched(DirectionRows(sc, d)) && r.1.value in sc.enrollments :: sc.enrollments[r.1.value].student|
  }

  function Home(sc: School): EnrollmentId -> GroupRow
  {
    e => (CourseOf(sc, e), if e in sc.enrollments then Some(sc.enrollments[e].group) else None)
  }

  lemma EnrollmentsAreOwned(sc: School)
    requires Sound(sc)
    ensures OwnedBy(CourseGroups(sc), sc.enrollments.Keys, HasGroup(sc), Home(sc))
  {
    var on: (CourseId, GroupId) -> bool := (c, g) => g in sc.groups && sc.groups[g] == c;
    forall e | e in sc.enrollments.Keys
      ensures Home(sc)(e) in CourseGroups(sc)
      ensures forall x :: x in CourseGroups(sc) ==> (HasGroup(sc)(x, e) <==> x == Home(sc)(e))
    {
      var g := sc.enrollments[e].group;
      assert g in sc.groups.Keys && sc.groups[g] in sc.courses.Keys;
    }
  }

  lemma DirectionRowsMeaning(sc: School, d: string)
    requires Sound(sc)
    ensures forall r :: r in Matched(DirectionRows(sc, d))
              <==> r.1.Some? && InDirection(sc, r.1.value, d) && r.0 == Home(sc)(r.1.value)
  {
    EnrollmentsAreOwned(sc);
    MatchedAreOwned(CourseGroups(sc), sc.enrollments.Keys, HasGroup(sc), Home(sc));
    assert forall r ::
        r in Matched(DirectionRows(sc, d)) <==> r in Matched(CourseRows(sc)) && DirectionOf(sc, r.0.0) == d;
  }

  /** The join chain counts every enrollment of a direction once, although courses and groups repeat in its rows. */
  lemma EnrollmentsCountOnce(sc: School, d: string)
    requires Sound(sc)
    ensures CountEnrollments(sc, d) == |set e | e in sc.enrollments && InDirection(sc, e, d)|
  {
    DirectionRowsMeaning(sc, d);
    var all := set e | e in sc.enrollments && InDirection(sc, e, d);
    JoinCounts(Matched(DirectionRows(sc, d)), all, Home(sc));
  }

  lemma CompletionsCountOnce(sc: School, d: string)
    requires Sound(sc)
    ensures CountCompleted(sc, d) == |set e | e in sc.enrollments && InDirection(sc, e, d) && Completed(sc, e)|
  {
    DirectionRowsMeaning(sc, d);
    var done := set e | e in sc.enrollments && InDirection(sc, e, d) && Completed(sc, e);
    var rows := set r | r in Matched(DirectionRows(sc, d)) && Completed(sc, r.1.value);
    JoinCounts(rows, done, Home(sc));
  }

  /** Every course appears in the chain, whether or not it has groups, and every group of it. */
  lemma CoursesAppear(sc: School, c: CourseId)
    ensures c in sc.courses <==> exists r :: r in CourseRows(sc) && r.0.0 == c
  {
    if c in sc.courses {
      if g :| g in sc.groups && sc.groups[g] == c {
        GroupAppears(sc, (c, Some(g)));
      } else {
        GroupAppears(sc, (c, None));
      }
    }
  }

  lemma GroupAppears(sc: School, x: GroupRow)
    requires x in CourseGroups(sc)
    ensures exists r :: r in CourseRows(sc) && r.0.0 == x.0
  {
    if e :| e in sc.enrollments && HasGroup(sc)(x, e) {
      assert (x, Some(e)) in CourseRows(sc);
    } else {
      assert forall e :: e in sc.enrollments.Keys ==> !HasGroup(sc)(x, e);
      var none: Option<EnrollmentId> := None;
      assert (x, none) in CourseRows(sc);
    }
  }

  lemma CoursesCountOnce(sc: School, d: string)
    ensures CountCourses(sc, d) == |set c | c in sc.courses && DirectionOf(sc, c) == d|
  {
    forall c ensures c in (set r | r in DirectionRows(sc, d) :: r.0.0) <==> c in sc.courses && DirectionOf(sc, c) == d {
      CoursesAppear(sc, c);
    }
    assert (set r | r in DirectionRows(sc, d) :: r.0.0) == set c | c in sc.courses && DirectionOf(sc, c) == d;
  }

  ghost function Directions(sc: School): set<string>
  {
    set c | c in sc.courses :: DirectionOf(sc, c)
  }

  lemma {:induction false} SumOfOnes<T>(s: set<T>)
    ensures SumOver(s, _ => 1) == |s|
  {
    SumConstant(s, _ => 1, 1);
  }

  /** Partitioning a set by a key and adding up the sizes of the parts. */
  lemma SizesByGroup<T, K>(s: set<T>, key: T -> K, groups: set<K>, size: K -> int)
    requires forall x :: x in s ==> key(x) in groups
    requires forall k :: k in groups ==> size(k) == |Group(s, key, k)|
    ensures SumOver(groups, size) == |s|
  {
    SumByGroup(s, key, groups, _ => 1);
    SumOfOnes(s);
    forall k | k in groups ensures SumOver(Group(s, key, k), _ => 1) == size(k) {
      SumOfOnes(Group(s, key, k));
    }
    SumEqual(groups, k => SumOver(Group(s, key, k), _ => 1), size);
  }

  /** The per-direction enrollments, completions and courses add up to the totals the first query counts directly. */
  lemma DirectionsAddUp(sc: School)
    requires Sound(sc)
    ensures SumOver(Directions(sc), d => CountEnrollments(sc, d)) == |sc.enrollments.Keys|
    ensures SumOver(Directions(sc), d => CountCompleted(sc, d)) == |set e | e in sc.enrollments && Completed(sc, e)|
    ensures SumOver(Directions(sc), d => CountCourses(sc, d)) == |sc.courses.Keys|
  {
    var key := (e: EnrollmentId) => DirectionOf(sc, CourseOf(sc, e));
    var done := set e: EnrollmentId | e in sc.enrollments && Completed(sc, e);
    forall d
      ensures CountEnrollments(sc, d) == |Group(sc.enrollments.Keys, key, d)|
      ensures CountCompleted(sc, d) == |Group(done, key, d)|
    {
      EnrollmentsCountOnce(sc, d);
      CompletionsCountOnce(sc, d);
      assert Group(sc.enrollments.Keys, key, d) == set e: EnrollmentId | e in sc.enrollments && InDirection(sc, e, d);
      assert Group(done, key, d)
          == set e: EnrollmentId | e in sc.enrollments && InDirection(sc, e, d) && Completed(sc, e);
    }
    SizesByGroup(sc.enrollments.Keys, key, Directions(sc), d => CountEnrollments(sc, d));
    SizesByGroup(done, key, Directions(sc), d => CountCompleted(sc, d));
    CourseCountsAddUp(sc);
  }

  lemma CourseCountsAddUp(sc: School)
    ensures SumOver(Directions(sc), d => CountCourses(sc, d)) == |sc.courses.Keys|
  {
    var key := (c: CourseId) => DirectionOf(sc, c);
    forall d ensures CountCourses(sc, d) == |Group(sc.courses.Keys, key, d)| {
      CoursesCountOnce(sc, d);
      assert Group(sc.courses.Keys, key, d) == set c | c in sc.courses && DirectionOf(sc, c) == d;
    }
    SizesByGroup(sc.courses.Keys, key, Directions(sc), d => CountCourses(sc, d));
  }

  /** A completion rate before it is rounded for display. */
  function Rate(completed: nat, enrollments: nat): real
  {
    if enrollments == 0 then 0.0 else completed as real / enrollments as real
  }

  lemma RateInRange(completed: nat, enrollments: nat)
    requires completed <= enrollments
    ensures 0.0 <= Rate(completed, enrollments) <= 1.0
  {
  }

  function Thousandths(n: int): real
  {
    n as real / 1000.0
  }

  /** Rounding to three decimals, whichever way a tie goes. */
  ghost predicate RoundsTo(x: real, y: real)
  {
    exists n :: y == Thousandths(n) && -0.0005 <= y - x <= 0.0005
  }

  lemma RoundedStaysInRange(x: real, y: real)
    requires 0.0 <= x <= 1.0 && RoundsTo(x, y)
    ensures 0.0 <= y <= 1.0
  {
  }

  /** The completion rate over all enrollments. */
  ghost function OverallRate(sc: School): real
  {
    var done := set e: EnrollmentId | e in sc.enrollments && Completed(sc, e);
    Rate(|done|, |sc.enrollments.Keys|)
  }

  /** Every rate shown, that of a direction and the overall one, is a fraction, and stays one when it is rounded. */
  lemma RatesAreFractions(sc: School, d: string, shown: real, overall: real)
    requires RoundsTo(Rate(CountCompleted(sc, d), CountEnrollments(sc, d)), shown)
    requires RoundsTo(OverallRate(sc), overall)
    ensures 0.0 <= Rate(CountCompleted(sc, d), CountEnrollments(sc, d)) <= 1.0 && 0.0 <= shown <= 1.0
    ensures 0.0 <= OverallRate(sc) <= 1.0 && 0.0 <= overall <= 1.0
  {
    var rows := Matched(DirectionRows(sc, d));
    var completed := set r | r in rows && Completed(sc, r.1.value);
    SubsetSize(completed, rows);
    RateInRange(CountCompleted(sc, d), CountEnrollments(sc, d));
    RoundedStaysInRange(Rate(CountCompleted(sc, d), CountEnrollments(sc, d)), shown);
    var done := set e: EnrollmentId | e in sc.enrollments && Completed(sc, e);
    SubsetSize(done, sc.enrollments.Keys);
    RateInRange(|done|, |sc.enrollments.Keys|);
    RoundedStaysInRange(OverallRate(sc), overall);
  }

  /** A share of a whole, told by multiplication: all of it, none of it, or in between. */
  lemma RateIsTheShare(part: nat, whole: nat)
    requires part <= whole
    ensures whole > 0 ==> Rate(part, whole) * whole as real == part as real
    ensures whole > 0 ==> (Rate(part, whole) == 1.0 <==> part == whole) && (Rate(part, whole) == 0.0 <==> part == 0)
    ensures whole == 0 ==> Rate(part, whole) == 0.0
  {
    if whole > 0 {
      var w, p := whole as real, part as real;
      assert p / w * w == p;
    }
  }

  /** The enrollments in courses of a direction, straight from the tables. */
  ghost function EnrolledIn(sc: School, d: string): set<EnrollmentId>
  {
    set e | e in sc.enrollments && sc.enrollments[e].group in sc.groups
            && sc.groups[sc.enrollments[e].group] in sc.courses
            && (match sc.courses[sc.groups[sc.enrollments[e].group]].direction
                case Some(name) => name == d
                case None => d == NO_DIRECTION)
  }

  ghost function CompletedOf(sc: School, some: set<EnrollmentId>): set<EnrollmentId>
  {
    set e | e in some && e in sc.enrollments && sc.enrollments[e].status == "completed"
  }

  lemma CountsAreDirect(sc: School, d: string)
    requires Sound(sc)
    ensures CountEnrollments(sc, d) == |EnrolledIn(sc, d)|
    ensures CountCompleted(sc, d) == |CompletedOf(sc, EnrolledIn(sc, d))|
  {
    EnrollmentsCountOnce(sc, d);
    CompletionsCountOnce(sc, d);
    assert EnrolledIn(sc, d) == set e | e in sc.enrollments && InDirection(sc, e, d);
    assert CompletedOf(sc, EnrolledIn(sc, d))
        == set e | e in sc.enrollments && InDirection(sc, e, d) && Completed(sc, e);
  }

  /**
   The rate is the share of `part` in `whole`: times the one it is the other, it
   is 1 exactly when the part is everything, and 0 exactly when it is empty.
   */
  ghost predicate IsShare(rate: real, part: set<EnrollmentId>, whole: set<EnrollmentId>)
  {
    && rate * |whole| as real == |part| as real
    && (whole != {} ==> (rate == 1.0 <==> part == whole))
    && (rate == 0.0 <==> part == {})
  }

  lemma ShareOfSet(part: set<EnrollmentId>, whole: set<EnrollmentId>)
    requires part <= whole
    ensures IsShare(Rate(|part|, |whole|), part, whole)
  {
    SubsetSize(part, whole);
    RateIsTheShare(|part|, |whole|);
    if x :| x in whole && x !in part {
      SubsetSize(part, whole - {x});
    }
  }

  /** The rate of a direction, before rounding, is the share of its completed enrollments, both taken directly. */
  lemma DirectionRate(sc: School, d: string)
    requires Sound(sc)
    ensures IsShare(Rate(CountCompleted(sc, d), CountEnrollments(sc, d)),
                    CompletedOf(sc, EnrolledIn(sc, d)), EnrolledIn(sc, d))
  {
    CountsAreDirect(sc, d);
    ShareOfSet(CompletedOf(sc, EnrolledIn(sc, d)), EnrolledIn(sc, d));
  }

  /** The overall rate is the share of the completed among all enrollments. */
  lemma WholeRate(sc: School)
    ensures IsShare(OverallRate(sc), CompletedOf(sc, sc.enrollments.Keys), sc.enrollments.Keys)
  {
    var done := CompletedOf(sc, sc.enrollments.Keys);
    assert done == set e: EnrollmentId | e in sc.enrollments && Completed(sc, e);
    ShareOfSet(done, sc.enrollments.Keys);
  }

  function StudentOf(sc: School): CourseRow -> StudentId
  {
    (r: CourseRow) => if r.1.Some? && r.1.value in sc.enrollments then sc.enrollments[r.1.value].student else 0
  }

  /** A direction never has more students than enrollments. */
  lemma StudentsAtMostEnrollments(sc: School, d: string)
    requires Sound(sc)
    ensures CountStudents(sc, d) <= CountEnrollments(sc, d)
  {
    DirectionRowsMeaning(sc, d);
    var rows := Matched(DirectionRows(sc, d));
    var students := set r | r in rows && r.1.value in sc.enrollments :: sc.enrollments[r.1.value].student;
    assert students == set r | r in rows :: StudentOf(sc)(r);
    ImageSize(rows, StudentOf(sc), students);
  }

  /** Every matched row carries an enrollment of the direction, and every such enrollment has its row. */
  lemma RowsCarryEnrolled(sc: School, d: string)
    requires Sound(sc)
    ensures forall r :: r in Matched(DirectionRows(sc, d)) ==> r.1.Some? && r.1.value in EnrolledIn(sc, d)
    ensures forall e :: e in EnrolledIn(sc, d) ==> (Home(sc)(e), Some(e)) in Matched(DirectionRows(sc, d))
  {
    DirectionRowsMeaning(sc, d);
  }

  /** The students of a direction are those with an enrollment in it, once each. */
  lemma StudentsCountOnce(sc: School, d: string)
    requires Sound(sc)
    ensures CountStudents(sc, d) == |set e | e in EnrolledIn(sc, d) :: sc.enrollments[e].student|
  {
    RowsCarryEnrolled(sc, d);
    var rows := Matched(DirectionRows(sc, d));
    assert (set r | r in rows && r.1.value in sc.enrollments :: sc.enrollments[r.1.value].student)
        == set e | e in EnrolledIn(sc, d) :: sc.enrollments[e].student by {
      forall e | e in EnrolledIn(sc, d)
        ensures exists r :: r in rows && r.1.value == e {
        assert (Home(sc)(e), Some(e)).1.value == e;
      }
    }
  }

  // ── The student registry and the parents' view ─────────────────────────

  type StudentRow = (StudentId, Option<EnrollmentId>)
  type GroupedRow = (StudentRow, Option<GroupId>)
  type RegistryRow = (GroupedRow, Option<CourseId>)

  ghost function StudentRows(sc: School): set<StudentRow>
  {
    LeftJoin(sc.students, sc.enrollments.Keys, (t, e) => e in sc.enrollments && sc.enrollments[e].student == t)
  }

  ghost function GroupedRows(sc: School): set<GroupedRow>
  {
    LeftJoin(StudentRows(sc), sc.groups.Keys,
             (r: StudentRow, g) => r.1.Some? && r.1.value in sc.enrollments && sc.enrollments[r.1.value].group == g)
  }

  /** `students LEFT JOIN enrollments LEFT JOIN groups LEFT JOIN courses`. */
  ghost function RegistryRows(sc: School): set<RegistryRow>
  {
    LeftJoin(GroupedRows(sc), sc.courses.Keys,
             (r: GroupedRow, c) => r.1.Some? && r.1.value in sc.groups && sc.groups[r.1.value] == c)
  }

  /** The rows of one student that carry an enrollment. */
  ghost function EnrolledRows(sc: School, t: StudentId): set<RegistryRow>
  {
    set r | r in RegistryRows(sc) && r.0.0.0 == t && r.0.0.1.Some?
  }

  ghost function Own(sc: School, t: StudentId): set<EnrollmentId>
  {
    set e | e in sc.enrollments && sc.enrollments[e].student == t
  }

  /** The row an enrollment extends to along its two foreign keys. */
  function Extended(sc: School, t: StudentId): EnrollmentId -> RegistryRow
  {
    e => (((t, Some(e)), if e in sc.enrollments then Some(sc.enrollments[e].group) else None), Some(CourseOf(sc, e)))
  }

  lemma RowOfEnrollment(sc: School, t: StudentId, e: EnrollmentId)
    requires Sound(sc) && e in Own(sc, t)
    ensures Extended(sc, t)(e) in EnrolledRows(sc, t)
  {
    var g := sc.enrollments[e].group;
    assert (t, Some(e)) in StudentRows(sc);
    assert g in sc.groups.Keys && ((t, Some(e)), Some(g)) in GroupedRows(sc);
    assert sc.groups[g] in sc.courses.Keys;
  }

  lemma EnrollmentOfRow(sc: School, t: StudentId, r: RegistryRow)
    requires Sound(sc) && r in EnrolledRows(sc, t)
    ensures r.0.0.1.value in Own(sc, t) && r == Extended(sc, t)(r.0.0.1.value)
  {
  }

  lemma RowsAreEnrollments(sc: School, t: StudentId)
    requires Sound(sc)
    ensures EnrolledRows(sc, t) == set e | e in Own(sc, t) :: Extended(sc, t)(e)
  {
    forall r | r in EnrolledRows(sc, t) ensures r in set e | e in Own(sc, t) :: Extended(sc, t)(e) {
      EnrollmentOfRow(sc, t, r);
    }
    forall e | e in Own(sc, t) ensures Extended(sc, t)(e) in EnrolledRows(sc, t) {
      RowOfEnrollment(sc, t, e);
    }
  }

  function ProgressOf(sc: School): EnrollmentId -> int
  {
    e => if e in sc.enrollments then sc.enrollments[e].progress else 0
  }

  function RowProgress(sc: School): RegistryRow -> int
  {
    (r: RegistryRow) => if r.0.0.1.Some? then ProgressOf(sc)(r.0.0.1.value) else 0
  }

  /** `COALESCE(round(avg(x))::int, 0)`: halves are rounded away from zero, and no values give 0. */
  function RoundedMean(sum: int, count: nat): int
  {
    if count == 0 then 0
    else if sum >= 0 then (2 * sum + count) / (2 * count)
    else -((2 * -sum + count) / (2 * count))
  }

  ghost function RegistryAverage(sc: School, t: StudentId): int
  {
    RoundedMean(SumOver(EnrolledRows(sc, t), RowProgress(sc)), |EnrolledRows(sc, t)|)
  }

  ghost function ChildAverage(sc: School, t: StudentId): int
  {
    RoundedMean(SumOver(Own(sc, t), ProgressOf(sc)), |Own(sc, t)|)
  }

  /** The registry counts every enrollment of a student once, and its average is the one parents see. */
  lemma AveragesAgree(sc: School, t: StudentId)
    requires Sound(sc)
    ensures |EnrolledRows(sc, t)| == |Own(sc, t)|
    ensures SumOver(EnrolledRows(sc, t), RowProgress(sc)) == SumOver(Own(sc, t), ProgressOf(sc))
    ensures RegistryAverage(sc, t) == ChildAverage(sc, t)
  {
    RowsAreEnrollments(sc, t);
    SumImage(Own(sc, t), Extended(sc, t), RowProgress(sc), EnrolledRows(sc, t), ProgressOf(sc));
  }

  /** The average lies between any bounds on the progress values it is taken of. */
  lemma AverageIsBounded(sc: School, t: StudentId, low: nat, high: nat)
    requires Sound(sc) && Own(sc, t) != {}
    requires forall e :: e in Own(sc, t) ==> low <= sc.enrollments[e].progress <= high
    ensures low <= RegistryAverage(sc, t) <= high
  {
    AveragesAgree(sc, t);
    var own := Own(sc, t);
    SumAtMost(own, ProgressOf(sc), _ => high);
    SumConstant(own, _ => high, high);
    SumAtMost(own, _ => low, ProgressOf(sc));
    SumConstant(own, _ => low, low);
    MeanIsBounded(SumOver(own, ProgressOf(sc)), |own|, low, high);
  }

  lemma Multiples(d: nat, p: int, q: int)
    requires p <= q
    ensures d * p <= d * q
  {
  }

  lemma QuotientBounds(a: int, d: nat, low: int, high: int)
    requires d > 0 && d * low <= a < d * (high + 1)
    ensures low <= a / d <= high
  {
    var q := a / d;
    assert d * q <= a < d * (q + 1);
    if q < low {
      Multiples(d, q + 1, low);
    }
    if q > high {
      Multiples(d, high + 1, q);
    }
  }

  lemma MeanIsBounded(sum: int, count: nat, low: nat, high: nat)
    requires count > 0 && low * count <= sum <= high * count
    ensures low <= RoundedMean(sum, count) <= high
  {
    assert sum >= 0;
    var d := 2 * count;
    assert d * low == 2 * (low * count);
    assert d * (high + 1) == 2 * (high * count) + d;
    QuotientBounds(2 * sum + count, d, low, high);
  }

  /** The shown average is a whole number nearest to the mean, and of two the one further from zero. */
  lemma AverageIsNearest(sum: int, count: nat)
    requires count > 0
    ensures var gap := 2 * (RoundedMean(sum, count) * count - sum);
            if sum >= 0 then -(count as int) < gap <= count else -(count as int) <= gap < count
  {
    var d := 2 * count;
    if sum >= 0 {
      Division(2 * sum + count, d, RoundedMean(sum, count));
    } else {
      Division(2 * -sum + count, d, -RoundedMean(sum, count));
    }
  }

  lemma Division(a: int, d: int, q: int)
    requires d > 0 && q == a / d
    ensures q * d <= a < q * d + d
  {
  }

  ghost function RegistryCourses(sc: School, t: StudentId): set<CourseId>
  {
    set r | r in RegistryRows(sc) && r.0.0.0 == t && r.1.Some? :: r.1.value
  }

  lemma CoursesOfRows(sc: School, t: StudentId)
    requires Sound(sc)
    ensures RegistryCourses(sc, t) == set e | e in Own(sc, t) :: CourseOf(sc, e)
  {
    forall c ensures c in RegistryCourses(sc, t) <==> c in set e | e in Own(sc, t) :: CourseOf(sc, e) {
      if r :| r in RegistryRows(sc) && r.0.0.0 == t && r.1 == Some(c) {
        assert r.0 in GroupedRows(sc) && r.0.1.Some?;
        EnrollmentOfRow(sc, t, r);
      }
      if e :| e in Own(sc, t) && CourseOf(sc, e) == c {
        RowOfEnrollment(sc, t, e);
      }
    }
  }

  /**
   The registry's distinct course count never exceeds the enrollment count that
   parents see as the number of courses, and the two agree exactly when the
   student has no two enrollments in one course.
   */
  lemma CourseCountsAgree(sc: School, t: StudentId)
    requires Sound(sc)
    ensures |RegistryCourses(sc, t)| <= |Own(sc, t)|
    ensures |RegistryCourses(sc, t)| == |Own(sc, t)|
            <==> forall d, e :: d in Own(sc, t) && e in Own(sc, t) && CourseOf(sc, d) == CourseOf(sc, e) ==> d == e
  {
    CoursesOfRows(sc, t);
    var h := (e: EnrollmentId) => CourseOf(sc, e);
    assert RegistryCourses(sc, t) == set e | e in Own(sc, t) :: h(e);
    ImageSize(Own(sc, t), h, RegistryCourses(sc, t));
    ImageSizeExact(Own(sc, t), h, RegistryCourses(sc, t));
  }
}
