/** Rebuilding a course's modules and lessons from the rows of one join (backend/app/services/learning_service.py). */
module CourseTree {
  import opened Text

  type ModuleId = nat
  type LessonId = nat

  datatype Lesson = Lesson(id: LessonId, title: string, position: int)

  /** A row of `modules LEFT JOIN lessons`: a module without lessons comes with no lesson. */
  datatype JoinRow = JoinRow(id: ModuleId, title: string, position: int, lesson: Option<Lesson>)

  datatype ModuleItem = ModuleItem(id: ModuleId, title: string, position: int, lessons: seq<Lesson>)

  // ── What the rows say ──────────────────────────────────────────────────

  predicate Named(rows: seq<JoinRow>, m: ModuleId)
  {
    exists i :: 0 <= i < |rows| && rows[i].id == m
  }

  /** The modules in the order in which the rows first name them. */
  function FirstSeen(rows: seq<JoinRow>): seq<ModuleId>
  {
    if rows == [] then []
    else
      var n := |rows| - 1;
      FirstSeen(rows[..n]) + if Named(rows[..n], rows[n].id) then [] else [rows[n].id]
  }

  /** The lessons of one module, in row order. */
  function LessonsOf(rows: seq<JoinRow>, m: ModuleId): seq<Lesson>
  {
    if rows == [] then []
    else
      var n := |rows| - 1;
      LessonsOf(rows[..n], m) + if rows[n].id == m && rows[n].lesson.Some? then [rows[n].lesson.value] else []
  }

  /** Row `i` is the first to name its module. */
  ghost predicate Opens(rows: seq<JoinRow>, i: int)
    requires 0 <= i < |rows|
  {
    !Named(rows[..i], rows[i].id)
  }

  /** A module item reads as its module's first row and its module's lessons say. */
  ghost predicate Assembled(rows: seq<JoinRow>, item: ModuleItem)
  {
    && item.lessons == LessonsOf(rows, item.id)
    && exists i :: 0 <= i < |rows| && Opens(rows, i) && rows[i].id == item.id
                   && rows[i].title == item.title && rows[i].position == item.position
  }

  /** The dictionary after some rows: insertion order and contents. */
  ghost predicate Holds(rows: seq<JoinRow>, order: seq<ModuleId>, modules: map<ModuleId, ModuleItem>)
  {
    && order == FirstSeen(rows)
    && (forall m :: m in modules <==> Named(rows, m))
    && forall m :: m in modules ==> modules[m].id == m && Assembled(rows, modules[m])
  }

  // ── The loop ───────────────────────────────────────────────────────────

  lemma {:induction false} FirstSeenNames(rows: seq<JoinRow>)
    ensures forall m :: m in FirstSeen(rows) <==> Named(rows, m)
    ensures forall i, j :: 0 <= i < j < |FirstSeen(rows)| ==> FirstSeen(rows)[i] != FirstSeen(rows)[j]
  {
    if rows != [] {
      var n := |rows| - 1;
      FirstSeenNames(rows[..n]);
      forall m ensures Named(rows, m) <==> Named(rows[..n], m) || rows[n].id == m {
        NamedSnoc(rows[..n], rows[n], m);
        assert rows == rows[..n] + [rows[n]];
      }
    }
  }

  lemma NamedSnoc(rows: seq<JoinRow>, r: JoinRow, m: ModuleId)
    ensures Named(rows + [r], m) <==> Named(rows, m) || r.id == m
  {
    assert (rows + [r])[|rows|] == r;
    if Named(rows, m) {
      var i :| 0 <= i < |rows| && rows[i].id == m;
      assert (rows + [r])[i].id == m;
    }
  }

  lemma {:induction false} NoLessonsUnlessNamed(rows: seq<JoinRow>, m: ModuleId)
    requires !Named(rows, m)
    ensures LessonsOf(rows, m) == []
  {
    if rows != [] {
      var n := |rows| - 1;
      assert rows == rows[..n] + [rows[n]];
      NamedSnoc(rows[..n], rows[n], m);
      NoLessonsUnlessNamed(rows[..n], m);
    }
  }

  lemma LessonsSnoc(rows: seq<JoinRow>, r: JoinRow, m: ModuleId)
    ensures LessonsOf(rows + [r], m)
            == LessonsOf(rows, m) + if r.id == m && r.lesson.Some? then [r.lesson.value] else []
    ensures FirstSeen(rows + [r]) == FirstSeen(rows) + if Named(rows, r.id) then [] else [r.id]
  {
  }

  /** Items keep their opening row when rows are added. */
  lemma OpensStays(rows: seq<JoinRow>, r: JoinRow, item: ModuleItem)
    requires Assembled(rows, item)
    ensures Assembled(rows + [r], item.(lessons := LessonsOf(rows + [r], item.id)))
  {
  }

  /** The item of a row's module after that row. */
  function Appended(item: ModuleItem, lesson: Option<Lesson>): ModuleItem
  {
    if lesson.Some? then item.(lessons := item.lessons + [lesson.value]) else item
  }

  lemma HoldsStep(rows: seq<JoinRow>, r: JoinRow, order: seq<ModuleId>, modules: map<ModuleId, ModuleItem>)
    requires Holds(rows, order, modules)
    ensures r.id in modules ==> Holds(rows + [r], order, modules[r.id := Appended(modules[r.id], r.lesson)])
    ensures r.id !in modules ==>
              Holds(rows + [r], order + [r.id],
                    modules[r.id := Appended(ModuleItem(r.id, r.title, r.position, []), r.lesson)])
  {
    var more := rows + [r];
    LessonsSnoc(rows, r, r.id);
    forall m ensures Named(more, m) <==> Named(rows, m) || m == r.id {
      NamedSnoc(rows, r, m);
    }
    forall m | m in modules ensures Assembled(more, if m == r.id then Appended(modules[m], r.lesson) else modules[m]) {
      LessonsSnoc(rows, r, m);
      OpensStays(rows, r, modules[m]);
    }
    if r.id !in modules {
      NoLessonsUnlessNamed(rows, r.id);
      assert more[|rows|] == r && more[..|rows|] == rows;
      assert Opens(more, |rows|);
    }
  }

  /**
   The loop of `get_course_detail`, for rows in any order: each module appears
   once, in first-seen order, with its own lessons in row order.
   */
  method BuildTree(rows: seq<JoinRow>) returns (tree: seq<ModuleItem>)
    ensures IsTree(rows, tree)
  {
    var order: seq<ModuleId>, modules: map<ModuleId, ModuleItem> := [], map[];
    for k := 0 to |rows|
      invariant Holds(rows[..k], order, modules)
    {
      var r := rows[k];
      assert rows[..k + 1] == rows[..k] + [r];
      HoldsStep(rows[..k], r, order, modules);
      if r.id !in modules {
        modules, order := modules[r.id := ModuleItem(r.id, r.title, r.position, [])], order + [r.id];
      }
      if r.lesson.Some? {
        modules := modules[r.id := modules[r.id].(lessons := modules[r.id].lessons + [r.lesson.value])];
      }
    }
    assert rows[..|rows|] == rows;
    FirstSeenNames(rows);
    tree := seq(|order|, i requires 0 <= i < |order| && order[i] in modules => modules[order[i]]);
  }

  // ── The tree is the course ─────────────────────────────────────────────

  /** First-seen order: an earlier module's first row comes before a later one's. */
  lemma {:induction false} FirstSeenInOrder(rows: seq<JoinRow>, i: nat, j: nat) returns (p: nat, q: nat)
    requires i < j < |FirstSeen(rows)|
    ensures p < q < |rows| && Opens(rows, p) && Opens(rows, q)
    ensures rows[p].id == FirstSeen(rows)[i] && rows[q].id == FirstSeen(rows)[j]
  {
    var n := |rows| - 1;
    if j < |FirstSeen(rows[..n])| {
      p, q := FirstSeenInOrder(rows[..n], i, j);
    } else {
      q := n;
      p := OpeningRow(rows[..n], i);
    }
    assert rows[..n][..p] == rows[..p];
    assert q < n ==> rows[..n][..q] == rows[..q];
  }

  lemma {:induction false} OpeningRow(rows: seq<JoinRow>, i: nat) returns (p: nat)
    requires i < |FirstSeen(rows)|
    ensures p < |rows| && Opens(rows, p) && rows[p].id == FirstSeen(rows)[i]
  {
    var n := |rows| - 1;
    if i < |FirstSeen(rows[..n])| {
      p := OpeningRow(rows[..n], i);
      assert rows[..n][..p] == rows[..p];
    } else {
      p := n;
    }
  }

  /** Within a module the lessons stand in row order: an earlier lesson has an earlier row. */
  lemma {:induction false} LessonsInOrder(rows: seq<JoinRow>, m: ModuleId, i: nat, j: nat) returns (p: nat, q: nat)
    requires i < j < |LessonsOf(rows, m)|
    ensures p < q < |rows| && rows[p].id == m && rows[q].id == m
    ensures rows[p].lesson == Some(LessonsOf(rows, m)[i]) && rows[q].lesson == Some(LessonsOf(rows, m)[j])
  {
    var n := |rows| - 1;
    if j < |LessonsOf(rows[..n], m)| {
      p, q := LessonsInOrder(rows[..n], m, i, j);
    } else {
      q := n;
      p := RowOfLesson(rows[..n], m, i);
    }
  }

  lemma {:induction false} RowOfLesson(rows: seq<JoinRow>, m: ModuleId, i: nat) returns (p: nat)
    requires i < |LessonsOf(rows, m)|
    ensures p < |rows| && rows[p].id == m && rows[p].lesson == Some(LessonsOf(rows, m)[i])
  {
    var n := |rows| - 1;
    if i < |LessonsOf(rows[..n], m)| {
      p := RowOfLesson(rows[..n], m, i);
    } else {
      p := n;
    }
  }

  function Total(tree: seq<ModuleItem>): nat
  {
    if tree == [] then 0 else Total(tree[..|tree| - 1]) + |tree[|tree| - 1].lessons|
  }

  function Lessons(rows: seq<JoinRow>): seq<Lesson>
  {
    if rows == [] then []
    else
      var n := |rows| - 1;
      Lessons(rows[..n]) + if rows[n].lesson.Some? then [rows[n].lesson.value] else []
  }

  function TotalOf(rows: seq<JoinRow>, order: seq<ModuleId>): nat
  {
    if order == [] then 0 else TotalOf(rows, order[..|order| - 1]) + |LessonsOf(rows, order[|order| - 1])|
  }

  lemma {:induction false} OneMoreRow(rows: seq<JoinRow>, r: JoinRow, order: seq<ModuleId>)
    requires forall i, j :: 0 <= i < j < |order| ==> order[i] != order[j]
    ensures TotalOf(rows + [r], order) == TotalOf(rows, order) + if r.lesson.Some? && r.id in order then 1 else 0
    decreases order
  {
    if order != [] {
      var n := |order| - 1;
      OneMoreRow(rows, r, order[..n]);
      LessonsSnoc(rows, r, order[n]);
      assert r.id in order <==> r.id in order[..n] || r.id == order[n];
      assert r.id in order[..n] ==> r.id != order[n];
    }
  }

  lemma TotalSnoc(rows: seq<JoinRow>, order: seq<ModuleId>, m: ModuleId)
    ensures TotalOf(rows, order + [m]) == TotalOf(rows, order) + |LessonsOf(rows, m)|
  {
  }

  /** No lesson is lost and none is repeated: the modules' lessons add up to the lessons of the rows. */
  lemma {:induction false} LessonsAddUp(rows: seq<JoinRow>)
    ensures TotalOf(rows, FirstSeen(rows)) == |Lessons(rows)|
  {
    if rows != [] {
      var n := |rows| - 1;
      var before, r, order := rows[..n], rows[n], FirstSeen(rows[..n]);
      assert rows == before + [r];
      LessonsAddUp(before);
      FirstSeenNames(before);
      OneMoreRow(before, r, order);
      LessonsSnoc(before, r, r.id);
      if !Named(before, r.id) {
        NoLessonsUnlessNamed(before, r.id);
        TotalSnoc(rows, order, r.id);
      } else {
        assert FirstSeen(rows) == order;
      }
    }
  }

  lemma {:induction false} TreeTotal(rows: seq<JoinRow>, tree: seq<ModuleItem>)
    requires forall i :: 0 <= i < |tree| ==> tree[i].lessons == LessonsOf(rows, tree[i].id)
    ensures Total(tree) == TotalOf(rows, seq(|tree|, i requires 0 <= i < |tree| => tree[i].id))
    decreases tree
  {
    if tree != [] {
      var n := |tree| - 1;
      var ids := seq(|tree|, i requires 0 <= i < |tree| => tree[i].id);
      TreeTotal(rows, tree[..n]);
      assert ids[..n] == seq(n, i requires 0 <= i < n => tree[..n][i].id);
    }
  }

  /** The rows join the modules of the course with the lessons table. */
  ghost predicate IsJoin(rows: seq<JoinRow>, modules: set<ModuleId>, lessons: map<LessonId, ModuleId>)
  {
    && (forall m :: m in modules <==> Named(rows, m))
    && (forall i :: 0 <= i < |rows| && rows[i].lesson.Some? ==>
          rows[i].lesson.value.id in lessons && lessons[rows[i].lesson.value.id] == rows[i].id)
    && (forall i, j :: 0 <= i < j < |rows| && rows[i].lesson.Some? && rows[j].lesson.Some? ==>
          rows[i].lesson.value.id != rows[j].lesson.value.id)
    && forall l :: l in lessons && lessons[l] in modules ==>
         exists i :: 0 <= i < |rows| && rows[i].lesson.Some? && rows[i].lesson.value.id == l
  }

  ghost function LessonIds(rows: seq<JoinRow>): set<LessonId>
  {
    set i | 0 <= i < |rows| && rows[i].lesson.Some? :: rows[i].lesson.value.id
  }

  lemma {:induction false} LessonsAreDistinct(rows: seq<JoinRow>)
    requires forall i, j :: 0 <= i < j < |rows| && rows[i].lesson.Some? && rows[j].lesson.Some? ==>
               rows[i].lesson.value.id != rows[j].lesson.value.id
    ensures |Lessons(rows)| == |LessonIds(rows)|
  {
    if rows == [] {
      assert LessonIds(rows) == {};
    } else {
      var n := |rows| - 1;
      LessonsAreDistinct(rows[..n]);
      if rows[n].lesson.Some? {
        assert LessonIds(rows) == LessonIds(rows[..n]) + {rows[n].lesson.value.id} by {
          LessonIdsSnoc(rows, n);
        }
        assert rows[n].lesson.value.id !in LessonIds(rows[..n]);
      } else {
        LessonIdsSnoc(rows, n);
        assert LessonIds(rows) == LessonIds(rows[..n]);
      }
    }
  }

  lemma LessonIdsSnoc(rows: seq<JoinRow>, n: nat)
    requires n == |rows| - 1
    ensures forall l ::
              l in LessonIds(rows)
              <==> l in LessonIds(rows[..n]) || (rows[n].lesson.Some? && rows[n].lesson.value.id == l)
  {
  }

  lemma {:induction false} LessonsOfMeaning(rows: seq<JoinRow>, m: ModuleId, x: Lesson)
    ensures x in LessonsOf(rows, m) <==> exists i :: 0 <= i < |rows| && rows[i].id == m && rows[i].lesson == Some(x)
  {
    if rows != [] {
      var n := |rows| - 1;
      LessonsOfMeaning(rows[..n], m, x);
      if i :| 0 <= i < |rows| && rows[i].id == m && rows[i].lesson == Some(x) {
        assert i < n ==> rows[..n][i] == rows[i];
      }
    }
  }

  /** The items of a course's tree, as the loop leaves them. */
  ghost predicate IsTree(rows: seq<JoinRow>, tree: seq<ModuleItem>)
  {
    && |tree| == |FirstSeen(rows)|
    && forall i :: 0 <= i < |tree| ==> tree[i].id == FirstSeen(rows)[i] && Assembled(rows, tree[i])
  }

  /** The tree holds every module of the course exactly once, those without lessons included. */
  lemma TreeHasTheModules(rows: seq<JoinRow>, tree: seq<ModuleItem>, modules: set<ModuleId>,
                          lessons: map<LessonId, ModuleId>)
    requires IsJoin(rows, modules, lessons) && IsTree(rows, tree)
    ensures forall m :: m in modules <==> exists i :: 0 <= i < |tree| && tree[i].id == m
    ensures forall i, j :: 0 <= i < j < |tree| ==> tree[i].id != tree[j].id
  {
    FirstSeenNames(rows);
    forall m | m in modules ensures exists i :: 0 <= i < |tree| && tree[i].id == m {
      var i :| 0 <= i < |FirstSeen(rows)| && FirstSeen(rows)[i] == m;
      assert tree[i].id == m;
    }
  }

  /** A lesson is under a module of the tree exactly when it belongs there. */
  lemma LessonsAreAtHome(rows: seq<JoinRow>, tree: seq<ModuleItem>, modules: set<ModuleId>,
                         lessons: map<LessonId, ModuleId>, i: nat, l: LessonId)
    requires IsJoin(rows, modules, lessons) && IsTree(rows, tree) && i < |tree|
    ensures (exists x :: x in tree[i].lessons && x.id == l) <==> l in lessons && lessons[l] == tree[i].id
  {
    var m := tree[i].id;
    forall x | x in tree[i].lessons && x.id == l ensures l in lessons && lessons[l] == m {
      LessonsOfMeaning(rows, m, x);
    }
    if l in lessons && lessons[l] == m {
      FirstSeenNames(rows);
      assert FirstSeen(rows)[i] in FirstSeen(rows);
      var k :| 0 <= k < |rows| && rows[k].lesson.Some? && rows[k].lesson.value.id == l;
      LessonsOfMeaning(rows, m, rows[k].lesson.value);
    }
  }

  /** The lessons that the rows carry are those of the course's modules. */
  lemma RowsCarryTheLessons(rows: seq<JoinRow>, modules: set<ModuleId>, lessons: map<LessonId, ModuleId>, l: LessonId)
    requires IsJoin(rows, modules, lessons)
    ensures l in LessonIds(rows) <==> l in lessons && lessons[l] in modules
  {
  }

  lemma LessonsCounted(rows: seq<JoinRow>, modules: set<ModuleId>, lessons: map<LessonId, ModuleId>)
    requires IsJoin(rows, modules, lessons)
    ensures |Lessons(rows)| == |set l | l in lessons && lessons[l] in modules|
  {
    LessonsAreDistinct(rows);
    var ofCourse := set l | l in lessons && lessons[l] in modules;
    forall l ensures l in LessonIds(rows) <==> l in ofCourse {
      RowsCarryTheLessons(rows, modules, lessons, l);
    }
    assert LessonIds(rows) == ofCourse;
  }

  lemma TreeTotalsItsRows(rows: seq<JoinRow>, tree: seq<ModuleItem>)
    requires IsTree(rows, tree)
    ensures Total(tree) == TotalOf(rows, FirstSeen(rows))
  {
    TreeTotal(rows, tree);
    assert seq(|tree|, i requires 0 <= i < |tree| => tree[i].id) == FirstSeen(rows);
  }

  /** The lessons of the tree total the `lessons_count` that another query counts. */
  lemma TreeTotalsTheLessonCount(rows: seq<JoinRow>, tree: seq<ModuleItem>,
                                 modules: set<ModuleId>, lessons: map<LessonId, ModuleId>)
    requires IsJoin(rows, modules, lessons) && IsTree(rows, tree)
    ensures Total(tree) == |set l | l in lessons && lessons[l] in modules|
  {
    LessonsAddUp(rows);
    TreeTotalsItsRows(rows, tree);
    LessonsCounted(rows, modules, lessons);
  }
}
