/**
 What a reader of an anonymized file sees beyond the column that the reported k
 is about: the masked email and phone (worker/internal/anonymizer/anonymizer.go).
 */
module Visibility {
  import opened Text
  import opened Dates
  import opened Records
  import opened Columns
  import opened KAnonymity
  import opened Transform
  import opened Validation
  import opened Anonymizer

  /** A record without its running number: quasi-identifier, email mask, phone mask. */
  function VisibleColumn(rows: seq<CsvRow>): (keys: seq<(string, string, string)>)
    requires forall i :: 0 <= i < |rows| ==> |rows[i]| == 4
    ensures |keys| == |rows|
  {
    seq(|rows|, i requires 0 <= i < |rows| => (rows[i][3], rows[i][1], rows[i][2]))
  }

  /** The k over everything visible is never above the reported one, and there are no fewer classes. */
  lemma ReportedKIsAnUpperBound(rows: seq<CsvRow>, reported: nat, visible: nat)
    requires forall i :: 0 <= i < |rows| ==> |rows[i]| == 4
    requires IsK(QuasiColumn(rows), reported) && IsK(VisibleColumn(rows), visible)
    ensures visible <= reported
    ensures |Classes(QuasiColumn(rows))| <= |Classes(VisibleColumn(rows))|
  {
    CoarseningNeverLowersK(VisibleColumn(rows), QuasiColumn(rows), visible, reported);
  }

  /** The k of a column is at least `bound` exactly when every record is one of at least that many alike. */
  lemma {:induction false} AtLeast<T>(keys: seq<T>, k: nat, bound: nat)
    requires keys != [] && IsK(keys, k)
    ensures bound <= k <==> forall i :: 0 <= i < |keys| ==> bound <= |Positions(keys, keys[i])|
  {
    forall i | 0 <= i < |keys| ensures k <= |Positions(keys, keys[i])| {
      ClassSizeIsPositions(keys, keys[i]);
      assert keys[i] in keys;
    }
    var x :| x in keys && ClassSize(keys, x) == k;
    var i :| 0 <= i < |keys| && keys[i] == x;
    ClassSizeIsPositions(keys, x);
  }

  // ── What each cell shows, told on the stored texts ─────────────────────

  ghost predicate LastTwoAt(s: string, i: int, j: int)
  {
    && 0 <= i < j < |s| && IsDigit(s[i]) && IsDigit(s[j])
    && forall k :: i < k < |s| && k != j ==> !IsDigit(s[k])
  }

  /** What is shown of a phone: its last two ASCII digits, or two stars when it has fewer. */
  ghost predicate PhoneEnd(s: string, x: string)
  {
    || (exists i, j :: LastTwoAt(s, i, j) && x == [s[i], s[j]])
    || (x == "**" && forall i, j :: 0 <= i < j < |s| ==> !IsDigit(s[i]) || !IsDigit(s[j]))
  }

  ghost predicate HidesPhone(cell: string, v: Option<string>)
  {
    if Missing(v) then cell == "" else exists x :: PhoneEnd(v.value, x) && cell == "+7 9** *** ** " + x
  }

  ghost predicate LastDot(s: string, i: int)
  {
    0 <= i < |s| && s[i] == '.' && forall k :: i < k < |s| ==> s[k] != '.'
  }

  /** What is shown of an email besides its first character: from its last dot on, if anything follows. */
  ghost predicate EmailTail(s: string, x: string)
  {
    exists i :: LastDot(s, i) && x == if i == |s| - 1 then "" else s[i..]
  }

  ghost predicate HidesEmail(cell: string, v: Option<string>)
  {
    if Missing(v) then cell == ""
    else EmailShape(v.value) ==> exists x :: EmailTail(v.value, x) && cell == [v.value[0]] + "***@***" + x
  }

  /** Of a birth date the cell shows five years, beginning with a multiple of five, that contain it. */
  ghost predicate HidesBirth(cell: string, v: Option<Date>)
  {
    match v
    case None => cell == "*"
    case Some(d) =>
      exists a :: cell == Itoa(a) + "-" + Itoa(a + 4) && a % 5 == 0
        && (d.year >= 0 || d.year % 5 == 0 ==> a <= d.year <= a + 4)
  }

  /** A row of the students' file: running number, email, phone, birth; nothing of the id and the names. */
  ghost predicate HidesStudent(row: CsvRow, i: nat, d: StudentData)
  {
    && |row| == 4 && row[0] == Itoa(i + 1)
    && HidesEmail(row[1], d.email) && HidesPhone(row[2], d.phone) && HidesBirth(row[3], d.birth)
  }

  ghost predicate HidesGuardian(row: CsvRow, i: nat, d: GuardianData)
  {
    && |row| == 4 && row[0] == Itoa(i + 1)
    && HidesEmail(row[1], d.email) && HidesPhone(row[2], d.phone)
    && row[3] == if Missing(d.relation) then "*" else d.relation.value
  }

  /** Where the last digit is. */
  lemma {:induction false} LastDigitAt(s: string) returns (i: nat)
    requires DigitsOf(s) != ""
    ensures i < |s| && IsDigit(s[i]) && s[i] == DigitsOf(s)[|DigitsOf(s)| - 1]
    ensures forall k :: i < k < |s| ==> !IsDigit(s[k])
  {
    if IsDigit(s[|s| - 1]) {
      i := |s| - 1;
    } else {
      i := LastDigitAt(s[..|s| - 1]);
    }
  }

  lemma {:induction false} NoDigits(s: string)
    requires DigitsOf(s) == ""
    ensures forall i :: 0 <= i < |s| ==> !IsDigit(s[i])
  {
    if s != "" {
      NoDigits(s[..|s| - 1]);
    }
  }

  ghost predicate LastTwo(s: string, a: char, b: char)
  {
    exists i, j :: LastTwoAt(s, i, j) && s[i] == a && s[j] == b
  }

  /** The collected digits end in the last two of the text, if there are two. */
  lemma {:induction false} DigitsEnd(s: string)
    ensures var d := DigitsOf(s);
            if |d| < 2 then forall i, j :: 0 <= i < j < |s| ==> !IsDigit(s[i]) || !IsDigit(s[j])
            else LastTwo(s, d[|d| - 2], d[|d| - 1])
  {
    if s != "" {
      var n := |s| - 1;
      DigitsEnd(s[..n]);
      var d, e := DigitsOf(s), DigitsOf(s[..n]);
      if IsDigit(s[n]) {
        if e == "" {
          NoDigits(s[..n]);
        } else {
          var i := LastDigitAt(s[..n]);
          assert LastTwoAt(s, i, n);
        }
      } else if |d| >= 2 {
        var i, j :| LastTwoAt(s[..n], i, j) && s[..n][i] == d[|d| - 2] && s[..n][j] == d[|d| - 1];
        assert LastTwoAt(s, i, j);
      }
    }
  }

  lemma PhoneEndShown(s: string)
    ensures var d := DigitsOf(s); PhoneEnd(s, if |d| < 2 then "**" else d[|d| - 2..])
  {
    DigitsEnd(s);
    var d := DigitsOf(s);
    if |d| >= 2 {
      assert d[|d| - 2..] == [d[|d| - 2], d[|d| - 1]];
    }
  }

  lemma PhoneIsHidden(v: Option<string>)
    ensures HidesPhone(MaskedPhone(v), v)
  {
    if !Missing(v) {
      PhoneEndShown(v.value);
    }
  }

  lemma DotOfEmail(v: string)
    requires EmailShape(v)
    ensures LastDot(v, LastIndex(v, '.'))
  {
  }

  lemma MaskAroundDot(v: string, i: nat)
    requires i < |v| && v[i] == '.'
    ensures PlainMask(v[0], v[i + 1..]) == [v[0]] + "***@***" + if i == |v| - 1 then "" else v[i..]
  {
    assert v[i..] == "." + v[i + 1..];
    assert [v[0]] + "***@***." + v[i + 1..] == [v[0]] + "***@***" + ("." + v[i + 1..]);
  }

  lemma EmailShown(v: string)
    requires EmailShape(v)
    ensures exists x :: EmailTail(v, x) && MaskEmail(v) == [v[0]] + "***@***" + x
  {
    EmailPatternShape(v);
    ValidEmailMask(v);
    DotOfEmail(v);
    var i := LastIndex(v, '.');
    MaskAroundDot(v, i);
    assert EmailTail(v, if i == |v| - 1 then "" else v[i..]);
  }

  lemma EmailIsHidden(v: Option<string>)
    ensures HidesEmail(MaskedEmail(v), v)
  {
    if !Missing(v) && EmailShape(v.value) {
      EmailShown(v.value);
    }
  }

  lemma BirthIsHidden(d: StudentData)
    ensures HidesBirth(BirthKey(d, true), d.birth)
  {
    if d.birth.Some? {
      BandContainsYear(d.birth.value.year);
    }
  }

  /** Every row of the two files, cell by cell. */
  lemma StudentRowHides(students: seq<StudentRow>, i: nat)
    requires i < |students|
    ensures HidesStudent(MaskedStudents(students)[i], i, students[i].data)
  {
    EmailIsHidden(students[i].data.email);
    PhoneIsHidden(students[i].data.phone);
    BirthIsHidden(students[i].data);
  }

  lemma GuardianRowHides(guardians: seq<GuardianRow>, i: nat)
    requires i < |guardians|
    ensures HidesGuardian(MaskedGuardians(guardians)[i], i, guardians[i].data)
  {
    EmailIsHidden(guardians[i].data.email);
    PhoneIsHidden(guardians[i].data.phone);
  }

  // ── What a file depends on ─────────────────────────────────────────────

  /** Both missing, or both there and alike in the way told. */
  ghost predicate AlikePhones(v: Option<string>, w: Option<string>)
  {
    (Missing(v) <==> Missing(w)) && (!Missing(v) ==> exists x :: PhoneEnd(v.value, x) && PhoneEnd(w.value, x))
  }

  ghost predicate AlikeEmails(v: Option<string>, w: Option<string>)
  {
    && (Missing(v) <==> Missing(w))
    && (!Missing(v) ==> v.value[0] == w.value[0] && exists x :: EmailTail(v.value, x) && EmailTail(w.value, x))
  }

  ghost predicate AlikeBirths(v: Option<Date>, w: Option<Date>)
  {
    (v.None? <==> w.None?) && (v.Some? ==> BandStart(v.value.year) == BandStart(w.value.year))
  }

  ghost predicate AlikeStudents(d: StudentData, e: StudentData)
  {
    AlikeEmails(d.email, e.email) && AlikePhones(d.phone, e.phone) && AlikeBirths(d.birth, e.birth)
  }

  ghost predicate AlikeGuardians(d: GuardianData, e: GuardianData)
  {
    && AlikeEmails(d.email, e.email) && AlikePhones(d.phone, e.phone)
    && RelationKey(d) == RelationKey(e)
  }

  /** An email column as the import leaves it. */
  ghost predicate Mailable(v: Option<string>)
  {
    Missing(v) || EmailShape(v.value)
  }

  lemma PhoneEndUnique(s: string, x: string, y: string)
    requires PhoneEnd(s, x) && PhoneEnd(s, y)
    ensures x == y
  {
    if i, j :| LastTwoAt(s, i, j) && x == [s[i], s[j]] {
      if k, l :| LastTwoAt(s, k, l) && y == [s[k], s[l]] {
        assert i == k && j == l;
      }
    }
  }

  lemma EmailTailUnique(s: string, x: string, y: string)
    requires EmailTail(s, x) && EmailTail(s, y)
    ensures x == y
  {
    var i :| LastDot(s, i) && x == if i == |s| - 1 then "" else s[i..];
    var j :| LastDot(s, j) && y == if j == |s| - 1 then "" else s[j..];
    assert i == j;
  }

  lemma SamePrefix(a: string, x: string, y: string)
    ensures a + x == a + y <==> x == y
  {
    assert (a + x)[|a|..] == x && (a + y)[|a|..] == y;
  }

  /** Two phone cells are equal exactly when they hide phones that end alike. */
  lemma PhoneCells(c: string, d: string, v: Option<string>, w: Option<string>)
    requires HidesPhone(c, v) && HidesPhone(d, w)
    ensures c == d <==> AlikePhones(v, w)
  {
    if !Missing(v) && !Missing(w) {
      var x :| PhoneEnd(v.value, x) && c == "+7 9** *** ** " + x;
      var y :| PhoneEnd(w.value, y) && d == "+7 9** *** ** " + y;
      SamePrefix("+7 9** *** ** ", x, y);
      if z :| PhoneEnd(v.value, z) && PhoneEnd(w.value, z) {
        PhoneEndUnique(v.value, x, z);
        PhoneEndUnique(w.value, y, z);
      }
    }
  }

  /** Two email cells are equal exactly when they hide emails that begin and end alike. */
  lemma EmailCells(c: string, d: string, v: Option<string>, w: Option<string>)
    requires HidesEmail(c, v) && HidesEmail(d, w) && Mailable(v) && Mailable(w)
    ensures c == d <==> AlikeEmails(v, w)
  {
    if !Missing(v) && !Missing(w) {
      var x :| EmailTail(v.value, x) && c == [v.value[0]] + "***@***" + x;
      var y :| EmailTail(w.value, y) && d == [w.value[0]] + "***@***" + y;
      assert c[0] == v.value[0] && d[0] == w.value[0];
      SamePrefix([v.value[0]] + "***@***", x, y);
      if z :| EmailTail(v.value, z) && EmailTail(w.value, z) {
        EmailTailUnique(v.value, x, z);
        EmailTailUnique(w.value, y, z);
      }
    }
  }

  lemma BirthCells(d: StudentData, e: StudentData)
    ensures BirthKey(d, true) == BirthKey(e, true) <==> AlikeBirths(d.birth, e.birth)
  {
    if d.birth.Some? && e.birth.Some? {
      LabelDeterminesBand(d.birth.value, e.birth.value);
    }
    if d.birth.Some? {
      SuppressionIsItsOwnClass(d.birth.value);
    }
    if e.birth.Some? {
      SuppressionIsItsOwnClass(e.birth.value);
    }
  }

  lemma StudentRowsAgree(students: seq<StudentRow>, others: seq<StudentRow>, i: nat)
    requires i < |students| && i < |others| && Mailable(students[i].data.email) && Mailable(others[i].data.email)
    ensures MaskedStudents(students)[i] == MaskedStudents(others)[i]
            <==> AlikeStudents(students[i].data, others[i].data)
  {
    var r, q, d, e := MaskedStudents(students)[i], MaskedStudents(others)[i], students[i].data, others[i].data;
    StudentRowHides(students, i);
    StudentRowHides(others, i);
    EmailCells(r[1], q[1], d.email, e.email);
    PhoneCells(r[2], q[2], d.phone, e.phone);
    BirthCells(d, e);
    assert r == q <==> r[1] == q[1] && r[2] == q[2] && r[3] == q[3];
  }

  /**
   Exactly what the students' file depends on: two lists of students make the
   same file if and only if, position by position, the emails begin and end
   alike, the phones end alike and the births share their band. Ids, names and
   the rest of these texts can be anything.
   */
  lemma StudentFilesAgree(students: seq<StudentRow>, others: seq<StudentRow>)
    requires forall i :: 0 <= i < |students| ==> Mailable(students[i].data.email)
    requires forall i :: 0 <= i < |others| ==> Mailable(others[i].data.email)
    ensures MaskedStudents(students) == MaskedStudents(others)
            <==>
            && |students| == |others|
            && forall i :: 0 <= i < |students| ==> AlikeStudents(students[i].data, others[i].data)
  {
    if |students| == |others| {
      forall i | 0 <= i < |students|
        ensures MaskedStudents(students)[i] == MaskedStudents(others)[i]
                <==> AlikeStudents(students[i].data, others[i].data)
      {
        StudentRowsAgree(students, others, i);
      }
    }
  }

  lemma GuardianRowsAgree(guardians: seq<GuardianRow>, others: seq<GuardianRow>, i: nat)
    requires i < |guardians| && i < |others| && Mailable(guardians[i].data.email) && Mailable(others[i].data.email)
    ensures MaskedGuardians(guardians)[i] == MaskedGuardians(others)[i]
            <==> AlikeGuardians(guardians[i].data, others[i].data)
  {
    var r, q, d, e := MaskedGuardians(guardians)[i], MaskedGuardians(others)[i], guardians[i].data, others[i].data;
    GuardianRowHides(guardians, i);
    GuardianRowHides(others, i);
    EmailCells(r[1], q[1], d.email, e.email);
    PhoneCells(r[2], q[2], d.phone, e.phone);
    assert r == q <==> r[1] == q[1] && r[2] == q[2] && r[3] == q[3];
  }

  /** The same for guardians, with the relation in place of the birth. */
  lemma GuardianFilesAgree(guardians: seq<GuardianRow>, others: seq<GuardianRow>)
    requires forall i :: 0 <= i < |guardians| ==> Mailable(guardians[i].data.email)
    requires forall i :: 0 <= i < |others| ==> Mailable(others[i].data.email)
    ensures MaskedGuardians(guardians) == MaskedGuardians(others)
            <==>
            && |guardians| == |others|
            && forall i :: 0 <= i < |guardians| ==> AlikeGuardians(guardians[i].data, others[i].data)
  {
    if |guardians| == |others| {
      forall i | 0 <= i < |guardians|
        ensures MaskedGuardians(guardians)[i] == MaskedGuardians(others)[i]
                <==> AlikeGuardians(guardians[i].data, others[i].data)
      {
        GuardianRowsAgree(guardians, others, i);
      }
    }
  }

  // ── Students ───────────────────────────────────────────────────────────

  /** The students whose rows differ from student `i`'s in the running number only. */
  ghost function StudentsLike(students: seq<StudentRow>, i: nat): set<nat>
    requires i < |students|
  {
    set j | 0 <= j < |students|
      && BirthKey(students[j].data, true) == BirthKey(students[i].data, true)
      && MaskedEmail(students[j].data.email) == MaskedEmail(students[i].data.email)
      && MaskedPhone(students[j].data.phone) == MaskedPhone(students[i].data.phone)
  }

  /**
   The reported k of a release of students is the visible one exactly when the
   masks split no band into a part smaller than the reported k.
   */
  lemma StudentKIsVisible(students: seq<StudentRow>, reported: nat, visible: nat)
    requires IsK(QuasiColumn(MaskedStudents(students)), reported)
    requires IsK(VisibleColumn(MaskedStudents(students)), visible)
    ensures visible <= reported
    ensures visible == reported <==> forall i :: 0 <= i < |students| ==> reported <= |StudentsLike(students, i)|
  {
    var keys := VisibleColumn(MaskedStudents(students));
    ReportedKIsAnUpperBound(MaskedStudents(students), reported, visible);
    if students != [] {
      AtLeast(keys, visible, reported);
      forall i | 0 <= i < |students| ensures Positions(keys, keys[i]) == StudentsLike(students, i) {
      }
    }
  }

  /** Students of one band whose email masks all differ: one class to the report, singletons to a reader. */
  lemma OneBandAllDifferent(students: seq<StudentRow>, band: string)
    requires students != [] && forall i :: 0 <= i < |students| ==> BirthKey(students[i].data, true) == band
    requires forall i, j :: 0 <= i < j < |students| ==>
               MaskedEmail(students[i].data.email) != MaskedEmail(students[j].data.email)
    ensures IsK(QuasiColumn(MaskedStudents(students)), |students|)
    ensures IsK(VisibleColumn(MaskedStudents(students)), 1)
  {
    ConstantColumn(QuasiColumn(MaskedStudents(students)), band);
    var keys := VisibleColumn(MaskedStudents(students));
    forall i, j | 0 <= i < j < |keys| ensures keys[i] != keys[j] {
      assert keys[i].1 == MaskedEmail(students[i].data.email) && keys[j].1 == MaskedEmail(students[j].data.email);
    }
    DistinctColumn(keys);
  }

  const MAY := Day(2012, 5, 17)

  function EmailOf(c: char): string
  {
    [c] + "@x.ru"
  }

  /** A student told from others by one letter of id and email. */
  function Pupil(c: char): StudentRow
  {
    Row("00000000-0000-4000-8000-00000000000" + [c],
        StudentData("Last", "First", None, Some(EmailOf(c)), None, Some(MAY)))
  }

  /** The id and the email are ones that the import accepts. */
  ghost predicate WellFormed(r: StudentRow)
  {
    IsUuid(r.id) && r.data.email.Some? && MatchesEmail(r.data.email.value)
  }

  function Pupils(letters: string): (students: seq<StudentRow>)
    ensures |students| == |letters|
  {
    seq(|letters|, i requires 0 <= i < |letters| => Pupil(letters[i]))
  }

  lemma PupilEmail(c: char)
    requires 'a' <= c <= 'e'
    ensures MatchesEmail(EmailOf(c)) && |MaskEmail(EmailOf(c))| > 0 && MaskEmail(EmailOf(c))[0] == c
  {
    var v := EmailOf(c);
    assert v[1] == '@' && v[3] == '.' && Plain(v[..1]) && Plain(v[2..3]) && Plain(v[4..]);
    ValidEmailMask(v);
  }

  lemma PupilId(c: char)
    requires 'a' <= c <= 'e'
    ensures IsUuid(Pupil(c).id)
  {
  }

  lemma PupilsDiffer(letters: string, i: nat, j: nat)
    requires i < j < |letters| && letters[i] != letters[j]
    requires forall k :: 0 <= k < |letters| ==> 'a' <= letters[k] <= 'e'
    ensures MaskedEmail(Pupils(letters)[i].data.email) != MaskedEmail(Pupils(letters)[j].data.email)
  {
    PupilEmail(letters[i]);
    PupilEmail(letters[j]);
  }

  /** Any number of such students have one reported class, and everyone stands alone in the file. */
  lemma PupilsStandAlone(letters: string)
    requires letters != "" && forall k :: 0 <= k < |letters| ==> 'a' <= letters[k] <= 'e'
    requires forall i, j :: 0 <= i < j < |letters| ==> letters[i] != letters[j]
    ensures IsK(QuasiColumn(MaskedStudents(Pupils(letters))), |letters|)
    ensures IsK(VisibleColumn(MaskedStudents(Pupils(letters))), 1)
  {
    forall i, j | 0 <= i < j < |letters|
      ensures MaskedEmail(Pupils(letters)[i].data.email) != MaskedEmail(Pupils(letters)[j].data.email)
    {
      PupilsDiffer(letters, i, j);
    }
    OneBandAllDifferent(Pupils(letters), GeneralizeBirth(MAY));
  }

  /**
   Five students with valid ids and emails, born on one day: the reported k is
   five, which is compliant, and the file shows everyone alone.
   */
  lemma ReportedKCanExceedVisibleK()
    ensures exists students: seq<StudentRow> ::
              && |students| == K_THRESHOLD
              && (forall i :: 0 <= i < |students| ==> WellFormed(students[i]))
              && IsK(QuasiColumn(MaskedStudents(students)), K_THRESHOLD)
              && IsK(VisibleColumn(MaskedStudents(students)), 1)
  {
    var letters := "abcde";
    PupilsStandAlone(letters);
    var students := Pupils(letters);
    forall i | 0 <= i < |students| ensures WellFormed(students[i]) {
      PupilId(letters[i]);
      PupilEmail(letters[i]);
    }
  }

  // ── Guardians ──────────────────────────────────────────────────────────

  ghost function GuardiansLike(guardians: seq<GuardianRow>, i: nat): set<nat>
    requires i < |guardians|
  {
    set j | 0 <= j < |guardians|
      && RelationKey(guardians[j].data) == RelationKey(guardians[i].data)
      && MaskedEmail(guardians[j].data.email) == MaskedEmail(guardians[i].data.email)
      && MaskedPhone(guardians[j].data.phone) == MaskedPhone(guardians[i].data.phone)
  }

  /** The same for guardians and their relation. */
  lemma GuardianKIsVisible(guardians: seq<GuardianRow>, reported: nat, visible: nat)
    requires IsK(QuasiColumn(MaskedGuardians(guardians)), reported)
    requires IsK(VisibleColumn(MaskedGuardians(guardians)), visible)
    ensures visible <= reported
    ensures visible == reported <==> forall i :: 0 <= i < |guardians| ==> reported <= |GuardiansLike(guardians, i)|
  {
    var keys := VisibleColumn(MaskedGuardians(guardians));
    ReportedKIsAnUpperBound(MaskedGuardians(guardians), reported, visible);
    if guardians != [] {
      AtLeast(keys, visible, reported);
      forall i | 0 <= i < |guardians| ensures Positions(keys, keys[i]) == GuardiansLike(guardians, i) {
      }
    }
  }
}
