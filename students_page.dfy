/** The enrolled-students page, src/pages/AlumnosMatriculados.tsx: every
    student found on a course roster, once, with the level and section of
    the first course listing them and the number of rosters listing them;
    the levels present; the count per level; and the search filter. */
module StudentsPage {
  import opened Domain
  import opened Lists
  import Text

  datatype EnrolledStudent = EnrolledStudent(
    id: string,
    name: string,
    dni: string,
    email: string,
    level: string,
    section: string,
    coursesCount: nat,
    phone: string)

  /** One roster entry with the level and section of its course. */
  datatype Placement = Placement(student: Student, level: string, section: string)

  /** The demo phone number shown for a student id. */
  function PhoneFor(id: string): (phone: string)
    ensures id == "s1" ==> phone == "+51 987654321"
    ensures id == "s2" ==> phone == "+51 987654322"
    ensures id == "s3" ==> phone == "+51 987654323"
    ensures id != "s1" && id != "s2" && id != "s3" ==> phone == "+51 987654300"
  {
    if id == "s1" then "+51 987654321"
    else if id == "s2" then "+51 987654322"
    else if id == "s3" then "+51 987654323"
    else "+51 987654300"
  }

  /** The entry made from a student's first roster entry. */
  function Entry(p: Placement, count: nat): EnrolledStudent
  {
    EnrolledStudent(p.student.id, p.student.name, p.student.dni, p.student.email,
                    p.level, p.section, count, PhoneFor(p.student.id))
  }

  function PlacementsOf(c: Course): (ps: seq<Placement>)
    ensures |ps| == |c.students|
    ensures forall j :: 0 <= j < |ps| ==> ps[j] == Placement(c.students[j], c.level, c.section)
  {
    seq(|c.students|, j requires 0 <= j < |c.students| => Placement(c.students[j], c.level, c.section))
  }

  /** Every roster entry, course by course, in list order. */
  function Placements(courses: seq<Course>): seq<Placement>
  {
    if courses == [] then []
    else Placements(courses[..|courses| - 1]) + PlacementsOf(courses[|courses| - 1])
  }

  /** The test "this roster entry is for student `id`". */
  function ForStudent(id: string): Placement -> bool {
    (p: Placement) => p.student.id == id
  }

  /** The test "this entry carries student id `id`". */
  function EntryFor(id: string): EnrolledStudent -> bool {
    (e: EnrolledStudent) => e.id == id
  }

  /** The first roster entry for a student id, or -1. */
  function FirstPos(ps: seq<Placement>, id: string): int
  {
    FindIndex(ps, ForStudent(id))
  }

  /** How many roster entries carry a student id. */
  function Occurrences(ps: seq<Placement>, id: string): nat
  {
    Count(ps, ForStudent(id))
  }

  /** One step of the map update: a student seen before has their course
      count raised in place; a new one is added at the end. */
  function AddPlacement(r: seq<EnrolledStudent>, p: Placement): seq<EnrolledStudent>
  {
    var k := FindIndex(r, EntryFor(p.student.id));
    if k >= 0 then r[k := r[k].(coursesCount := r[k].coursesCount + 1)] else r + [Entry(p, 1)]
  }

  /** The entries, in insertion order, after visiting the roster entries. */
  function Enrolled(ps: seq<Placement>): seq<EnrolledStudent>
  {
    if ps == [] then [] else AddPlacement(Enrolled(ps[..|ps| - 1]), ps[|ps| - 1])
  }

  predicate DistinctIds(r: seq<EnrolledStudent>) {
    forall a, b :: 0 <= a < b < |r| ==> r[a].id != r[b].id
  }

  /** Some entry has this id. */
  ghost predicate Listed(r: seq<EnrolledStudent>, id: string) {
    exists a :: 0 <= a < |r| && r[a].id == id
  }

  ghost predicate Covers(ps: seq<Placement>, r: seq<EnrolledStudent>) {
    forall k :: 0 <= k < |ps| ==> Listed(r, ps[k].student.id)
  }

  predicate CountsRight(ps: seq<Placement>, r: seq<EnrolledStudent>) {
    forall a :: 0 <= a < |r| ==> r[a].coursesCount == Occurrences(ps, r[a].id)
  }

  predicate FromFirst(ps: seq<Placement>, e: EnrolledStudent) {
    0 <= FirstPos(ps, e.id) < |ps| && e == Entry(ps[FirstPos(ps, e.id)], e.coursesCount)
  }

  predicate FirstFields(ps: seq<Placement>, r: seq<EnrolledStudent>) {
    forall a :: 0 <= a < |r| ==> FromFirst(ps, r[a])
  }

  predicate FirstOrder(ps: seq<Placement>, r: seq<EnrolledStudent>) {
    forall a, b :: 0 <= a < b < |r| ==> FirstPos(ps, r[a].id) < FirstPos(ps, r[b].id)
  }

  /** What the list of entries means: ids are distinct; every roster id has
      an entry; each entry counts the roster entries with its id and takes
      its other fields from the first of them; entries are in the order of
      their ids' first appearance. */
  ghost predicate Describes(ps: seq<Placement>, r: seq<EnrolledStudent>) {
    DistinctIds(r) && Covers(ps, r) && CountsRight(ps, r) && FirstFields(ps, r) && FirstOrder(ps, r)
  }

  lemma FirstPosSnoc(ps: seq<Placement>, p: Placement, id: string)
    ensures FirstPos(ps + [p], id) == if FirstPos(ps, id) >= 0 then FirstPos(ps, id) else if p.student.id == id then |ps| else -1
  {
    FindIndexSnoc(ps, p, ForStudent(id));
  }

  lemma OccurrencesSnoc(ps: seq<Placement>, p: Placement, id: string)
    ensures Occurrences(ps + [p], id) == Occurrences(ps, id) + (if p.student.id == id then 1 else 0)
  {
    CountSnoc(ps, p, ForStudent(id));
  }

  /** An entry that came from the first roster entry with its id still
      does after more roster entries are visited. */
  lemma FromFirstSnoc(ps: seq<Placement>, p: Placement, e: EnrolledStudent, count: nat)
    requires FromFirst(ps, e)
    ensures FromFirst(ps + [p], e.(coursesCount := count))
  {
    FirstPosSnoc(ps, p, e.id);
    assert (ps + [p])[FirstPos(ps, e.id)] == ps[FirstPos(ps, e.id)];
  }

  lemma AddSeenCounts(ps: seq<Placement>, r: seq<EnrolledStudent>, p: Placement, k: nat)
    requires CountsRight(ps, r) && DistinctIds(r) && k < |r| && r[k].id == p.student.id
    ensures CountsRight(ps + [p], r[k := r[k].(coursesCount := r[k].coursesCount + 1)])
  {
    var r' := r[k := r[k].(coursesCount := r[k].coursesCount + 1)];
    forall a | 0 <= a < |r'| ensures r'[a].coursesCount == Occurrences(ps + [p], r'[a].id) {
      OccurrencesSnoc(ps, p, r[a].id);
    }
  }

  lemma AddSeenFields(ps: seq<Placement>, r: seq<EnrolledStudent>, p: Placement, k: nat)
    requires FirstFields(ps, r) && k < |r|
    ensures FirstFields(ps + [p], r[k := r[k].(coursesCount := r[k].coursesCount + 1)])
  {
    var r' := r[k := r[k].(coursesCount := r[k].coursesCount + 1)];
    forall a | 0 <= a < |r'| ensures FromFirst(ps + [p], r'[a]) {
      FromFirstSnoc(ps, p, r[a], r'[a].coursesCount);
      assert r'[a] == r[a].(coursesCount := r'[a].coursesCount);
    }
  }

  lemma AddSeenOrder(ps: seq<Placement>, r: seq<EnrolledStudent>, p: Placement, k: nat)
    requires FirstOrder(ps, r) && FirstFields(ps, r) && k < |r|
    ensures FirstOrder(ps + [p], r[k := r[k].(coursesCount := r[k].coursesCount + 1)])
  {
    var r' := r[k := r[k].(coursesCount := r[k].coursesCount + 1)];
    forall a | 0 <= a < |r| ensures FirstPos(ps + [p], r'[a].id) == FirstPos(ps, r[a].id) {
      assert FromFirst(ps, r[a]);
      FirstPosSnoc(ps, p, r[a].id);
    }
  }

  lemma AddSeenCovers(ps: seq<Placement>, r: seq<EnrolledStudent>, p: Placement, k: nat)
    requires Covers(ps, r) && k < |r| && r[k].id == p.student.id
    ensures Covers(ps + [p], r[k := r[k].(coursesCount := r[k].coursesCount + 1)])
  {
    var ps' := ps + [p];
    var r' := r[k := r[k].(coursesCount := r[k].coursesCount + 1)];
    forall k' | 0 <= k' < |ps'| ensures Listed(r', ps'[k'].student.id) {
      if k' == |ps| {
        assert r'[k].id == ps'[k'].student.id;
      } else {
        assert ps'[k'] == ps[k'];
        var a :| 0 <= a < |r| && r[a].id == ps[k'].student.id;
        assert r'[a].id == ps'[k'].student.id;
      }
    }
  }

  /** After visiting a roster entry whose student already has an entry. */
  lemma AddSeen(ps: seq<Placement>, r: seq<EnrolledStudent>, p: Placement, k: nat)
    requires Describes(ps, r) && k < |r| && r[k].id == p.student.id
    ensures Describes(ps + [p], r[k := r[k].(coursesCount := r[k].coursesCount + 1)])
  {
    var r' := r[k := r[k].(coursesCount := r[k].coursesCount + 1)];
    assert DistinctIds(r') by {
      assert forall a :: 0 <= a < |r| ==> r'[a].id == r[a].id;
    }
    AddSeenCounts(ps, r, p, k);
    AddSeenFields(ps, r, p, k);
    AddSeenOrder(ps, r, p, k);
    AddSeenCovers(ps, r, p, k);
  }

  /** A student with no entry has no roster entry among those visited. */
  lemma NotListedNotVisited(ps: seq<Placement>, r: seq<EnrolledStudent>, id: string)
    requires Covers(ps, r) && forall a :: 0 <= a < |r| ==> r[a].id != id
    ensures FirstPos(ps, id) == -1 && Occurrences(ps, id) == 0
  {
    forall k | 0 <= k < |ps| ensures ps[k].student.id != id {
      assert Listed(r, ps[k].student.id);
    }
    FilterNone(ps, ForStudent(id));
  }

  lemma AddNewCounts(ps: seq<Placement>, r: seq<EnrolledStudent>, p: Placement)
    requires CountsRight(ps, r) && Occurrences(ps, p.student.id) == 0
    requires forall a :: 0 <= a < |r| ==> r[a].id != p.student.id
    ensures CountsRight(ps + [p], r + [Entry(p, 1)])
  {
    var r' := r + [Entry(p, 1)];
    forall a | 0 <= a < |r'| ensures r'[a].coursesCount == Occurrences(ps + [p], r'[a].id) {
      OccurrencesSnoc(ps, p, r'[a].id);
      if a < |r| { assert r'[a] == r[a]; } else { assert r'[a].id == p.student.id && r'[a].coursesCount == 1; }
    }
  }

  lemma AddNewFields(ps: seq<Placement>, r: seq<EnrolledStudent>, p: Placement)
    requires FirstFields(ps, r) && FirstPos(ps, p.student.id) == -1
    ensures FirstFields(ps + [p], r + [Entry(p, 1)])
  {
    var r' := r + [Entry(p, 1)];
    forall a | 0 <= a < |r'| ensures FromFirst(ps + [p], r'[a]) {
      if a < |r| {
        assert r'[a] == r[a];
        FromFirstSnoc(ps, p, r[a], r[a].coursesCount);
        assert r[a].(coursesCount := r[a].coursesCount) == r[a];
      } else {
        FirstPosSnoc(ps, p, p.student.id);
        assert (ps + [p])[|ps|] == p;
      }
    }
  }

  lemma AddNewOrder(ps: seq<Placement>, r: seq<EnrolledStudent>, p: Placement)
    requires FirstOrder(ps, r) && FirstFields(ps, r) && FirstPos(ps, p.student.id) == -1
    ensures FirstOrder(ps + [p], r + [Entry(p, 1)])
  {
    var ps' := ps + [p];
    var r' := r + [Entry(p, 1)];
    FirstPosSnoc(ps, p, p.student.id);
    forall a | 0 <= a < |r| ensures FirstPos(ps', r[a].id) == FirstPos(ps, r[a].id) < |ps| {
      assert FromFirst(ps, r[a]);
      FirstPosSnoc(ps, p, r[a].id);
    }
    forall a, b | 0 <= a < b < |r'| ensures FirstPos(ps', r'[a].id) < FirstPos(ps', r'[b].id) {
      if b < |r| {
        assert r'[a] == r[a] && r'[b] == r[b];
      } else {
        assert r'[a] == r[a] && r'[b].id == p.student.id;
      }
    }
  }

  lemma AddNewCovers(ps: seq<Placement>, r: seq<EnrolledStudent>, p: Placement)
    requires Covers(ps, r)
    ensures Covers(ps + [p], r + [Entry(p, 1)])
  {
    var ps' := ps + [p];
    var r' := r + [Entry(p, 1)];
    forall k' | 0 <= k' < |ps'| ensures Listed(r', ps'[k'].student.id) {
      if k' == |ps| {
        assert r'[|r|].id == ps'[k'].student.id;
      } else {
        assert ps'[k'] == ps[k'];
        var a :| 0 <= a < |r| && r[a].id == ps[k'].student.id;
        assert r'[a].id == ps'[k'].student.id;
      }
    }
    assert Covers(ps', r');
  }

  /** After visiting a roster entry whose student has no entry yet. */
  lemma AddNew(ps: seq<Placement>, r: seq<EnrolledStudent>, p: Placement)
    requires Describes(ps, r) && forall a :: 0 <= a < |r| ==> r[a].id != p.student.id
    ensures Describes(ps + [p], r + [Entry(p, 1)])
  {
    NotListedNotVisited(ps, r, p.student.id);
    AddNewCounts(ps, r, p);
    AddNewFields(ps, r, p);
    AddNewOrder(ps, r, p);
    AddNewCovers(ps, r, p);
    var r' := r + [Entry(p, 1)];
    assert DistinctIds(r') by {
      forall a, b | 0 <= a < b < |r'| ensures r'[a].id != r'[b].id {
        assert r'[a] == r[a];
        if b < |r| { assert r'[b] == r[b]; }
      }
    }
  }

  lemma EnrolledSnoc(ps: seq<Placement>, p: Placement)
    ensures Enrolled(ps + [p]) == AddPlacement(Enrolled(ps), p)
  {
    assert (ps + [p])[..|ps|] == ps;
  }

  /** The entries built from the roster entries mean what `Describes` says. */
  lemma {:induction false} EnrolledSpec(ps: seq<Placement>)
    ensures Describes(ps, Enrolled(ps))
    decreases |ps|
  {
    if ps != [] {
      var init := ps[..|ps| - 1];
      var p := ps[|ps| - 1];
      EnrolledSpec(init);
      DescribesStep(init, Enrolled(init), p, ps);
    }
  }

  /** One more roster entry keeps the entries described. */
  lemma DescribesStep(ps: seq<Placement>, r: seq<EnrolledStudent>, p: Placement, ps': seq<Placement>)
    requires Describes(ps, r) && ps' == ps + [p]
    ensures Describes(ps', AddPlacement(r, p))
  {
    var k := FindIndex(r, EntryFor(p.student.id));
    if k >= 0 {
      AddSeen(ps, r, p, k);
    } else {
      AddNew(ps, r, p);
    }
  }

  lemma PlacementsSnoc(courses: seq<Course>, i: nat)
    requires i < |courses|
    ensures Placements(courses[..i + 1]) == Placements(courses[..i]) + PlacementsOf(courses[i])
  {
    assert courses[..i + 1][..i] == courses[..i];
  }

  /** One roster entry of the inner loop: a student seen before gets one
      more course, a new one is added with this course's level and
      section. */
  method VisitEntry(students: seq<EnrolledStudent>, s: Student, c: Course, ghost visited: seq<Placement>)
    returns (students': seq<EnrolledStudent>)
    requires students == Enrolled(visited)
    ensures students' == Enrolled(visited + [Placement(s, c.level, c.section)])
  {
    EnrolledSnoc(visited, Placement(s, c.level, c.section));
    var k := FindIndex(students, EntryFor(s.id));
    if k < 0 {
      students' := students + [Entry(Placement(s, c.level, c.section), 1)];
    } else {
      students' := students[k := students[k].(coursesCount := students[k].coursesCount + 1)];
    }
  }

  lemma RosterPrefixSnoc(visited: seq<Placement>, c: Course, j: nat)
    requires j < |c.students|
    ensures visited + PlacementsOf(c)[..j + 1]
         == (visited + PlacementsOf(c)[..j]) + [Placement(c.students[j], c.level, c.section)]
  {
    assert PlacementsOf(c)[..j + 1] == PlacementsOf(c)[..j] + [PlacementsOf(c)[j]];
  }

  /** The inner loop over one course's roster. */
  method VisitRoster(students: seq<EnrolledStudent>, c: Course, ghost visited: seq<Placement>)
    returns (students': seq<EnrolledStudent>)
    requires students == Enrolled(visited)
    ensures students' == Enrolled(visited + PlacementsOf(c))
  {
    students' := students;
    var j := 0;
    ghost var seen := visited;
    assert PlacementsOf(c)[..0] == [];
    while j < |c.students|
      invariant 0 <= j <= |c.students|
      invariant seen == visited + PlacementsOf(c)[..j]
      invariant students' == Enrolled(seen)
    {
      students' := VisitEntry(students', c.students[j], c, seen);
      RosterPrefixSnoc(visited, c, j);
      seen := seen + [Placement(c.students[j], c.level, c.section)];
      j := j + 1;
    }
    assert PlacementsOf(c)[..j] == PlacementsOf(c);
    assert seen == visited + PlacementsOf(c);
  }

  /** The page's list: every course, every roster entry, updating a map
      keyed by student id that keeps first-insertion order. */
  method EnrolledStudents(courses: seq<Course>) returns (students: seq<EnrolledStudent>)
    ensures students == Enrolled(Placements(courses))
    ensures Describes(Placements(courses), students)
  {
    students := [];
    var i := 0;
    while i < |courses|
      invariant 0 <= i <= |courses|
      invariant students == Enrolled(Placements(courses[..i]))
    {
      students := VisitRoster(students, courses[i], Placements(courses[..i]));
      PlacementsSnoc(courses, i);
      i := i + 1;
    }
    assert courses[..i] == courses;
    EnrolledSpec(Placements(courses));
  }

  // ---- Levels and counts ----

  /** The distinct levels of the entries, in order of first appearance. */
  function Levels(r: seq<EnrolledStudent>): (ls: seq<string>)
    ensures forall a, b :: 0 <= a < b < |ls| ==> ls[a] != ls[b]
    ensures forall l :: l in ls <==> exists a :: 0 <= a < |r| && r[a].level == l
  {
    if r == [] then []
    else
      var init := r[..|r| - 1];
      var ls := Levels(init);
      assert forall a :: 0 <= a < |init| ==> init[a] == r[a];
      if r[|r| - 1].level in ls then ls else ls + [r[|r| - 1].level]
  }

  function LevelCount(r: seq<EnrolledStudent>, level: string): nat
  {
    Count(r, (e: EnrolledStudent) => e.level == level)
  }

  /** The per-level counts over a list of levels, added up. */
  function SumCounts(r: seq<EnrolledStudent>, ls: seq<string>): nat
  {
    if ls == [] then 0 else LevelCount(r, ls[0]) + SumCounts(r, ls[1..])
  }

  /** Over distinct levels, the counts add up to the number of entries
      whose level is one of them. */
  lemma {:induction false} SumCountsDistinct(r: seq<EnrolledStudent>, ls: seq<string>)
    requires forall a, b :: 0 <= a < b < |ls| ==> ls[a] != ls[b]
    ensures SumCounts(r, ls) == Count(r, (e: EnrolledStudent) => e.level in ls)
  {
    if ls == [] {
      FilterNone(r, (e: EnrolledStudent) => e.level in ls);
    } else {
      var rest := ls[1..];
      SumCountsDistinct(r, rest);
      CountDisjoint(r, (e: EnrolledStudent) => e.level == ls[0], (e: EnrolledStudent) => e.level in rest,
                       (e: EnrolledStudent) => e.level in ls);
    }
  }

  /** The per-level statistics account for every student exactly once. */
  lemma StatsAddUp(r: seq<EnrolledStudent>)
    ensures SumCounts(r, Levels(r)) == |r|
  {
    var ls := Levels(r);
    SumCountsDistinct(r, ls);
    forall e | e in r ensures e.level in ls {
      var a :| 0 <= a < |r| && r[a] == e;
    }
    FilterAll(r, (e: EnrolledStudent) => e.level in ls);
  }

  // ---- Search ----

  /** Name and email match ignoring case; the document number matches the
      search text as typed. */
  predicate MatchesSearch(e: EnrolledStudent, search: string) {
    || Text.Contains(Text.ToLower(e.name), Text.ToLower(search))
    || Text.Contains(e.dni, search)
    || Text.Contains(Text.ToLower(e.email), Text.ToLower(search))
  }

  predicate MatchesLevel(e: EnrolledStudent, selectedLevel: string) {
    selectedLevel == "all" || e.level == selectedLevel
  }

  function FilteredStudents(r: seq<EnrolledStudent>, search: string, selectedLevel: string): seq<EnrolledStudent>
  {
    Filter(r, (e: EnrolledStudent) => MatchesSearch(e, search) && MatchesLevel(e, selectedLevel))
  }

  /** The filter keeps, in order, exactly the entries matching both the
      search and the level. */
  lemma FilteredStudentsSpec(r: seq<EnrolledStudent>, search: string, selectedLevel: string)
    ensures var f := FilteredStudents(r, search, selectedLevel);
            && IsSubseq(f, r)
            && forall e :: e in f <==> e in r && MatchesSearch(e, search) && MatchesLevel(e, selectedLevel)
  {
    FilterIsSubseq(r, (e: EnrolledStudent) => MatchesSearch(e, search) && MatchesLevel(e, selectedLevel));
  }

  /** An empty search with every level selected shows every student. */
  lemma NoFilterShowsAll(r: seq<EnrolledStudent>)
    ensures FilteredStudents(r, "", "all") == r
  {
    forall e | e in r ensures MatchesSearch(e, "") {
      Text.ContainsEmpty(Text.ToLower(e.name));
    }
    FilterAll(r, (e: EnrolledStudent) => MatchesSearch(e, "") && MatchesLevel(e, "all"));
  }

  /** Typing the search in capitals or not finds the same names: lowering
      the search text first changes nothing for name and email. */
  lemma SearchIgnoresCaseOfName(e: EnrolledStudent, search: string)
    ensures Text.Contains(Text.ToLower(e.name), Text.ToLower(Text.ToLower(search)))
            == Text.Contains(Text.ToLower(e.name), Text.ToLower(search))
  {
    Text.ToLowerIdempotent(search);
  }
}
