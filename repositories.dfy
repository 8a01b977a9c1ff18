/**
 * `InMemoryStudentRepository` (`LR2/model/repositories.py`): the roster as a list of records
 * kept in insertion order, searched by a conjunction of criteria, thinned by deleting the
 * matches, cut into pages and summarised by the distinct values of a field.
 */
module Repositories {
  import opened Wrappers
  import opened Text
  import opened Numbers
  import opened Ordering
  import opened Roster

  /** The items of a criteria dictionary, in its insertion order: (field name, value typed). */
  type Criteria = seq<(string, string)>

  /** The keys compared by `int(value)`. */
  const NumericKeys: set<string> := {"Course", "CompletedWorks", "TotalWorks", "NotCompletedWorks"}

  /** `needle.lower() in hay.lower()`. */
  predicate ContainsIgnoringCase(hay: string, needle: string) {
    Contains(Lower(hay), Lower(needle))
  }

  /** `int(value) == n`, or `None` where `int` raises. */
  function SameNumber(value: string, n: int): (r: Option<bool>)
    ensures r.None? <==> ParseInt(value).None?
    ensures r == Some(true) <==> ParseInt(value) == Some(n)
  {
    var v := ParseInt(value);
    if v.None? then None else Some(v.value == n)
  }

  /**
   * One criterion of `search_students` on one student: text fields by case-insensitive
   * substring, numeric fields (and the derived not-completed count) by equality after `int`;
   * a key the chain does not name is no criterion at all.
   */
  function Criterion(s: Student, key: string, value: string): Option<bool> {
    if key == "FullName" then Some(ContainsIgnoringCase(s.fullName, value))
    else if key == "Course" then SameNumber(value, s.course)
    else if key == "Group" then Some(ContainsIgnoringCase(s.group, value))
    else if key == "ProgrammingLanguage" then Some(ContainsIgnoringCase(s.programmingLanguage, value))
    else if key == "CompletedWorks" then SameNumber(value, s.completedWorks)
    else if key == "TotalWorks" then SameNumber(value, s.totalWorks)
    else if key == "NotCompletedWorks" then SameNumber(value, NotCompletedWorks(s))
    else Some(true)
  }

  /** A criterion whose `int(value)` raises, whatever the student. */
  predicate Unparsable(c: (string, string)) {
    c.0 in NumericKeys && ParseInt(c.1).None?
  }

  /** A criterion raises exactly when its key is numeric and its value not an integer. */
  lemma CriterionRaises(s: Student, key: string, value: string)
    ensures Criterion(s, key, value).None? <==> Unparsable((key, value))
  {
  }

  /** A key the chain does not name holds for every student. */
  lemma CriterionUnknownKey(s: Student, key: string, value: string)
    requires key !in NumericKeys && key !in {"FullName", "Group", "ProgrammingLanguage"}
    ensures Criterion(s, key, value) == Some(true)
  {
  }

  /** `search_students` raises on a non-empty roster exactly when some criterion is unparsable. */
  predicate Raises(criteria: Criteria) {
    exists i :: 0 <= i < |criteria| && Unparsable(criteria[i])
  }

  /** The student meets every criterion. */
  predicate Satisfies(s: Student, criteria: Criteria) {
    forall i :: 0 <= i < |criteria| ==> Criterion(s, criteria[i].0, criteria[i].1) == Some(true)
  }

  /** Extending the criteria by one: raising and satisfying as the loop over them finds them. */
  lemma PrefixStep(s: Student, criteria: Criteria, j: nat)
    requires j < |criteria|
    ensures Raises(criteria[..j + 1]) <==> Raises(criteria[..j]) || Criterion(s, criteria[j].0, criteria[j].1).None?
    ensures Satisfies(s, criteria[..j + 1]) <==> Satisfies(s, criteria[..j]) && Criterion(s, criteria[j].0, criteria[j].1) == Some(true)
  {
    var p, q := criteria[..j], criteria[..j + 1];
    assert forall i :: 0 <= i < j ==> q[i] == p[i];
    assert q[j] == criteria[j];
    CriterionRaises(s, criteria[j].0, criteria[j].1);
  }

  /** The students meeting every criterion, in stored order. */
  function Selected(xs: seq<Student>, criteria: Criteria): (r: seq<Student>)
    ensures |r| <= |xs|
  {
    if xs == [] then []
    else (if Satisfies(xs[0], criteria) then [xs[0]] else []) + Selected(xs[1..], criteria)
  }

  /** The students failing some criterion, in stored order. */
  function Rejected(xs: seq<Student>, criteria: Criteria): seq<Student> {
    if xs == [] then []
    else (if Satisfies(xs[0], criteria) then [] else [xs[0]]) + Rejected(xs[1..], criteria)
  }

  /** The result `search_students` promises: `None` where it raises. */
  function Search(xs: seq<Student>, criteria: Criteria): Option<seq<Student>> {
    if xs != [] && Raises(criteria) then None else Some(Selected(xs, criteria))
  }

  /** Exactly the students meeting every criterion are selected, and only they. */
  lemma {:induction false} SelectedMembers(xs: seq<Student>, criteria: Criteria)
    ensures forall k :: 0 <= k < |Selected(xs, criteria)| ==> Satisfies(Selected(xs, criteria)[k], criteria)
    ensures forall s :: s in Selected(xs, criteria) <==> s in xs && Satisfies(s, criteria)
  {
    if xs != [] {
      SelectedMembers(xs[1..], criteria);
      assert forall s :: s in xs <==> s == xs[0] || s in xs[1..];
    }
  }

  /** Exactly the students failing some criterion are rejected. */
  lemma {:induction false} RejectedMembers(xs: seq<Student>, criteria: Criteria)
    ensures forall s :: s in Rejected(xs, criteria) <==> s in xs && !Satisfies(s, criteria)
  {
    if xs != [] {
      RejectedMembers(xs[1..], criteria);
      assert forall s :: s in xs <==> s == xs[0] || s in xs[1..];
    }
  }

  /** Every student is selected or rejected. */
  lemma {:induction false} SelectedRejectedCount(xs: seq<Student>, criteria: Criteria)
    ensures |Selected(xs, criteria)| + |Rejected(xs, criteria)| == |xs|
  {
    if xs != [] {
      SelectedRejectedCount(xs[1..], criteria);
    }
  }

  /** Selecting from a longer list. */
  lemma {:induction false} SelectedAppend(xs: seq<Student>, s: Student, criteria: Criteria)
    ensures Selected(xs + [s], criteria) == Selected(xs, criteria) + (if Satisfies(s, criteria) then [s] else [])
  {
    if xs == [] {
      assert [] + [s] == [s];
    } else {
      assert (xs + [s])[1..] == xs[1..] + [s];
      SelectedAppend(xs[1..], s, criteria);
    }
  }

  /** No criteria select every student. */
  lemma {:induction false} EmptyCriteriaSelectAll(xs: seq<Student>)
    ensures Search(xs, []) == Some(xs)
  {
    if xs != [] {
      EmptyCriteriaSelectAll(xs[1..]);
      assert !Raises([]);
      assert Selected(xs[1..], []) == xs[1..];
      assert Satisfies(xs[0], []);
      assert Selected(xs, []) == [xs[0]] + xs[1..];
      assert [xs[0]] + xs[1..] == xs;
    }
  }

  /** A key that is not a field is ignored. */
  lemma UnknownKeyIgnored(s: Student, criteria: Criteria, key: string, value: string)
    requires key !in NumericKeys && key !in {"FullName", "Group", "ProgrammingLanguage"}
    ensures Satisfies(s, criteria + [(key, value)]) <==> Satisfies(s, criteria)
  {
    var c := criteria + [(key, value)];
    if Satisfies(s, criteria) {
      forall i | 0 <= i < |c|
        ensures Criterion(s, c[i].0, c[i].1) == Some(true)
      {
        if i < |criteria| {
          assert c[i] == criteria[i];
        }
      }
    }
    if Satisfies(s, c) {
      forall i | 0 <= i < |criteria|
        ensures Criterion(s, criteria[i].0, criteria[i].1) == Some(true)
      {
        assert c[i] == criteria[i];
      }
    }
  }

  /** Text criteria ignore the case of the value typed. */
  lemma TextCriterionIgnoresCase(s: Student, key: string, value: string)
    requires key in {"FullName", "Group", "ProgrammingLanguage"}
    ensures Criterion(s, key, Lower(value)) == Criterion(s, key, value)
  {
    LowerIdempotent(value);
  }

  /**
   * The list `delete_students` leaves after removing the first `k` matches one by one:
   * `list.remove` takes out the first element equal to the match, and an element equal to a
   * match is a match itself.
   */
  function Drop(xs: seq<Student>, criteria: Criteria, k: nat): seq<Student> {
    if k == 0 || xs == [] then xs
    else if Satisfies(xs[0], criteria) then Drop(xs[1..], criteria, k - 1)
    else [xs[0]] + Drop(xs[1..], criteria, k)
  }

  /** `list.remove(x)` for an `x` in the list: its first occurrence taken out. */
  function RemoveFirst(xs: seq<Student>, x: Student): (r: seq<Student>)
    ensures x in xs ==> |r| == |xs| - 1
    ensures x !in xs ==> r == xs
  {
    if xs == [] then []
    else if xs[0] == x then xs[1..]
    else [xs[0]] + RemoveFirst(xs[1..], x)
  }

  /** Removing the next match advances `Drop` by one. */
  lemma {:induction false} RemoveNextMatch(xs: seq<Student>, criteria: Criteria, k: nat)
    requires k < |Selected(xs, criteria)|
    ensures RemoveFirst(Drop(xs, criteria, k), Selected(xs, criteria)[k]) == Drop(xs, criteria, k + 1)
  {
    var a, t := xs[0], xs[1..];
    if Satisfies(a, criteria) {
      if k > 0 {
        assert Selected(xs, criteria)[k] == Selected(t, criteria)[k - 1];
        RemoveNextMatch(t, criteria, k - 1);
      }
    } else {
      var y := Selected(t, criteria)[k];
      SelectedMembers(t, criteria);
      assert Satisfies(y, criteria);
      assert a != y;
      RemoveNextMatch(t, criteria, k);
    }
  }

  /** Once every match is removed, exactly the non-matching students remain, in order. */
  lemma {:induction false} DropAll(xs: seq<Student>, criteria: Criteria)
    ensures Drop(xs, criteria, |Selected(xs, criteria)|) == Rejected(xs, criteria)
  {
    if xs != [] {
      DropAll(xs[1..], criteria);
      if !Satisfies(xs[0], criteria) && |Selected(xs, criteria)| == 0 {
        DropNone(xs[1..], criteria);
      }
    }
  }

  /** With nothing to remove, `Drop` keeps the list. */
  lemma DropNone(xs: seq<Student>, criteria: Criteria)
    requires |Selected(xs, criteria)| == 0
    ensures Drop(xs, criteria, 0) == xs
  {
  }

  /** The distinct values of a field `get_unique_values` offers. */
  datatype Values = Texts(texts: seq<string>) | Numbers(numbers: seq<int>)

  const LanguageField := "Язык программирования"
  const TotalField := "Общее число работ"
  const CompletedField := "Количество выполненных работ"

  /**
   * `get_unique_values`: for the programming language the sorted distinct languages, for the
   * two work counts the sorted distinct counts, and for any other field nothing.
   */
  function UniqueValues(xs: seq<Student>, field: string): (r: Values)
    ensures field == LanguageField ==> r.Texts? && StrictlyAscendingStrings(r.texts)
                                       && forall v :: v in r.texts <==> exists s :: s in xs && s.programmingLanguage == v
    ensures field == TotalField ==> r.Numbers? && StrictlyAscendingInts(r.numbers)
                                    && forall v :: v in r.numbers <==> exists s :: s in xs && s.totalWorks == v
    ensures field == CompletedField ==> r.Numbers? && StrictlyAscendingInts(r.numbers)
                                        && forall v :: v in r.numbers <==> exists s :: s in xs && s.completedWorks == v
    ensures field !in {LanguageField, TotalField, CompletedField} ==> r == Texts([])
  {
    if field == LanguageField then Texts(SortedStrings(set s | s in xs :: s.programmingLanguage))
    else if field == TotalField then Numbers(SortedInts(set s | s in xs :: s.totalWorks))
    else if field == CompletedField then Numbers(SortedInts(set s | s in xs :: s.completedWorks))
    else Texts([])
  }

  /** Python's `xs[start:end]`: a negative bound counts from the end, bounds are clipped to the list. */
  function PySlice(xs: seq<Student>, start: int, end: int): (r: seq<Student>)
    ensures |r| <= |xs|
  {
    var lo := if start < 0 then (if |xs| + start < 0 then 0 else |xs| + start) else if start > |xs| then |xs| else start;
    var hi := if end < 0 then (if |xs| + end < 0 then 0 else |xs| + end) else if end > |xs| then |xs| else end;
    if lo < hi then xs[lo..hi] else []
  }

  /** `get_paginated_students(page, page_size)`. */
  function Page(xs: seq<Student>, page: int, size: int): seq<Student> {
    PySlice(xs, (page - 1) * size, (page - 1) * size + size)
  }

  /** A page from the first on holds the records from `(page - 1) * size` on, at most `size` of them. */
  lemma PageContents(xs: seq<Student>, page: int, size: int)
    requires page >= 1 && size >= 0
    ensures var start := (page - 1) * size;
            var p := Page(xs, page, size);
            |p| == (if start >= |xs| then 0 else if |xs| - start < size then |xs| - start else size)
            && forall k :: 0 <= k < |p| ==> p[k] == xs[start + k]
  {
    var start := (page - 1) * size;
    assert start >= 0 by {
      NonNegProduct(page - 1, size);
    }
    assert Page(xs, page, size) == PySlice(xs, start, start + size);
  }

  lemma NonNegProduct(a: int, b: int)
    requires a >= 0 && b >= 0
    ensures a * b >= 0
  {
  }

  /** Record `i` is on page `i / size + 1`, at position `i % size`. */
  lemma RecordOnItsPage(xs: seq<Student>, size: int, i: int)
    requires size > 0 && 0 <= i < |xs|
    ensures var p := Page(xs, i / size + 1, size);
            i % size < |p| && p[i % size] == xs[i]
  {
    PageContents(xs, i / size + 1, size);
    assert (i / size + 1 - 1) * size + i % size == i;
  }

  /** Page 0 asks for the slice from `-size` to 0, which is empty. */
  lemma PageZero(xs: seq<Student>, size: int)
    requires size >= 0
    ensures Page(xs, 0, size) == []
  {
  }

  class InMemoryStudentRepository {
    var students: seq<Student>

    /** `InMemoryStudentRepository(students)`: the given list, or an empty one. */
    constructor(students: seq<Student>)
      ensures this.students == students
    {
      this.students := students;
    }

    /** `add_student`: appended at the end. */
    method AddStudent(s: Student)
      modifies this
      ensures students == old(students) + [s]
      ensures |students| == |old(students)| + 1
    {
      students := students + [s];
    }

    /** The inner loop of `search_students`: every criterion in order, the flag cleared by a failing one. */
    method MatchesAll(s: Student, criteria: Criteria) returns (raised: bool, matched: bool)
      ensures raised <==> Raises(criteria)
      ensures !raised ==> (matched <==> Satisfies(s, criteria))
    {
      matched := true;
      var j := 0;
      while j < |criteria|
        invariant j <= |criteria|
        invariant !Raises(criteria[..j])
        invariant matched <==> Satisfies(s, criteria[..j])
      {
        var r := Criterion(s, criteria[j].0, criteria[j].1);
        PrefixStep(s, criteria, j);
        if r.None? {
          return true, false;
        }
        if !r.value {
          matched := false;
        }
        j := j + 1;
      }
      assert criteria[..j] == criteria;
      raised := false;
    }

    /** `search_students`: the matching students in stored order, or `None` where `int` raises. */
    method SearchStudents(criteria: Criteria) returns (r: Option<seq<Student>>)
      ensures r == Search(students, criteria)
    {
      var result := [];
      var i := 0;
      while i < |students|
        invariant i <= |students|
        invariant result == Selected(students[..i], criteria)
        invariant i > 0 ==> !Raises(criteria)
      {
        var raised, matched := MatchesAll(students[i], criteria);
        if raised {
          return None;
        }
        assert students[..i + 1] == students[..i] + [students[i]];
        SelectedAppend(students[..i], students[i], criteria);
        if matched {
          result := result + [students[i]];
        }
        i := i + 1;
      }
      assert students[..i] == students;
      return Some(result);
    }

    /**
     * `delete_students`: the search, then each match removed with `list.remove`; the number
     * removed, or `None` (nothing removed) where the search raises.
     */
    method DeleteStudents(criteria: Criteria) returns (count: Option<nat>)
      modifies this
      ensures Search(old(students), criteria).None? ==> count.None? && students == old(students)
      ensures Search(old(students), criteria).Some? ==>
                students == Rejected(old(students), criteria)
                && count == Some(|Selected(old(students), criteria)|)
                && count.value == |old(students)| - |students|
    {
      var found := SearchStudents(criteria);
      if found.None? {
        return None;
      }
      var toDelete := found.value;
      ghost var xs := students;
      var k := 0;
      while k < |toDelete|
        invariant k <= |toDelete| && toDelete == Selected(xs, criteria)
        invariant students == Drop(xs, criteria, k)
      {
        RemoveNextMatch(xs, criteria, k);
        students := RemoveFirst(students, toDelete[k]);
        k := k + 1;
      }
      DropAll(xs, criteria);
      SelectedRejectedCount(xs, criteria);
      return Some(|toDelete|);
    }

    /** `get_all_students`. */
    method GetAllStudents() returns (r: seq<Student>)
      ensures r == students
    {
      return students;
    }

    /** `get_paginated_students`. */
    method GetPaginatedStudents(page: int, size: int) returns (r: seq<Student>)
      ensures r == Page(students, page, size)
      ensures page >= 1 && size >= 0 ==> |r| <= size
    {
      if page >= 1 && size >= 0 {
        PageContents(students, page, size);
      }
      return Page(students, page, size);
    }

    /** `get_total_students`. */
    method GetTotalStudents() returns (n: nat)
      ensures n == |students|
    {
      return |students|;
    }

    /** `get_unique_values`, as `UniqueValues` describes it. */
    method GetUniqueValues(field: string) returns (r: Values)
      ensures r == UniqueValues(students, field)
    {
      return UniqueValues(students, field);
    }
  }
}
