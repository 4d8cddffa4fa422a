/**
  The lesson-number helpers of the subject service (subjectService.ts): a new lesson's number
  must not collide with an existing one, and the next free number is one more than the largest.
*/
module SubjectService {
  import opened Js

  /** A lesson, reduced to the one field these helpers read. */
  datatype Lesson = Lesson(lessonName: string, lessonNumber: int)

  /**
    How the lessons request ended: the promise was rejected, or it was fulfilled with a response
    whose `success` flag and optional `data.lessons` list the helper inspects.
  */
  datatype LessonsFetch = Rejected | Fulfilled(success: bool, lessons: Option<seq<Lesson>>)

  /** `validateLessonNumber`: a number is free exactly when no existing lesson has it. */
  function ValidateLessonNumber(lessonNumber: int, existing: seq<Lesson>): (free: bool)
    ensures free <==> forall i :: 0 <= i < |existing| ==> existing[i].lessonNumber != lessonNumber
  {
    existing == [] || (existing[0].lessonNumber != lessonNumber && ValidateLessonNumber(lessonNumber, existing[1..]))
  }

  /** The lesson numbers, in list order. */
  function LessonNumbers(ls: seq<Lesson>): (ns: seq<int>)
    ensures |ns| == |ls|
    ensures forall i :: 0 <= i < |ls| ==> ns[i] == ls[i].lessonNumber
  {
    if ls == [] then [] else [ls[0].lessonNumber] + LessonNumbers(ls[1..])
  }

  /** The numbers `Math.max` can produce here: an integer or negative infinity. */
  datatype ExtInt = NegInfinity | Finite(value: int)

  function ExtMax(a: ExtInt, b: ExtInt): ExtInt {
    match (a, b)
    case (NegInfinity, _) => b
    case (_, NegInfinity) => a
    case (Finite(x), Finite(y)) => if x >= y then a else b
  }

  /** `x + 1`, where negative infinity stays negative infinity. */
  function ExtSucc(a: ExtInt): ExtInt {
    match a
    case NegInfinity => NegInfinity
    case Finite(x) => Finite(x + 1)
  }

  /** `Math.max(...ns)`: negative infinity for no arguments, otherwise the largest argument. */
  function MaxSpread(ns: seq<int>): (m: ExtInt)
    ensures m == NegInfinity <==> ns == []
    ensures m.Finite? ==> m.value in ns && forall i :: 0 <= i < |ns| ==> ns[i] <= m.value
  {
    if ns == [] then NegInfinity else ExtMax(Finite(ns[0]), MaxSpread(ns[1..]))
  }

  /** n is one more than the largest lesson number: n - 1 is some lesson's number and none reaches n. */
  predicate IsMaxPlusOne(ls: seq<Lesson>, n: int) {
    (exists i :: 0 <= i < |ls| && ls[i].lessonNumber == n - 1) &&
    (forall i :: 0 <= i < |ls| ==> ls[i].lessonNumber < n)
  }

  /** At most one number is one more than the largest. */
  lemma MaxPlusOneUnique(ls: seq<Lesson>, n: int, m: int)
    requires IsMaxPlusOne(ls, n) && IsMaxPlusOne(ls, m)
    ensures n == m
  {
    var i :| 0 <= i < |ls| && ls[i].lessonNumber == n - 1;
    var j :| 0 <= j < |ls| && ls[j].lessonNumber == m - 1;
    assert ls[j].lessonNumber < n && ls[i].lessonNumber < m;
  }

  /** `Math.max(...numbers) + 1` on a non-empty list is one more than the largest number. */
  lemma MaxSpreadPlusOne(ls: seq<Lesson>)
    requires ls != []
    ensures MaxSpread(LessonNumbers(ls)).Finite?
    ensures IsMaxPlusOne(ls, MaxSpread(LessonNumbers(ls)).value + 1)
  {
    var ns := LessonNumbers(ls);
    var m := MaxSpread(ns);
    var k :| 0 <= k < |ns| && ns[k] == m.value;
    assert ls[k].lessonNumber == m.value + 1 - 1;
  }

  /**
    `getNextLessonNumber` as written: one more than the largest number when the response
    succeeded with a lesson list, otherwise 1, and 1 when the request is rejected.
  */
  function NextLessonNumberAsWritten(f: LessonsFetch): (r: ExtInt)
    ensures r == NegInfinity <==> f == Fulfilled(true, Some([]))
    ensures f.Fulfilled? && f.success && f.lessons.Some? && r.Finite? ==>
              ValidateLessonNumber(r.value, f.lessons.value) &&
              IsMaxPlusOne(f.lessons.value, r.value)
    ensures !(f.Fulfilled? && f.success && f.lessons.Some?) ==> r == Finite(1)
  {
    match f
    case Rejected => Finite(1)
    case Fulfilled(success, lessons) =>
      if success && lessons.Some? then
        if lessons.value != [] then MaxSpreadPlusOne(lessons.value); ExtSucc(MaxSpread(LessonNumbers(lessons.value)))
        else ExtSucc(MaxSpread(LessonNumbers(lessons.value)))
      else Finite(1)
  }

  /** A subject whose lesson list is empty gets negative infinity rather than 1. */
  lemma EmptySubjectNextNumberIsNegInfinity()
    ensures NextLessonNumberAsWritten(Fulfilled(true, Some([]))) == NegInfinity
  {
  }

  /**
    The next lesson number with the empty list treated like a missing one: 1 for a subject
    without lessons, otherwise one more than the largest existing number.
  */
  function NextLessonNumber(f: LessonsFetch): (n: int)
    ensures f.Fulfilled? && f.success && f.lessons.Some? ==>
              ValidateLessonNumber(n, f.lessons.value) &&
              forall i :: 0 <= i < |f.lessons.value| ==> f.lessons.value[i].lessonNumber < n
    ensures f.Fulfilled? && f.success && f.lessons.Some? && f.lessons.value != [] ==>
              IsMaxPlusOne(f.lessons.value, n)
    ensures !(f.Fulfilled? && f.success && f.lessons.Some? && f.lessons.value != []) ==> n == 1
    ensures NextLessonNumberAsWritten(f).Finite? ==> n == NextLessonNumberAsWritten(f).value
  {
    match f
    case Rejected => 1
    case Fulfilled(success, lessons) =>
      if success && lessons.Some? && lessons.value != [] then
        MaxSpreadPlusOne(lessons.value);
        MaxSpread(LessonNumbers(lessons.value)).value + 1
      else
        1
  }

  /** After adding a lesson under the suggested number, the next suggestion is one higher. */
  lemma {:induction false} NextLessonNumberAdvances(ls: seq<Lesson>, name: string)
    ensures NextLessonNumber(Fulfilled(true, Some(ls + [Lesson(name, NextLessonNumber(Fulfilled(true, Some(ls))))])))
            == NextLessonNumber(Fulfilled(true, Some(ls))) + 1
  {
    var n := NextLessonNumber(Fulfilled(true, Some(ls)));
    var ls' := ls + [Lesson(name, n)];
    var m := MaxSpread(LessonNumbers(ls'));
    assert ls'[|ls|].lessonNumber == n;
    assert LessonNumbers(ls')[|ls|] == n;
    assert m.value >= n;
    forall i | 0 <= i < |ls'| ensures LessonNumbers(ls')[i] <= n {
      if i < |ls| {
        assert ls'[i] == ls[i];
      }
    }
  }
}
