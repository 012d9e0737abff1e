/**
 * The course-details use case of the SMS API (apps/sms-api/internal/usecases/course.go):
 * keep the enrolled users that are students, fetch every student's grade items through
 * the task pool, and report the first failure.
 *
 * The course repository, the enrolled-user provider and the grade-item provider are
 * given as their answers: `findOne`, `enrolled`, and `provider`, which maps a user id
 * to what GetUserGradeItems returns for it. Task ids, durations, start times and
 * whether a task's deadline passed while it waited in the queue come from the clock
 * and are parameters too.
 */
module CourseUseCase {
  import opened Wrappers
  import opened Strs
  import opened TaskPool
  import opened UserGrades
  import opened EnrolledUsers

  /** The course record the repository returns; the use case only passes it through. */
  datatype Course = Course(id: int, fullname: string, shortname: string)

  datatype CourseDetails = CourseDetails(course: Course, students: seq<Student>)

  /**
   * An error GetUserGradeItems returns: its text, and whether it wraps
   * context.DeadlineExceeded (the request ran out of the task's time).
   */
  datatype ProviderError = ProviderError(message: string, deadline: bool)

  /** What GetUserGradeItems answers for one user: the user-grade entries, or an error. */
  type GradeItemsResponse = Result<seq<UserGrade>, ProviderError>

  /** A *entities.Student shared between the use case and the task that fills its grades. */
  class StudentRef {
    var value: Student

    constructor (s: Student)
      ensures value == s
    {
      value := s;
    }
  }

  // ---------------------------------------------------------------------------
  // Student filtering (GetUserCourseDetails, the first loop)
  // ---------------------------------------------------------------------------

  /** The students of an enrolment list: ToStudent of each user with a student role, in order. */
  function StudentsOf(users: seq<EnrolledUser>): seq<Student>
  {
    if |users| == 0 then []
    else
      var last := users[|users| - 1];
      StudentsOf(users[..|users| - 1]) + (if IsStudent(last) then [ToStudent(last)] else [])
  }

  /** One user contributes ToStudent of itself exactly when it is a student. */
  lemma StudentsOfSingle(u: EnrolledUser)
    ensures StudentsOf([u]) == if IsStudent(u) then [ToStudent(u)] else []
  {
    assert [u][..0] == [];
  }

  /** Filtering distributes over concatenation, so the students keep the enrolment order. */
  lemma {:induction false} StudentsOfAppend(a: seq<EnrolledUser>, b: seq<EnrolledUser>)
    ensures StudentsOf(a + b) == StudentsOf(a) + StudentsOf(b)
    decreases |b|
  {
    if |b| == 0 {
      assert a + b == a;
    } else {
      var last := b[|b| - 1];
      assert (a + b)[..|a + b| - 1] == a + b[..|b| - 1];
      StudentsOfAppend(a, b[..|b| - 1]);
    }
  }

  /** Only students are kept: the result is never longer than the enrolment list. */
  lemma {:induction false} StudentsOfLength(users: seq<EnrolledUser>)
    ensures |StudentsOf(users)| <= |users|
    ensures (forall i :: 0 <= i < |users| ==> !IsStudent(users[i])) <==> StudentsOf(users) == []
    decreases |users|
  {
    if |users| > 0 {
      var init := users[..|users| - 1];
      StudentsOfLength(init);
      assert forall i :: 0 <= i < |init| ==> init[i] == users[i];
    }
  }

  /** The filtering loop of GetUserCourseDetails. */
  method FilterStudents(users: seq<EnrolledUser>) returns (students: seq<Student>)
    ensures students == StudentsOf(users)
  {
    students := [];
    for i := 0 to |users|
      invariant students == StudentsOf(users[..i])
    {
      assert users[..i + 1][..i] == users[..i];
      if !IsStudent(users[i]) {
        continue;
      }
      var student := ToStudent(users[i]);
      students := students + [student];
    }
    assert users[..|users|] == users;
  }

  // ---------------------------------------------------------------------------
  // gradeItemTask.Execute
  // ---------------------------------------------------------------------------

  function ProviderErrorMessage(userId: int, err: string): string
  {
    "failed to get grade items for user " + IntToString(userId) + ": " + err
  }

  /** The student after a successful fetch: Grades replaced only when some user-grade entry came back. */
  function WithFetchedGrades(s: Student, entries: seq<UserGrade>): Student
  {
    if |entries| > 0 then s.(grades := GradesOf(entries[0])) else s
  }

  /**
   * How the pool sees a task that runs: it fails with the wrapped provider error,
   * which `%w` keeps recognisable as a deadline when the provider's was one, or it
   * returns normally.
   */
  function TaskOutcome(userId: int, response: GradeItemsResponse): (o: Outcome)
    ensures o.Ok? <==> response.Ok?
    ensures Executes(o)
    ensures ResultError(o) == Some(TaskTimeout) <==> response.Err? && response.error.deadline
    ensures response.Err? && !response.error.deadline ==>
      ResultError(o) == Some(Failed(ProviderErrorMessage(userId, response.error.message)))
  {
    if response.Err? then
      if response.error.deadline then Outcome.DeadlineExceeded
      else Outcome.Err(ProviderErrorMessage(userId, response.error.message))
    else Outcome.Ok
  }

  /**
   * Execute: ask the provider for the student's grade items; on success overwrite the
   * shared student's Grades with ToGrades of the first entry, if there is one.
   */
  method Execute(student: StudentRef, response: GradeItemsResponse) returns (err: Option<string>)
    modifies student
    ensures response.Err? ==>
      err == Some(ProviderErrorMessage(old(student.value.id), response.error.message)) && student.value == old(student.value)
    ensures response.Ok? ==> err.None? && student.value == WithFetchedGrades(old(student.value), response.value)
    ensures student.value.id == old(student.value.id)
  {
    if response.Err? {
      return Some(ProviderErrorMessage(student.value.id, response.error.message));
    }
    if |response.value| > 0 {
      var grades := ToGrades(response.value[0]);
      assert grades == GradesOf(response.value[0]);
      student.value := student.value.(grades := grades);
    }
    return None;
  }

  // ---------------------------------------------------------------------------
  // fetchGradeItemsWithBatch: the error scans
  // ---------------------------------------------------------------------------

  /** The lowest index holding a value, if any. */
  function FirstSome<T>(xs: seq<Option<T>>): (r: Option<nat>)
    ensures r.Some? ==> r.value < |xs| && xs[r.value].Some? && forall k :: 0 <= k < r.value ==> xs[k].None?
    ensures r.None? <==> forall k :: 0 <= k < |xs| ==> xs[k].None?
  {
    if |xs| == 0 then None
    else if xs[0].Some? then Some(0)
    else
      match FirstSome(xs[1..])
      case None => None
      case Some(i) => Some(i + 1)
  }

  function ErrorsOf(results: seq<TaskResult>): (r: seq<Option<PoolError>>)
    ensures |r| == |results| && forall k :: 0 <= k < |r| ==> r[k] == results[k].error
  {
    seq(|results|, k requires 0 <= k < |results| => results[k].error)
  }

  /**
   * The error fetchGradeItemsWithBatch returns: the submission error of the lowest
   * failing slot if there is one; otherwise the execution error of the lowest failing
   * result; otherwise none.
   */
  function BatchError(studentIds: seq<int>, errors: seq<Option<PoolError>>, results: seq<TaskResult>): Option<string>
    requires |errors| == |studentIds| && |results| == |studentIds|
  {
    match FirstSome(errors)
    case Some(i) =>
      Some("failed to fetch grade items for student " + IntToString(studentIds[i]) + ": " + Message(errors[i].value))
    case None =>
      match FirstSome(ErrorsOf(results))
      case Some(j) =>
        Some("failed to execute grade item task for student " + IntToString(studentIds[j]) + ": "
             + Message(results[j].error.value))
      case None => None
  }

  /** The two scanning loops of fetchGradeItemsWithBatch. */
  method ScanBatch(studentIds: seq<int>, errors: seq<Option<PoolError>>, results: seq<TaskResult>)
    returns (err: Option<string>)
    requires |errors| == |studentIds| && |results| == |studentIds|
    ensures err == BatchError(studentIds, errors, results)
  {
    for i := 0 to |errors|
      invariant forall k :: 0 <= k < i ==> errors[k].None?
    {
      if errors[i].Some? {
        return Some("failed to fetch grade items for student " + IntToString(studentIds[i]) + ": " + Message(errors[i].value));
      }
    }
    for i := 0 to |results|
      invariant forall k :: 0 <= k < i ==> results[k].error.None?
    {
      if results[i].error.Some? {
        assert ErrorsOf(results)[i].Some?;
        assert FirstSome(ErrorsOf(results)) == Some(i);
        return Some("failed to execute grade item task for student " + IntToString(studentIds[i]) + ": "
                    + Message(results[i].error.value));
      }
    }
    return None;
  }

  /** A failing submission is reported even when an earlier task failed while running. */
  lemma SubmissionErrorsComeFirst(studentIds: seq<int>, errors: seq<Option<PoolError>>, results: seq<TaskResult>, i: nat)
    requires |errors| == |studentIds| && |results| == |studentIds|
    requires i < |errors| && errors[i].Some?
    ensures BatchError(studentIds, errors, results).Some?
    ensures var e := BatchError(studentIds, errors, results).value;
      StartsWith(e, "failed to fetch grade items for student ")
  {
    var f := FirstSome(errors);
    assert f.Some?;
    var p := "failed to fetch grade items for student ";
    var e := p + IntToString(studentIds[f.value]) + ": " + Message(errors[f.value].value);
    assert e[..|p|] == p;
  }

  // ---------------------------------------------------------------------------
  // fetchGradeItemsWithBatch and GetUserCourseDetails
  // ---------------------------------------------------------------------------

  /**
   * The pool's view of task i: when its deadline passed while it waited in the queue
   * it is never executed and reports the deadline; otherwise it runs Execute for
   * student i.
   */
  function OutcomeFor(studentIds: seq<int>, provider: int -> GradeItemsResponse, expired: seq<bool>, e: Envelope): (o: Outcome)
    requires |expired| == |studentIds|
    ensures e.task.Some? && e.task.value < |studentIds| ==>
      (Executes(o) <==> !expired[e.task.value]) &&
      (o.Ok? <==> !expired[e.task.value] && provider(studentIds[e.task.value]).Ok?) &&
      (ResultError(o) == Some(TaskTimeout) <==>
        expired[e.task.value] || (provider(studentIds[e.task.value]).Err? && provider(studentIds[e.task.value]).error.deadline))
  {
    if e.task.Some? && e.task.value < |studentIds| then
      if expired[e.task.value] then AlreadyCancelled(true)
      else
        var id := studentIds[e.task.value];
        TaskOutcome(id, provider(id))
    else Outcome.Ok
  }

  function IdsOf(students: seq<Student>): (r: seq<int>)
    ensures |r| == |students| && forall k :: 0 <= k < |r| ==> r[k] == students[k].id
  {
    seq(|students|, k requires 0 <= k < |students| => students[k].id)
  }

  /** The tasks slice of fetchGradeItemsWithBatch: task i is bound to student index i. */
  method BuildTasks(n: nat) returns (tasks: seq<Option<nat>>)
    ensures |tasks| == n && forall k :: 0 <= k < n ==> tasks[k] == Some(k)
  {
    tasks := [];
    for i := 0 to n
      invariant |tasks| == i && forall k :: 0 <= k < i ==> tasks[k] == Some(k)
    {
      tasks := tasks + [Some(i)];
    }
  }

  /** The student ids, read once before the batch runs. */
  method StudentIds(students: seq<StudentRef>) returns (ids: seq<int>)
    ensures |ids| == |students| && forall k :: 0 <= k < |students| ==> ids[k] == students[k].value.id
  {
    ids := [];
    for i := 0 to |students|
      invariant |ids| == i && forall k :: 0 <= k < i ==> ids[k] == students[k].value.id
    {
      ids := ids + [students[i].value.id];
    }
  }

  /** The effect of the tasks the pool accepted: each one runs Execute on its own student. */
  method RunAccepted(students: seq<StudentRef>, ids: seq<int>, errors: seq<Option<PoolError>>,
                     expired: seq<bool>, provider: int -> GradeItemsResponse)
    requires |ids| == |students| && |errors| == |students| && |expired| == |students|
    requires forall k :: 0 <= k < |students| ==> ids[k] == students[k].value.id
    requires forall i, j :: 0 <= i < j < |students| ==> students[i] != students[j]
    modifies set s | s in students
    ensures forall k :: 0 <= k < |students| ==>
      students[k].value ==
        if errors[k].None? && !expired[k] && provider(ids[k]).Ok? then WithFetchedGrades(old(students[k].value), provider(ids[k]).value)
        else old(students[k].value)
  {
    for i := 0 to |students|
      invariant forall k :: 0 <= k < |students| ==> students[k].value.id == ids[k]
      invariant forall k :: 0 <= k < i ==>
        students[k].value ==
          if errors[k].None? && !expired[k] && provider(ids[k]).Ok? then WithFetchedGrades(old(students[k].value), provider(ids[k]).value)
          else old(students[k].value)
      invariant forall k :: i <= k < |students| ==> students[k].value == old(students[k].value)
    {
      if errors[i].None? && !expired[i] {
        var _ := Execute(students[i], provider(ids[i]));
      }
    }
  }

  /**
   * fetchGradeItemsWithBatch: one task per student, task i bound to students[i];
   * SubmitBatch runs the accepted tasks (their effects on the shared students are
   * applied in slot order), then the error scans pick what to report.
   */
  method FetchGradeItemsWithBatch(p: Pool, students: seq<StudentRef>, provider: int -> GradeItemsResponse,
                                  taskIds: seq<string>, drainBefore: seq<nat>, expired: seq<bool>,
                                  durationOf: Envelope -> nat, startOf: Envelope -> nat)
    returns (err: Option<string>, ghost ids: seq<int>, ghost errors: seq<Option<PoolError>>, ghost results: seq<TaskResult>)
    requires p.Valid() && |taskIds| == |students| && |drainBefore| == |students| && |expired| == |students|
    requires forall i, j :: 0 <= i < j < |students| ==> students[i] != students[j]
    modifies p, set s | s in students
    ensures p.Valid()
    ensures |ids| == |students| && forall k :: 0 <= k < |students| ==> ids[k] == old(students[k].value.id)
    ensures |errors| == |students| && |results| == |students|
    ensures err == BatchError(ids, errors, results)
    ensures err.None? ==> forall k :: 0 <= k < |students| ==> errors[k].None? && !expired[k] && provider(ids[k]).Ok?
    ensures forall k :: 0 <= k < |students| && errors[k].None? ==>
      (results[k].error == Some(TaskTimeout) <==> expired[k] || (provider(ids[k]).Err? && provider(ids[k]).error.deadline))
    ensures forall k :: 0 <= k < |students| ==>
      students[k].value ==
        if errors[k].None? && !expired[k] && provider(ids[k]).Ok? then WithFetchedGrades(old(students[k].value), provider(ids[k]).value)
        else old(students[k].value)
  {
    var studentIds := StudentIds(students);
    var tasks := BuildTasks(|students|);
    var outcomeOf := (e: Envelope) => OutcomeFor(studentIds, provider, expired, e);
    var rs, es := p.SubmitBatch(tasks, taskIds, drainBefore, outcomeOf, durationOf, startOf);
    RunAccepted(students, studentIds, es, expired, provider);
    ids, errors, results := studentIds, es, rs;
    forall k | 0 <= k < |students| && es[k].None?
      ensures rs[k].error == Some(TaskTimeout) <==>
        expired[k] || (provider(studentIds[k]).Err? && provider(studentIds[k]).error.deadline)
    {
      var e := BatchEnvelope(tasks, taskIds, k, p.config.taskTimeout);
      assert e.task == Some(k);
    }
    err := ScanBatch(studentIds, es, rs);
    if err.None? {
      assert FirstSome(es).None?;
      assert FirstSome(ErrorsOf(rs)).None?;
      forall k | 0 <= k < |students|
        ensures es[k].None? && !expired[k] && provider(studentIds[k]).Ok?
      {
        assert es[k].None? && ErrorsOf(rs)[k].None?;
        var e := BatchEnvelope(tasks, taskIds, k, p.config.taskTimeout);
        assert e.task == Some(k);
      }
    }
  }

  /** The student objects the use case shares with its tasks, one fresh object per student. */
  method NewStudentRefs(students: seq<Student>) returns (refs: seq<StudentRef>)
    ensures |refs| == |students|
    ensures forall k :: 0 <= k < |refs| ==> fresh(refs[k]) && refs[k].value == students[k]
    ensures forall i, j :: 0 <= i < j < |refs| ==> refs[i] != refs[j]
  {
    refs := [];
    for i := 0 to |students|
      invariant |refs| == i
      invariant forall k :: 0 <= k < i ==> fresh(refs[k]) && refs[k].value == students[k]
      invariant forall a, b :: 0 <= a < b < i ==> refs[a] != refs[b]
    {
      var r := new StudentRef(students[i]);
      refs := refs + [r];
    }
  }

  /** The students as the response carries them, after the tasks have filled their grades. */
  method Values(refs: seq<StudentRef>) returns (vs: seq<Student>)
    ensures |vs| == |refs| && forall k :: 0 <= k < |refs| ==> vs[k] == refs[k].value
  {
    vs := [];
    for i := 0 to |refs|
      invariant |vs| == i && forall k :: 0 <= k < i ==> vs[k] == refs[k].value
    {
      vs := vs + [refs[i].value];
    }
  }

  /**
   * GetUserCourseDetails: a repository or provider error is returned as is; a course
   * without students answers at once with an empty list and submits nothing; otherwise
   * every student comes back with the grades its task fetched, or the first batch
   * failure is returned.
   */
  method GetUserCourseDetails(p: Pool, findOne: Result<Course, string>, enrolled: Result<seq<EnrolledUser>, string>,
                              provider: int -> GradeItemsResponse, taskId: nat -> string,
                              drainBefore: nat -> nat, expiredInQueue: nat -> bool,
                              durationOf: Envelope -> nat, startOf: Envelope -> nat)
    returns (resp: Result<CourseDetails, string>)
    requires p.Valid()
    modifies p
    ensures p.Valid()
    ensures findOne.Err? ==> resp == Result.Err(findOne.error) && unchanged(p)
    ensures findOne.Ok? && enrolled.Err? ==> resp == Result.Err(enrolled.error) && unchanged(p)
    ensures findOne.Ok? && enrolled.Ok? && StudentsOf(enrolled.value) == [] ==>
      resp == Result.Ok(CourseDetails(findOne.value, [])) && unchanged(p)
    ensures resp.Ok? ==>
      findOne.Ok? && enrolled.Ok? && resp.value.course == findOne.value &&
      var expected := StudentsOf(enrolled.value);
      |resp.value.students| == |expected| &&
      forall k :: 0 <= k < |expected| ==>
        provider(expected[k].id).Ok? &&
        resp.value.students[k] == WithFetchedGrades(expected[k], provider(expected[k].id).value)
  {
    if findOne.Err? {
      return Result.Err(findOne.error);
    }
    if enrolled.Err? {
      return Result.Err(enrolled.error);
    }
    var students := FilterStudents(enrolled.value);
    if |students| == 0 {
      return Result.Ok(CourseDetails(findOne.value, []));
    }
    var refs := NewStudentRefs(students);
    var taskIds := seq(|refs|, (k: nat) => taskId(k));
    var drains := seq(|refs|, (k: nat) => drainBefore(k));
    var expired := seq(|refs|, (k: nat) => expiredInQueue(k));
    var err, ids, errors, results := FetchGradeItemsWithBatch(p, refs, provider, taskIds, drains, expired, durationOf, startOf);
    if err.Some? {
      return Result.Err(err.value);
    }
    var vs := Values(refs);
    resp := Result.Ok(CourseDetails(findOne.value, vs));
  }
}
