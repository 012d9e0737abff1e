/**
 * Enrolled users of a Moodle course (apps/sms-api/internal/mdlapi/enrolledusr.go):
 * role-based student detection and conversion to the Student entity.
 */
module EnrolledUsers {
  import opened UserGrades

  datatype Role = Role(roleId: int, name: string, shortname: string, sortorder: int)

  /** EnrolledUser: identity fields and roles; profile fields nothing here reads are left out. */
  datatype EnrolledUser = EnrolledUser(
    id: int,
    username: string,
    firstname: string,
    lastname: string,
    fullname: string,
    email: string,
    roles: seq<Role>)

  /** entities.Student: what ToStudent fills, plus the grades the course use case attaches. */
  datatype Student = Student(
    email: string,
    firstname: string,
    fullname: string,
    id: int,
    lastname: string,
    username: string,
    grades: seq<Grade>)

  /** The default Moodle student role has id 5. */
  const StudentRoleId := 5

  predicate IsStudentRole(r: Role)
  {
    r.roleId == StudentRoleId || r.shortname == "student"
  }

  /** The loop of IsStudent: true at the first student role, false once the roles run out. */
  function HasStudentRole(roles: seq<Role>): (b: bool)
    ensures b <==> exists i :: 0 <= i < |roles| && IsStudentRole(roles[i])
  {
    if |roles| == 0 then false
    else if IsStudentRole(roles[0]) then true
    else
      assert forall i :: 1 <= i < |roles| ==> roles[i] == roles[1..][i - 1];
      HasStudentRole(roles[1..])
  }

  predicate IsStudent(u: EnrolledUser)
  {
    HasStudentRole(u.roles)
  }

  /** A user with no roles is not a student. */
  lemma NoRolesIsNotStudent(u: EnrolledUser)
    requires u.roles == []
    ensures !IsStudent(u)
  {
  }

  /** IsStudent depends only on which roles a user has, not on their order. */
  lemma IsStudentOrderIndependent(u: EnrolledUser, v: EnrolledUser)
    requires multiset(u.roles) == multiset(v.roles)
    ensures IsStudent(u) == IsStudent(v)
  {
    if IsStudent(u) {
      var i :| 0 <= i < |u.roles| && IsStudentRole(u.roles[i]);
      assert u.roles[i] in multiset(v.roles);
      var j :| 0 <= j < |v.roles| && v.roles[j] == u.roles[i];
    }
    if IsStudent(v) {
      var j :| 0 <= j < |v.roles| && IsStudentRole(v.roles[j]);
      assert v.roles[j] in multiset(u.roles);
      var i :| 0 <= i < |u.roles| && u.roles[i] == v.roles[j];
    }
  }

  /** ToStudent copies the identity fields; the new student has no grades yet. */
  function ToStudent(u: EnrolledUser): (s: Student)
    ensures s.email == u.email && s.firstname == u.firstname && s.fullname == u.fullname
    ensures s.id == u.id && s.lastname == u.lastname && s.username == u.username
    ensures s.grades == []
  {
    Student(u.email, u.firstname, u.fullname, u.id, u.lastname, u.username, [])
  }
}
