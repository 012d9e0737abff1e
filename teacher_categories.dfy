/**
 * The categories a user teaches in (`get_teacher_categories.php`): the courses
 * the user is enrolled in where they hold a teacher capability, grouped by
 * category in course order, each category described from its record, and the
 * list sorted by name.
 *
 * The user, course, capability and category lookups are inputs.
 */
module TeacherCategories {
  import opened Wrappers
  import opened Strs
  import opened OrderedMap

  const TeacherCapabilities: seq<string> :=
    ["moodle/course:update", "moodle/course:manageactivities", "moodle/grade:edit", "moodle/grade:viewall"]

  /** The user asked about: 0 stands for the current user. */
  function ResolveUserId(userid: int, currentUser: int): (r: int)
    ensures r == (if userid == 0 then currentUser else userid)
    ensures r == 0 ==> currentUser == 0
  {
    if userid == 0 then currentUser else userid
  }

  datatype Course = Course(id: int, category: int, fullname: string)

  /**
   * What the capability checks can see: whether a course's context can be
   * built (a course whose context fails is skipped) and whether the user holds
   * a capability in a course.
   */
  datatype Access = Access(contextOk: int -> bool, hasCapability: (int, string) -> bool)

  /** A course counts when its context is there and the user holds one of the teacher capabilities in it. */
  predicate Counted(c: Course, access: Access)
  {
    access.contextOk(c.id) && exists cap :: cap in TeacherCapabilities && access.hasCapability(c.id, cap)
  }

  /** The capability loop: stops at the first teacher capability the user holds. */
  method IsTeacher(courseid: int, access: Access) returns (isteacher: bool)
    ensures isteacher <==> exists cap :: cap in TeacherCapabilities && access.hasCapability(courseid, cap)
  {
    isteacher := false;
    var i := 0;
    while i < |TeacherCapabilities|
      invariant 0 <= i <= |TeacherCapabilities|
      invariant !isteacher
      invariant forall k :: 0 <= k < i ==> !access.hasCapability(courseid, TeacherCapabilities[k])
    {
      if access.hasCapability(courseid, TeacherCapabilities[i]) {
        isteacher := true;
        break;
      }
      i := i + 1;
    }
  }

  /** The courses of one category: ids and names in the same order. */
  datatype CourseList = CourseList(courseids: seq<int>, coursenames: seq<string>)

  /** Appending one course to its category's entry, creating the entry first if need be. */
  function AddCourse(m: seq<Pair<int, CourseList>>, c: Course): (r: seq<Pair<int, CourseList>>)
  {
    var l := Get(m, c.category);
    var prior := if l.Some? then l.value else CourseList([], []);
    Put(m, c.category, CourseList(prior.courseids + [c.id], prior.coursenames + [c.fullname]))
  }

  /** `$categorydata` after the loop over the courses. */
  function Grouped(courses: seq<Course>, access: Access): (m: seq<Pair<int, CourseList>>)
    decreases |courses|
  {
    if courses == [] then []
    else
      var m := Grouped(courses[..|courses| - 1], access);
      var c := courses[|courses| - 1];
      if Counted(c, access) then AddCourse(m, c) else m
  }

  /** The ids of the counted courses of category `k`, in course order. */
  function CountedIds(courses: seq<Course>, access: Access, k: int): seq<int>
    decreases |courses|
  {
    if courses == [] then []
    else
      var c := courses[|courses| - 1];
      CountedIds(courses[..|courses| - 1], access, k) + (if Counted(c, access) && c.category == k then [c.id] else [])
  }

  /** The names of the counted courses of category `k`, in course order. */
  function CountedNames(courses: seq<Course>, access: Access, k: int): (r: seq<string>)
    ensures |r| == |CountedIds(courses, access, k)|
    decreases |courses|
  {
    if courses == [] then []
    else
      var c := courses[|courses| - 1];
      CountedNames(courses[..|courses| - 1], access, k) + (if Counted(c, access) && c.category == k then [c.fullname] else [])
  }

  /**
   * Each category appears once; a category has an entry exactly when some
   * counted course is in it, and the entry lists those courses' ids and names
   * in course order.
   */
  lemma {:induction false} GroupedExact(courses: seq<Course>, access: Access, k: int)
    ensures DistinctKeys(Grouped(courses, access))
    ensures Get(Grouped(courses, access), k) ==
      if CountedIds(courses, access, k) == [] then None
      else Some(CourseList(CountedIds(courses, access, k), CountedNames(courses, access, k)))
    decreases |courses|
  {
    if courses != [] {
      var front := courses[..|courses| - 1];
      var c := courses[|courses| - 1];
      var m := Grouped(front, access);
      GroupedExact(front, access, k);
      GroupedExact(front, access, c.category);
      if Counted(c, access) {
        var l := Get(m, c.category);
        var prior := if l.Some? then l.value else CourseList([], []);
        var v := CourseList(prior.courseids + [c.id], prior.coursenames + [c.fullname]);
        PutKeepsDistinct(m, c.category, v);
        if k == c.category {
          GetPutSame(m, k, v);
        } else {
          GetPutOther(m, c.category, v, k);
          assert CountedIds(courses, access, k) == CountedIds(front, access, k);
          assert CountedNames(courses, access, k) == CountedNames(front, access, k);
        }
      } else {
        assert CountedIds(courses, access, k) == CountedIds(front, access, k);
        assert CountedNames(courses, access, k) == CountedNames(front, access, k);
      }
    }
  }

  /** The foreach over the enrolled courses, building `$categorydata`. */
  method GroupByCategory(courses: seq<Course>, access: Access) returns (categorydata: seq<Pair<int, CourseList>>)
    ensures categorydata == Grouped(courses, access)
  {
    categorydata := [];
    for i := 0 to |courses|
      invariant categorydata == Grouped(courses[..i], access)
    {
      var course := courses[i];
      assert courses[..i + 1][..i] == courses[..i];
      if access.contextOk(course.id) {
        var isteacher := IsTeacher(course.id, access);
        if isteacher {
          var entry := Get(categorydata, course.category);
          if entry.None? {
            categorydata := Put(categorydata, course.category, CourseList([], []));
            assert Get(categorydata, course.category) == Some(CourseList([], [])) by {
              GroupedExact(courses[..i], access, course.category);
              GetPutSame(Grouped(courses[..i], access), course.category, CourseList([], []));
            }
            categorydata := Put(categorydata, course.category, CourseList([course.id], [course.fullname]));
            assert categorydata == AddCourse(Grouped(courses[..i], access), course) by {
              var g := Grouped(courses[..i], access);
              assert Get(g, course.category).None?;
              PutTwice(g, course.category, CourseList([], []), CourseList([course.id], [course.fullname]));
              assert CourseList([course.id], [course.fullname]) == CourseList([] + [course.id], [] + [course.fullname]);
            }
          } else {
            var l := entry.value;
            categorydata := Put(categorydata, course.category, CourseList(l.courseids + [course.id], l.coursenames + [course.fullname]));
          }
        }
      }
    }
    assert courses[..|courses|] == courses;
  }

  /** Writing a key twice is writing the second value. */
  lemma PutTwice<K, V>(m: seq<Pair<K, V>>, k: K, v1: V, v2: V)
    requires KeyIndex(m, k).None?
    ensures Put(Put(m, k, v1), k, v2) == Put(m, k, v2)
  {
    var r := Put(m, k, v1);
    assert r == m + [Pair(k, v1)];
    assert KeyIndex(r, k) == Some(|m|);
  }

  /** A category record as the database returns it. */
  datatype CategoryRecord = CategoryRecord(
    id: int, name: string, description: Option<string>, parent: int, path: string,
    depth: int, visible: int, sortorder: int, idnumber: string)

  /** One category of the answer. */
  datatype CategoryEntry = CategoryEntry(
    id: int, name: string, description: string, parent: int, parentname: string, path: string,
    depth: int, visible: int, sortorder: int, coursecount: nat, courseids: seq<int>, idnumber: string)

  /** The parent's name: "" for a top-level category or a parent that is not found. */
  function ParentName(rec: CategoryRecord, categoryOf: int -> Option<CategoryRecord>): (name: string)
    ensures rec.parent <= 0 || categoryOf(rec.parent).None? ==> name == ""
    ensures rec.parent > 0 && categoryOf(rec.parent).Some? ==> name == categoryOf(rec.parent).value.name
  {
    if rec.parent > 0 then
      var parent := categoryOf(rec.parent);
      if parent.Some? then parent.value.name else ""
    else ""
  }

  /**
   * The entry of a found category with its courses. The description is run
   * through Moodle's `strip_tags`, an input here; a missing description is "".
   */
  function EntryOf(rec: CategoryRecord, courses: CourseList, categoryOf: int -> Option<CategoryRecord>,
                   stripTags: string -> string): (e: CategoryEntry)
    ensures e.id == rec.id && e.name == rec.name && e.parent == rec.parent
    ensures e.description == stripTags(if rec.description.Some? then rec.description.value else "")
    ensures e.parentname == ParentName(rec, categoryOf)
    ensures e.coursecount == |e.courseids| && e.courseids == courses.courseids
  {
    CategoryEntry(rec.id, rec.name, stripTags(if rec.description.Some? then rec.description.value else ""),
                  rec.parent, ParentName(rec, categoryOf), rec.path, rec.depth, rec.visible,
                  rec.sortorder, |courses.courseids|, courses.courseids, rec.idnumber)
  }

  /** The entries of the grouped categories whose record is found, in grouping order. */
  function Entries(categorydata: seq<Pair<int, CourseList>>, categoryOf: int -> Option<CategoryRecord>,
                   stripTags: string -> string)
    : (r: seq<CategoryEntry>)
    ensures |r| <= |categorydata|
    decreases |categorydata|
  {
    if categorydata == [] then []
    else
      var p := categorydata[|categorydata| - 1];
      var rest := Entries(categorydata[..|categorydata| - 1], categoryOf, stripTags);
      if categoryOf(p.key).Some? then rest + [EntryOf(categoryOf(p.key).value, p.val, categoryOf, stripTags)] else rest
  }

  /**
   * Every entry describes a grouped category whose record is found, and every
   * such category has its entry: categories whose record is missing are dropped.
   */
  lemma {:induction false} EntriesExact(categorydata: seq<Pair<int, CourseList>>, categoryOf: int -> Option<CategoryRecord>,
                                       stripTags: string -> string, e: CategoryEntry)
    ensures e in Entries(categorydata, categoryOf, stripTags) <==>
      exists p :: p in categorydata && categoryOf(p.key).Some? && e == EntryOf(categoryOf(p.key).value, p.val, categoryOf, stripTags)
    decreases |categorydata|
  {
    if categorydata != [] {
      var front := categorydata[..|categorydata| - 1];
      var last := categorydata[|categorydata| - 1];
      EntriesExact(front, categoryOf, stripTags, e);
      assert categorydata == front + [last];
      if exists p :: p in categorydata && categoryOf(p.key).Some? && e == EntryOf(categoryOf(p.key).value, p.val, categoryOf, stripTags) {
        var p :| p in categorydata && categoryOf(p.key).Some? && e == EntryOf(categoryOf(p.key).value, p.val, categoryOf, stripTags);
        if p != last {
          assert p in front;
        }
      }
    }
  }

  /** The foreach over `$categorydata`, building `$categories`. */
  method ListCategories(categorydata: seq<Pair<int, CourseList>>, categoryOf: int -> Option<CategoryRecord>,
                        stripTags: string -> string)
    returns (categories: seq<CategoryEntry>)
    ensures categories == Entries(categorydata, categoryOf, stripTags)
  {
    categories := [];
    for i := 0 to |categorydata|
      invariant categories == Entries(categorydata[..i], categoryOf, stripTags)
    {
      assert categorydata[..i + 1][..i] == categorydata[..i];
      var categoryid := categorydata[i].key;
      var category := categoryOf(categoryid);
      if category.Some? {
        var parentname := "";
        if category.value.parent > 0 {
          var parent := categoryOf(category.value.parent);
          parentname := if parent.Some? then parent.value.name else "";
        }
        var rec := category.value;
        var courseids := categorydata[i].val.courseids;
        categories := categories + [CategoryEntry(
          rec.id, rec.name, stripTags(if rec.description.Some? then rec.description.value else ""),
          rec.parent, parentname, rec.path, rec.depth, rec.visible, rec.sortorder,
          |courseids|, courseids, rec.idnumber)];
      }
    }
    assert categorydata[..|categorydata|] == categorydata;
  }

  // ---------------------------------------------------------------------------
  // Sorting by name
  // ---------------------------------------------------------------------------

  predicate SortedByName(s: seq<CategoryEntry>)
  {
    forall i, j :: 0 <= i < j < |s| ==> StrLe(s[i].name, s[j].name)
  }

  /** Placing one entry after every entry whose name is not greater. */
  function InsertByName(sorted: seq<CategoryEntry>, e: CategoryEntry): (r: seq<CategoryEntry>)
    ensures multiset(r) == multiset(sorted) + multiset{e}
    decreases |sorted|
  {
    if sorted == [] then [e]
    else
      var last := sorted[|sorted| - 1];
      if StrLe(last.name, e.name) then sorted + [e]
      else
        var front := sorted[..|sorted| - 1];
        assert sorted == front + [last];
        InsertByName(front, e) + [last]
  }

  /** `usort` by strcmp on the name; PHP 8's sort is stable, as insertion sort is. */
  function SortByName(s: seq<CategoryEntry>): (r: seq<CategoryEntry>)
    ensures multiset(r) == multiset(s)
    decreases |s|
  {
    if s == [] then []
    else
      var front := s[..|s| - 1];
      assert s == front + [s[|s| - 1]];
      InsertByName(SortByName(front), s[|s| - 1])
  }

  lemma {:induction false} InsertByNameSorted(sorted: seq<CategoryEntry>, e: CategoryEntry)
    requires SortedByName(sorted)
    ensures SortedByName(InsertByName(sorted, e))
    decreases |sorted|
  {
    if sorted != [] {
      var last := sorted[|sorted| - 1];
      var r := InsertByName(sorted, e);
      if StrLe(last.name, e.name) {
        forall i, j | 0 <= i < j < |r| ensures StrLe(r[i].name, r[j].name) {
          if j == |sorted| && i < |sorted| - 1 {
            StrLeTransitive(r[i].name, last.name, e.name);
          }
        }
      } else {
        var front := sorted[..|sorted| - 1];
        InsertByNameSorted(front, e);
        var t := InsertByName(front, e);
        StrLeTotal(last.name, e.name);
        forall x | x in t ensures StrLe(x.name, last.name) {
          assert x in multiset(t);
          if x != e {
            assert x in multiset(front);
          }
        }
        forall i, j | 0 <= i < j < |r| ensures StrLe(r[i].name, r[j].name) {
          if j == |t| {
            assert r[i] in t;
          }
        }
      }
    }
  }

  /** The sorted list is ordered by name. */
  lemma {:induction false} SortByNameSorted(s: seq<CategoryEntry>)
    ensures SortedByName(SortByName(s))
    decreases |s|
  {
    if s != [] {
      SortByNameSorted(s[..|s| - 1]);
      InsertByNameSorted(SortByName(s[..|s| - 1]), s[|s| - 1]);
    }
  }

  // ---------------------------------------------------------------------------
  // The whole call
  // ---------------------------------------------------------------------------

  datatype UserRecord = UserRecord(username: string, firstname: string, lastname: string, email: string)

  datatype Response = Response(
    userid: int, username: string, firstname: string, lastname: string, email: string,
    categories: seq<CategoryEntry>, totalcategories: nat)

  /**
   * `get_teacher_categories`: fails when the user does not exist; otherwise
   * the user's details and the sorted categories with their count.
   */
  method GetTeacherCategories(userid: int, currentUser: int, userOf: int -> Option<UserRecord>,
                              enrolledCourses: int -> seq<Course>, access: Access,
                              categoryOf: int -> Option<CategoryRecord>, stripTags: string -> string)
    returns (r: Result<Response, string>)
    ensures var uid := ResolveUserId(userid, currentUser);
      && (userOf(uid).None? <==> r.Err?)
      && (r.Ok? ==>
        && r.value.userid == uid
        && r.value.username == userOf(uid).value.username
        && r.value.categories == SortByName(Entries(Grouped(enrolledCourses(uid), access), categoryOf, stripTags))
        && r.value.totalcategories == |r.value.categories|)
  {
    var uid := userid;
    if uid == 0 {
      uid := currentUser;
    }
    var user := userOf(uid);
    if user.None? {
      return Err("invalidrecord");
    }
    var categorydata := GroupByCategory(enrolledCourses(uid), access);
    var categories := ListCategories(categorydata, categoryOf, stripTags);
    categories := SortByName(categories);
    var u := user.value;
    return Ok(Response(uid, u.username, u.firstname, u.lastname, u.email, categories, |categories|));
  }
}
