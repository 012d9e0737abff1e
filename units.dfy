/**
 * The unit records the API's unit repository returns: a battalion has
 * companies as children, and classes belong to companies. A relation that
 * was not loaded is absent, and reading through it throws.
 */
module Units {
  import opened Wrappers

  const Battalion: string := "battalion"
  const Company: string := "company"

  /** A unit below another, with its class ids when they were loaded. */
  datatype ChildUnit = ChildUnit(id: int, classes: Option<seq<int>>)

  /** A unit as the repository returns it. */
  datatype UnitRecord = UnitRecord(id: int, level: string, classes: Option<seq<int>>, children: Option<seq<ChildUnit>>)

  /** `xs ?? []` */
  function OrNone(xs: Option<seq<int>>): seq<int>
  {
    xs.GetOr([])
  }

  /** Every child has its class list loaded. */
  predicate ClassesLoaded(children: seq<ChildUnit>)
  {
    forall i :: 0 <= i < |children| ==> children[i].classes.Some?
  }

  /** The class ids of the children, one child after the other (`[]` for a child without a list). */
  function ChildClassIds(children: seq<ChildUnit>): seq<int>
  {
    if children == [] then [] else ChildClassIds(children[..|children| - 1]) + OrNone(children[|children| - 1].classes)
  }

  /** The ids of the children, in order. */
  function ChildIds(children: seq<ChildUnit>): (r: seq<int>)
    ensures |r| == |children| && forall i :: 0 <= i < |children| ==> r[i] == children[i].id
  {
    seq(|children|, i requires 0 <= i < |children| => children[i].id)
  }

  /** A class id is among the children's ids iff one of the children lists it. */
  lemma {:induction false} InChildClassIds(children: seq<ChildUnit>, x: int)
    ensures x in ChildClassIds(children) <==> exists i :: 0 <= i < |children| && x in OrNone(children[i].classes)
  {
    if children != [] {
      var front := children[..|children| - 1];
      InChildClassIds(front, x);
      if x in ChildClassIds(children) && x !in OrNone(children[|children| - 1].classes) {
        var i :| 0 <= i < |front| && x in OrNone(front[i].classes);
        assert children[i] == front[i];
      }
      if exists i :: 0 <= i < |children| && x in OrNone(children[i].classes) {
        var i :| 0 <= i < |children| && x in OrNone(children[i].classes);
        if i < |front| {
          assert front[i] == children[i];
        }
      }
    }
  }
}
