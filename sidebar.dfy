/**
 * The sidebar's navigation tree (`packages/ui/src/components/app-sidebar/useSidebar.tsx`):
 * the tree utilities (find, flatten, filter, mark active, search) and the hook
 * that splices a group of dynamic items into a copy of the main navigation.
 *
 * A list of items is handled as the children of a node, so that recursion
 * over a child list decreases through the node that owns it; a top-level list
 * is the children of `Root(items)`.
 */
module Sidebar {
  import opened Wrappers
  import opened Strs

  /** A navigation item. */
  datatype NavItem = NavItem(title: string, url: string, isActive: Option<bool>, items: Children)

  /** The `items` of an item: absent (undefined) or a list, where `[]` counts as present. */
  datatype Children = Absent | Items(list: seq<NavItem>)

  /** The rest of the sidebar data is carried unchanged. */
  datatype SidebarData<R> = SidebarData(navMain: seq<NavItem>, others: R)

  /** The children of an item, none when `items` is absent. */
  function Kids(item: NavItem): (r: seq<NavItem>)
    ensures item.items.Items? ==> r == item.items.list
    ensures item.items.Absent? ==> r == []
  {
    if item.items.Items? then item.items.list else []
  }

  /** A node whose children are the given list. */
  function Root(items: seq<NavItem>): (r: NavItem)
    ensures Kids(r) == items
  {
    NavItem("", "", None, Items(items))
  }

  // ---------------------------------------------------------------------------
  // flattenNavItems
  // ---------------------------------------------------------------------------

  /** The item followed by the flattening of its children. */
  function Flatten(item: NavItem): (r: seq<NavItem>)
    ensures |r| >= 1 && r[0] == item
    decreases item, 1
  {
    [item] + FlattenKids(item, |Kids(item)|)
  }

  /** The flattening of the first `n` children of an item, one after the other. */
  function FlattenKids(item: NavItem, n: nat): seq<NavItem>
    requires n <= |Kids(item)|
    decreases item, 0, n
  {
    if n == 0 then [] else FlattenKids(item, n - 1) + Flatten(Kids(item)[n - 1])
  }

  /** `flattenNavItems`: every item of the list in preorder. */
  function FlattenNavItems(items: seq<NavItem>): (r: seq<NavItem>)
    ensures |r| == SizeKids(Root(items), |items|)
  {
    FlattenKidsSize(Root(items), |items|);
    FlattenKids(Root(items), |items|)
  }

  /** The number of nodes of a tree. */
  function Size(item: NavItem): nat
    decreases item, 1
  {
    1 + SizeKids(item, |Kids(item)|)
  }

  function SizeKids(item: NavItem, n: nat): nat
    requires n <= |Kids(item)|
    decreases item, 0, n
  {
    if n == 0 then 0 else SizeKids(item, n - 1) + Size(Kids(item)[n - 1])
  }

  /** The preorder listing has one entry per node. */
  lemma {:induction false} FlattenSize(item: NavItem)
    ensures |Flatten(item)| == Size(item)
    decreases item, 1
  {
    FlattenKidsSize(item, |Kids(item)|);
  }

  lemma {:induction false} FlattenKidsSize(item: NavItem, n: nat)
    requires n <= |Kids(item)|
    ensures |FlattenKids(item, n)| == SizeKids(item, n)
    decreases item, 0, n
  {
    if n > 0 {
      FlattenKidsSize(item, n - 1);
      FlattenSize(Kids(item)[n - 1]);
    }
  }

  /** `flattenNavItems` lists as many items as the trees of the list have nodes. */
  lemma FlattenNavItemsSize(items: seq<NavItem>)
    ensures |FlattenNavItems(items)| == SizeKids(Root(items), |items|)
  {
    FlattenKidsSize(Root(items), |items|);
  }

  /** A node is listed by the flattening of the first `n` children iff one of their trees lists it. */
  lemma {:induction false} InFlattenKids(item: NavItem, n: nat, x: NavItem)
    requires n <= |Kids(item)|
    ensures x in FlattenKids(item, n) <==> exists j :: 0 <= j < n && x in Flatten(Kids(item)[j])
  {
    if n > 0 {
      InFlattenKids(item, n - 1, x);
    }
  }

  /** Flattening the children depends only on the children. */
  lemma {:induction false} FlattenKidsOf(a: NavItem, b: NavItem, n: nat)
    requires n <= |Kids(a)| && n <= |Kids(b)| && Kids(a)[..n] == Kids(b)[..n]
    ensures FlattenKids(a, n) == FlattenKids(b, n)
  {
    if n > 0 {
      assert Kids(a)[n - 1] == Kids(a)[..n][n - 1];
      assert Kids(a)[..n - 1] == Kids(a)[..n][..n - 1];
      assert Kids(b)[..n - 1] == Kids(b)[..n][..n - 1];
    }
    if n > 0 {
      FlattenKidsOf(a, b, n - 1);
    }
  }

  // ---------------------------------------------------------------------------
  // findActiveItem
  // ---------------------------------------------------------------------------

  /** The first entry of a listing whose url is `path`. */
  function FirstWithUrl(s: seq<NavItem>, path: string): (r: Option<NavItem>)
    ensures r.Some? ==> r.value.url == path
  {
    if s == [] then None
    else if s[0].url == path then Some(s[0])
    else FirstWithUrl(s[1..], path)
  }

  /** The entry found is the first one with that url, and there is none exactly when no entry has it. */
  lemma {:induction false} FirstWithUrlSpec(s: seq<NavItem>, path: string)
    ensures FirstWithUrl(s, path).None? <==> forall x :: x in s ==> x.url != path
    ensures FirstWithUrl(s, path).Some? ==> exists i :: (0 <= i < |s| && s[i] == FirstWithUrl(s, path).value &&
      forall j :: 0 <= j < i ==> s[j].url != path)
  {
    if s != [] && s[0].url != path {
      FirstWithUrlSpec(s[1..], path);
      assert forall x :: x in s ==> x == s[0] || x in s[1..];
      if FirstWithUrl(s, path).Some? {
        var i :| 0 <= i < |s[1..]| && s[1..][i] == FirstWithUrl(s, path).value &&
          forall j :: 0 <= j < i ==> s[1..][j].url != path;
        assert s[i + 1] == FirstWithUrl(s, path).value;
      }
    }
  }

  lemma {:induction false} FirstWithUrlAppend(a: seq<NavItem>, b: seq<NavItem>, path: string)
    ensures FirstWithUrl(a + b, path) == if FirstWithUrl(a, path).Some? then FirstWithUrl(a, path) else FirstWithUrl(b, path)
  {
    if a != [] {
      assert (a + b)[1..] == a[1..] + b;
      FirstWithUrlAppend(a[1..], b, path);
    } else {
      assert a + b == b;
    }
  }

  /** The item itself when its url is the path, else the first match below it. */
  function FindNode(item: NavItem, path: string): Option<NavItem>
    decreases item, 1
  {
    if item.url == path then Some(item) else FindKids(item, |Kids(item)|, path)
  }

  /** The search of `findActiveItem` over the first `n` children, stopping at the first match. */
  function FindKids(item: NavItem, n: nat, path: string): Option<NavItem>
    requires n <= |Kids(item)|
    decreases item, 0, n
  {
    if n == 0 then None
    else
      var found := FindKids(item, n - 1, path);
      if found.Some? then found else FindNode(Kids(item)[n - 1], path)
  }

  /** `findActiveItem`: the match found searching the list in order, each item before its children. */
  function FindActiveItem(items: seq<NavItem>, path: string): (r: Option<NavItem>)
    ensures r.Some? ==> r.value.url == path
  {
    FindKidsFirst(Root(items), |items|, path);
    FindKids(Root(items), |items|, path)
  }

  lemma {:induction false} FindNodeFirst(item: NavItem, path: string)
    ensures FindNode(item, path) == FirstWithUrl(Flatten(item), path)
    decreases item, 1
  {
    FindKidsFirst(item, |Kids(item)|, path);
    FirstWithUrlAppend([item], FlattenKids(item, |Kids(item)|), path);
  }

  lemma {:induction false} FindKidsFirst(item: NavItem, n: nat, path: string)
    requires n <= |Kids(item)|
    ensures FindKids(item, n, path) == FirstWithUrl(FlattenKids(item, n), path)
    decreases item, 0, n
  {
    if n > 0 {
      FindKidsFirst(item, n - 1, path);
      FindNodeFirst(Kids(item)[n - 1], path);
      FirstWithUrlAppend(FlattenKids(item, n - 1), Flatten(Kids(item)[n - 1]), path);
    }
  }

  /**
   * `findActiveItem` returns the first item in preorder whose url is the path,
   * and null exactly when no item of the tree has that url.
   */
  lemma FindActiveItemFirst(items: seq<NavItem>, path: string)
    ensures FindActiveItem(items, path) == FirstWithUrl(FlattenNavItems(items), path)
    ensures FindActiveItem(items, path).None? <==> forall x :: x in FlattenNavItems(items) ==> x.url != path
    ensures FindActiveItem(items, path).Some? ==> exists i :: (0 <= i < |FlattenNavItems(items)| &&
      FlattenNavItems(items)[i] == FindActiveItem(items, path).value && FindActiveItem(items, path).value.url == path &&
      forall j :: 0 <= j < i ==> FlattenNavItems(items)[j].url != path)
  {
    FindKidsFirst(Root(items), |items|, path);
    FirstWithUrlSpec(FlattenNavItems(items), path);
  }

  // ---------------------------------------------------------------------------
  // setActiveItems
  // ---------------------------------------------------------------------------

  /** An item marked active iff its url is the path, and its children likewise. */
  function SetActive(item: NavItem, path: string): (r: NavItem)
    ensures r.title == item.title && r.url == item.url && r.isActive == Some(item.url == path)
    ensures r.items.Items? == item.items.Items?
    decreases item
  {
    var kids := Kids(item);
    item.(isActive := Some(item.url == path),
          items := if item.items.Items? then Items(seq(|kids|, j requires 0 <= j < |kids| => SetActive(kids[j], path))) else Absent)
  }

  /** `setActiveItems` */
  function SetActiveItems(items: seq<NavItem>, path: string): (r: seq<NavItem>)
    ensures |r| == |items|
  {
    seq(|items|, j requires 0 <= j < |items| => SetActive(items[j], path))
  }

  /** The tree with every active flag erased: its shape, titles and urls. */
  function Shape(item: NavItem): (r: NavItem)
    ensures r.title == item.title && r.url == item.url && r.isActive == None
    decreases item
  {
    var kids := Kids(item);
    item.(isActive := None,
          items := if item.items.Items? then Items(seq(|kids|, j requires 0 <= j < |kids| => Shape(kids[j]))) else Absent)
  }

  /** Marking the active items keeps the shape of the tree. */
  lemma {:induction false} SetActiveShape(item: NavItem, path: string)
    ensures Shape(SetActive(item, path)) == Shape(item)
    decreases item
  {
    var kids := Kids(item);
    var r := SetActive(item, path);
    forall j | 0 <= j < |kids|
      ensures Shape(SetActive(kids[j], path)) == Shape(kids[j])
    {
      SetActiveShape(kids[j], path);
    }
    if item.items.Items? {
      assert Kids(r) == seq(|kids|, j requires 0 <= j < |kids| => SetActive(kids[j], path));
      assert Shape(r).items.list == Shape(item).items.list;
    }
  }

  /** Every node of a marked tree is active iff its url is the path. */
  lemma {:induction false} SetActiveMarks(item: NavItem, path: string)
    ensures forall x :: x in Flatten(SetActive(item, path)) ==> x.isActive == Some(x.url == path)
    decreases item, 1
  {
    var r := SetActive(item, path);
    forall x | x in FlattenKids(r, |Kids(r)|)
      ensures x.isActive == Some(x.url == path)
    {
      InFlattenKids(r, |Kids(r)|, x);
      var j :| 0 <= j < |Kids(r)| && x in Flatten(Kids(r)[j]);
      SetActiveMarks(Kids(item)[j], path);
    }
  }

  /**
   * `setActiveItems` keeps the tree's shape, and afterwards every node is
   * active iff its url is the active path.
   */
  lemma SetActiveItemsSpec(items: seq<NavItem>, path: string)
    ensures forall j :: 0 <= j < |items| ==> Shape(SetActiveItems(items, path)[j]) == Shape(items[j])
    ensures forall x :: x in FlattenNavItems(SetActiveItems(items, path)) ==> x.isActive == Some(x.url == path)
  {
    var r := SetActiveItems(items, path);
    forall j | 0 <= j < |items|
      ensures Shape(r[j]) == Shape(items[j])
    {
      SetActiveShape(items[j], path);
    }
    forall x | x in FlattenNavItems(r)
      ensures x.isActive == Some(x.url == path)
    {
      InFlattenKids(Root(r), |r|, x);
      var j :| 0 <= j < |r| && x in Flatten(r[j]);
      SetActiveMarks(items[j], path);
    }
  }

  // ---------------------------------------------------------------------------
  // filterNavItems
  // ---------------------------------------------------------------------------

  /** A kept item with its children filtered in turn. */
  function FilterNode(item: NavItem, keep: NavItem -> bool): NavItem
    decreases item, 1
  {
    item.(items := if item.items.Items? then Items(FilterKids(item, |Kids(item)|, keep)) else Absent)
  }

  /** The first `n` children that pass the predicate, each with its children filtered. */
  function FilterKids(item: NavItem, n: nat, keep: NavItem -> bool): (r: seq<NavItem>)
    requires n <= |Kids(item)|
    ensures |r| <= n
    decreases item, 0, n
  {
    if n == 0 then []
    else
      var k := Kids(item)[n - 1];
      FilterKids(item, n - 1, keep) + (if keep(k) then [FilterNode(k, keep)] else [])
  }

  /** `filterNavItems` */
  function FilterNavItems(items: seq<NavItem>, keep: NavItem -> bool): (r: seq<NavItem>)
    ensures |r| <= |items|
  {
    FilterKids(Root(items), |items|, keep)
  }

  /** The nodes of a tree reached through passing nodes only: a rejected node brings none of its subtree. */
  function Reached(item: NavItem, keep: NavItem -> bool): seq<NavItem>
    decreases item, 1
  {
    if keep(item) then [item] + ReachedKids(item, |Kids(item)|, keep) else []
  }

  function ReachedKids(item: NavItem, n: nat, keep: NavItem -> bool): seq<NavItem>
    requires n <= |Kids(item)|
    decreases item, 0, n
  {
    if n == 0 then [] else ReachedKids(item, n - 1, keep) + Reached(Kids(item)[n - 1], keep)
  }

  /** Each node of a list after filtering, in preorder. */
  function Filtered(s: seq<NavItem>, keep: NavItem -> bool): (r: seq<NavItem>)
    ensures |r| == |s|
  {
    seq(|s|, j requires 0 <= j < |s| => FilterNode(s[j], keep))
  }

  lemma FilteredAppend(a: seq<NavItem>, b: seq<NavItem>, keep: NavItem -> bool)
    ensures Filtered(a + b, keep) == Filtered(a, keep) + Filtered(b, keep)
  {
  }

  lemma {:induction false} FilterNodeFlatten(item: NavItem, keep: NavItem -> bool)
    requires keep(item)
    ensures Flatten(FilterNode(item, keep)) == Filtered(Reached(item, keep), keep)
    decreases item, 1
  {
    var f := FilterNode(item, keep);
    var n := |Kids(item)|;
    assert Kids(f) == FilterKids(item, n, keep);
    FlattenKidsOf(f, Root(FilterKids(item, n, keep)), |Kids(f)|);
    FilterKidsFlatten(item, n, keep);
    FilteredAppend([item], ReachedKids(item, n, keep), keep);
    assert Flatten(f) == [f] + FlattenKids(f, |Kids(f)|);
    assert Reached(item, keep) == [item] + ReachedKids(item, n, keep);
    assert Filtered([item], keep) == [f];
  }

  /** Listing one more item lists its tree after the others. */
  lemma FlattenNavItemsSnoc(before: seq<NavItem>, x: NavItem)
    ensures FlattenNavItems(before + [x]) == FlattenNavItems(before) + Flatten(x)
  {
    var after := before + [x];
    assert after[..|before|] == before[..|before|];
    FlattenKidsOf(Root(after), Root(before), |before|);
  }

  /** Filtering and reaching one more child: a passing child adds its filtered node and its reached nodes, another adds nothing. */
  lemma FilterKidsLast(item: NavItem, n: nat, keep: NavItem -> bool)
    requires 0 < n <= |Kids(item)|
    ensures keep(Kids(item)[n - 1]) ==>
      FilterKids(item, n, keep) == FilterKids(item, n - 1, keep) + [FilterNode(Kids(item)[n - 1], keep)] &&
      ReachedKids(item, n, keep) == ReachedKids(item, n - 1, keep) + Reached(Kids(item)[n - 1], keep)
    ensures !keep(Kids(item)[n - 1]) ==>
      FilterKids(item, n, keep) == FilterKids(item, n - 1, keep) &&
      ReachedKids(item, n, keep) == ReachedKids(item, n - 1, keep)
  {
    if !keep(Kids(item)[n - 1]) {
      assert FilterKids(item, n - 1, keep) + [] == FilterKids(item, n - 1, keep);
      assert ReachedKids(item, n - 1, keep) + [] == ReachedKids(item, n - 1, keep);
    }
  }

  /** The flattening of a passing child's filtered node extends that of the children before it. */
  lemma FilterKidsFlattenStep(item: NavItem, n: nat, keep: NavItem -> bool)
    requires 0 < n <= |Kids(item)| && keep(Kids(item)[n - 1])
    requires FlattenNavItems(FilterKids(item, n - 1, keep)) == Filtered(ReachedKids(item, n - 1, keep), keep)
    requires Flatten(FilterNode(Kids(item)[n - 1], keep)) == Filtered(Reached(Kids(item)[n - 1], keep), keep)
    ensures FlattenNavItems(FilterKids(item, n, keep)) == Filtered(ReachedKids(item, n, keep), keep)
  {
    var k := Kids(item)[n - 1];
    FilterKidsLast(item, n, keep);
    FilteredAppend(ReachedKids(item, n - 1, keep), Reached(k, keep), keep);
    FlattenNavItemsSnoc(FilterKids(item, n - 1, keep), FilterNode(k, keep));
  }

  lemma {:induction false} FilterKidsFlatten(item: NavItem, n: nat, keep: NavItem -> bool)
    requires n <= |Kids(item)|
    ensures FlattenNavItems(FilterKids(item, n, keep)) == Filtered(ReachedKids(item, n, keep), keep)
    decreases item, 0, n
  {
    if n > 0 {
      var k := Kids(item)[n - 1];
      FilterKidsFlatten(item, n - 1, keep);
      FilterKidsLast(item, n, keep);
      if keep(k) {
        FilterNodeFlatten(k, keep);
        FilterKidsFlattenStep(item, n, keep);
      }
    }
  }

  /** A reached node is a node of the tree and passes the predicate. */
  lemma {:induction false} ReachedSound(item: NavItem, keep: NavItem -> bool)
    ensures forall y :: y in Reached(item, keep) ==> y in Flatten(item) && keep(y)
    decreases item, 1
  {
    if keep(item) {
      ReachedKidsSound(item, |Kids(item)|, keep);
    }
  }

  lemma {:induction false} ReachedKidsSound(item: NavItem, n: nat, keep: NavItem -> bool)
    requires n <= |Kids(item)|
    ensures forall y :: y in ReachedKids(item, n, keep) ==> y in FlattenKids(item, n) && keep(y)
    decreases item, 0, n
  {
    if n > 0 {
      ReachedKidsSound(item, n - 1, keep);
      ReachedSound(Kids(item)[n - 1], keep);
    }
  }

  /**
   * `filterNavItems` lists, in preorder, exactly the nodes whose every ancestor
   * and themselves pass the predicate (each with its children filtered); so each
   * listed node comes from a passing node of the tree, and a rejected node takes
   * its whole subtree with it.
   */
  lemma FilterNavItemsSpec(items: seq<NavItem>, keep: NavItem -> bool)
    ensures FlattenNavItems(FilterNavItems(items, keep)) == Filtered(ReachedKids(Root(items), |items|, keep), keep)
    ensures forall x :: x in FlattenNavItems(FilterNavItems(items, keep)) ==>
      exists y :: y in FlattenNavItems(items) && keep(y) && x == FilterNode(y, keep)
  {
    FilterKidsFlatten(Root(items), |items|, keep);
    ReachedKidsSound(Root(items), |items|, keep);
    var reached := ReachedKids(Root(items), |items|, keep);
    forall x | x in FlattenNavItems(FilterNavItems(items, keep))
      ensures exists y :: y in FlattenNavItems(items) && keep(y) && x == FilterNode(y, keep)
    {
      var i :| 0 <= i < |reached| && Filtered(reached, keep)[i] == x;
      assert reached[i] in reached;
    }
  }

  /** A predicate that passes every node leaves the list as it is. */
  lemma {:induction false} FilterNodeAll(item: NavItem, keep: NavItem -> bool)
    requires forall y :: y in Flatten(item) ==> keep(y)
    ensures FilterNode(item, keep) == item
    decreases item, 1
  {
    FilterKidsAll(item, |Kids(item)|, keep);
    assert FilterKids(item, |Kids(item)|, keep) == Kids(item);
  }

  /** A predicate that passes the trees of the first `n` children passes those of the first `n - 1`, the last child and its tree. */
  lemma AllKeptSplit(item: NavItem, n: nat, keep: NavItem -> bool)
    requires 0 < n <= |Kids(item)|
    requires forall y :: y in FlattenKids(item, n) ==> keep(y)
    ensures forall y :: y in FlattenKids(item, n - 1) ==> keep(y)
    ensures forall y :: y in Flatten(Kids(item)[n - 1]) ==> keep(y)
    ensures keep(Kids(item)[n - 1])
  {
    var k := Kids(item)[n - 1];
    assert FlattenKids(item, n) == FlattenKids(item, n - 1) + Flatten(k);
    assert k == Flatten(k)[0];
  }

  /** A passing child left as it is extends the children kept as they are. */
  lemma FilterKidsAllStep(item: NavItem, n: nat, keep: NavItem -> bool)
    requires 0 < n <= |Kids(item)| && keep(Kids(item)[n - 1])
    requires FilterKids(item, n - 1, keep) == Kids(item)[..n - 1]
    requires FilterNode(Kids(item)[n - 1], keep) == Kids(item)[n - 1]
    ensures FilterKids(item, n, keep) == Kids(item)[..n]
  {
    FilterKidsLast(item, n, keep);
    assert Kids(item)[..n] == Kids(item)[..n - 1] + [Kids(item)[n - 1]];
  }

  lemma {:induction false} FilterKidsAll(item: NavItem, n: nat, keep: NavItem -> bool)
    requires n <= |Kids(item)|
    requires forall y :: y in FlattenKids(item, n) ==> keep(y)
    ensures FilterKids(item, n, keep) == Kids(item)[..n]
    decreases item, 0, n
  {
    if n > 0 {
      var k := Kids(item)[n - 1];
      AllKeptSplit(item, n, keep);
      FilterKidsAll(item, n - 1, keep);
      FilterNodeAll(k, keep);
      FilterKidsAllStep(item, n, keep);
    }
  }

  lemma FilterNavItemsAll(items: seq<NavItem>, keep: NavItem -> bool)
    requires forall y :: y in FlattenNavItems(items) ==> keep(y)
    ensures FilterNavItems(items, keep) == items
  {
    FilterKidsAll(Root(items), |items|, keep);
    assert items[..|items|] == items;
  }

  // ---------------------------------------------------------------------------
  // searchNavItems
  // ---------------------------------------------------------------------------

  /** The lower-cased title contains the lower-cased term. */
  predicate TitleHas(x: NavItem, term: string)
  {
    Contains(Lower(x.title), Lower(term))
  }

  /** Some node of the tree has the term in its title. */
  predicate Matches(item: NavItem, term: string)
  {
    exists x :: x in Flatten(item) && TitleHas(x, term)
  }

  /**
   * `searchNavItems` over the first `n` children: the term is lower-cased, an
   * item stays when its title has the term or its own search keeps something,
   * and it keeps its searched children.
   */
  function SearchKids(item: NavItem, n: nat, searchTerm: string): (r: seq<NavItem>)
    requires n <= |Kids(item)|
    ensures |r| <= n
    decreases item, 0, n
  {
    if n == 0 then []
    else
      var term := Lower(searchTerm);
      var k := Kids(item)[n - 1];
      var sub := SearchKids(k, |Kids(k)|, term);
      SearchKids(item, n - 1, searchTerm)
      + (if Contains(Lower(k.title), term) || (k.items.Items? && |sub| > 0)
         then [k.(items := if k.items.Items? then Items(sub) else Absent)]
         else [])
  }

  /** `searchNavItems` */
  function SearchNavItems(items: seq<NavItem>, searchTerm: string): (r: seq<NavItem>)
    ensures |r| <= |items|
  {
    SearchKids(Root(items), |items|, searchTerm)
  }

  /** The first `n` children that pass `p`, as they are. */
  function KidsWhere(item: NavItem, n: nat, p: NavItem -> bool): seq<NavItem>
    requires n <= |Kids(item)|
  {
    if n == 0 then []
    else KidsWhere(item, n - 1, p) + (if p(Kids(item)[n - 1]) then [Kids(item)[n - 1]] else [])
  }

  /** Some of the first `n` children pass `p` iff the children kept are not none. */
  lemma {:induction false} KidsWhereNonEmpty(item: NavItem, n: nat, p: NavItem -> bool)
    requires n <= |Kids(item)|
    ensures |KidsWhere(item, n, p)| > 0 <==> exists j :: 0 <= j < n && p(Kids(item)[j])
  {
    if n > 0 {
      KidsWhereNonEmpty(item, n - 1, p);
      if p(Kids(item)[n - 1]) {
        assert 0 <= n - 1 < n;
      } else if exists j :: 0 <= j < n && p(Kids(item)[j]) {
        var j :| 0 <= j < n && p(Kids(item)[j]);
        assert j < n - 1;
      }
    }
  }

  /** The first `n` children that match the term, as they are. */
  function MatchingKids(item: NavItem, n: nat, term: string): seq<NavItem>
    requires n <= |Kids(item)|
  {
    KidsWhere(item, n, x => Matches(x, term))
  }

  /** Some of the first `n` children match iff the matching children are not none. */
  lemma MatchingKidsNonEmpty(item: NavItem, n: nat, term: string)
    requires n <= |Kids(item)|
    ensures |MatchingKids(item, n, term)| > 0 <==> exists j :: 0 <= j < n && Matches(Kids(item)[j], term)
  {
    KidsWhereNonEmpty(item, n, x => Matches(x, term));
  }

  /** A tree matches iff its root's title has the term or one of its children matches. */
  lemma MatchesUnfold(item: NavItem, term: string)
    ensures Matches(item, term) <==> TitleHas(item, term) || exists j :: 0 <= j < |Kids(item)| && Matches(Kids(item)[j], term)
  {
    if Matches(item, term) && !TitleHas(item, term) {
      var x :| x in Flatten(item) && TitleHas(x, term);
      InFlattenKids(item, |Kids(item)|, x);
      var j :| 0 <= j < |Kids(item)| && x in Flatten(Kids(item)[j]);
      assert Matches(Kids(item)[j], term);
    }
    if exists j :: 0 <= j < |Kids(item)| && Matches(Kids(item)[j], term) {
      var j :| 0 <= j < |Kids(item)| && Matches(Kids(item)[j], term);
      var x :| x in Flatten(Kids(item)[j]) && TitleHas(x, term);
      InFlattenKids(item, |Kids(item)|, x);
      assert x in Flatten(item);
    }
  }

  /** Matching does not change when the term is already lower-cased. */
  lemma MatchesLowered(item: NavItem, term: string)
    ensures Matches(item, Lower(term)) <==> Matches(item, term)
  {
    LowerIdempotent(term);
  }

  /** The search keeps child `k`: its lower-cased title has the term, or it has children and their search keeps some. */
  predicate SearchKeeps(k: NavItem, term: string)
  {
    Contains(Lower(k.title), Lower(term)) || (k.items.Items? && |SearchKids(k, |Kids(k)|, Lower(term))| > 0)
  }

  /** A child stays in the search iff its tree matches the term. */
  lemma {:induction false} SearchKeepsIff(k: NavItem, term: string)
    ensures SearchKeeps(k, term) <==> Matches(k, term)
    decreases k, 1
  {
    var lowered := Lower(term);
    SearchKidsSpec(k, |Kids(k)|, lowered);
    MatchingKidsNonEmpty(k, |Kids(k)|, lowered);
    MatchesUnfold(k, term);
    forall j | 0 <= j < |Kids(k)|
      ensures Matches(Kids(k)[j], lowered) <==> Matches(Kids(k)[j], term)
    {
      MatchesLowered(Kids(k)[j], term);
    }
  }

  /** The fields a search keeps from each item: all but the children themselves. */
  predicate SameFields(a: NavItem, b: NavItem)
  {
    a.title == b.title && a.url == b.url && a.isActive == b.isActive && a.items.Items? == b.items.Items?
  }

  /** The search over one more child adds that child, with its fields, when it is kept. */
  lemma SearchKidsLast(item: NavItem, n: nat, term: string)
    requires 0 < n <= |Kids(item)|
    ensures !SearchKeeps(Kids(item)[n - 1], term) ==> SearchKids(item, n, term) == SearchKids(item, n - 1, term)
    ensures SearchKeeps(Kids(item)[n - 1], term) ==>
      |SearchKids(item, n, term)| == |SearchKids(item, n - 1, term)| + 1 &&
      SearchKids(item, n, term)[..|SearchKids(item, n - 1, term)|] == SearchKids(item, n - 1, term) &&
      SameFields(SearchKids(item, n, term)[|SearchKids(item, n - 1, term)|], Kids(item)[n - 1])
  {
  }

  /** Lists related field by field stay so when each gains one item related to the other's. */
  lemma SameFieldsExtend(s: seq<NavItem>, s0: seq<NavItem>, m0: seq<NavItem>, k: NavItem)
    requires |s0| == |m0| && forall i :: 0 <= i < |s0| ==> SameFields(s0[i], m0[i])
    requires |s| == |s0| + 1 && s[..|s0|] == s0 && SameFields(s[|s0|], k)
    ensures forall i :: 0 <= i < |s| ==> SameFields(s[i], (m0 + [k])[i])
  {
    forall i | 0 <= i < |s| ensures SameFields(s[i], (m0 + [k])[i]) {
      if i < |s0| {
        assert s[i] == s0[i];
      }
    }
  }

  /** The matching children with one more child add it when it matches. */
  lemma MatchingKidsLast(item: NavItem, n: nat, term: string)
    requires 0 < n <= |Kids(item)|
    ensures MatchingKids(item, n, term) ==
      MatchingKids(item, n - 1, term) + (if Matches(Kids(item)[n - 1], term) then [Kids(item)[n - 1]] else [])
  {
  }

  /**
   * The search keeps exactly the children that match the term, in order, each
   * with its title, url, flag and presence of children unchanged.
   */
  lemma {:induction false} SearchKidsSpec(item: NavItem, n: nat, term: string)
    requires n <= |Kids(item)|
    ensures |SearchKids(item, n, term)| == |MatchingKids(item, n, term)|
    ensures forall i :: 0 <= i < |SearchKids(item, n, term)| ==> SameFields(SearchKids(item, n, term)[i], MatchingKids(item, n, term)[i])
    decreases item, 0, n
  {
    if n > 0 {
      var k := Kids(item)[n - 1];
      SearchKidsSpec(item, n - 1, term);
      SearchKeepsIff(k, term);
      SearchKidsLast(item, n, term);
      MatchingKidsLast(item, n, term);
      var s, s0 := SearchKids(item, n, term), SearchKids(item, n - 1, term);
      var m, m0 := MatchingKids(item, n, term), MatchingKids(item, n - 1, term);
      if SearchKeeps(k, term) {
        assert m == m0 + [k];
        SameFieldsExtend(s, s0, m0, k);
      } else {
        assert m == m0;
      }
    }
  }

  /**
   * `searchNavItems` keeps an item iff its lower-cased title contains the
   * lower-cased term or some item below it does.
   */
  lemma SearchNavItemsSpec(items: seq<NavItem>, term: string)
    ensures var s := SearchNavItems(items, term); var m := MatchingKids(Root(items), |items|, term);
      |s| == |m| &&
      forall i :: 0 <= i < |s| ==> SameFields(s[i], m[i])
    ensures |SearchNavItems(items, term)| > 0 <==> exists j :: 0 <= j < |items| && Matches(items[j], term)
  {
    SearchKidsSpec(Root(items), |items|, term);
    MatchingKidsNonEmpty(Root(items), |items|, term);
  }

  // ---------------------------------------------------------------------------
  // useSidebarLogic
  // ---------------------------------------------------------------------------

  /** Where `splice` inserts: a negative position counts from the end, and the position is clamped to the list. */
  function SpliceStart(position: int, len: nat): (p: nat)
    ensures p <= len
    ensures 0 <= position <= len ==> p == position
    ensures position > len ==> p == len
    ensures position < 0 ==> p == if len + position < 0 then 0 else len + position
  {
    if position < 0 then (if len + position < 0 then 0 else len + position)
    else if position > len then len
    else position
  }

  /** `list.splice(position, 0, x)` on a copy: `x` inserted at the clamped position. */
  function Splice(list: seq<NavItem>, position: int, x: NavItem): (r: seq<NavItem>)
    ensures |r| == |list| + 1 && r[SpliceStart(position, |list|)] == x
  {
    var p := SpliceStart(position, |list|);
    list[..p] + [x] + list[p..]
  }

  /** A list of one more item that has `x` at `p` and the items of `list` around it is the splice. */
  lemma SplicedPointwise(list: seq<NavItem>, position: int, x: NavItem, s: seq<NavItem>)
    requires |s| == |list| + 1
    requires forall k {:trigger s[k]} :: 0 <= k < |s| ==>
      s[k] == if k < SpliceStart(position, |list|) then list[k] else if k == SpliceStart(position, |list|) then x else list[k - 1]
    ensures s == Splice(list, position, x)
  {
    var p := SpliceStart(position, |list|);
    var t := Splice(list, position, x);
    var front, back := list[..p] + [x], list[p..];
    assert t == front + back;
    forall k | 0 <= k < |s| ensures s[k] == t[k] {
      var v := if k < p then list[k] else if k == p then x else list[k - 1];
      assert s[k] == v;
      if k <= p {
        assert t[k] == front[k];
      } else {
        assert t[k] == back[k - p - 1];
      }
    }
  }

  /** The group holding the transformed items. */
  function Group(groupTitle: Option<string>, transformed: seq<NavItem>): NavItem
  {
    NavItem(groupTitle.GetOr("Dynamic Items"), "#", None, Items(transformed))
  }

  /**
   * `useSidebarLogic`: without dynamic data or a transformer the base
   * navigation as it is; otherwise a copy of `navMain` with one group of the
   * transformed items spliced in at `insertPosition` (1 when absent), the rest
   * of the data unchanged.
   */
  method UseSidebarLogic<D, R>(base: SidebarData<R>, dynamicData: Option<seq<D>>, transformer: Option<seq<D> -> seq<NavItem>>,
                               insertPosition: Option<int>, groupTitle: Option<string>)
    returns (navigation: SidebarData<R>)
    ensures dynamicData.None? || transformer.None? ==> navigation == base
    ensures dynamicData.Some? && transformer.Some? ==>
      navigation.others == base.others &&
      navigation.navMain == Splice(base.navMain, insertPosition.GetOr(1), Group(groupTitle, transformer.value(dynamicData.value)))
  {
    if dynamicData.None? || transformer.None? {
      return base;
    }
    var group := Group(groupTitle, transformer.value(dynamicData.value));
    var nav := base.navMain;
    var n := |nav|;
    var p := SpliceStart(insertPosition.GetOr(1), n);
    // the copy, one slot longer
    var copy := new NavItem[n + 1](_ => group);
    for i := 0 to n
      invariant forall k :: 0 <= k < i ==> copy[k] == nav[k]
    {
      copy[i] := nav[i];
    }
    // splice: shift the tail up by one, from the end, then place the group
    var i := n;
    while i > p
      invariant p <= i <= n
      invariant forall k :: 0 <= k < i ==> copy[k] == nav[k]
      invariant forall k :: i < k <= n ==> copy[k] == nav[k - 1]
    {
      copy[i] := copy[i - 1];
      i := i - 1;
    }
    copy[p] := group;
    ghost var spliced := copy[..];
    forall k | 0 <= k < |spliced|
      ensures spliced[k] == if k < p then nav[k] else if k == p then group else nav[k - 1]
    {
      assert spliced[k] == copy[k];
    }
    SplicedPointwise(nav, insertPosition.GetOr(1), group, spliced);
    navigation := base.(navMain := copy[..]);
  }

  /**
   * The spliced navigation holds the base items once each and the group once
   * more, and removing the group gives back the base list.
   */
  lemma SpliceOneGroup(navMain: seq<NavItem>, group: NavItem, position: int)
    ensures |Splice(navMain, position, group)| == |navMain| + 1
    ensures Splice(navMain, position, group)[SpliceStart(position, |navMain|)] == group
    ensures Splice(navMain, position, group)[..SpliceStart(position, |navMain|)] +
            Splice(navMain, position, group)[SpliceStart(position, |navMain|) + 1..] == navMain
    ensures multiset(Splice(navMain, position, group)) == multiset(navMain) + multiset{group}
  {
    var p := SpliceStart(position, |navMain|);
    var spliced := Splice(navMain, position, group);
    assert spliced == navMain[..p] + [group] + navMain[p..];
    assert spliced[..p] == navMain[..p];
    assert spliced[p + 1..] == navMain[p..];
    assert navMain == navMain[..p] + navMain[p..];
    assert multiset(spliced) == multiset(navMain[..p]) + multiset{group} + multiset(navMain[p..]);
  }
}
