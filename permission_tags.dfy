/**
 * Permission tags for role-based access control
 * (`apps/api/middleware/permission-tags.ts`): a tag is
 * "perm:<resource>:<action>", and the helpers strip the prefix from one tag
 * and keep the permission tags of a list.
 */
module PermissionTags {
  import opened Wrappers
  import opened Strs

  const Prefix: string := "perm:"

  /** The resources, in the order the tag table lists them. */
  const ResourceNames: seq<string> := ["classes", "students", "users", "units", "roles", "permissions", "resources", "actions"]

  /** The actions each resource has, in the table's order. */
  const ActionNames: seq<string> := ["create", "read", "update", "delete", "manage"]

  /** The values of `PermissionTag`, in declaration order. */
  const PermissionTag: seq<string> := [
    "perm:classes:create", "perm:classes:read", "perm:classes:update", "perm:classes:delete", "perm:classes:manage",
    "perm:students:create", "perm:students:read", "perm:students:update", "perm:students:delete", "perm:students:manage",
    "perm:users:create", "perm:users:read", "perm:users:update", "perm:users:delete", "perm:users:manage",
    "perm:units:create", "perm:units:read", "perm:units:update", "perm:units:delete", "perm:units:manage",
    "perm:roles:create", "perm:roles:read", "perm:roles:update", "perm:roles:delete", "perm:roles:manage",
    "perm:permissions:create", "perm:permissions:read", "perm:permissions:update", "perm:permissions:delete", "perm:permissions:manage",
    "perm:resources:create", "perm:resources:read", "perm:resources:update", "perm:resources:delete", "perm:resources:manage",
    "perm:actions:create", "perm:actions:read", "perm:actions:update", "perm:actions:delete", "perm:actions:manage"
  ]

  /** `extractPermissionFromTag`: `null` unless the tag starts with "perm:", else the rest of the tag. */
  function ExtractPermissionFromTag(tag: string): (r: Option<string>)
    ensures r.None? <==> !StartsWith(tag, Prefix)
    ensures r.Some? ==> tag == Prefix + r.value
  {
    if !StartsWith(tag, Prefix) then None else Some(tag[|Prefix|..])
  }

  /** Putting the prefix in front of any text and extracting gives the text back. */
  lemma ExtractPrefixed(s: string)
    ensures ExtractPermissionFromTag(Prefix + s) == Some(s)
  {
    assert (Prefix + s)[..|Prefix|] == Prefix;
    assert (Prefix + s)[|Prefix|..] == s;
  }

  /** The tag of resource `r` and action `a`. */
  function Tag(r: int, a: int): string
    requires 0 <= r < |ResourceNames| && 0 <= a < |ActionNames|
  {
    Prefix + ResourceNames[r] + ":" + ActionNames[a]
  }

  // The rows of the table, one resource at a time.

  lemma ClassesRow()
    ensures forall a :: 0 <= a < |ActionNames| ==> PermissionTag[0 + a] == Tag(0, a)
  {
  }

  lemma StudentsRow()
    ensures forall a :: 0 <= a < |ActionNames| ==> PermissionTag[5 + a] == Tag(1, a)
  {
  }

  lemma UsersRow()
    ensures forall a :: 0 <= a < |ActionNames| ==> PermissionTag[10 + a] == Tag(2, a)
  {
  }

  lemma UnitsRow()
    ensures forall a :: 0 <= a < |ActionNames| ==> PermissionTag[15 + a] == Tag(3, a)
  {
  }

  lemma RolesRow()
    ensures forall a :: 0 <= a < |ActionNames| ==> PermissionTag[20 + a] == Tag(4, a)
  {
  }

  lemma PermissionsRow()
    ensures forall a :: 0 <= a < |ActionNames| ==> PermissionTag[25 + a] == Tag(5, a)
  {
  }

  lemma ResourcesRow()
    ensures forall a :: 0 <= a < |ActionNames| ==> PermissionTag[30 + a] == Tag(6, a)
  {
  }

  lemma ActionsRow()
    ensures forall a :: 0 <= a < |ActionNames| ==> PermissionTag[35 + a] == Tag(7, a)
  {
  }

  /** The five tags of one resource, in action order. */
  lemma ResourceRow(r: int)
    requires 0 <= r < |ResourceNames|
    ensures forall a :: 0 <= a < |ActionNames| ==> PermissionTag[5 * r + a] == Tag(r, a)
  {
    if r == 0 {
      ClassesRow();
    } else if r == 1 {
      StudentsRow();
    } else if r == 2 {
      UsersRow();
    } else if r == 3 {
      UnitsRow();
    } else if r == 4 {
      RolesRow();
    } else if r == 5 {
      PermissionsRow();
    } else if r == 6 {
      ResourcesRow();
    } else {
      ActionsRow();
    }
  }

  /** The table holds each resource-action pair once, resource by resource and action by action. */
  lemma PermissionTagLayout(i: int)
    requires 0 <= i < |PermissionTag|
    ensures |PermissionTag| == |ResourceNames| * |ActionNames|
    ensures PermissionTag[i] == Prefix + ResourceNames[i / 5] + ":" + ActionNames[i % 5]
  {
    var r, a := i / 5, i % 5;
    assert 5 * r + a == i;
    ResourceRow(r);
    assert PermissionTag[5 * r + a] == Tag(r, a);
  }

  /** Every tag of the table starts with "perm:" and extracts to "<resource>:<action>". */
  lemma PermissionTagsExtract(i: int)
    requires 0 <= i < |PermissionTag|
    ensures StartsWith(PermissionTag[i], Prefix)
    ensures ExtractPermissionFromTag(PermissionTag[i]) == Some(ResourceNames[i / 5] + ":" + ActionNames[i % 5])
  {
    PermissionTagLayout(i);
    var rest := ResourceNames[i / 5] + ":" + ActionNames[i % 5];
    assert PermissionTag[i] == Prefix + rest;
    ExtractPrefixed(rest);
  }

  /** `getPermissionTags`: `tags.filter((tag) => tag.startsWith("perm:"))` */
  function GetPermissionTags(tags: seq<string>): (r: seq<string>)
    ensures |r| <= |tags|
    ensures forall i :: 0 <= i < |r| ==> StartsWith(r[i], Prefix)
  {
    if tags == [] then []
    else GetPermissionTags(tags[..|tags| - 1]) + (if StartsWith(tags[|tags| - 1], Prefix) then [tags[|tags| - 1]] else [])
  }

  /** The filter keeps order: filtering a concatenation filters each part. */
  lemma {:induction false} GetPermissionTagsAppend(a: seq<string>, b: seq<string>)
    ensures GetPermissionTags(a + b) == GetPermissionTags(a) + GetPermissionTags(b)
    decreases |b|
  {
    if b == [] {
      assert a + b == a;
    } else {
      var front := b[..|b| - 1];
      GetPermissionTagsAppend(a, front);
      assert (a + b)[..|a + b| - 1] == a + front;
    }
  }

  /** A tag is kept exactly when it is in the list and starts with "perm:". */
  lemma {:induction false} GetPermissionTagsMembers(tags: seq<string>, t: string)
    ensures t in GetPermissionTags(tags) <==> t in tags && StartsWith(t, Prefix)
  {
    if tags != [] {
      var front := tags[..|tags| - 1];
      GetPermissionTagsMembers(front, t);
      assert tags == front + [tags[|tags| - 1]];
    }
  }

  /** A list of permission tags only is kept whole. */
  lemma {:induction false} GetPermissionTagsAll(tags: seq<string>)
    requires forall i :: 0 <= i < |tags| ==> StartsWith(tags[i], Prefix)
    ensures GetPermissionTags(tags) == tags
  {
    if tags != [] {
      GetPermissionTagsAll(tags[..|tags| - 1]);
      assert tags == tags[..|tags| - 1] + [tags[|tags| - 1]];
    }
  }

  /** Keeping the permission tags twice is keeping them once. */
  lemma GetPermissionTagsIdempotent(tags: seq<string>)
    ensures GetPermissionTags(GetPermissionTags(tags)) == GetPermissionTags(tags)
  {
    GetPermissionTagsAll(GetPermissionTags(tags));
  }
}
