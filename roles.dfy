/** The role table: each role name with the list of rights it grants, the list
    of role names (`Object.keys`) and the lookup map (`new Map(Object.entries)`). */
module Roles {

  /** `allRoles`, in declaration order: USER first, then ADMIN. */
  const AllRoles: seq<(string, seq<string>)> := [
    ("USER", ["getTodos", "manageTodos"]),
    ("ADMIN", ["getUsers", "manageUsers", "getTodos", "manageTodos"])
  ]

  /** The entry keys are pairwise distinct, as the keys of an object literal are. */
  ghost predicate DistinctKeys(entries: seq<(string, seq<string>)>) {
    forall i, j :: 0 <= i < j < |entries| ==> entries[i].0 != entries[j].0
  }

  /** `Object.keys`: the keys in insertion order. */
  function Keys(entries: seq<(string, seq<string>)>): (r: seq<string>)
    ensures |r| == |entries|
    ensures forall i :: 0 <= i < |entries| ==> r[i] == entries[i].0
  {
    if entries == [] then [] else Keys(entries[..|entries| - 1]) + [entries[|entries| - 1].0]
  }

  /** `new Map(entries)`: the keys of the entries, each mapped to the value of
      its last entry. */
  function ToMap(entries: seq<(string, seq<string>)>): (m: map<string, seq<string>>)
    ensures forall k :: k in m <==> k in Keys(entries)
  {
    if entries == [] then map[]
    else
      var init := entries[..|entries| - 1];
      var last := entries[|entries| - 1];
      assert Keys(entries) == Keys(init) + [last.0];
      ToMap(init)[last.0 := last.1]
  }

  /** With distinct keys, every entry's key maps to that entry's value. */
  lemma {:induction false} ToMapAt(entries: seq<(string, seq<string>)>, i: nat)
    requires DistinctKeys(entries) && i < |entries|
    ensures entries[i].0 in ToMap(entries) && ToMap(entries)[entries[i].0] == entries[i].1
  {
    var n := |entries| - 1;
    if i < n {
      var init := entries[..n];
      assert init[i] == entries[i] && entries[i].0 != entries[n].0;
      ToMapAt(init, i);
    }
  }

  /** `roles`: the role names. */
  const RoleNames: seq<string> := Keys(AllRoles)

  /** `roleRights`: each role name to its list of rights. */
  const RoleRights: map<string, seq<string>> := ToMap(AllRoles)

  /** Whether `role` grants `right`. */
  predicate HasRight(role: string, right: string) {
    role in RoleRights && right in RoleRights[role]
  }

  /** `roles` lists exactly USER then ADMIN. */
  lemma RoleNamesAreUserThenAdmin()
    ensures RoleNames == ["USER", "ADMIN"]
  {
  }

  /** `roleRights` maps each of the two roles to its own list and has no other key. */
  lemma RoleRightsTable()
    ensures RoleRights.Keys == {"USER", "ADMIN"}
    ensures RoleRights["USER"] == ["getTodos", "manageTodos"]
    ensures RoleRights["ADMIN"] == ["getUsers", "manageUsers", "getTodos", "manageTodos"]
  {
    assert DistinctKeys(AllRoles);
    ToMapAt(AllRoles, 0);
    ToMapAt(AllRoles, 1);
  }

  /** Every right USER has, ADMIN has too; ADMIN alone may read and manage users. */
  lemma UserRightsIncludedInAdmin()
    ensures forall right :: HasRight("USER", right) ==> HasRight("ADMIN", right)
    ensures HasRight("ADMIN", "getUsers") && !HasRight("USER", "getUsers")
    ensures HasRight("ADMIN", "manageUsers") && !HasRight("USER", "manageUsers")
  {
    RoleRightsTable();
  }
}
