/**
 * The membership ledger's rows and the two merges that shape them for the
 * API: the list of a user's organizations, deduplicated by organization id,
 * and the list of an organization's members, grouped by user id with every
 * right each one holds.
 */
module Membership {
  import opened Models
  import opened Dedup

  /** A catalog permission: name, privilege level (higher is more) and whether holders may grant it. */
  datatype Permission = Permission(name: String, level: int, canGrant: bool)

  /** One grant row (user, organization, permission), with its relations resolved. */
  datatype Binding = Binding(user: UserPublicProfile, organization: Organization, permission: Permission)

  function OrganizationId(o: Organization): int { o.id }

  function BindingUserId(b: Binding): int { b.user.id }

  function MemberId(u: OrganizationUser): int { u.user.id }

  /** The response shape of a permission drops its level. */
  function ToRight(p: Permission): UserRight
  {
    UserRight(p.name, p.canGrant)
  }

  /** Deduplicates organizations by id, keeping the first of each in first-seen order. */
  method GetUniqOrgs(orgs: seq<Organization>) returns (uniqOrgs: seq<Organization>)
    ensures uniqOrgs == FirstOccurrences(orgs, OrganizationId)
    ensures DistinctKeys(uniqOrgs, OrganizationId)
    ensures forall id :: id in KeysOf(uniqOrgs, OrganizationId) <==> id in KeysOf(orgs, OrganizationId)
  {
    var ids: seq<int> := [];
    uniqOrgs := [];
    for i := 0 to |orgs|
      invariant uniqOrgs == FirstOccurrences(orgs[..i], OrganizationId)
      invariant ids == KeysOf(uniqOrgs, OrganizationId)
    {
      FirstOccurrencesAppend(orgs[..i], orgs[i], OrganizationId);
      assert orgs[..i + 1] == orgs[..i] + [orgs[i]];
      if orgs[i].id in ids {
        continue;
      }
      ids := ids + [orgs[i].id];
      uniqOrgs := uniqOrgs + [orgs[i]];
    }
    assert orgs[..|orgs|] == orgs;
    FirstOccurrencesDistinct(orgs, OrganizationId);
    FirstOccurrencesKeys(orgs, OrganizationId);
  }

  /** The rights granted to user uid by the rows, in row order, repeats kept. */
  function RightsOf(rows: seq<Binding>, uid: int): seq<UserRight>
  {
    if rows == [] then []
    else
      var last := rows[|rows| - 1];
      RightsOf(rows[..|rows| - 1], uid) + (if last.user.id == uid then [ToRight(last.permission)] else [])
  }

  /**
   * The reference for the member list: one entry per user, in the order of
   * each user's first row, carrying that first row's profile and all of the
   * user's rights.
   */
  function MergedUsers(rows: seq<Binding>): seq<OrganizationUser>
  {
    var firsts := FirstOccurrences(rows, BindingUserId);
    seq(|firsts|, k requires 0 <= k < |firsts| => OrganizationUser(firsts[k].user, RightsOf(rows, firsts[k].user.id)))
  }

  /** Number of rights across all entries. */
  function TotalRights(users: seq<OrganizationUser>): nat
  {
    if users == [] then 0 else TotalRights(users[..|users| - 1]) + |users[|users| - 1].rights|
  }

  /** A user without rows has no rights. */
  lemma {:induction false} RightsOfAbsent(rows: seq<Binding>, uid: int)
    requires uid !in KeysOf(rows, BindingUserId)
    ensures RightsOf(rows, uid) == []
    decreases |rows|
  {
    if rows != [] {
      var p := rows[..|rows| - 1];
      assert KeysOf(rows, BindingUserId)[|rows| - 1] == rows[|rows| - 1].user.id;
      assert forall k :: 0 <= k < |p| ==> KeysOf(p, BindingUserId)[k] == KeysOf(rows, BindingUserId)[k];
      RightsOfAbsent(p, uid);
    }
  }

  /** A new row adds its right to its own user's rights only. */
  lemma RightsOfAppend(rows: seq<Binding>, row: Binding, uid: int)
    ensures RightsOf(rows + [row], uid) == RightsOf(rows, uid) + (if row.user.id == uid then [ToRight(row.permission)] else [])
  {
    var t := rows + [row];
    assert t[..|t| - 1] == rows;
  }

  /** A row of a user already listed appends its right to that user's entry and to nothing else. */
  lemma MergedUsersAppendKnown(rows: seq<Binding>, row: Binding, k: nat)
    requires k < |FirstOccurrences(rows, BindingUserId)|
    requires FirstOccurrences(rows, BindingUserId)[k].user.id == row.user.id
    ensures k < |MergedUsers(rows)|
    ensures FirstOccurrences(rows + [row], BindingUserId) == FirstOccurrences(rows, BindingUserId)
    ensures MergedUsers(rows + [row])
            == MergedUsers(rows)[k := MergedUsers(rows)[k].(rights := MergedUsers(rows)[k].rights + [ToRight(row.permission)])]
  {
    var firsts := FirstOccurrences(rows, BindingUserId);
    assert KeysOf(firsts, BindingUserId)[k] == row.user.id;
    FirstOccurrencesAppend(rows, row, BindingUserId);
    FirstOccurrencesDistinct(rows, BindingUserId);
    var before := MergedUsers(rows);
    var after := MergedUsers(rows + [row]);
    var expected := before[k := before[k].(rights := before[k].rights + [ToRight(row.permission)])];
    assert |after| == |expected|;
    forall j | 0 <= j < |after| ensures after[j] == expected[j] {
      RightsOfAppend(rows, row, firsts[j].user.id);
      if j != k {
        assert BindingUserId(firsts[j]) != BindingUserId(firsts[k]);
      }
    }
  }

  /** A row of a user not yet listed adds a new entry holding just its right. */
  lemma MergedUsersAppendNew(rows: seq<Binding>, row: Binding)
    requires row.user.id !in KeysOf(FirstOccurrences(rows, BindingUserId), BindingUserId)
    ensures FirstOccurrences(rows + [row], BindingUserId) == FirstOccurrences(rows, BindingUserId) + [row]
    ensures MergedUsers(rows + [row]) == MergedUsers(rows) + [OrganizationUser(row.user, [ToRight(row.permission)])]
  {
    var firsts := FirstOccurrences(rows, BindingUserId);
    FirstOccurrencesAppend(rows, row, BindingUserId);
    FirstOccurrencesKeys(rows, BindingUserId);
    RightsOfAbsent(rows, row.user.id);
    var before := MergedUsers(rows);
    var after := MergedUsers(rows + [row]);
    var expected := before + [OrganizationUser(row.user, [ToRight(row.permission)])];
    assert |after| == |expected|;
    forall j | 0 <= j < |after| ensures after[j] == expected[j] {
      if j < |firsts| {
        RightsOfAppend(rows, row, firsts[j].user.id);
        assert KeysOf(firsts, BindingUserId)[j] == firsts[j].user.id;
      } else {
        RightsOfAppend(rows, row, row.user.id);
      }
    }
  }

  /** Appending an entry adds its rights to the total. */
  lemma TotalRightsAppend(users: seq<OrganizationUser>, u: OrganizationUser)
    ensures TotalRights(users + [u]) == TotalRights(users) + |u.rights|
  {
    assert (users + [u])[..|users|] == users;
  }

  /** Appending one right to one entry adds one to the total. */
  lemma {:induction false} TotalRightsGrow(users: seq<OrganizationUser>, k: nat, r: UserRight)
    requires k < |users|
    ensures TotalRights(users[k := users[k].(rights := users[k].rights + [r])]) == TotalRights(users) + 1
    decreases |users|
  {
    var updated := users[k := users[k].(rights := users[k].rights + [r])];
    var n := |users| - 1;
    if k < n {
      TotalRightsGrow(users[..n], k, r);
      assert updated[..n] == users[..n][k := users[k].(rights := users[k].rights + [r])];
    } else {
      assert updated[..n] == users[..n];
    }
  }

  /** Every row contributes exactly one right: no right is dropped or merged away. */
  lemma {:induction false} MergedUsersTotalRights(rows: seq<Binding>)
    ensures TotalRights(MergedUsers(rows)) == |rows|
    decreases |rows|
  {
    if rows != [] {
      var p := rows[..|rows| - 1];
      var row := rows[|rows| - 1];
      assert rows == p + [row];
      MergedUsersTotalRights(p);
      var firsts := FirstOccurrences(p, BindingUserId);
      if row.user.id in KeysOf(firsts, BindingUserId) {
        var k :| 0 <= k < |firsts| && KeysOf(firsts, BindingUserId)[k] == row.user.id;
        MergedUsersAppendKnown(p, row, k);
        TotalRightsGrow(MergedUsers(p), k, ToRight(row.permission));
      } else {
        MergedUsersAppendNew(p, row);
        TotalRightsAppend(MergedUsers(p), OrganizationUser(row.user, [ToRight(row.permission)]));
      }
    }
  }

  /**
   * The member list has exactly one entry per distinct user id of the rows,
   * in the order of each user's first row.
   */
  lemma MergedUsersOnePerUser(rows: seq<Binding>)
    ensures DistinctKeys(MergedUsers(rows), MemberId)
    ensures forall uid :: uid in KeysOf(MergedUsers(rows), MemberId) <==> uid in KeysOf(rows, BindingUserId)
    ensures forall k :: 0 <= k < |MergedUsers(rows)| ==>
              MergedUsers(rows)[k].user == FirstOccurrences(rows, BindingUserId)[k].user
  {
    FirstOccurrencesDistinct(rows, BindingUserId);
    FirstOccurrencesKeys(rows, BindingUserId);
    var merged := MergedUsers(rows);
    var firsts := FirstOccurrences(rows, BindingUserId);
    assert KeysOf(merged, MemberId) == KeysOf(firsts, BindingUserId);
    forall a, b | 0 <= a < b < |merged| ensures merged[a].user.id != merged[b].user.id {
      assert firsts[a].user.id != firsts[b].user.id;
    }
  }

  /** Every entry of the member list carries the profile of one of the rows. */
  lemma MergedUsersProfiles(rows: seq<Binding>)
    ensures forall u :: u in MergedUsers(rows) ==> exists b :: b in rows && b.user == u.user
  {
    var firsts := FirstOccurrences(rows, BindingUserId);
    var idx := FirstOccurrencesPositions(rows, BindingUserId);
    forall u | u in MergedUsers(rows) ensures exists b :: b in rows && b.user == u.user {
      var k :| 0 <= k < |firsts| && MergedUsers(rows)[k] == u;
      assert rows[idx[k]] in rows;
    }
  }

  /** Entries built from rows with valid profiles are valid member records. */
  lemma MergedUsersValid(rows: seq<Binding>)
    requires forall b :: b in rows ==> ValidUserPublicProfile(b.user)
    ensures forall u :: u in MergedUsers(rows) ==> ValidOrganizationUser(u)
  {
    MergedUsersProfiles(rows);
  }

  /**
   * Rights are not deduplicated: a user holding the same permission through
   * two rows is listed once, with that right twice.
   */
  lemma DuplicateGrantKept(user: UserPublicProfile, org: Organization, p: Permission)
    ensures MergedUsers([Binding(user, org, p), Binding(user, org, p)])
            == [OrganizationUser(user, [ToRight(p), ToRight(p)])]
  {
    var row := Binding(user, org, p);
    var empty: seq<Binding> := [];
    assert FirstOccurrences(empty, BindingUserId) == [];
    assert MergedUsers(empty) == [];
    MergedUsersAppendNew(empty, row);
    assert empty + [row] == [row];
    assert FirstOccurrences([row], BindingUserId) == [row];
    assert MergedUsers([row]) == [OrganizationUser(user, [ToRight(p)])];
    MergedUsersAppendKnown([row], row, 0);
    assert [row] + [row] == [row, row];
    assert [ToRight(p)] + [ToRight(p)] == [ToRight(p), ToRight(p)];
    assert MergedUsers([row, row]) == [OrganizationUser(user, [ToRight(p)])][0 := OrganizationUser(user, [ToRight(p), ToRight(p)])];
  }

  /** Groups membership rows by user id, collecting each row's right into its user's entry. */
  method GetUniqUsers(users: seq<Binding>) returns (uniqUsers: seq<OrganizationUser>)
    ensures uniqUsers == MergedUsers(users)
    ensures TotalRights(uniqUsers) == |users|
  {
    var ids: seq<int> := [];
    uniqUsers := [];
    for i := 0 to |users|
      invariant uniqUsers == MergedUsers(users[..i])
      invariant ids == KeysOf(FirstOccurrences(users[..i], BindingUserId), BindingUserId)
    {
      var row := users[i];
      assert users[..i + 1] == users[..i] + [row];
      if row.user.id in ids {
        var k := IndexOf(ids, row.user.id);
        MergedUsersAppendKnown(users[..i], row, k);
        uniqUsers := uniqUsers[k := uniqUsers[k].(rights := uniqUsers[k].rights + [ToRight(row.permission)])];
      } else {
        MergedUsersAppendNew(users[..i], row);
        ids := ids + [row.user.id];
        uniqUsers := uniqUsers + [OrganizationUser(row.user, [ToRight(row.permission)])];
      }
    }
    assert users[..|users|] == users;
    MergedUsersTotalRights(users);
  }
}
