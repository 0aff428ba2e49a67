/**
 * The admin user roster: every profile with the roles granted to it, a
 * user without any role row being shown as a plain "user".
 */
module AdminUsers {
  import opened Wrappers
  import opened Counting
  import opened UseTasks

  type Role = string

  const DefaultRole: Role := "user"

  /** A row of the `user_roles` table. */
  datatype RoleRow = RoleRow(userId: UserId, role: Role)

  /** One entry of the roster: the profile and its roles. */
  datatype UserEntry = UserEntry(profile: Profile, roles: seq<Role>)

  /** The roles of the rows for `id`, in order of appearance, duplicates kept. */
  function RolesOf(rows: seq<RoleRow>, id: UserId): seq<Role>
  {
    if rows == [] then []
    else
      var last := rows[|rows| - 1];
      RolesOf(rows[..|rows| - 1], id) + (if last.userId == id then [last.role] else [])
  }

  /** A user's roles are no more than the rows, and each comes from a row for that user. */
  lemma {:induction false} RolesFromOwnRows(rows: seq<RoleRow>, id: UserId)
    ensures |RolesOf(rows, id)| <= |rows|
    ensures forall k :: 0 <= k < |RolesOf(rows, id)| ==> RoleRow(id, RolesOf(rows, id)[k]) in rows
  {
    if rows != [] {
      var init, last := rows[..|rows| - 1], rows[|rows| - 1];
      RolesFromOwnRows(init, id);
      assert rows == init + [last];
    }
  }

  function RowFor(id: UserId): RoleRow -> bool
  {
    (r: RoleRow) => r.userId == id
  }

  /** A user with k role rows has exactly k roles, and none without a row. */
  lemma {:induction false} RolesOfCount(rows: seq<RoleRow>, id: UserId)
    ensures |RolesOf(rows, id)| == Count(rows, RowFor(id))
    ensures RolesOf(rows, id) == [] <==> forall i :: 0 <= i < |rows| ==> rows[i].userId != id
  {
    if rows != [] {
      var init, last := rows[..|rows| - 1], rows[|rows| - 1];
      RolesOfCount(init, id);
      assert rows == init + [last];
      CountAppend(init, [last], RowFor(id));
      assert forall i :: 0 <= i < |init| ==> init[i] == rows[i];
    }
  }

  /** Whether some role row is for `id`. */
  predicate HasRoleRow(rows: seq<RoleRow>, id: UserId)
  {
    exists i :: 0 <= i < |rows| && rows[i].userId == id
  }

  /** How one more role row changes who has rows and which roles they have. */
  lemma ExtendByOneRow(rows: seq<RoleRow>, r: RoleRow)
    ensures forall id :: HasRoleRow(rows + [r], id) <==> HasRoleRow(rows, id) || id == r.userId
    ensures forall id :: RolesOf(rows + [r], id) == RolesOf(rows, id) + (if r.userId == id then [r.role] else [])
  {
    var ext := rows + [r];
    assert ext[..|rows|] == rows;
    forall id | HasRoleRow(ext, id) ensures HasRoleRow(rows, id) || id == r.userId {
      var k :| 0 <= k < |ext| && ext[k].userId == id;
      if k < |rows| {
        assert rows[k] == ext[k];
      }
    }
    forall id | HasRoleRow(rows, id) ensures HasRoleRow(ext, id) {
      var k :| 0 <= k < |rows| && rows[k].userId == id;
      assert ext[k] == rows[k];
    }
    assert ext[|rows|] == r;
  }

  /** `roleMap` holds, for exactly the users with a row, the roles of their rows. */
  ghost predicate MapsRoles(roleMap: map<UserId, seq<Role>>, rows: seq<RoleRow>)
  {
    && (forall id :: id in roleMap <==> HasRoleRow(rows, id))
    && (forall id :: id in roleMap ==> roleMap[id] == RolesOf(rows, id) && roleMap[id] != [])
    && (forall id :: id !in roleMap ==> RolesOf(rows, id) == [])
  }

  /** One step of the loop: appending a row's role to its user keeps `MapsRoles`. */
  lemma AppendRoleStep(roleMap: map<UserId, seq<Role>>, rows: seq<RoleRow>, r: RoleRow)
    requires MapsRoles(roleMap, rows)
    ensures MapsRoles(roleMap[r.userId := (if r.userId in roleMap then roleMap[r.userId] else []) + [r.role]], rows + [r])
  {
    var m := roleMap[r.userId := (if r.userId in roleMap then roleMap[r.userId] else []) + [r.role]];
    var ext := rows + [r];
    ExtendByOneRow(rows, r);
    forall id ensures id in m <==> HasRoleRow(ext, id) {
    }
    forall id | id in m ensures m[id] == RolesOf(ext, id) && m[id] != [] {
      if id == r.userId {
        assert RolesOf(ext, id) == RolesOf(rows, id) + [r.role];
      } else {
        assert RolesOf(ext, id) == RolesOf(rows, id);
      }
    }
    forall id | id !in m ensures RolesOf(ext, id) == [] {
      assert RolesOf(ext, id) == RolesOf(rows, id);
    }
  }

  /**
   * The `roleMap` loop: for each role row, append its role to the list of
   * its user. A user appears exactly when it has a row, with the roles of
   * its rows in order, so no list in the map is empty.
   */
  method BuildRoleMap(rows: seq<RoleRow>) returns (roleMap: map<UserId, seq<Role>>)
    ensures forall id :: id in roleMap <==> HasRoleRow(rows, id)
    ensures forall id :: id in roleMap ==> roleMap[id] == RolesOf(rows, id) && roleMap[id] != []
  {
    roleMap := map[];
    var i := 0;
    while i < |rows|
      invariant 0 <= i <= |rows|
      invariant MapsRoles(roleMap, rows[..i])
    {
      var r := rows[i];
      AppendRoleStep(roleMap, rows[..i], r);
      var existing := if r.userId in roleMap then roleMap[r.userId] else [];
      existing := existing + [r.role];
      roleMap := roleMap[r.userId := existing];
      assert rows[..i + 1] == rows[..i] + [r];
      i := i + 1;
    }
    assert rows[..i] == rows;
  }

  /**
   * `roleMap.get(p.id) || ["user"]`. A list in the map is kept even when
   * empty, since an array is truthy; the default applies only to a missing id.
   */
  function RolesOrDefault(roleMap: map<UserId, seq<Role>>, id: UserId): (roles: seq<Role>)
    ensures id in roleMap ==> roles == roleMap[id]
    ensures id !in roleMap ==> roles == [DefaultRole]
    ensures (forall k :: k in roleMap ==> roleMap[k] != []) ==> roles != []
  {
    if id in roleMap then roleMap[id] else [DefaultRole]
  }

  /** The roles a profile is shown with: those of its rows, or ["user"] when it has none. */
  function EffectiveRoles(rows: seq<RoleRow>, id: UserId): (roles: seq<Role>)
    ensures roles != []
    ensures roles == [DefaultRole] <==> RolesOf(rows, id) == [] || RolesOf(rows, id) == [DefaultRole]
  {
    var own := RolesOf(rows, id);
    if own == [] then [DefaultRole] else own
  }

  /**
   * The roster's `queryFn` after both fetches: a failed profile fetch is
   * thrown; a failed or empty role fetch counts as no rows. One entry per
   * profile, in profile order, each with its effective roles.
   */
  method LoadRoster(profiles: Result<seq<Profile>, string>, roles: Option<seq<RoleRow>>) returns (r: Result<seq<UserEntry>, Failure>)
    ensures profiles.Failure? ==> r == Failure(StoreError(profiles.error))
    ensures profiles.Success? ==> r.Success? && |r.value| == |profiles.value|
    ensures profiles.Success? ==> forall i :: 0 <= i < |profiles.value| ==>
      r.value[i].profile == profiles.value[i] &&
      r.value[i].roles == EffectiveRoles(if roles.Some? then roles.value else [], profiles.value[i].id)
  {
    if profiles.Failure? {
      return Failure(StoreError(profiles.error));
    }
    var ps := profiles.value;
    var rows := if roles.Some? then roles.value else [];
    var roleMap := BuildRoleMap(rows);
    assert forall id :: RolesOrDefault(roleMap, id) == EffectiveRoles(rows, id) by {
      forall id ensures RolesOrDefault(roleMap, id) == EffectiveRoles(rows, id) {
        RolesOfCount(rows, id);
      }
    }
    r := Success(seq(|ps|, i requires 0 <= i < |ps| => UserEntry(ps[i], RolesOrDefault(roleMap, ps[i].id))));
  }

  /**
   * A user gets exactly the roles of its rows, in order; the default
   * ["user"] applies exactly when it has no row at all.
   */
  lemma DefaultOnlyWithoutRows(rows: seq<RoleRow>, id: UserId)
    ensures (forall i :: 0 <= i < |rows| ==> rows[i].userId != id) ==> EffectiveRoles(rows, id) == [DefaultRole]
    ensures (exists i :: 0 <= i < |rows| && rows[i].userId == id) ==> EffectiveRoles(rows, id) == RolesOf(rows, id)
    ensures |RolesOf(rows, id)| == Count(rows, RowFor(id))
  {
    RolesOfCount(rows, id);
  }

  /** With a failed or empty role fetch every user is a plain "user". */
  lemma NoRoleRowsAllDefault(id: UserId)
    ensures EffectiveRoles([], id) == [DefaultRole]
  {
  }

  /** Role rows of other users do not change a user's roles. */
  lemma OtherRowsIgnored(rows: seq<RoleRow>, other: RoleRow, id: UserId)
    requires other.userId != id
    ensures EffectiveRoles(rows + [other], id) == EffectiveRoles(rows, id)
  {
    assert (rows + [other])[..|rows|] == rows;
  }
}
