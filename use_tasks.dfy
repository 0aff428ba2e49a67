/**
 * The task data-access hook: the `Task` record, the listing query and its
 * post-processing (display-name enrichment), the create/update/delete
 * payloads, error propagation and the invalidation of cached listings.
 *
 * The store is not modelled: what it returns for a query or a mutation is
 * a parameter of the operation that consumes it.
 */
module UseTasks {
  import opened Wrappers
  import opened Clock

  type UserId = string
  type TaskId = string

  datatype TaskStatus = Pending | InProgress | Completed

  /** A nullable column as it arrives in a fetched row: missing, `null`, or a value. */
  datatype Field<T> = Absent | Null | Present(value: T)

  /** A row of the `tasks` table as the store returns it. */
  datatype TaskRow = TaskRow(
    id: TaskId,
    title: string,
    description: Field<string>,
    status: TaskStatus,
    dueDate: Field<Instant>,
    assignedBy: UserId,
    assignedTo: UserId,
    createdAt: Instant,
    updatedAt: Instant)

  /** The `Task` record the hook hands to the views. */
  datatype Task = Task(
    id: TaskId,
    title: string,
    description: string,
    status: TaskStatus,
    dueDate: Option<Instant>,
    assignedBy: UserId,
    assignedTo: UserId,
    createdAt: Instant,
    updatedAt: Instant,
    assignedByName: Option<string>,
    assignedToName: Option<string>)

  /** A row of the `profiles` table, as far as name resolution needs it. */
  datatype Profile = Profile(id: UserId, fullName: Option<string>, email: string)

  /** The hook's argument: no filter, "all", or one status. */
  datatype StatusFilter = All | Only(status: TaskStatus)

  /** The listing request: table, ordering and the optional status constraint. */
  datatype ListQuery = ListQuery(table: string, orderColumn: string, ascending: bool, statusEq: Option<TaskStatus>)

  /** Errors a mutation or the listing throws to its caller. */
  datatype Failure =
    | StoreError(message: string)  // the store's error, rethrown as is
    | NoUser                       // `user!.id` read while signed out

  const UnknownName := "Unknown"

  /**
   * The text a caller shows for a failure (`e.message`): a store error's own
   * message. For `NoUser` it is the engine's text for reading `id` of a
   * missing user, taken here to be `null`; the auth hook is not part of this
   * model, and an `undefined` user would read "undefined" instead.
   */
  function Message(f: Failure): (m: string)
    ensures f.StoreError? ==> m == f.message
    ensures f.NoUser? ==> m != ""
  {
    match f
    case StoreError(m) => m
    case NoUser => "Cannot read properties of null (reading 'id')"
  }

  predicate HasStatus(t: Task, s: TaskStatus)
  {
    t.status == s
  }

  // ---------------------------------------------------------------------
  // The listing query
  // ---------------------------------------------------------------------

  /**
   * The query is built step by step: every task, newest first, and a status
   * constraint only when a filter other than "all" is given.
   */
  method BuildListQuery(filter: Option<StatusFilter>) returns (q: ListQuery)
    ensures q.table == "tasks" && q.orderColumn == "created_at" && !q.ascending
    ensures q.statusEq.Some? <==> filter.Some? && filter.value != All
    ensures q.statusEq.Some? ==> filter == Some(Only(q.statusEq.value))
  {
    q := ListQuery("tasks", "created_at", false, None);
    if filter.Some? && filter.value != All {
      q := q.(statusEq := Some(filter.value.status));
    }
  }

  /** Whether a row satisfies the query's status constraint. */
  predicate Admits(q: ListQuery, row: TaskRow)
  {
    q.statusEq.None? || row.status == q.statusEq.value
  }

  /** Rows ordered by creation time, newest first, as the query requests. */
  predicate NewestFirst(rows: seq<TaskRow>)
  {
    forall i, j :: 0 <= i < j < |rows| ==> rows[i].createdAt >= rows[j].createdAt
  }

  predicate NewestFirstTasks(tasks: seq<Task>)
  {
    forall i, j :: 0 <= i < j < |tasks| ==> tasks[i].createdAt >= tasks[j].createdAt
  }

  // ---------------------------------------------------------------------
  // Post-processing of the fetched rows
  // ---------------------------------------------------------------------

  /** Whether `id` is the creator or the assignee of some row. */
  predicate Referenced(rows: seq<TaskRow>, id: UserId)
  {
    exists i :: 0 <= i < |rows| && (rows[i].assignedBy == id || rows[i].assignedTo == id)
  }

  /** `rows.flatMap(t => [t.assigned_by, t.assigned_to])`. */
  function ReferencedIds(rows: seq<TaskRow>): (ids: seq<UserId>)
    ensures |ids| == 2 * |rows|
    ensures forall id :: id in ids <==> Referenced(rows, id)
  {
    if rows == [] then []
    else
      var rest := ReferencedIds(rows[1..]);
      assert forall id :: Referenced(rows, id) <==>
        rows[0].assignedBy == id || rows[0].assignedTo == id || Referenced(rows[1..], id)
      by {
        forall id | Referenced(rows, id)
          ensures rows[0].assignedBy == id || rows[0].assignedTo == id || Referenced(rows[1..], id)
        {
          var i :| 0 <= i < |rows| && (rows[i].assignedBy == id || rows[i].assignedTo == id);
          if i > 0 {
            assert rows[1..][i - 1] == rows[i];
          }
        }
        forall id | Referenced(rows[1..], id) ensures Referenced(rows, id) {
          var i :| 0 <= i < |rows[1..]| && (rows[1..][i].assignedBy == id || rows[1..][i].assignedTo == id);
          assert rows[i + 1] == rows[1..][i];
        }
      }
      [rows[0].assignedBy, rows[0].assignedTo] + rest
  }

  predicate NoDuplicates(s: seq<UserId>)
  {
    forall i, j :: 0 <= i < j < |s| ==> s[i] != s[j]
  }

  /** `[...new Set(s)]`: the first occurrence of every element, in order. */
  function Distinct(s: seq<UserId>): (r: seq<UserId>)
    ensures NoDuplicates(r)
    ensures forall x :: x in r <==> x in s
    ensures |r| <= |s|
  {
    if s == [] then []
    else
      var d := Distinct(s[..|s| - 1]);
      assert forall x :: x in s <==> x in s[..|s| - 1] || x == s[|s| - 1] by {
        assert s == s[..|s| - 1] + [s[|s| - 1]];
      }
      if s[|s| - 1] in d then d else d + [s[|s| - 1]]
  }

  /** The ids sent to the profile lookup: every creator and assignee, each once. */
  function ProfileLookupIds(rows: seq<TaskRow>): (ids: seq<UserId>)
    ensures NoDuplicates(ids)
    ensures forall id :: id in ids <==> Referenced(rows, id)
    ensures |ids| <= 2 * |rows|
  {
    Distinct(ReferencedIds(rows))
  }

  /** `p.full_name || p.email`: the full name unless it is null or empty. */
  function DisplayName(p: Profile): (name: string)
    ensures p.fullName.Some? && p.fullName.value != "" ==> name == p.fullName.value
    ensures p.fullName.None? || p.fullName.value == "" ==> name == p.email
    ensures name == "" ==> p.email == ""
  {
    if p.fullName.Some? && p.fullName.value != "" then p.fullName.value else p.email
  }

  /** Whether no profile after index `i` has the same id: the entry `new Map` keeps. */
  predicate LastWithId(profiles: seq<Profile>, i: int)
    requires 0 <= i < |profiles|
  {
    forall j :: i < j < |profiles| ==> profiles[j].id != profiles[i].id
  }

  /** Whether some profile has the id. */
  predicate HasProfile(profiles: seq<Profile>, id: UserId)
  {
    exists i :: 0 <= i < |profiles| && profiles[i].id == id
  }

  /** `new Map(profiles.map(p => [p.id, name]))`: later entries overwrite earlier ones. */
  function ProfileMap(profiles: seq<Profile>): (m: map<UserId, string>)
    ensures forall id :: id in m <==> HasProfile(profiles, id)
    ensures forall i {:trigger LastWithId(profiles, i)} :: 0 <= i < |profiles| && LastWithId(profiles, i) ==>
      profiles[i].id in m && m[profiles[i].id] == DisplayName(profiles[i])
  {
    if profiles == [] then map[]
    else
      var init := profiles[..|profiles| - 1];
      var p := profiles[|profiles| - 1];
      var m0 := ProfileMap(init);
      var m := m0[p.id := DisplayName(p)];
      assert forall id :: id in m <==> HasProfile(profiles, id) by {
        forall id | id in m ensures HasProfile(profiles, id) {
          if id != p.id {
            var i :| 0 <= i < |init| && init[i].id == id;
            assert profiles[i] == init[i];
          } else {
            assert profiles[|profiles| - 1].id == id;
          }
        }
        forall id | HasProfile(profiles, id) ensures id in m {
          var i :| 0 <= i < |profiles| && profiles[i].id == id;
          if i < |init| {
            assert init[i] == profiles[i];
          }
        }
      }
      assert forall i :: 0 <= i < |profiles| && LastWithId(profiles, i) ==>
        profiles[i].id in m && m[profiles[i].id] == DisplayName(profiles[i])
      by {
        forall i | 0 <= i < |profiles| && LastWithId(profiles, i)
          ensures profiles[i].id in m && m[profiles[i].id] == DisplayName(profiles[i])
        {
          if i < |init| {
            assert init[i] == profiles[i];
            assert profiles[|profiles| - 1].id != profiles[i].id;
            assert LastWithId(init, i) by {
              forall j | i < j < |init| ensures init[j].id != init[i].id {
                assert init[j] == profiles[j];
              }
            }
          }
        }
      }
      m
  }

  /** `profiles?.map(…) ?? []`: a failed or empty lookup gives an empty map. */
  function ProfileMapOf(profiles: Option<seq<Profile>>): (m: map<UserId, string>)
    ensures profiles.None? ==> m == map[]
    ensures profiles.Some? ==> m == ProfileMap(profiles.value)
    ensures forall id :: id in m <==> profiles.Some? && HasProfile(profiles.value, id)
  {
    if profiles.Some? then ProfileMap(profiles.value) else map[]
  }

  /** `profileMap.get(id) || "Unknown"`. */
  function NameFor(names: map<UserId, string>, id: UserId): (name: string)
    ensures name != ""
    ensures name == UnknownName <==> id !in names || names[id] == "" || names[id] == UnknownName
    ensures name != UnknownName ==> id in names && name == names[id]
  {
    if id in names && names[id] != "" then names[id] else UnknownName
  }

  /**
   * One fetched row turned into a `Task`: the same row, with both names
   * resolved through the map, never empty, and "Unknown" unless the map
   * gives a non-empty name.
   */
  function Enrich(row: TaskRow, names: map<UserId, string>): (t: Task)
    ensures t.id == row.id && t.status == row.status && t.createdAt == row.createdAt
    ensures t.assignedByName.Some? && t.assignedByName.value != ""
    ensures t.assignedToName.Some? && t.assignedToName.value != ""
    ensures row.assignedBy in names && names[row.assignedBy] != "" ==> t.assignedByName == Some(names[row.assignedBy])
    ensures row.assignedTo in names && names[row.assignedTo] != "" ==> t.assignedToName == Some(names[row.assignedTo])
    ensures t.assignedByName.value != UnknownName ==> row.assignedBy in names
    ensures t.assignedToName.value != UnknownName ==> row.assignedTo in names
    ensures t.assignedByName == Some(NameFor(names, row.assignedBy))
    ensures t.assignedToName == Some(NameFor(names, row.assignedTo))
  {
    Task(
      row.id,
      row.title,
      if row.description.Present? then row.description.value else "",
      row.status,
      if row.dueDate.Present? then Some(row.dueDate.value) else None,
      row.assignedBy,
      row.assignedTo,
      row.createdAt,
      row.updatedAt,
      Some(NameFor(names, row.assignedBy)),
      Some(NameFor(names, row.assignedTo)))
  }

  /**
   * The listing's `queryFn` after the query has run: a store error is
   * thrown; otherwise every row is enriched with the names from the profile
   * lookup, whose failure is ignored.
   */
  function FetchTasks(response: Result<seq<TaskRow>, string>, profiles: Option<seq<Profile>>): (r: Result<seq<Task>, Failure>)
    ensures response.Failure? ==> r == Failure(StoreError(response.error))
    ensures response.Success? ==> r.Success? && |r.value| == |response.value|
    ensures response.Success? ==> forall i :: 0 <= i < |response.value| ==>
      r.value[i] == Enrich(response.value[i], ProfileMapOf(profiles))
  {
    match response
    case Failure(e) => Failure(StoreError(e))
    case Success(rows) =>
      var names := ProfileMapOf(profiles);
      Success(seq(|rows|, i requires 0 <= i < |rows| => Enrich(rows[i], names)))
  }

  /** Enrichment keeps every column but `description` and `due_date`, which it normalises. */
  lemma EnrichKeepsColumns(row: TaskRow, names: map<UserId, string>)
    ensures var t := Enrich(row, names);
      && t.id == row.id && t.title == row.title && t.status == row.status
      && t.assignedBy == row.assignedBy && t.assignedTo == row.assignedTo
      && t.createdAt == row.createdAt && t.updatedAt == row.updatedAt
      && (row.description.Present? ==> t.description == row.description.value)
      && (!row.description.Present? ==> t.description == "")
      && (t.dueDate.Some? <==> row.dueDate.Present?)
      && (t.dueDate.Some? ==> t.dueDate.value == row.dueDate.value)
  {
  }

  /**
   * The name given to a creator or assignee: the display name of the last
   * profile with that id when it is non-empty, otherwise "Unknown".
   */
  lemma ResolvedName(profiles: seq<Profile>, i: nat, id: UserId)
    requires i < |profiles| && profiles[i].id == id && LastWithId(profiles, i)
    ensures NameFor(ProfileMap(profiles), id) ==
      if DisplayName(profiles[i]) != "" then DisplayName(profiles[i]) else UnknownName
  {
  }

  /** An id with no profile in the lookup is shown as "Unknown". */
  lemma UnresolvedName(profiles: seq<Profile>, id: UserId)
    requires forall i :: 0 <= i < |profiles| ==> profiles[i].id != id
    ensures NameFor(ProfileMap(profiles), id) == UnknownName
  {
  }

  /**
   * In the listing, a task's creator and assignee are named by the profile
   * lookup: by the last profile with that id, or "Unknown" when that
   * profile's name is empty or no profile has the id.
   */
  lemma ListingNamesFromProfiles(rows: seq<TaskRow>, ps: seq<Profile>, i: nat)
    requires i < |rows|
    ensures var r := FetchTasks(Success(rows), Some(ps));
      && r.Success? && i < |r.value|
      && ((forall k :: 0 <= k < |ps| ==> ps[k].id != rows[i].assignedBy) ==> r.value[i].assignedByName == Some(UnknownName))
      && ((forall k :: 0 <= k < |ps| ==> ps[k].id != rows[i].assignedTo) ==> r.value[i].assignedToName == Some(UnknownName))
      && (forall k :: 0 <= k < |ps| && ps[k].id == rows[i].assignedBy && LastWithId(ps, k) ==>
            r.value[i].assignedByName == Some(if DisplayName(ps[k]) != "" then DisplayName(ps[k]) else UnknownName))
      && (forall k :: 0 <= k < |ps| && ps[k].id == rows[i].assignedTo && LastWithId(ps, k) ==>
            r.value[i].assignedToName == Some(if DisplayName(ps[k]) != "" then DisplayName(ps[k]) else UnknownName))
  {
    var r := FetchTasks(Success(rows), Some(ps));
    var names := ProfileMap(ps);
    assert r.value[i] == Enrich(rows[i], names);
    var creator, assignee := rows[i].assignedBy, rows[i].assignedTo;
    if forall k :: 0 <= k < |ps| ==> ps[k].id != creator {
      UnresolvedName(ps, creator);
    }
    if forall k :: 0 <= k < |ps| ==> ps[k].id != assignee {
      UnresolvedName(ps, assignee);
    }
    forall k | 0 <= k < |ps| && ps[k].id == creator && LastWithId(ps, k)
      ensures r.value[i].assignedByName == Some(if DisplayName(ps[k]) != "" then DisplayName(ps[k]) else UnknownName)
    {
      ResolvedName(ps, k, creator);
    }
    forall k | 0 <= k < |ps| && ps[k].id == assignee && LastWithId(ps, k)
      ensures r.value[i].assignedToName == Some(if DisplayName(ps[k]) != "" then DisplayName(ps[k]) else UnknownName)
    {
      ResolvedName(ps, k, assignee);
    }
  }

  /** With a failed or empty profile lookup the listing still succeeds, every name "Unknown". */
  lemma NoProfilesAllUnknown(rows: seq<TaskRow>, profiles: Option<seq<Profile>>)
    requires profiles.None? || profiles == Some([])
    ensures var r := FetchTasks(Success(rows), profiles);
      && r.Success? && |r.value| == |rows|
      && forall i :: 0 <= i < |rows| ==>
           r.value[i].assignedByName == Some(UnknownName) && r.value[i].assignedToName == Some(UnknownName)
  {
    var r := FetchTasks(Success(rows), profiles);
    assert ProfileMapOf(profiles) == map[];
    forall i | 0 <= i < |rows|
      ensures r.value[i].assignedByName == Some(UnknownName) && r.value[i].assignedToName == Some(UnknownName)
    {
      assert r.value[i] == Enrich(rows[i], map[]);
    }
  }

  /** The listing keeps the fetched order, so rows fetched newest first stay newest first. */
  lemma ListingKeepsOrder(rows: seq<TaskRow>, profiles: Option<seq<Profile>>)
    requires NewestFirst(rows)
    ensures var r := FetchTasks(Success(rows), profiles);
      && r.Success? && NewestFirstTasks(r.value)
      && forall i :: 0 <= i < |rows| ==> r.value[i].id == rows[i].id
  {
    var r := FetchTasks(Success(rows), profiles);
    forall i, j | 0 <= i < j < |rows| ensures r.value[i].createdAt >= r.value[j].createdAt {
      assert r.value[i] == Enrich(rows[i], ProfileMapOf(profiles));
      assert r.value[j] == Enrich(rows[j], ProfileMapOf(profiles));
    }
  }

  /** When the store honours a status constraint, every listed task has that status. */
  lemma FilteredListing(q: ListQuery, rows: seq<TaskRow>, profiles: Option<seq<Profile>>, s: TaskStatus)
    requires q.statusEq == Some(s)
    requires forall i :: 0 <= i < |rows| ==> Admits(q, rows[i])
    ensures var r := FetchTasks(Success(rows), profiles);
      r.Success? && forall i :: 0 <= i < |r.value| ==> HasStatus(r.value[i], s)
  {
    var r := FetchTasks(Success(rows), profiles);
    forall i | 0 <= i < |r.value| ensures HasStatus(r.value[i], s) {
      assert r.value[i] == Enrich(rows[i], ProfileMapOf(profiles));
    }
  }

  // ---------------------------------------------------------------------
  // The listing cache keys and their invalidation
  // ---------------------------------------------------------------------

  datatype KeyPart = Name(name: string) | FilterPart(filter: Option<StatusFilter>) | AdminFlag(isAdmin: bool)

  type QueryKey = seq<KeyPart>

  /** `["tasks", statusFilter, isAdmin]`, the key of one cached listing. */
  function ListingKey(filter: Option<StatusFilter>, isAdmin: bool): QueryKey
  {
    [Name("tasks"), FilterPart(filter), AdminFlag(isAdmin)]
  }

  /** `["tasks"]`, the key every successful mutation invalidates. */
  const TasksPrefix: QueryKey := [Name("tasks")]

  /** The key of the profile list and of the admin user roster. */
  const ProfilesKey: QueryKey := [Name("profiles")]
  const AdminUsersKey: QueryKey := [Name("admin-users")]

  /** The cached keys an invalidation by prefix marks stale: those the prefix starts. */
  function Invalidated(cached: set<QueryKey>, prefix: Option<QueryKey>): (stale: set<QueryKey>)
    ensures stale <= cached
    ensures prefix.None? ==> stale == {}
    ensures forall k :: k in stale <==> k in cached && prefix.Some? && prefix.value <= k
  {
    if prefix.None? then {} else set k | k in cached && prefix.value <= k
  }

  /** The tasks prefix covers every listing key, and no other cached query. */
  lemma TasksPrefixCoversListings(cached: set<QueryKey>, filter: Option<StatusFilter>, isAdmin: bool)
    ensures ListingKey(filter, isAdmin) in cached ==> ListingKey(filter, isAdmin) in Invalidated(cached, Some(TasksPrefix))
    ensures ProfilesKey !in Invalidated(cached, Some(TasksPrefix))
    ensures AdminUsersKey !in Invalidated(cached, Some(TasksPrefix))
  {
    assert ListingKey(filter, isAdmin)[..1] == TasksPrefix;
    assert ProfilesKey[0] != TasksPrefix[0];
    assert AdminUsersKey[0] != TasksPrefix[0];
  }

  // ---------------------------------------------------------------------
  // Mutations
  // ---------------------------------------------------------------------

  /**
   * The create input. `assignedBy` is not part of the declared input type,
   * but a caller can still pass one at run time; the insert overrides it.
   */
  datatype CreateInput = CreateInput(
    title: string,
    description: Option<string>,
    status: Option<TaskStatus>,
    dueDate: Field<Instant>,
    assignedTo: UserId,
    assignedBy: Option<UserId>)

  /** The row sent to `insert`: the input's fields and the acting user as creator. */
  datatype InsertRow = InsertRow(
    title: string,
    description: Option<string>,
    status: Option<TaskStatus>,
    dueDate: Field<Instant>,
    assignedTo: UserId,
    assignedBy: UserId)

  /**
   * The fields an update sets. `assignedBy` is not part of the declared
   * input type, but the rest-spread passes on whatever a caller supplies.
   */
  datatype TaskChanges = TaskChanges(
    title: Option<string>,
    description: Option<string>,
    status: Option<TaskStatus>,
    dueDate: Field<Instant>,
    assignedTo: Option<UserId>,
    assignedBy: Option<UserId>)

  /** The update input: the id of the row and the changes (`assignedBy` as above). */
  datatype UpdateInput = UpdateInput(
    id: TaskId,
    title: Option<string>,
    description: Option<string>,
    status: Option<TaskStatus>,
    dueDate: Field<Instant>,
    assignedTo: Option<UserId>,
    assignedBy: Option<UserId>)

  /** `update(updates).eq("id", id)`. */
  datatype UpdateRequest = UpdateRequest(id: TaskId, changes: TaskChanges)

  /** `delete().eq("id", id)`. */
  datatype DeleteRequest = DeleteRequest(id: TaskId)

  /**
   * One mutation call: the request sent to the store (none when it fails
   * before sending), what the caller receives, and the key prefix
   * invalidated afterwards.
   */
  datatype Mutation<R, T> = Mutation(request: Option<R>, result: Result<T, Failure>, invalidates: Option<QueryKey>)

  /** `{ ...task, assigned_by: user.id }`. */
  function CreatePayload(input: CreateInput, user: UserId): (row: InsertRow)
    ensures row.assignedBy == user
    ensures row.title == input.title && row.description == input.description && row.status == input.status
    ensures row.dueDate == input.dueDate && row.assignedTo == input.assignedTo
  {
    InsertRow(input.title, input.description, input.status, input.dueDate, input.assignedTo, user)
  }

  /** Whatever creator a caller supplies, the insert carries the acting user. */
  lemma CreatorIsActingUser(input: CreateInput, user: UserId, supplied: Option<UserId>)
    ensures CreatePayload(input.(assignedBy := supplied), user) == CreatePayload(input.(assignedBy := None), user)
    ensures CreatePayload(input.(assignedBy := supplied), user).assignedBy == user
  {
  }

  /** `({ id, ...updates })`: the id selects the row, the rest are the changes. */
  function UpdatePayload(input: UpdateInput): (req: UpdateRequest)
    ensures req.id == input.id
    ensures req.changes.title == input.title && req.changes.description == input.description
    ensures req.changes.status == input.status && req.changes.dueDate == input.dueDate
    ensures req.changes.assignedTo == input.assignedTo && req.changes.assignedBy == input.assignedBy
  {
    UpdateRequest(input.id, TaskChanges(input.title, input.description, input.status, input.dueDate, input.assignedTo, input.assignedBy))
  }

  /** What a store update with these changes means for one row: given fields overwrite. */
  function ApplyChanges(row: TaskRow, c: TaskChanges): TaskRow
  {
    row.(
      title := if c.title.Some? then c.title.value else row.title,
      description := if c.description.Some? then Present(c.description.value) else row.description,
      status := if c.status.Some? then c.status.value else row.status,
      dueDate := if c.dueDate.Absent? then row.dueDate else c.dueDate,
      assignedTo := if c.assignedTo.Some? then c.assignedTo.value else row.assignedTo,
      assignedBy := if c.assignedBy.Some? then c.assignedBy.value else row.assignedBy)
  }

  /** The rows after an update request: only the row with the request's id changes. */
  function ApplyUpdate(rows: seq<TaskRow>, req: UpdateRequest): (after: seq<TaskRow>)
    ensures |after| == |rows|
  {
    seq(|rows|, i requires 0 <= i < |rows| =>
      if rows[i].id == req.id then ApplyChanges(rows[i], req.changes) else rows[i])
  }

  /**
   * An update never changes a row's id or creation time and leaves the other
   * rows as they were. It changes the selected row's creator only when the
   * caller slips one in beside the declared fields, and then passes it on.
   * With no changes it leaves every row as it was.
   */
  lemma UpdateKeepsIdentity(rows: seq<TaskRow>, input: UpdateInput)
    ensures var after := ApplyUpdate(rows, UpdatePayload(input));
      forall i :: 0 <= i < |rows| ==>
        && after[i].id == rows[i].id
        && after[i].createdAt == rows[i].createdAt
        && after[i].assignedBy ==
             (if rows[i].id == input.id && input.assignedBy.Some? then input.assignedBy.value else rows[i].assignedBy)
        && (rows[i].id != input.id ==> after[i] == rows[i])
    ensures input == UpdateInput(input.id, None, None, None, Absent, None, None) ==>
      ApplyUpdate(rows, UpdatePayload(input)) == rows
  {
  }

  /** A store response turned into the caller's result and the invalidation that follows. */
  function Settle<R, T>(request: R, response: Result<T, string>): (m: Mutation<R, T>)
    ensures m.request == Some(request)
    ensures m.result.Success? <==> response.Success?
    ensures response.Success? ==> m.result.value == response.value && m.invalidates == Some(TasksPrefix)
    ensures response.Failure? ==> m.result == Failure(StoreError(response.error)) && m.invalidates.None?
  {
    match response
    case Success(v) => Mutation(Some(request), Success(v), Some(TasksPrefix))
    case Failure(e) => Mutation(Some(request), Failure(StoreError(e)), None)
  }

  /**
   * `createTask`: inserts the payload for the acting user; without a user the
   * payload cannot be built and nothing is sent.
   */
  function CreateTask(user: Option<UserId>, input: CreateInput, response: Result<TaskRow, string>): (m: Mutation<InsertRow, TaskRow>)
    ensures user.None? ==> m == Mutation(None, Failure(NoUser), None)
    ensures user.Some? ==> m.request == Some(CreatePayload(input, user.value))
    ensures user.Some? && response.Failure? ==> m.result == Failure(StoreError(response.error))
    ensures m.result.Success? <==> user.Some? && response.Success?
    ensures m.invalidates == (if m.result.Success? then Some(TasksPrefix) else None)
    ensures m.result.Success? ==> response.Success? && m.result.value == response.value
  {
    if user.None? then Mutation(None, Failure(NoUser), None)
    else Settle(CreatePayload(input, user.value), response)
  }

  /** `updateTask`. */
  function UpdateTask(input: UpdateInput, response: Result<TaskRow, string>): (m: Mutation<UpdateRequest, TaskRow>)
    ensures m.request == Some(UpdatePayload(input))
    ensures response.Failure? ==> m.result == Failure(StoreError(response.error))
    ensures m.result.Success? <==> response.Success?
    ensures m.invalidates == (if m.result.Success? then Some(TasksPrefix) else None)
    ensures m.result.Success? ==> response.Success? && m.result.value == response.value
  {
    Settle(UpdatePayload(input), response)
  }

  /** `deleteTask`. */
  function DeleteTask(id: TaskId, response: Result<(), string>): (m: Mutation<DeleteRequest, ()>)
    ensures m.request == Some(DeleteRequest(id))
    ensures response.Failure? ==> m.result == Failure(StoreError(response.error))
    ensures m.result.Success? <==> response.Success?
    ensures m.invalidates == (if m.result.Success? then Some(TasksPrefix) else None)
  {
    Settle(DeleteRequest(id), response)
  }

  /**
   * After a mutation, a cached listing is marked stale exactly when the
   * mutation succeeded; the profile and roster queries never are.
   */
  lemma MutationRefreshesListings<R, T>(m: Mutation<R, T>, cached: set<QueryKey>, filter: Option<StatusFilter>, isAdmin: bool)
    requires m.invalidates == (if m.result.Success? then Some(TasksPrefix) else None)
    requires ListingKey(filter, isAdmin) in cached
    ensures ListingKey(filter, isAdmin) in Invalidated(cached, m.invalidates) <==> m.result.Success?
    ensures ProfilesKey !in Invalidated(cached, m.invalidates)
    ensures AdminUsersKey !in Invalidated(cached, m.invalidates)
  {
    TasksPrefixCoversListings(cached, filter, isAdmin);
  }
}
