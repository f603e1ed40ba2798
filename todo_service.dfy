/** The backend todo service: a table of todo records, each owned by one user,
    read and changed only through queries scoped by owner. The table is kept in
    insertion order; ids come from a counter, as the database's id generator
    hands out ids that are never reused. */
module TodoService {
  import opened Wrappers

  type UserId = int
  type TodoId = nat

  /** One row of the todo table. `createdAt` is a timestamp in milliseconds. */
  datatype Todo = Todo(id: TodoId, title: string, completed: bool, createdAt: int, userId: UserId)

  /** A partial update: only the fields that are present overwrite the record. */
  datatype Patch = Patch(title: Option<string>, completed: Option<bool>)

  /** The service's one failure: HTTP 404 'Todo not found'. */
  datatype ApiError = NotFound

  /** The answer to a list request: the owner's todos and their number. */
  datatype TodoPage = TodoPage(todos: seq<Todo>, total: nat)

  // ---------------------------------------------------------------------------
  // The table as a value: the queries the service issues

  /** No two rows share an id. */
  ghost predicate UniqueIds(rows: seq<Todo>) {
    forall i, j :: 0 <= i < j < |rows| ==> rows[i].id != rows[j].id
  }

  /** `findFirst({ where: { id, userId } })`: the first row matching both the id
      and the owner, or nothing. */
  function Lookup(rows: seq<Todo>, id: TodoId, userId: UserId): (r: Option<Todo>)
    ensures r.Some? ==> r.value in rows && r.value.id == id && r.value.userId == userId
    ensures r.None? <==> forall t :: t in rows ==> t.id != id || t.userId != userId
  {
    if rows == [] then None
    else if rows[0].id == id && rows[0].userId == userId then Some(rows[0])
    else Lookup(rows[1..], id, userId)
  }

  /** The row with the given id, whoever owns it (a query by id alone). */
  function FindById(rows: seq<Todo>, id: TodoId): (r: Option<Todo>)
    ensures r.Some? ==> r.value in rows && r.value.id == id
    ensures r.None? <==> forall t :: t in rows ==> t.id != id
  {
    if rows == [] then None
    else if rows[0].id == id then Some(rows[0])
    else FindById(rows[1..], id)
  }

  /** `findMany({ where: { userId } })` before ordering: the owner's rows. */
  function OwnedBy(rows: seq<Todo>, userId: UserId): (r: seq<Todo>)
    ensures forall t :: t in r <==> t in rows && t.userId == userId
    ensures |r| <= |rows|
  {
    if rows == [] then []
    else if rows[0].userId == userId then [rows[0]] + OwnedBy(rows[1..], userId)
    else OwnedBy(rows[1..], userId)
  }

  /** Ordered by `createdAt`, newest first. */
  ghost predicate NewestFirst(s: seq<Todo>) {
    forall i, j :: 0 <= i < j < |s| ==> s[i].createdAt >= s[j].createdAt
  }

  /** A list stays ordered newest first when an element no older than any of
      its members is put in front. */
  lemma PrependNewest(x: Todo, s: seq<Todo>)
    requires NewestFirst(s)
    requires forall y :: y in s ==> y.createdAt <= x.createdAt
    ensures NewestFirst([x] + s)
  {
    forall i, j | 0 <= i < j < |[x] + s|
      ensures ([x] + s)[i].createdAt >= ([x] + s)[j].createdAt
    {
      if i > 0 {
        assert ([x] + s)[i] == s[i - 1];
      }
      assert ([x] + s)[j] == s[j - 1];
    }
  }

  /** Places `t` into a list already ordered newest first. */
  function InsertByCreatedAt(t: Todo, s: seq<Todo>): (r: seq<Todo>)
    requires NewestFirst(s)
    ensures NewestFirst(r)
    ensures forall x :: x in r <==> x == t || x in s
    ensures multiset(r) == multiset(s) + multiset{t}
  {
    if s == [] || t.createdAt >= s[0].createdAt then
      PrependNewest(t, s);
      [t] + s
    else
      var rest := InsertByCreatedAt(t, s[1..]);
      assert s == [s[0]] + s[1..];
      PrependNewest(s[0], rest);
      [s[0]] + rest
  }

  /** `orderBy: { createdAt: 'desc' }`. */
  function SortNewestFirst(s: seq<Todo>): (r: seq<Todo>)
    ensures NewestFirst(r)
    ensures multiset(r) == multiset(s)
  {
    if s == [] then []
    else
      assert s == [s[0]] + s[1..];
      InsertByCreatedAt(s[0], SortNewestFirst(s[1..]))
  }

  /** The merge rule of a partial update: present fields overwrite, absent
      fields, the id, the owner and the creation time are kept. */
  function ApplyPatch(t: Todo, p: Patch): (r: Todo)
    ensures r.id == t.id && r.userId == t.userId && r.createdAt == t.createdAt
    ensures r.title == (if p.title.Some? then p.title.value else t.title)
    ensures r.completed == (if p.completed.Some? then p.completed.value else t.completed)
  {
    t.(title := if p.title.Some? then p.title.value else t.title,
       completed := if p.completed.Some? then p.completed.value else t.completed)
  }

  /** `update({ where: { id }, data })`: patches the row with that id. */
  function UpdateRow(rows: seq<Todo>, id: TodoId, p: Patch): (r: seq<Todo>)
    ensures |r| == |rows|
    ensures forall i :: 0 <= i < |rows| ==>
              r[i] == (if rows[i].id == id then ApplyPatch(rows[i], p) else rows[i])
  {
    seq(|rows|, i requires 0 <= i < |rows| =>
      if rows[i].id == id then ApplyPatch(rows[i], p) else rows[i])
  }

  /** `delete({ where: { id } })`: drops the row with that id. */
  function RemoveId(rows: seq<Todo>, id: TodoId): (r: seq<Todo>)
    ensures forall t :: t in r <==> t in rows && t.id != id
    ensures |r| <= |rows|
  {
    if rows == [] then []
    else if rows[0].id == id then RemoveId(rows[1..], id)
    else [rows[0]] + RemoveId(rows[1..], id)
  }

  // ---------------------------------------------------------------------------
  // Properties of the queries

  /** Enumeration resistance: what a scoped lookup by `userId` finds depends only
      on that user's own rows, so "exists but not yours" and "absent" give the
      same answer. */
  lemma {:induction false} LookupSeesOnlyOwnRows(rows: seq<Todo>, id: TodoId, userId: UserId)
    ensures Lookup(rows, id, userId) == Lookup(OwnedBy(rows, userId), id, userId)
  {
    if rows != [] {
      LookupSeesOnlyOwnRows(rows[1..], id, userId);
    }
  }

  /** A row owned by someone else is not found by a scoped lookup. */
  lemma ForeignRowIsNotFound(rows: seq<Todo>, t: Todo, userId: UserId)
    requires UniqueIds(rows) && t in rows && t.userId != userId
    ensures Lookup(rows, t.id, userId) == None
  {
  }

  /** With unique ids, a scoped hit is the row that the by-id query finds. */
  lemma {:induction false} LookupAgreesWithFindById(rows: seq<Todo>, id: TodoId, userId: UserId)
    requires UniqueIds(rows) && Lookup(rows, id, userId).Some?
    ensures FindById(rows, id) == Lookup(rows, id, userId)
  {
    if rows[0].id != id {
      LookupAgreesWithFindById(rows[1..], id, userId);
    }
  }

  /** Patching keeps every id in place, so ids stay distinct. */
  lemma UpdateRowKeepsIdsUnique(rows: seq<Todo>, id: TodoId, p: Patch)
    requires UniqueIds(rows)
    ensures UniqueIds(UpdateRow(rows, id, p))
  {
    var r := UpdateRow(rows, id, p);
    assert forall i :: 0 <= i < |r| ==> r[i].id == rows[i].id;
  }

  /** After patching, the by-id query finds the patched row. */
  lemma {:induction false} FindAfterUpdateRow(rows: seq<Todo>, id: TodoId, p: Patch)
    requires FindById(rows, id).Some?
    ensures FindById(UpdateRow(rows, id, p), id) == Some(ApplyPatch(FindById(rows, id).value, p))
  {
    var r := UpdateRow(rows, id, p);
    if rows[0].id == id {
      assert r[0] == ApplyPatch(rows[0], p);
    } else {
      assert r[0] == rows[0] && r[1..] == UpdateRow(rows[1..], id, p);
      FindAfterUpdateRow(rows[1..], id, p);
    }
  }

  /** After the row with `id` is removed, no user can find it any more: a
      second delete of the same id fails. */
  lemma RemovedRowIsNotFound(rows: seq<Todo>, id: TodoId, userId: UserId)
    ensures Lookup(RemoveId(rows, id), id, userId) == None
  {
  }

  /** Patching the row of owner `u` leaves every other owner's rows as they were. */
  lemma {:induction false} UpdateIsolatesOtherOwners(rows: seq<Todo>, id: TodoId, p: Patch, u: UserId, v: UserId)
    requires UniqueIds(rows) && Lookup(rows, id, u).Some? && v != u
    ensures OwnedBy(UpdateRow(rows, id, p), v) == OwnedBy(rows, v)
  {
    if rows != [] {
      assert UpdateRow(rows, id, p)[1..] == UpdateRow(rows[1..], id, p);
      if rows[0].id == id {
        assert rows[0].userId == u;
        assert forall t :: t in rows[1..] ==> t.id != id;
        assert UpdateRow(rows[1..], id, p) == rows[1..];
      } else {
        UpdateIsolatesOtherOwners(rows[1..], id, p, u, v);
      }
    }
  }

  /** Deleting the row of owner `u` leaves every other owner's rows as they were. */
  lemma {:induction false} RemoveIsolatesOtherOwners(rows: seq<Todo>, id: TodoId, u: UserId, v: UserId)
    requires UniqueIds(rows) && Lookup(rows, id, u).Some? && v != u
    ensures OwnedBy(RemoveId(rows, id), v) == OwnedBy(rows, v)
  {
    if rows != [] {
      if rows[0].id == id {
        assert forall t :: t in rows[1..] ==> t.id != id;
        RemoveAbsentId(rows[1..], id);
      } else {
        RemoveIsolatesOtherOwners(rows[1..], id, u, v);
      }
    }
  }

  /** Removing an id that no row carries changes nothing. */
  lemma {:induction false} RemoveAbsentId(rows: seq<Todo>, id: TodoId)
    requires forall t :: t in rows ==> t.id != id
    ensures RemoveId(rows, id) == rows
  {
    if rows != [] {
      RemoveAbsentId(rows[1..], id);
    }
  }

  /** The ids that remain after a removal are still distinct. */
  lemma {:induction false} RemoveKeepsIdsUnique(rows: seq<Todo>, id: TodoId)
    requires UniqueIds(rows)
    ensures UniqueIds(RemoveId(rows, id))
  {
    if rows != [] {
      RemoveKeepsIdsUnique(rows[1..], id);
      var rest := RemoveId(rows[1..], id);
      assert forall t :: t in rest ==> t in rows[1..];
    }
  }

  // ---------------------------------------------------------------------------
  // The service over the table

  class TodoStore {
    var rows: seq<Todo>
    var nextId: TodoId

    /** Ids are distinct and all below the next id to be handed out. */
    ghost predicate Valid()
      reads this
    {
      UniqueIds(rows) && forall t :: t in rows ==> t.id < nextId
    }

    constructor ()
      ensures Valid() && rows == [] && nextId == 0
    {
      rows := [];
      nextId := 0;
    }

    /** `createTodo(title, userId)`: stores a new, not completed todo stamped
        with the current time and returns it. */
    method CreateTodo(title: string, userId: UserId, now: int) returns (t: Todo)
      requires Valid()
      modifies this
      ensures Valid()
      ensures t.title == title && t.userId == userId && !t.completed && t.createdAt == now
      ensures forall u :: u in old(rows) ==> u.id != t.id
      ensures rows == old(rows) + [t]
    {
      t := Todo(nextId, title, false, now, userId);
      rows := rows + [t];
      nextId := nextId + 1;
    }

    /** `getTodosByUserId(userId)`: exactly the user's todos, newest first,
        with their count. */
    method GetTodosByUserId(userId: UserId) returns (page: TodoPage)
      ensures forall t :: t in page.todos <==> t in rows && t.userId == userId
      ensures multiset(page.todos) == multiset(OwnedBy(rows, userId))
      ensures NewestFirst(page.todos)
      ensures page.total == |page.todos|
    {
      var todos := SortNewestFirst(OwnedBy(rows, userId));
      assert forall t :: t in todos <==> t in multiset(todos);
      page := TodoPage(todos, |todos|);
    }

    /** `getTodoByIdAndUserId(id, userId)`: the todo only when both the id and
        the owner match; otherwise nothing. */
    method GetTodoByIdAndUserId(id: TodoId, userId: UserId) returns (r: Option<Todo>)
      ensures r.Some? ==> r.value in rows && r.value.id == id && r.value.userId == userId
      ensures r.None? <==> forall t :: t in rows ==> t.id != id || t.userId != userId
    {
      r := Lookup(rows, id, userId);
    }

    /** `updateTodoByIdAndUserId(id, userId, data)`: NotFound with the table
        untouched when the scoped lookup misses; otherwise the patched todo,
        and only that row changes. */
    method UpdateTodoByIdAndUserId(id: TodoId, userId: UserId, p: Patch) returns (r: Result<Todo, ApiError>)
      requires Valid()
      modifies this
      ensures Valid() && nextId == old(nextId)
      ensures Lookup(old(rows), id, userId).None? ==> r == Failure(NotFound) && rows == old(rows)
      ensures Lookup(old(rows), id, userId).Some? ==>
                r == Success(ApplyPatch(Lookup(old(rows), id, userId).value, p))
                && rows == UpdateRow(old(rows), id, p)
    {
      var found := GetTodoByIdAndUserId(id, userId);
      if found.None? {
        return Failure(NotFound);
      }
      LookupAgreesWithFindById(rows, id, userId);
      FindAfterUpdateRow(rows, id, p);
      UpdateRowKeepsIdsUnique(rows, id, p);
      rows := UpdateRow(rows, id, p);
      var updated := FindById(rows, id);
      r := Success(updated.value);
    }

    /** `deleteTodoByIdAndUserId(id, userId)`: NotFound with the table
        untouched when the scoped lookup misses; otherwise removes that one
        row and returns it as it was. */
    method DeleteTodoByIdAndUserId(id: TodoId, userId: UserId) returns (r: Result<Todo, ApiError>)
      requires Valid()
      modifies this
      ensures Valid() && nextId == old(nextId)
      ensures Lookup(old(rows), id, userId).None? ==> r == Failure(NotFound) && rows == old(rows)
      ensures Lookup(old(rows), id, userId).Some? ==>
                r == Success(Lookup(old(rows), id, userId).value)
                && rows == RemoveId(old(rows), id)
    {
      var found := GetTodoByIdAndUserId(id, userId);
      if found.None? {
        return Failure(NotFound);
      }
      LookupAgreesWithFindById(rows, id, userId);
      var deleted := FindById(rows, id);
      RemoveKeepsIdsUnique(rows, id);
      rows := RemoveId(rows, id);
      r := Success(deleted.value);
    }
  }

  /** Deleting the same id twice as its owner: the first call succeeds, the
      second fails with NotFound. */
  method DeleteTwice(store: TodoStore, id: TodoId, userId: UserId)
      returns (first: Result<Todo, ApiError>, second: Result<Todo, ApiError>)
    requires store.Valid()
    modifies store
    ensures Lookup(old(store.rows), id, userId).Some? ==> first.Success?
    ensures second == Failure(NotFound)
  {
    first := store.DeleteTodoByIdAndUserId(id, userId);
    RemovedRowIsNotFound(old(store.rows), id, userId);
    second := store.DeleteTodoByIdAndUserId(id, userId);
  }
}
