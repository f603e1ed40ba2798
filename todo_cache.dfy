/** The cache updaters that run after each successful mutation: prepend the
    created todo, replace the updated todo by id, drop the deleted id. The
    cache may be empty (no list fetched yet). The `total` counter is adjusted
    on its own and is not recomputed from the list. */
module TodoCache {
  import opened Wrappers
  import opened ClientTypes

  /** The number of cached todos carrying `id`. */
  function CountId(s: seq<Todo>, id: string): (n: nat)
    ensures n <= |s|
    ensures n == 0 <==> forall t :: t in s ==> t.id != id
  {
    if s == [] then 0 else (if s[0].id == id then 1 else 0) + CountId(s[1..], id)
  }

  /** `todos.map(todo => todo.id === updated.id ? updated : todo)`. */
  function ReplaceById(s: seq<Todo>, updated: Todo): (r: seq<Todo>)
    ensures |r| == |s|
    ensures forall i :: 0 <= i < |s| ==> r[i] == (if s[i].id == updated.id then updated else s[i])
  {
    seq(|s|, i requires 0 <= i < |s| => if s[i].id == updated.id then updated else s[i])
  }

  /** `todos.filter(todo => todo.id !== id)`. */
  function RemoveById(s: seq<Todo>, id: string): (r: seq<Todo>)
    ensures forall t :: t in r <==> t in s && t.id != id
    ensures |r| == |s| - CountId(s, id)
  {
    if s == [] then []
    else if s[0].id == id then RemoveById(s[1..], id)
    else [s[0]] + RemoveById(s[1..], id)
  }

  /** The create updater. */
  function OnCreated(cached: Option<TodosResponse>, newTodo: Todo): (r: TodosResponse)
    ensures cached.None? ==> r == TodosResponse([newTodo], 1)
    ensures cached.Some? ==> r.todos == [newTodo] + cached.value.todos && r.total == cached.value.total + 1
  {
    if cached.None? then TodosResponse([newTodo], 1)
    else TodosResponse([newTodo] + cached.value.todos, cached.value.total + 1)
  }

  /** The update updater: an empty cache stays empty. */
  function OnUpdated(cached: Option<TodosResponse>, updated: Todo): (r: Option<TodosResponse>)
    ensures cached.None? <==> r.None?
    ensures cached.Some? ==> r.value.total == cached.value.total
                             && r.value.todos == ReplaceById(cached.value.todos, updated)
  {
    if cached.None? then cached
    else Some(cached.value.(todos := ReplaceById(cached.value.todos, updated)))
  }

  /** The delete updater: an empty cache stays empty; otherwise `total` drops by
      one whether or not the id was in the list. */
  function OnDeleted(cached: Option<TodosResponse>, id: string): (r: Option<TodosResponse>)
    ensures cached.None? <==> r.None?
    ensures cached.Some? ==> r.value.total == cached.value.total - 1
                             && r.value.todos == RemoveById(cached.value.todos, id)
  {
    if cached.None? then cached
    else Some(TodosResponse(RemoveById(cached.value.todos, id), cached.value.total - 1))
  }

  /** The counter agrees with the list. */
  predicate Consistent(d: TodosResponse) {
    d.total == |d.todos|
  }

  // ---------------------------------------------------------------------------
  // Properties of the updaters

  /** Filtering distributes over concatenation: the kept todos stay in their
      original order. */
  lemma {:induction false} RemoveByIdAppend(a: seq<Todo>, b: seq<Todo>, id: string)
    ensures RemoveById(a + b, id) == RemoveById(a, id) + RemoveById(b, id)
  {
    if a == [] {
      assert a + b == b;
    } else {
      var ab := a + b;
      assert ab[0] == a[0] && ab[1..] == a[1..] + b;
      RemoveByIdAppend(a[1..], b, id);
      if a[0].id == id {
        assert RemoveById(ab, id) == RemoveById(a[1..] + b, id);
      } else {
        assert RemoveById(ab, id) == [a[0]] + RemoveById(a[1..] + b, id);
        assert RemoveById(a, id) == [a[0]] + RemoveById(a[1..], id);
      }
    }
  }

  /** Removing an id that no todo carries changes nothing. */
  lemma {:induction false} RemoveAbsentId(s: seq<Todo>, id: string)
    requires CountId(s, id) == 0
    ensures RemoveById(s, id) == s
  {
    if s != [] {
      RemoveAbsentId(s[1..], id);
    }
  }

  /** Create keeps a consistent counter consistent (or starts one). */
  lemma CreatePreservesConsistency(cached: Option<TodosResponse>, newTodo: Todo)
    requires cached.Some? ==> Consistent(cached.value)
    ensures Consistent(OnCreated(cached, newTodo))
  {
  }

  /** Update keeps a consistent counter consistent. */
  lemma UpdatePreservesConsistency(d: TodosResponse, updated: Todo)
    requires Consistent(d)
    ensures Consistent(OnUpdated(Some(d), updated).value)
  {
  }

  /** Update keeps every position's id, and every todo with the updated id now
      is the updated todo. */
  lemma UpdateReplacesOnlyMatchingIds(d: TodosResponse, updated: Todo)
    ensures var r := OnUpdated(Some(d), updated).value.todos;
            && |r| == |d.todos|
            && (forall i :: 0 <= i < |r| ==> r[i].id == d.todos[i].id)
            && (forall t :: t in r && t.id == updated.id ==> t == updated)
  {
  }

  /** Applying the same update twice is the same as applying it once. */
  lemma UpdateIdempotent(cached: Option<TodosResponse>, updated: Todo)
    ensures OnUpdated(OnUpdated(cached, updated), updated) == OnUpdated(cached, updated)
  {
    if cached.Some? {
      var once := ReplaceById(cached.value.todos, updated);
      assert ReplaceById(once, updated) == once;
    }
  }

  /** After delete, the counter matches the list exactly when the id was
      cached once: deleting an id that is not cached makes them drift apart. */
  lemma DeleteConsistentIffOneMatch(d: TodosResponse, id: string)
    requires Consistent(d)
    ensures Consistent(OnDeleted(Some(d), id).value) <==> CountId(d.todos, id) == 1
  {
  }

  /** Deleting a todo right after creating it restores the cache, counter
      included, when its id was not cached before. */
  lemma DeleteUndoesCreate(d: TodosResponse, newTodo: Todo)
    requires CountId(d.todos, newTodo.id) == 0
    ensures OnDeleted(Some(OnCreated(Some(d), newTodo)), newTodo.id) == Some(d)
  {
    RemoveByIdAppend([newTodo], d.todos, newTodo.id);
    RemoveAbsentId(d.todos, newTodo.id);
  }
}
