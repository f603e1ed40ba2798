/** What the todo list screen shows for the cached list: an error, a loading
    placeholder, the empty state, or the list sorted for display (incomplete
    todos first, then newest first) with a "completed of total" count. */
module TodoListView {
  import opened Wrappers
  import opened ClientTypes

  /** The sort comparator: negative when `a` goes first, positive when `b`
      does. A status difference decides first, then the creation time. */
  function Compare(a: Todo, b: Todo): (r: int)
    ensures r < 0 <==> (!a.completed && b.completed)
                       || (a.completed == b.completed && a.createdAt > b.createdAt)
    ensures r == 0 <==> a.completed == b.completed && a.createdAt == b.createdAt
  {
    if a.completed != b.completed then (if a.completed then 1 else -1)
    else b.createdAt - a.createdAt
  }

  /** Every pair is in comparator order. */
  ghost predicate DisplayOrdered(s: seq<Todo>) {
    forall i, j :: 0 <= i < j < |s| ==> Compare(s[i], s[j]) <= 0
  }

  /** A list stays in comparator order when an element that may precede all of
      its members is put in front. */
  lemma PrependInOrder(x: Todo, s: seq<Todo>)
    requires DisplayOrdered(s)
    requires forall y :: y in s ==> Compare(x, y) <= 0
    ensures DisplayOrdered([x] + s)
  {
    forall i, j | 0 <= i < j < |[x] + s|
      ensures Compare(([x] + s)[i], ([x] + s)[j]) <= 0
    {
      if i > 0 {
        assert ([x] + s)[i] == s[i - 1];
      }
      assert ([x] + s)[j] == s[j - 1];
    }
  }

  /** Places `t` before the first element it may precede, so equal elements
      keep their relative order. */
  function InsertForDisplay(t: Todo, s: seq<Todo>): (r: seq<Todo>)
    requires DisplayOrdered(s)
    ensures DisplayOrdered(r)
    ensures forall x :: x in r <==> x == t || x in s
    ensures multiset(r) == multiset(s) + multiset{t}
  {
    if s == [] || Compare(t, s[0]) <= 0 then
      PrependInOrder(t, s);
      [t] + s
    else
      var rest := InsertForDisplay(t, s[1..]);
      assert s == [s[0]] + s[1..];
      PrependInOrder(s[0], rest);
      [s[0]] + rest
  }

  /** `[...todos].sort(compare)`: a sorted copy. */
  function SortForDisplay(todos: seq<Todo>): (r: seq<Todo>)
    ensures multiset(r) == multiset(todos) && |r| == |todos|
    ensures DisplayOrdered(r)
    ensures forall i, j :: 0 <= i < j < |r| && r[i].completed ==> r[j].completed
    ensures forall i, j :: 0 <= i < j < |r| && r[i].completed == r[j].completed ==>
              r[i].createdAt >= r[j].createdAt
  {
    if todos == [] then []
    else
      assert todos == [todos[0]] + todos[1..];
      var r := InsertForDisplay(todos[0], SortForDisplay(todos[1..]));
      assert |r| == |multiset(r)|;
      r
  }

  /** `todos.filter(todo => todo.completed).length`. */
  function CompletedCount(todos: seq<Todo>): (n: nat)
    ensures n <= |todos|
  {
    if todos == [] then 0 else (if todos[0].completed then 1 else 0) + CompletedCount(todos[1..])
  }

  /** Inserting adds the new todo's contribution to the count. */
  lemma {:induction false} CompletedCountInsert(t: Todo, s: seq<Todo>)
    requires DisplayOrdered(s)
    ensures CompletedCount(InsertForDisplay(t, s)) == CompletedCount(s) + (if t.completed then 1 else 0)
  {
    if s != [] && Compare(t, s[0]) > 0 {
      CompletedCountInsert(t, s[1..]);
      assert InsertForDisplay(t, s)[1..] == InsertForDisplay(t, s[1..]);
    }
  }

  /** Sorting does not change how many todos are completed. */
  lemma {:induction false} CompletedCountSorted(todos: seq<Todo>)
    ensures CompletedCount(SortForDisplay(todos)) == CompletedCount(todos)
  {
    if todos != [] {
      CompletedCountSorted(todos[1..]);
      CompletedCountInsert(todos[0], SortForDisplay(todos[1..]));
    }
  }

  /** In a list with every incomplete todo before every completed one, the
      completed todos are exactly the last `CompletedCount` positions. */
  lemma {:induction false} CompletedAreTheSuffix(s: seq<Todo>)
    requires forall i, j :: 0 <= i < j < |s| && s[i].completed ==> s[j].completed
    ensures forall i :: 0 <= i < |s| ==> (s[i].completed <==> i >= |s| - CompletedCount(s))
  {
    if s != [] {
      var rest := s[1..];
      assert forall i :: 0 <= i < |rest| ==> rest[i] == s[i + 1];
      CompletedAreTheSuffix(rest);
      if s[0].completed && rest != [] {
        assert rest[0].completed;
      }
    }
  }

  /** The displayed list is the incomplete todos followed by the completed
      ones, and there are as many completed as the header counts. */
  lemma DisplaySplitsAtCompletedCount(todos: seq<Todo>)
    ensures var r := SortForDisplay(todos);
            forall i :: 0 <= i < |r| ==> (r[i].completed <==> i >= |todos| - CompletedCount(todos))
  {
    CompletedAreTheSuffix(SortForDisplay(todos));
    CompletedCountSorted(todos);
  }

  /** The four things the screen can show. */
  datatype View =
    | ErrorView
    | LoadingView
    | EmptyView
    | ListView(sorted: seq<Todo>, completedCount: nat, totalCount: nat)

  /** The screen for the list query's state: the error first, then loading,
      then the empty state for a missing or empty list, else the list in
      display order (incomplete todos, then the completed ones) with the
      number completed and the list's length. */
  function Render(data: Option<TodosResponse>, isLoading: bool, failed: bool): (v: View)
    ensures failed ==> v == ErrorView
    ensures !failed && isLoading ==> v == LoadingView
    ensures v == EmptyView <==> !failed && !isLoading && (data.None? || data.value.todos == [])
    ensures v.ListView? ==> data.Some? && data.value.todos != []
    ensures !failed && !isLoading && data.Some? && data.value.todos != [] ==> v.ListView?
    ensures v.ListView? ==> && multiset(v.sorted) == multiset(data.value.todos)
                            && v.totalCount == |data.value.todos|
                            && v.completedCount == CompletedCount(data.value.todos)
                            && v.completedCount <= v.totalCount
    ensures v.ListView? ==> DisplayOrdered(v.sorted)
    ensures v.ListView? ==> forall i :: 0 <= i < |v.sorted| ==>
              (v.sorted[i].completed <==> i >= v.totalCount - v.completedCount)
  {
    if failed then ErrorView
    else if isLoading then LoadingView
    else
      var todos := if data.Some? then data.value.todos else [];
      if |todos| == 0 then EmptyView
      else
        var sorted := SortForDisplay(todos);
        CompletedAreTheSuffix(sorted);
        CompletedCountSorted(todos);
        ListView(sorted, CompletedCount(todos), |todos|)
  }

  /** The header's total is the length of the list, not the cached counter,
      so a counter that drifted after a delete is never shown. */
  lemma ShownTotalIgnoresCounter(todos: seq<Todo>, total1: int, total2: int)
    ensures Render(Some(TodosResponse(todos, total1)), false, false)
         == Render(Some(TodosResponse(todos, total2)), false, false)
  {
  }
}
