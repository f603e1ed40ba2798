/** The todo as the browser sees it, and the cached answer of the list query. */
module ClientTypes {

  /** A todo on the client. `createdAt` is the creation time in milliseconds. */
  datatype Todo = Todo(id: string, title: string, completed: bool, createdAt: int)

  /** The cached `{ todos, total }` of the list query. `total` is kept apart
      from the list and may disagree with its length. */
  datatype TodosResponse = TodosResponse(todos: seq<Todo>, total: int)
}
