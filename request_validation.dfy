/** The backend's request-shape rules for the five todo endpoints. Each rule
    looks only at the parts of the request it declares (route parameters,
    query string, body). Following the validation library's defaults, keys
    that a rule does not declare are rejected, and a string field rejects the
    empty string. */
module RequestValidation {
  import opened Wrappers
  import opened Json
  import TodoService

  /** The parts of an HTTP request that the rules inspect. */
  datatype Request = Request(params: Object, query: Object, body: Object)

  /** `Joi.string()`: a string, and not the empty one. */
  predicate IsJoiString(v: Json) {
    v.JString? && v.s != ""
  }

  /** `Joi.boolean()`: a boolean. */
  predicate IsJoiBoolean(v: Json) {
    v.JBool?
  }

  /** `createTodo`: the body is exactly `{ title }`, a non-empty string. */
  function ValidateCreateTodo(req: Request): (r: Option<string>)
    ensures r.Some? <==> "title" in req.body && req.body.Keys == {"title"} && IsJoiString(req.body["title"])
    ensures r.Some? ==> r.value == req.body["title"].s && r.value != ""
  {
    if req.body.Keys == {"title"} && IsJoiString(req.body["title"]) then Some(req.body["title"].s)
    else None
  }

  /** `getTodos`: no query key is declared, so only an empty query passes. */
  function ValidateGetTodos(req: Request): (ok: bool)
    ensures ok <==> req.query == map[]
  {
    req.query.Keys == {}
  }

  /** The route parameters `{ id }` shared by get, update and delete. */
  function ValidateIdParams(params: Object): (r: Option<string>)
    ensures r.Some? <==> "id" in params && params.Keys == {"id"} && IsJoiString(params["id"])
    ensures r.Some? ==> r.value == params["id"].s
  {
    if params.Keys == {"id"} && IsJoiString(params["id"]) then Some(params["id"].s) else None
  }

  /** `getTodo`: an `id` route parameter. */
  function ValidateGetTodo(req: Request): (r: Option<string>)
    ensures r.Some? <==> "id" in req.params && req.params.Keys == {"id"} && IsJoiString(req.params["id"])
  {
    ValidateIdParams(req.params)
  }

  /** `deleteTodo`: an `id` route parameter. */
  function ValidateDeleteTodo(req: Request): (r: Option<string>)
    ensures r.Some? <==> "id" in req.params && req.params.Keys == {"id"} && IsJoiString(req.params["id"])
  {
    ValidateIdParams(req.params)
  }

  /** The body of `updateTodo`: optional `title` (string) and `completed`
      (boolean), nothing else, and at least one key; read as a partial update. */
  function ValidateUpdateBody(body: Object): (r: Option<TodoService.Patch>)
    ensures r.Some? <==>
              && body.Keys <= {"title", "completed"} && body.Keys != {}
              && ("title" in body ==> IsJoiString(body["title"]))
              && ("completed" in body ==> IsJoiBoolean(body["completed"]))
    ensures r.Some? ==> (r.value.title.Some? <==> "title" in body)
    ensures r.Some? ==> (r.value.completed.Some? <==> "completed" in body)
    ensures r.Some? && r.value.title.Some? ==> r.value.title.value == body["title"].s
    ensures r.Some? && r.value.completed.Some? ==> r.value.completed.value == body["completed"].b
  {
    if body.Keys <= {"title", "completed"} && body.Keys != {}
       && ("title" in body ==> IsJoiString(body["title"]))
       && ("completed" in body ==> IsJoiBoolean(body["completed"]))
    then
      Some(TodoService.Patch(
        if "title" in body then Some(body["title"].s) else None,
        if "completed" in body then Some(body["completed"].b) else None))
    else None
  }

  /** `updateTodo`: an `id` route parameter and a valid update body. */
  function ValidateUpdateTodo(req: Request): (r: Option<(string, TodoService.Patch)>)
    ensures r.Some? <==> ValidateIdParams(req.params).Some? && ValidateUpdateBody(req.body).Some?
    ensures r.Some? ==> r.value.0 == req.params["id"].s
  {
    match (ValidateIdParams(req.params), ValidateUpdateBody(req.body))
    case (Some(id), Some(p)) => Some((id, p))
    case _ => None
  }

  /** A body that passes the update rule always changes at least one field. */
  lemma ValidUpdateBodyIsNonEmptyPatch(body: Object)
    requires ValidateUpdateBody(body).Some?
    ensures ValidateUpdateBody(body).value.title.Some? || ValidateUpdateBody(body).value.completed.Some?
  {
    assert exists k :: k in body.Keys;
  }

  /** An empty update body is rejected. */
  lemma EmptyUpdateBodyRejected(params: Object, query: Object)
    ensures ValidateUpdateTodo(Request(params, query, map[])) == None
  {
  }

  /** `{ completed }` alone passes, and applying it leaves the title as it was. */
  lemma CompletedOnlyKeepsTitle(t: TodoService.Todo, b: bool)
    ensures ValidateUpdateBody(map["completed" := JBool(b)]) == Some(TodoService.Patch(None, Some(b)))
    ensures TodoService.ApplyPatch(t, TodoService.Patch(None, Some(b))) == t.(completed := b)
  {
    assert map["completed" := JBool(b)].Keys == {"completed"};
  }
}
