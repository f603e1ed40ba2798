/** How the frontend's form rule meets the backend's create rule: the title
    the form hands on is posted as the body `{ title }`. */
module ClientServer {
  import opened Wrappers
  import opened Json
  import opened JsString
  import FormValidation
  import RequestValidation

  /** The create request the client sends for a validated title. */
  function CreateRequest(title: string): RequestValidation.Request {
    RequestValidation.Request(map[], map[], map["title" := JString(title)])
  }

  /** As written: a title of blanks passes the form, is posted as the empty
      string, and the server rejects the request. */
  lemma BlankFormTitleRejectedByServer()
    ensures FormValidation.TodoFormSchema(JObject(map["title" := JString("   ")])) == Success("")
    ensures RequestValidation.ValidateCreateTodo(CreateRequest("")) == None
  {
    FormValidation.BlankTitlePassesForm();
  }

  /** With trimming first, every title the form accepts is accepted by the
      server unchanged. */
  lemma TrimFirstFormTitleAcceptedByServer(input: Json)
    requires FormValidation.TodoFormSchemaTrimFirst(input).Success?
    ensures RequestValidation.ValidateCreateTodo(CreateRequest(FormValidation.TodoFormSchemaTrimFirst(input).value))
            == Some(FormValidation.TodoFormSchemaTrimFirst(input).value)
  {
    var title := FormValidation.TodoFormSchemaTrimFirst(input).value;
    assert CreateRequest(title).body.Keys == {"title"};
  }
}
