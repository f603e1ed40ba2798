/** The frontend's input schemas: the new-todo form, the create payload and the
    update payload. Each validates an input value and returns the normalised
    data or the list of issues found.

    The title rule is "a string, at least 1 and at most 200 characters, then
    trimmed", checked in that order: the length bounds apply to the string as
    typed, and trimming happens after them. Lengths are counted in UTF-16 code
    units, as JavaScript's `length` does. */
module FormValidation {
  import opened Wrappers
  import opened Json
  import opened JsString

  const MaxTitleLength: nat := 200

  /** The issues a schema reports. */
  datatype Issue =
    | InvalidType(path: string)   // not of the declared type, or missing when required
    | TitleRequired               // 'Title is required'
    | TitleTooLong                // 'Title must be less than 200 characters'
    | NoFieldProvided             // 'At least one field must be provided'

  /** The output of the update schema: only the fields that were given. */
  datatype UpdateData = UpdateData(title: Option<string>, completed: Option<bool>)

  /** The value of key `k`, or nothing when the key is absent. */
  function Field(fields: Object, k: string): Option<Json> {
    if k in fields then Some(fields[k]) else None
  }

  /** The length checks on the untrimmed string, in declaration order. */
  function TitleIssues(s: string): seq<Issue> {
    (if Utf16Length(s) < 1 then [TitleRequired] else [])
    + (if Utf16Length(s) > MaxTitleLength then [TitleTooLong] else [])
  }

  /** The title field as written: `string().min(1).max(200).trim()`. */
  function TitleSchema(v: Option<Json>): (r: Result<string, seq<Issue>>)
    ensures r.Success? <==> v.Some? && v.value.JString? && v.value.s != [] && Utf16Length(v.value.s) <= MaxTitleLength
    ensures r.Success? ==> r.value == Trim(v.value.s)
    ensures v.Some? && v.value == JString("") ==> r == Failure([TitleRequired])
    ensures v.Some? && v.value.JString? && Utf16Length(v.value.s) > MaxTitleLength ==> r == Failure([TitleTooLong])
    ensures v.None? || !v.value.JString? ==> r == Failure([InvalidType("title")])
  {
    if v.None? || !v.value.JString? then Failure([InvalidType("title")])
    else
      var issues := TitleIssues(v.value.s);
      assert [] + [TitleTooLong] == [TitleTooLong] && [TitleRequired] + [] == [TitleRequired];
      if issues == [] then Success(Trim(v.value.s)) else Failure(issues)
  }

  /** `object({ title })`: an object whose title passes the title rule; other
      keys are dropped. */
  function TitleObjectSchema(input: Json): (r: Result<string, seq<Issue>>)
    ensures !input.JObject? ==> r == Failure([InvalidType("")])
    ensures input.JObject? ==> r == TitleSchema(Field(input.fields, "title"))
  {
    if !input.JObject? then Failure([InvalidType("")])
    else TitleSchema(Field(input.fields, "title"))
  }

  /** `todoFormSchema`, the new-todo form: an object whose title passes the
      title rule, yielding the trimmed title. */
  function TodoFormSchema(input: Json): (r: Result<string, seq<Issue>>)
    ensures r.Success? <==> input.JObject? && "title" in input.fields
                            && TitleSchema(Some(input.fields["title"])).Success?
    ensures r.Success? ==> r.value == Trim(input.fields["title"].s)
    ensures !input.JObject? ==> r == Failure([InvalidType("")])
  {
    TitleObjectSchema(input)
  }

  /** `createTodoSchema`, the create payload; declared with the same rule. */
  function CreateTodoSchema(input: Json): (r: Result<string, seq<Issue>>)
    ensures r.Success? <==> input.JObject? && "title" in input.fields
                            && TitleSchema(Some(input.fields["title"])).Success?
    ensures r.Success? ==> r.value == Trim(input.fields["title"].s)
    ensures !input.JObject? ==> r == Failure([InvalidType("")])
  {
    TitleObjectSchema(input)
  }

  /** The issues of the `completed` field: absent or a boolean is fine. */
  function CompletedIssues(v: Option<Json>): seq<Issue> {
    if v.None? || v.value.JBool? then [] else [InvalidType("completed")]
  }

  /** `updateTodoSchema`: an optional title under the title rule, an optional
      boolean `completed`, and the refinement that at least one is given. The
      refinement is reached only when both fields parsed without issue. */
  function UpdateTodoSchema(input: Json): (r: Result<UpdateData, seq<Issue>>)
    ensures r.Success? <==>
              && input.JObject?
              && ("title" in input.fields || "completed" in input.fields)
              && ("title" in input.fields ==> TitleSchema(Some(input.fields["title"])).Success?)
              && ("completed" in input.fields ==> input.fields["completed"].JBool?)
    ensures r.Success? ==> (r.value.title.Some? <==> "title" in input.fields)
    ensures r.Success? ==> (r.value.completed.Some? <==> "completed" in input.fields)
    ensures r.Success? && r.value.title.Some? ==> r.value.title.value == Trim(input.fields["title"].s)
    ensures r.Success? && r.value.completed.Some? ==> r.value.completed.value == input.fields["completed"].b
    ensures input.JObject? && "title" !in input.fields && "completed" !in input.fields ==>
              r == Failure([NoFieldProvided])
  {
    if !input.JObject? then Failure([InvalidType("")])
    else
      var title := Field(input.fields, "title");
      var completed := Field(input.fields, "completed");
      var titleResult := if title.None? then Success("") else TitleSchema(title);
      var issues := (if titleResult.Failure? then titleResult.error else []) + CompletedIssues(completed);
      if issues != [] then Failure(issues)
      else if title.None? && completed.None? then Failure([NoFieldProvided])
      else Success(UpdateData(
        if title.Some? then Some(titleResult.value) else None,
        if completed.Some? then Some(completed.value.b) else None))
  }

  // ---------------------------------------------------------------------------
  // Properties of the schemas

  /** The form schema and the create schema accept the same inputs with the
      same output and reject the rest with the same issues. The two schemas
      are declared with identical text, and both are defined here as
      `TitleObjectSchema`, so this holds by construction; it records that
      reading of the declarations rather than proving anything further. */
  lemma FormAndCreateSchemasAgree(input: Json)
    ensures TodoFormSchema(input) == CreateTodoSchema(input)
  {
  }

  /** Dropping a prefix never makes a string longer. */
  lemma {:induction false} Utf16LengthDrop(s: string, i: nat)
    requires i <= |s|
    ensures Utf16Length(s[i..]) <= Utf16Length(s)
  {
    if i > 0 {
      assert s[i..] == s[1..][i - 1..];
      Utf16LengthDrop(s[1..], i - 1);
    }
  }

  /** Keeping a prefix never makes a string longer. */
  lemma {:induction false} Utf16LengthTake(s: string, j: nat)
    requires j <= |s|
    ensures Utf16Length(s[..j]) <= Utf16Length(s)
  {
    if j > 0 {
      var p := s[..j];
      assert p[0] == s[0] && p[1..] == s[1..][..j - 1];
      Utf16LengthTake(s[1..], j - 1);
    }
  }

  /** A slice is never longer than the string it comes from. */
  lemma Utf16LengthSlice(s: string, i: nat, j: nat)
    requires i <= j <= |s|
    ensures Utf16Length(s[i..j]) <= Utf16Length(s)
  {
    assert s[i..j] == s[..j][i..];
    Utf16LengthDrop(s[..j], i);
    Utf16LengthTake(s, j);
  }

  /** What the title rule hands on: at most 200 UTF-16 units and no leading
      or trailing whitespace. */
  lemma AcceptedTitleIsTrimmedAndBounded(v: Option<Json>)
    requires TitleSchema(v).Success?
    ensures Utf16Length(TitleSchema(v).value) <= MaxTitleLength
    ensures Trim(TitleSchema(v).value) == TitleSchema(v).value
  {
    var s := v.value.s;
    var i, j := TrimIsSlice(s);
    Utf16LengthSlice(s, i, j);
    TrimIdempotent(s);
  }

  /** The title bound is inclusive: a title of exactly 200 units is accepted
      and one of 201 is rejected, despite the "less than" message. */
  lemma TitleBoundIsInclusive(s: string)
    ensures Utf16Length(s) == MaxTitleLength ==> TitleSchema(Some(JString(s))) == Success(Trim(s))
    ensures Utf16Length(s) == MaxTitleLength + 1 ==> TitleSchema(Some(JString(s))) == Failure([TitleTooLong])
  {
  }

  /** An update with only `completed` is accepted and carries no title. */
  lemma CompletedOnlyUpdateAccepted(b: bool)
    ensures UpdateTodoSchema(JObject(map["completed" := JBool(b)])) == Success(UpdateData(None, Some(b)))
  {
    var f := map["completed" := JBool(b)];
    assert "title" !in f;
  }

  // ---------------------------------------------------------------------------
  // The title rule with trimming first

  /** The title rule with the bounds applied after trimming, which is what the
      "Title is required" message promises. */
  function TitleSchemaTrimFirst(v: Option<Json>): (r: Result<string, seq<Issue>>)
    ensures r.Success? <==> v.Some? && v.value.JString? && !AllWhitespace(v.value.s)
                            && Utf16Length(Trim(v.value.s)) <= MaxTitleLength
    ensures r.Success? ==> r.value == Trim(v.value.s) && r.value != []
  {
    if v.None? || !v.value.JString? then Failure([InvalidType("title")])
    else
      var t := Trim(v.value.s);
      TrimEmptyIffAllWhitespace(v.value.s);
      var issues := TitleIssues(t);
      if issues == [] then Success(t) else Failure(issues)
  }

  /** The form as it would read with trimming first. */
  function TodoFormSchemaTrimFirst(input: Json): (r: Result<string, seq<Issue>>)
    ensures r.Success? <==> input.JObject? && "title" in input.fields
                            && TitleSchemaTrimFirst(Some(input.fields["title"])).Success?
    ensures r.Success? ==> r.value == Trim(input.fields["title"].s) && r.value != []
    ensures !input.JObject? ==> r == Failure([InvalidType("")])
  {
    if !input.JObject? then Failure([InvalidType("")])
    else TitleSchemaTrimFirst(Field(input.fields, "title"))
  }

  /** As written, a title of blanks passes the form and comes out empty. */
  lemma BlankTitlePassesForm()
    ensures TodoFormSchema(JObject(map["title" := JString("   ")])) == Success("")
  {
    var s := "   ";
    assert AllWhitespace(s);
    TrimEmptyIffAllWhitespace(s);
  }

  /** With trimming first, the same blank title is rejected. */
  lemma BlankTitleRejectedWhenTrimmedFirst()
    ensures TodoFormSchemaTrimFirst(JObject(map["title" := JString("   ")])).Failure?
  {
    var fields := map["title" := JString("   ")];
    assert Field(fields, "title") == Some(JString("   "));
    assert AllWhitespace("   ");
  }
}
