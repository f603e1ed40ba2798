/** The inline title editor of one todo row: two state cells, `isEditing` and
    `editValue`, driven by the edit button, typing, save, cancel and the Enter
    and Escape keys. The todo itself arrives from the parent and may be
    replaced between renders while the two cells keep their values. */
module TodoItemEditor {
  import opened Wrappers
  import opened ClientTypes
  import opened JsString

  /** The call `onUpdate(id, title)` that a save issues. */
  datatype TitleUpdate = TitleUpdate(id: string, title: string)

  /** The save rule: an update is issued when the trimmed value is not empty
      and the value as typed differs from the todo's title; it carries the
      trimmed value. */
  function SaveOutcome(todo: Todo, editValue: string): (r: Option<TitleUpdate>)
    ensures r.Some? <==> !AllWhitespace(editValue) && editValue != todo.title
    ensures r.Some? ==> r.value.id == todo.id && r.value.title == Trim(editValue)
  {
    TrimEmptyIffAllWhitespace(editValue);
    if Trim(editValue) != [] && editValue != todo.title then Some(TitleUpdate(todo.id, Trim(editValue)))
    else None
  }

  /** The save button is enabled unless an update is pending or the trimmed
      value is empty. */
  function SaveEnabled(editValue: string, isUpdating: bool): (enabled: bool)
    ensures enabled <==> !isUpdating && !AllWhitespace(editValue)
  {
    TrimEmptyIffAllWhitespace(editValue);
    !(isUpdating || Trim(editValue) == [])
  }

  /** The title a save sends is non-empty and has no surrounding whitespace. */
  lemma SentTitleIsTrimmed(todo: Todo, editValue: string)
    requires SaveOutcome(todo, editValue).Some?
    ensures var title := SaveOutcome(todo, editValue).value.title;
            title != [] && Trim(title) == title
  {
    TrimEmptyIffAllWhitespace(editValue);
    TrimIdempotent(editValue);
  }

  /** Saving the title unchanged issues nothing. */
  lemma UnchangedValueSendsNothing(todo: Todo)
    ensures SaveOutcome(todo, todo.title) == None
  {
  }

  /** The comparison is made before trimming: a value that differs from the
      title only by surrounding whitespace still issues an update, and that
      update carries the very title the todo already has. */
  lemma WhitespaceOnlyEditSendsSameTitle(todo: Todo, editValue: string)
    requires editValue != todo.title && Trim(editValue) == todo.title && todo.title != []
    ensures SaveOutcome(todo, editValue) == Some(TitleUpdate(todo.id, todo.title))
  {
    TrimEmptyIffAllWhitespace(editValue);
  }

  /** With the save button enabled, clicking it issues an update exactly when
      the value as typed differs from the title. */
  lemma EnabledSaveSendsIffChanged(todo: Todo, editValue: string)
    requires SaveEnabled(editValue, false)
    ensures SaveOutcome(todo, editValue).Some? <==> editValue != todo.title
  {
  }

  class TodoItem {
    /** The todo passed in by the parent list. */
    var todo: Todo
    var isEditing: bool
    var editValue: string

    /** A fresh row: not editing, the edit value initialised to the title. */
    constructor (todo: Todo)
      ensures this.todo == todo && !isEditing && editValue == todo.title
    {
      this.todo := todo;
      isEditing := false;
      editValue := todo.title;
    }

    /** The parent re-renders the row with a (possibly changed) todo; the two
        state cells keep their values. */
    method ReceiveTodo(todo: Todo)
      modifies this`todo
      ensures this.todo == todo
    {
      this.todo := todo;
    }

    /** The edit button. */
    method StartEdit()
      modifies this`isEditing
      ensures isEditing
    {
      isEditing := true;
    }

    /** Typing in the input replaces the edit value. */
    method ChangeValue(value: string)
      modifies this`editValue
      ensures editValue == value
    {
      editValue := value;
    }

    /** `handleSaveEdit`: issues the update the save rule calls for and leaves
        edit mode either way; the edit value is kept as typed. */
    method SaveEdit() returns (sent: Option<TitleUpdate>)
      modifies this`isEditing
      ensures sent.Some? <==> !AllWhitespace(editValue) && editValue != todo.title
      ensures sent.Some? ==> sent.value == TitleUpdate(todo.id, Trim(editValue))
      ensures !isEditing
    {
      sent := SaveOutcome(todo, editValue);
      isEditing := false;
    }

    /** `handleCancelEdit`: restores the title and leaves edit mode. */
    method CancelEdit()
      modifies this`editValue, this`isEditing
      ensures editValue == todo.title && !isEditing
    {
      editValue := todo.title;
      isEditing := false;
    }

    /** `handleKeyPress`: Enter saves, Escape cancels, any other key does
        nothing. */
    method KeyDown(key: string) returns (sent: Option<TitleUpdate>)
      modifies this`editValue, this`isEditing
      ensures key == "Enter" ==> sent == SaveOutcome(todo, old(editValue))
                                 && editValue == old(editValue) && !isEditing
      ensures key == "Escape" ==> sent == None && editValue == todo.title && !isEditing
      ensures key != "Enter" && key != "Escape" ==>
                sent == None && editValue == old(editValue) && isEditing == old(isEditing)
    {
      sent := None;
      if key == "Enter" {
        sent := SaveEdit();
      } else if key == "Escape" {
        CancelEdit();
      }
    }

    /** Whether the save button is enabled in the current state. */
    function SaveButtonEnabled(isUpdating: bool): (enabled: bool)
      reads this
      ensures enabled <==> !isUpdating && !AllWhitespace(editValue)
    {
      SaveEnabled(editValue, isUpdating)
    }
  }

  /** A blank edit saved is not sent, and the blank value is still in the
      input when editing starts again. */
  method BlankEditIsKeptAfterSave(todo: Todo) returns (sent: Option<TitleUpdate>, shown: string)
    ensures sent == None && shown == "  "
  {
    var row := new TodoItem(todo);
    row.StartEdit();
    row.ChangeValue("  ");
    assert AllWhitespace("  ");
    sent := row.SaveEdit();
    row.StartEdit();
    shown := row.editValue;
  }
}
