/** The Predefined Questions screen (src/components/QuestionTable.tsx): the
    question list, the two text inputs, the id of the question being edited,
    and the handlers that call the `/questions` endpoints.
 */
module QuestionTable {
  import opened Api
  import Js
  import Lists

  /** The body of a create or update request. */
  datatype Body = Body(question: string, answer: string)

  /** The calls this screen makes. */
  datatype Request =
    | ListQuestions
    | CreateQuestion(body: Body)
    | UpdateQuestion(id: string, body: Body)
    | DeleteQuestion(id: string)
  {
    function Path(): string {
      match this
      case ListQuestions => "/questions"
      case CreateQuestion(_) => "/questions"
      case UpdateQuestion(id, _) => "/questions/" + id
      case DeleteQuestion(id) => "/questions/" + id
    }
  }

  const LoadFailed := "Failed to load questions"
  const Incomplete := "Both fields are required"
  const Updated := "Question updated"
  const UpdateFailed := "Failed to update question"
  const Added := "Question added"
  const AddFailed := "Failed to add question"
  const Removed := "Question removed"
  const RemoveFailed := "Failed to remove question"

  /** `if (editingId)`: null and the empty string are both falsy, so only a
      non-empty id selects the update path. */
  predicate IsEditing(editingId: Option<string>) {
    editingId.Some? && !Js.IsFalsy(editingId.value)
  }

  /** The key `_id` by which the list is rewritten. */
  function QuestionKey(item: Question): string {
    item.id
  }

  class QuestionsTable {
    var questions: seq<Question>
    var q: string
    var a: string
    var editingId: Option<string>

    /** The state right after mount, before the initial fetch resolves. */
    constructor ()
      ensures questions == [] && q == "" && a == "" && editingId == None
    {
      questions := [];
      q := "";
      a := "";
      editingId := None;
    }

    /** `fetchQuestions`, run on mount: GET /questions replaces the list. */
    method FetchQuestions(outcome: Outcome<seq<Question>>) returns (req: Request, toast: Option<Toast>)
      modifies this
      ensures req == ListQuestions
      ensures questions == (if outcome.Ok? then outcome.data else old(questions))
      ensures toast == (if outcome.Ok? then None else Some(Error(LoadFailed)))
      ensures q == old(q) && a == old(a) && editingId == old(editingId)
    {
      req := ListQuestions;
      if outcome.Ok? {
        questions := outcome.data;
        toast := None;
      } else {
        toast := Some(Error(LoadFailed));
      }
    }

    /** The question input's change handler. */
    method HandleQuestionChange(text: string)
      modifies this
      ensures q == text
      ensures questions == old(questions) && a == old(a) && editingId == old(editingId)
    {
      q := text;
    }

    /** The answer input's change handler. */
    method HandleAnswerChange(text: string)
      modifies this
      ensures a == text
      ensures questions == old(questions) && q == old(q) && editingId == old(editingId)
    {
      a := text;
    }

    /** `handleAddOrUpdate`: blocked when either field trims to nothing;
        otherwise exactly one call, an update of the question being edited
        when there is one and a create when there is not. The server's
        messages are not shown: every failure has a fixed text. */
    method HandleAddOrUpdate(outcome: Outcome<Question>) returns (req: Option<Request>, toast: Toast)
      modifies this
      ensures req.None? <==> Js.IsBlank(old(q)) || Js.IsBlank(old(a))
      ensures req.None? ==> toast == Error(Incomplete) && unchanged(this)
      ensures req.Some? ==>
        req.value == if IsEditing(old(editingId)) then UpdateQuestion(old(editingId).value, Body(old(q), old(a)))
                     else CreateQuestion(Body(old(q), old(a)))
      ensures req.Some? ==>
        req.value.Path() == if IsEditing(old(editingId)) then "/questions/" + old(editingId).value else "/questions"
      ensures req.Some? && IsEditing(old(editingId)) && outcome.Ok? ==>
        && questions == Lists.ReplaceWhere(old(questions), QuestionKey, old(editingId).value, outcome.data)
        && editingId == None && q == "" && a == ""
        && toast == Success(Updated)
      ensures req.Some? && !IsEditing(old(editingId)) && outcome.Ok? ==>
        && questions == old(questions) + [outcome.data]
        && editingId == old(editingId) && q == "" && a == ""
        && toast == Success(Added)
      ensures req.Some? && outcome.Err? ==>
        unchanged(this) && toast == Error(if IsEditing(old(editingId)) then UpdateFailed else AddFailed)
    {
      if Js.IsBlank(q) || Js.IsBlank(a) {
        req := None;
        toast := Error(Incomplete);
        return;
      }
      if IsEditing(editingId) {
        req, toast := SubmitUpdate(editingId.value, outcome);
      } else {
        req, toast := SubmitCreate(outcome);
      }
    }

    /** The update branch: PUT /questions/{id}, then replace that entry,
        leave edit mode and clear both inputs. */
    method SubmitUpdate(id: string, outcome: Outcome<Question>) returns (req: Option<Request>, toast: Toast)
      modifies this
      ensures req == Some(UpdateQuestion(id, Body(old(q), old(a))))
      ensures req.value.Path() == "/questions/" + id
      ensures outcome.Ok? ==>
        && questions == Lists.ReplaceWhere(old(questions), QuestionKey, id, outcome.data)
        && editingId == None && q == "" && a == ""
        && toast == Success(Updated)
      ensures outcome.Err? ==> unchanged(this) && toast == Error(UpdateFailed)
    {
      req := Some(UpdateQuestion(id, Body(q, a)));
      if outcome.Ok? {
        questions := Lists.ReplaceWhere(questions, QuestionKey, id, outcome.data);
        editingId := None;
        q := "";
        a := "";
        toast := Success(Updated);
      } else {
        toast := Error(UpdateFailed);
      }
    }

    /** The create branch: POST /questions, then append the created entry
        and clear both inputs. */
    method SubmitCreate(outcome: Outcome<Question>) returns (req: Option<Request>, toast: Toast)
      modifies this
      ensures req == Some(CreateQuestion(Body(old(q), old(a))))
      ensures req.value.Path() == "/questions"
      ensures outcome.Ok? ==>
        && questions == old(questions) + [outcome.data]
        && editingId == old(editingId) && q == "" && a == ""
        && toast == Success(Added)
      ensures outcome.Err? ==> unchanged(this) && toast == Error(AddFailed)
    {
      req := Some(CreateQuestion(Body(q, a)));
      if outcome.Ok? {
        questions := questions + [outcome.data];
        q := "";
        a := "";
        toast := Success(Added);
      } else {
        toast := Error(AddFailed);
      }
    }

    /** `handleEdit`: load the item into the inputs and remember its id. */
    method HandleEdit(item: Question)
      modifies this
      ensures q == item.question && a == item.answer && editingId == Some(item.id)
      ensures questions == old(questions)
    {
      q := item.question;
      a := item.answer;
      editingId := Some(item.id);
    }

    /** `handleRemove`: DELETE /questions/{id}; on success drop every entry
        with that id. */
    method HandleRemove(id: string, outcome: Outcome<()>) returns (req: Request, toast: Toast)
      modifies this
      ensures req == DeleteQuestion(id)
      ensures questions == (if outcome.Ok? then Lists.FilterOut(old(questions), QuestionKey, id) else old(questions))
      ensures toast == (if outcome.Ok? then Success(Removed) else Error(RemoveFailed))
      ensures q == old(q) && a == old(a) && editingId == old(editingId)
    {
      req := DeleteQuestion(id);
      if outcome.Ok? {
        questions := Lists.FilterOut(questions, QuestionKey, id);
        toast := Success(Removed);
      } else {
        toast := Error(RemoveFailed);
      }
    }

    /** `handleCancelEdit`: leave edit mode with both inputs blank. */
    method HandleCancelEdit()
      modifies this
      ensures editingId == None && q == "" && a == ""
      ensures questions == old(questions)
    {
      editingId := None;
      q := "";
      a := "";
    }
  }

  /** Editing an item and submitting it sends one update of that item, with
      the item's own texts, when its id is non-empty and neither text is
      blank. */
  method EditThenSubmit(t: QuestionsTable, item: Question, outcome: Outcome<Question>) returns (req: Option<Request>)
    modifies t
    ensures Js.IsBlank(item.question) || Js.IsBlank(item.answer) ==> req.None?
    ensures !Js.IsBlank(item.question) && !Js.IsBlank(item.answer) && item.id != "" ==>
      req == Some(UpdateQuestion(item.id, Body(item.question, item.answer)))
    ensures !Js.IsBlank(item.question) && !Js.IsBlank(item.answer) && item.id == "" ==>
      req == Some(CreateQuestion(Body(item.question, item.answer)))
  {
    t.HandleEdit(item);
    var toast;
    req, toast := t.HandleAddOrUpdate(outcome);
  }
}
