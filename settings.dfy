/**
 * The settings screen (src/pages/Settings.tsx): the question list, the
 * editor's open/close state, saving and deleting through the storage layer,
 * and the custom-category list kept in the browser's local storage.
 *
 * The store's answers are parameters: the upload and upsert verdicts of
 * `Storage`, the rows a reload fetches, the outcome of a delete, and the
 * user's answer to the confirmation dialog.
 */
module SettingsPage {
  import opened Wrappers
  import opened Types
  import opened Storage
  import opened QuestionForm
  import Navigation

  /** `createDefaultQuestion`'s record. */
  function DefaultQuestion(template: Template, freshId: string): (q: Question)
    ensures q.id == freshId && q.category == "M" && q.image.None? && q.rightWrongImages.None?
    ensures template == Ror ==> q.text == "Right or Wrong?" && q.answerType == RightWrong && q.imageAnswers.None?
    ensures template == DefaultTemplate ==> q.text == "New Question" && q.answerType == YesNo && q.imageAnswers == Some(AnswerList([]))
  {
    Question(
      freshId,
      if template == Ror then "Right or Wrong?" else "New Question",
      None,
      if template == Ror then RightWrong else YesNo,
      if template == Ror then None else Some(AnswerList([])),
      None,
      "M")
  }

  /**
   * Opening the editor on the right/wrong template and saving at once is
   * refused until both prompt pictures are added (its answer icons are
   * already there).
   */
  lemma RorTemplateNeedsPictures(id: string, freshId: string, submitId: string)
    ensures Submit(InitialFields(Some(DefaultQuestion(Ror, id)), freshId), Some(id), submitId) == Rejected(AddAllRightWrongImages)
  {
    var f := InitialFields(Some(DefaultQuestion(Ror, id)), freshId);
    assert f.text == "Right or Wrong?" && f.answerType == RightWrong;
    assert f.rightWrongImages.image1 == "";
    JsString.TrimNoop("Right or Wrong?");
  }

  /** The default template saved at once becomes a yes/no question without an answer list. */
  lemma DefaultTemplateSubmits(id: string, freshId: string, submitId: string)
    ensures Submit(InitialFields(Some(DefaultQuestion(DefaultTemplate, id)), freshId), Some(id), submitId) ==
              Submitted(Question(if id != "" then id else submitId, "New Question", None, YesNo, None, None, "M"))
  {
    var f := InitialFields(Some(DefaultQuestion(DefaultTemplate, id)), freshId);
    assert f.text == "New Question" && f.image == "" && f.answerType == YesNo && f.category == "M";
    NewQuestionFieldsSubmit(f, id, submitId);
  }

  lemma NewQuestionFieldsSubmit(f: Fields, id: string, submitId: string)
    requires f.text == "New Question" && f.image == "" && f.answerType == YesNo && f.category == "M"
    ensures Submit(f, Some(id), submitId) ==
              Submitted(Question(if id != "" then id else submitId, "New Question", None, YesNo, None, None, "M"))
  {
    JsString.TrimNoop(f.text);
    var r := Submit(f, Some(id), submitId);
    assert r.Submitted?;
    assert r.question.text == JsString.Trim(f.text);
  }

  /** `handleAddCustomCategory`'s list: the name is appended only when absent. */
  function WithCustomCategory(categories: seq<string>, c: string): (r: seq<string>)
    ensures c in r && forall x :: x in r <==> x in categories || x == c
    ensures c in categories ==> r == categories
    ensures c !in categories ==> r == categories + [c]
  {
    if c in categories then categories else categories + [c]
  }

  /** Adding keeps the list free of repeats, and adding a name twice is adding it once. */
  lemma CustomCategoryAddition(categories: seq<string>, c: string)
    ensures Navigation.NoDuplicates(categories) ==> Navigation.NoDuplicates(WithCustomCategory(categories, c))
    ensures WithCustomCategory(WithCustomCategory(categories, c), c) == WithCustomCategory(categories, c)
  {
    var r := WithCustomCategory(categories, c);
    if Navigation.NoDuplicates(categories) && c !in categories {
      forall i, j | 0 <= i < j < |r| ensures r[i] != r[j] {
        if j == |categories| { assert r[i] == categories[i]; assert r[i] in categories; }
      }
    }
  }

  /** The answer-type label in the list: yes/no for `yesno`, images for every other type. */
  function AnswerTypeLabel(t: AnswerType): (key: string)
    ensures key == "settings.yesNo" <==> t == YesNo
    ensures key == "settings.images" <==> t != YesNo
  {
    if t == YesNo then "settings.yesNo" else "settings.images"
  }

  /** A right/wrong question is listed under the images label. */
  lemma RightWrongListedAsImages()
    ensures AnswerTypeLabel(RightWrong) == AnswerTypeLabel(Images) == "settings.images"
  {
  }

  datatype View = Spinner | Editor | QuestionList

  /** The editor's heading: the ROR title, the add-question title, or the edit-question title. */
  datatype Title = RorTitle | AddTitle | EditTitle

  /**
   * The heading as written: `isTemplate` holds for both templates, the only
   * values `selectedTemplate` can take, so the edit title is never chosen.
   */
  function EditorTitleAsWritten(template: Template): (t: Title)
    ensures template == Ror ==> t == RorTitle
    ensures template == DefaultTemplate ==> t == AddTitle
  {
    var isTemplate := template == Ror || template == DefaultTemplate;
    if isTemplate && template == Ror then RorTitle
    else if isTemplate && template == DefaultTemplate then AddTitle
    else EditTitle
  }

  lemma EditTitleUnreachable(template: Template)
    ensures EditorTitleAsWritten(template) != EditTitle
  {
  }

  /** The heading as intended: the edit title when an existing question is open, else the template's title. */
  function EditorTitle(template: Template, isAdding: bool): (t: Title)
    ensures t == EditTitle <==> !isAdding
    ensures isAdding ==> t == EditorTitleAsWritten(template)
  {
    if !isAdding then EditTitle
    else if template == Ror then RorTitle
    else AddTitle
  }

  class Settings {
    var questions: seq<Question>
    var editingQuestion: Option<Question>
    var isAdding: bool
    var isLoading: bool
    var isSaving: bool
    var customCategories: seq<string>
    var storedCategories: Option<seq<string>>   // local storage's 'custom-categories', parsed
    var selectedTemplate: Template

    /** Mount: the custom categories come from local storage when saved there; the questions are still loading. */
    constructor (saved: Option<seq<string>>)
      ensures questions == [] && editingQuestion.None? && !isAdding && isLoading && !isSaving
      ensures customCategories == saved.GetOr([]) && storedCategories == saved
      ensures selectedTemplate == DefaultTemplate
    {
      questions := [];
      editingQuestion := None;
      isAdding := false;
      isLoading := true;
      isSaving := false;
      customCategories := saved.GetOr([]);
      storedCategories := saved;
      selectedTemplate := DefaultTemplate;
    }

    /** `loadQuestions`: the fetched list replaces the shown one and loading ends. */
    method LoadQuestions(fetched: Option<seq<Row>>)
      modifies this`questions, this`isLoading
      ensures questions == GetQuestions(fetched) && !isLoading
    {
      questions := GetQuestions(fetched);
      isLoading := false;
    }

    method HandleAddCustomCategory(c: string)
      modifies this`customCategories, this`storedCategories
      ensures customCategories == WithCustomCategory(old(customCategories), c)
      ensures storedCategories == if c in old(customCategories) then old(storedCategories) else Some(customCategories)
    {
      if c !in customCategories {
        customCategories := customCategories + [c];
        storedCategories := Some(customCategories);
      }
    }

    /** `createDefaultQuestion`: open the editor on a template record, which also counts as editing it. */
    method CreateDefaultQuestion(template: Template, freshId: string)
      modifies this`selectedTemplate, this`isAdding, this`editingQuestion
      ensures selectedTemplate == template && isAdding
      ensures editingQuestion == Some(DefaultQuestion(template, freshId))
    {
      selectedTemplate := template;
      isAdding := true;
      editingQuestion := Some(DefaultQuestion(template, freshId));
    }

    /** The pencil button of a listed question. */
    method StartEdit(q: Question)
      modifies this`editingQuestion
      ensures editingQuestion == Some(q)
    {
      editingQuestion := Some(q);
    }

    /** The "add the first question" button of the empty list. */
    method StartAdding()
      modifies this`isAdding
      ensures isAdding
    {
      isAdding := true;
    }

    /**
     * `handleSave`: update when a question is open for editing (a template
     * counts), add otherwise. On success the list is reloaded and the editor
     * closes; on failure the editor state stays. Saving ends either way. The
     * template choice is left as it was.
     */
    method HandleSave(question: Question, upload: Uploader, upsertOk: Row -> bool, fetched: Option<seq<Row>>)
      returns (viaUpdate: bool, outcome: SaveOutcome)
      modifies this`isSaving, this`questions, this`isLoading, this`editingQuestion, this`isAdding
      ensures viaUpdate <==> old(editingQuestion).Some?
      ensures outcome == if viaUpdate then UpdateQuestion(question.id, question, upload, upsertOk)
                         else SaveQuestion(question, upload, upsertOk)
      ensures !isSaving
      ensures outcome.result.Upserted? ==>
                questions == GetQuestions(fetched) && !isLoading && editingQuestion.None? && !isAdding
      ensures !outcome.result.Upserted? ==>
                questions == old(questions) && isLoading == old(isLoading) &&
                editingQuestion == old(editingQuestion) && isAdding == old(isAdding)
    {
      isSaving := true;
      viaUpdate := editingQuestion.Some?;
      if viaUpdate {
        outcome := UpdateQuestion(question.id, question, upload, upsertOk);
      } else {
        outcome := SaveQuestion(question, upload, upsertOk);
      }
      if outcome.result.Upserted? {
        LoadQuestions(fetched);
        editingQuestion := None;
        isAdding := false;
      }
      isSaving := false;
    }

    /** `handleDelete`: the store is asked only after the user confirms; a successful delete reloads the list. */
    method HandleDelete(id: string, confirmed: bool, deleted: bool, fetched: Option<seq<Row>>)
      returns (deleteCalled: bool)
      modifies this`questions, this`isLoading
      ensures deleteCalled == confirmed
      ensures confirmed && deleted ==> questions == GetQuestions(fetched) && !isLoading
      ensures !(confirmed && deleted) ==> questions == old(questions) && isLoading == old(isLoading)
    {
      deleteCalled := confirmed;
      if confirmed && deleted {
        LoadQuestions(fetched);
      }
    }

    /** The editor's "go back" button and the form's cancel button do the same. */
    method CloseEditor()
      modifies this`isAdding, this`editingQuestion, this`selectedTemplate
      ensures !isAdding && editingQuestion.None? && selectedTemplate == DefaultTemplate
    {
      isAdding := false;
      editingQuestion := None;
      selectedTemplate := DefaultTemplate;
    }

    /** Loading wins; the editor is shown exactly when adding or editing. */
    function CurrentView(): (v: View)
      reads this
      ensures v == Spinner <==> isLoading
      ensures v == Editor <==> !isLoading && (isAdding || editingQuestion.Some?)
    {
      if isLoading then Spinner
      else if isAdding || editingQuestion.Some? then Editor
      else QuestionList
    }

    function CurrentTitle(): (t: Title)
      reads this
      ensures t == EditTitle <==> !isAdding
      ensures isAdding ==> (t == RorTitle <==> selectedTemplate == Ror)
    {
      EditorTitle(selectedTemplate, isAdding)
    }
  }

  /**
   * A right/wrong question saved and read back carries its right/wrong object
   * in `imageAnswers`, so the editor opened on it starts, as written, from that
   * object instead of a list of answers; the corrected start is the empty list.
   */
  lemma EditorStartsFromObject(q: Question, upload: Uploader, upsertOk: Row -> bool, freshId: string)
    requires q.answerType == RightWrong && q.rightWrongImages.Some?
    requires SaveQuestion(q, upload, upsertOk).result.Upserted?
    ensures var back := RowToQuestion(SaveQuestion(q, upload, upsertOk).result.row);
            InitialImageAnswersAsWritten(Some(back), freshId).RightWrongObject? &&
            InitialFields(Some(back), freshId).imageAnswers == []
  {
    var o := SaveQuestion(q, upload, upsertOk);
    assert o.result.row.imageAnswers.Some? && o.result.row.imageAnswers.value.RightWrongObject?;
  }

  /** A template opened from the menu is saved through `updateQuestion`, under its template id. */
  method SaveNewTemplate(page: Settings, template: Template, freshId: string, question: Question,
                         upload: Uploader, upsertOk: Row -> bool, fetched: Option<seq<Row>>)
    returns (viaUpdate: bool, outcome: SaveOutcome)
    modifies page
    ensures viaUpdate
    ensures outcome == UpdateQuestion(question.id, question, upload, upsertOk)
  {
    page.CreateDefaultQuestion(template, freshId);
    viaUpdate, outcome := page.HandleSave(question, upload, upsertOk, fetched);
  }
}
