/**
 * The question editor (src/components/QuestionForm.tsx): its initial field
 * values, the answer-list and crop handlers, the custom-category entry, and
 * submit-time validation and construction of the saved question.
 *
 * Fresh ids (`crypto.randomUUID`) are parameters; reading a file into a data
 * URL happens before `OpenCropper` is called with its result.
 */
module QuestionForm {
  import opened Wrappers
  import opened Types
  import opened JsString

  const SvgDataPrefix: string := "data:image/svg+xml,"

  /** The default answer icons: inline SVG images. */
  const DefaultRightIcon: string := SvgDataPrefix + "%3Csvg xmlns='http://www.w3.org/2000/svg' width='512' height='512' viewBox='0 0 512 512'%3E%3Cdefs%3E%3ClinearGradient id='g' x1='0' y1='0' x2='1' y2='1'%3E%3Cstop offset='0%25' stop-color='%232ed573'/%3E%3Cstop offset='100%25' stop-color='%2316a34a'/%3E%3C/linearGradient%3E%3Cfilter id='shadow' x='-20%25' y='-20%25' width='140%25' height='140%25'%3E%3CfeDropShadow dx='0' dy='6' stdDeviation='12' flood-color='%23000000' flood-opacity='0.25'/%3E%3C/filter%3E%3C/defs%3E%3Ccircle cx='256' cy='256' r='220' fill='url(%23g)' filter='url(%23shadow)'/%3E%3Cpath d='M164 266 L228 330 L352 196' fill='none' stroke='white' stroke-width='40' stroke-linecap='round' stroke-linejoin='round'/%3E%3C/svg%3E"
  const DefaultWrongIcon: string := SvgDataPrefix + "%3Csvg xmlns='http://www.w3.org/2000/svg' width='512' height='512' viewBox='0 0 512 512'%3E%3Cdefs%3E%3ClinearGradient id='r' x1='0' y1='0' x2='1' y2='1'%3E%3Cstop offset='0%25' stop-color='%23f87171'/%3E%3Cstop offset='100%25' stop-color='%23dc2626'/%3E%3C/linearGradient%3E%3Cfilter id='shadow' x='-20%25' y='-20%25' width='140%25' height='140%25'%3E%3CfeDropShadow dx='0' dy='6' stdDeviation='12' flood-color='%23000000' flood-opacity='0.25'/%3E%3C/filter%3E%3C/defs%3E%3Ccircle cx='256' cy='256' r='220' fill='url(%23r)' filter='url(%23shadow)'/%3E%3Cpath d='M180 180 L332 332 M332 180 L180 332' fill='none' stroke='white' stroke-width='40' stroke-linecap='round' stroke-linejoin='round'/%3E%3C/svg%3E"

  /** JavaScript's `a || b` on strings. */
  function OrElse(a: string, b: string): string
  {
    if a != "" then a else b
  }

  /** `initialRightWrongImages`: missing pictures become '', missing icons the default icons. */
  function InitialRightWrongImages(q: Option<Question>): (rw: RightWrongImages)
    ensures q.None? || q.value.rightWrongImages.None? ==>
              rw == RightWrongImages("", "", DefaultRightIcon, DefaultWrongIcon)
    ensures q.Some? && q.value.rightWrongImages.Some? ==>
              var given := q.value.rightWrongImages.value;
              rw.image1 == given.image1 && rw.image2 == given.image2 &&
              rw.rightIcon == (if given.rightIcon == "" then DefaultRightIcon else given.rightIcon) &&
              rw.wrongIcon == (if given.wrongIcon == "" then DefaultWrongIcon else given.wrongIcon)
  {
    match q
    case Some(Question(_, _, _, _, _, Some(given), _)) =>
      RightWrongImages(OrElse(given.image1, ""), OrElse(given.image2, ""),
                       OrElse(given.rightIcon, DefaultRightIcon), OrElse(given.wrongIcon, DefaultWrongIcon))
    case _ => RightWrongImages("", "", DefaultRightIcon, DefaultWrongIcon)
  }

  /** The form always starts with both answer icons present, whatever question it edits. */
  lemma InitialIconsPresent(q: Option<Question>)
    ensures InitialRightWrongImages(q).rightIcon != "" && InitialRightWrongImages(q).wrongIcon != ""
  {
    assert |DefaultRightIcon| >= |SvgDataPrefix| > 0;
    assert |DefaultWrongIcon| >= |SvgDataPrefix| > 0;
  }

  /** The default icons are inline data, so saving a question that keeps them uploads them. */
  lemma DefaultIconsInline()
    ensures StartsWith(DefaultRightIcon, "data:") && StartsWith(DefaultWrongIcon, "data:")
  {
    assert DefaultRightIcon[..|SvgDataPrefix|] == SvgDataPrefix;
    assert DefaultWrongIcon[..|SvgDataPrefix|] == SvgDataPrefix;
  }

  /**
   * `question?.imageAnswers || [blank]` as written: the stored payload itself,
   * whatever its shape, or one blank entry when there is none.
   */
  function InitialImageAnswersAsWritten(q: Option<Question>, freshId: string): (p: Payload)
    ensures q.Some? && q.value.imageAnswers.Some? ==> p == q.value.imageAnswers.value
    ensures q.None? || q.value.imageAnswers.None? ==> p == AnswerList([ImageAnswer(freshId, "", "")])
  {
    if q.Some? && q.value.imageAnswers.Some? then q.value.imageAnswers.value
    else AnswerList([ImageAnswer(freshId, "", "")])
  }

  /**
   * The list the form is meant to start from: one blank entry only when the
   * question has no list, an existing list (even an empty one) kept, and a
   * stored right/wrong object, which is no list of answers, replaced by none.
   */
  function InitialImageAnswers(q: Option<Question>, freshId: string): (answers: seq<ImageAnswer>)
    ensures q.None? || q.value.imageAnswers.None? ==> answers == [ImageAnswer(freshId, "", "")]
    ensures q.Some? && q.value.imageAnswers.Some? && q.value.imageAnswers.value.AnswerList? ==>
              answers == q.value.imageAnswers.value.answers
    ensures q.Some? && q.value.imageAnswers.Some? && q.value.imageAnswers.value.RightWrongObject? ==> answers == []
  {
    match q
    case None => [ImageAnswer(freshId, "", "")]
    case Some(question) =>
      match question.imageAnswers
      case None => [ImageAnswer(freshId, "", "")]
      case Some(AnswerList(list)) => list
      case Some(RightWrongObject(_)) => []
  }

  /** Wherever the code as written starts from a list, the corrected start is that same list. */
  lemma InitialImageAnswersAgree(q: Option<Question>, freshId: string)
    ensures InitialImageAnswersAsWritten(q, freshId).AnswerList? <==>
              q.None? || q.value.imageAnswers.None? || q.value.imageAnswers.value.AnswerList?
    ensures InitialImageAnswersAsWritten(q, freshId).AnswerList? ==>
              InitialImageAnswers(q, freshId) == InitialImageAnswersAsWritten(q, freshId).answers
  {
  }

  /** The fields the submit handler reads. */
  datatype Fields = Fields(
    text: string,
    image: string,
    answerType: AnswerType,
    category: string,
    imageAnswers: seq<ImageAnswer>,
    rightWrongImages: RightWrongImages)

  /** The fields a freshly opened form holds for `question`. */
  function InitialFields(question: Option<Question>, freshId: string): (f: Fields)
    ensures f.text == (if question.Some? then question.value.text else "")
    ensures f.image == (if question.Some? then question.value.image.GetOr("") else "")
    ensures f.answerType == (if question.Some? then question.value.answerType else YesNo)
    ensures f.category == (if question.Some? && question.value.category != "" then question.value.category else "M")
    ensures f.imageAnswers == InitialImageAnswers(question, freshId)
    ensures f.rightWrongImages == InitialRightWrongImages(question)
  {
    Fields(
      if question.Some? then OrElse(question.value.text, "") else "",
      if question.Some? then OrElse(question.value.image.GetOr(""), "") else "",
      if question.Some? then question.value.answerType else YesNo,
      if question.Some? then OrElse(question.value.category, "M") else "M",
      InitialImageAnswers(question, freshId),
      InitialRightWrongImages(question))
  }

  /** A submit either shows an error (the translation key of its message) or hands a question to `onSave`. */
  datatype SubmitResult = Rejected(messageKey: string) | Submitted(question: Question)

  const EnterQuestion: string := "form.enterQuestion"
  const AddImageAnswers: string := "form.addImageAnswers"
  const AddAllRightWrongImages: string := "form.addAllRightWrongImages"

  predicate RightWrongComplete(rw: RightWrongImages)
  {
    rw.image1 != "" && rw.image2 != "" && rw.rightIcon != "" && rw.wrongIcon != ""
  }

  /** `handleSubmit`. */
  function Submit(f: Fields, editingId: Option<string>, freshId: string): (r: SubmitResult)
    ensures r == Rejected(EnterQuestion) <==> AllSpace(f.text)
    ensures r == Rejected(AddImageAnswers) <==> !AllSpace(f.text) && f.answerType == Images && f.imageAnswers == []
    ensures r == Rejected(AddAllRightWrongImages) <==>
              !AllSpace(f.text) && f.answerType == RightWrong && !RightWrongComplete(f.rightWrongImages)
    ensures r.Submitted? <==>
              !AllSpace(f.text) && !(f.answerType == Images && f.imageAnswers == []) &&
              !(f.answerType == RightWrong && !RightWrongComplete(f.rightWrongImages))
    ensures r.Submitted? ==>
              var q := r.question;
              q.id == (if editingId.Some? && editingId.value != "" then editingId.value else freshId) &&
              q.text == Trim(f.text) && q.text != "" &&
              q.image == (if f.image == "" then None else Some(f.image)) &&
              q.answerType == f.answerType && q.category == f.category &&
              q.imageAnswers == (if f.answerType == Images then Some(AnswerList(f.imageAnswers)) else None) &&
              q.rightWrongImages == (if f.answerType == RightWrong then Some(f.rightWrongImages) else None)
  {
    TrimBlank(f.text);
    if Trim(f.text) == "" then Rejected(EnterQuestion)
    else if f.answerType == Images && |f.imageAnswers| == 0 then Rejected(AddImageAnswers)
    else if f.answerType == RightWrong && !RightWrongComplete(f.rightWrongImages) then Rejected(AddAllRightWrongImages)
    else
      Submitted(Question(
        if editingId.Some? && editingId.value != "" then editingId.value else freshId,
        Trim(f.text),
        if f.image == "" then None else Some(f.image),
        f.answerType,
        if f.answerType == Images then Some(AnswerList(f.imageAnswers)) else None,
        if f.answerType == RightWrong then Some(f.rightWrongImages) else None,
        f.category))
  }

  /** A submitted question carries exactly the payload its type needs, and never an empty text or image. */
  lemma SubmittedShape(f: Fields, editingId: Option<string>, freshId: string)
    requires Submit(f, editingId, freshId).Submitted?
    ensures var q := Submit(f, editingId, freshId).question;
            q.image != Some("") && q.text != "" && !IsSpace(q.text[0]) &&
            (q.answerType == YesNo ==> q.imageAnswers.None? && q.rightWrongImages.None?) &&
            (q.answerType == Images ==> q.imageAnswers.Some? && q.imageAnswers.value.AnswerList? &&
                                        |q.imageAnswers.value.answers| > 0 && q.rightWrongImages.None?) &&
            (q.answerType == RightWrong ==> q.imageAnswers.None? && q.rightWrongImages.Some? &&
                                            RightWrongComplete(q.rightWrongImages.value))
  {
    var t := Trim(f.text);
    assert TrimStart(f.text)[0] == t[0];
  }

  /** Which field of an image answer an edit changes. */
  datatype AnswerField = ImageField | TextField

  function SetField(a: ImageAnswer, field: AnswerField, value: string): ImageAnswer
  {
    match field
    case ImageField => a.(image := value)
    case TextField => a.(text := value)
  }

  /** `imageAnswers.filter(a => a.id !== id)`. */
  function Without(answers: seq<ImageAnswer>, id: string): (r: seq<ImageAnswer>)
    ensures forall a :: a in r <==> a in answers && a.id != id
    ensures |r| <= |answers|
  {
    if answers == [] then []
    else (if answers[0].id != id then [answers[0]] else []) + Without(answers[1..], id)
  }

  /** Removal keeps the order of what remains. */
  lemma {:induction false} WithoutAppend(a: seq<ImageAnswer>, b: seq<ImageAnswer>, id: string)
    ensures Without(a + b, id) == Without(a, id) + Without(b, id)
  {
    if a == [] {
      assert a + b == b;
    } else {
      assert (a + b)[1..] == a[1..] + b;
      WithoutAppend(a[1..], b, id);
    }
  }

  lemma {:induction false} WithoutAbsent(answers: seq<ImageAnswer>, id: string)
    requires forall a :: a in answers ==> a.id != id
    ensures Without(answers, id) == answers
  {
    if answers != [] {
      assert forall a :: a in answers[1..] ==> a in answers;
      WithoutAbsent(answers[1..], id);
    }
  }

  /** Removing the entry just added restores the list, when its fresh id was not in use. */
  lemma AddThenRemove(answers: seq<ImageAnswer>, freshId: string)
    requires forall a :: a in answers ==> a.id != freshId
    ensures Without(answers + [ImageAnswer(freshId, "", "")], freshId) == answers
  {
    WithoutAppend(answers, [ImageAnswer(freshId, "", "")], freshId);
    WithoutAbsent(answers, freshId);
    assert Without([ImageAnswer(freshId, "", "")], freshId) == [];
  }

  /** `updateImageAnswer`: the named field of the entries with that id changes, nothing else. */
  function Updated(answers: seq<ImageAnswer>, id: string, field: AnswerField, value: string): (r: seq<ImageAnswer>)
    ensures |r| == |answers|
    ensures forall i :: 0 <= i < |answers| ==>
              r[i].id == answers[i].id &&
              r[i] == (if answers[i].id == id then SetField(answers[i], field, value) else answers[i])
  {
    seq(|answers|, i requires 0 <= i < |answers| =>
      if answers[i].id == id then SetField(answers[i], field, value) else answers[i])
  }

  /** Editing an entry and then deleting it is the same as deleting it. */
  lemma {:induction false} RemoveAfterUpdate(answers: seq<ImageAnswer>, id: string, field: AnswerField, value: string)
    ensures Without(Updated(answers, id, field, value), id) == Without(answers, id)
  {
    if answers != [] {
      var u := Updated(answers, id, field, value);
      assert u[1..] == Updated(answers[1..], id, field, value);
      RemoveAfterUpdate(answers[1..], id, field, value);
    }
  }

  /** Removing a present id from a list whose ids are distinct removes exactly one entry. */
  lemma {:induction false} WithoutPresent(answers: seq<ImageAnswer>, id: string)
    requires forall i, j :: 0 <= i < j < |answers| ==> answers[i].id != answers[j].id
    requires exists a :: a in answers && a.id == id
    ensures |Without(answers, id)| == |answers| - 1
  {
    if answers[0].id == id {
      assert forall a :: a in answers[1..] ==> a.id != id by {
        forall a | a in answers[1..] ensures a.id != id {
          var k :| 0 <= k < |answers[1..]| && answers[1..][k] == a;
          assert answers[k + 1] == a;
        }
      }
      WithoutAbsent(answers[1..], id);
    } else {
      var a :| a in answers && a.id == id;
      assert a in answers[1..] by {
        var k :| 0 <= k < |answers| && answers[k] == a;
        assert k != 0;
        assert answers[1..][k - 1] == a;
      }
      assert forall i, j :: 0 <= i < j < |answers[1..]| ==> answers[1..][i].id != answers[1..][j].id by {
        forall i, j | 0 <= i < j < |answers[1..]| ensures answers[1..][i].id != answers[1..][j].id {
          assert answers[1..][i] == answers[i + 1] && answers[1..][j] == answers[j + 1];
        }
      }
      WithoutPresent(answers[1..], id);
    }
  }

  /**
   * The `template` prop: the default template offers yes/no and images, the
   * right/wrong template right/wrong and images, and a form without one all
   * three types.
   */
  datatype Template = DefaultTemplate | Ror

  function AnswerTypeChoices(template: Option<Template>): (choices: seq<AnswerType>)
    ensures Images in choices
    ensures YesNo in choices <==> template != Some(Ror)
    ensures RightWrong in choices <==> template != Some(DefaultTemplate)
  {
    match template
    case None => [YesNo, Images, RightWrong]
    case Some(DefaultTemplate) => [YesNo, Images]
    case Some(Ror) => [RightWrong, Images]
  }

  /** The crop targets with a slot of their own; any other target names an image answer. */
  const MainTarget: string := "main"
  const Rw1Target: string := "rw1"
  const Rw2Target: string := "rw2"
  const RwRightTarget: string := "rwRight"
  const RwWrongTarget: string := "rwWrong"

  /**
   * The crop targets the form renders: the question picture except on the
   * right/wrong template, the four right/wrong slots only there, and the
   * image answers on every form.
   */
  predicate CropTargetOffered(template: Option<Template>, target: string, answers: seq<ImageAnswer>)
  {
    || (target == MainTarget && template != Some(Ror))
    || (target in {Rw1Target, Rw2Target, RwRightTarget, RwWrongTarget} && template == Some(Ror))
    || (exists a :: a in answers && a.id == target)
  }

  class Form {
    const editing: Option<Question>
    const template: Option<Template>
    var text: string
    var image: string
    var answerType: AnswerType
    var category: string
    var showCustomInput: bool
    var customCategory: string
    var imageAnswers: seq<ImageAnswer>
    var rightWrongImages: RightWrongImages
    var cropperOpen: bool
    var imageToCrop: string
    var cropTarget: string

    /** The initial field values for `question` (None for a new question). */
    constructor (question: Option<Question>, template: Option<Template>, freshId: string)
      ensures editing == question && this.template == template
      ensures CurrentFields() == InitialFields(question, freshId)
      ensures !showCustomInput && customCategory == "" && !cropperOpen && imageToCrop == "" && cropTarget == MainTarget
    {
      editing := question;
      this.template := template;
      var f := InitialFields(question, freshId);
      text, image, answerType, category := f.text, f.image, f.answerType, f.category;
      imageAnswers, rightWrongImages := f.imageAnswers, f.rightWrongImages;
      showCustomInput := false;
      customCategory := "";
      cropperOpen := false;
      imageToCrop := "";
      cropTarget := MainTarget;
    }

    function CurrentFields(): Fields
      reads this
    {
      Fields(text, image, answerType, category, imageAnswers, rightWrongImages)
    }

    /** What pressing "save" does with the current fields. */
    function SubmitNow(freshId: string): (r: SubmitResult)
      reads this
      ensures r == Rejected(EnterQuestion) <==> AllSpace(text)
      ensures r == Rejected(AddImageAnswers) <==> !AllSpace(text) && answerType == Images && imageAnswers == []
      ensures r == Rejected(AddAllRightWrongImages) <==>
                !AllSpace(text) && answerType == RightWrong && !RightWrongComplete(rightWrongImages)
      ensures r.Submitted? ==>
                var q := r.question;
                q.id == (if editing.Some? && editing.value.id != "" then editing.value.id else freshId) &&
                q.text == Trim(text) && q.category == category && q.answerType == answerType &&
                q.imageAnswers == (if answerType == Images then Some(AnswerList(imageAnswers)) else None) &&
                q.rightWrongImages == (if answerType == RightWrong then Some(rightWrongImages) else None)
      ensures r == Submit(CurrentFields(), if editing.Some? then Some(editing.value.id) else None, freshId)
    {
      Submit(CurrentFields(), if editing.Some? then Some(editing.value.id) else None, freshId)
    }

    method SetText(s: string)
      modifies this`text
      ensures text == s
    {
      text := s;
    }

    /** A click on one of the answer-type tabs the template shows. */
    method SetAnswerType(t: AnswerType)
      requires t in AnswerTypeChoices(template)
      modifies this`answerType
      ensures answerType == t
    {
      answerType := t;
    }

    method SetCategory(c: string)
      modifies this`category
      ensures category == c
    {
      category := c;
    }

    /** The "+" button shows or hides the custom-category input. */
    method ToggleCustomInput()
      modifies this`showCustomInput
      ensures showCustomInput == !old(showCustomInput)
    {
      showCustomInput := !showCustomInput;
    }

    method SetCustomCategory(s: string)
      modifies this`customCategory
      ensures customCategory == s
    {
      customCategory := s;
    }

    /** `addImageAnswer`: one blank entry at the end. */
    method AddImageAnswer(freshId: string)
      modifies this`imageAnswers
      ensures imageAnswers == old(imageAnswers) + [ImageAnswer(freshId, "", "")]
    {
      imageAnswers := imageAnswers + [ImageAnswer(freshId, "", "")];
    }

    /** `removeImageAnswer`, whose button is shown only while more than one entry exists. */
    method RemoveImageAnswer(id: string)
      requires |imageAnswers| > 1
      modifies this`imageAnswers
      ensures imageAnswers == Without(old(imageAnswers), id)
    {
      imageAnswers := Without(imageAnswers, id);
    }

    /** `updateImageAnswer`. */
    method UpdateImageAnswer(id: string, field: AnswerField, value: string)
      modifies this`imageAnswers
      ensures imageAnswers == Updated(old(imageAnswers), id, field, value)
    {
      imageAnswers := Updated(imageAnswers, id, field, value);
    }

    /** A picture was read (or an existing one is to be re-cropped): open the cropper on it for `target`. */
    method OpenCropper(source: string, target: string)
      requires CropTargetOffered(template, target, imageAnswers)
      modifies this`imageToCrop, this`cropTarget, this`cropperOpen
      ensures imageToCrop == source && cropTarget == target && cropperOpen
    {
      imageToCrop := source;
      cropTarget := target;
      cropperOpen := true;
    }

    /** The cropper's cancel button. */
    method CancelCrop()
      modifies this`cropperOpen, this`imageToCrop
      ensures !cropperOpen && imageToCrop == ""
    {
      cropperOpen := false;
      imageToCrop := "";
    }

    /** `handleCropComplete`: the cropped picture goes into the slot `cropTarget` names, and the cropper closes. */
    method HandleCropComplete(url: string)
      modifies this`image, this`rightWrongImages, this`imageAnswers, this`cropperOpen, this`imageToCrop
      ensures !cropperOpen && imageToCrop == ""
      ensures image == (if cropTarget == MainTarget then url else old(image))
      ensures rightWrongImages ==
                if cropTarget == Rw1Target then old(rightWrongImages).(image1 := url)
                else if cropTarget == Rw2Target then old(rightWrongImages).(image2 := url)
                else if cropTarget == RwRightTarget then old(rightWrongImages).(rightIcon := url)
                else if cropTarget == RwWrongTarget then old(rightWrongImages).(wrongIcon := url)
                else old(rightWrongImages)
      ensures imageAnswers ==
                if cropTarget in {MainTarget, Rw1Target, Rw2Target, RwRightTarget, RwWrongTarget} then old(imageAnswers)
                else Updated(old(imageAnswers), cropTarget, ImageField, url)
    {
      if cropTarget == MainTarget {
        image := url;
      } else if cropTarget == Rw1Target {
        rightWrongImages := rightWrongImages.(image1 := url);
      } else if cropTarget == Rw2Target {
        rightWrongImages := rightWrongImages.(image2 := url);
      } else if cropTarget == RwRightTarget {
        rightWrongImages := rightWrongImages.(rightIcon := url);
      } else if cropTarget == RwWrongTarget {
        rightWrongImages := rightWrongImages.(wrongIcon := url);
      } else {
        UpdateImageAnswer(cropTarget, ImageField, url);
      }
      cropperOpen := false;
      imageToCrop := "";
    }

    /**
     * `handleAddCustomCategory`: a blank entry, or a form without the
     * callback, changes nothing; otherwise the trimmed name goes to the
     * callback (`added`), is selected, and the input is cleared and hidden.
     */
    method HandleAddCustomCategory(hasCallback: bool) returns (added: Option<string>)
      modifies this`category, this`customCategory, this`showCustomInput
      ensures added.Some? <==> hasCallback && !AllSpace(old(customCategory))
      ensures added.Some? ==> (added.value == Trim(old(customCategory)) && category == added.value &&
                customCategory == "" && !showCustomInput)
      ensures added.None? ==> (category == old(category) && customCategory == old(customCategory) &&
                showCustomInput == old(showCustomInput))
    {
      TrimBlank(customCategory);
      var name := Trim(customCategory);
      if name != "" && hasCallback {
        added := Some(name);
        category := name;
        customCategory := "";
        showCustomInput := false;
      } else {
        added := None;
      }
    }
  }
}
