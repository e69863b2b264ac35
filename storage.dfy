/**
 * Mapping between questions and database rows, and the image hand-off to the
 * hosting service (src/lib/storage.ts).
 *
 * The database and the hosting service are not modelled: an upload is the
 * function `upload` (hosted URL for inline data and a file name, or None when
 * it fails), an upsert is the verdict `upsertOk` on the row sent, and a fetch
 * is the rows it returned or None for an error.
 */
module Storage {
  import opened Wrappers
  import opened Types
  import opened JsString

  /** A row of the `questions` table; `None` stands for SQL null. */
  datatype Row = Row(
    id: string,
    text: string,
    image: Option<string>,
    answerType: AnswerType,
    category: Option<string>,
    imageAnswers: Option<Payload>)

  type Uploader = (string, string) -> Option<string>

  /** What `saveQuestion` leaves behind. */
  datatype SaveResult =
    | Upserted(row: Row)          // the upsert of `row` succeeded
    | UploadFailed                // an upload threw; nothing was sent to the table
    | UpsertFailed(row: Row)      // the upsert of `row` threw

  /**
   * `saveQuestion` also overwrites the fields of the caller's right/wrong
   * object with hosted URLs; `rightWrongAfter` is that object afterwards.
   */
  datatype SaveOutcome = SaveOutcome(rightWrongAfter: Option<RightWrongImages>, result: SaveResult)

  /** `uploadImage`: hosted references and the empty string are returned as they are. */
  function UploadImage(data: string, fileName: string, upload: Uploader): (r: Option<string>)
    ensures StartsWith(data, "http") ==> r == Some(data)
    ensures data == "" ==> r == Some("")
    ensures !StartsWith(data, "http") && data != "" ==> r == upload(data, fileName)
  {
    if StartsWith(data, "http") then Some(data)
    else if data == "" then Some("")
    else upload(data, fileName)
  }

  /** An image string is inline data exactly when it begins with `data:`. */
  predicate IsInline(s: string)
  {
    StartsWith(s, "data:")
  }

  /**
   * The guard `s && s.startsWith('data:')` around every upload in `saveQuestion`:
   * only inline data reaches the hosting service, every other string is kept unchanged.
   */
  function StoreImage(s: string, fileName: string, upload: Uploader): (r: Option<string>)
    ensures IsInline(s) ==> r == upload(s, fileName)
    ensures !IsInline(s) ==> r == Some(s)
  {
    if IsInline(s) then
      assert s[0] == 'd';
      assert !StartsWith(s, "http");
      UploadImage(s, fileName, upload)
    else Some(s)
  }

  /** The answer list with every inline picture uploaded (`Promise.all` over the list); None when one upload fails. */
  function UploadAnswers(answers: seq<ImageAnswer>, upload: Uploader): (r: Option<seq<ImageAnswer>>)
    ensures r.Some? ==> |r.value| == |answers|
    ensures r.Some? ==> forall i :: 0 <= i < |answers| ==>
              StoreImage(answers[i].image, "answer-" + answers[i].id, upload) == Some(r.value[i].image) &&
              r.value[i] == answers[i].(image := r.value[i].image)
    ensures r.None? <==> exists i :: 0 <= i < |answers| && StoreImage(answers[i].image, "answer-" + answers[i].id, upload).None?
  {
    if answers == [] then Some([])
    else
      var first := StoreImage(answers[0].image, "answer-" + answers[0].id, upload);
      var rest := UploadAnswers(answers[1..], upload);
      if first.None? || rest.None? then None
      else Some([answers[0].(image := first.value)] + rest.value)
  }

  /** The upload pass over the right/wrong object, field by field; `ok` is false at the first failed upload. */
  datatype RightWrongPass = RightWrongPass(images: RightWrongImages, ok: bool)

  function UploadRightWrong(rw: RightWrongImages, id: string, upload: Uploader): (p: RightWrongPass)
    ensures var i1 := StoreImage(rw.image1, "rw-image1-" + id, upload);
            var i2 := StoreImage(rw.image2, "rw-image2-" + id, upload);
            var ri := StoreImage(rw.rightIcon, "rw-right-icon-" + id, upload);
            var wi := StoreImage(rw.wrongIcon, "rw-wrong-icon-" + id, upload);
            && (p.ok <==> i1.Some? && i2.Some? && ri.Some? && wi.Some?)
            && p.images.image1 == (if i1.Some? then i1.value else rw.image1)
            && p.images.image2 == (if i1.Some? && i2.Some? then i2.value else rw.image2)
            && p.images.rightIcon == (if i1.Some? && i2.Some? && ri.Some? then ri.value else rw.rightIcon)
            && p.images.wrongIcon == (if p.ok then wi.value else rw.wrongIcon)
  {
    var i1 := StoreImage(rw.image1, "rw-image1-" + id, upload);
    if i1.None? then RightWrongPass(rw, false) else
    var rw1 := rw.(image1 := i1.value);
    var i2 := StoreImage(rw.image2, "rw-image2-" + id, upload);
    if i2.None? then RightWrongPass(rw1, false) else
    var rw2 := rw1.(image2 := i2.value);
    var ri := StoreImage(rw.rightIcon, "rw-right-icon-" + id, upload);
    if ri.None? then RightWrongPass(rw2, false) else
    var rw3 := rw2.(rightIcon := ri.value);
    var wi := StoreImage(rw.wrongIcon, "rw-wrong-icon-" + id, upload);
    if wi.None? then RightWrongPass(rw3, false) else
    RightWrongPass(rw3.(wrongIcon := wi.value), true)
  }

  /** The upload of the question picture throws. */
  predicate ImageUploadFails(q: Question, upload: Uploader)
  {
    q.image.Some? && q.image.value != "" && StoreImage(q.image.value, "question-" + q.id, upload).None?
  }

  /** One of the uploads over the answer list throws. */
  predicate AnswersUploadFail(q: Question, upload: Uploader)
  {
    q.imageAnswers.Some? && q.imageAnswers.value.AnswerList? && UploadAnswers(q.imageAnswers.value.answers, upload).None?
  }

  /** One of the uploads over the right/wrong object throws. */
  predicate RightWrongUploadFails(q: Question, upload: Uploader)
  {
    q.rightWrongImages.Some? && !UploadRightWrong(q.rightWrongImages.value, q.id, upload).ok
  }

  /** `dataToSave`: which payload goes into the row's `image_answers` column depends on the answer type only. */
  function RowFor(q: Question, imageUrl: Option<string>, answers: Payload, rw: Option<RightWrongImages>): (row: Row)
    ensures row.id == q.id && row.text == q.text && row.answerType == q.answerType
    ensures row.image == imageUrl && row.category == Some(q.category)
    ensures q.answerType == RightWrong ==> row.imageAnswers == (if rw.Some? then Some(RightWrongObject(rw.value)) else None)
    ensures q.answerType == Images ==> row.imageAnswers == Some(answers)
    ensures q.answerType == YesNo ==> row.imageAnswers == None
  {
    var payload :=
      match q.answerType
      case RightWrong => if rw.Some? then Some(RightWrongObject(rw.value)) else None
      case Images => Some(answers)
      case YesNo => None;
    Row(q.id, q.text, imageUrl, q.answerType, Some(q.category), payload)
  }

  /** `saveQuestion`: upload inline pictures in source order, build the row, upsert it. */
  function SaveQuestion(q: Question, upload: Uploader, upsertOk: Row -> bool): (o: SaveOutcome)
    ensures o.result.Upserted? || o.result.UpsertFailed? ==>
              o.result.row.id == q.id && o.result.row.text == q.text &&
              o.result.row.answerType == q.answerType && o.result.row.category == Some(q.category)
    ensures o.result.Upserted? ==> upsertOk(o.result.row)
    ensures !o.result.UploadFailed? ==> (o.result.Upserted? <==> upsertOk(o.result.row))
    ensures o.result.UploadFailed? <==>
              ImageUploadFails(q, upload) || AnswersUploadFail(q, upload) || RightWrongUploadFails(q, upload)
    ensures !o.result.UploadFailed? ==>
              o.result.row.image ==
                (if q.image.None? || q.image.value == "" then None
                 else StoreImage(q.image.value, "question-" + q.id, upload))
    ensures !o.result.UploadFailed? && q.answerType == Images ==>
              o.result.row.imageAnswers ==
                Some(if q.imageAnswers.None? then AnswerList([])
                     else if q.imageAnswers.value.AnswerList? then
                       AnswerList(UploadAnswers(q.imageAnswers.value.answers, upload).value)
                     else q.imageAnswers.value)
    ensures !o.result.UploadFailed? && q.answerType == RightWrong ==>
              o.result.row.imageAnswers ==
                (if q.rightWrongImages.None? then None
                 else Some(RightWrongObject(UploadRightWrong(q.rightWrongImages.value, q.id, upload).images)))
    ensures !o.result.UploadFailed? && q.answerType == YesNo ==> o.result.row.imageAnswers == None
    ensures q.rightWrongImages.None? ==> o.rightWrongAfter.None?
    ensures q.rightWrongImages.Some? ==>
              o.rightWrongAfter ==
                (if ImageUploadFails(q, upload) || AnswersUploadFail(q, upload) then q.rightWrongImages
                 else Some(UploadRightWrong(q.rightWrongImages.value, q.id, upload).images))
  {
    // `question.image || null`, with inline data replaced by its hosted URL
    var imageUrl: Option<Option<string>> :=
      if q.image.None? || q.image == Some("") then Some(None)
      else if IsInline(q.image.value) then
        (var u := UploadImage(q.image.value, "question-" + q.id, upload); if u.None? then None else Some(Some(u.value)))
      else Some(q.image);
    if imageUrl.None? then SaveOutcome(q.rightWrongImages, UploadFailed) else
    // `question.imageAnswers || []`; only a non-empty list is mapped
    var answers0 := q.imageAnswers.GetOr(AnswerList([]));
    var answers: Option<Payload> :=
      if answers0.AnswerList? && |answers0.answers| > 0 then
        (var up := UploadAnswers(answers0.answers, upload); if up.None? then None else Some(AnswerList(up.value)))
      else Some(answers0);
    if answers.None? then SaveOutcome(q.rightWrongImages, UploadFailed) else
    var pass := if q.rightWrongImages.Some? then UploadRightWrong(q.rightWrongImages.value, q.id, upload)
                else RightWrongPass(RightWrongImages("", "", "", ""), true);
    var rwAfter := if q.rightWrongImages.Some? then Some(pass.images) else None;
    if !pass.ok then SaveOutcome(rwAfter, UploadFailed) else
    var row := RowFor(q, imageUrl.value, answers.value, rwAfter);
    SaveOutcome(rwAfter, if upsertOk(row) then Upserted(row) else UpsertFailed(row))
  }

  /** `updateQuestion(id, q)`: save `q` with `id` in place of its own id. */
  function UpdateQuestion(id: string, q: Question, upload: Uploader, upsertOk: Row -> bool): (o: SaveOutcome)
    ensures o.result.Upserted? || o.result.UpsertFailed? ==> o.result.row.id == id
  {
    SaveQuestion(q.(id := id), upload, upsertOk)
  }

  /** `rowToQuestion`. */
  function RowToQuestion(row: Row): (q: Question)
    ensures q.id == row.id && q.text == row.text && q.answerType == row.answerType
    ensures q.imageAnswers == row.imageAnswers
    ensures q.category != "" && (row.category.Some? && row.category.value != "" ==> q.category == row.category.value)
    ensures q.image != Some("") && (q.image.None? <==> row.image.None? || row.image == Some(""))
    ensures q.image.Some? ==> q.image == row.image
    ensures (row.category.None? || row.category.value == "") ==> q.category == "M"
    ensures q.rightWrongImages.Some? <==> row.answerType == RightWrong && row.imageAnswers.Some?
    ensures q.rightWrongImages.Some? ==> q.rightWrongImages == Some(AsRightWrong(row.imageAnswers.value))
  {
    Question(
      row.id,
      row.text,
      if row.image.None? || row.image == Some("") then None else row.image,
      row.answerType,
      row.imageAnswers,
      if row.answerType == RightWrong && row.imageAnswers.Some? then Some(AsRightWrong(row.imageAnswers.value)) else None,
      if row.category.None? || row.category == Some("") then "M" else row.category.value)
  }

  /**
   * The cast `image_answers as RightWrongImages`. A list read this way has no
   * such fields, and every use of them in the app treats a missing field like
   * the empty string.
   */
  function AsRightWrong(p: Payload): (rw: RightWrongImages)
    ensures p.RightWrongObject? ==> rw == p.images
    ensures p.AnswerList? ==> rw == RightWrongImages("", "", "", "")
  {
    match p
    case RightWrongObject(rw) => rw
    case AnswerList(_) => RightWrongImages("", "", "", "")
  }

  /** `getQuestions`: a failed fetch yields the empty list instead of an error. */
  function GetQuestions(fetched: Option<seq<Row>>): (qs: seq<Question>)
    ensures fetched.None? ==> qs == []
    ensures fetched.Some? ==> (|qs| == |fetched.value| &&
              forall i :: 0 <= i < |qs| ==> qs[i] == RowToQuestion(fetched.value[i]))
  {
    if fetched.None? then []
    else seq(|fetched.value|, i requires 0 <= i < |fetched.value| => RowToQuestion(fetched.value[i]))
  }

  /** No picture of the question is inline data, so saving uploads nothing. */
  predicate NoInlineImages(q: Question)
  {
    && (q.image.Some? ==> !IsInline(q.image.value))
    && (q.imageAnswers.Some? && q.imageAnswers.value.AnswerList? ==>
          forall a :: a in q.imageAnswers.value.answers ==> !IsInline(a.image))
    && (q.rightWrongImages.Some? ==>
          var rw := q.rightWrongImages.value;
          !IsInline(rw.image1) && !IsInline(rw.image2) && !IsInline(rw.rightIcon) && !IsInline(rw.wrongIcon))
  }

  /** What reading back a saved question yields: an independent account of what the row keeps. */
  function ReadBack(q: Question): Question
  {
    var payload :=
      match q.answerType
      case YesNo => None
      case Images => Some(q.imageAnswers.GetOr(AnswerList([])))
      case RightWrong => if q.rightWrongImages.Some? then Some(RightWrongObject(q.rightWrongImages.value)) else None;
    q.(image := if q.image == Some("") then None else q.image,
       imageAnswers := payload,
       rightWrongImages := if q.answerType == RightWrong then q.rightWrongImages else None)
  }

  lemma UploadAnswersNoInline(answers: seq<ImageAnswer>, upload: Uploader)
    requires forall a :: a in answers ==> !IsInline(a.image)
    ensures UploadAnswers(answers, upload) == Some(answers)
  {
    var r := UploadAnswers(answers, upload);
    forall i | 0 <= i < |answers| ensures StoreImage(answers[i].image, "answer-" + answers[i].id, upload) == Some(answers[i].image) {
      assert answers[i] in answers;
    }
    assert r.value == answers;
  }

  /**
   * Saving a question without inline pictures and reading the row back gives
   * `ReadBack(q)`, whatever the hosting service does.
   */
  lemma SaveRoundTrip(q: Question, upload: Uploader, upsertOk: Row -> bool)
    requires NoInlineImages(q) && q.category != ""
    ensures var o := SaveQuestion(q, upload, upsertOk);
            (o.result.Upserted? || o.result.UpsertFailed?) &&
            o.rightWrongAfter == q.rightWrongImages &&
            RowToQuestion(o.result.row) == ReadBack(q)
  {
    if q.imageAnswers.Some? && q.imageAnswers.value.AnswerList? {
      UploadAnswersNoInline(q.imageAnswers.value.answers, upload);
    }
    if q.rightWrongImages.Some? {
      var rw := q.rightWrongImages.value;
      assert UploadRightWrong(rw, q.id, upload) == RightWrongPass(rw, true);
    }
  }

  /**
   * The near round trip: a yes/no question without payloads, or an images
   * question with an answer list, comes back unchanged when its category is
   * set, its image is absent or non-empty and no picture is inline data.
   */
  lemma ExactRoundTrip(q: Question, upload: Uploader, upsertOk: Row -> bool)
    requires NoInlineImages(q) && q.category != "" && q.image != Some("") && q.rightWrongImages.None?
    requires q.answerType == YesNo ==> q.imageAnswers.None?
    requires q.answerType == Images ==> q.imageAnswers.Some?
    requires q.answerType != RightWrong
    ensures var o := SaveQuestion(q, upload, upsertOk);
            o.result.Upserted? ==> RowToQuestion(o.result.row) == q
  {
    SaveRoundTrip(q, upload, upsertOk);
  }

  /** The quirk: a right/wrong question comes back with its right/wrong object in `imageAnswers` as well. */
  lemma RightWrongReadBackQuirk(q: Question, upload: Uploader, upsertOk: Row -> bool)
    requires NoInlineImages(q) && q.category != "" && q.image != Some("")
    requires q.answerType == RightWrong && q.rightWrongImages.Some?
    ensures var o := SaveQuestion(q, upload, upsertOk);
            var back := RowToQuestion(o.result.row);
            o.result.Upserted? ==>
              back.rightWrongImages == q.rightWrongImages &&
              back.imageAnswers == Some(RightWrongObject(q.rightWrongImages.value))
  {
    SaveRoundTrip(q, upload, upsertOk);
  }

  /**
   * The caller's right/wrong object is overwritten in place: after a
   * successful upload pass each inline field holds its hosted URL, and that is
   * what the row stores.
   */
  lemma RightWrongOverwritten(q: Question, upload: Uploader, upsertOk: Row -> bool)
    requires q.rightWrongImages.Some? && q.answerType == RightWrong
    ensures var o := SaveQuestion(q, upload, upsertOk);
            var rw := q.rightWrongImages.value;
            o.result.Upserted? ==>
              o.rightWrongAfter.Some? &&
              o.rightWrongAfter.value.image1 == StoreImage(rw.image1, "rw-image1-" + q.id, upload).value &&
              o.rightWrongAfter.value.image2 == StoreImage(rw.image2, "rw-image2-" + q.id, upload).value &&
              o.rightWrongAfter.value.rightIcon == StoreImage(rw.rightIcon, "rw-right-icon-" + q.id, upload).value &&
              o.rightWrongAfter.value.wrongIcon == StoreImage(rw.wrongIcon, "rw-wrong-icon-" + q.id, upload).value &&
              o.result.row.imageAnswers == Some(RightWrongObject(o.rightWrongAfter.value))
  {
  }

  /**
   * `saveQuestions`: save each question in turn, stopping at the first one
   * that throws. `upserted` are the rows written, `failedAt` the index of the
   * question that threw.
   */
  method SaveQuestions(qs: seq<Question>, upload: Uploader, upsertOk: Row -> bool)
    returns (upserted: seq<Row>, failedAt: Option<nat>)
    ensures failedAt.None? ==> |upserted| == |qs|
    ensures failedAt.Some? ==> (failedAt.value < |qs| && |upserted| == failedAt.value &&
              !SaveQuestion(qs[failedAt.value], upload, upsertOk).result.Upserted?)
    ensures forall i :: 0 <= i < |upserted| ==> SaveQuestion(qs[i], upload, upsertOk).result == Upserted(upserted[i])
  {
    upserted := [];
    var i := 0;
    while i < |qs|
      invariant 0 <= i <= |qs| && |upserted| == i
      invariant forall k :: 0 <= k < i ==> SaveQuestion(qs[k], upload, upsertOk).result == Upserted(upserted[k])
    {
      var o := SaveQuestion(qs[i], upload, upsertOk);
      if !o.result.Upserted? {
        failedAt := Some(i);
        return;
      }
      upserted := upserted + [o.result.row];
      i := i + 1;
    }
    failedAt := None;
  }
}
