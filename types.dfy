/**
 * The question record shared by every screen (src/types/question.ts).
 *
 * The record does not tie its optional payload fields to `answerType`: any
 * combination can be stored and loaded, so the model keeps both fields optional.
 */
module Types {
  import opened Wrappers

  datatype AnswerType = YesNo | Images | RightWrong

  /** One selectable picture answer of an `images` question. */
  datatype ImageAnswer = ImageAnswer(id: string, image: string, text: string)

  /** The two prompt pictures and the two answer icons of a `rightwrong` question. */
  datatype RightWrongImages = RightWrongImages(image1: string, image2: string, rightIcon: string, wrongIcon: string)

  /**
   * What the `imageAnswers` field can hold at run time. The declared type is a
   * list of image answers, but a question read back from the database carries
   * the right/wrong object there when its type is `rightwrong`.
   */
  datatype Payload = AnswerList(answers: seq<ImageAnswer>) | RightWrongObject(images: RightWrongImages)

  datatype Question = Question(
    id: string,
    text: string,
    image: Option<string>,
    answerType: AnswerType,
    imageAnswers: Option<Payload>,
    rightWrongImages: Option<RightWrongImages>,
    category: string)

  /** The three built-in category tags. */
  const DefaultCategories: seq<string> := ["M", "E", "N"]
}
