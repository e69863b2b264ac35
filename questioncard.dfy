/**
 * One question on screen (src/components/QuestionCard.tsx): narration, the
 * reveal of the prompt picture, and the answer lock.
 *
 * Speech and timers are effects: `spoken` lists every text handed to the
 * speech service, `answered` every answer handed to the host, and `pending`
 * every reveal callback registered and not yet fired. Callbacks carry no
 * question identity, so one left over from an earlier question may still fire.
 */
module QuestionCard {
  import opened Wrappers
  import opened Types
  import opened Language

  /** The fallback delay, in milliseconds, when speech is unavailable. */
  const FallbackDelayMs: nat := 1500

  /** A registered reveal callback: the narration's end, or the fallback timer. */
  datatype Callback = NarrationEnd | FallbackTimer(delayMs: nat)

  /** A selectable option: its id and the answer text spoken and reported when it is chosen. */
  datatype AnswerOption = AnswerOption(id: string, text: string)

  /** The options rendered for a question, in display order. */
  function Options(q: Question, lang: Lang): (opts: seq<AnswerOption>)
    ensures q.answerType == YesNo ==> opts == [AnswerOption("yes", T(lang, "app.yes")), AnswerOption("no", T(lang, "app.no"))]
    ensures q.answerType == RightWrong ==> opts == [AnswerOption("right", T(lang, "app.right")), AnswerOption("wrong", T(lang, "app.wrong"))]
    ensures q.answerType == Images ==>
              var list := if q.imageAnswers.Some? && q.imageAnswers.value.AnswerList? then q.imageAnswers.value.answers else [];
              |opts| == |list| && forall i :: 0 <= i < |list| ==> opts[i] == AnswerOption(list[i].id, list[i].text)
  {
    match q.answerType
    case YesNo => [AnswerOption("yes", T(lang, "app.yes")), AnswerOption("no", T(lang, "app.no"))]
    case RightWrong => [AnswerOption("right", T(lang, "app.right")), AnswerOption("wrong", T(lang, "app.wrong"))]
    case Images =>
      match q.imageAnswers
      case Some(AnswerList(list)) => ImageOptions(list)
      case _ => []
  }

  function ImageOptions(list: seq<ImageAnswer>): (opts: seq<AnswerOption>)
    ensures |opts| == |list| && forall i :: 0 <= i < |list| ==> opts[i] == AnswerOption(list[i].id, list[i].text)
  {
    seq(|list|, i requires 0 <= i < |list| => AnswerOption(list[i].id, list[i].text))
  }

  /** `imageAnswers?.length || 2`: the list's length, or 2 when there is no non-empty list. */
  function AnswerCount(q: Question): (n: nat)
    ensures n >= 1
    ensures q.imageAnswers.Some? && q.imageAnswers.value.AnswerList? && |q.imageAnswers.value.answers| > 0 ==>
              n == |q.imageAnswers.value.answers|
    ensures !(q.imageAnswers.Some? && q.imageAnswers.value.AnswerList? && |q.imageAnswers.value.answers| > 0) ==> n == 2
  {
    match q.imageAnswers
    case Some(AnswerList(list)) => if |list| > 0 then |list| else 2
    case _ => 2
  }

  /** The grid's column count for the picture options: the answer count capped at four. */
  function GridColumns(q: Question): (cols: nat)
    ensures 1 <= cols <= 4
    ensures cols == if AnswerCount(q) < 4 then AnswerCount(q) else 4
  {
    var count := AnswerCount(q);
    if count == 1 then 1 else if count == 2 then 2 else if count == 3 then 3 else 4
  }

  /** An option is disabled when another option is selected. */
  predicate IsDisabled(selected: Option<string>, optionId: string)
    ensures IsDisabled(selected, optionId) <==> selected.Some? && selected != Some(optionId)
  {
    selected.Some? && selected.value != optionId
  }

  /** An option is highlighted when it is the selected one. */
  predicate IsHighlighted(selected: Option<string>, optionId: string)
    ensures IsHighlighted(selected, optionId) <==> selected.Some? && selected.value == optionId
  {
    selected == Some(optionId)
  }

  /** The options still enabled, in display order. */
  function Enabled(opts: seq<AnswerOption>, selected: Option<string>): (r: seq<AnswerOption>)
    ensures forall o :: o in r <==> o in opts && !IsDisabled(selected, o.id)
  {
    if opts == [] then []
    else (if IsDisabled(selected, opts[0].id) then [] else [opts[0]]) + Enabled(opts[1..], selected)
  }

  /** With nothing selected every option is enabled; after a selection only options carrying the selected id are. */
  lemma {:induction false} EnabledAfterSelection(opts: seq<AnswerOption>, selected: Option<string>)
    ensures selected.None? ==> Enabled(opts, selected) == opts
    ensures selected.Some? ==> forall o :: o in Enabled(opts, selected) ==> o.id == selected.value && IsHighlighted(selected, o.id)
  {
    if opts != [] {
      EnabledAfterSelection(opts[1..], selected);
    }
  }

  /** After "yes" is chosen on a yes/no question, "yes" is the one enabled, highlighted option. */
  lemma YesLocksNo(q: Question, lang: Lang)
    requires q.answerType == YesNo
    ensures Enabled(Options(q, lang), Some("yes")) == [AnswerOption("yes", T(lang, "app.yes"))]
    ensures IsHighlighted(Some("yes"), "yes") && IsDisabled(Some("yes"), "no")
  {
    var opts := Options(q, lang);
    assert opts[1..] == [AnswerOption("no", T(lang, "app.no"))];
    assert Enabled(opts[1..], Some("yes")) == [];
  }

  /** `id || null`: an absent or empty option id selects nothing. */
  function SelectionFor(id: Option<string>): (s: Option<string>)
    ensures s.Some? <==> id.Some? && id.value != ""
    ensures s.Some? ==> s == id
  {
    if id.Some? && id.value != "" then id else None
  }

  class Card {
    var question: Question
    var selectedId: Option<string>
    var imageEnlarged: bool
    var pending: seq<Callback>
    var spoken: seq<string>
    var answered: seq<string>

    /** Mount: the effect runs once for the first question. */
    constructor (q: Question, speechAvailable: bool)
      ensures question == q && selectedId.None? && !imageEnlarged
      ensures spoken == [q.text] && answered == []
      ensures pending == [if speechAvailable then NarrationEnd else FallbackTimer(FallbackDelayMs)]
    {
      question := q;
      selectedId := None;
      imageEnlarged := false;
      spoken := [q.text];
      answered := [];
      pending := [if speechAvailable then NarrationEnd else FallbackTimer(FallbackDelayMs)];
    }

    /**
     * A new `question` prop. The effect reruns only when the id or the text
     * changed: selection cleared, picture shrunk, text spoken, and a reveal
     * callback registered (on the narration's end, or the fallback timer when
     * speech is unavailable).
     */
    method Present(q: Question, speechAvailable: bool)
      modifies this
      ensures question == q && answered == old(answered)
      ensures (q.id != old(question).id || q.text != old(question).text) ==>
                selectedId.None? && !imageEnlarged && spoken == old(spoken) + [q.text] &&
                pending == old(pending) + [if speechAvailable then NarrationEnd else FallbackTimer(FallbackDelayMs)]
      ensures (q.id == old(question).id && q.text == old(question).text) ==>
                selectedId == old(selectedId) && imageEnlarged == old(imageEnlarged) &&
                spoken == old(spoken) && pending == old(pending)
    {
      var changed := q.id != question.id || q.text != question.text;
      question := q;
      if changed {
        selectedId := None;
        imageEnlarged := false;
        spoken := spoken + [q.text];
        pending := pending + [if speechAvailable then NarrationEnd else FallbackTimer(FallbackDelayMs)];
      }
    }

    /** A registered reveal callback fires: the prompt picture is enlarged. */
    method Fire(k: nat)
      requires k < |pending|
      modifies this`imageEnlarged, this`pending
      ensures imageEnlarged
      ensures pending == old(pending[..k] + pending[k + 1..])
    {
      imageEnlarged := true;
      pending := pending[..k] + pending[k + 1..];
    }

    /** `handleAnswer(answer, id)`: select, speak the answer, report it once. */
    method HandleAnswer(answer: string, id: Option<string>)
      modifies this`selectedId, this`spoken, this`answered
      ensures selectedId == SelectionFor(id)
      ensures spoken == old(spoken) + [answer]
      ensures answered == old(answered) + [answer]
    {
      selectedId := SelectionFor(id);
      spoken := spoken + [answer];
      answered := answered + [answer];
    }

    /** A click on the `k`-th rendered option, which only an enabled option accepts. */
    method Choose(k: nat, lang: Lang)
      requires k < |Options(question, lang)| && !IsDisabled(selectedId, Options(question, lang)[k].id)
      modifies this`selectedId, this`spoken, this`answered
      ensures var o := Options(question, lang)[k];
              selectedId == SelectionFor(Some(o.id)) &&
              spoken == old(spoken) + [o.text] && answered == old(answered) + [o.text]
    {
      var o := Options(question, lang)[k];
      HandleAnswer(o.text, Some(o.id));
    }

    /** "Listen again": clear the selection and speak the question again; the picture stays as it is. */
    method ListenAgain()
      modifies this`selectedId, this`spoken
      ensures selectedId.None? && imageEnlarged == old(imageEnlarged)
      ensures spoken == old(spoken) + [question.text]
    {
      selectedId := None;
      spoken := spoken + [question.text];
    }
  }

  /**
   * The selected option stays enabled, so choosing it again speaks and
   * reports the answer a second time.
   */
  method ChooseTwice(card: Card, k: nat, lang: Lang)
    requires k < |Options(card.question, lang)| && !IsDisabled(card.selectedId, Options(card.question, lang)[k].id)
    modifies card`selectedId, card`spoken, card`answered
    ensures card.question == old(card.question)
    ensures var o := Options(old(card.question), lang)[k];
            card.answered == old(card.answered) + [o.text, o.text] &&
            card.spoken == old(card.spoken) + [o.text, o.text]
  {
    card.Choose(k, lang);
    card.Choose(k, lang);
  }
}
