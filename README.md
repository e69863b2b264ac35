# qapps2 core in Dafny

qapps2 is a small React app for assessing a child with narrated questions. A
question has one of three answer types:

- yes/no;
- a grid of picture answers;
- a right/wrong pair shown under two prompt pictures.

Questions live in a hosted database. The settings screen authors them, and
the main screen plays them one at a time, filtered by a category tag.

This project models the app's logic in Dafny and proves it against the
source's rules. The modules follow the source files:

| module | source | form |
|---|---|---|
| `Types` | `src/types/question.ts` | datatypes |
| `Wrappers` | — | `Option`, the stand-in for `undefined`/`null` |
| `JsString` | — | JavaScript's `trim` and `startsWith` |
| `Language` | `src/contexts/LanguageContext.tsx` | translation lookup, plus a `LanguageProvider` class |
| `Storage` | `src/lib/storage.ts` | functions for question/row mapping and the upload rule; a loop method for `saveQuestions` |
| `QuestionCard` | `src/components/QuestionCard.tsx` | a `Card` class for the selection and reveal state |
| `Navigation` | `src/pages/Index.tsx` | filter and category functions; an `IndexPage` class for the index and the screen |
| `QuestionForm` | `src/components/QuestionForm.tsx` | pure initial values and submit validation; a `Form` class for the editing handlers |
| `SettingsPage` | `src/pages/Settings.tsx` | template records and the title rule; a `Settings` class for the editor, save and delete state |

Effects that leave the app are parameters of the model:

- **Hosting service:** an upload is a function `upload: (data, fileName) -> Option<url>`, where None is a throw.
- **Database:** an upsert is a verdict `upsertOk: Row -> bool`. A fetch is `Option<seq<Row>>`, where None is an error. A delete is a `bool`.
- **Browser:** the confirmation dialog's answer is a `bool`. `crypto.randomUUID` is a `freshId` string. Local storage is a `map` or an already-parsed `Option`.
- **Speech:** a card records every text it hands to speech in `spoken`, and every answer it reports in `answered`.
- **Reveal callbacks:** the narration-end callback and the 1500 ms fallback timer are entries of `pending`. Any entry may fire.

Some behaviour is modelled as written because the source does it:

- A right/wrong question read back from the database carries its right/wrong object in `imageAnswers` as well. See `Storage.RightWrongReadBackQuirk`.
- Saving overwrites the caller's right/wrong object with hosted URLs. This can happen partially when a later upload fails.
- A template opened from the "new question" menu is saved through `updateQuestion`.
- A saved question keeps the settings screen's template choice. Only cancel and go-back reset it.
- The settings list labels right/wrong questions "Images".

## Model

| member | source | states |
|---|---|---|
| JsString.TrimStart | src/components/QuestionForm.tsx:117 | a suffix of the input whose removed part is all white space and which does not start with white space |
| JsString.TrimEnd | src/components/QuestionForm.tsx:117 | a prefix of the input whose removed part is all white space and which does not end with white space |
| JsString.Trim | src/components/QuestionForm.tsx:106-134 | a contiguous middle of the input with white space only before and after it, neither starting nor ending with white space |
| JsString.TrimNoop | src/components/QuestionForm.tsx:117-134 | a text that neither starts nor ends with white space is its own trim and passes the blank-text test |
| JsString.TrimBlank | src/components/QuestionForm.tsx:117-120 | the trimmed text is empty exactly when every character is ECMAScript white space |
| JsString.TrimIdempotent | src/components/QuestionForm.tsx:134 | trimming an already trimmed text changes nothing |
| Language.T | src/contexts/LanguageContext.tsx:185-187 | the current language's entry when present and non-empty, the key itself when the entry is missing or empty; never empty for a non-empty key |
| Language.AnswerTexts | src/contexts/LanguageContext.tsx:22-104 | yes/no/right/wrong are Yes/No/Right/Wrong in English and हाँ/नहीं/सही/गलत in Hindi |
| Language.InitialLanguageAsWritten | src/contexts/LanguageContext.tsx:175-178 | the saved string when non-empty, else "hi"; the saved string is not checked |
| Language.UnknownSavedLanguageIsKept | src/contexts/LanguageContext.tsx:175-178 | a saved "fr" becomes the language although it names neither table |
| Language.InitialLanguage | src/contexts/LanguageContext.tsx:175-178 | English exactly when "en" was saved, Hindi otherwise |
| Language.InitialLanguageAgrees | src/contexts/LanguageContext.tsx:175-178 | the corrected choice equals the source's whenever the source's result is "en" or "hi" |
| Language.LanguageProvider.constructor | src/contexts/LanguageContext.tsx:175-191 | the language starts from the saved value, and the mount effect stores it under "app-language" |
| Language.LanguageProvider.PersistLanguage | src/contexts/LanguageContext.tsx:189-191 | the current language's code is stored under "app-language", nothing else in storage changes |
| Language.LanguageProvider.SetLanguage | src/contexts/LanguageContext.tsx:180-183 | the language becomes `l`, and storage holds its code under "app-language" |
| Language.LanguageProvider.Translate | src/contexts/LanguageContext.tsx:185-187 | the entry of the provider's current table when present and non-empty, else the key itself |
| Storage.UploadImage | src/lib/storage.ts:7-14 | input starting with "http" is returned unchanged, "" gives "", anything else is the hosting service's answer |
| Storage.StoreImage | src/lib/storage.ts:71-102 | only strings starting with "data:" are handed to the hosting service; every other image string is kept unchanged |
| Storage.UploadAnswers | src/lib/storage.ts:75-86 | same length; each entry keeps id and text and gets its stored image; None exactly when some inline upload fails |
| Storage.UploadAnswersNoInline | src/lib/storage.ts:75-86 | a list without inline pictures comes through unchanged |
| Storage.UploadRightWrong | src/lib/storage.ts:89-103 | succeeds exactly when all four uploads succeed; each field holds its stored URL when it and every earlier field's upload succeeded, and keeps its old value otherwise |
| Storage.RowFor | src/lib/storage.ts:106-121 | the row copies id, text, type and category; `image_answers` is the right/wrong object for rightwrong, the list for images, null for yesno |
| Storage.SaveQuestion | src/lib/storage.ts:68-131 | the save fails at upload exactly when the picture's, an answer's or a right/wrong field's upload fails; otherwise the row has the question's id, text, type and category, the stored picture URL (null for none or ""), the uploaded answer list for images, the uploaded right/wrong object for rightwrong, nothing for yesno, and succeeds exactly when the upsert accepts it; the caller's right/wrong object is overwritten only by the right/wrong pass, which runs only after the earlier uploads succeeded |
| Storage.UpdateQuestion | src/lib/storage.ts:139-141 | the row carries the given id, not the record's own |
| Storage.RowToQuestion | src/lib/storage.ts:42-50 | null or "" image becomes absent; a missing or empty category becomes "M", any other is kept; `imageAnswers` is the column whatever the type; a right/wrong object exactly for a rightwrong row with a payload, and it is the payload read through the cast |
| Storage.AsRightWrong | src/lib/storage.ts:48 | a right/wrong object is read as itself, a list as four empty fields |
| Storage.GetQuestions | src/lib/storage.ts:53-65 | a failed fetch gives the empty list; otherwise every row is mapped, in order |
| Storage.SaveRoundTrip | src/lib/storage.ts:68-121 | a question without inline pictures reaches the upsert with its right/wrong object untouched, and reading the row back gives the `ReadBack` account of it |
| Storage.ExactRoundTrip | src/lib/storage.ts:42-121 | a yes/no or images question with a category, no empty image and no inline pictures reads back equal to itself |
| Storage.RightWrongReadBackQuirk | src/lib/storage.ts:47-48 | a saved right/wrong question reads back with its object in both `rightWrongImages` and `imageAnswers` |
| Storage.RightWrongOverwritten | src/lib/storage.ts:89-103 | after a successful save the caller's right/wrong object holds each field's stored URL, and the row holds that object |
| Storage.SaveQuestions | src/lib/storage.ts:157-161 | questions are saved in order up to the first failure; every saved row is the upsert of its question |
| QuestionCard.Options | src/components/QuestionCard.tsx:116-278 | yes/no gives yes and no, right/wrong gives right and wrong, with translated texts; images gives one option per list entry, in order |
| QuestionCard.ImageOptions | src/components/QuestionCard.tsx:274-278 | one option per answer, with its id and text, in order |
| QuestionCard.AnswerCount | src/components/QuestionCard.tsx:50 | the list's length when it is non-empty, else 2 |
| QuestionCard.GridColumns | src/components/QuestionCard.tsx:50-55 | the grid has the answer count's columns, capped at 4, and at least 1 |
| QuestionCard.IsDisabled | src/components/QuestionCard.tsx:125-279 | an option is disabled exactly when some option is selected and it is not this one |
| QuestionCard.IsHighlighted | src/components/QuestionCard.tsx:134-287 | an option is highlighted exactly when it is the selected one |
| QuestionCard.Enabled | src/components/QuestionCard.tsx:125-279 | an option is enabled exactly when nothing is selected or it carries the selected id |
| QuestionCard.EnabledAfterSelection | src/components/QuestionCard.tsx:125-279 | with no selection all options are enabled; after one, only the highlighted option is |
| QuestionCard.YesLocksNo | src/components/QuestionCard.tsx:121-151 | after "yes" on a yes/no question, "yes" is the single enabled option and "no" is disabled |
| QuestionCard.SelectionFor | src/components/QuestionCard.tsx:37 | an absent or empty id selects nothing, any other id selects itself |
| QuestionCard.Card.constructor | src/components/QuestionCard.tsx:18-34 | nothing selected, picture small, question text spoken, one reveal callback registered |
| QuestionCard.Card.Present | src/components/QuestionCard.tsx:22-34 | a new id or text clears the selection, shrinks the picture, speaks the text and registers a reveal callback; otherwise nothing but the record changes |
| QuestionCard.Card.Fire | src/components/QuestionCard.tsx:28-33 | a registered callback enlarges the picture and is consumed |
| QuestionCard.Card.HandleAnswer | src/components/QuestionCard.tsx:36-40 | selects the id, speaks the answer, reports it exactly once |
| QuestionCard.Card.Choose | src/components/QuestionCard.tsx:121-279 | clicking an enabled option selects it, speaks and reports its text |
| QuestionCard.Card.ListenAgain | src/components/QuestionCard.tsx:42-45 | clears the selection, keeps the picture, speaks the question again |
| QuestionCard.ChooseTwice | src/components/QuestionCard.tsx:36-40 | choosing the selected option again speaks and reports its answer a second time |
| Navigation.Next | src/pages/Index.tsx:62-64 | inside a list of `len` questions the next index is one on, and 0 after the last question |
| Navigation.Previous | src/pages/Index.tsx:58-60 | inside a list of `len` questions the previous index is one back, and the last index before the first question |
| Navigation.NavigationWraps | src/pages/Index.tsx:58-64 | in a non-empty list both moves stay in range, wrap at the ends, and undo each other |
| Navigation.SingleQuestionStays | src/pages/Index.tsx:58-64 | with one question both moves stay at index 0 |
| Navigation.Filtered | src/pages/Index.tsx:28-31 | "all" keeps the list, any other value keeps exactly the questions of that category |
| Navigation.WithCategory | src/pages/Index.tsx:30 | exactly the questions with that category |
| Navigation.WithCategoryAppend | src/pages/Index.tsx:30 | the filter keeps list order |
| Navigation.FilterScenario | src/pages/Index.tsx:28-31 | filtering M, E, N questions by "E" gives just the E question |
| Navigation.Distinct | src/pages/Index.tsx:24 | the same members as the input |
| Navigation.DistinctOrder | src/pages/Index.tsx:24 | no repeats, in first-occurrence order |
| Navigation.NonDefaultCategories | src/pages/Index.tsx:22-24 | exactly the question categories other than M, E and N |
| Navigation.CustomCategories | src/pages/Index.tsx:21-25 | lists no built-in tag and every other tag a loaded question uses |
| Navigation.NonDefaultCategoriesAppend | src/pages/Index.tsx:22-23 | the category list of two concatenated question lists is the concatenation of their category lists |
| Navigation.FirstIndexOrder | src/pages/Index.tsx:22-24 | a tag listed before another occurs on a question before any question carrying the other tag |
| Navigation.CustomCategoriesContract | src/pages/Index.tsx:21-25 | no built-in tag, every other used tag once; of two listed tags, some question carries the earlier one before any question carries the later one |
| Navigation.IndexPage.constructor | src/pages/Index.tsx:15-18 | loading, no questions, index 0, filter "all" |
| Navigation.IndexPage.Loaded | src/pages/Index.tsx:38-51 | the loaded list replaces the empty one, loading ends, the index stays valid |
| Navigation.IndexPage.SelectCategory | src/pages/Index.tsx:34-36 | the filter becomes the chosen category; a changed filter resets the index to 0, picking the current one again leaves the index alone |
| Navigation.IndexPage.GoToNext | src/pages/Index.tsx:62-64 | the index moves to `Next` and stays in range |
| Navigation.IndexPage.GoToPrevious | src/pages/Index.tsx:58-60 | the index moves to `Previous` and stays in range |
| Navigation.IndexPage.CurrentScreen | src/pages/Index.tsx:66-211 | spinner while loading; the no-questions screen; the filter-only screen; else the current filtered question with counter index+1 of total, and arrows exactly when there is more than one |
| QuestionForm.InitialRightWrongImages | src/components/QuestionForm.tsx:39-51 | missing pictures become "", missing icons the default icons |
| QuestionForm.InitialIconsPresent | src/components/QuestionForm.tsx:39-51 | both answer icons are always present at the start |
| QuestionForm.DefaultIconsInline | src/components/QuestionForm.tsx:36-37 | the default icons are inline data |
| QuestionForm.InitialImageAnswersAsWritten | src/components/QuestionForm.tsx:32-34 | the question's stored payload, whatever its shape, else one blank entry |
| QuestionForm.InitialImageAnswers | src/components/QuestionForm.tsx:32-34 | one blank entry only when the question has no list; an existing list, even an empty one, is kept; a stored right/wrong object gives no entries |
| QuestionForm.InitialImageAnswersAgree | src/components/QuestionForm.tsx:32-34 | the source starts from a list exactly when the question has no payload or a list, and then the corrected start is that same list |
| QuestionForm.InitialFields | src/components/QuestionForm.tsx:26-51 | text, image, type and category as given, defaulting to "", "", yes/no and "M"; the answer list and the right/wrong object are their initial values |
| QuestionForm.Submit | src/components/QuestionForm.tsx:114-143 | blank text is rejected first; then images without answers, then right/wrong with any missing picture; otherwise the question has the trimmed text, the edited or fresh id, no empty image, and only its type's payload |
| QuestionForm.SubmittedShape | src/components/QuestionForm.tsx:132-140 | a submitted question never has an empty text or image, and carries exactly the payload its type needs |
| QuestionForm.Without | src/components/QuestionForm.tsx:95-97 | exactly the entries with another id remain |
| QuestionForm.WithoutAppend | src/components/QuestionForm.tsx:95-97 | removal keeps the order of what remains |
| QuestionForm.WithoutAbsent | src/components/QuestionForm.tsx:95-97 | removing an unused id changes nothing |
| QuestionForm.WithoutPresent | src/components/QuestionForm.tsx:95-97 | with distinct ids, removing a present id removes exactly one entry |
| QuestionForm.AddThenRemove | src/components/QuestionForm.tsx:88-97 | removing the entry just added restores the list |
| QuestionForm.Updated | src/components/QuestionForm.tsx:99-103 | only the named field of entries with that id changes |
| QuestionForm.RemoveAfterUpdate | src/components/QuestionForm.tsx:95-103 | editing an entry and then deleting it equals deleting it |
| QuestionForm.AnswerTypeChoices | src/components/QuestionForm.tsx:236-405 | images is always offered; yes/no except on the right/wrong template; right/wrong except on the default template |
| QuestionForm.Form.constructor | src/components/QuestionForm.tsx:24-58 | the fields start at `InitialFields`, with the cropper and the custom input closed |
| QuestionForm.Form.SubmitNow | src/components/QuestionForm.tsx:114-143 | refused for blank text, then for images without answers, then for an incomplete right/wrong object; otherwise the question has the edited question's non-empty id or the fresh one, the trimmed text, the current type and category, and only its type's payload |
| QuestionForm.Form.SetText | src/components/QuestionForm.tsx:197 | the text field changes |
| QuestionForm.Form.SetAnswerType | src/components/QuestionForm.tsx:237 | the type changes to one of the tabs the template shows |
| QuestionForm.Form.SetCategory | src/components/QuestionForm.tsx:152 | the category changes |
| QuestionForm.Form.ToggleCustomInput | src/components/QuestionForm.tsx:169 | the custom input is shown or hidden |
| QuestionForm.Form.SetCustomCategory | src/components/QuestionForm.tsx:179 | the custom input's text changes |
| QuestionForm.Form.AddImageAnswer | src/components/QuestionForm.tsx:88-93 | one blank entry is appended; the others stay, in order |
| QuestionForm.Form.RemoveImageAnswer | src/components/QuestionForm.tsx:95-97 | the list becomes `Without` of its old value |
| QuestionForm.Form.UpdateImageAnswer | src/components/QuestionForm.tsx:99-103 | the list becomes `Updated` of its old value |
| QuestionForm.Form.OpenCropper | src/components/QuestionForm.tsx:60-68 | the cropper opens on the picture for an offered target |
| QuestionForm.Form.CancelCrop | src/components/QuestionForm.tsx:578-581 | the cropper closes and forgets its picture |
| QuestionForm.Form.HandleCropComplete | src/components/QuestionForm.tsx:70-86 | the URL goes into exactly the slot the target names, every other slot is unchanged, and the cropper closes |
| QuestionForm.Form.HandleAddCustomCategory | src/components/QuestionForm.tsx:105-112 | blank input or a missing callback changes nothing; otherwise the trimmed name is passed on and selected, and the input is cleared and hidden |
| SettingsPage.DefaultQuestion | src/pages/Settings.tsx:101-110 | a ROR template is rightwrong "Right or Wrong?" with no list; a default template is yesno "New Question" with an empty list; both have category "M" and no pictures |
| SettingsPage.RorTemplateNeedsPictures | src/pages/Settings.tsx:101-114 | a ROR template saved at once is refused until both prompt pictures are added |
| SettingsPage.NewQuestionFieldsSubmit | src/components/QuestionForm.tsx:114-143 | yes/no fields with the text "New Question", no picture and category "M" submit as that question under the given id, or the fresh one when the id is empty |
| SettingsPage.DefaultTemplateSubmits | src/pages/Settings.tsx:101-114 | a default template saved at once becomes a yes/no "New Question" without payloads, under its template id |
| SettingsPage.WithCustomCategory | src/pages/Settings.tsx:38-44 | the name is appended only when absent |
| SettingsPage.CustomCategoryAddition | src/pages/Settings.tsx:38-44 | the list stays free of repeats, and adding a name twice is adding it once |
| SettingsPage.AnswerTypeLabel | src/pages/Settings.tsx:261 | the yes/no label exactly for yesno questions, the images label for every other type |
| SettingsPage.RightWrongListedAsImages | src/pages/Settings.tsx:261 | right/wrong and images questions get the same "settings.images" label |
| SettingsPage.EditorTitleAsWritten | src/pages/Settings.tsx:126-146 | the ROR title for the ROR template, the add title for the default template |
| SettingsPage.EditTitleUnreachable | src/pages/Settings.tsx:126-146 | the heading as written is never the edit title |
| SettingsPage.EditorTitle | src/pages/Settings.tsx:126-146 | the edit title exactly when not adding; when adding, the template's title as the source picks it |
| SettingsPage.Settings.constructor | src/pages/Settings.tsx:22-36 | loading, nothing open, the saved custom categories when present |
| SettingsPage.Settings.LoadQuestions | src/pages/Settings.tsx:46-56 | the fetched list replaces the shown one and loading ends |
| SettingsPage.Settings.HandleAddCustomCategory | src/pages/Settings.tsx:38-44 | the list becomes `WithCustomCategory`; storage is written only when the name was new |
| SettingsPage.Settings.CreateDefaultQuestion | src/pages/Settings.tsx:101-115 | the template is chosen, adding is on, and the template record is open for editing |
| SettingsPage.Settings.StartEdit | src/pages/Settings.tsx:269 | the question is opened for editing |
| SettingsPage.Settings.StartAdding | src/pages/Settings.tsx:227 | adding is on |
| SettingsPage.Settings.HandleSave | src/pages/Settings.tsx:62-81 | update exactly when a question is open, add otherwise; success reloads and closes the editor; failure leaves the list and the editor state; saving ends either way |
| SettingsPage.Settings.HandleDelete | src/pages/Settings.tsx:83-94 | the store is asked exactly when the user confirms; only a confirmed, successful delete reloads the list |
| SettingsPage.Settings.CloseEditor | src/pages/Settings.tsx:133-156 | go-back and cancel both close the editor and reset the template to default |
| SettingsPage.EditorStartsFromObject | src/lib/storage.ts:47 | a right/wrong question saved and read back opens an editor that, as written, starts its answer list from the right/wrong object; the corrected start is empty |
| SettingsPage.Settings.CurrentTitle | src/pages/Settings.tsx:126-146 | the edit title exactly when not adding; when adding, the ROR title exactly for the ROR template |
| SettingsPage.Settings.CurrentView | src/pages/Settings.tsx:117-125 | loading wins; the editor is shown exactly when adding or a question is open |
| SettingsPage.SaveNewTemplate | src/pages/Settings.tsx:62-114 | a template opened from the menu is saved through `updateQuestion` |

## Left out

- `src/components/ImageCropper.tsx` is not part of this model. Its crop is floating-point canvas arithmetic; the model receives the cropped data URL.
- `src/lib/speech.ts` is not part of this model. Speaking is a record in `spoken`. Whether speech is available is a parameter of `Present`.
- The database, the hosting service and local storage are parameters, as described above. Their own behaviour is not modelled.
- `FileReader`, `toast`, `navigate` and the language-change toast are left out. A rejection is modelled as its translation key.
- Storage.UploadImage: the timestamp prefix on the uploaded file name is left out, because it comes from the clock.
- Storage.UploadAnswers: `Promise.all` runs the uploads concurrently. The model gives None when any upload fails and does not say which other uploads already happened.
- Storage.SaveQuestion: the overwrite of the caller's right/wrong object is returned as `rightWrongAfter`. The model does not carry it back into the form that handed the object over (aliasing).
- Storage.AsRightWrong: reading a list through the right/wrong cast yields undefined fields. The model uses "", because every use in the app tests them for truthiness or shows them as a picture.
- QuestionCard.Options: an images question whose `imageAnswers` holds the right/wrong object throws at render in the source. The model shows no options.
- Real time and React scheduling are left out. The 1500 ms delay is a constant on the timer callback. The render between a filter change and the index reset is merged into `SelectCategory`. That render is not harmless in the source: it reads `filteredQuestions[currentIndex]` with the old index (src/pages/Index.tsx:135), and when the new list is shorter `QuestionCard` receives undefined and throws at `question.id` (src/components/QuestionCard.tsx:34). The model does not show that intermediate state.
- Reveal callbacks carry no question identity, so a stale one may still enlarge the picture. This is modelled as written; nothing discards it.
- The Settings screen's `loadQuestions` error branch is not modelled. `getQuestions` never throws, so the branch cannot run.
- A malformed saved custom-category list (a throw in `JSON.parse`) is not modelled. The constructor receives the parsed list.
- Disabled buttons while saving, CSS classes and animations are left out.
- Only the translation keys the modelled members use are kept.

## Findings

| source | as written | input that shows it | evidently intended | confidence | as-written member | corrected member |
|---|---|---|---|---|---|---|
| src/contexts/LanguageContext.tsx:175-178 | any non-empty saved value becomes the language, unchecked | a saved "app-language" of "fr": `t` then indexes a missing table and throws | a value naming neither language falls back to Hindi | high, not executed | Language.UnknownSavedLanguageIsKept | Language.InitialLanguage |
| src/components/QuestionForm.tsx:32-34 | the answer-list state starts from `question.imageAnswers` whatever it holds; every right/wrong question read back holds its right/wrong object there (src/lib/storage.ts:47), so the state is an object, and the list operations (`.map` at src/components/QuestionForm.tsx:253 and 409, `.filter`, `.length`) assume a list | editing a saved right/wrong question and opening its images tab: `imageAnswers.map` is not a function and the form throws | start from a list; a stored right/wrong object is no list of answers | high that the state holds the object, medium that the throw is reached (it depends on when the tab component mounts the images panel); not executed | SettingsPage.EditorStartsFromObject | QuestionForm.InitialImageAnswers |
| src/pages/Settings.tsx:126-146 | `isTemplate` holds for both template values, which are the only ones possible, so the edit heading is never chosen (`SettingsPage.EditTitleUnreachable`) | the pencil button on a listed question (not adding, template "default") shows "Add New Question" | the edit heading when an existing question is open, the template heading when adding | high, not executed | SettingsPage.EditorTitleAsWritten | SettingsPage.EditorTitle |

`Language.LanguageProvider` starts from the corrected `Language.InitialLanguage`. `Language.InitialLanguageAgrees` shows it matches the source whenever the saved value names a language. `SettingsPage.Settings.CurrentTitle` uses the corrected `SettingsPage.EditorTitle`. `QuestionForm.InitialFields`, and with it `QuestionForm.Form`, uses the corrected `QuestionForm.InitialImageAnswers`; `QuestionForm.InitialImageAnswersAsWritten` is the source's expression, and `QuestionForm.InitialImageAnswersAgree` shows the two agree whenever the source's value is a list.
