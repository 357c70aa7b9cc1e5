# EngliBot A2 — a verified model of the quiz, the chat widget and the feedback endpoint

EngliBot A2 is a single-page site for A2-level learners of English. This project models in Dafny the three parts of it that carry logic, and proves properties of the model:

- **The module quiz** (`src/components/ModulesSection.tsx`).
  - The question bank of four modules (vocabulary, grammar, listening, pronunciation; ten questions each).
  - The single quiz panel: answers keyed by question id, the submitted flag, the score, the level label ("Inicial", "Intermedio", "Avanzado") and the rounded progress percentage.
  - The parent's `activeModuleId`, which opens and closes the panel.
  - Module `Quiz`. The panel and its parent are one class, `Quiz.QuizDialog`, whose methods update the state the way the React state setters do.
- **The feedback endpoint** (`api/send-feedback.ts`).
  - `esc` is proved equal to a per-character escape. It is proved to remove every `<`, `>` and `"`, to leave plain text unchanged, and to be undone by an entity decoder.
  - The handler's ordered guard chain: 405 for a method other than POST, 400 for missing fields, 500 for a missing API key or recipient, then 200 or the production/preview error payload.
  - The e-mail the handler builds.
  - Module `Feedback`. The JSON parser and the e-mail provider are function parameters (oracles).
- **The chat widget** (`src/components/ChatSection.tsx`).
  - The append-only transcript, opened by the welcome message.
  - Sending a text turn, answered in English.
  - Recording an audio turn, answered in Spanish.
  - The voice-choice cascade `pickVoice`.
  - The speech-recognition settlement, where the first callback wins.
  - The quick suggestions.
  - Module `Chat`. The widget's state is the class `Chat.ChatSession`. The language model, the microphone, the recorder and the recognizer are parameters.

`Options` holds the `Option` datatype shared by the three modules.

Faithfulness notes:

- `String.prototype.trim` is modelled with the ECMAScript white-space and line-terminator set. `toLowerCase` is modelled on ASCII letters only.
- JavaScript numbers are modelled as exact integers and rationals; floating point is not modelled.
  - The level thresholds are stated on the exact ratio `score / total`. The verified form is the cross-multiplied inequality `score * 100 >= 85 * total`.
  - `Math.round(answered / total * 100)` is modelled as the integer `(200 * answered + total) / (2 * total)`. Its contract is the rounding bound: within half a unit of the exact percentage.
- `answers` never holds `null` in the source: `onSelect` always stores a parsed number. So "answered" is the number of keys.
- The dialog's preconditions are what its interface guarantees. The dialog is modal, so a quiz is opened only while no quiz is open. `onSelect` is wired only to the options of the open quiz's questions. The submit button exists only inside the open dialog.

## Model

| member | source | states |
|---|---|---|
| Quiz.BankWellFormed | src/components/ModulesSection.tsx:34-167 | the bank has exactly modules 1-4; in each, every answer indexes one of the question's options and no two questions share an id |
| Quiz.QuestionsFor | src/components/ModulesSection.tsx:183 | no module (null or 0) and an unknown module both give the empty list; a known module gives its bank entry |
| Quiz.QuizDialog.Score | src/components/ModulesSection.tsx:194-197 | the panel's score is 0 before submission, never above the number of questions, and, while every answer belongs to the open quiz, never above the answered count |
| Quiz.QuizDialog.Level | src/components/ModulesSection.tsx:199-204 | the panel's label is one of the three levels, always "Inicial" before submission, and "Avanzado" for a full score on a non-empty quiz |
| Quiz.QuizDialog.AnsweredCount | src/components/ModulesSection.tsx:189-192 | no stored choice is null, so the answered count is the number of answered question ids, and, with the answers inside the open quiz, at most the number of questions |
| Quiz.QuizDialog.Progress | src/components/ModulesSection.tsx:226 | the panel's progress is 0 with no questions, within 0..100 while every answer belongs to the open quiz, and 100 once as many questions are answered as there are |
| Quiz.QuizDialog.SubmitEnabled | src/components/ModulesSection.tsx:283-284 | the submit button is enabled only before submission, and, with the answers inside the open quiz, only when every question of the quiz has an answer |
| Quiz.CorrectCount | src/components/ModulesSection.tsx:196 | the reduce counts at most one point per question, so the count never exceeds the number of questions |
| Quiz.CorrectCountIsCorrectPositions | src/components/ModulesSection.tsx:194-197 | the reduce equals the number of positions whose stored answer equals the key |
| Quiz.CorrectCountAtMostAnswered | src/components/ModulesSection.tsx:189-197 | with distinct ids, the score is at most the number of answered questions of this quiz, which is at most the number of answers |
| Quiz.ScoreOf | src/components/ModulesSection.tsx:194-197 | 0 before submission; after it, the number of correctly answered positions, never more than the total |
| Quiz.LevelFor | src/components/ModulesSection.tsx:199-204 | "Avanzado" iff the percentage is at least 85; "Intermedio" iff it is at least 60 and below 85; "Inicial" iff it is below 60 or the quiz is empty |
| Quiz.ProgressPercent | src/components/ModulesSection.tsx:226 | 0 for an empty quiz; otherwise within half a point of 100·answered/total, and between 0 and 100 when answered does not exceed total |
| Quiz.AnsweredWithinQuizBounds | src/components/ModulesSection.tsx:188-192 | when every answer belongs to a question of the quiz, answered count ≤ total, progress stays in 0..100 and the score ≤ answered count |
| Quiz.QuizDialog.constructor | src/components/ModulesSection.tsx:185-186 | the panel starts closed, with no answers and not submitted, so the dialog invariant `Valid` holds (a closed dialog holds a reset panel; every answer belongs to the open quiz) |
| Quiz.QuizDialog.OpenQuiz | src/components/ModulesSection.tsx:367 | opening a module's quiz on the closed (modal) dialog makes it the active module and the panel open, with no answers, not submitted, and `Valid` kept |
| Quiz.QuizDialog.OnSelect | src/components/ModulesSection.tsx:218-220 | the answer map is updated at one key; every other answer is kept, the answered count grows by one exactly when the key is new, and, since only questions of the open quiz are offered, `Valid` is kept |
| Quiz.QuizDialog.HandleSubmit | src/components/ModulesSection.tsx:222-224 | the open panel becomes submitted and `Valid` is kept |
| Quiz.QuizDialog.PressSubmit | src/components/ModulesSection.tsx:283-285 | the submit button acts exactly when it is shown and enabled (not yet submitted, every question answered), keeping `Valid` |
| Quiz.QuizDialog.ResetState | src/components/ModulesSection.tsx:206-209 | answers are cleared and the submitted flag lowered, which establishes `Valid` |
| Quiz.QuizDialog.HandleClose | src/components/ModulesSection.tsx:211-216 | closing resets the panel and clears the active module (the parent's `closeQuiz`), so the panel is open afterwards exactly when the request was to open it and it already was; an open request changes nothing; `Valid` is kept |
| Feedback.Esc | api/send-feedback.ts:5-11 | the four global replacements, `&` first, equal escaping each character on its own, and leave no `<`, `>` or `"` |
| Feedback.EscIdentityOnPlainText | api/send-feedback.ts:5-11 | text without `&`, `<`, `>`, `"` is returned unchanged |
| Feedback.EscRoundTrip | api/send-feedback.ts:6-10 | decoding the four entities recovers the original text from its escape (no double escaping is lost) |
| Feedback.FormFields | api/send-feedback.ts:18-28 | a missing body and an empty text body give no fields; an object body gives its own fields; a text body gives what the parser yields, or no fields when parsing throws |
| Feedback.UnparseableBodyIsIncomplete | api/send-feedback.ts:19-22 | a text body the parser rejects always ends in the missing-fields reply |
| Feedback.OrElse | api/send-feedback.ts:37-38 | the configured sender when set and non-empty, else the default sender |
| Feedback.MessageHtmlPerCharacter | api/send-feedback.ts:55 | the message is escaped character by character with each line feed turned into `<br/>`, and no line feed is left |
| Feedback.FeedbackHtml | api/send-feedback.ts:50-56 | the body is the fixed template around the name and the address escaped character by character and the message escaped with its line feeds turned into `<br/>` |
| Feedback.FeedbackEmail | api/send-feedback.ts:37-49 | the e-mail goes to the configured recipient, replies to the visitor's address, comes from the configured sender or the default one, is titled "Nuevo testimonio - " and the name, and carries the escaped body |
| Feedback.SendFailure | api/send-feedback.ts:60-67 | outside production the reply carries the error's message (or its text when the message is empty) and the error itself; in production only "Failed to send email" |
| Feedback.Handler | api/send-feedback.ts:13-68 | the guards in order 405, 400, 500 (API key), 500 (recipient); otherwise exactly the built e-mail is sent and the reply is 200 iff the send returned |
| Chat.SkipWhite | src/components/ChatSection.tsx:122 | the start of the trimmed text: every character before it is white space and the character there is not |
| Chat.SkipWhiteBack | src/components/ChatSection.tsx:122 | the end of the trimmed text: every character from it on is white space and the one before it (inside the text) is not |
| Chat.TrimKeepsMiddle | src/components/ChatSection.tsx:122 | `trim` returns the middle of the string between a white prefix and a white suffix, and a non-empty result neither starts nor ends with white space |
| Chat.TrimEmptyIffBlank | src/components/ChatSection.tsx:122 | the draft trims to empty iff it consists only of white space |
| Chat.EnglishReply | src/components/ChatSection.tsx:134-143 | the model's text trimmed, or the fixed English apology when the call throws |
| Chat.SpanishReply | src/components/ChatSection.tsx:210-219 | the model's text trimmed, or the fixed Spanish apology when the call throws |
| Chat.ReplyIsTrimmed | src/components/ChatSection.tsx:139 | a non-empty model reply neither starts nor ends with white space |
| Chat.ToLower | src/components/ChatSection.tsx:52 | lower-casing keeps the length, maps each ASCII capital to its small letter and keeps every other character |
| Chat.ContainsIsIncludes | src/components/ChatSection.tsx:47 | `includes` holds exactly when the needle occurs at some position of the haystack |
| Chat.ChosenVoice | src/components/ChatSection.tsx:44-54 | the cascade picks no voice exactly when there are no voices, and otherwise one of the voices |
| Chat.Find | src/components/ChatSection.tsx:47-52 | `find` returns the first voice meeting the criterion, and none exactly when no voice meets it |
| Chat.PickVoice | src/components/ChatSection.tsx:44-54 | the loop over preferences returns the cascade's choice; it returns no voice iff there are no voices, and otherwise one of the voices |
| Chat.EarliestPreferenceWins | src/components/ChatSection.tsx:46-49 | the first voice matching the earliest matched preference is chosen, whatever the language and name fallbacks say |
| Chat.NoPreferenceFallsBack | src/components/ChatSection.tsx:50-53 | with no preference matched: the first voice in the fallback language is chosen; if none is in that language, the first voice whose lower-cased name contains "female"; if neither exists, the first voice |
| Chat.FirstAlternative | src/components/ChatSection.tsx:188-199 | a result yields a transcript iff the first result has an alternative, and then it is that alternative |
| Chat.Transcribe | src/components/ChatSection.tsx:180-208 | no recognizer or a throwing start settles with no transcript; a session settles iff an event fires, with the value of the first event |
| Chat.SuggestionFor | src/components/ChatSection.tsx:110-118 | a known action gives its draft text, an unknown one the empty draft |
| Chat.SuggestionsAreSendable | src/components/ChatSection.tsx:103-118 | every quick-suggestion button fills the draft with text that a send accepts (not blank) |
| Chat.ChatSession.constructor | src/components/ChatSection.tsx:86-93 | the transcript starts as the welcome message alone, with an empty draft, not recording and an empty buffer |
| Chat.ChatSession.SetInput | src/components/ChatSection.tsx:270 | typing replaces the draft |
| Chat.ChatSession.HandleQuickSuggestion | src/components/ChatSection.tsx:110-118 | the draft becomes the action's suggestion and nothing is sent |
| Chat.ChatSession.HandleSendMessage | src/components/ChatSection.tsx:121-132 | a draft that trims to empty changes nothing; otherwise the untrimmed draft and then one English reply are appended, the draft is cleared and the reply is spoken with the English voice settings; the welcome message stays first |
| Chat.ChatSession.HandleAudioButton | src/components/ChatSection.tsx:146-177 | while recording: stop and lower the flag, nothing appended; otherwise start recording with an empty buffer, or append exactly one microphone error message |
| Chat.ChatSession.OnDataAvailable | src/components/ChatSection.tsx:155-156 | only present, non-empty data is appended to the buffer |
| Chat.ChatSession.OnRecorderStop | src/components/ChatSection.tsx:157-169 | the audio message is appended; once recognition settles, exactly one Spanish reply, asked with the transcript or "(sin transcripción)", is appended and spoken |

## Left out

- Rendering (JSX, classes, icons, auto-scroll, the dialog title and description): no logic is modelled there beyond what the table names.
- Question prompts and explanations are display-only. The bank keeps each question's id, options and key.
- Module cards, level badges and the other page sections are not part of this model. This covers Hero, About, Tests, Progress, Testimonials, Header, Footer, the page `Index` and `api/debug-env.ts`.
- Float arithmetic: percentages are exact rationals or integers (see above), so floating-point rounding at the thresholds is not modelled.
- `Date.now()` and `new Date()`: ids keep the clock reading as an opaque parameter plus the tag, and message timestamps are dropped.
- Asynchrony and React batching: each handler runs to completion as one step. The interleaving of a second send while a reply is pending is not modelled (the source has no in-flight guard).
- Gemini, Resend, `JSON.parse`, `getUserMedia`, `MediaRecorder`, `Blob`/`URL.createObjectURL` and `speechSynthesis` are oracles or parameters. `speak` is modelled as the `SpeechRequest` it would issue. Waiting for `voiceschanged` is not modelled.
- Chat.Transcribe: the 6-second `stop()` timer is assumed to end a session with an end event, which is in its event list. A session that never fires any event stays unsettled.
- Feedback.FormFields: non-string JSON field values are not modelled. A field is a string or absent.
- Feedback.Handler: `console.error` logging is left out.
- Chat.ToLower: `toLowerCase` is modelled for ASCII letters only, so it differs from the browser on letters such as "É"; the "female" step of `pickVoice` is unaffected, because no other character lower-cases to a letter of "female".
- Chat.ChatSession.HandleSendMessage: the two appends the source makes before and after awaiting the model are one step that appends both messages.
- The pronunciation score, the tests page and progress tracking have no logic in these files and are not part of this model.
