# Quiz session engine — a Dafny model

This project models the quiz session engine of a one-question-at-a-time flashcard study app. The engine's state is:

- the question list;
- a cursor `index`;
- a mode (`"all"` or `"wrongs"`);
- an answer lock;
- three progress sets: `wrongSet` and `answeredWrongs` hold question uids, and `answeredAll` holds indices;
- per-question timings.

The engine is written twice: once as ES modules (js/quiz.js, js/utils.js, js/storage.js, js/analytics.js) and once as a single closure in app.js. A smaller random-card page lives in quiz/app.js.

Every operation is a pure transition over an immutable `Model.State`. `Math.random` draws and `Date.now` readings are parameters.

| module | file | what it holds |
|---|---|---|
| `Options` | options.dfy | `Option` |
| `Text` | text.dfy | whitespace, ASCII upper-casing, `trim`, decimal numerals |
| `Numeric` | numeric.dfy | JavaScript `%` (truncating), `Math.round` of a quotient |
| `Keys` | keys.dfy | `getAnswerKey` and `getOptionKey` |
| `Escape` | escape.dfy | both `escapeHtml` variants and the HTML entity decoding they are undone by |
| `RichText` | richtext.dfy | `formatRichText` of quiz/app.js |
| `Model` | model.dfy | mode, question, analytics entry and session state |
| `Quiz` | quiz.dfy | js/quiz.js: active list, progress, pick, option marks, render, navigation, shuffle, reset |
| `App` | app.dfy | the closure's variants: unguarded steps, mode toggle, loader with uid numbering |
| `Storage` | storage.dfy | `saveState` / `loadState` as a state-to-record mapping |
| `Analytics` | analytics.dfy | statistics panel, question timer, dashboard aggregates |
| `Flashcard` | flashcard.dfy | quiz/app.js: random card, flip, one-shot pick, marks, start-up |

app.js repeats the functions `getActiveList`, `updateProgress`, `onOptionPick` and `applyOptionResult` of js/quiz.js (app.js:123-190), up to the save and display calls: app.js `onOptionPick` does not call `saveState`, and its `updateProgress` has no editor counter to write. Both copies are modelled once, by `Quiz.ActiveList`, `Quiz.Progress`, `Quiz.Pick` and `Quiz.OptionMarks`. app.js `render` is the js/quiz.js one without the timer and without the finish check; `App.RenderAgrees` proves that the two coincide apart from the timer field.

## Model

| member | source | states |
|---|---|---|
| Text.UpperIdempotent | js/utils.js:12 | Upper-casing twice is upper-casing once. |
| Keys.AnswerKey | js/utils.js:11-15 | The key exists exactly when the first non-space character of `String(ans)` is an ASCII letter. It is then that letter upper-cased, a single character A-Z. |
| Keys.AnswerKeyIgnoresCase | js/utils.js:12 | Texts that upper-case to the same string have the same answer key. |
| Keys.ParenKey | js/utils.js:19-20 | A string option's key, when there is one, is a single upper-case letter. |
| Keys.ParenKeyMatches | js/utils.js:19-20 | A string option has a key if and only if its first non-space character is a letter followed, after optional whitespace, by `)`. The key is that letter upper-cased. |
| Keys.ParenKeySound | js/utils.js:19-20 | A key found by the string rule comes from a letter-then-parenthesis prefix. |
| Keys.ParenKeyComplete | js/utils.js:19-20 | Every letter-then-parenthesis prefix yields its letter as the key. |
| Keys.ParenKeyExamples | js/utils.js:19-20 | `"Cat"` has no key; `"c )x"` has key `"C"`. |
| Keys.OptionKey | js/utils.js:17-30 | Non-string, non-object inputs have no key. An object with neither field has no key. A truthy label gives an upper-cased, trimmed key of any length. Any other key is one upper-case letter. |
| Keys.LabelIgnoresText | js/utils.js:23 | A truthy `label` decides the key on its own: `String(label).trim().toUpperCase()`, whatever `text` holds. |
| Keys.TextFallback | js/utils.js:24-27 | Without a label, an object's key is the string rule applied to its `text`. |
| Escape.EscapeHtml | js/utils.js:4-9 | The output has no `<` or `>`. Every `&` in it starts one of the entities written. Its length is the input length plus 4 per `&` and 3 per `<` and `>`. Decoding it gives the input back. |
| Escape.EncodeLength | js/utils.js:5-8 | The escaped length is the input length plus the entity overhead per escaped character. |
| Escape.DecodeEncode | js/utils.js:5-8 | Decoding the escaped text gives the input back, for both escapers. So every other character passes through in order, and nothing is double-escaped. |
| Escape.EscapeHtmlStrict | quiz/app.js:29-36 | The output has none of `<`, `>`, `"`, `'`, and decoding it gives the input back. |
| Escape.EncodeConcat | js/utils.js:5-8 | Escaping distributes over concatenation. |
| Escape.PreprocessShape | quiz/app.js:71-80 | `Preprocess` models what the HTML parser does to markup set through `innerHTML` before an attribute value is stored: CR LF and a lone CR become LF, and NUL becomes U+FFFD. Its result has no CR or NUL, is never longer than the input, has a double quote only where the input has one, and equals the input when that has no CR or NUL. |
| Escape.PreprocessEncode | quiz/app.js:73-76 | Escaping and the parser's rewriting commute, because the escapers never write CR or NUL. |
| RichText.FormatRichText | quiz/app.js:39-55 | The output has no newline. Every angle bracket in it belongs to a tag the formatter wrote, so no `<` or `>` of the input survives. |
| RichText.CodeBlocksMarkup | quiz/app.js:43-46 | The fenced-block pass keeps text free of stray angle brackets. |
| RichText.InlineCodeMarkup | quiz/app.js:49 | The inline-code pass keeps text free of stray angle brackets. |
| RichText.NewlinesMarkup | quiz/app.js:52 | The newline pass keeps text free of stray angle brackets. |
| Model.ParseMode | js/storage.js:26 | `data.mode \|\| "all"`: the empty name gives "all"; "wrongs" gives the wrongs mode; any other name is kept. |
| Model.ParseModeName | js/storage.js:26 | Naming a valid mode and reading the name back gives the mode. |
| Quiz.WrongOnes | js/quiz.js:10 | The filter keeps only questions whose uid is in the set. It is empty exactly when no question's uid is. |
| Quiz.WrongOnesCount | js/quiz.js:10 | The filter keeps every copy of a wrong question and nothing else, counted as a multiset. |
| Quiz.WrongOnesSubseq | js/quiz.js:10 | The filter keeps the questions it keeps in their original order. |
| Quiz.ActiveList | js/quiz.js:8-14 | The active list is empty iff the question list is. Outside "wrongs" mode it is the whole list. |
| Quiz.ActiveListSubseq | js/quiz.js:8-14 | The active list is always a subsequence of `questions`. |
| Quiz.ActiveListWrongs | js/quiz.js:9-11 | In "wrongs" mode the list is exactly the wrongly answered questions, if any; otherwise every question. |
| Quiz.CountInFilter | js/quiz.js:31-34 | The `reduce` counter equals the length of the filter by `answeredWrongs`. |
| Quiz.Done | js/quiz.js:27-35 | `done` is the size of `answeredAll` in "all" mode. Otherwise it counts the active questions answered, and never exceeds the list. |
| Quiz.Progress | js/quiz.js:23-37 | `total` is the active length, or 1 for an empty list. `pct` is `100·done/total` rounded to the nearest integer, halves up. |
| Quiz.DoneWithinTotal | js/quiz.js:23-35 | In a settled state (non-negative cursor, in-range answered indices), `done` never passes the list length. |
| Quiz.ProgressInRange | js/quiz.js:37 | In a settled state the percentage is within 0..100, and 0 on an empty list. |
| Quiz.UnsettledProgress | js/quiz.js:25-37 | An empty list with a stale answered index shows 100%, so the bound needs settled states. |
| Quiz.Current | js/quiz.js:119 | There is a current question exactly when the cursor is inside the active list. |
| Quiz.Pick | js/quiz.js:110-136 | A pick while locked, or with an empty key, changes nothing. Otherwise it locks. It never removes anything from a set. It never touches the questions, cursor, mode, analytics or timer, so no time is recorded. |
| Quiz.PickRecords | js/quiz.js:116-130 | An accepted pick adds the cursor to `answeredAll` in "all" mode, or the uid to `answeredWrongs` otherwise. It adds the uid to `wrongSet` exactly when both keys exist and differ. Nothing else is added. |
| Quiz.PickAddsWrong | js/quiz.js:128-130 | A mismatching pick adds exactly the current uid to the wrong set. |
| Quiz.PickLocks | js/quiz.js:111 | After a pick, any second pick without navigating changes nothing. |
| Quiz.PickSettled | js/quiz.js:122-126 | A pick on the shown card keeps a settled state settled. |
| Quiz.MarkFor | js/quiz.js:100-107 | An option is never both correct and wrong. It is correct only against an existing correct key. It is wrong only when it is the picked one. The picked option shows exactly one of the two. |
| Quiz.OptionMarks | js/quiz.js:95-108 | Every option is disabled. An option is correct iff its upper-cased key equals the current question's answer key. |
| Quiz.PickMarksLoseCorrect | js/quiz.js:110-136 | As written, on the example state a wrong pick leaves no option marked correct although the question's answer key is "A". |
| Quiz.PickMarks | js/quiz.js:95-108 | Judged against the answered question: correct iff the key matches the answer key; wrong iff picked and not correct. |
| Quiz.PickMarksShowCorrect | js/quiz.js:104 | Judged against the answered question, the option carrying the answer key is always marked correct. |
| Quiz.AttrValue | js/quiz.js:67 | The attribute value is the written text up to its first `"` (all of it when there is none), after the parser's CR and NUL rewriting. |
| Quiz.AttrValueCut | js/quiz.js:67 | A quoted attribute value ends at its first `"`, whatever follows it; the parser then rewrites CR and NUL in what is kept. |
| Quiz.DataKeyCutAtQuote | js/quiz.js:61-90 | With the three-character escaper, a key `a"b` is read back from `data-key` as `a`, with the parser's rewriting applied (exactly `a` when it has no CR or NUL). |
| Quiz.QuotedLabel | js/quiz.js:61-90 | The option labelled `A"B` has key `A"B` but is picked as `A`. |
| Quiz.DataKey | js/quiz.js:61-90 | With the five-character escaper, the `data-key` reads back as the option's key after the parser's CR and NUL rewriting, and exactly as the key when it holds neither. |
| Quiz.Screen | js/quiz.js:158-191 | The empty-list screen appears iff there are no questions. A card is shown only at an index inside the active list. The finish screen appears only when `done` has reached the list length. |
| Quiz.Render | js/quiz.js:158-224 | Only the cursor, the lock and the timer change. An in-range cursor is kept; one past the end goes to 0 (not to the last card). The lock is cleared. The timer restarts only when a card is shown. |
| Quiz.RenderIdempotent | js/quiz.js:158-224 | Rendering twice at the same time is rendering once. |
| Quiz.Next | js/quiz.js:232-238 | On an empty list nothing changes. Otherwise the cursor steps forward by one, wrapping to 0, and stays within the list. |
| Quiz.Prev | js/quiz.js:240-246 | On an empty list nothing changes. Otherwise the cursor steps back by one, wrapping to the last card, and stays within the list. |
| Quiz.PrevUndoesNext | js/quiz.js:232-246 | `prev` after `next` returns to the same card. |
| Quiz.NextUndoesPrev | js/quiz.js:232-246 | `next` after `prev` returns to the same card. |
| Quiz.NavigationSettled | js/quiz.js:158-246 | Render and both steps keep a settled state settled. |
| Quiz.DrawOther | js/quiz.js:251-252 | The retry loop returns the first draw that differs from the cursor, and it lies in the list. |
| Quiz.RandomNext | js/quiz.js:248-256 | On a list of one or none nothing changes. Otherwise the cursor moves to a different in-range card, and only the cursor, lock and timer change. |
| Quiz.FisherYates | js/quiz.js:259-262 | The swap loop is a permutation: same length, same multiset. The last slot receives the first draw's question. |
| Quiz.ShuffleCurrent | js/quiz.js:258-267 | The questions are permuted; the mode becomes "all" and the cursor 0. The progress sets and the analytics map are kept. The result is the render of that state, so the lock is cleared on a non-empty list and the timer restarts only on a card. |
| Quiz.ResetAll | js/quiz.js:269-278 | All three sets are emptied, mode "all", cursor 0, questions unchanged. Progress shows 0 of them at 0%. The first card, or the empty-list screen, is shown. |
| App.Render | app.js:210-243 | As in the module engine, but with no timer. An empty list changes nothing. |
| App.RenderAgrees | app.js:210-243 | The closure's render equals the module's render apart from the timer field. |
| App.Next | app.js:251-255 | With no empty guard, and so for a non-empty list only: step forward with wrap-around, staying in range. |
| App.Prev | app.js:257-261 | With no empty guard: step back with wrap-around, staying in range. |
| App.StepsAgree | app.js:251-261 | On a non-empty list the closure's steps equal the module's steps apart from the timer. |
| App.PrevUndoesNext | app.js:251-261 | `prev` after `next` returns to the same card. |
| App.RandomNext | app.js:263-271 | On a list of two or more the cursor moves to a different in-range card; otherwise nothing changes. |
| App.ShuffleCurrent | app.js:273-281 | A permutation of the questions; mode "all", cursor 0, sets, analytics and timer kept. The result is the closure's render of that state, which clears the lock on a non-empty list. |
| App.ResetAll | app.js:283-291 | Clears the three sets, mode "all", cursor 0, questions unchanged, progress 0%. |
| App.Toggle | app.js:389-394 | "all" becomes "wrongs" and anything else becomes "all". The cursor goes to 0. Questions and sets are kept. |
| App.ToggleTwice | app.js:389-394 | Toggling twice from "all" or "wrongs" restores the mode, and gives the first card rendered afresh. |
| App.Run | app.js:165-190 | Over any run of picks, steps and toggles, the questions stay the same and none of the three progress sets loses a member. |
| App.FirstNotOk | app.js:319-321 | The first failed response is the one reported. |
| App.AssignUids | app.js:326-329 | The i-th merged question gets uid `q_{i+1}`; all other fields are kept. |
| App.UidsDistinct | app.js:326-329 | Different positions get different uids. |
| App.Load | app.js:300-332 | With no files, the questions are emptied and the sets cleared. The load fails exactly when some file's response is not ok or its body does not parse. A failed response is reported with the first such file in selection order, as the `forEach` throws there. Otherwise the questions are the files' questions concatenated in order and numbered by position, the sets are cleared, the mode is "all" and the cursor is 0. |
| App.LoadedUidsDistinct | app.js:326-329 | After a successful load no two questions share a uid. |
| App.LoadTwice | app.js:300-332 | Loading the same files again gives the same state, uids included. |
| Storage.Enumerate | js/storage.js:6-8 | `Array.from(set)` lists every member exactly once. |
| Storage.Save | js/storage.js:4-15 | The record holds the three sets as duplicate-free lists with the same members. It also holds the cursor, the mode name, the theme (or "default") and the analytics map. |
| Storage.LoadTheme | js/storage.js:28-31 | A truthy saved theme replaces the page theme, with "default" removing it. Otherwise the page theme stays. |
| Storage.Load | js/storage.js:17-35 | A vacant or unparsable slot changes nothing. Otherwise every progress field is taken from the record, unchecked, with the defaults for missing fields. Questions, lock and timer are untouched. A held record sets the theme by the `LoadTheme` rule. |
| Storage.LoadSaved | js/storage.js:5-27 | Loading what was saved restores the three sets, the cursor, the mode and the analytics. The theme comes back up to the "default" spelling. |
| Storage.LoadDefaults | js/storage.js:22-27 | An empty record gives empty sets, cursor 0, mode "all" and no analytics. |
| Analytics.Accuracy | js/analytics.js:9-12 | The accuracy is 0 before any answer. Otherwise it is `100·(answered − wrong)/answered` rounded. |
| Analytics.AccuracyInRange | js/analytics.js:9-12 | With no more wrong answers than answered cards, the accuracy lies in 0..100. |
| Analytics.AccuracyNegative | js/analytics.js:9-12 | Nothing clamps it: one answered card and two wrong ones show -100%. |
| Analytics.AccuracyAllRight | js/analytics.js:9-12 | With nothing wrong and something answered, the accuracy is 100%. |
| Analytics.UpdateStats | js/analytics.js:6-18 | The panel shows the question count, the answered count, the accuracy and the wrong count. |
| Analytics.RecordQuestionTime | js/analytics.js:24-41 | Without a start time nothing changes. Otherwise the entry for the id is created at zero if missing. It gains one attempt and the elapsed time, keeps `correct`, and every other id is untouched. |
| Analytics.RecordTwice | js/analytics.js:37-38 | Two recordings add two attempts and both elapsed times. |
| Analytics.ObjectValues | js/analytics.js:44 | `Object.values` lists the values along some order of the keys that names every key exactly once, so each value appears as often as keys hold it. |
| Analytics.ListingsAgree | js/analytics.js:44 | Two key orders list the same values the same number of times. |
| Analytics.PositiveTimesCount | js/analytics.js:44-46 | The filtered times are positive. Every positive time is kept and nothing else appears. |
| Analytics.PositiveTimesPerm | js/analytics.js:44-46 | Reordering the values only reorders the times. |
| Analytics.SumPerm | js/analytics.js:50-53 | The sum of the times does not depend on their order. |
| Analytics.MinOf | js/analytics.js:59 | `Math.min` returns a member no larger than any member. |
| Analytics.MaxOf | js/analytics.js:60 | `Math.max` returns a member no smaller than any member. |
| Analytics.TimesOf | js/analytics.js:48-63 | With no times: average and total 0, and no fastest or slowest. Otherwise the average is the rounded mean in seconds and the total the rounded sum in minutes. The fastest is the smallest time and the slowest the largest, each rounded to seconds, and fastest ≤ slowest. |
| Analytics.WeakList | js/analytics.js:66-74 | The weak-topics list has the first `min(5, n)` wrong questions in question order, each with its title cut to 50 characters. |
| Analytics.WeakRowsWrong | js/analytics.js:66-75 | At most 5 rows. Each names a question in the wrong set and shows 0% or 100%. |
| Analytics.Recommend | js/analytics.js:86-93 | Never empty. Practice is advised iff more than 3 questions are wrong, slowing down iff the average is above 60 s, and the perfect message iff the condition holds. The fallback appears iff no rule fired, and then alone. The messages come in the order the source pushes them, each at most once. |
| Analytics.ReportOf | js/analytics.js:43-104 | The dashboard is the time aggregates of the positive times, the weak list and the recommendations computed from the average. |
| Analytics.ReportOrderFree | js/analytics.js:44-63 | The dashboard is the same for any order of the analytics values. |
| Analytics.Dashboard | js/analytics.js:43-104 | The dashboard is the report of the analytics values listed along some key order. It always has a recommendation and at most 5 weak rows, and fastest ≤ slowest. |
| Analytics.DashboardDetermined | js/analytics.js:43-104 | Any two key orders give the same dashboard, so the report is a function of the engine state. |
| Flashcard.PickRandom | quiz/app.js:23-26 | No card iff the pool is empty; otherwise a card of the pool. |
| Flashcard.EveryCardReachable | quiz/app.js:25 | Every card of the pool can be drawn. |
| Flashcard.Show | quiz/app.js:57-60 | The card becomes current, face up, open for an answer. |
| Flashcard.Flip | quiz/app.js:90-95 | Nothing happens without a current card. Otherwise the face flips and nothing else changes. |
| Flashcard.FlipTwice | quiz/app.js:90-95 | Two flips restore the deck. |
| Flashcard.DataKey | quiz/app.js:73-76 | The escaped `data-key` reads back as the option key after the parser's CR and NUL rewriting, and exactly as the key when it holds neither. |
| Flashcard.MarkAnswers | quiz/app.js:97-112 | With no card, no items. Otherwise every item is disabled. An item is correct iff the answer is the string equal to its `data-key`, the key as the parser reads it back. It is wrong iff its `data-key` is the picked one and the answer is not that string. |
| Flashcard.CarriageReturnKeyMissed | quiz/app.js:104-108 | A three-character key with a CR in the middle is read back with LF in its place, so an answer spelling the key with the CR never marks it correct. |
| Flashcard.MarksConsistent | quiz/app.js:107-110 | No item is both correct and wrong, and the item whose `data-key` was picked shows exactly one outcome. |
| Flashcard.NonStringAnswerNeverCorrect | quiz/app.js:107 | A non-string answer never marks any item correct. |
| Flashcard.Choose | quiz/app.js:156-174 | A pick while locked is ignored. Otherwise it locks and marks the items. |
| Flashcard.ChooseOnce | quiz/app.js:156-174 | Only the first pick on a card is marked. |
| Flashcard.Advance | quiz/app.js:147-179 | An empty pool changes nothing. Otherwise a pool card becomes current, face up and unlocked. |
| Flashcard.CorrectText | quiz/app.js:83-84 | The back shows the text of the option named by the answer, read as a property name, or "" if none. |
| Flashcard.Lookup | quiz/app.js:84 | Looking a key up gives the text of an entry with that key, or "" if no entry has it. |
| Flashcard.NumericAnswerText | quiz/app.js:83-84 | A numeric answer still finds the text of an option whose key spells the number. |
| Flashcard.Init | quiz/app.js:114-137 | Any failed file is an error, and so is an empty pool; the deck then holds no current card. Otherwise the pool is all parsed cards and one drawn card is shown. |
| Flashcard.FailedInitInert | quiz/app.js:131-136 | After a failed start, flipping, drawing and marking change nothing. |
| Flashcard.PoolConcat | quiz/app.js:126 | The pool of two file lists is the two pools concatenated. |
| Flashcard.PoolHolds | quiz/app.js:126 | Every card of a loaded file is in the pool. |

## Left out

- DOM and markup: `renderOptions`, `renderQuestionCode`, `fitCardHeight`, the `innerHTML` and class-list writes, and Prism highlighting. The option marks are modelled as a `Mark` per option item, and the `data-key` attribute as the text an HTML parser reads back: cut at the closing quote, with CR and NUL rewritten, then decoded. Named character references other than the five the escapers write are not modelled, because escaped text never holds a raw `&`.
- `toggleFlip` of js/quiz.js and app.js: it flips a display flag only; the flag is not part of the modelled state. The flashcard page's flip is modelled (`Flashcard.Flip`).
- js/main.js wiring, js/playground.js and js/swipe.js: event wiring, code execution and touch handling. The mode toggle of js/main.js:69-75 is the same as app.js's and is modelled once, as `App.Toggle`.
- `localStorage` and JSON text: a slot is vacant, holds text that does not parse, or holds a record. Fields of the wrong JSON type are not modelled. A falsy field value (`0`, `""`, `null`, `false`) is modelled as a missing one.
- The `saveState` calls after each engine operation: `Storage.Save` models what one call writes, not when it happens.
- `Math.random` and `Date.now` are parameters: a sequence of draws, and a time `now`. The probabilistic termination of the `randomNext` retry loop is not modelled; its precondition asks for some draw that differs.
- Floating point: `Math.round(done / total * 100)` and the dashboard divisions are modelled as exact rounding of the rational quotient, halves up. In floating point a product such as 29/200·100 can fall just below a half and round down.
- Unicode: upper-casing is modelled on ASCII letters only; JavaScript also maps other letters (dotless i, sharp s). `trim` strips the full JavaScript white-space and line-terminator set. `substring(0, 50)` counts characters, not UTF-16 code units.
- App.Next: does not model an empty active list, because app.js then computes `x % 0`, which is `NaN`, and `render` returns before using it. The model requires a non-empty list instead.
- App.Prev: does not model an empty active list, for the same reason.
- App.Run: random steps, shuffles and resets are not events of a run, because they take draws and resets clear the sets on purpose.
- Order of `Object.keys`: option keys and analytics values are given in some order. `Analytics.DashboardDetermined` shows the dashboard does not depend on it.
- `.flat()` of a file whose JSON is not an array: every parsed body is taken to be a list of questions.
- `Flashcard.Init` reports only that a file failed, not which one or its message.
- A network rejection of `fetch` (as opposed to a non-ok response) is not distinguished from a failed response. With several rejections, which one `Promise.all` reports depends on timing; the model names the first.
- The `console.error` message `loadState` logs for a slot that does not parse (js/storage.js:33): the model leaves the state unchanged and logs nothing.
- A `null` element of a flashcard question array: quiz/app.js:129 throws when such an element is drawn. `Flashcard.Card` cannot be null, so an empty pool is the only "no question" case modelled.
- A `_uid` already present in a file is overridden by the loader; the model does the same.
- The `set` label, `explain` text and answer text of the cards are display only.
- Flashcard.CorrectText: looks the answer up among the card's own option keys only. `q.options[correctKey]` also finds inherited properties, so an answer such as `"constructor"` or `"toString"` yields a function, not `""`. A number is turned into text in plain decimal, while JavaScript's `String(n)` switches to exponent form once `|n| >= 1e21`.

## Findings

| source | as written | input that shows it | evidently intended | confidence | as-written member | corrected member |
|---|---|---|---|---|---|---|
| js/quiz.js:110-136 (same in app.js:165-190) | `onOptionPick` records the pick first and then calls `applyOptionResult`, which reads the active list and the current question again. In "wrongs" mode a wrong pick can shrink the list under the cursor. Loaded uids are distinct, so the list shrinks to just the answered card: the marks are judged against that card when the cursor is 0 and against no question otherwise. | Two questions whose answer is "A". Mode "wrongs" with an empty wrong set, so the whole list is shown. Cursor on the second card. Pick "b". The list becomes just that card, index 1 is past its end, and no option is marked correct. | Mark the options against the question that was just answered. | not executed | Quiz.PickMarksLoseCorrect | Quiz.PickMarks |
| js/quiz.js:61-90 (same in app.js:88-111); js/utils.js:4-9 | `data-key="${escapeHtml(key)}"` uses the three-character escaper, which leaves `"` alone. A key with a double quote ends the attribute early. | A structured option with label `A"B` has key `A"B`, but its item's `data-key` reads `A`. | Escape the quote, as quiz/app.js does, so the attribute reads back as the key (up to the parser's CR and NUL rewriting). | not executed | Quiz.QuotedLabel | Quiz.DataKey |
