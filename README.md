# Translation session model

A Dafny model of the session logic of a small English/Persian translator
web app (React, TypeScript). The app keeps one record — the source text,
the translated text, a loading flag, an optional error message and the
translation direction (`en-to-fa` or `fa-to-en`) — and a newest-first
history of completed translations capped at 50 entries. Six handlers change
them: translate (a guard, a begin step, then a success or a failure
completion), swap languages, select a history entry, clear history (after a
confirmation), clear input, and the text area's `onChange`, which replaces
the source text.

Files:

- `types.dfy` (module `Types`): the `Language` and `Direction` enums, the
  history entry and session records, the direction flip and the
  direction-to-target-language mapping.
- `whitespace.dfy` (module `Whitespace`): JavaScript's `String.prototype.trim`
  and the `!text.trim()` test, over ECMAScript's WhiteSpace and
  LineTerminator code points.
- `history.dfy` (module `History`): the history entry built on success and
  the capped prepend `[item, ...prev].slice(0, 50)`.
- `session.dfy` (module `Session`): each updater closure as a function on the
  record; every handler or completion as an `Event` and its `Step`; the
  properties that hold across several steps.
- `app.dfy` (module `App`): class `Translator` with the two state cells
  `state` and `history` and one method per handler. Each handler method
  overwrites the cells with the Session transforms. It states the new cells
  and, in terms of `Current()`, the `Step` of its events: one event for the
  single-step handlers, and Begin followed by the completion for
  `Translate`. `CanTranslate` only reads the cells.

The provider call `translateText` is not modelled. `BeginTranslate` returns
the captured request: source text, direction and target language. The
caller then runs `CompleteSuccess` with the returned text or
`CompleteFailure`. `Translate` chains the two steps for a given `Outcome`.
`id` (from `Math.random`) and `timestamp` (from `Date.now`) are parameters.
The answer to the `confirm` dialog is the boolean parameter of
`ClearHistory`.

Facts about the code that the model keeps:

- `handleTranslate` checks only that the text is not blank; it does not
  check `isLoading` (App.tsx:36). The button's enable predicate checks both
  (App.tsx:180); it is `CanTranslate` and `TranslateEnabled` here.
- The history entry takes the source text and direction captured when the
  handler started (App.tsx:49, 51), not the values current when the
  response lands. Only the translated text is written through the updater
  (App.tsx:44). `CompleteSuccess` takes the captured values as parameters.
- A success does not clear `error` (App.tsx:44). The begin step already
  cleared it (App.tsx:38), so `BeginThenSuccess` shows no error after a
  full request.
- An error is shown only when no request is loading: begin clears the
  error, each completion ends loading, and the other handlers clear the
  error or leave both alone (`RunKeepsErrorIdle`).

## Model

| member | source | states |
|---|---|---|
| Types.Flip | App.tsx:70 | the swapped direction is always the other one |
| Types.TargetLanguage | App.tsx:41 | the target is Persian exactly when the direction is en-to-fa, otherwise English |
| Types.FlipChangesTarget | App.tsx:41 | after a flip, requests go to the other language |
| Whitespace.IsWhitespace | App.tsx:36 | the code points `trim()` removes, ECMAScript WhiteSpace and LineTerminator; all lie in the Basic Multilingual Plane and none is an ASCII letter or digit (WhitespaceInBmp) |
| Whitespace.WhitespaceInBmp | App.tsx:36 | every trimmed code point is at most U+FFFF, and no ASCII letter or digit is trimmed |
| Whitespace.TrimStart | App.tsx:36 | the leading cut of `trim()`: a suffix of the input, not starting with white space, with only white space removed |
| Whitespace.TrimEnd | App.tsx:36 | the trailing cut of `trim()`: a prefix of the input, not ending with white space, with only white space removed |
| Whitespace.Trim | App.tsx:36 | `Trim(s)` is the slice of `s` with only white space around it (TrimShape) and neither starts nor ends with white space (TrimEnds) |
| Whitespace.IsBlank | App.tsx:36 | `IsBlank(s)` holds exactly when every character of `s` is white space (BlankIffAllWhitespace) |
| Whitespace.TrimShape | App.tsx:36 | `trim()` returns a contiguous slice of its input, and only white space lies on either side of it |
| Whitespace.TrimEnds | App.tsx:36 | what `trim()` returns neither starts nor ends with white space |
| Whitespace.BlankIffAllWhitespace | App.tsx:36 | `!text.trim()` holds exactly when every character is white space (both directions) |
| Whitespace.TrimIdempotent | App.tsx:36 | trimming twice is the same as trimming once |
| Whitespace.SpacesAreBlank | App.tsx:36 | "" and "   " are rejected by the guard |
| Whitespace.LetterIsNotBlank | App.tsx:36 | a text with any non-white-space character passes the guard |
| History.NewItem | App.tsx:47-53 | the entry carries the given id and timestamp, the submitted source text and direction, and the result |
| History.Prepend | App.tsx:55 | length is min(old length + 1, 50); the head is the new entry; the rest is a prefix of the old history |
| History.PrependEviction | App.tsx:55 | below 50 nothing is evicted; at 50 exactly the oldest entry is dropped; no entry but the new one appears |
| History.PrependAllKeepsNewest | App.tsx:55 | after any series of successes the history is the newest 50 of all entries, newest first |
| Session.Initial | App.tsx:11-17 | the component starts with empty texts, not loading, no error, direction en-to-fa |
| Session.ShouldTranslate | App.tsx:36 | the handler's guard passes exactly when some character of the source text is not white space |
| Session.TranslateEnabled | App.tsx:180 | the button is enabled exactly when some character of the source text is not white space and no request is loading |
| Session.BeginState | App.tsx:38 | loading is set and the error cleared; texts and direction unchanged |
| Session.SuccessState | App.tsx:44 | the result is shown and loading ends; source text, error and direction unchanged |
| Session.FailureState | App.tsx:57-61 | loading ends, the error is exactly the fixed non-empty message, texts and direction unchanged |
| Session.SwapState | App.tsx:66-72 | the two texts trade places, the direction changes, the error is cleared, loading is untouched |
| Session.SelectState | App.tsx:87-93 | texts and direction come from the entry, the error is cleared, loading is untouched |
| Session.ClearInputState | App.tsx:103 | both texts and the error are emptied; direction and loading stay |
| Session.ClearedHistory | App.tsx:96-100 | the history is emptied when confirmed and unchanged otherwise |
| Session.SwapTwice | App.tsx:65-73 | two swaps give back both texts, the direction and the loading flag |
| Session.BeginThenSuccess | App.tsx:38-44 | a successful request leaves the new text shown, no error, and the source text and direction as they were |
| Session.BeginThenFailure | App.tsx:38-61 | a failed request leaves both texts and the direction as they were |
| Session.ClearInputIdempotent | App.tsx:103 | resetting twice is the same as resetting once |
| Session.SelectIdempotent | App.tsx:87-93 | selecting the same entry again changes nothing more |
| Session.EnabledImpliesShouldTranslate | App.tsx:180 | an enabled button implies the handler's guard passes; the guard passes exactly when some character is not white space |
| Session.Step | App.tsx:35-104 | one handler or completion: only a success and a clear-history change the history, and a clear-history leaves the record unchanged |
| Session.InitialErrorOnlyWhenIdle | App.tsx:11-17 | the starting record shows no error while loading |
| Session.StepKeepsErrorIdle | App.tsx:38-103 | every handler and completion keeps "an error only when not loading" |
| Session.RunKeepsErrorIdle | App.tsx:35-104 | no sequence of handlers and completions shows an error while a request is loading |
| Session.StepKeepsBound | App.tsx:55 | every event keeps the history within 50; only success and clear-history touch it |
| Session.RunKeepsBound | App.tsx:98 | a history loaded within 50 stays within 50 through any sequence of handlers and completions |
| Session.BlankTranslateIsNoOp | App.tsx:36 | translating a blank text changes neither the record nor the history |
| Session.StaleResponseAfterSwap | App.tsx:42-55 | a response that lands after a swap still overwrites the output, and the history records the submitted text and direction |
| Session.EnglishToPersianScenario | App.tsx:35-55 | typing any text with a non-white-space character and translating it successfully shows the result and puts the matching entry first |
| App.Translator.constructor | App.tsx:11-26 | the component mounts with the initial record and the loaded history, not truncated |
| App.Translator.CanTranslate | App.tsx:180 | the button is enabled exactly when some character is not white space and no request is loading |
| App.Translator.BeginTranslate | App.tsx:36-42 | a blank text changes nothing; otherwise loading is set, the error cleared, and the request carries the text, direction and target language |
| App.Translator.CompleteSuccess | App.tsx:44-55 | the result is shown, loading ends, the submitted entry heads the history, and the older entries are a prefix of the old history |
| App.Translator.CompleteFailure | App.tsx:56-61 | loading ends and the error message is set; texts, direction and history unchanged |
| App.Translator.Translate | App.tsx:35-63 | the whole handler for a given provider outcome: a no-op on blank text, else the success or failure state and history, equal to Begin followed by that completion |
| App.Translator.SwapLanguages | App.tsx:65-73 | the state becomes the swapped record; history unchanged |
| App.Translator.SelectHistory | App.tsx:86-94 | the state becomes the selected entry's record; history unchanged |
| App.Translator.ClearHistory | App.tsx:96-100 | the history is emptied when confirmed; the state is unchanged |
| App.Translator.ClearInput | App.tsx:102-104 | the state becomes the cleared record; history unchanged |
| App.Translator.SetSource | App.tsx:172 | only the source text changes |

## Left out

- Persistence: the `localStorage` load with its `JSON.parse` fallback and the
  save effect (browser I/O and a library parser). The loaded history enters
  as the constructor's parameter. The load does not truncate, so the
  50-entry bound is a precondition of `RunKeepsBound`, not an invariant of
  the class.
- The provider call (`translateText` in services/geminiService.ts): a network
  client. Its result, or its failure, is a parameter of the completions. Its
  own blank-text shortcut is never reached from the handler.
- Concurrency: the `await` is modelled as the split into a begin step and
  a completion. The model has no interleaving scheduler. Staleness is shown
  only by the fixed scenario `StaleResponseAfterSwap`.
- Id and timestamp generation (`Math.random`, `Date.now`): they are
  parameters, and their uniqueness is not modelled.
- `handleCopy` (clipboard and timer), the `copied` flag, all JSX rendering
  and the history panel component: presentation only.
- `Whitespace.IsWhitespace`: JavaScript strings are UTF-16, while a Dafny
  `char` is a Unicode scalar value. Every trimmed code point is in the Basic
  Multilingual Plane, so the result of `trim()` is the same in both.
