/** The transitions of the translator's session record and history, as the
    updater closures of the App component compute them, and what holds of any
    sequence of them. */
module Session {
  import opened Types
  import opened Whitespace
  import opened History

  /** The message stored in `error` when the provider call fails. */
  const ERROR_MESSAGE: string := "خطا در برقراری ارتباط با هوش مصنوعی. لطفا مجددا تلاش کنید."

  /** The record the component starts with. */
  function Initial(): (s: TranslationState)
    ensures s.sourceText == [] && s.translatedText == []
    ensures !s.isLoading && s.error == None && s.direction == EnToFa
  {
    TranslationState("", "", false, None, EnToFa)
  }

  /** `handleTranslate` returns at once when this does not hold: it holds
      exactly when not every character of the source text is white space. */
  predicate ShouldTranslate(s: TranslationState)
    ensures ShouldTranslate(s) <==> !AllWhitespace(s.sourceText)
  {
    BlankIffAllWhitespace(s.sourceText);
    !IsBlank(s.sourceText)
  }

  /** The translate button is enabled: some character of the source text is not
      white space, and no request is in flight. */
  predicate TranslateEnabled(s: TranslationState)
    ensures TranslateEnabled(s) <==> !AllWhitespace(s.sourceText) && !s.isLoading
  {
    BlankIffAllWhitespace(s.sourceText);
    !IsBlank(s.sourceText) && !s.isLoading
  }

  /** The record once a request is sent: loading, no error, nothing else touched. */
  function BeginState(s: TranslationState): (r: TranslationState)
    ensures r.isLoading && r.error == None
    ensures r.sourceText == s.sourceText && r.translatedText == s.translatedText
    ensures r.direction == s.direction
  {
    s.(isLoading := true, error := None)
  }

  /** The record once the provider returned `result`: that text is shown and
      loading ends; the error and the rest are as they were. */
  function SuccessState(s: TranslationState, result: string): (r: TranslationState)
    ensures r.translatedText == result && !r.isLoading
    ensures r.sourceText == s.sourceText && r.error == s.error && r.direction == s.direction
  {
    s.(translatedText := result, isLoading := false)
  }

  /** The record once the provider failed: loading ends, the fixed non-empty
      message is the error, and earlier output is kept. */
  function FailureState(s: TranslationState): (r: TranslationState)
    ensures !r.isLoading && r.error == Some(ERROR_MESSAGE) && |r.error.value| > 0
    ensures r.sourceText == s.sourceText && r.translatedText == s.translatedText
    ensures r.direction == s.direction
  {
    s.(isLoading := false, error := Some(ERROR_MESSAGE))
  }

  /** The swap button: the two texts trade places, the direction flips and the
      error is cleared; loading is left alone. */
  function SwapState(s: TranslationState): (r: TranslationState)
    ensures r.sourceText == s.translatedText && r.translatedText == s.sourceText
    ensures r.direction != s.direction && r.error == None && r.isLoading == s.isLoading
  {
    s.(sourceText := s.translatedText, translatedText := s.sourceText,
       direction := Flip(s.direction), error := None)
  }

  /** Picking a history entry shows its texts and direction and clears the error. */
  function SelectState(s: TranslationState, item: HistoryItem): (r: TranslationState)
    ensures r.sourceText == item.sourceText && r.translatedText == item.translatedText
    ensures r.direction == item.direction && r.error == None && r.isLoading == s.isLoading
  {
    s.(sourceText := item.sourceText, translatedText := item.translatedText,
       direction := item.direction, error := None)
  }

  /** The reset button: both texts and the error are emptied; direction and
      loading stay. */
  function ClearInputState(s: TranslationState): (r: TranslationState)
    ensures r.sourceText == [] && r.translatedText == [] && r.error == None
    ensures r.direction == s.direction && r.isLoading == s.isLoading
  {
    s.(sourceText := "", translatedText := "", error := None)
  }

  /** The history after the clear button, given the user's answer to the
      confirmation question. */
  function ClearedHistory(h: seq<HistoryItem>, confirmed: bool): (r: seq<HistoryItem>)
    ensures confirmed ==> r == []
    ensures !confirmed ==> r == h
  {
    if confirmed then [] else h
  }

  /** Swapping twice gives back both texts, the direction and the loading
      flag; only a pending error is gone. */
  lemma SwapTwice(s: TranslationState)
    ensures SwapState(SwapState(s)) == s.(error := None)
  {
    FlipInvolutive(s.direction);
  }

  /** A request that succeeds: the earlier error is gone, the result is shown,
      the source text and direction are those of the request. */
  lemma BeginThenSuccess(s: TranslationState, result: string)
    ensures SuccessState(BeginState(s), result)
         == s.(translatedText := result, isLoading := false, error := None)
  {
  }

  /** A request that fails changes neither text nor the direction. */
  lemma BeginThenFailure(s: TranslationState)
    ensures FailureState(BeginState(s))
         == s.(isLoading := false, error := Some(ERROR_MESSAGE))
  {
  }

  /** Resetting twice is the same as resetting once. */
  lemma ClearInputIdempotent(s: TranslationState)
    ensures ClearInputState(ClearInputState(s)) == ClearInputState(s)
  {
  }

  /** Re-selecting an entry does nothing more. */
  lemma SelectIdempotent(s: TranslationState, item: HistoryItem)
    ensures SelectState(SelectState(s, item), item) == SelectState(s, item)
  {
  }

  /** The button predicate is stricter than the handler's own guard, and both
      reject exactly the texts that are white space only. */
  lemma EnabledImpliesShouldTranslate(s: TranslationState)
    ensures TranslateEnabled(s) ==> ShouldTranslate(s)
    ensures ShouldTranslate(s) <==> exists i :: 0 <= i < |s.sourceText| && !IsWhitespace(s.sourceText[i])
  {
  }

  /** The screen's record and history together. */
  datatype Snapshot = Snapshot(state: TranslationState, history: seq<HistoryItem>)

  /** One handler run or one provider completion. A completion carries the
      source text and direction captured when its request was submitted. */
  datatype Event =
    | Begin
    | Succeed(submittedSource: string, submittedDirection: Direction, result: string,
              id: string, timestamp: int)
    | Fail
    | Swap
    | Select(item: HistoryItem)
    | ClearHistory(confirmed: bool)
    | ClearInput
    | EditSource(text: string)

  /** What one event does to the record and the history. Only a success and
      a clear-history touch the history, and clear-history touches nothing
      else. */
  function Step(s: Snapshot, e: Event): (r: Snapshot)
    ensures !e.Succeed? && !e.ClearHistory? ==> r.history == s.history
    ensures e.ClearHistory? ==> r.state == s.state
  {
    match e
    case Begin =>
      if ShouldTranslate(s.state) then s.(state := BeginState(s.state)) else s
    case Succeed(src, dir, result, id, ts) =>
      Snapshot(SuccessState(s.state, result), Prepend(NewItem(id, src, result, dir, ts), s.history))
    case Fail => s.(state := FailureState(s.state))
    case Swap => s.(state := SwapState(s.state))
    case Select(item) => s.(state := SelectState(s.state, item))
    case ClearHistory(confirmed) => s.(history := ClearedHistory(s.history, confirmed))
    case ClearInput => s.(state := ClearInputState(s.state))
    case EditSource(text) => s.(state := s.state.(sourceText := text))
  }

  /** The events applied one after another. */
  function Run(s: Snapshot, events: seq<Event>): (r: Snapshot)
    decreases |events|
  {
    if events == [] then s else Run(Step(s, events[0]), events[1..])
  }

  /** Only a successful completion adds to the history, and every event keeps
      it within the cap. */
  lemma StepKeepsBound(s: Snapshot, e: Event)
    requires |s.history| <= MAX_HISTORY
    ensures |Step(s, e).history| <= MAX_HISTORY
    ensures !e.Succeed? && !e.ClearHistory? ==> Step(s, e).history == s.history
  {
  }

  /** The record shows an error only when no request is loading. */
  predicate ErrorOnlyWhenIdle(s: TranslationState) {
    s.error.Some? ==> !s.isLoading
  }

  /** The component starts in a record without an error. */
  lemma InitialErrorOnlyWhenIdle()
    ensures ErrorOnlyWhenIdle(Initial())
  {
  }

  /** Begin clears the error, every completion ends loading, and the other
      handlers either clear the error or leave both alone. */
  lemma StepKeepsErrorIdle(s: Snapshot, e: Event)
    requires ErrorOnlyWhenIdle(s.state)
    ensures ErrorOnlyWhenIdle(Step(s, e).state)
  {
  }

  /** No sequence of handlers and completions shows an error while loading. */
  lemma {:induction false} RunKeepsErrorIdle(s: Snapshot, events: seq<Event>)
    requires ErrorOnlyWhenIdle(s.state)
    ensures ErrorOnlyWhenIdle(Run(s, events).state)
    decreases |events|
  {
    if events != [] {
      StepKeepsErrorIdle(s, events[0]);
      RunKeepsErrorIdle(Step(s, events[0]), events[1..]);
    }
  }

  /** A history loaded within the cap stays within it whatever the user does. */
  lemma {:induction false} RunKeepsBound(s: Snapshot, events: seq<Event>)
    requires |s.history| <= MAX_HISTORY
    ensures |Run(s, events).history| <= MAX_HISTORY
    decreases |events|
  {
    if events != [] {
      StepKeepsBound(s, events[0]);
      RunKeepsBound(Step(s, events[0]), events[1..]);
    }
  }

  /** Typing a white-space-only text and pressing translate leaves the record
      and the history as they were. */
  lemma BlankTranslateIsNoOp(s: Snapshot)
    requires AllWhitespace(s.state.sourceText)
    ensures Step(s, Begin) == s
  {
  }

  /** With no cancellation, a response that lands after a swap still
      overwrites the output panel, while the history records the text and
      direction that were submitted. */
  lemma StaleResponseAfterSwap(s: Snapshot, result: string, id: string, ts: int)
    requires ShouldTranslate(s.state)
    ensures var src, dir := s.state.sourceText, s.state.direction;
            var after := Step(Step(Step(s, Begin), Swap), Succeed(src, dir, result, id, ts));
            && after.state.translatedText == result
            && after.state.direction == Flip(dir)
            && after.state.sourceText == s.state.translatedText
            && |after.history| > 0
            && after.history[0].sourceText == src
            && after.history[0].direction == dir
  {
    var src, dir := s.state.sourceText, s.state.direction;
    var s2 := s.(state := SwapState(BeginState(s.state)));
    StepBeginSwap(s);
    var item := NewItem(id, src, result, dir, ts);
    StepSucceed(s2, src, dir, result, id, ts);
    assert Prepend(item, s.history)[0] == item;
  }

  /** Begin does what the guard decides. */
  lemma StepBegin(s: Snapshot)
    ensures ShouldTranslate(s.state) ==> Step(s, Begin) == s.(state := BeginState(s.state))
    ensures !ShouldTranslate(s.state) ==> Step(s, Begin) == s
  {
  }

  /** Begin on a text that passes the guard, then a swap. */
  lemma StepBeginSwap(s: Snapshot)
    requires ShouldTranslate(s.state)
    ensures Step(Step(s, Begin), Swap) == s.(state := SwapState(BeginState(s.state)))
  {
    var s1 := s.(state := BeginState(s.state));
    StepBegin(s);
    assert Step(s1, Swap) == s1.(state := SwapState(s1.state));
  }

  /** A success completion. */
  lemma StepSucceed(s: Snapshot, src: string, dir: Direction, result: string, id: string, ts: int)
    ensures Step(s, Succeed(src, dir, result, id, ts))
         == Snapshot(SuccessState(s.state, result), Prepend(NewItem(id, src, result, dir, ts), s.history))
  {
  }

  /** From the start, with a history as loaded: type a text, translate it into
      Persian, and the provider answers. */
  lemma EnglishToPersianScenario(saved: seq<HistoryItem>, source: string, result: string,
                                 id: string, ts: int)
    requires exists i :: 0 <= i < |source| && !IsWhitespace(source[i])
    ensures var s := Snapshot(Initial(), saved);
            var after := Step(Step(Step(s, EditSource(source)), Begin),
                              Succeed(source, EnToFa, result, id, ts));
            && after.state.translatedText == result
            && after.state.sourceText == source
            && !after.state.isLoading && after.state.error == None
            && |after.history| == Min(|saved| + 1, MAX_HISTORY)
            && after.history[0] == HistoryItem(id, source, result, EnToFa, ts)
  {
    var s1 := Snapshot(Initial().(sourceText := source), saved);
    assert Step(Snapshot(Initial(), saved), EditSource(source)) == s1;
    assert ShouldTranslate(s1.state);
    assert Step(s1, Begin) == s1.(state := BeginState(s1.state));
  }
}
