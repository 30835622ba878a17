/** The App component's two state cells and its handlers. Each handler
    overwrites `state` and `history` with the transforms of module Session;
    the provider call is split into a begin step and its two completions. */
module App {
  import opened Types
  import opened Whitespace
  import opened History
  import opened Session

  /** What `handleTranslate` hands to the provider, captured from the record
      at the time the button was pressed. */
  datatype Request = Request(sourceText: string, direction: Direction, target: Language)

  /** What the provider call comes back with. */
  datatype Outcome = Translated(text: string) | Failed

  class Translator {
    var state: TranslationState
    var history: seq<HistoryItem>

    /** The cells and their values as one snapshot. */
    function Current(): (c: Snapshot)
      reads this
    {
      Snapshot(state, history)
    }

    /** The component mounts with the initial record and the history as it was
        loaded (the load does not truncate it). */
    constructor (saved: seq<HistoryItem>)
      ensures state == Initial() && history == saved
    {
      state := Initial();
      history := saved;
    }

    /** The translate button's `disabled` test, negated. */
    method CanTranslate() returns (enabled: bool)
      ensures enabled <==> (exists i :: 0 <= i < |state.sourceText| && !IsWhitespace(state.sourceText[i]))
                           && !state.isLoading
    {
      enabled := TranslateEnabled(state);
    }

    /** The first half of `handleTranslate`: nothing happens for a blank text;
        otherwise the record shows loading with no error and the request is
        returned with the language its direction translates into. */
    method BeginTranslate() returns (request: Option<Request>)
      modifies this
      ensures Current() == Step(old(Current()), Begin)
      ensures request.None? <==> AllWhitespace(old(state).sourceText)
      ensures request.None? ==> state == old(state) && history == old(history)
      ensures request.Some? ==>
                && request.value == Request(old(state).sourceText, old(state).direction,
                                            TargetLanguage(old(state).direction))
                && state == BeginState(old(state)) && history == old(history)
    {
      ghost var before := Current();
      StepBegin(before);
      if !ShouldTranslate(state) {
        request := None;
      } else {
        var sourceText, direction := state.sourceText, state.direction;
        state := BeginState(state);
        request := Some(Request(sourceText, direction, TargetLanguage(direction)));
        assert Current() == before.(state := BeginState(before.state));
      }
    }

    /** The provider returned `result`: it is shown, loading ends, and an entry
        for the submitted text and direction goes in front of the history. */
    method CompleteSuccess(submittedSource: string, submittedDirection: Direction,
                           result: string, id: string, timestamp: int)
      modifies this
      ensures Current() == Step(old(Current()), Succeed(submittedSource, submittedDirection, result, id, timestamp))
      ensures state == SuccessState(old(state), result)
      ensures history == Prepend(NewItem(id, submittedSource, result, submittedDirection, timestamp), old(history))
      ensures |history| == Min(|old(history)| + 1, MAX_HISTORY)
      ensures history[0] == HistoryItem(id, submittedSource, result, submittedDirection, timestamp)
      ensures history[1..] == old(history)[..|history| - 1]
    {
      state := SuccessState(state, result);
      var item := NewItem(id, submittedSource, result, submittedDirection, timestamp);
      history := Prepend(item, history);
    }

    /** The provider failed: loading ends and the fixed message is the error. */
    method CompleteFailure()
      modifies this
      ensures Current() == Step(old(Current()), Fail)
      ensures state == FailureState(old(state)) && history == old(history)
    {
      state := FailureState(state);
    }

    /** `handleTranslate` run through without interleaving, with the provider's
        answer as a parameter. */
    method Translate(outcome: Outcome, id: string, timestamp: int)
      modifies this
      ensures AllWhitespace(old(state).sourceText) ==> state == old(state) && history == old(history)
      ensures !AllWhitespace(old(state).sourceText) && outcome.Translated? ==>
                && state == old(state).(translatedText := outcome.text, isLoading := false, error := None)
                && history == Prepend(HistoryItem(id, old(state).sourceText, outcome.text,
                                                  old(state).direction, timestamp), old(history))
      ensures !AllWhitespace(old(state).sourceText) && outcome.Failed? ==>
                && state == old(state).(isLoading := false, error := Some(ERROR_MESSAGE))
                && history == old(history)
      ensures AllWhitespace(old(state).sourceText) ==> Current() == Step(old(Current()), Begin)
      ensures !AllWhitespace(old(state).sourceText) && outcome.Translated? ==>
                Current() == Step(Step(old(Current()), Begin),
                                  Succeed(old(state).sourceText, old(state).direction, outcome.text,
                                          id, timestamp))
      ensures !AllWhitespace(old(state).sourceText) && outcome.Failed? ==>
                Current() == Step(Step(old(Current()), Begin), Fail)
    {
      ghost var before := state;
      var request := BeginTranslate();
      if request.Some? {
        match outcome
        case Translated(text) =>
          CompleteSuccess(request.value.sourceText, request.value.direction, text, id, timestamp);
          BeginThenSuccess(before, text);
        case Failed =>
          CompleteFailure();
          BeginThenFailure(before);
      }
    }

    /** `handleSwapLanguages`. */
    method SwapLanguages()
      modifies this
      ensures Current() == Step(old(Current()), Swap)
      ensures state == SwapState(old(state)) && history == old(history)
    {
      state := SwapState(state);
    }

    /** `handleHistorySelect`. */
    method SelectHistory(item: HistoryItem)
      modifies this
      ensures Current() == Step(old(Current()), Select(item))
      ensures state == SelectState(old(state), item) && history == old(history)
    {
      state := SelectState(state, item);
    }

    /** `handleClearHistory`, with the answer to the confirmation dialog. */
    method ClearHistory(confirmed: bool)
      modifies this
      ensures Current() == Step(old(Current()), Event.ClearHistory(confirmed))
      ensures state == old(state)
      ensures history == if confirmed then [] else old(history)
    {
      history := ClearedHistory(history, confirmed);
    }

    /** `handleClearInput`. */
    method ClearInput()
      modifies this
      ensures Current() == Step(old(Current()), Event.ClearInput)
      ensures state == ClearInputState(old(state)) && history == old(history)
    {
      state := ClearInputState(state);
    }

    /** The text area's `onChange`. */
    method SetSource(text: string)
      modifies this
      ensures Current() == Step(old(Current()), EditSource(text))
      ensures state == old(state).(sourceText := text) && history == old(history)
    {
      state := state.(sourceText := text);
    }
  }
}
