/**
  The page component `Home`: the submit cycle over `isLoading`, `error` and
  `result`, the bounded most-recent-first history, and restoring a history
  item. An `await` splits `handleSubmit` in two: `Submit` runs up to the
  request, `Settle` runs when the request has finished.
*/
module Client {
  import opened Js

  const HistoryLimit := 10
  const RequestFailedMessage := "Ошибка анализа"

  /** A history item: `AnalysisResult` without its id and timestamp. */
  datatype Entry = Entry(input: string, inputType: string, result: Option<string>)

  /** The request a submit sends, `{ input: input.trim(), inputType }`, with the
      values the submit saw; the history entry is made from the same values. */
  datatype Pending = Pending(input: string, inputType: string)

  /** How the request ended on the page: `fetch` or `response.json()` threw an
      error with this message, or a response was decoded with its `ok` flag and
      its `result` and `error` fields. */
  datatype Outcome = Thrown(message: string) | Responded(ok: bool, result: Option<string>, error: Option<string>)

  /** `[entry, ...history].slice(0, 10)` */
  function PushHistory(entry: Entry, history: seq<Entry>): (r: seq<Entry>)
    ensures |r| == Min(|history| + 1, HistoryLimit)
    ensures r[0] == entry
    ensures r[1..] == history[..|r| - 1]
  {
    ([entry] + history)[..Min(|history| + 1, HistoryLimit)]
  }

  /** The history after a run of successful submits, oldest first. */
  function Replay(entries: seq<Entry>, history: seq<Entry>): seq<Entry>
  {
    if entries == [] then history
    else PushHistory(entries[|entries| - 1], Replay(entries[..|entries| - 1], history))
  }

  /** The history holds the ten most recent results, newest first. */
  lemma {:induction false} ReplayKeepsMostRecent(entries: seq<Entry>, history: seq<Entry>)
    requires |history| <= HistoryLimit
    ensures Replay(entries, history) == (Reverse(entries) + history)[..Min(|entries| + |history|, HistoryLimit)]
  {
    if entries == [] {
      assert history[..|history|] == history;
    } else {
      var init := entries[..|entries| - 1];
      var e := entries[|entries| - 1];
      ReplayKeepsMostRecent(init, history);
      var older := Reverse(init) + history;
      var m := Min(|init| + |history|, HistoryLimit);
      assert entries[..|entries| - 1] == init;
      assert Reverse(entries) == [e] + Reverse(init);
      var pushed := PushHistory(e, older[..m]);
      var expected := ([e] + older)[..Min(|entries| + |history|, HistoryLimit)];
      assert |pushed| == |expected|;
      forall k | 0 <= k < |pushed| ensures pushed[k] == expected[k] {
        if k > 0 {
          assert pushed[k] == pushed[1..][k - 1];
        }
      }
      assert Reverse(entries) + history == [e] + older;
    }
  }

  /** The message `handleSubmit` shows when the request did not succeed. */
  function FailureMessage(outcome: Outcome): string
  {
    match outcome
    case Thrown(message) => message
    case Responded(_, _, error) => if error.Some? && error.value != "" then error.value else RequestFailedMessage
  }

  class Home {
    var input: string
    var inputType: string
    var isLoading: bool
    var result: Option<string>
    var error: Option<string>
    var history: seq<Entry>
    var showHistory: bool
    /** The entries of all successful submits so far, oldest first. */
    ghost var succeeded: seq<Entry>

    /** The history is what the successful submits left behind. */
    ghost predicate Valid()
      reads this
    {
      history == Replay(succeeded, [])
    }

    /** The history holds the ten most recent successful submits, newest first. */
    lemma HistoryIsMostRecent()
      requires Valid()
      ensures history == Reverse(succeeded)[..Min(|succeeded|, HistoryLimit)]
      ensures |history| <= HistoryLimit
    {
      ReplayKeepsMostRecent(succeeded, []);
      assert Reverse(succeeded) + [] == Reverse(succeeded);
    }

    /** The initial state; the input type starts as `'form'`, which is neither tab. */
    constructor ()
      ensures Valid()
      ensures input == "" && inputType == "form" && !isLoading
      ensures result == None && error == None && history == [] && !showHistory
      ensures succeeded == []
    {
      input := "";
      inputType := "form";
      isLoading := false;
      result := None;
      error := None;
      history := [];
      showHistory := false;
      succeeded := [];
    }

    /** The text field's `onChange`. */
    method Edit(text: string)
      requires Valid()
      modifies this`input
      ensures Valid() && input == text
    {
      input := text;
    }

    /** The "text" and "URL" tabs. */
    method SelectInputType(kind: string)
      requires Valid()
      modifies this`inputType
      ensures Valid() && inputType == kind
    {
      inputType := kind;
    }

    /** The history button in the header. */
    method ToggleHistory()
      requires Valid()
      modifies this`showHistory
      ensures Valid() && showHistory == !old(showHistory)
    {
      showHistory := !showHistory;
    }

    /** `handleSubmit` up to the request: nothing happens for a blank input or
        while a request is running; otherwise the error and result are cleared,
        loading starts and the trimmed input is sent. */
    method Submit() returns (sent: Option<Pending>)
      requires Valid()
      modifies this`isLoading, this`error, this`result
      ensures Valid()
      ensures sent.Some? <==> Trim(input) != "" && !old(isLoading)
      ensures sent.None? ==> isLoading == old(isLoading) && error == old(error) && result == old(result)
      ensures sent.Some? ==>
        sent.value == Pending(Trim(input), inputType) && isLoading && error == None && result == None
    {
      var trimmed := Trim(input);
      if trimmed == "" || isLoading {
        return None;
      }
      isLoading := true;
      error := None;
      result := None;
      sent := Some(Pending(trimmed, inputType));
    }

    /** `handleSubmit` after the request: on success the result is shown and
        put at the head of the history; on failure only the error changes;
        either way loading ends. */
    method Settle(sent: Pending, outcome: Outcome)
      requires Valid()
      modifies this`isLoading, this`error, this`result, this`history, this`succeeded
      ensures Valid() && !isLoading
      ensures outcome.Responded? && outcome.ok ==>
        result == outcome.result && error == old(error) &&
        history == PushHistory(Entry(sent.input, sent.inputType, outcome.result), old(history)) &&
        succeeded == old(succeeded) + [Entry(sent.input, sent.inputType, outcome.result)]
      ensures !(outcome.Responded? && outcome.ok) ==>
        result == old(result) && history == old(history) && succeeded == old(succeeded) &&
        error == Some(FailureMessage(outcome))
    {
      if outcome.Responded? && outcome.ok {
        result := outcome.result;
        var entry := Entry(sent.input, sent.inputType, outcome.result);
        assert (succeeded + [entry])[..|succeeded|] == succeeded;
        history := PushHistory(entry, history);
        succeeded := succeeded + [entry];
      } else {
        error := Some(FailureMessage(outcome));
      }
      isLoading := false;
    }

    /** Clicking a history item, which is listed only while the sidebar is
        open, restores its input, input type and result and closes the sidebar. */
    method Restore(i: nat)
      requires Valid()
      requires showHistory && i < |history|
      modifies this`input, this`inputType, this`result, this`showHistory
      ensures Valid()
      ensures input == history[i].input && inputType == history[i].inputType
      ensures result == history[i].result && !showHistory
    {
      var item := history[i];
      input := item.input;
      inputType := item.inputType;
      result := item.result;
      showHistory := false;
    }
  }
}
