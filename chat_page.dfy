/**
 * The page component itself: its React state as the fields of an object,
 * `sendMessage` as a method with the source's polling loop, and the two
 * user actions that change state (typing, clicking a tree toggle).
 */
module ChatPage {
  import opened Wrappers
  import opened Json
  import opened TaskPoller
  import opened JsonViewer

  /** What the page shows once a run has ended with `outcome`: exactly one of a response or an error. */
  function Displayed(outcome: Outcome): (r: (Option<JsonValue>, Option<string>))
    ensures r.0.Some? != r.1.Some?
    ensures r.0.Some? <==> outcome.Success?
    ensures outcome.Success? ==> r.0 == Some(outcome.body)
    ensures outcome.Failure? ==> r.1 == Some(outcome.message)
  {
    match outcome
    case Success(body) => (Some(body), None)
    case Failure(message) => (None, Some(message))
  }

  class Page {
    var apiKey: string
    var prompt: string
    var response: Option<JsonValue>
    var loading: bool
    var error: Option<string>
    /** The expansion state of the `JsonViewer` tree showing `response`. */
    var flags: Flags
    /** The requests and waits issued so far. */
    var effects: seq<Effect>

    /**
     * The tree's flags belong to mounted nodes only, and a response, when
     * there is one, is an object (the body that reported "succeeded").
     */
    predicate Valid()
      reads this
    {
      NoStale(flags) && (response.Some? ==> response.value.JObject?)
    }

    constructor ()
      ensures apiKey == "" && prompt == "" && response == None && !loading && error == None
      ensures flags == Fresh(false) && effects == []
      ensures Valid()
    {
      apiKey, prompt := "", "";
      response, loading, error := None, false, None;
      flags := Fresh(false);
      effects := [];
    }

    /** The API key input's `onChange`. */
    method SetApiKey(value: string)
      modifies this`apiKey
      ensures apiKey == value
    {
      apiKey := value;
    }

    /** The prompt textarea's `onChange`. */
    method SetPrompt(value: string)
      modifies this`prompt
      ensures prompt == value
    {
      prompt := value;
    }

    /** The Send button is enabled when no run is in flight and both fields are filled in. */
    predicate SendEnabled()
      reads this
      ensures SendEnabled() <==> !loading && |apiKey| > 0 && |prompt| > 0
    {
      !(loading || apiKey == "" || prompt == "")
    }

    /** The response tree as the page shows it (the root viewer gets no `initialExpanded`). */
    function Visible(): (r: Option<View>)
      reads this
      ensures r.Some? <==> response.Some?
      ensures Valid() && r.Some? ==> r.value.Branch? && r.value.caption == "Object"
      ensures r.Some? ==> (r.value.Leaf? <==> IsScalar(response.value))
      ensures r.Some? && r.value.Branch? ==> r.value.expanded == IsExpanded(flags, [])
                                             && |r.value.children| == if r.value.expanded then Arity(response.value) else 0
    {
      if response.Some? then Some(Render(response.value, [], flags)) else None
    }

    /**
     * A click on the toggle of the node at path `p` of the response tree:
     * a composite whose ancestors are all expanded, so its button is on screen.
     */
    method ToggleNode(p: Path)
      requires Valid() && response.Some? && HasToggle(response.value, p) && Shown(flags, p)
      modifies this`flags
      ensures flags == ToggleAt(old(flags), p)
      ensures Valid()
    {
      ToggleKeepsNoStale(flags, p);
      flags := ToggleAt(flags, p);
    }

    /**
     * The start of `sendMessage`: loading, and the previous error and
     * response cleared (the old tree unmounts with its expansion state).
     */
    method BeginSend()
      modifies this`loading, this`error, this`response, this`flags
      ensures loading && error == None && response == None && flags == Fresh(false)
      ensures Valid()
    {
      loading := true;
      error := None;
      response := None;
      flags := Fresh(false);
    }

    /**
     * The `while (pollCount < maxPolls)` loop and the timeout check after
     * it. A thrown error's message comes back as `failure`; a success sets
     * `response`.
     */
    method PollTask(key: string, taskId: Option<JsonValue>, answers: nat -> HttpResponse) returns (failure: Option<string>)
      requires response == None
      modifies this`effects, this`response
      ensures var s := PollFrom(0, key, taskId, Verdicts(answers));
              effects == old(effects) + s.effects && (response, failure) == Displayed(s.outcome)
    {
      failure := None;
      var pollCount: nat := 0;
      ghost var verdicts := Verdicts(answers);
      ghost var stopped, outcome := false, Failure(TimeoutMessage);
      while pollCount < MaxPolls
        invariant pollCount <= MaxPolls
        invariant failure == None && response == None
        invariant forall i :: 0 <= i < pollCount ==> verdicts(i).Continue?
        invariant effects == old(effects) + Rounds(pollCount, key, taskId)
      {
        effects := effects + [Wait(PollIntervalMs)];
        effects := effects + [StatusRequest(key, taskId)];
        assert effects == old(effects) + Rounds(pollCount + 1, key, taskId);
        var pollResponse := answers(pollCount);
        assert verdicts(pollCount) == Classify(pollResponse);
        if pollResponse.NotOk? {
          failure := Some(HttpErrorMessage(pollResponse.status));
          stopped, outcome := true, Failure(failure.value);
          break;
        }
        var pollData := pollResponse.body;
        if pollData == JNull {
          failure := Some(NullReadMessage("metadata"));
          stopped, outcome := true, Failure(failure.value);
          break;
        }
        var status := StatusOf(pollData);
        if status == Some("succeeded") {
          response := Some(pollData);
          stopped, outcome := true, Success(pollData);
          break;
        } else if status == Some("failed") || status == Some("cancelled") {
          failure := Some(TaskFailedMessage(status.value));
          stopped, outcome := true, Failure(failure.value);
          break;
        }
        pollCount := pollCount + 1;
      }
      if pollCount >= MaxPolls {
        failure := Some(TimeoutMessage);
      }
      if stopped {
        assert pollCount < MaxPolls && verdicts(pollCount) == Finish(outcome);
        assert effects == old(effects) + Rounds(pollCount + 1, key, taskId);
        PollDecidedAt(key, taskId, verdicts, pollCount);
      } else {
        PollTimesOut(key, taskId, verdicts);
      }
    }

    /**
     * The `try` block of `sendMessage`: the submit POST, then the polling.
     * A thrown error's message comes back as `failure`. `key` and `text`
     * are the API key and prompt the `sendMessage` closure captured.
     */
    method SubmitAndPoll(key: string, text: string, init: HttpResponse, answers: nat -> HttpResponse) returns (failure: Option<string>)
      requires response == None
      modifies this`effects, this`response
      ensures var s := Send(key, text, init, answers);
              effects == old(effects) + s.effects && (response, failure) == Displayed(s.outcome)
    {
      ghost var before := effects;
      effects := effects + [Submit(key, text)];
      if init.NotOk? {
        failure := Some(HttpErrorMessage(init.status));
      } else if init.body == JNull {
        failure := Some(NullReadMessage("task_id"));
      } else {
        var taskId := TaskIdOf(init);
        SendAppends(before, key, text, init, answers);
        failure := PollTask(key, taskId, answers);
      }
    }

    /**
     * `sendMessage`, with `init` the answer to the submit POST and
     * `answers(i)` the answer to the (i+1)-th status request. It ends
     * not loading, with exactly one of `response`/`error` set as Send
     * determines, and having issued Send's effects.
     */
    method SendMessage(init: HttpResponse, answers: nat -> HttpResponse)
      modifies this
      ensures apiKey == old(apiKey) && prompt == old(prompt)
      ensures var s := Send(old(apiKey), old(prompt), init, answers);
              effects == old(effects) + s.effects && (response, error) == Displayed(s.outcome)
      ensures !loading && flags == Fresh(false) && Valid()
      ensures Visible().Some? ==> Collapsed(Visible().value)
      ensures response.Some? != error.Some?
      ensures SendEnabled() <==> |apiKey| > 0 && |prompt| > 0
    {
      ghost var key, text := apiKey, prompt;
      BeginSend();
      var failure := SubmitAndPoll(apiKey, prompt, init, answers);
      if response.Some? {
        SuccessIsObject(key, text, init, answers);
      }
      if failure.Some? {
        error := failure;
      }
      loading := false;
    }
  }
}
