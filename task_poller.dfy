/**
 * What one run of `sendMessage` does, as a function of what the server
 * answers: one submit POST, then up to MaxPolls rounds of "wait 5 seconds,
 * GET the task status", ending in a success body or one error message.
 *
 * The network is an input: `init` is the answer to the POST and
 * `answers(i)` the answer to the (i+1)-th status request. The requests and
 * waits the page issues are recorded as a sequence of effects.
 */
module TaskPoller {
  import opened Wrappers
  import opened Json
  import Decimal

  /** `maxPolls`: 5 minutes of polling at 5-second intervals. */
  const MaxPolls: nat := 60
  /** The `setTimeout` delay before every status request. */
  const PollIntervalMs: nat := 5000
  const TimeoutMessage: string := "Polling timed out"

  /** A `fetch` answer: `ok` is false (with its status code), or true with the parsed body. */
  datatype HttpResponse = NotOk(status: nat) | Ok(body: JsonValue)

  /** What the page does to the outside world, in order. */
  datatype Effect =
    | Submit(apiKey: string, prompt: string)                    // POST baseUrl
    | Wait(ms: nat)                                             // setTimeout
    | StatusRequest(apiKey: string, taskId: Option<JsonValue>)  // GET baseUrl/taskId

  /** How the `try` block ends: `setResponse(pollData)`, or a thrown Error's message. */
  datatype Outcome = Success(body: JsonValue) | Failure(message: string)

  /** What the loop does with one status answer. */
  datatype Verdict = Continue | Finish(outcome: Outcome)

  /** A whole run: its outcome and the effects it issued. */
  datatype Session = Session(outcome: Outcome, effects: seq<Effect>)

  /** The message thrown for a response that is not ok. */
  function HttpErrorMessage(code: nat): string
  {
    "HTTP error! status: " + Decimal.NatToString(code)
  }

  /** The status code can be read back from the digits after the message's fixed prefix. */
  lemma HttpErrorMessageCode(code: nat)
    ensures |HttpErrorMessage(code)| > 20
    ensures forall i :: 20 <= i < |HttpErrorMessage(code)| ==> Decimal.IsDigit(HttpErrorMessage(code)[i])
    ensures Decimal.DecimalValue(HttpErrorMessage(code)[20..]) == code
  {
    assert HttpErrorMessage(code)[20..] == Decimal.NatToString(code);
    Decimal.DecimalRoundTrip(code);
  }

  /** The message thrown for a task that failed or was cancelled. */
  function TaskFailedMessage(status: string): string
  {
    "Task " + status
  }

  /**
   * The TypeError thrown when a property is read from a `null` body
   * (the wording is that of the V8 engine).
   */
  function NullReadMessage(property: string): string
  {
    "Cannot read properties of null (reading '" + property + "')"
  }

  /**
   * Each message is its fixed text with the varying part spliced in, and
   * that part can be recovered: the status after "Task ", the property
   * between the quotes of the TypeError.
   */
  lemma MessageTexts(code: nat, status: string, property: string)
    ensures HttpErrorMessage(code)[..20] == "HTTP error! status: "
    ensures TaskFailedMessage(status)[..5] == "Task " && TaskFailedMessage(status)[5..] == status
    ensures var m := NullReadMessage(property);
            |m| == 43 + |property| && m[..41] == "Cannot read properties of null (reading '"
            && m[41..|m| - 2] == property && m[|m| - 2..] == "')"
  {
    assert |HttpErrorMessage(code)| > 20 by { HttpErrorMessageCode(code); }
  }

  /** `pollData.metadata?.status` when it is a string (only a string can equal the awaited values). */
  function StatusOf(body: JsonValue): (r: Option<string>)
    ensures r.Some? ==> body.JObject? && Property(body, "metadata").Some?
                        && Property(Property(body, "metadata").value, "status") == Some(JString(r.value))
  {
    match Property(body, "metadata")
    case Some(metadata) =>
      (match Property(metadata, "status")
       case Some(JString(s)) => Some(s)
       case _ => None)
    case None => None
  }

  /** A string `metadata.status` is always read: StatusOf gives exactly that string. */
  lemma StatusRead(body: JsonValue, metadata: JsonValue, s: string)
    requires Property(body, "metadata") == Some(metadata) && Property(metadata, "status") == Some(JString(s))
    ensures StatusOf(body) == Some(s)
  {
  }

  /** A status answer that lets the loop go on: ok, with no terminal status. */
  predicate IsPending(r: HttpResponse)
  {
    r.Ok? && r.body != JNull
    && StatusOf(r.body) != Some("succeeded")
    && StatusOf(r.body) != Some("failed")
    && StatusOf(r.body) != Some("cancelled")
  }

  /**
   * The answers the loop waits past: an ok, non-null body with no
   * `metadata`, with a `status` that is missing or not a string, or with
   * a status string other than the three terminal ones.
   */
  lemma PendingKinds(body: JsonValue)
    requires body != JNull
    ensures Property(body, "metadata").None? ==> IsPending(Ok(body))
    ensures Property(body, "metadata").Some? && !(Property(Property(body, "metadata").value, "status").Some?
              && Property(Property(body, "metadata").value, "status").value.JString?)
            ==> IsPending(Ok(body))
    ensures StatusOf(body).Some? && StatusOf(body).value != "succeeded" && StatusOf(body).value != "failed"
            && StatusOf(body).value != "cancelled"
            ==> IsPending(Ok(body))
  {
  }

  /** The body of one loop iteration after its request. */
  function Classify(r: HttpResponse): (v: Verdict)
    ensures v.Continue? <==> IsPending(r)
    ensures v.Finish? && v.outcome.Success? <==> r.Ok? && r.body != JNull && StatusOf(r.body) == Some("succeeded")
    ensures v.Finish? && v.outcome.Success? ==> v.outcome.body == r.body
    ensures r.NotOk? ==> v == Finish(Failure(HttpErrorMessage(r.status)))
    ensures r.Ok? && r.body == JNull ==> v == Finish(Failure(NullReadMessage("metadata")))
    ensures r.Ok? && r.body != JNull && (StatusOf(r.body) == Some("failed") || StatusOf(r.body) == Some("cancelled"))
            ==> v == Finish(Failure(TaskFailedMessage(StatusOf(r.body).value)))
  {
    match r
    case NotOk(code) => Finish(Failure(HttpErrorMessage(code)))
    case Ok(pollData) =>
      if pollData == JNull then Finish(Failure(NullReadMessage("metadata")))
      else
        var status := StatusOf(pollData);
        if status == Some("succeeded") then Finish(Success(pollData))
        else if status == Some("failed") || status == Some("cancelled") then Finish(Failure(TaskFailedMessage(status.value)))
        else Continue
  }

  /** One loop iteration's effects: the delay, then the status request. */
  function Round(apiKey: string, taskId: Option<JsonValue>): seq<Effect>
  {
    [Wait(PollIntervalMs), StatusRequest(apiKey, taskId)]
  }

  /** The effects of n iterations. */
  function Rounds(n: nat, apiKey: string, taskId: Option<JsonValue>): seq<Effect>
  {
    if n == 0 then [] else Rounds(n - 1, apiKey, taskId) + Round(apiKey, taskId)
  }

  /** What each status answer means to the loop: `Verdicts(answers)(i)` for the (i+1)-th answer. */
  function Verdicts(answers: nat -> HttpResponse): nat -> Verdict
  {
    (i: nat) => Classify(answers(i))
  }

  /** The loop, entered with `pollCount == count`, given the verdict on every answer. */
  function PollFrom(count: nat, apiKey: string, taskId: Option<JsonValue>, verdicts: nat -> Verdict): Session
    requires count <= MaxPolls
    decreases MaxPolls - count
  {
    if count == MaxPolls then Session(Failure(TimeoutMessage), [])
    else
      match verdicts(count)
      case Continue =>
        var rest := PollFrom(count + 1, apiKey, taskId, verdicts);
        Session(rest.outcome, Round(apiKey, taskId) + rest.effects)
      case Finish(outcome) => Session(outcome, Round(apiKey, taskId))
  }

  /** `initData.task_id`, the task every status request names. */
  function TaskIdOf(init: HttpResponse): Option<JsonValue>
  {
    if init.Ok? && init.body != JNull then Property(init.body, "task_id") else None
  }

  /**
   * The task id comes only from an ok object body, and is its `task_id`
   * property whenever the body has one.
   */
  lemma TaskIdRead(init: HttpResponse)
    ensures TaskIdOf(init).Some? ==> init.Ok? && init.body.JObject?
    ensures init.Ok? && init.body.JObject? ==> TaskIdOf(init) == Property(init.body, "task_id")
  {
  }

  /** The whole `try` block of `sendMessage`. */
  function Send(apiKey: string, prompt: string, init: HttpResponse, answers: nat -> HttpResponse): (s: Session)
    ensures s.effects != [] && s.effects[0] == Submit(apiKey, prompt)
  {
    var submit := [Submit(apiKey, prompt)];
    match init
    case NotOk(code) => Session(Failure(HttpErrorMessage(code)), submit)
    case Ok(initData) =>
      if initData == JNull then Session(Failure(NullReadMessage("task_id")), submit)
      else
        var polled := PollFrom(0, apiKey, TaskIdOf(init), Verdicts(answers));
        Session(polled.outcome, submit + polled.effects)
  }

  /** After a good POST, the run is the POST followed by the polling loop. */
  lemma SendPolls(apiKey: string, prompt: string, init: HttpResponse, answers: nat -> HttpResponse)
    requires init.Ok? && init.body != JNull
    ensures Send(apiKey, prompt, init, answers).outcome == PollFrom(0, apiKey, TaskIdOf(init), Verdicts(answers)).outcome
    ensures Send(apiKey, prompt, init, answers).effects
            == [Submit(apiKey, prompt)] + PollFrom(0, apiKey, TaskIdOf(init), Verdicts(answers)).effects
  {
  }

  /** What a run adds to the effects issued before it, once its POST is answered ok with a body. */
  lemma SendAppends(before: seq<Effect>, apiKey: string, prompt: string, init: HttpResponse, answers: nat -> HttpResponse)
    requires init.Ok? && init.body != JNull
    ensures var polled := PollFrom(0, apiKey, TaskIdOf(init), Verdicts(answers));
            (before + [Submit(apiKey, prompt)]) + polled.effects == before + Send(apiKey, prompt, init, answers).effects
            && polled.outcome == Send(apiKey, prompt, init, answers).outcome
  {
    SendPolls(apiKey, prompt, init, answers);
    var polled := PollFrom(0, apiKey, TaskIdOf(init), Verdicts(answers));
    assert (before + [Submit(apiKey, prompt)]) + polled.effects == before + ([Submit(apiKey, prompt)] + polled.effects);
  }

  /** The number of status requests among some effects. */
  function Requests(effects: seq<Effect>): nat
  {
    if effects == [] then 0
    else Requests(effects[..|effects| - 1]) + (if effects[|effects| - 1].StatusRequest? then 1 else 0)
  }

  /**
   * The reference reading of a run: the first of the status answers from
   * `from` on that is not pending, if one comes before the poll limit.
   */
  function FirstDecisive(answers: nat -> HttpResponse, from: nat): (r: Option<nat>)
    requires from <= MaxPolls
    ensures r.Some? ==> from <= r.value < MaxPolls && !IsPending(answers(r.value))
                        && forall i :: from <= i < r.value ==> IsPending(answers(i))
    ensures r.None? ==> forall i :: from <= i < MaxPolls ==> IsPending(answers(i))
    decreases MaxPolls - from
  {
    if from == MaxPolls then None
    else if !IsPending(answers(from)) then Some(from)
    else FirstDecisive(answers, from + 1)
  }

  // ---------------------------------------------------------------------------
  // The shape of the effects

  lemma {:induction false} RoundThenRounds(n: nat, apiKey: string, taskId: Option<JsonValue>)
    ensures Round(apiKey, taskId) + Rounds(n, apiKey, taskId) == Rounds(n + 1, apiKey, taskId)
  {
    if n > 0 {
      RoundThenRounds(n - 1, apiKey, taskId);
    }
  }

  /**
   * n rounds are n waits of 5 seconds alternating with n status requests,
   * the wait first: exactly one delay precedes every request.
   */
  lemma {:induction false} RoundsShape(n: nat, apiKey: string, taskId: Option<JsonValue>)
    ensures |Rounds(n, apiKey, taskId)| == 2 * n
    ensures Requests(Rounds(n, apiKey, taskId)) == n
    ensures forall j :: 0 <= j < n ==> Rounds(n, apiKey, taskId)[2 * j] == Wait(PollIntervalMs)
                                       && Rounds(n, apiKey, taskId)[2 * j + 1] == StatusRequest(apiKey, taskId)
  {
    if n > 0 {
      RoundsShape(n - 1, apiKey, taskId);
      var rs := Rounds(n, apiKey, taskId);
      assert rs[..|rs| - 1] == Rounds(n - 1, apiKey, taskId) + [Wait(PollIntervalMs)];
      assert rs[..|rs| - 1][..|rs| - 2] == Rounds(n - 1, apiKey, taskId);
    }
  }

  lemma {:induction false} RequestsAppend(a: seq<Effect>, b: seq<Effect>)
    ensures Requests(a + b) == Requests(a) + Requests(b)
    decreases |b|
  {
    if b == [] {
      assert a + b == a;
    } else {
      RequestsAppend(a, b[..|b| - 1]);
      assert (a + b)[..|a + b| - 1] == a + b[..|b| - 1];
    }
  }

  // ---------------------------------------------------------------------------
  // How the loop runs

  /** One Continue verdict costs one round and hands over to the next iteration. */
  lemma PollStep(count: nat, apiKey: string, taskId: Option<JsonValue>, verdicts: nat -> Verdict)
    requires count < MaxPolls && verdicts(count).Continue?
    ensures PollFrom(count, apiKey, taskId, verdicts)
            == Session(PollFrom(count + 1, apiKey, taskId, verdicts).outcome,
                       Round(apiKey, taskId) + PollFrom(count + 1, apiKey, taskId, verdicts).effects)
  {
  }

  lemma RoundsPrepend(n: nat, apiKey: string, taskId: Option<JsonValue>, tail: seq<Effect>)
    ensures Round(apiKey, taskId) + (Rounds(n, apiKey, taskId) + tail) == Rounds(n + 1, apiKey, taskId) + tail
  {
    RoundThenRounds(n, apiKey, taskId);
    assert Round(apiKey, taskId) + (Rounds(n, apiKey, taskId) + tail)
        == (Round(apiKey, taskId) + Rounds(n, apiKey, taskId)) + tail;
  }

  /** Pending answers are skipped one round each. */
  lemma {:induction false} PollSkipsPending(count: nat, k: nat, apiKey: string, taskId: Option<JsonValue>,
                                            verdicts: nat -> Verdict)
    requires count <= k <= MaxPolls
    requires forall i :: count <= i < k ==> verdicts(i).Continue?
    ensures PollFrom(count, apiKey, taskId, verdicts)
            == Session(PollFrom(k, apiKey, taskId, verdicts).outcome,
                       Rounds(k - count, apiKey, taskId) + PollFrom(k, apiKey, taskId, verdicts).effects)
    decreases k - count
  {
    var last := PollFrom(k, apiKey, taskId, verdicts);
    if count < k {
      PollStep(count, apiKey, taskId, verdicts);
      PollSkipsPending(count + 1, k, apiKey, taskId, verdicts);
      RoundsPrepend(k - count - 1, apiKey, taskId, last.effects);
    } else {
      assert Rounds(0, apiKey, taskId) + last.effects == last.effects;
    }
  }

  /** A loop whose first verdict other than Continue is at index k < MaxPolls stops there, after k+1 rounds. */
  lemma PollDecidedAt(apiKey: string, taskId: Option<JsonValue>, verdicts: nat -> Verdict, k: nat)
    requires k < MaxPolls
    requires forall i :: 0 <= i < k ==> verdicts(i).Continue?
    requires verdicts(k).Finish?
    ensures PollFrom(0, apiKey, taskId, verdicts) == Session(verdicts(k).outcome, Rounds(k + 1, apiKey, taskId))
  {
    PollSkipsPending(0, k, apiKey, taskId, verdicts);
  }

  /** A loop that meets only Continue verdicts times out after MaxPolls rounds. */
  lemma PollTimesOut(apiKey: string, taskId: Option<JsonValue>, verdicts: nat -> Verdict)
    requires forall i :: 0 <= i < MaxPolls ==> verdicts(i).Continue?
    ensures PollFrom(0, apiKey, taskId, verdicts) == Session(Failure(TimeoutMessage), Rounds(MaxPolls, apiKey, taskId))
  {
    PollSkipsPending(0, MaxPolls, apiKey, taskId, verdicts);
    assert Rounds(MaxPolls, apiKey, taskId) + [] == Rounds(MaxPolls, apiKey, taskId);
  }

  /**
   * Every run is decided by FirstDecisive: the first non-pending answer at
   * index k ends it after k+1 rounds with what Classify makes of that
   * answer; with none, it times out after MaxPolls rounds.
   */
  lemma SendByFirstDecisive(apiKey: string, prompt: string, init: HttpResponse, answers: nat -> HttpResponse)
    requires init.Ok? && init.body != JNull
    ensures var s := Send(apiKey, prompt, init, answers);
            var submit := [Submit(apiKey, prompt)];
            var taskId := TaskIdOf(init);
            match FirstDecisive(answers, 0)
            case Some(k) => s == Session(Classify(answers(k)).outcome, submit + Rounds(k + 1, apiKey, taskId))
            case None => s == Session(Failure(TimeoutMessage), submit + Rounds(MaxPolls, apiKey, taskId))
  {
    match FirstDecisive(answers, 0)
    case Some(k) =>
      DecidedAtPoll(apiKey, prompt, init, answers, k + 1);
    case None =>
      TimesOut(apiKey, prompt, init, answers);
  }

  /**
   * Whatever the server answers, a run is one POST followed by at most
   * MaxPolls rounds of one 5-second wait and one status request.
   */
  lemma AtMostMaxPolls(apiKey: string, prompt: string, init: HttpResponse, answers: nat -> HttpResponse)
    ensures exists n: nat :: n <= MaxPolls
                        && Send(apiKey, prompt, init, answers).effects
                           == [Submit(apiKey, prompt)] + Rounds(n, apiKey, TaskIdOf(init))
    ensures Requests(Send(apiKey, prompt, init, answers).effects) <= MaxPolls
  {
    var s := Send(apiKey, prompt, init, answers);
    var taskId := TaskIdOf(init);
    var n: nat;
    if init.NotOk? || init.body == JNull {
      n := 0;
      assert s.effects == [Submit(apiKey, prompt)] + Rounds(0, apiKey, taskId);
    } else {
      SendByFirstDecisive(apiKey, prompt, init, answers);
      n := if FirstDecisive(answers, 0).Some? then FirstDecisive(answers, 0).value + 1 else MaxPolls;
    }
    assert s.effects == [Submit(apiKey, prompt)] + Rounds(n, apiKey, taskId);
    RequestsAppend([Submit(apiKey, prompt)], Rounds(n, apiKey, taskId));
    RoundsShape(n, apiKey, taskId);
    assert Requests([Submit(apiKey, prompt)]) == 0 by {
      assert [Submit(apiKey, prompt)][..0] == [];
    }
  }

  // ---------------------------------------------------------------------------
  // The four ways a run ends

  /** A POST that is not ok ends the run at once with its status code, before any polling. */
  lemma SubmitHttpError(apiKey: string, prompt: string, code: nat, answers: nat -> HttpResponse)
    ensures Send(apiKey, prompt, NotOk(code), answers)
            == Session(Failure("HTTP error! status: " + Decimal.NatToString(code)), [Submit(apiKey, prompt)])
  {
  }

  /** A POST answered ok with a `null` body ends the run with the TypeError of `initData.task_id`, before any polling. */
  lemma SubmitNullBody(apiKey: string, prompt: string, answers: nat -> HttpResponse)
    ensures Send(apiKey, prompt, Ok(JNull), answers)
            == Session(Failure("Cannot read properties of null (reading 'task_id')"), [Submit(apiKey, prompt)])
  {
    assert NullReadMessage("task_id") == "Cannot read properties of null (reading 'task_id')";
  }

  /**
   * An ok k-th status answer with a `null` body ends the run with the
   * TypeError of `pollData.metadata` (its text is given by MessageTexts).
   */
  lemma NullBodyAtPoll(apiKey: string, prompt: string, init: HttpResponse, answers: nat -> HttpResponse, k: nat)
    requires init.Ok? && init.body != JNull
    requires 1 <= k <= MaxPolls
    requires forall i :: 0 <= i < k - 1 ==> IsPending(answers(i))
    requires answers(k - 1) == Ok(JNull)
    ensures Send(apiKey, prompt, init, answers)
            == Session(Failure(NullReadMessage("metadata")),
                       [Submit(apiKey, prompt)] + Rounds(k, apiKey, TaskIdOf(init)))
    ensures Requests(Send(apiKey, prompt, init, answers).effects) == k
  {
    DecidedAtPoll(apiKey, prompt, init, answers, k);
  }

  /**
   * The k-th status answer (1 <= k <= MaxPolls) is ok and reports
   * "succeeded", after k-1 pending ones: the run succeeds with that body
   * after exactly k status requests, each after one wait.
   */
  lemma SucceedsAtPoll(apiKey: string, prompt: string, init: HttpResponse, answers: nat -> HttpResponse, k: nat)
    requires init.Ok? && init.body != JNull
    requires 1 <= k <= MaxPolls
    requires forall i :: 0 <= i < k - 1 ==> IsPending(answers(i))
    requires answers(k - 1).Ok? && answers(k - 1).body != JNull && StatusOf(answers(k - 1).body) == Some("succeeded")
    ensures Send(apiKey, prompt, init, answers)
            == Session(Success(answers(k - 1).body), [Submit(apiKey, prompt)] + Rounds(k, apiKey, TaskIdOf(init)))
    ensures Requests(Send(apiKey, prompt, init, answers).effects) == k
  {
    DecidedAtPoll(apiKey, prompt, init, answers, k);
  }

  /** A "failed" or "cancelled" k-th answer ends the run with "Task <status>" and no further request. */
  lemma TaskEndsAtPoll(apiKey: string, prompt: string, init: HttpResponse, answers: nat -> HttpResponse, k: nat)
    requires init.Ok? && init.body != JNull
    requires 1 <= k <= MaxPolls
    requires forall i :: 0 <= i < k - 1 ==> IsPending(answers(i))
    requires answers(k - 1).Ok? && answers(k - 1).body != JNull
    requires StatusOf(answers(k - 1).body) == Some("failed") || StatusOf(answers(k - 1).body) == Some("cancelled")
    ensures Send(apiKey, prompt, init, answers)
            == Session(Failure("Task " + StatusOf(answers(k - 1).body).value),
                       [Submit(apiKey, prompt)] + Rounds(k, apiKey, TaskIdOf(init)))
    ensures Requests(Send(apiKey, prompt, init, answers).effects) == k
  {
    DecidedAtPoll(apiKey, prompt, init, answers, k);
  }

  /** A k-th status answer that is not ok ends the run with its status code and no further request. */
  lemma PollHttpError(apiKey: string, prompt: string, init: HttpResponse, answers: nat -> HttpResponse, k: nat)
    requires init.Ok? && init.body != JNull
    requires 1 <= k <= MaxPolls
    requires forall i :: 0 <= i < k - 1 ==> IsPending(answers(i))
    requires answers(k - 1).NotOk?
    ensures Send(apiKey, prompt, init, answers)
            == Session(Failure("HTTP error! status: " + Decimal.NatToString(answers(k - 1).status)),
                       [Submit(apiKey, prompt)] + Rounds(k, apiKey, TaskIdOf(init)))
    ensures Requests(Send(apiKey, prompt, init, answers).effects) == k
  {
    DecidedAtPoll(apiKey, prompt, init, answers, k);
  }

  /** MaxPolls pending answers in a row: the run times out after exactly MaxPolls requests. */
  lemma TimesOut(apiKey: string, prompt: string, init: HttpResponse, answers: nat -> HttpResponse)
    requires init.Ok? && init.body != JNull
    requires forall i :: 0 <= i < MaxPolls ==> IsPending(answers(i))
    ensures Send(apiKey, prompt, init, answers)
            == Session(Failure("Polling timed out"), [Submit(apiKey, prompt)] + Rounds(MaxPolls, apiKey, TaskIdOf(init)))
    ensures Requests(Send(apiKey, prompt, init, answers).effects) == MaxPolls
  {
    var verdicts := Verdicts(answers);
    forall i | 0 <= i < MaxPolls ensures verdicts(i).Continue? {
      assert IsPending(answers(i));
    }
    PollTimesOut(apiKey, TaskIdOf(init), verdicts);
    CountSubmitThenRounds(apiKey, prompt, MaxPolls, TaskIdOf(init));
  }

  /** A run succeeds only in the way SucceedsAtPoll describes: some answer reported "succeeded" in time, after pending ones only. */
  lemma SuccessOnlyIfSucceeded(apiKey: string, prompt: string, init: HttpResponse, answers: nat -> HttpResponse)
    requires Send(apiKey, prompt, init, answers).outcome.Success?
    ensures init.Ok? && init.body != JNull
    ensures exists k :: 0 <= k < MaxPolls && answers(k).Ok? && answers(k).body != JNull
                        && StatusOf(answers(k).body) == Some("succeeded")
                        && Send(apiKey, prompt, init, answers).outcome.body == answers(k).body
                        && forall i :: 0 <= i < k ==> IsPending(answers(i))
  {
    SendByFirstDecisive(apiKey, prompt, init, answers);
    var k := FirstDecisive(answers, 0).value;
    assert Classify(answers(k)).Finish?;
  }

  /** The body a successful run shows is always an object (it has a `metadata.status`). */
  lemma SuccessIsObject(apiKey: string, prompt: string, init: HttpResponse, answers: nat -> HttpResponse)
    requires Send(apiKey, prompt, init, answers).outcome.Success?
    ensures Send(apiKey, prompt, init, answers).outcome.body.JObject?
  {
    SuccessOnlyIfSucceeded(apiKey, prompt, init, answers);
    var k :| 0 <= k < MaxPolls && answers(k).Ok? && answers(k).body != JNull
             && StatusOf(answers(k).body) == Some("succeeded")
             && Send(apiKey, prompt, init, answers).outcome.body == answers(k).body
             && forall i :: 0 <= i < k ==> IsPending(answers(i));
  }

  lemma DecidedAtPoll(apiKey: string, prompt: string, init: HttpResponse, answers: nat -> HttpResponse, k: nat)
    requires init.Ok? && init.body != JNull
    requires 1 <= k <= MaxPolls
    requires forall i :: 0 <= i < k - 1 ==> IsPending(answers(i))
    requires !IsPending(answers(k - 1))
    ensures Send(apiKey, prompt, init, answers)
            == Session(Classify(answers(k - 1)).outcome, [Submit(apiKey, prompt)] + Rounds(k, apiKey, TaskIdOf(init)))
    ensures Requests(Send(apiKey, prompt, init, answers).effects) == k
  {
    var verdicts := Verdicts(answers);
    forall i | 0 <= i < k - 1 ensures verdicts(i).Continue? {
      assert IsPending(answers(i));
    }
    assert verdicts(k - 1) == Classify(answers(k - 1));
    PollDecidedAt(apiKey, TaskIdOf(init), verdicts, k - 1);
    CountSubmitThenRounds(apiKey, prompt, k, TaskIdOf(init));
  }

  lemma CountSubmitThenRounds(apiKey: string, prompt: string, n: nat, taskId: Option<JsonValue>)
    ensures Requests([Submit(apiKey, prompt)] + Rounds(n, apiKey, taskId)) == n
  {
    RequestsAppend([Submit(apiKey, prompt)], Rounds(n, apiKey, taskId));
    RoundsShape(n, apiKey, taskId);
    assert [Submit(apiKey, prompt)][..0] == [];
  }

  /** The four kinds of error text cannot be confused with each other. */
  lemma ErrorKindsDistinct(code: nat, status: string, property: string)
    ensures HttpErrorMessage(code) != TimeoutMessage
    ensures HttpErrorMessage(code) != TaskFailedMessage(status)
    ensures HttpErrorMessage(code) != NullReadMessage(property)
    ensures TaskFailedMessage(status) != TimeoutMessage
    ensures TaskFailedMessage(status) != NullReadMessage(property)
    ensures NullReadMessage(property) != TimeoutMessage
  {
    assert HttpErrorMessage(code)[0] == 'H';
    assert TaskFailedMessage(status)[0] == 'T';
    assert NullReadMessage(property)[0] == 'C';
    assert TimeoutMessage[0] == 'P';
  }

  /** Two HTTP errors read the same only if their status codes are equal. */
  lemma HttpErrorMessageInjective(m: nat, n: nat)
    requires HttpErrorMessage(m) == HttpErrorMessage(n)
    ensures m == n
  {
    HttpErrorMessageCode(m);
    HttpErrorMessageCode(n);
  }

  // ---------------------------------------------------------------------------
  // A worked run

  function Body(status: string): JsonValue
  {
    JObject([("metadata", JObject([("status", JString(status))]))])
  }

  /**
   * The POST returns task "abc"; the first two polls report "pending", the
   * third `{metadata: {status: "succeeded"}, data: {x: 1}}`: the run
   * succeeds with that body after three status requests.
   */
  lemma ThreePollScenario()
    ensures var done := JObject([("metadata", JObject([("status", JString("succeeded"))])),
                                 ("data", JObject([("x", JNumber(1.0))]))]);
            var init := Ok(JObject([("task_id", JString("abc"))]));
            var answers := (i: nat) => if i < 2 then Ok(Body("pending")) else if i == 2 then Ok(done) else NotOk(500);
            var s := Send("key123", "hello", init, answers);
            s.outcome == Success(done) && Requests(s.effects) == 3
            && s.effects == [Submit("key123", "hello")] + Rounds(3, "key123", Some(JString("abc")))
  {
    var done := JObject([("metadata", JObject([("status", JString("succeeded"))])),
                         ("data", JObject([("x", JNumber(1.0))]))]);
    var init := Ok(JObject([("task_id", JString("abc"))]));
    var answers := (i: nat) => if i < 2 then Ok(Body("pending")) else if i == 2 then Ok(done) else NotOk(500);
    assert StatusOf(Body("pending")) == Some("pending");
    assert StatusOf(done) == Some("succeeded");
    assert TaskIdOf(init) == Some(JString("abc"));
    SucceedsAtPoll("key123", "hello", init, answers, 3);
  }
}
