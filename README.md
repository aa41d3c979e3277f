# Forge API Chat: polling state machine and JSON tree view

A model of the logic inside the single page of `forge-api-chat`
(`app/page.tsx`). The page sends a prompt to an asynchronous completion API
and polls the task until it ends. It then shows the returned JSON as a
collapsible tree.

The model has two parts.

* **Polling (`sendMessage`)**. One run makes the submit POST. It then polls
  up to `maxPolls = 60` times. Each poll waits 5000 ms and then sends one
  status GET. A run ends in one of five ways:
  * success, when the status is `"succeeded"`;
  * `"Task failed"` or `"Task cancelled"`;
  * `"HTTP error! status: <code>"`, for a response that is not ok, to the POST or to any poll;
  * `"Polling timed out"`;
  * `"Cannot read properties of null (reading 'task_id')"` or `(reading 'metadata')`, for an ok answer whose body is `null`, to the POST or to a poll.

  The network is an input. `init` is the answer to the POST, and `answers(i)`
  is the answer to the (i+1)-th status request. Every wait and request is
  recorded as an `Effect`. `TaskPoller.Send` is the pure specification of a
  run. `ChatPage.Page` holds the component's React state as fields.
  `Page.PollTask` has the source's `while` loop with `break`s, proved to
  issue what `PollFrom` prescribes. `Page.SendMessage` reaches it through
  `Page.SubmitAndPoll`, and its contract ties the final fields and the
  recorded effects to `Send`. The
  lemmas about `Send` state what the source promises:
  * the 60-request bound;
  * exactly one wait before each request;
  * each of the five endings, with its exact number of requests;
  * success only through a `"succeeded"` answer.

  `FirstDecisive` (the first answer that is not pending) is an independent
  reading of a run, and `SendByFirstDecisive` proves that `Send` agrees with it.
* **`JsonViewer`**. `JsonViewer.Render` gives the visible tree for a JSON
  value. It takes the expansion flag of every mounted node, keyed by the
  node's path from the root. Scalars are leaves. Arrays and objects are
  `"Array"`/`"Object"` toggles whose children appear only while the node is
  expanded, in index or entry order, labelled by index or key.
  `initialExpanded` applies only at the root. `ToggleAt` is a click on a
  toggle. Only mounted nodes hold a flag (`NoStale`): every click the page
  can receive keeps it, so a node revealed by expanding its parent always
  mounts collapsed.

Where the model follows the code rather than a plain reading of it:

* **Collapsing resets descendants.** Children are rendered only while
  `isExpanded` holds (line 54). Collapsing a node therefore unmounts its
  children, and React drops their `useState`. So `ToggleAt` flips the
  clicked node's flag and keeps every flag outside that node's subtree. On
  collapse, it also resets the flags below the node to collapsed.
  `CollapseResetsChildren` proves what the user then sees. Expanding changes
  exactly one flag.
* **A `null` body throws a TypeError.** `initData.task_id` (line 92) or
  `pollData.metadata` (line 111) on a `null` body throws. The model ends the
  run with the message the V8 engine gives: `Cannot read properties of null
  (reading '<property>')`.
* **Non-string statuses are pending.** Only a string `status` can equal
  `'succeeded'`, `'failed'` or `'cancelled'`. Any other value, an absent
  `metadata` and a `null` `metadata` all count as pending.
* **No separate authentication error.** A rejected API key (401) gets the
  same HTTP error message as any other response that is not ok.

## Model

| member | source | states |
|---|---|---|
| `Json.GetFirst` | forge-api-chat/app/page.tsx:92 | `Get` (a key lookup) finds the key exactly when some entry has it, and yields the value of the first such entry |
| `Json.PropertyFirst` | forge-api-chat/app/page.tsx:111 | `Property` (a property read) gives a value exactly when the value is an object with an entry for that key, and then the value of the first such entry |
| `Json.IsScalar` | forge-api-chat/app/page.tsx:22 | the scalars, which render as leaves, are exactly null, booleans, numbers and strings |
| `Decimal.NatToString` | forge-api-chat/app/page.tsx:88 | a status code prints as a non-empty string of digits with no leading zero |
| `Decimal.DecimalRoundTrip` | forge-api-chat/app/page.tsx:88 | reading the printed digits back gives the status code |
| `Decimal.NatToStringInjective` | forge-api-chat/app/page.tsx:107 | different status codes print differently |
| `TaskPoller.HttpErrorMessageCode` | forge-api-chat/app/page.tsx:88 | the HTTP error message is its fixed prefix followed by digits that read back as the status code |
| `TaskPoller.MessageTexts` | forge-api-chat/app/page.tsx:88-118 | each error message is its fixed text with the code, the status or the property spliced in, and the status and the property can be read back from it |
| `TaskPoller.StatusOf` | forge-api-chat/app/page.tsx:111 | a status is read only from an object body whose `metadata` property holds a string `status` |
| `TaskPoller.StatusRead` | forge-api-chat/app/page.tsx:111 | a string `metadata.status` is always read: the status is exactly that string |
| `TaskPoller.PendingKinds` | forge-api-chat/app/page.tsx:113-118 | `IsPending` holds for an ok non-null body with no `metadata`, with a `status` that is absent or not a string, or with any status string other than "succeeded", "failed" and "cancelled" |
| `TaskPoller.Classify` | forge-api-chat/app/page.tsx:106-118 | one poll continues iff it is pending; it succeeds iff the answer is ok with status "succeeded", and then keeps that body; a not-ok answer gives the HTTP error with its code; "failed"/"cancelled" give "Task <status>" |
| `TaskPoller.TaskIdRead` | forge-api-chat/app/page.tsx:92 | `TaskIdOf` gives a task id only for an ok object body, and then its `task_id` property whenever it has one |
| `TaskPoller.Send` | forge-api-chat/app/page.tsx:73-125 | every run begins with the submit POST carrying the API key and the prompt |
| `TaskPoller.FirstDecisive` | forge-api-chat/app/page.tsx:97-121 | the least index below 60 whose answer is not pending, with every earlier answer pending; none only when all 60 are pending |
| `TaskPoller.RoundsShape` | forge-api-chat/app/page.tsx:97-104 | `Rounds(n)`, n iterations of `Round`, are 2n effects: a 5000 ms wait at every even position, the status request right after it, n requests in all |
| `TaskPoller.RoundThenRounds` | forge-api-chat/app/page.tsx:97-104 | proof helper: the concatenation identity for `Rounds` |
| `TaskPoller.RequestsAppend` | forge-api-chat/app/page.tsx:100 | proof helper: requests are counted additively over concatenated effects |
| `TaskPoller.PollStep` | forge-api-chat/app/page.tsx:97-120 | a Continue verdict costs one round and hands over to the next iteration of `PollFrom` |
| `TaskPoller.RoundsPrepend` | forge-api-chat/app/page.tsx:97-104 | proof helper: one round before n rounds and a tail is n+1 rounds and that tail |
| `TaskPoller.PollSkipsPending` | forge-api-chat/app/page.tsx:113-121 | in `PollFrom`, a stretch of pending answers adds one round each and leaves the outcome to the answers after it |
| `TaskPoller.PollDecidedAt` | forge-api-chat/app/page.tsx:106-118 | `PollFrom` (the loop) stops at its first verdict other than Continue, at index k, after k+1 rounds, with that verdict's outcome |
| `TaskPoller.PollTimesOut` | forge-api-chat/app/page.tsx:120-125 | `PollFrom` (the loop) ends with "Polling timed out" after 60 rounds when all 60 verdicts are Continue |
| `TaskPoller.SendPolls` | forge-api-chat/app/page.tsx:91-97 | after an ok POST with a non-null body, a run is the POST followed by the loop on the returned task id |
| `TaskPoller.SendAppends` | forge-api-chat/app/page.tsx:73-125 | proof helper: the effects of a run after a good POST, appended to earlier effects, as the page method accumulates them |
| `TaskPoller.SendByFirstDecisive` | forge-api-chat/app/page.tsx:73-125 | after a good POST, a run equals the reference reading: the first decisive answer decides it after k+1 rounds, otherwise it times out after 60 |
| `TaskPoller.AtMostMaxPolls` | forge-api-chat/app/page.tsx:94-104 | for every input, a run is one POST followed by at most 60 rounds of one wait and one request, so at most 60 status requests |
| `TaskPoller.DecidedAtPoll` | forge-api-chat/app/page.tsx:97-121 | the k-th answer, first non-pending, decides the run after exactly k status requests |
| `TaskPoller.SubmitHttpError` | forge-api-chat/app/page.tsx:87-89 | a not-ok POST ends the run with "HTTP error! status: <code>" and no status request |
| `TaskPoller.SubmitNullBody` | forge-api-chat/app/page.tsx:91-92 | an ok POST with a `null` body ends the run with "Cannot read properties of null (reading 'task_id')" and no status request |
| `TaskPoller.NullBodyAtPoll` | forge-api-chat/app/page.tsx:110-111 | an ok `null` k-th answer after pending ones ends the run with the TypeError of reading `metadata` after exactly k requests |
| `TaskPoller.SuccessIsObject` | forge-api-chat/app/page.tsx:113-114 | the body a successful run puts in `response` is always an object |
| `TaskPoller.SucceedsAtPoll` | forge-api-chat/app/page.tsx:110-115 | a "succeeded" k-th answer after pending ones gives success with that body after exactly k requests, and no timeout |
| `TaskPoller.TaskEndsAtPoll` | forge-api-chat/app/page.tsx:116-118 | a "failed"/"cancelled" k-th answer gives "Task <status>" after exactly k requests |
| `TaskPoller.PollHttpError` | forge-api-chat/app/page.tsx:106-108 | a not-ok k-th answer gives "HTTP error! status: <code>" after exactly k requests |
| `TaskPoller.TimesOut` | forge-api-chat/app/page.tsx:120-125 | 60 pending answers give "Polling timed out" after exactly 60 requests |
| `TaskPoller.SuccessOnlyIfSucceeded` | forge-api-chat/app/page.tsx:113-115 | a successful run had a good POST and, within 60 polls, a "succeeded" answer after pending ones only, whose body is the response |
| `TaskPoller.CountSubmitThenRounds` | forge-api-chat/app/page.tsx:74-104 | the POST followed by n rounds holds exactly n status requests |
| `TaskPoller.ErrorKindsDistinct` | forge-api-chat/app/page.tsx:88 | HTTP, task, TypeError and timeout messages never coincide |
| `TaskPoller.HttpErrorMessageInjective` | forge-api-chat/app/page.tsx:107 | equal HTTP error messages mean equal status codes |
| `TaskPoller.ThreePollScenario` | forge-api-chat/app/page.tsx:68-131 | POST answers task "abc", then two pending polls and a succeeded one: success with the third body after 3 requests to task "abc" |
| `ChatPage.Displayed` | forge-api-chat/app/page.tsx:113-127 | a finished run shows exactly one of response and error: the body on success, the message otherwise |
| `ChatPage.Page.constructor` | forge-api-chat/app/page.tsx:60-64 | the page starts with empty inputs, no response, no error, not loading, and no stale tree state |
| `ChatPage.Page.SetApiKey` | forge-api-chat/app/page.tsx:149 | typing sets the API key |
| `ChatPage.Page.SetPrompt` | forge-api-chat/app/page.tsx:161 | typing sets the prompt |
| `ChatPage.Page.SendEnabled` | forge-api-chat/app/page.tsx:167 | Send is enabled iff not loading and both the key and the prompt are non-empty |
| `ChatPage.Page.Visible` | forge-api-chat/app/page.tsx:176-181 | the tree is shown exactly when there is a response; in every state the page reaches (`Valid`) that response is an object, so the root is an "Object" toggle, never a hidden falsy scalar, showing the root flag and all or none of the children |
| `ChatPage.Page.BeginSend` | forge-api-chat/app/page.tsx:69-71 | a send first sets loading and clears error and response (and the old tree's state) |
| `ChatPage.Page.PollTask` | forge-api-chat/app/page.tsx:94-125 | the poll loop leaves the effects and response/failure that PollFrom prescribes |
| `ChatPage.Page.SubmitAndPoll` | forge-api-chat/app/page.tsx:73-125 | the try block leaves the effects and response/failure that Send prescribes |
| `ChatPage.Page.SendMessage` | forge-api-chat/app/page.tsx:68-131 | a send ends not loading, with exactly one of response/error set as Send says, Send's effects issued, a response that is an object and whose new tree is shown collapsed, and the button enabled again iff both inputs are filled |
| `ChatPage.Page.ToggleNode` | forge-api-chat/app/page.tsx:50 | a click on the toggle of a composite that is on screen applies ToggleAt to the tree's flags and keeps them free of stale entries |
| `JsonViewer.IsExpanded` | forge-api-chat/app/page.tsx:20 | a node shows its own flag once it has one; a non-root node without one is collapsed (`useState(false)`) |
| `JsonViewer.Fresh` | forge-api-chat/app/page.tsx:19-20 | a freshly mounted tree has the root flag equal to initialExpanded, every other node collapsed, and no stale entries |
| `JsonViewer.ToggleAt` | forge-api-chat/app/page.tsx:26 | a click flips the clicked flag and keeps every flag outside its subtree; expanding changes nothing else; collapsing resets the subtree's flags to collapsed |
| `JsonViewer.Caption` | forge-api-chat/app/page.tsx:52 | a composite is captioned "Array" exactly when it is an array and "Object" when it is an object; no other caption occurs |
| `JsonViewer.Render` | forge-api-chat/app/page.tsx:22-56 | scalars (and only scalars) are leaves holding the value; composites are "Array"/"Object" toggles with the node's flag, all children when expanded and none otherwise, labelled by index or key in order |
| `JsonViewer.RenderedChild` | forge-api-chat/app/page.tsx:34-41 | child i of an expanded node is `ChildAt(i)` (its i-th element or entry) rendered one level deeper, with label `LabelAt(i)` (its index or key) |
| `JsonViewer.PrefixOfExtension` | forge-api-chat/app/page.tsx:40 | proof helper: a path under child i lies strictly under the parent |
| `JsonViewer.PrefixesComparable` | forge-api-chat/app/page.tsx:40 | proof helper: two ancestors of a path are ancestor and descendant of each other |
| `JsonViewer.PrefixOfPrefix` | forge-api-chat/app/page.tsx:40 | proof helper: a prefix of a path outside a subtree is outside it too |
| `JsonViewer.RenderLocal` | forge-api-chat/app/page.tsx:40 | a subtree's display depends only on the flags inside that subtree |
| `JsonViewer.InitialOnlyAtRoot` | forge-api-chat/app/page.tsx:19-20 | below the root, initialExpanded changes nothing in the display |
| `JsonViewer.FreshTree` | forge-api-chat/app/page.tsx:40 | in a new tree opened at the root, every child is shown collapsed |
| `JsonViewer.ToggleKeepsOthers` | forge-api-chat/app/page.tsx:26 | a click leaves every subtree that neither contains nor lies under the clicked node exactly as it was |
| `JsonViewer.AncestorKept` | forge-api-chat/app/page.tsx:54 | proof helper: after a click on a node on screen, every ancestor of a node holding a flag is still expanded |
| `JsonViewer.ToggleKeepsNoStale` | forge-api-chat/app/page.tsx:54 | a click on a node on screen leaves flags only on mounted nodes: state exists only while a node is rendered |
| `JsonViewer.ExpandReveals` | forge-api-chat/app/page.tsx:48-54 | expanding a collapsed composite reveals exactly its immediate children, each displayed as it was before and, when no unmounted node holds state, collapsed |
| `JsonViewer.CollapseResetsChildren` | forge-api-chat/app/page.tsx:54 | collapsing hides the children; expanding again shows every child collapsed, since unmounting lost their state |

## Left out

- Network I/O: `fetch`, the request headers and JSON body (`reasoning_speed: 'medium'`, `track: true`), and the URL text. A POST is recorded only as `Submit(apiKey, prompt)` and a GET as `StatusRequest(apiKey, taskId)`.
- A `fetch` that rejects (a network or CORS failure) is not modelled: `HttpResponse` has no case for it, so the TypeError it throws and whose message line 127 would show as the error is a dropped error path.
- `response.json()`: bodies arrive already parsed. A parse failure and its message are not modelled.
- `setTimeout` wall-clock time: the delay is the counted effect `Wait(5000)`.
- The text `JSON.stringify` writes for a scalar leaf: a leaf keeps the scalar itself. Numbers are reals, and floating-point formatting is not modelled.
- `Object.entries` ordering: an object's entries are those of the parsed object in `Object.entries` order. How the order of the JSON text becomes that order (JavaScript lists integer-like keys first) is not modelled. A property read takes the first entry with the key. `JsonValue` does not enforce distinct keys: an object parsed from JSON text has them, and the model assumes so (an object with a repeated key would render every entry, which `Object.entries` never lists).
- React rendering, CSS classes, the lucide icons and the `Button`/`Input`/`Textarea`/`Card` components. These are UI and foreign code.
- Typing during a run is not interleaved: `SendMessage` is one atomic step, so its final `apiKey`/`prompt` equal the values at the click. In the page the inputs stay editable while `sendMessage` awaits `fetch` and `setTimeout`. The run itself uses the values captured at the click, as the model does.
- Overlapping `sendMessage` runs, which are concurrency. `SendMessage` does not require `SendEnabled()`: the disabled button is the caller's guard.
- The fallback `'An unknown error occurred'` for throws that are not `Error`s: no such throw arises in the modelled code.
- The TypeError message for a `null` body is written in the V8 engine's wording. Other engines word it differently.
