# Compass chat-completion task registry, in Dafny

This project models the asynchronous task registry behind the Compass
chat-completion API, together with the HTTP routing that drives it.

- `AgentManager` (`agent_manager.dfy`) models the in-memory registry. It holds two maps keyed by task id:
  - `contexts`: task id → agent context.
  - `tasks`: task id → task record, holding the background-task handle, the stored status, the creation time and the stream flag.
- The registry has three operations, each a pure transition:
  - create (`create_completion`);
  - poll (`get_task_status`);
  - cleanup (`cleanup_task`).
- The background `asyncio` task is an abstract `Handle`. Its `Outcome` is `Pending`, `Succeeded(value)` or `Raised(message)`, and the environment supplies it. `Settle` stands for the environment finishing a task; it is not code of the system.
- `Server` (`server.dfy`) models the HTTP layer:
  - the API-key check, which strips every `"Bearer "` from the header and compares the rest with a fixed secret;
  - the completion endpoint, which converts the messages and turns any exception into a 500;
  - the status endpoint, which maps `not_found` to 404 and removes a task only after a `completed` reply.
- `Lifecycle` (`lifecycle.dfy`) runs whole histories of requests and task completions against one registry. It proves invariants over every such history and checks the success and failure scenarios end to end.
- `Wrappers` (`wrappers.dfy`) holds `Option` and `Result`.

The model follows what the code does, including where one might expect otherwise:

- An `error` poll does not remove the task. Only a `completed` poll does. An errored task therefore reports its error on every poll (`Server.ErroredTaskReportsErrorOnEveryPoll`, `Server.PollRepeatsUnlessCompleted`).
- `get_task_status` never writes to the registry, and the stored status stays `"running"` for the task's whole life (`Lifecycle.Execute`). The reported status comes from the handle alone.
- A completed result is delivered exactly once. The same request that returns it also removes the task, so the next poll is a 404 (`Server.CompletedThenNotFound`). No second poll returns the same result.
- An empty message list is not a precondition. `messages[-1]` raises `IndexError("list index out of range")`, and the endpoint turns that into a 500 (`Lifecycle.EmptyMessagesScenario`).

## Model

| member | source | states |
|---|---|---|
| AgentManager.Init | api/models/agent_manager.py:19-21 | a new manager has no ids in either map, so every id is fresh and the two maps agree |
| AgentManager.LastContent | api/models/agent_manager.py:53 | the prompt is the content of the last message; an empty list gives the `IndexError` instead |
| AgentManager.CreateCompletion | api/models/agent_manager.py:23-78 | a set-up failure or an empty list is an error with that message; otherwise the fresh id is in both maps with status "running", the request's model, the last message as prompt and a pending handle, every other entry is unchanged, exactly one entry is added, and the response is (id, "running", now); both maps keep the same ids |
| AgentManager.GetTaskStatus | api/models/agent_manager.py:80-117 | not_found ("Task not found", no created) exactly for an absent id; otherwise running, completed with the value, or error with the message, according to the handle's outcome, always with the stored creation time |
| AgentManager.CleanupTask | api/models/agent_manager.py:119-129 | the id is gone from both maps, every other entry is unchanged, an absent id changes nothing, and both maps keep the same ids |
| AgentManager.Settle | api/models/agent_manager.py:59 | the environment finishes a running task once: only that handle's outcome changes, a finished handle is never changed again, and ids, statuses, times, prompts and stream flags stay |
| AgentManager.CreateThenCleanup | api/models/agent_manager.py:66-72 | cleaning up the id a create has just added gives back the registry as it was |
| AgentManager.PollAfterCreate | api/models/agent_manager.py:69-78 | right after a create, the new id polls as running with the create's timestamp |
| AgentManager.CreateLeavesOtherPolls | api/models/agent_manager.py:66-72 | a create does not change what any other id polls as |
| AgentManager.IdenticalRequestsNotDeduplicated | api/models/agent_manager.py:59-72 | two identical requests are not merged: both ids are in both maps, two entries are added, and finishing the first task does not change what the second polls as |
| AgentManager.CleanupFinal | api/models/agent_manager.py:119-129 | after a cleanup the id polls as not found, and a second cleanup changes nothing |
| AgentManager.CleanupLeavesOtherPolls | api/models/agent_manager.py:126-129 | a cleanup does not change what any other id polls as |
| AgentManager.TerminalIsStable | api/models/agent_manager.py:99-112 | a completed or error report stays the same whichever task the environment settles |
| AgentManager.RunningToTerminal | api/models/agent_manager.py:99-117 | a running task polls as completed with the value or as error with the message the environment supplies, keeping its creation time |
| Server.StripBearer | api/server.py:45 | removing "Bearer " never lengthens the header and removes a whole number of occurrences |
| Server.StripBearerUnchangedIff | api/server.py:45 | the header is left unchanged if and only if it contains no "Bearer " |
| Server.StripBearerSplit | api/server.py:45 | every occurrence is removed, wherever it is: stripping `a + "Bearer " + b` gives stripped `a` followed by stripped `b` |
| Server.VerifyApiKey | api/server.py:44-48 | the key is accepted exactly when the stripped header equals the secret, and the secret is returned; otherwise 401 "Invalid API key" |
| Server.ApiKeyAcceptedHeaders | api/server.py:44-48 | the secret alone, or after one "Bearer ", is accepted |
| Server.ApiKeyAcceptsRepeatedOrTrailingPrefix | api/server.py:45-46 | the secret after "Bearer Bearer ", or followed by "Bearer ", is accepted: every occurrence is removed, not only a leading one |
| Server.ApiKeyRejectsLowerCasePrefix | api/server.py:45-47 | "bearer " in lower case is not removed, so the key is rejected |
| Server.ApiKeyRejectsNestedPrefix | api/server.py:45-47 | the replacement is a single pass: "Be" + "Bearer " + "arer " + secret is rejected |
| Server.ConvertMessages | api/server.py:60-66 | the messages are converted one for one and in order, keeping role, content and name |
| Server.StreamFlag | api/server.py:73 | a missing stream flag becomes false; a given flag is passed through unchanged |
| Server.StoredStreamIsRequested | api/server.py:69-74 | with a valid key and at least one message the request succeeds, and the task it creates is streaming exactly when the request explicitly asked for streaming |
| Server.CreateChatCompletion | api/server.py:50-79 | a bad key is a 401; a set-up exception is a 500 with its message; no messages is a 500 with the `IndexError` message; an error leaves the registry as it was; success returns (id, "running", now), stores under the new id the last request message as prompt, the model, the stream flag, status "running" and creation time now, and leaves every other entry of both maps unchanged |
| Server.GetChatStatus | api/server.py:81-104 | a bad key is a 401; an absent id is a 404 "Task not found" with no change; a present id is replied with exactly the registry's report for it; a completed reply removes the task; every other reply leaves the registry as it was |
| Server.StatusReplyMatchesOutcome | api/server.py:88-99 | for a present id the reply is running for a pending handle, completed with the value for a succeeded one (and the task is removed), error with the message for a raised one (and nothing changes), always with the creation time |
| Server.PromptIsLastRequestMessage | api/server.py:60-74 | after a successful request the new task polls as running and its prompt is the content of the last request message |
| Server.CompletedThenNotFound | api/server.py:92-97 | a completed task is delivered once, and the next status request for it is a 404 |
| Server.PollRepeatsUnlessCompleted | api/server.py:95-99 | a running, error or not-found reply leaves the registry unchanged, so the same request gets the identical answer again |
| Server.ErroredTaskReportsErrorOnEveryPoll | api/server.py:90-99 | for every registry and id whose task raised, the status request replies error with the message and creation time, changes nothing, and the next request gets the same reply |
| Server.BadKeyChangesNothing | api/server.py:44-54 | a rejected key is a 401 on both endpoints and changes nothing |
| Lifecycle.Step | api/server.py:50-104 | one request or task completion adds at most the submitted id and never changes an entry's creation time or prompt, nor a finished entry at all |
| Lifecycle.Run | api/models/agent_manager.py:63-129 | over any history with fresh ids: both maps keep the same ids, every stored status stays "running", a removed id never returns, creation times and prompts never change, and a finished entry is frozen while it exists |
| Lifecycle.Execute | api/models/agent_manager.py:19-72 | from start-up, after any history, both maps hold the same ids and every stored status is "running" |
| Lifecycle.TerminalReportsAreFinal | api/models/agent_manager.py:99-112 | after a terminal report, every later poll of that id reports the same thing or not found |
| Lifecycle.ReclaimedStaysNotFound | api/models/agent_manager.py:90-94 | an id that has left the registry polls as not found after any history |
| Lifecycle.HelloScenario | api/server.py:81-99 | submit, poll running, agent answers "hello": the poll returns the result with the creation time, empties the registry, and the next poll is a 404 |
| Lifecycle.FailureScenario | api/server.py:95-99 | agent raises "model unavailable": every poll reports the error with the creation time and leaves the task in place |
| Lifecycle.EmptyMessagesScenario | api/server.py:58-79 | a request with no messages is a 500 carrying "list index out of range" and changes nothing |

## Left out

- `asyncio` scheduling, `create_task` and concurrency. The code has no locks and no cancellation. A task's completion is the environment event `Settle`, or `Finish` in a history.
- The agent framework (`initialize_agent`, `AgentContext`, `UserMessage`, `communicate`, the `sys.path` change) is foreign code. A failure of that code is the parameter `agentFailure`. The model checks it before the message list. So together with an empty list it stands only for a failure at api/models/agent_manager.py:43-50, the steps that run before `messages[-1]`. With a non-empty list it may also be a failure at lines 56-59. A context records only the model name.
- `await task.result()`: whether awaiting the result succeeds depends on what `communicate` returns, which is not visible. It is folded into the `Succeeded` / `Raised` outcome, fixed once the task is done. That assumes a finished task gives the same answer on every poll. This holds when the task itself raised, since `task.result()` re-raises the stored exception each time. It does not hold when the task returned a coroutine whose await raises: a later poll would then get a `RuntimeError` about reusing an already awaited coroutine. `Server.PollRepeatsUnlessCompleted`, `Server.ErroredTaskReportsErrorOnEveryPoll`, `AgentManager.TerminalIsStable` and `Lifecycle.TerminalReportsAreFinal` rest on this assumption.
- The result payload is opaque and modelled as a string. Exceptions appear as their `str(e)` message.
- uuid4 generation is a fresh-id argument; across a history, `FreshSubmits` requires ids never to be reused.
- `datetime.now()` and `int(....timestamp())` are an integer `now` argument. The truncation of the fractional timestamp is not modelled.
- Temperature, including the `temperature or 1.0` coercion, and the `tools` field are floats or configuration passed through to the agent. They are not modelled.
- FastAPI, Pydantic validation (a missing `Authorization` header or a malformed body is rejected before the handlers run), CORS and uvicorn start-up are transport plumbing.
- The unused `ChatCompletionResponse` schema is not modelled.
- The generic 500 branch of the status endpoint (api/server.py:104) is not modelled. The only expression there that could raise is `await task.result()`, which `get_task_status` already catches and which is folded into the outcome.
