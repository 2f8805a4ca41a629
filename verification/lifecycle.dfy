/** Whole histories of the process: completion requests, status requests and
    background tasks finishing, applied one after another to one registry. */
module Lifecycle {
  import opened Wrappers
  import opened AgentManager
  import opened Server

  /** One thing that happens to the process. `Finish` is the environment: the
      background task of `taskId` ends with `outcome`. */
  datatype Event =
    | Submit(authorization: string, request: ChatCompletionRequest, agentFailure: Option<string>, newId: TaskId, now: int)
    | Poll(authorization: string, taskId: TaskId)
    | Finish(taskId: TaskId, outcome: Outcome)

  /** The id an event may add to the registry. */
  function SubmittedIds(e: Event): set<TaskId> {
    if e.Submit? then {e.newId} else {}
  }

  /** Ids are never reused: every submitted id lies outside `used` and outside
      the ids submitted before it (what uuid4 provides in practice). */
  predicate FreshSubmits(used: set<TaskId>, events: seq<Event>)
    decreases |events|
  {
    |events| == 0 ||
    ((events[0].Submit? ==> events[0].newId !in used)
     && FreshSubmits(used + SubmittedIds(events[0]), events[1..]))
  }

  /** The registry after one event. */
  function Step(reg: Registry, e: Event): (r: Registry)
    requires e.Submit? ==> Fresh(reg, e.newId)
    ensures Ids(r) <= Ids(reg) + SubmittedIds(e)
    ensures forall id :: id in r.tasks && id in reg.tasks ==>
      && r.tasks[id].created == reg.tasks[id].created
      && r.tasks[id].handle.prompt == reg.tasks[id].handle.prompt
      && (reg.tasks[id].handle.Done() ==> r.tasks[id] == reg.tasks[id])
    ensures Consistent(reg) ==> Consistent(r)
    ensures AllRunning(reg) ==> AllRunning(r)
  {
    match e
    case Submit(h, req, f, id, now) =>
      CreateChatCompletion(reg, h, req, f, id, now).registry
    case Poll(h, id) => GetChatStatus(reg, h, id).registry
    case Finish(id, o) => Settle(reg, id, o)
  }

  /** The registry after a whole history, starting from `reg` whose ids are all in `used`.
      Along the way: both maps keep the same ids, every stored status stays
      "running", an id that has left the registry never comes back, an entry's
      creation time and prompt never change, and a finished task's entry is
      frozen for as long as it exists. */
  function Run(reg: Registry, used: set<TaskId>, events: seq<Event>): (r: Registry)
    requires Ids(reg) <= used
    requires FreshSubmits(used, events)
    ensures Consistent(reg) ==> Consistent(r)
    ensures AllRunning(reg) ==> AllRunning(r)
    ensures forall id :: id in used && id !in Ids(reg) ==> id !in Ids(r)
    ensures forall id :: id in r.tasks && id in reg.tasks ==>
      && r.tasks[id].created == reg.tasks[id].created
      && r.tasks[id].handle.prompt == reg.tasks[id].handle.prompt
      && (reg.tasks[id].handle.Done() ==> r.tasks[id] == reg.tasks[id])
    decreases |events|
  {
    if |events| == 0 then reg
    else
      var e := events[0];
      var next := Step(reg, e);
      Run(next, used + SubmittedIds(e), events[1..])
  }

  /** A history of the process from start-up. */
  function Execute(events: seq<Event>): (r: Registry)
    requires FreshSubmits({}, events)
    ensures Consistent(r)
    ensures AllRunning(r)
  {
    Run(Init(), {}, events)
  }

  /** Once a poll reports a terminal state, every later poll of the same id, after
      any history, reports the same thing or that the id is gone. */
  lemma TerminalReportsAreFinal(reg: Registry, used: set<TaskId>, events: seq<Event>, taskId: TaskId)
    requires Ids(reg) <= used && FreshSubmits(used, events)
    requires GetTaskStatus(reg, taskId).Completed? || GetTaskStatus(reg, taskId).Errored?
    ensures var later := GetTaskStatus(Run(reg, used, events), taskId);
      later == GetTaskStatus(reg, taskId) || later == NotFound(TASK_NOT_FOUND)
  {
  }

  /** Once an id has left the registry, it polls as not found after any history. */
  lemma ReclaimedStaysNotFound(reg: Registry, used: set<TaskId>, events: seq<Event>, taskId: TaskId)
    requires Ids(reg) <= used && FreshSubmits(used, events)
    requires taskId in used && taskId !in Ids(reg)
    ensures GetTaskStatus(Run(reg, used, events), taskId) == NotFound(TASK_NOT_FOUND)
  {
  }

  const GOOD_KEY := BEARER + API_KEY

  /** A one-message request for model "test" saying "hi". */
  function HiRequest(): ChatCompletionRequest {
    ChatCompletionRequest("test", [ChatMessage("user", "hi", None)], None)
  }

  /** Submit, poll while running, the agent answers "hello", poll: the result
      is delivered once, with the creation time, and the next poll is a 404. */
  lemma HelloScenario(taskId: TaskId, now: int)
    ensures
      var s1 := CreateChatCompletion(Init(), GOOD_KEY, HiRequest(), None, taskId, now);
      && s1.reply == Reply(CreateResponse(taskId, STATUS_RUNNING, now))
      && var p1 := GetChatStatus(s1.registry, GOOD_KEY, taskId);
      && p1.reply == Reply(Running(now))
      && var done := Settle(p1.registry, taskId, Succeeded("hello"));
      && var p2 := GetChatStatus(done, GOOD_KEY, taskId);
      && p2.reply == Reply(Completed("hello", now))
      && p2.registry == Init()
      && GetChatStatus(p2.registry, GOOD_KEY, taskId).reply == Raise(404, TASK_NOT_FOUND)
  {
    ApiKeyAcceptedHeaders();
  }

  /** The agent raises "model unavailable": every poll reports the error with
      the creation time, and the task is never removed by polling. */
  lemma FailureScenario(taskId: TaskId, now: int)
    ensures
      var s1 := CreateChatCompletion(Init(), GOOD_KEY, HiRequest(), None, taskId, now);
      && var failed := Settle(s1.registry, taskId, Raised("model unavailable"));
      && var p1 := GetChatStatus(failed, GOOD_KEY, taskId);
      && p1.reply == Reply(Errored("model unavailable", now))
      && p1.registry == failed
      && GetChatStatus(p1.registry, GOOD_KEY, taskId) == p1
  {
    ApiKeyAcceptedHeaders();
  }

  /** A request with no messages is refused with the `IndexError` as a 500 and
      leaves the registry as it was. */
  lemma EmptyMessagesScenario(reg: Registry, taskId: TaskId, now: int)
    requires Fresh(reg, taskId)
    ensures CreateChatCompletion(reg, GOOD_KEY, ChatCompletionRequest("test", [], None), None, taskId, now)
         == Served(reg, Raise(500, INDEX_ERROR))
  {
    ApiKeyAcceptedHeaders();
  }
}
