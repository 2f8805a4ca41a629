/** The in-memory task registry of the API: two maps keyed by the same task id,
    with create, poll and cleanup as pure transitions.

    The background agent task is an abstract handle whose outcome the
    environment supplies (`Settle`); uuid generation is a fresh-id argument and
    the wall clock an integer argument. */
module AgentManager {
  import opened Wrappers

  type TaskId = string

  /** A chat message as the manager receives it: role, content and optional name. */
  datatype Message = Message(role: string, content: string, name: Option<string>)

  /** The agent context created for one task, configured with the requested model. */
  datatype AgentContext = AgentContext(model: string)

  /** What the environment reports about a background task: not done yet,
      done with a value, or done with the (stringified) exception it raised. */
  datatype Outcome = Pending | Succeeded(value: string) | Raised(message: string)

  /** The background task started for a prompt, together with its current outcome. */
  datatype Handle = Handle(prompt: string, outcome: Outcome) {
    predicate Done() { !outcome.Pending? }
  }

  /** The per-task record kept in `tasks`: the handle, the stored status,
      the creation timestamp and the stream flag. */
  datatype TaskInfo = TaskInfo(handle: Handle, status: string, created: int, stream: bool)

  /** The registry: `contexts` and `tasks`, both keyed by task id. */
  datatype Registry = Registry(contexts: map<TaskId, AgentContext>, tasks: map<TaskId, TaskInfo>)

  /** The answer to `create_completion`. */
  datatype CreateResponse = CreateResponse(taskId: TaskId, status: string, created: int)

  /** A successful create: the new registry and the response handed back. */
  datatype Created = Created(registry: Registry, response: CreateResponse)

  /** The answer to `get_task_status`. */
  datatype StatusReport =
    | NotFound(error: string)
    | Running(created: int)
    | Completed(result: string, created: int)
    | Errored(error: string, created: int)
  {
    /** The `status` string of the reply. */
    function Status(): string {
      match this
      case NotFound(_) => STATUS_NOT_FOUND
      case Running(_) => STATUS_RUNNING
      case Completed(_, _) => STATUS_COMPLETED
      case Errored(_, _) => STATUS_ERROR
    }

    /** The `created` field of the reply; a not-found reply has none. */
    function CreatedAt(): Option<int> {
      if NotFound? then None else Some(created)
    }
  }

  const STATUS_RUNNING := "running"
  const STATUS_COMPLETED := "completed"
  const STATUS_ERROR := "error"
  const STATUS_NOT_FOUND := "not_found"
  const TASK_NOT_FOUND := "Task not found"
  /** The message of the `IndexError` raised by `messages[-1]` on an empty list. */
  const INDEX_ERROR := "list index out of range"

  /** Both maps hold exactly the same task ids. */
  predicate Consistent(reg: Registry) {
    reg.contexts.Keys == reg.tasks.Keys
  }

  /** Every id the registry knows, in either map. */
  function Ids(reg: Registry): set<TaskId> {
    reg.contexts.Keys + reg.tasks.Keys
  }

  /** `id` is in neither map (what a fresh uuid4 gives). */
  predicate Fresh(reg: Registry, id: TaskId) {
    id !in reg.contexts && id !in reg.tasks
  }

  /** Every stored status is "running": nothing ever rewrites it. */
  predicate AllRunning(reg: Registry) {
    forall id :: id in reg.tasks ==> reg.tasks[id].status == STATUS_RUNNING
  }

  /** The status string of a reply determines which kind of reply it is. */
  lemma StatusNameInjective(r: StatusReport)
    ensures r.Status() == STATUS_NOT_FOUND <==> r.NotFound?
    ensures r.Status() == STATUS_RUNNING <==> r.Running?
    ensures r.Status() == STATUS_COMPLETED <==> r.Completed?
    ensures r.Status() == STATUS_ERROR <==> r.Errored?
  {
  }

  /** A new manager: both maps empty. */
  function Init(): (reg: Registry)
    ensures Consistent(reg) && AllRunning(reg)
    ensures forall id :: Fresh(reg, id)
  {
    Registry(map[], map[])
  }

  /** The prompt handed to the agent: `messages[-1]["content"]`, or the
      `IndexError` that expression raises on an empty list. */
  function LastContent(messages: seq<Message>): (r: Result<string>)
    ensures r.Ok? <==> |messages| > 0
    ensures r.Ok? ==> r.value == messages[|messages| - 1].content
    ensures r.Err? ==> r.error == INDEX_ERROR
  {
    if |messages| == 0 then Err(INDEX_ERROR) else Ok(messages[|messages| - 1].content)
  }

  /** `create_completion`: configure a context for `model`, take the last
      message's content as the prompt, start the background task, and store
      context and task under the fresh id `newId` with status "running" and
      creation time `now`. `agentFailure` is an exception raised by the agent
      code, which is not part of this model. It is checked before the message
      list, so for an empty list it stands only for a failure while initialising
      the agent and building its context, the steps that precede `messages[-1]`;
      for a non-empty list it may also be a failure while wrapping the prompt or
      starting the background task. */
  function CreateCompletion(reg: Registry, messages: seq<Message>, model: string, stream: bool,
                            agentFailure: Option<string>, newId: TaskId, now: int): (r: Result<Created>)
    requires Fresh(reg, newId)
    ensures agentFailure.Some? ==> r == Err(agentFailure.value)
    ensures agentFailure.None? && |messages| == 0 ==> r == Err(INDEX_ERROR)
    ensures r.Ok? <==> agentFailure.None? && |messages| > 0
    ensures r.Ok? ==>
      var reg' := r.value.registry;
      && r.value.response == CreateResponse(newId, STATUS_RUNNING, now)
      && newId in reg'.contexts && newId in reg'.tasks
      && reg'.contexts[newId] == AgentContext(model)
      && reg'.tasks[newId] == TaskInfo(Handle(messages[|messages| - 1].content, Pending), STATUS_RUNNING, now, stream)
      && reg'.contexts - {newId} == reg.contexts
      && reg'.tasks - {newId} == reg.tasks
      && |reg'.tasks| == |reg.tasks| + 1
      && Ids(reg') == Ids(reg) + {newId}
    ensures r.Ok? && Consistent(reg) ==> Consistent(r.value.registry)
    ensures r.Ok? && AllRunning(reg) ==> AllRunning(r.value.registry)
  {
    if agentFailure.Some? then Err(agentFailure.value)
    else
      match LastContent(messages)
      case Err(e) => Err(e)
      case Ok(prompt) =>
        var info := TaskInfo(Handle(prompt, Pending), STATUS_RUNNING, now, stream);
        var reg' := Registry(reg.contexts[newId := AgentContext(model)], reg.tasks[newId := info]);
        Ok(Created(reg', CreateResponse(newId, STATUS_RUNNING, info.created)))
  }

  /** `get_task_status`: report on one entry without changing anything. */
  function GetTaskStatus(reg: Registry, taskId: TaskId): (r: StatusReport)
    ensures r.NotFound? <==> taskId !in reg.tasks
    ensures r.NotFound? ==> r.error == TASK_NOT_FOUND && r.CreatedAt() == None
    ensures taskId in reg.tasks ==> r.CreatedAt() == Some(reg.tasks[taskId].created)
    ensures r.Running? <==> taskId in reg.tasks && !reg.tasks[taskId].handle.Done()
    ensures r.Completed? <==> taskId in reg.tasks && reg.tasks[taskId].handle.outcome.Succeeded?
    ensures r.Completed? ==> r.result == reg.tasks[taskId].handle.outcome.value
    ensures r.Errored? <==> taskId in reg.tasks && reg.tasks[taskId].handle.outcome.Raised?
    ensures r.Errored? ==> r.error == reg.tasks[taskId].handle.outcome.message
  {
    if taskId !in reg.tasks then NotFound(TASK_NOT_FOUND)
    else
      var info := reg.tasks[taskId];
      match info.handle.outcome
      case Succeeded(v) => Completed(v, info.created)
      case Raised(msg) => Errored(msg, info.created)
      case Pending => Running(info.created)
  }

  /** `cleanup_task`: delete the id from each map that holds it. */
  function CleanupTask(reg: Registry, taskId: TaskId): (r: Registry)
    ensures Fresh(r, taskId)
    ensures forall id :: id in reg.contexts && id != taskId ==> id in r.contexts && r.contexts[id] == reg.contexts[id]
    ensures forall id :: id in reg.tasks && id != taskId ==> id in r.tasks && r.tasks[id] == reg.tasks[id]
    ensures Ids(r) == Ids(reg) - {taskId}
    ensures Fresh(reg, taskId) ==> r == reg
    ensures Consistent(reg) ==> Consistent(r)
    ensures AllRunning(reg) ==> AllRunning(r)
  {
    var contexts := if taskId in reg.contexts then reg.contexts - {taskId} else reg.contexts;
    var tasks := if taskId in reg.tasks then reg.tasks - {taskId} else reg.tasks;
    Registry(contexts, tasks)
  }

  /** The environment finishing the background task of `taskId` with `outcome`.
      A task finishes at most once: a done handle, or an absent id, is left alone.
      Only the handle changes; the stored status and timestamp stay as they are. */
  function Settle(reg: Registry, taskId: TaskId, outcome: Outcome): (r: Registry)
    ensures r.contexts == reg.contexts
    ensures r.tasks.Keys == reg.tasks.Keys
    ensures forall id :: id in r.tasks ==>
      && r.tasks[id].status == reg.tasks[id].status
      && r.tasks[id].created == reg.tasks[id].created
      && r.tasks[id].handle.prompt == reg.tasks[id].handle.prompt
      && r.tasks[id].stream == reg.tasks[id].stream
    ensures forall id :: id in r.tasks && (id != taskId || reg.tasks[id].handle.Done()) ==> r.tasks[id] == reg.tasks[id]
    ensures taskId in reg.tasks && !reg.tasks[taskId].handle.Done() ==> r.tasks[taskId].handle.outcome == outcome
    ensures Consistent(reg) ==> Consistent(r)
    ensures AllRunning(reg) ==> AllRunning(r)
  {
    if taskId in reg.tasks && !reg.tasks[taskId].handle.Done() then
      var info := reg.tasks[taskId];
      Registry(reg.contexts, reg.tasks[taskId := info.(handle := info.handle.(outcome := outcome))])
    else reg
  }

  /** Removing the id a create has just added gives back the registry as it was. */
  lemma CreateThenCleanup(reg: Registry, messages: seq<Message>, model: string, stream: bool, newId: TaskId, now: int)
    requires Fresh(reg, newId) && |messages| > 0
    ensures CreateCompletion(reg, messages, model, stream, None, newId, now).Ok?
    ensures CleanupTask(CreateCompletion(reg, messages, model, stream, None, newId, now).value.registry, newId) == reg
  {
  }

  /** Right after a create, the new id polls as running with the create's timestamp. */
  lemma PollAfterCreate(reg: Registry, messages: seq<Message>, model: string, stream: bool, newId: TaskId, now: int)
    requires Fresh(reg, newId) && |messages| > 0
    ensures CreateCompletion(reg, messages, model, stream, None, newId, now).Ok?
    ensures GetTaskStatus(CreateCompletion(reg, messages, model, stream, None, newId, now).value.registry, newId) == Running(now)
  {
  }

  /** A create does not change what any other id polls as. */
  lemma CreateLeavesOtherPolls(reg: Registry, messages: seq<Message>, model: string, stream: bool,
                               newId: TaskId, now: int, other: TaskId)
    requires Fresh(reg, newId) && |messages| > 0 && other != newId
    ensures CreateCompletion(reg, messages, model, stream, None, newId, now).Ok?
    ensures GetTaskStatus(CreateCompletion(reg, messages, model, stream, None, newId, now).value.registry, other)
         == GetTaskStatus(reg, other)
  {
  }

  /** Two identical requests are not deduplicated: they occupy two entries. */
  lemma IdenticalRequestsNotDeduplicated(reg: Registry, messages: seq<Message>, model: string, stream: bool,
                                         id1: TaskId, id2: TaskId, t1: int, t2: int, outcome: Outcome)
    requires Fresh(reg, id1) && Fresh(reg, id2) && id1 != id2 && |messages| > 0
    ensures CreateCompletion(reg, messages, model, stream, None, id1, t1).Ok?
    ensures
      var reg1 := CreateCompletion(reg, messages, model, stream, None, id1, t1).value.registry;
      && Fresh(reg1, id2)
      && var reg2 := CreateCompletion(reg1, messages, model, stream, None, id2, t2).value.registry;
      && id1 in reg2.tasks && id1 in reg2.contexts
      && id2 in reg2.tasks && id2 in reg2.contexts
      && |reg2.tasks| == |reg.tasks| + 2
      && GetTaskStatus(Settle(reg2, id1, outcome), id2) == GetTaskStatus(reg2, id2)
  {
  }

  /** After a cleanup the id polls as not found, and a second cleanup changes nothing. */
  lemma CleanupFinal(reg: Registry, taskId: TaskId)
    ensures GetTaskStatus(CleanupTask(reg, taskId), taskId) == NotFound(TASK_NOT_FOUND)
    ensures CleanupTask(CleanupTask(reg, taskId), taskId) == CleanupTask(reg, taskId)
  {
  }

  /** A cleanup does not change what any other id polls as. */
  lemma CleanupLeavesOtherPolls(reg: Registry, taskId: TaskId, other: TaskId)
    requires other != taskId
    ensures GetTaskStatus(CleanupTask(reg, taskId), other) == GetTaskStatus(reg, other)
  {
  }

  /** A terminal report never changes when the environment settles any task. */
  lemma TerminalIsStable(reg: Registry, taskId: TaskId, settled: TaskId, outcome: Outcome)
    requires GetTaskStatus(reg, taskId).Completed? || GetTaskStatus(reg, taskId).Errored?
    ensures GetTaskStatus(Settle(reg, settled, outcome), taskId) == GetTaskStatus(reg, taskId)
  {
  }

  /** A running task moves to the terminal report matching the outcome the
      environment supplies, with its creation time unchanged. */
  lemma RunningToTerminal(reg: Registry, taskId: TaskId, outcome: Outcome)
    requires GetTaskStatus(reg, taskId).Running?
    ensures var r := GetTaskStatus(Settle(reg, taskId, outcome), taskId);
      && r.CreatedAt() == GetTaskStatus(reg, taskId).CreatedAt()
      && (outcome.Pending? ==> r.Running?)
      && (outcome.Succeeded? ==> r == Completed(outcome.value, reg.tasks[taskId].created))
      && (outcome.Raised? ==> r == Errored(outcome.message, reg.tasks[taskId].created))
  {
  }
}
