/** The HTTP layer in front of the registry: the API-key check, the
    completion endpoint and the status endpoint, each as a pure function from
    the registry (and the request) to the new registry and the reply. */
module Server {
  import opened Wrappers
  import opened AgentManager

  /** A handler's outcome: a reply body, or an `HTTPException` with status code and detail. */
  datatype Http<+T> = Reply(body: T) | Raise(code: int, detail: string)

  /** A handled request: the registry afterwards and the reply. */
  datatype Served<+T> = Served(registry: Registry, reply: Http<T>)

  /** A message of the request body. */
  datatype ChatMessage = ChatMessage(role: string, content: string, name: Option<string>)

  /** The completion request body (temperature and tools are not modelled). */
  datatype ChatCompletionRequest = ChatCompletionRequest(model: string, messages: seq<ChatMessage>, stream: Option<bool>)

  /** The fixed secret the key is compared with. */
  const API_KEY := "nossa-chave-secreta"
  /** The text removed from the `Authorization` header. */
  const BEARER := "Bearer "
  const INVALID_API_KEY := "Invalid API key"

  /** `BEARER` occurs in `s` starting at index `i`. */
  predicate BearerAt(s: string, i: int) {
    0 <= i && i + |BEARER| <= |s| && s[i..i + |BEARER|] == BEARER
  }

  /** `s.replace("Bearer ", "")`: scanning left to right, every
      non-overlapping occurrence of `BEARER` is removed, in a single pass. */
  function StripBearer(s: string): (r: string)
    ensures |r| <= |s|
    ensures (|s| - |r|) % |BEARER| == 0
    decreases |s|
  {
    if |s| == 0 then []
    else if BearerAt(s, 0) then StripBearer(s[|BEARER|..])
    else [s[0]] + StripBearer(s[1..])
  }

  /** A string without any occurrence of `BEARER` is left as it is, and one with
      an occurrence is changed: the header is rewritten exactly when it contains
      "Bearer ". */
  lemma {:induction false} StripBearerUnchangedIff(s: string)
    ensures StripBearer(s) == s <==> forall i :: !BearerAt(s, i)
    decreases |s|
  {
    if forall i :: !BearerAt(s, i) {
      StripBearerNoOccurrence(s);
    } else {
      var i :| BearerAt(s, i);
      StripBearerShrinks(s, i);
    }
  }

  lemma {:induction false} StripBearerNoOccurrence(s: string)
    requires forall i :: !BearerAt(s, i)
    ensures StripBearer(s) == s
    decreases |s|
  {
    if |s| > 0 {
      assert !BearerAt(s, 0);
      forall j
        ensures !BearerAt(s[1..], j)
      {
        if BearerAt(s[1..], j) {
          assert s[1..][j..j + |BEARER|] == s[j + 1..j + 1 + |BEARER|];
          assert BearerAt(s, j + 1);
        }
      }
      StripBearerNoOccurrence(s[1..]);
      assert [s[0]] + s[1..] == s;
    }
  }

  lemma {:induction false} StripBearerShrinks(s: string, i: int)
    requires BearerAt(s, i)
    ensures |StripBearer(s)| < |s|
    decreases |s|
  {
    if !BearerAt(s, 0) {
      assert i > 0;
      assert s[1..][i - 1..i - 1 + |BEARER|] == s[i..i + |BEARER|];
      StripBearerShrinks(s[1..], i - 1);
    }
  }

  /** Removal is not limited to a leading "Bearer ": whatever precedes an
      occurrence is stripped on its own and the occurrence itself disappears.
      (No occurrence can straddle the boundary, since "Bearer " has its only
      space at its end.) */
  lemma {:induction false} StripBearerSplit(a: string, b: string)
    ensures StripBearer(a + BEARER + b) == StripBearer(a) + StripBearer(b)
    decreases |a|
  {
    var t := BEARER + b;
    assert a + BEARER + b == a + t;
    assert t[..|BEARER|] == BEARER;
    assert StripBearer(t) == StripBearer(b) by {
      assert BearerAt(t, 0);
      assert t[|BEARER|..] == b;
    }
    if |a| == 0 {
      assert a + t == t;
    } else {
      assert BearerAt(a + t, 0) <==> BearerAt(a, 0) by {
        if |BEARER| <= |a| {
          BearerAtLongPrefix(a, t);
        } else {
          NoMatchAcrossBoundary(a, b);
        }
      }
      if BearerAt(a, 0) {
        assert (a + t)[|BEARER|..] == a[|BEARER|..] + BEARER + b;
        StripBearerSplit(a[|BEARER|..], b);
      } else {
        assert (a + t)[1..] == a[1..] + BEARER + b;
        StripBearerSplit(a[1..], b);
        assert [a[0]] + (StripBearer(a[1..]) + StripBearer(b)) == [a[0]] + StripBearer(a[1..]) + StripBearer(b);
      }
    }
  }

  /** A match at the start of `a + t` lies inside `a` when `a` is long enough. */
  lemma BearerAtLongPrefix(a: string, t: string)
    requires |BEARER| <= |a|
    ensures BearerAt(a + t, 0) <==> BearerAt(a, 0)
  {
    assert (a + t)[..|BEARER|] == a[..|BEARER|];
  }

  /** No match can start in a short non-empty `a` and end inside a following
      "Bearer ": its final space would have to be an earlier character of "Bearer ". */
  lemma NoMatchAcrossBoundary(a: string, b: string)
    requires 0 < |a| < |BEARER|
    ensures !BearerAt(a + BEARER + b, 0)
  {
    var s := a + BEARER + b;
    var k := |BEARER| - 1 - |a|;
    assert s[|BEARER| - 1] == BEARER[k];
    assert BEARER[k] != ' ';
    assert |s| < |BEARER| || s[..|BEARER|][|BEARER| - 1] == s[|BEARER| - 1];
  }

  /** `verify_api_key`: the header with every "Bearer " removed must equal the secret. */
  function VerifyApiKey(authorization: string): (r: Http<string>)
    ensures r.Reply? <==> StripBearer(authorization) == API_KEY
    ensures r.Reply? ==> r.body == API_KEY
    ensures r.Raise? ==> r.code == 401 && r.detail == INVALID_API_KEY
  {
    var apiKey := StripBearer(authorization);
    if apiKey != API_KEY then Raise(401, INVALID_API_KEY) else Reply(apiKey)
  }

  /** The secret has no "Bearer " in it. */
  lemma ApiKeyHasNoBearer()
    ensures forall i :: !BearerAt(API_KEY, i)
  {
    forall i | 0 <= i < |API_KEY|
      ensures !BearerAt(API_KEY, i)
    {
      assert API_KEY[i] != 'B';
    }
  }

  /** The secret passes the key check alone or after one "Bearer ". */
  lemma ApiKeyAcceptedHeaders()
    ensures VerifyApiKey(API_KEY).Reply?
    ensures VerifyApiKey(BEARER + API_KEY).Reply?
  {
    ApiKeyHasNoBearer();
    StripBearerNoOccurrence(API_KEY);
    StripBearerSplit([], API_KEY);
    assert [] + BEARER + API_KEY == BEARER + API_KEY;
  }

  /** Every occurrence is removed: the secret passes after a repeated prefix
      and with the prefix trailing it. */
  lemma ApiKeyAcceptsRepeatedOrTrailingPrefix()
    ensures VerifyApiKey(BEARER + BEARER + API_KEY).Reply?
    ensures VerifyApiKey(API_KEY + BEARER).Reply?
  {
    ApiKeyHasNoBearer();
    StripBearerNoOccurrence(API_KEY);
    StripBearerSplit([], API_KEY);
    assert [] + BEARER + API_KEY == BEARER + API_KEY;
    StripBearerSplit([], BEARER + API_KEY);
    assert [] + BEARER + (BEARER + API_KEY) == BEARER + BEARER + API_KEY;
    StripBearerSplit(API_KEY, []);
    assert API_KEY + BEARER + [] == API_KEY + BEARER;
    assert API_KEY + [] == API_KEY;
  }

  /** A lower-case prefix is not removed, so the header fails the key check. */
  lemma ApiKeyRejectsLowerCasePrefix()
    ensures VerifyApiKey("bearer " + API_KEY).Raise?
  {
    StripBearerWithoutB("bearer " + API_KEY);
    assert ("bearer " + API_KEY)[0] != API_KEY[0];
  }

  /** The replacement is a single pass: a prefix that only appears once an
      occurrence inside it has been removed stays, and the header fails. */
  lemma ApiKeyRejectsNestedPrefix()
    ensures VerifyApiKey("Be" + BEARER + "arer " + API_KEY).Raise?
  {
    var rest := "arer " + API_KEY;
    assert "Be" + BEARER + "arer " + API_KEY == "Be" + BEARER + rest;
    StripBearerSplit("Be", rest);
    assert StripBearer("Be") == "Be";
    StripBearerWithoutB(rest);
    assert StripBearer("Be" + BEARER + rest) == "Be" + rest;
    assert ("Be" + rest)[2] == 'a';
    assert API_KEY[2] == 's';
  }

  /** A string with no 'B' in it is never changed. */
  lemma StripBearerWithoutB(s: string)
    requires forall i :: 0 <= i < |s| ==> s[i] != 'B'
    ensures StripBearer(s) == s
  {
    forall i | 0 <= i < |s|
      ensures !BearerAt(s, i)
    {
      assert s[i] != 'B';
    }
    StripBearerNoOccurrence(s);
  }

  /** The request messages, converted one for one and in order into the manager's form. */
  function ConvertMessages(msgs: seq<ChatMessage>): (r: seq<Message>)
    ensures |r| == |msgs|
    ensures forall i :: 0 <= i < |msgs| ==>
      r[i].role == msgs[i].role && r[i].content == msgs[i].content && r[i].name == msgs[i].name
  {
    if |msgs| == 0 then []
    else [Message(msgs[0].role, msgs[0].content, msgs[0].name)] + ConvertMessages(msgs[1..])
  }

  /** `request.stream or False`: a missing flag is falsy and becomes `False`,
      a given flag is its own value whether it is true or false. */
  function StreamFlag(stream: Option<bool>): (r: bool)
    ensures stream.None? ==> !r
    ensures stream.Some? ==> r == stream.value
  {
    match stream
    case None => false
    case Some(b) => if b then b else false
  }

  /** The task a successful request creates is streaming exactly when the
      request asked for it explicitly: omitting `stream` means not streaming. */
  lemma StoredStreamIsRequested(reg: Registry, authorization: string, request: ChatCompletionRequest,
                                newId: TaskId, now: int)
    requires Fresh(reg, newId) && VerifyApiKey(authorization).Reply? && |request.messages| > 0
    ensures var s := CreateChatCompletion(reg, authorization, request, None, newId, now);
      && s.reply.Reply?
      && newId in s.registry.tasks
      && (s.registry.tasks[newId].stream <==> request.stream == Some(true))
  {
  }

  /** `POST /v1/chat/completions`: check the key, convert the messages, create
      the task; any exception of the create becomes a 500 carrying its message. */
  function CreateChatCompletion(reg: Registry, authorization: string, request: ChatCompletionRequest,
                                agentFailure: Option<string>, newId: TaskId, now: int): (s: Served<CreateResponse>)
    requires Fresh(reg, newId)
    ensures VerifyApiKey(authorization).Raise? ==> s == Served(reg, Raise(401, INVALID_API_KEY))
    ensures s.reply.Raise? ==> s.registry == reg
    ensures VerifyApiKey(authorization).Reply? && agentFailure.Some? ==> s.reply == Raise(500, agentFailure.value)
    ensures VerifyApiKey(authorization).Reply? && agentFailure.None? && |request.messages| == 0 ==>
      s.reply == Raise(500, INDEX_ERROR)
    ensures s.reply.Reply? <==> VerifyApiKey(authorization).Reply? && agentFailure.None? && |request.messages| > 0
    ensures s.reply.Reply? ==>
      && s.reply.body == CreateResponse(newId, STATUS_RUNNING, now)
      && newId in s.registry.tasks && newId in s.registry.contexts
      && s.registry.tasks[newId].handle == Handle(request.messages[|request.messages| - 1].content, Pending)
      && s.registry.tasks[newId].created == now
      && s.registry.tasks[newId].status == STATUS_RUNNING
      && s.registry.tasks - {newId} == reg.tasks
      && s.registry.contexts - {newId} == reg.contexts
      && s.registry.tasks[newId].stream == StreamFlag(request.stream)
      && s.registry.contexts[newId] == AgentContext(request.model)
      && Ids(s.registry) == Ids(reg) + {newId}
    ensures Consistent(reg) ==> Consistent(s.registry)
    ensures AllRunning(reg) ==> AllRunning(s.registry)
  {
    match VerifyApiKey(authorization)
    case Raise(code, detail) => Served(reg, Raise(code, detail))
    case Reply(_) =>
      var messages := ConvertMessages(request.messages);
      match CreateCompletion(reg, messages, request.model, StreamFlag(request.stream), agentFailure, newId, now)
      case Err(e) => Served(reg, Raise(500, e))
      case Ok(created) => Served(created.registry, Reply(created.response))
  }

  /** `GET /v1/chat/status/{task_id}`: check the key and poll; not found is a
      404, a completed task is removed after its result is taken, and running
      or errored tasks are reported with no change to the registry. */
  function GetChatStatus(reg: Registry, authorization: string, taskId: TaskId): (s: Served<StatusReport>)
    ensures VerifyApiKey(authorization).Raise? ==> s == Served(reg, Raise(401, INVALID_API_KEY))
    ensures VerifyApiKey(authorization).Reply? && taskId !in reg.tasks ==>
      s == Served(reg, Raise(404, TASK_NOT_FOUND))
    ensures s.reply.Reply? <==> VerifyApiKey(authorization).Reply? && taskId in reg.tasks
    ensures s.reply.Reply? ==> s.reply.body == GetTaskStatus(reg, taskId)
    ensures s.reply.Reply? && s.reply.body.Completed? ==> s.registry == CleanupTask(reg, taskId)
    ensures !(s.reply.Reply? && s.reply.body.Completed?) ==> s.registry == reg
    ensures Consistent(reg) ==> Consistent(s.registry)
    ensures AllRunning(reg) ==> AllRunning(s.registry)
  {
    match VerifyApiKey(authorization)
    case Raise(code, detail) => Served(reg, Raise(code, detail))
    case Reply(_) =>
      var result := GetTaskStatus(reg, taskId);
      StatusNameInjective(result);
      if result.Status() == STATUS_NOT_FOUND then Served(reg, Raise(404, TASK_NOT_FOUND))
      else if result.Status() == STATUS_COMPLETED then Served(CleanupTask(reg, taskId), Reply(result))
      else Served(reg, Reply(result))
  }

  /** A status reply for a present id follows the task's handle: running while
      it is pending, completed with the value when it succeeded (and only then
      is the task removed), error with the message when it raised; every reply
      carries the stored creation time. */
  lemma StatusReplyMatchesOutcome(reg: Registry, authorization: string, taskId: TaskId)
    requires VerifyApiKey(authorization).Reply? && taskId in reg.tasks
    ensures var s := GetChatStatus(reg, authorization, taskId);
      var o := reg.tasks[taskId].handle.outcome;
      && s.reply.Reply?
      && s.reply.body.CreatedAt() == Some(reg.tasks[taskId].created)
      && (s.reply.body.Running? <==> o.Pending?)
      && (s.reply.body.Completed? <==> o.Succeeded?)
      && (s.reply.body.Errored? <==> o.Raised?)
      && (o.Succeeded? ==> s.reply.body.result == o.value && taskId !in s.registry.tasks)
      && (o.Raised? ==> s.reply.body.error == o.message && s.registry == reg)
  {
  }

  /** The prompt the new task runs is the content of the last request message. */
  lemma PromptIsLastRequestMessage(reg: Registry, authorization: string, request: ChatCompletionRequest,
                                   newId: TaskId, now: int)
    requires Fresh(reg, newId) && VerifyApiKey(authorization).Reply? && |request.messages| > 0
    ensures var s := CreateChatCompletion(reg, authorization, request, None, newId, now);
      && s.reply.Reply?
      && GetTaskStatus(s.registry, newId) == Running(now)
      && s.registry.tasks[newId].handle.prompt == request.messages[|request.messages| - 1].content
  {
  }

  /** A completed task is delivered once: the next status request for it is a 404. */
  lemma CompletedThenNotFound(reg: Registry, authorization: string, taskId: TaskId)
    requires VerifyApiKey(authorization).Reply?
    requires GetTaskStatus(reg, taskId).Completed?
    ensures var first := GetChatStatus(reg, authorization, taskId);
      && first.reply == Reply(GetTaskStatus(reg, taskId))
      && GetChatStatus(first.registry, authorization, taskId).reply == Raise(404, TASK_NOT_FOUND)
  {
  }

  /** Every reply other than a completed one leaves the registry as it was, so
      asking again gives the identical answer: an errored task keeps reporting
      its error until something else removes it. */
  lemma PollRepeatsUnlessCompleted(reg: Registry, authorization: string, taskId: TaskId)
    requires !GetTaskStatus(reg, taskId).Completed?
    ensures var first := GetChatStatus(reg, authorization, taskId);
      && first.registry == reg
      && GetChatStatus(first.registry, authorization, taskId) == first
  {
  }

  /** A task whose background work raised is reported as an error, with the
      stringified exception and its creation time, on every status request:
      the reply leaves the registry as it was, so the next request is answered
      the same way. */
  lemma ErroredTaskReportsErrorOnEveryPoll(reg: Registry, authorization: string, taskId: TaskId)
    requires VerifyApiKey(authorization).Reply?
    requires taskId in reg.tasks && reg.tasks[taskId].handle.outcome.Raised?
    ensures var first := GetChatStatus(reg, authorization, taskId);
      && first == Served(reg, Reply(Errored(reg.tasks[taskId].handle.outcome.message, reg.tasks[taskId].created)))
      && GetChatStatus(first.registry, authorization, taskId) == first
  {
  }

  /** A failed key check changes nothing and is a 401, on both endpoints. */
  lemma BadKeyChangesNothing(reg: Registry, authorization: string, request: ChatCompletionRequest,
                             agentFailure: Option<string>, newId: TaskId, now: int, taskId: TaskId)
    requires Fresh(reg, newId) && StripBearer(authorization) != API_KEY
    ensures CreateChatCompletion(reg, authorization, request, agentFailure, newId, now) == Served(reg, Raise(401, INVALID_API_KEY))
    ensures GetChatStatus(reg, authorization, taskId) == Served(reg, Raise(401, INVALID_API_KEY))
  {
  }
}
