/**
 Calls to the language model: a retry loop over provider outcomes, a second ask when a structured
 answer does not validate, and the conversation that records or rolls back each turn.
 */
module Conversation {
  import opened Prelude

  datatype Role = SystemRole | UserRole | AssistantRole

  datatype Message = Message(role: Role, content: string)

  /** `schema` says whether the answer must validate. */
  datatype Request = Request(messages: seq<Message>, schema: bool)

  datatype Error = RateLimited | TimedOut | ProviderDown | AuthFailed | Invalid | Foreign

  datatype Outcome = Reply(text: string, parsed: Option<string>, cost: int) | Failure(error: Error)

  /** One request handed to the provider, and what came of it. */
  datatype Call = Call(request: Request, outcome: Outcome)

  datatype Turn = Turn(user: string, assistant: string, cost: int)

  predicate Retryable(e: Error) {
    e == RateLimited || e == TimedOut || e == ProviderDown
  }

  function Attempts(max: int): nat {
    if max < 1 then 1 else max
  }

  // ---------------------------------------------------------------- what a request may cost

  predicate FailedForNow(o: Outcome) {
    o.Failure? && Retryable(o.error)
  }

  /** The calls of one retry loop: the same request each time, going on only after a transient failure. */
  ghost predicate RetryRun(calls: seq<Call>, request: Request, max: int) {
    && 1 <= |calls| <= Attempts(max)
    && (forall i :: 0 <= i < |calls| ==> calls[i].request == request)
    && (forall i :: 0 <= i < |calls| - 1 ==> FailedForNow(calls[i].outcome))
    && (FailedForNow(calls[|calls| - 1].outcome) ==> |calls| == Attempts(max))
  }

  /** A rate limit, a timeout or a provider failure is tried again, up to the limit; any other error ends the loop. */
  lemma TransientFailuresRepeat(calls: seq<Call>, request: Request, max: int, i: nat)
    requires RetryRun(calls, request, max) && i < |calls|
    ensures |calls| <= if max < 1 then 1 else max
    ensures calls[i].outcome.Reply? ==> i == |calls| - 1
    ensures calls[i].outcome.Failure? ==>
              match calls[i].outcome.error
              case RateLimited => i < |calls| - 1 || |calls| == if max < 1 then 1 else max
              case TimedOut => i < |calls| - 1 || |calls| == if max < 1 then 1 else max
              case ProviderDown => i < |calls| - 1 || |calls| == if max < 1 then 1 else max
              case _ => i == |calls| - 1
  {
  }

  function Correction(request: Request, text: string): Request {
    request.(messages := request.messages + [Message(AssistantRole, text), Message(UserRole, "schema correction")])
  }

  predicate Acceptable(request: Request, o: Outcome) {
    o.Reply? && (request.schema ==> o.parsed.Some?)
  }

  /** Everything one request costs: one retry loop, and a second one only after an answer that did not validate. */
  ghost predicate AskRun(calls: seq<Call>, first: nat, request: Request, max: int) {
    && first <= |calls| && RetryRun(calls[..first], request, max)
    && var o := calls[first - 1].outcome;
       if first == |calls| then o.Failure? || Acceptable(request, o)
       else o.Reply? && !Acceptable(request, o) && RetryRun(calls[first..], Correction(request, o.text), max)
  }

  /** No provider call follows a permanent error or an accepted answer, and there are at most 2 x max attempts. */
  lemma AskRunBounded(calls: seq<Call>, first: nat, request: Request, max: int, i: nat)
    requires AskRun(calls, first, request, max) && i < |calls|
    ensures |calls| <= 2 * (if max < 1 then 1 else max)
    ensures i + 1 < |calls|
            ==> FailedForNow(calls[i].outcome)
                || (i + 1 == first && calls[i].outcome.Reply? && !Acceptable(request, calls[i].outcome))
    ensures i < first ==> calls[i].request == request
    ensures first <= i ==> calls[i].request.schema == request.schema
                           && calls[i].request.messages
                              == request.messages + [Message(AssistantRole, calls[first - 1].outcome.text),
                                                     Message(UserRole, "schema correction")]
  {
    if i < first {
      assert calls[..first][i] == calls[i];
    } else {
      assert calls[first..][i - first] == calls[i];
    }
  }

  datatype Answer = Answered(reply: Outcome) | Raised(error: Error)

  class Adapter {
    const maxAttempts: int
    /** What a response text validates to. */
    const validate: string -> Option<string>
    var calls: seq<Call>

    constructor (maxAttempts: int, validate: string -> Option<string>)
      ensures calls == [] && this.maxAttempts == maxAttempts && this.validate == validate
    {
      this.maxAttempts, this.validate, calls := maxAttempts, validate, [];
    }

    /** One provider call: any failure, or any text, parsed when a schema was asked for. */
    method CallOnce(request: Request) returns (o: Outcome)
      modifies `calls
      ensures calls == old(calls) + [Call(request, o)]
      ensures o.Reply? ==> o.parsed == if request.schema then validate(o.text) else None
    {
      if * {
        var e: Error := *;
        o := Failure(e);
      } else {
        var text: string := *;
        var cost: int := *;
        o := Reply(text, if request.schema then validate(text) else None, cost);
      }
      calls := calls + [Call(request, o)];
    }

    method WithRetry(request: Request) returns (o: Outcome, ghost run: seq<Call>)
      modifies `calls
      ensures calls == old(calls) + run && RetryRun(run, request, maxAttempts) && o == run[|run| - 1].outcome
      ensures o.Reply? ==> o.parsed == if request.schema then validate(o.text) else None
    {
      var attempt := 1;
      o := CallOnce(request);
      run := [Call(request, o)];
      while FailedForNow(o) && attempt < maxAttempts
        invariant calls == old(calls) + run && |run| == attempt <= Attempts(maxAttempts) && o == run[|run| - 1].outcome
        invariant forall i :: 0 <= i < |run| ==> run[i].request == request
        invariant forall i :: 0 <= i < |run| - 1 ==> FailedForNow(run[i].outcome)
        invariant o.Reply? ==> o.parsed == if request.schema then validate(o.text) else None
        decreases maxAttempts - attempt
      {
        attempt := attempt + 1;
        o := CallOnce(request);
        run := run + [Call(request, o)];
      }
    }

    /** `_invoke`: an answer to a schema request is returned only if it validates. */
    method Generate(request: Request) returns (a: Answer, ghost run: seq<Call>, ghost first: nat)
      modifies `calls
      ensures calls == old(calls) + run && AskRun(run, first, request, maxAttempts)
      ensures a.Answered? ==> a.reply == run[|run| - 1].outcome && Acceptable(request, a.reply)
      ensures a.Answered? && request.schema ==> a.reply.parsed == validate(a.reply.text) && a.reply.parsed.Some?
      ensures a.Raised? ==> run[|run| - 1].outcome == Failure(a.error)
                            || (a.error == Invalid && first < |run| && run[|run| - 1].outcome.Reply?
                                && !Acceptable(request, run[|run| - 1].outcome))
    {
      var o;
      ghost var again: seq<Call>;
      o, run := WithRetry(request);
      first := |run|;
      assert run[..first] == run;
      if o.Failure? { return Raised(o.error), run, first; }
      if !request.schema || o.parsed.Some? { return Answered(o), run, first; }
      var corrected := Correction(request, o.text);
      o, again := WithRetry(corrected);
      ghost var both := run + again;
      assert both[..first] == run && both[first..] == again;
      run := both;
      if o.Failure? { return Raised(o.error), run, first; }
      if o.parsed.Some? { return Answered(o), run, first; }
      a := Raised(Invalid);
    }
  }

  // ---------------------------------------------------------------- the transcript

  function Opening(system: Option<string>): seq<Message> {
    if system.Some? && system.value != "" then [Message(SystemRole, system.value)] else []
  }

  /** The messages of the recorded turns. */
  function Exchanges(turns: seq<Turn>): seq<Message> {
    if turns == [] then [] else
      var t := turns[|turns| - 1];
      Exchanges(turns[..|turns| - 1]) + [Message(UserRole, t.user), Message(AssistantRole, t.assistant)]
  }

  /** The system prompt, if the transcript starts with one. */
  function Head(messages: seq<Message>): (head: seq<Message>)
    ensures |head| <= |messages|
  {
    if messages != [] && messages[0].role == SystemRole then messages[..1] else []
  }

  /** What `compact` with "head_tail" keeps. */
  function HeadTail(messages: seq<Message>, keepLast: int): seq<Message> {
    if |messages| <= keepLast + 1 then messages else
      var head := Head(messages);
      var rest := messages[|head|..];
      if keepLast >= |rest| then messages
      else if keepLast <= 0 then head
      else head + rest[|rest| - keepLast..]
  }

  lemma HeadTailParts(messages: seq<Message>, keepLast: int)
    ensures |messages| <= keepLast + 1 ==> HeadTail(messages, keepLast) == messages
    ensures |messages| > keepLast + 1 ==>
              var head, rest := Head(messages), messages[|Head(messages)|..];
              HeadTail(messages, keepLast) == if |rest| <= keepLast then messages
                                              else head + if 0 <= keepLast then rest[|rest| - keepLast..] else []
  {
    hide Head;
  }

  /** The system prompt and the last messages survive, nothing else does, and compacting again changes nothing. */
  lemma HeadTailKeeps(messages: seq<Message>, keepLast: nat)
    ensures var kept := HeadTail(messages, keepLast);
            && (messages != [] && messages[0].role == SystemRole ==> kept != [] && kept[0] == messages[0])
            && (keepLast <= |messages|
                ==> keepLast <= |kept| && kept[|kept| - keepLast..] == messages[|messages| - keepLast..])
            && |kept| <= keepLast + 1
            && (|messages| > keepLast + 1 && messages[0].role != SystemRole ==> |kept| == keepLast)
            && HeadTail(kept, keepLast) == kept
  {
    var kept := HeadTail(messages, keepLast);
    if |messages| > keepLast + 1 {
      var head := Head(messages);
      var rest := messages[|head|..];
      assert kept == head + rest[|rest| - keepLast..];
    }
  }

  class LLMConversation {
    const client: Adapter
    const system: Option<string>
    var messages: seq<Message>
    var turns: seq<Turn>
    /** No compaction has happened yet. */
    ghost var whole: bool

    /** Until it is compacted, the history is the system prompt and the recorded turns. */
    ghost predicate Valid()
      reads `messages, `turns, `whole
    {
      whole ==> messages == Opening(system) + Exchanges(turns)
    }

    constructor (client: Adapter, system: Option<string>)
      ensures Valid() && turns == [] && whole
      ensures messages == match system
                          case None => []
                          case Some(text) => if text == "" then [] else [Message(SystemRole, text)]
      ensures this.client == client && this.system == system
    {
      this.client, this.system := client, system;
      messages, turns, whole := Opening(system), [], true;
    }

    /** One turn: recorded whole if it is answered, rolled back whole if it is not. */
    method Send(content: string, schema: bool) returns (a: Answer, ghost run: seq<Call>, ghost first: nat)
      requires Valid()
      modifies this, client
      ensures Valid() && whole == old(whole)
      ensures client.calls == old(client.calls) + run
      ensures AskRun(run, first, Request(old(messages) + [Message(UserRole, content)], schema), client.maxAttempts)
      ensures match a
              case Raised(_) => messages == old(messages) && turns == old(turns)
              case Answered(reply) =>
                && reply.Reply? && (schema ==> reply.parsed.Some? && reply.parsed == client.validate(reply.text))
                && messages == old(messages) + [Message(UserRole, content), Message(AssistantRole, reply.text)]
                && turns == old(turns) + [Turn(content, reply.text, reply.cost)]
    {
      var request := Request(messages + [Message(UserRole, content)], schema);
      messages := messages + [Message(UserRole, content)];
      a, run, first := client.Generate(request);
      if a.Raised? {
        messages := messages[..|messages| - 1];
        assert messages == old(messages);
        return;
      }
      messages := messages + [Message(AssistantRole, a.reply.text)];
      turns := turns + [Turn(content, a.reply.text, a.reply.cost)];
      assert turns[..|turns| - 1] == old(turns);
      assert messages == old(messages) + [Message(UserRole, content), Message(AssistantRole, a.reply.text)];
    }

    method CompactHeadTail(keepLast: int)
      requires Valid()
      modifies this
      ensures Valid() && messages == HeadTail(old(messages), keepLast) && turns == old(turns)
    {
      hide Opening, Exchanges, HeadTail;
      HeadTailParts(messages, keepLast);
      if |messages| <= keepLast + 1 { return; }
      var head, rest := [], messages;
      if rest != [] && rest[0].role == SystemRole { head, rest := rest[..1], rest[1..]; }
      var cut := if |rest| - keepLast > 0 then |rest| - keepLast else 0;
      if cut == 0 { return; }
      assert head == Head(messages) && rest == messages[|Head(messages)|..];
      var tail := if cut <= |rest| then rest[cut..] else [];
      whole := false;
      messages := head + tail;
    }
  }
}
