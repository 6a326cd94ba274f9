/**
 * One attempt of the executor: the tool-calling conversation of
 * `_run_agentic_loop` (syndicate/nodes.py:320-365), and the scripted model of
 * syndicate/stub_llm.py that can stand at its other end.
 */
module AgenticLoop {
  import opened PyText

  datatype Block =
    | Text(text: string)
    | ToolUse(id: string, name: string)
    | OtherBlock

  datatype Response = Response(content: seq<Block>, stopReason: string)

  datatype ToolResult = ToolResult(toolUseId: string, content: string, isError: bool)

  datatype Message =
    | UserText(text: string)
    | UserResults(results: seq<ToolResult>)
    | Assistant(content: seq<Block>)
  {
    predicate FromUser() { !Assistant? }
  }

  const CAP_TEXT := "tool call cap reached without a final answer"

  function Prompt(task: string, feedback: Option<string>): string {
    match feedback
    case None => task
    case Some(text) => task + "\n\nThe previous attempt failed its checks:\n" + text
  }

  function TextOf(content: seq<Block>): string {
    if content == [] then ""
    else (if content[0].Text? then content[0].text else "") + TextOf(content[1..])
  }

  /** Text blocks are joined in order, and other blocks add nothing. */
  lemma {:induction false} TextOfConcat(a: seq<Block>, b: seq<Block>)
    ensures TextOf(a + b) == TextOf(a) + TextOf(b)
    decreases |a|
  {
    if a == [] {
      assert a + b == b;
    } else {
      assert (a + b)[1..] == a[1..] + b && (a + b)[0] == a[0];
      TextOfConcat(a[1..], b);
      ConcatAssociates(if a[0].Text? then a[0].text else "", TextOf(a[1..]), TextOf(b));
    }
  }

  lemma TextOfOne(block: Block)
    ensures TextOf([]) == "" && TextOf([block]) == if block.Text? then block.text else ""
  {
    assert [block][1..] == [];
  }

  /** The ids of the tool_use blocks, in order. */
  function ToolIds(content: seq<Block>): seq<string> {
    if content == [] then []
    else (if content[0].ToolUse? then [content[0].id] else []) + ToolIds(content[1..])
  }

  function ResultIds(results: seq<ToolResult>): seq<string> {
    seq(|results|, i requires 0 <= i < |results| => results[i].toolUseId)
  }

  lemma {:induction false} ToolIdsConcat(a: seq<Block>, b: seq<Block>)
    ensures ToolIds(a + b) == ToolIds(a) + ToolIds(b)
    decreases |a|
  {
    if a == [] {
      assert a + b == b;
    } else {
      assert (a + b)[1..] == a[1..] + b && (a + b)[0] == a[0];
      ToolIdsConcat(a[1..], b);
      ConcatAssociates(if a[0].ToolUse? then [a[0].id] else [], ToolIds(a[1..]), ToolIds(b));
    }
  }

  /**
   * The model at the far end: any function of the conversation it is shown,
   * and a record of what it was shown. Each call shows a longer conversation,
   * so an attempt can meet any stream of responses.
   */
  class Model {
    const respond: seq<Message> -> Response
    var callsSeen: seq<seq<Message>>

    constructor (respond: seq<Message> -> Response)
      ensures this.respond == respond && callsSeen == []
    {
      this.respond := respond;
      callsSeen := [];
    }

    method Create(messages: seq<Message>) returns (r: Response)
      modifies this
      ensures callsSeen == old(callsSeen) + [messages]
      ensures r == respond(messages)
    {
      r := respond(messages);
      callsSeen := callsSeen + [messages];
    }
  }

  /** The tools at the near end; a call's text and error flag are whatever the sandbox makes of it. */
  class Tools {
    const run: (nat, Block) -> (string, bool)
    var used: nat

    constructor (run: (nat, Block) -> (string, bool))
      ensures this.run == run && used == 0
    {
      this.run := run;
      used := 0;
    }

    method Run(block: Block) returns (content: string, isError: bool)
      modifies this
      ensures used == old(used) + 1
      ensures (content, isError) == run(old(used), block)
    {
      var r := run(used, block);
      content, isError := r.0, r.1;
      used := used + 1;
    }
  }

  // ----- what a well-formed conversation is -----

  /**
   * Roles alternate from the user on, assistant messages are the model's
   * replies in order, and each message after a reply holds exactly one result
   * for each of its tool calls, by id and in order.
   */
  ghost predicate WellFormed(messages: seq<Message>, replies: seq<Response>, prompt: string) {
    && 0 < |messages| && 2 * |replies| <= |messages| <= 2 * |replies| + 1
    && messages[0] == UserText(prompt)
    && (forall i | 0 <= i < |messages| :: messages[i].FromUser() <==> i % 2 == 0)
    && (forall i | 0 <= i < |messages| && i % 2 == 1 :: messages[i] == Assistant(replies[i / 2].content))
    && (forall i | 0 < i < |messages| && i % 2 == 0 :: Answers(messages[i], replies[i / 2 - 1].content))
  }

  predicate Answers(m: Message, content: seq<Block>) {
    m.UserResults? && ResultIds(m.results) == ToolIds(content)
  }

  /** The i-th call, from 0, shows the first 1 + 2i messages. */
  ghost predicate SawPrefixes(calls: seq<seq<Message>>, messages: seq<Message>) {
    forall i | 0 <= i < |calls| :: 2 * i + 1 <= |messages| && calls[i] == messages[..2 * i + 1]
  }

  /** The loop stops at the first reply that asks for no tools, or at the cap. */
  predicate StopsInTime(replies: seq<Response>, cap: nat) {
    && |replies| <= cap
    && (forall i | 0 <= i < |replies| - 1 :: replies[i].stopReason == "tool_use")
    && (|replies| < cap ==> replies != [] && Last(replies).stopReason != "tool_use")
  }

  /** That settles how many calls there are: no stop comes before another one. */
  lemma StopIsUnique(some: seq<Response>, more: seq<Response>, cap: nat)
    requires StopsInTime(some, cap) && StopsInTime(more, cap) && some <= more
    ensures some == more
  {
    assert some != [] ==> Last(some) == more[|some| - 1];
  }

  /** A whole attempt's conversation: what the model was shown, call by call, and what it replied. */
  ghost predicate Conversed(shown: seq<seq<Message>>, replies: seq<Response>, cap: nat, prompt: string) {
    && |shown| == |replies| && StopsInTime(replies, cap)
    && exists messages :: WellFormed(messages, replies, prompt) && SawPrefixes(shown, messages)
  }

  /** Every call of a conversation opens with the prompt. */
  lemma EveryCallShowsThePrompt(shown: seq<seq<Message>>, replies: seq<Response>, cap: nat, prompt: string)
    requires Conversed(shown, replies, cap, prompt)
    ensures forall k | 0 <= k < |shown| :: |shown[k]| == 1 + 2 * k && shown[k][0] == UserText(prompt)
  {
    hide Answers;
    var messages :| WellFormed(messages, replies, prompt) && SawPrefixes(shown, messages);
    forall k | 0 <= k < |shown| ensures |shown[k]| == 1 + 2 * k && shown[k][0] == UserText(prompt) {
      assert shown[k] == messages[..2 * k + 1];
    }
  }

  /** What the attempt reports: the final answer's text, or the note that there was none. */
  function Report(replies: seq<Response>): string {
    if replies != [] && Last(replies).stopReason != "tool_use" then TextOf(Last(replies).content) else CAP_TEXT
  }

  lemma ReportIsAnswerOrNote(replies: seq<Response>, cap: nat)
    requires StopsInTime(replies, cap)
    ensures |replies| < cap ==> Report(replies) == TextOf(Last(replies).content)
    ensures replies == [] || Last(replies).stopReason == "tool_use" ==>
              |replies| == cap && Report(replies) == "tool call cap reached without a final answer"
    ensures replies != [] && Last(replies).stopReason != "tool_use" ==> Report(replies) == TextOf(Last(replies).content)
  {
    hide TextOf;
  }

  /** The replies are what the model answers to what it was shown. */
  predicate RepliesTo(respond: seq<Message> -> Response, shown: seq<seq<Message>>, replies: seq<Response>) {
    |shown| == |replies| && forall i | 0 <= i < |replies| :: replies[i] == respond(shown[i])
  }

  /** The state of the loop before a call. */
  ghost predicate AtCall(messages: seq<Message>, calls: seq<seq<Message>>, replies: seq<Response>, prompt: string) {
    && |messages| == 2 * |replies| + 1 && |calls| == |replies|
    && WellFormed(messages, replies, prompt)
    && SawPrefixes(calls, messages)
  }

  /** One more call, answered by a completion. */
  lemma Finish(messages: seq<Message>, calls: seq<seq<Message>>, replies: seq<Response>, prompt: string, r: Response)
    requires AtCall(messages, calls, replies, prompt)
    ensures WellFormed(messages + [Assistant(r.content)], replies + [r], prompt)
    ensures SawPrefixes(calls + [messages], messages + [Assistant(r.content)])
  {
    SeeOneMore(calls, messages, [Assistant(r.content)]);
  }

  lemma WellFormedContinues(messages: seq<Message>, replies: seq<Response>, prompt: string, r: Response,
                            results: seq<ToolResult>)
    requires WellFormed(messages, replies, prompt) && |messages| == 2 * |replies| + 1
    requires ResultIds(results) == ToolIds(r.content)
    ensures WellFormed(messages + [Assistant(r.content)] + [UserResults(results)], replies + [r], prompt)
  {
    hide ResultIds, ToolIds;
    var all, given := messages + [Assistant(r.content)] + [UserResults(results)], replies + [r];
    forall k | 0 <= k < |all|
      ensures all[k].FromUser() <==> k % 2 == 0
      ensures k % 2 == 1 ==> all[k] == Assistant(given[k / 2].content)
      ensures k > 0 && k % 2 == 0 ==> Answers(all[k], given[k / 2 - 1].content)
    {
      if k < |messages| { assert all[k] == messages[k]; }
    }
  }

  /** One more call, answered by tool calls, and their results. */
  lemma Continue(messages: seq<Message>, calls: seq<seq<Message>>, replies: seq<Response>, prompt: string,
                 r: Response, results: seq<ToolResult>)
    requires AtCall(messages, calls, replies, prompt) && ResultIds(results) == ToolIds(r.content)
    ensures AtCall(messages + [Assistant(r.content)] + [UserResults(results)], calls + [messages], replies + [r],
                   prompt)
  {
    hide WellFormed, SawPrefixes, ResultIds, ToolIds;
    var both := [Assistant(r.content)] + [UserResults(results)];
    assert messages + [Assistant(r.content)] + [UserResults(results)] == messages + both;
    WellFormedContinues(messages, replies, prompt, r, results);
    SeeOneMore(calls, messages, both);
  }

  lemma SeeOneMore(calls: seq<seq<Message>>, messages: seq<Message>, more: seq<Message>)
    requires SawPrefixes(calls, messages) && |messages| == 2 * |calls| + 1
    ensures SawPrefixes(calls + [messages], messages + more)
  {
    var all := calls + [messages];
    forall i | 0 <= i < |all|
      ensures 2 * i + 1 <= |messages + more| && all[i] == (messages + more)[..2 * i + 1]
    {
      if i < |calls| { assert calls[i] == messages[..2 * i + 1]; }
    }
  }

  // ----- what the tools answer -----

  /** The tool calls of a reply stand at these places. */
  ghost predicate CallsAt(content: seq<Block>, at: seq<nat>) {
    && (forall j | 0 <= j < |at| :: at[j] < |content| && content[at[j]].ToolUse?)
    && (forall j, k | 0 <= j < k < |at| :: at[j] < at[k])
    && (forall i: nat | i < |content| && content[i].ToolUse? :: i in at)
  }

  /** The j-th call is answered, under its id, by the text and the flag of the tool run `used + j`. */
  ghost predicate ResultsOf(run: (nat, Block) -> (string, bool), used: nat, content: seq<Block>, at: seq<nat>,
                            results: seq<ToolResult>)
  {
    && |results| == |at|
    && forall j | 0 <= j < |at| ::
         && at[j] < |content| && content[at[j]].ToolUse?
         && results[j].toolUseId == content[at[j]].id
         && results[j].content == run(used + j, content[at[j]]).0
         && results[j].isError == run(used + j, content[at[j]]).1
  }

  /** Each tool call of a reply has its result, and there is no other, when `used` calls have been made before. */
  ghost predicate Answered(run: (nat, Block) -> (string, bool), used: nat, content: seq<Block>,
                           results: seq<ToolResult>)
  {
    exists at :: CallsAt(content, at) && ResultsOf(run, used, content, at, results)
  }

  /** How many results a conversation holds. */
  function ResultCount(messages: seq<Message>): nat {
    if messages == [] then 0
    else ResultCount(Init(messages)) + if Last(messages).UserResults? then |Last(messages).results| else 0
  }

  /** The message at m, if it holds results, answers the reply just before it. */
  ghost predicate AnswersAt(run: (nat, Block) -> (string, bool), used: nat, messages: seq<Message>, m: nat)
    requires 0 < m < |messages|
  {
    messages[m].UserResults? ==>
      && messages[m - 1].Assistant?
      && Answered(run, used + ResultCount(messages[..m]), messages[m - 1].content, messages[m].results)
  }

  ghost predicate AllAnswered(run: (nat, Block) -> (string, bool), used: nat, messages: seq<Message>) {
    forall m | 0 < m < |messages| :: AnswersAt(run, used, messages, m)
  }

  lemma EarlierAnswer(run: (nat, Block) -> (string, bool), used: nat, messages: seq<Message>, next: Message, m: nat)
    requires 0 < m < |messages| && AnswersAt(run, used, messages, m)
    ensures AnswersAt(run, used, messages + [next], m)
  {
    hide Answered, ResultCount;
    assert (messages + [next])[..m] == messages[..m];
  }

  lemma AnswersStay(run: (nat, Block) -> (string, bool), used: nat, messages: seq<Message>, next: Message)
    requires AllAnswered(run, used, messages) && messages != []
    requires AnswersAt(run, used, messages + [next], |messages|)
    ensures AllAnswered(run, used, messages + [next])
  {
    hide AnswersAt;
    forall m | 0 < m < |messages + [next]| ensures AnswersAt(run, used, messages + [next], m) {
      if m < |messages| { EarlierAnswer(run, used, messages, next, m); }
    }
  }

  lemma CountOneMore(messages: seq<Message>, next: Message)
    ensures ResultCount(messages + [next]) ==
            ResultCount(messages) + if next.UserResults? then |next.results| else 0
  {
    assert Init(messages + [next]) == messages;
  }

  lemma ReplyStays(run: (nat, Block) -> (string, bool), used: nat, messages: seq<Message>, content: seq<Block>)
    requires AllAnswered(run, used, messages) && messages != []
    ensures AllAnswered(run, used, messages + [Assistant(content)])
  {
    hide AllAnswered, Answered, ResultCount;
    AnswersStay(run, used, messages, Assistant(content));
  }

  /** A reply and the answer to it. */
  lemma AnswersFollow(run: (nat, Block) -> (string, bool), used: nat, messages: seq<Message>, content: seq<Block>,
                      results: seq<ToolResult>)
    requires AllAnswered(run, used, messages) && messages != []
    requires Answered(run, used + ResultCount(messages), content, results)
    ensures var all := messages + [Assistant(content)] + [UserResults(results)];
            ResultCount(all) == ResultCount(messages) + |results| && AllAnswered(run, used, all)
  {
    hide Answered, ResultCount, AllAnswered;
    var more, next := messages + [Assistant(content)], UserResults(results);
    ReplyStays(run, used, messages, content);
    CountOneMore(messages, Assistant(content));
    CountOneMore(more, next);
    assert (more + [next])[..|more|] == more && (more + [next])[|more| - 1] == Assistant(content);
    AnswersStay(run, used, more, next);
  }

  lemma ToolIdsSnoc(content: seq<Block>)
    requires content != []
    ensures ToolIds(content) == ToolIds(Init(content)) + if Last(content).ToolUse? then [Last(content).id] else []
  {
    assert content == Init(content) + [Last(content)];
    ToolIdsConcat(Init(content), [Last(content)]);
  }

  lemma NoToolCalls(content: seq<Block>)
    ensures CallsAt(content[..0], []) && ToolIds(content[..0]) == []
  {
  }

  lemma OneBlockMore(content: seq<Block>, at: seq<nat>, block: Block)
    requires CallsAt(content, at)
    ensures CallsAt(content + [block], if block.ToolUse? then at + [|content|] else at)
  {
    var all, there := content + [block], if block.ToolUse? then at + [|content|] else at;
    forall i: nat | i < |all| && all[i].ToolUse? ensures i in there {
      if i < |content| {
        assert all[i] == content[i] && i in at;
      } else {
        assert there[|there| - 1] == i;
      }
    }
  }

  lemma OneResultMore(run: (nat, Block) -> (string, bool), used: nat, content: seq<Block>, at: seq<nat>,
                      results: seq<ToolResult>, block: Block)
    requires ResultsOf(run, used, content, at, results)
    ensures ResultsOf(run, used, content + [block], at, results)
    ensures block.ToolUse? ==>
              var r := run(used + |results|, block);
              ResultsOf(run, used, content + [block], at + [|content|], results + [ToolResult(block.id, r.0, r.1)])
  {
  }

  method RunTools(tools: Tools, content: seq<Block>) returns (results: seq<ToolResult>)
    modifies tools
    ensures Answered(tools.run, old(tools.used), content, results)
    ensures ResultIds(results) == ToolIds(content)
    ensures tools.used == old(tools.used) + |results|
  {
    hide ToolIds, CallsAt, ResultsOf;
    results := [];
    ghost var at: seq<nat> := [];
    NoToolCalls(content);
    assert ResultsOf(tools.run, tools.used, content[..0], at, results) by { NoResults(tools.run, tools.used); }
    for i := 0 to |content|
      invariant CallsAt(content[..i], at) && ResultsOf(tools.run, old(tools.used), content[..i], at, results)
      invariant ResultIds(results) == ToolIds(content[..i])
      invariant tools.used == old(tools.used) + |results|
    {
      var block := content[i];
      assert content[..i + 1] == content[..i] + [block];
      ToolIdsSnoc(content[..i + 1]);
      OneBlockMore(content[..i], at, block);
      OneResultMore(tools.run, old(tools.used), content[..i], at, results, block);
      if block.ToolUse? {
        var text, isError := tools.Run(block);
        results := results + [ToolResult(block.id, text, isError)];
        at := at + [i];
      }
    }
    assert content[..|content|] == content;
  }

  lemma NoResults(run: (nat, Block) -> (string, bool), used: nat)
    ensures ResultsOf(run, used, [], [], [])
  {
  }

  /** The state of the loop before a call, with the tools at `used` where they stood at `first`. */
  ghost predicate AtTurn(run: (nat, Block) -> (string, bool), first: nat, used: nat, messages: seq<Message>,
                         calls: seq<seq<Message>>, replies: seq<Response>, prompt: string)
  {
    && AtCall(messages, calls, replies, prompt) && AllAnswered(run, first, messages)
    && used == first + ResultCount(messages)
  }

  lemma BeginTurns(run: (nat, Block) -> (string, bool), used: nat, prompt: string)
    ensures AtTurn(run, used, used, [UserText(prompt)], [], [], prompt)
  {
  }

  lemma NextTurn(run: (nat, Block) -> (string, bool), first: nat, used: nat, messages: seq<Message>,
                 calls: seq<seq<Message>>, replies: seq<Response>, prompt: string,
                 r: Response, results: seq<ToolResult>)
    requires AtTurn(run, first, used, messages, calls, replies, prompt)
    requires Answered(run, used, r.content, results) && ResultIds(results) == ToolIds(r.content)
    ensures AtTurn(run, first, used + |results|, messages + [Assistant(r.content)] + [UserResults(results)],
                   calls + [messages], replies + [r], prompt)
  {
    hide WellFormed, SawPrefixes, Answered, ResultCount, AllAnswered, ResultIds, ToolIds;
    Continue(messages, calls, replies, prompt, r, results);
    AnswersFollow(run, first, messages, r.content, results);
  }

  lemma LastTurn(run: (nat, Block) -> (string, bool), first: nat, used: nat, messages: seq<Message>,
                 calls: seq<seq<Message>>, replies: seq<Response>, prompt: string, r: Response)
    requires AtTurn(run, first, used, messages, calls, replies, prompt)
    ensures WellFormed(messages + [Assistant(r.content)], replies + [r], prompt)
    ensures SawPrefixes(calls + [messages], messages + [Assistant(r.content)]) && |calls| == |replies|
    ensures AllAnswered(run, first, messages + [Assistant(r.content)])
  {
    hide WellFormed, SawPrefixes, Answered, ResultCount, AllAnswered;
    Finish(messages, calls, replies, prompt, r);
    ReplyStays(run, first, messages, r.content);
  }

  lemma NoMoreTurns(run: (nat, Block) -> (string, bool), first: nat, used: nat, messages: seq<Message>,
                    calls: seq<seq<Message>>, replies: seq<Response>, prompt: string)
    requires AtTurn(run, first, used, messages, calls, replies, prompt)
    ensures WellFormed(messages, replies, prompt) && SawPrefixes(calls, messages) && |calls| == |replies|
    ensures AllAnswered(run, first, messages)
  {
    hide WellFormed, SawPrefixes, AllAnswered;
  }

  /** The first message of an attempt is the task, and after a failure the feedback, word for word. */
  lemma OpensWithPrompt(messages: seq<Message>, replies: seq<Response>, task: string, feedback: Option<string>)
    requires WellFormed(messages, replies, Prompt(task, feedback))
    ensures messages != []
    ensures messages[0] == UserText(
              if feedback.None? then task
              else task + "\n\nThe previous attempt failed its checks:\n" + feedback.value)
  {
    hide Answers;
  }

  /**
   * Drive one attempt with a fresh model client. `messages` is the
   * conversation as it stands at the end.
   */
  method RunAgenticLoop(model: Model, tools: Tools, task: string, feedback: Option<string>, cap: nat)
    returns (summary: string, messages: seq<Message>, ghost replies: seq<Response>)
    requires model.callsSeen == []
    modifies model, tools
    ensures RepliesTo(model.respond, model.callsSeen, replies)
    ensures WellFormed(messages, replies, Prompt(task, feedback)) && SawPrefixes(model.callsSeen, messages)
    ensures AllAnswered(tools.run, old(tools.used), messages)
    ensures StopsInTime(replies, cap) && summary == Report(replies)
    ensures Conversed(model.callsSeen, replies, cap, Prompt(task, feedback))
  {
    hide WellFormed, SawPrefixes, TextOf, ToolIds, ResultIds, Prompt, Answered, ResultCount, AllAnswered, AtTurn;
    ghost var prompt, first := Prompt(task, feedback), tools.used;
    messages := [UserText(Prompt(task, feedback))];
    replies := [];
    BeginTurns(tools.run, first, prompt);
    for i := 0 to cap
      invariant |replies| == i && RepliesTo(model.respond, model.callsSeen, replies)
      invariant AtTurn(tools.run, first, tools.used, messages, model.callsSeen, replies, prompt)
      invariant forall k | 0 <= k < i :: replies[k].stopReason == "tool_use"
    {
      ghost var shown, calls, given, used := messages, model.callsSeen, replies, tools.used;
      var response := model.Create(messages);
      replies := given + [response];
      messages := messages + [Assistant(response.content)];
      if response.stopReason != "tool_use" {
        LastTurn(tools.run, first, used, shown, calls, given, prompt, response);
        return TextOf(response.content), messages, replies;
      }
      var results := RunTools(tools, response.content);
      messages := messages + [UserResults(results)];
      NextTurn(tools.run, first, used, shown, calls, given, prompt, response, results);
    }
    NoMoreTurns(tools.run, first, tools.used, messages, model.callsSeen, replies, prompt);
    summary := CAP_TEXT;
  }

  // ----- the scripted model -----

  datatype ToolCall = ToolCall(name: string)

  datatype Turn = Turn(toolCalls: seq<ToolCall>, done: bool, text: string)

  /** `f'stub-{call_index}-{i}'` for the i-th call of a turn. */
  function StubBlocks(calls: seq<ToolCall>, callIndex: nat, i: nat): (blocks: seq<Block>)
    requires i <= |calls|
    ensures |blocks| == |calls| - i
    ensures forall j | i <= j < |calls| ::
              blocks[j - i] == ToolUse("stub-" + Decimal(callIndex) + "-" + Decimal(j), calls[j].name)
    decreases |calls| - i
  {
    if i == |calls| then []
    else
      [ToolUse("stub-" + Decimal(callIndex) + "-" + Decimal(i), calls[i].name)] + StubBlocks(calls, callIndex, i + 1)
  }

  /** The response to the k-th call, from 0; the last turn repeats for ever. */
  function StubResponse(script: seq<Turn>, k: nat): Response
    requires script != []
  {
    var turn := script[if k < |script| then k else |script| - 1];
    if turn.done then Response([Text(turn.text)], "end_turn")
    else Response(StubBlocks(turn.toolCalls, k + 1, 0), "tool_use")
  }

  class StubClient {
    const script: seq<Turn>
    var callIndex: nat
    var callsSeen: seq<seq<Message>>

    constructor (script: seq<Turn>)
      requires script != []
      ensures this.script == script && callIndex == 0 && callsSeen == []
    {
      this.script := script;
      callIndex := 0;
      callsSeen := [];
    }

    method NextTurn() returns (turn: Turn)
      requires script != []
      modifies `callIndex
      ensures callIndex == old(callIndex) + 1
      ensures turn == script[if old(callIndex) < |script| then old(callIndex) else |script| - 1]
    {
      turn := script[if callIndex < |script| - 1 then callIndex else |script| - 1];
      callIndex := callIndex + 1;
    }

    method Create(messages: seq<Message>) returns (r: Response)
      requires script != []
      modifies this
      ensures callsSeen == old(callsSeen) + [messages] && callIndex == old(callIndex) + 1
      ensures r == StubResponse(script, old(callIndex))
      ensures var turn := script[if old(callIndex) < |script| then old(callIndex) else |script| - 1];
              if turn.done then r == Response([Text(turn.text)], "end_turn")
              else
                && r.stopReason == "tool_use" && |r.content| == |turn.toolCalls|
                && forall i | 0 <= i < |turn.toolCalls| ::
                     r.content[i] ==
                     ToolUse("stub-" + Decimal(old(callIndex) + 1) + "-" + Decimal(i), turn.toolCalls[i].name)
    {
      callsSeen := callsSeen + [messages];
      var turn := NextTurn();
      if turn.done {
        return Response([Text(turn.text)], "end_turn");
      }
      var blocks: seq<Block> := [];
      for i := 0 to |turn.toolCalls|
        invariant blocks + StubBlocks(turn.toolCalls, callIndex, i) == StubBlocks(turn.toolCalls, callIndex, 0)
        invariant callIndex == old(callIndex) + 1 && callsSeen == old(callsSeen) + [messages]
      {
        blocks := blocks + [ToolUse("stub-" + Decimal(callIndex) + "-" + Decimal(i), turn.toolCalls[i].name)];
      }
      r := Response(blocks, "tool_use");
    }
  }

  /**
   * Against a script, an attempt makes one call for each turn up to its first
   * completion, or runs to the cap: a script without a completion never ends.
   */
  lemma ScriptedCallCount(script: seq<Turn>, replies: seq<Response>, cap: nat, d: nat)
    requires script != [] && d <= |script|
    requires StopsInTime(replies, cap) && forall k | 0 <= k < |replies| :: replies[k] == StubResponse(script, k)
    requires forall k | 0 <= k < d :: !script[k].done
    requires d < |script| ==> script[d].done
    ensures |replies| == if d < |script| && d + 1 < cap then d + 1 else cap
  {
    hide StubBlocks;
    assert forall k | 0 <= k < |replies| && (k < d || d == |script|) ::
        StubResponse(script, k).stopReason == "tool_use";
    assert d < |script| ==> StubResponse(script, d).stopReason == "end_turn";
  }

  /** A scripted model, by how many calls the conversation it is shown has had before. */
  function Scripted(script: seq<Turn>): seq<Message> -> Response
    requires script != []
  {
    messages => StubResponse(script, |messages| / 2)
  }

  /** So it is for a whole attempt whose model answers from a script. */
  lemma ScriptedAttempt(script: seq<Turn>, shown: seq<seq<Message>>, replies: seq<Response>, cap: nat, prompt: string,
                        d: nat)
    requires script != [] && d <= |script|
    requires RepliesTo(Scripted(script), shown, replies) && Conversed(shown, replies, cap, prompt)
    requires forall k | 0 <= k < d :: !script[k].done
    requires d < |script| ==> script[d].done
    ensures |shown| == if d < |script| && d + 1 < cap then d + 1 else cap
  {
    hide StubResponse;
    EveryCallShowsThePrompt(shown, replies, cap, prompt);
    forall k | 0 <= k < |replies| ensures replies[k] == StubResponse(script, k) {
      assert |shown[k]| / 2 == k;
    }
    ScriptedCallCount(script, replies, cap, d);
  }

  /** An attempt run against a script, and how many calls it makes. */
  method RunScripted(script: seq<Turn>, tools: Tools, task: string, feedback: Option<string>, cap: nat, ghost d: nat)
    returns (summary: string, model: Model)
    requires script != [] && d <= |script|
    requires forall k | 0 <= k < d :: !script[k].done
    requires d < |script| ==> script[d].done
    modifies tools
    ensures fresh(model) && |model.callsSeen| == if d < |script| && d + 1 < cap then d + 1 else cap
  {
    hide Conversed, WellFormed, SawPrefixes, StopsInTime, Prompt, Report;
    model := new Model(Scripted(script));
    ghost var messages, replies;
    summary, messages, replies := RunAgenticLoop(model, tools, task, feedback, cap);
    ScriptedAttempt(script, model.callsSeen, replies, cap, Prompt(task, feedback), d);
  }
}
