/**
 * The ReAct demo agent (book/.../02-demo-agent/ReAct.py): a Think -> Act -> Observe
 * conversation with a completion service, driven by two marker-based text parsers
 * and a case-insensitive tool lookup.
 *
 * The completion service is a parameter: a total function from the call number and
 * the messages sent to the reply text. Each tool's function is a total `string -> string`.
 */
module ReActDemo {
  import opened Wrappers
  import opened Text

  datatype Role = System | User | Assistant

  datatype Message = Message(role: Role, content: string)

  /** An entry of the `tools` list: `{"name", "description", "function"}`. */
  datatype Tool = Tool(name: string, description: string, run: string -> string)

  /** What `openai_chat_completion` answers on its `k`-th call, given the messages sent. */
  type Completion = (nat, seq<Message>) -> string

  const FinalMarker: string := "Final Answer:"
  const ActionMarker: string := "Action:"
  const InputMarker: string := "Action Input:"
  const ObservationPrefix: string := "Observation: "

  const SystemPrompt: string :=
    "你是一个按照ReAct框架工作的AI助手，需要思考、采取行动、观察，然后给出回答。"

  /** The last instruction added (to the request only) when the iteration budget runs out. */
  const ForcePrompt: string := "你必须现在给出Final Answer，不要再进行更多思考和行动。"

  /** `react_prompt_template` up to its `{question}` placeholder, and what follows it. */
  const PromptHead: string :=
    "Answer the following questions as best you can. You have access to the following tools:\n\n"
    + "Search: 当大模型没有相关知识时，用于搜索知识\n\n"
    + "Use the following format:\n\n"
    + "Question: the input question you must answer\n"
    + "Thought: you should always think about what to do\n"
    + "Action: the action to take, should be one of [Search]\n"
    + "Action Input: the input to the action\n"
    + "Observation: the result of the action\n"
    + "... (this Thought/Action/Action Input/Observation can repeat N times)\n"
    + "Thought: I now know the final answer\n"
    + "Final Answer: the final answer to the original input question\n\n"
    + "Begin!\n\n"
    + "Question: "
  const PromptTail: string := "\nThought:"

  // ---------------------------------------------------------------- prompt

  /** `react_prompt_template.format(question=question)`. */
  function Prompt(question: string): string {
    PromptHead + question + PromptTail
  }

  /** Reads the question back out of a filled-in template. */
  function QuestionOf(prompt: string): Option<string> {
    if |prompt| >= |PromptHead| + |PromptTail|
       && prompt[..|PromptHead|] == PromptHead
       && prompt[|prompt| - |PromptTail|..] == PromptTail
    then Some(prompt[|PromptHead|..|prompt| - |PromptTail|])
    else None
  }

  /** The question is substituted verbatim: it can always be read back. */
  lemma PromptRoundTrip(question: string)
    ensures QuestionOf(Prompt(question)) == Some(question)
  {
    var p := Prompt(question);
    assert p[..|PromptHead|] == PromptHead;
    assert p[|p| - |PromptTail|..] == PromptTail;
    assert p[|PromptHead|..|p| - |PromptTail|] == question;
  }

  // ---------------------------------------------------------------- parsing

  /** `response.split(marker)[1].split("\n")[0].strip()`. */
  function FieldAfter(response: string, marker: string): string
    requires |marker| > 0 && Contains(response, marker)
  {
    Strip(SplitFirst(SplitSecond(response, marker), "\n"))
  }

  /** `piece.split("\n")[0]` is the part of `piece` before its first line break. */
  lemma FirstLineSpec(piece: string)
    ensures var line := SplitFirst(piece, "\n");
            line == piece[..|line|] && '\n' !in line && (|line| == |piece| || piece[|line|] == '\n')
  {
    var line := SplitFirst(piece, "\n");
    SplitFirstSpec(piece, "\n");
    ContainsChar(line, '\n');
    if |line| < |piece| {
      assert piece[|line|..|line| + 1] == "\n";
    }
  }

  /** What `FieldAfter` reads: the text from the end of the first `marker` up to the
      first line break, the next `marker` or the end, whichever comes first, stripped. */
  lemma FieldAfterSpec(response: string, marker: string) returns (e: nat)
    requires |marker| > 0 && Contains(response, marker)
    ensures var k := Find(response, marker).value + |marker|;
            k <= e <= |response|
            && '\n' !in response[k..e] && !Contains(response[k..e], marker)
            && (e == |response| || response[e] == '\n' || OccursAt(response, marker, e))
            && FieldAfter(response, marker) == Strip(response[k..e])
    ensures '\n' !in FieldAfter(response, marker)
  {
    var k := Find(response, marker).value + |marker|;
    var piece := SplitSecond(response, marker);
    PieceAfter(response, marker);
    var line := SplitFirst(piece, "\n");
    FirstLineSpec(piece);
    e := k + |line|;
    assert response[k..e] == line by {
      assert response[k..e] == response[k..k + |piece|][..|line|];
    }
    if |line| < |piece| {
      assert response[e] == piece[|line|];
    }
    NotContainsSlice(piece, marker, 0, |line|);
    assert piece[0..|line|] == line;
    StripNoNewline(line);
  }

  /** Stripping a line keeps it a line. */
  lemma StripNoNewline(line: string)
    requires '\n' !in line
    ensures '\n' !in Strip(line)
  {
    ContainsChar(line, '\n');
    StripKeepsAbsence(line, "\n");
    ContainsChar(Strip(line), '\n');
  }

  /** The piece after the first marker sits right after it, up to the next marker or the end. */
  lemma PieceAfter(response: string, marker: string)
    requires |marker| > 0 && Contains(response, marker)
    ensures var k := Find(response, marker).value + |marker|;
            var piece := SplitSecond(response, marker);
            k + |piece| <= |response| && piece == response[k..k + |piece|] && !Contains(piece, marker)
            && (k + |piece| == |response| || OccursAt(response, marker, k + |piece|))
  {
    SplitSecondSpec(response, marker);
  }

  /** The `(action, action_input)` pair `extract_action_and_input` returns when it finds both markers. */
  datatype ActionRequest = ActionRequest(action: string, input: string)

  /** `extract_action_and_input`: `None` stands for the `(None, None)` pair. */
  function ExtractActionAndInput(response: string): Option<ActionRequest> {
    if !Contains(response, ActionMarker) || !Contains(response, InputMarker) then None
    else Some(ActionRequest(FieldAfter(response, ActionMarker), FieldAfter(response, InputMarker)))
  }

  /** Both markers are needed; each field is one stripped line read after its own marker. */
  lemma ExtractActionAndInputSpec(response: string)
    ensures ExtractActionAndInput(response).None?
            <==> !Contains(response, ActionMarker) || !Contains(response, InputMarker)
    ensures ExtractActionAndInput(response).Some? ==>
              var req := ExtractActionAndInput(response).value;
              '\n' !in req.action && '\n' !in req.input
              && req.action == Strip(req.action) && req.input == Strip(req.input)
              && !Contains(req.action, ActionMarker) && !Contains(req.input, InputMarker)
  {
    if ExtractActionAndInput(response).Some? {
      var req := ExtractActionAndInput(response).value;
      var e1 := FieldAfterSpec(response, ActionMarker);
      var e2 := FieldAfterSpec(response, InputMarker);
      var k1 := Find(response, ActionMarker).value + |ActionMarker|;
      var k2 := Find(response, InputMarker).value + |InputMarker|;
      StripIdempotent(response[k1..e1]);
      StripIdempotent(response[k2..e2]);
      StripKeepsAbsence(response[k1..e1], ActionMarker);
      StripKeepsAbsence(response[k2..e2], InputMarker);
    }
  }

  /** `extract_final_answer`. */
  function ExtractFinalAnswer(response: string): string {
    if Contains(response, FinalMarker) then Strip(SplitSecond(response, FinalMarker)) else response
  }

  /** Without the marker the response comes back unchanged; with it, the answer is the
      stripped text between the first marker and the next one (or the end). Either way
      the answer holds no marker, so extracting again changes nothing. */
  lemma ExtractFinalAnswerSpec(response: string)
    ensures !Contains(response, FinalMarker) ==> ExtractFinalAnswer(response) == response
    ensures Contains(response, FinalMarker) ==>
              var k := Find(response, FinalMarker).value + |FinalMarker|;
              exists e :: k <= e <= |response| && !Contains(response[k..e], FinalMarker)
                          && (e == |response| || OccursAt(response, FinalMarker, e))
                          && ExtractFinalAnswer(response) == Strip(response[k..e])
    ensures !Contains(ExtractFinalAnswer(response), FinalMarker)
    ensures ExtractFinalAnswer(ExtractFinalAnswer(response)) == ExtractFinalAnswer(response)
  {
    if Contains(response, FinalMarker) {
      SplitSecondSpec(response, FinalMarker);
      var k := Find(response, FinalMarker).value + |FinalMarker|;
      var piece := SplitSecond(response, FinalMarker);
      assert response[k..k + |piece|] == piece;
      StripKeepsAbsence(piece, FinalMarker);
    }
  }

  // ---------------------------------------------------------------- tools

  /** The first tool at or after `from` whose name equals `action`, ignoring case. */
  function FindTool(tools: seq<Tool>, action: string, from: nat): (r: Option<nat>)
    ensures r.Some? ==> from <= r.value < |tools| && Lower(tools[r.value].name) == Lower(action)
    ensures r.Some? ==> forall j :: from <= j < r.value ==> Lower(tools[j].name) != Lower(action)
    ensures r.None? ==> forall j :: from <= j < |tools| ==> Lower(tools[j].name) != Lower(action)
    decreases |tools| - from
  {
    if from >= |tools| then None
    else if Lower(tools[from].name) == Lower(action) then Some(from)
    else FindTool(tools, action, from + 1)
  }

  function ToolNotFound(action: string): string {
    "错误：找不到名为'" + action + "'的工具"
  }

  /** `execute_tool`. */
  function ExecuteTool(tools: seq<Tool>, action: string, input: string): string {
    match FindTool(tools, action, 0)
    case Some(i) => tools[i].run(input)
    case None => ToolNotFound(action)
  }

  /** The first tool whose name matches case-insensitively runs on the input; with no
      match the answer is the error text naming the action. */
  lemma ExecuteToolSpec(tools: seq<Tool>, action: string, input: string, i: nat)
    requires i < |tools| && Lower(tools[i].name) == Lower(action)
    requires forall j :: 0 <= j < i ==> Lower(tools[j].name) != Lower(action)
    ensures ExecuteTool(tools, action, input) == tools[i].run(input)
  {
    var r := FindTool(tools, action, 0);
  }

  lemma ExecuteToolUnknown(tools: seq<Tool>, action: string, input: string)
    requires forall j :: 0 <= j < |tools| ==> Lower(tools[j].name) != Lower(action)
    ensures ExecuteTool(tools, action, input) == ToolNotFound(action)
    ensures Contains(ExecuteTool(tools, action, input), action)
  {
    var msg := ToolNotFound(action);
    var k := |"错误：找不到名为'"|;
    assert msg[k..k + |action|] == action;
    assert OccursAt(msg, action, k);
    ContainsIff(msg, action);
  }

  // ---------------------------------------------------------------- the loop

  datatype Stop =
    | FinalAnswer   // a reply held "Final Answer:"
    | NoAction      // a reply without a usable action was returned as it is
    | Budget        // the iterations ran out and the forced last call answered

  /** What the loop does with one reply: return its final answer, return it as it is, or
      run a tool and go on. */
  datatype Turn = Final | Direct | Call(action: string, input: string)

  /** The demo's reading of a reply: the "Final Answer:" test first, then the action
      extraction, where a missing or empty action means the reply is returned as it is. */
  function Interpret(reply: string): Turn {
    if Contains(reply, FinalMarker) then Final
    else match ExtractActionAndInput(reply)
      case None => Direct
      case Some(req) => if req.action == "" then Direct else Call(req.action, req.input)
  }

  /**
   * The parts the loop is built from: the turn a reply asks for, the answer taken from a
   * reply that ends the run, and the observation a tool call yields. The loop is defined
   * for any parts; `Demo(tools)` are the ones `react_agent` uses.
   */
  datatype Agent = Agent(turn: string -> Turn, answer: string -> string, execute: (string, string) -> string)

  function Demo(tools: seq<Tool>): Agent {
    Agent(Interpret, ExtractFinalAnswer, (action, input) => ExecuteTool(tools, action, input))
  }

  /**
   * How a run of `react_agent` ended: the value it returns, the conversation list as it
   * stands at the end, how many completion calls were made, why it stopped, and the
   * messages and reply of the last call.
   */
  datatype Outcome = Outcome(
    answer: string,
    conversation: seq<Message>,
    calls: nat,
    stop: Stop,
    lastSent: seq<Message>,
    lastReply: string)

  /** The conversation as it stood when the last call was made: without the reply a final
      answer stores, and without the instruction the forced call adds. */
  function Stored(r: Outcome): seq<Message> {
    if r.stop == FinalAnswer then r.lastSent else r.conversation
  }

  function InitialConversation(question: string): seq<Message> {
    [Message(System, SystemPrompt), Message(User, Prompt(question))]
  }

  /** `range(max_iterations)` has this many elements. */
  function Iterations(maxIterations: int): nat {
    if maxIterations < 0 then 0 else maxIterations
  }

  /** The two messages an iteration that runs a tool appends. */
  function Exchange(reply: string, observation: string): seq<Message> {
    [Message(Assistant, reply), Message(User, ObservationPrefix + observation)]
  }

  /** The run from iteration `i` of `n` on, with `conversation` as it stands then. */
  function RunFrom(agent: Agent, complete: Completion, n: nat, i: nat, conversation: seq<Message>): Outcome
    requires i <= n
    decreases n - i
  {
    if i == n then
      var sent := conversation + [Message(User, ForcePrompt)];
      var reply := complete(i, sent);
      Outcome(agent.answer(reply), conversation, i + 1, Budget, sent, reply)
    else
      var reply := complete(i, conversation);
      match agent.turn(reply)
      case Final => Outcome(agent.answer(reply), conversation + [Message(Assistant, reply)], i + 1, FinalAnswer, conversation, reply)
      case Direct => Outcome(reply, conversation, i + 1, NoAction, conversation, reply)
      case Call(action, input) =>
        RunFrom(agent, complete, n, i + 1, conversation + Exchange(reply, agent.execute(action, input)))
  }

  /** The whole run of `react_agent(question, max_iterations)`. */
  function ReActRun(question: string, tools: seq<Tool>, complete: Completion, maxIterations: int): Outcome {
    RunFrom(Demo(tools), complete, Iterations(maxIterations), 0, InitialConversation(question))
  }

  /** `react_agent`. */
  method ReactAgent(question: string, tools: seq<Tool>, complete: Completion, maxIterations: int)
    returns (r: Outcome)
    ensures r == ReActRun(question, tools, complete, maxIterations)
  {
    var conversation := InitialConversation(question);
    var n := Iterations(maxIterations);
    var calls := 0;
    for i := 0 to n
      invariant calls == i
      invariant RunFrom(Demo(tools), complete, n, i, conversation) == ReActRun(question, tools, complete, maxIterations)
    {
      var reply := complete(i, conversation);
      calls := calls + 1;
      assert Demo(tools).turn(reply) == Interpret(reply);
      if Contains(reply, FinalMarker) {
        var sent := conversation;
        conversation := conversation + [Message(Assistant, reply)];
        return Outcome(ExtractFinalAnswer(reply), conversation, calls, FinalAnswer, sent, reply);
      }
      var extracted := ExtractActionAndInput(reply);
      if extracted.None? || extracted.value.action == "" {
        return Outcome(reply, conversation, calls, NoAction, conversation, reply);
      }
      var observation := ExecuteTool(tools, extracted.value.action, extracted.value.input);
      assert observation == Demo(tools).execute(extracted.value.action, extracted.value.input);
      conversation := conversation + Exchange(reply, observation);
    }
    var sent := conversation + [Message(User, ForcePrompt)];
    var finalReply := complete(n, sent);
    calls := calls + 1;
    r := Outcome(ExtractFinalAnswer(finalReply), conversation, calls, Budget, sent, finalReply);
  }

  // ---------------------------------------------------------------- properties of a run

  /** From index 2 on, the conversation is the exchanges of the tool calls so far, in order. */
  ghost predicate Exchanges(agent: Agent, complete: Completion, conversation: seq<Message>) {
    |conversation| >= 2 && |conversation| % 2 == 0
    && forall j :: 1 <= j < |conversation| / 2 ==> Replied(agent, complete, conversation, j)
  }

  /** Messages `2j` and `2j + 1` are the reply to call `j - 1`, which was sent the
      messages before them and asked for a tool, and that tool's observation. */
  ghost predicate Replied(agent: Agent, complete: Completion, conversation: seq<Message>, j: nat) {
    1 <= j && 2 * j + 1 < |conversation|
    && var reply := complete(j - 1, conversation[..2 * j]);
       var t := agent.turn(reply);
       t.Call?
       && conversation[2 * j] == Message(Assistant, reply)
       && conversation[2 * j + 1] == Message(User, ObservationPrefix + agent.execute(t.action, t.input))
  }

  /** A reply asking for a tool, stored with its observation, extends the exchanges. */
  lemma ExchangesExtend(agent: Agent, complete: Completion, conversation: seq<Message>)
    requires Exchanges(agent, complete, conversation)
    requires agent.turn(complete(|conversation| / 2 - 1, conversation)).Call?
    ensures var reply := complete(|conversation| / 2 - 1, conversation);
            var t := agent.turn(reply);
            Exchanges(agent, complete, conversation + Exchange(reply, agent.execute(t.action, t.input)))
  {
    var reply := complete(|conversation| / 2 - 1, conversation);
    var t := agent.turn(reply);
    var c := conversation + Exchange(reply, agent.execute(t.action, t.input));
    forall j | 1 <= j < |c| / 2
      ensures Replied(agent, complete, c, j)
    {
      if j < |conversation| / 2 {
        assert Replied(agent, complete, conversation, j);
        assert c[..2 * j] == conversation[..2 * j];
        assert c[2 * j] == conversation[2 * j] && c[2 * j + 1] == conversation[2 * j + 1];
      } else {
        assert c[..2 * j] == conversation;
      }
    }
  }

  /** How any run ends, whatever the reader: the number of calls, the reply of the last
      one, and why the run stopped. */
  lemma {:induction false} RunFromCalls(agent: Agent, complete: Completion, n: nat, i: nat, conversation: seq<Message>)
    requires i <= n
    ensures var r := RunFrom(agent, complete, n, i, conversation);
            i < r.calls <= n + 1
            && (r.stop == Budget <==> r.calls == n + 1)
            && r.lastReply == complete(r.calls - 1, r.lastSent)
            && (r.stop == FinalAnswer ==> agent.turn(r.lastReply) == Final && r.answer == agent.answer(r.lastReply))
            && (r.stop == NoAction ==> agent.turn(r.lastReply) == Direct && r.answer == r.lastReply)
            && (r.stop == Budget ==> r.answer == agent.answer(r.lastReply))
    decreases n - i
  {
    if i < n {
      var reply := complete(i, conversation);
      match agent.turn(reply)
      case Call(action, input) =>
        RunFromCalls(agent, complete, n, i + 1, conversation + Exchange(reply, agent.execute(action, input)));
      case _ =>
    }
  }

  /** What a run stores and sends, whatever the reader: the conversation only grows, by
      one exchange per tool call; the last call was sent the stored conversation (and, on
      the forced call, the extra instruction, which is not stored); a final answer's reply
      is stored and the other replies that end the run are not. */
  lemma {:induction false} RunFromConversation(agent: Agent, complete: Completion, n: nat, i: nat, conversation: seq<Message>)
    requires i <= n && Exchanges(agent, complete, conversation) && |conversation| == 2 + 2 * i
    ensures var r := RunFrom(agent, complete, n, i, conversation);
            var before := Stored(r);
            conversation <= before && |before| == 2 * r.calls && Exchanges(agent, complete, before)
            && (r.stop == FinalAnswer ==> r.conversation == r.lastSent + [Message(Assistant, r.lastReply)])
            && (r.stop == NoAction ==> r.lastSent == r.conversation)
            && (r.stop == Budget ==> r.lastSent == r.conversation + [Message(User, ForcePrompt)])
    decreases n - i
  {
    if i < n {
      var reply := complete(i, conversation);
      match agent.turn(reply)
      case Call(action, input) =>
        var observation := agent.execute(action, input);
        assert |conversation| / 2 - 1 == i;
        ExchangesExtend(agent, complete, conversation);
        RunFromConversation(agent, complete, n, i + 1, conversation + Exchange(reply, observation));
      case _ =>
    }
  }

  /** The forced instruction can never be mistaken for a stored message: the stored ones
      are the system message, the prompt, assistant replies and observations. */
  lemma ForcePromptNotStored(question: string, agent: Agent, complete: Completion, conversation: seq<Message>)
    requires Exchanges(agent, complete, conversation) && conversation[..2] == InitialConversation(question)
    ensures Message(User, ForcePrompt) !in conversation
  {
    forall p | 0 <= p < |conversation|
      ensures conversation[p] != Message(User, ForcePrompt)
    {
      if p < 2 {
        assert conversation[p] == InitialConversation(question)[p];
        assert |Prompt(question)| > |ForcePrompt|;
      } else if p % 2 == 0 {
        assert Replied(agent, complete, conversation, p / 2);
      } else {
        assert p == 2 * (p / 2) + 1;
        assert Replied(agent, complete, conversation, p / 2);
        assert conversation[p].content[..|ObservationPrefix|] == ObservationPrefix;
        assert ForcePrompt[0] != ObservationPrefix[0];
      }
    }
  }

  /** A run of `react_agent`: at most `max_iterations + 1` completion calls, the extra one
      exactly when no iteration returned; the conversation starts with the system message and the filled-in
      prompt and grows by one exchange per tool call; the forced instruction is sent but
      never stored. */
  lemma ReActRunSpec(question: string, tools: seq<Tool>, complete: Completion, maxIterations: int)
    ensures var r := ReActRun(question, tools, complete, maxIterations);
            1 <= r.calls <= Iterations(maxIterations) + 1
            && (r.stop == Budget <==> r.calls == Iterations(maxIterations) + 1)
            && |r.conversation| >= 2 && r.conversation[..2] == InitialConversation(question)
            && (r.stop == FinalAnswer ==>
                  |r.conversation| == 2 * r.calls + 1 && r.conversation == r.lastSent + [Message(Assistant, r.lastReply)])
            && (r.stop == NoAction ==> |r.conversation| == 2 * r.calls && r.lastSent == r.conversation)
            && (r.stop == Budget ==>
                  |r.conversation| == 2 * r.calls
                  && r.lastSent == r.conversation + [Message(User, ForcePrompt)]
                  && Message(User, ForcePrompt) !in r.conversation)
  {
    var init := InitialConversation(question);
    var agent := Demo(tools);
    var n := Iterations(maxIterations);
    RunFromCalls(agent, complete, n, 0, init);
    RunFromConversation(agent, complete, n, 0, init);
    var r := RunFrom(agent, complete, n, 0, init);
    assert r == ReActRun(question, tools, complete, maxIterations);
    assert r.conversation[..2] == init;
    if r.stop == Budget {
      ForcePromptNotStored(question, agent, complete, r.conversation);
    }
  }

  /** Messages `2j` and `2j + 1` of a demo conversation: the reply to call `j - 1`, which
      holds no "Final Answer:" and names an action, and the observation of running it. */
  ghost predicate DemoReplied(tools: seq<Tool>, complete: Completion, conversation: seq<Message>, j: nat) {
    1 <= j && 2 * j + 1 < |conversation|
    && var reply := complete(j - 1, conversation[..2 * j]);
       var req := ExtractActionAndInput(reply);
       conversation[2 * j] == Message(Assistant, reply)
       && !Contains(reply, FinalMarker)
       && req.Some? && req.value.action != ""
       && conversation[2 * j + 1] == Message(User, ObservationPrefix + ExecuteTool(tools, req.value.action, req.value.input))
  }

  /** With the demo's reader, a stored exchange is a tool request and its observation. */
  lemma DemoRepliedOf(tools: seq<Tool>, complete: Completion, conversation: seq<Message>, j: nat)
    requires Replied(Demo(tools), complete, conversation, j)
    ensures DemoReplied(tools, complete, conversation, j)
  {
    var reply := complete(j - 1, conversation[..2 * j]);
    assert Demo(tools).turn(reply) == Interpret(reply);
  }

  /** Why a run of `react_agent` returns what it returns: every reply before the last one
      held no "Final Answer:", named an action and is stored with that tool's observation,
      so the first reply holding the marker, or without a usable action, ends the run. The
      last reply decides the answer: the text after "Final Answer:", the reply as it is when
      it names no action, or else the forced last reply's final answer. */
  lemma ReActRunAnswer(question: string, tools: seq<Tool>, complete: Completion, maxIterations: int)
    ensures var r := ReActRun(question, tools, complete, maxIterations);
            |Stored(r)| == 2 * r.calls
            && (forall j :: 1 <= j < r.calls ==> DemoReplied(tools, complete, Stored(r), j))
            && (r.stop == FinalAnswer ==>
                  Contains(r.lastReply, FinalMarker) && r.answer == ExtractFinalAnswer(r.lastReply))
            && (r.stop == NoAction ==>
                  !Contains(r.lastReply, FinalMarker)
                  && (ExtractActionAndInput(r.lastReply).None? || ExtractActionAndInput(r.lastReply).value.action == "")
                  && r.answer == r.lastReply)
            && (r.stop == Budget ==> r.answer == ExtractFinalAnswer(r.lastReply))
  {
    var agent := Demo(tools);
    var init := InitialConversation(question);
    var n := Iterations(maxIterations);
    RunFromCalls(agent, complete, n, 0, init);
    RunFromConversation(agent, complete, n, 0, init);
    var r := RunFrom(agent, complete, n, 0, init);
    assert r == ReActRun(question, tools, complete, maxIterations);
    forall j | 1 <= j < r.calls
      ensures DemoReplied(tools, complete, Stored(r), j)
    {
      assert Replied(agent, complete, Stored(r), j);
      DemoRepliedOf(tools, complete, Stored(r), j);
    }
    assert agent.turn(r.lastReply) == Interpret(r.lastReply);
    assert agent.answer(r.lastReply) == ExtractFinalAnswer(r.lastReply);
  }

  /** A first reply holding "Final Answer:" ends the run after one call, even if it also
      holds Action lines, with the extracted answer. */
  lemma FinalAnswerFirst(question: string, tools: seq<Tool>, complete: Completion, maxIterations: int)
    requires maxIterations >= 1
    requires Contains(complete(0, InitialConversation(question)), FinalMarker)
    ensures var r := ReActRun(question, tools, complete, maxIterations);
            r.stop == FinalAnswer && r.calls == 1
            && r.answer == ExtractFinalAnswer(complete(0, InitialConversation(question)))
  {
  }

  /** With a service that never answers with the marker and always names a tool, the run
      costs exactly `max_iterations + 1` calls and answers from the forced last call. */
  lemma NeverFinal(question: string, tools: seq<Tool>, complete: Completion, maxIterations: int)
    requires forall k: nat, c :: k < Iterations(maxIterations) ==>
               !Contains(complete(k, c), FinalMarker)
               && ExtractActionAndInput(complete(k, c)).Some?
               && ExtractActionAndInput(complete(k, c)).value.action != ""
    ensures var r := ReActRun(question, tools, complete, maxIterations);
            r.stop == Budget && r.calls == Iterations(maxIterations) + 1
  {
    var n := Iterations(maxIterations);
    forall k: nat, c | k < n ensures Demo(tools).turn(complete(k, c)).Call? {
      assert Demo(tools).turn(complete(k, c)) == Interpret(complete(k, c));
    }
    NeverFinalFrom(Demo(tools), complete, n, 0, InitialConversation(question));
  }

  /** Replies that all ask for a tool run the loop to its budget. */
  lemma {:induction false} NeverFinalFrom(agent: Agent, complete: Completion, n: nat, i: nat, conversation: seq<Message>)
    requires i <= n
    requires forall k: nat, c :: k < n ==> agent.turn(complete(k, c)).Call?
    ensures RunFrom(agent, complete, n, i, conversation).stop == Budget
    ensures RunFrom(agent, complete, n, i, conversation).calls == n + 1
    decreases n - i
  {
    if i < n {
      var reply := complete(i, conversation);
      var t := agent.turn(reply);
      NeverFinalFrom(agent, complete, n, i + 1, conversation + Exchange(reply, agent.execute(t.action, t.input)));
    }
  }
}
