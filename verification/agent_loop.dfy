/** The chat agent (`llmClass` in backend/src/llm_handler/llmClass.js): a
    message history that starts with the system instructions, and a bounded
    loop that asks the model, runs the tools the model calls and feeds their
    results back.  The model call, `JSON.parse` of the call arguments and
    `JSON.stringify` of a tool result are parameters; the tools are the
    records of the tool-schema module, run over an explicit game state. */
module AgentLoop {
  import opened Js
  import ToolSchema

  /** Model calls allowed per `getResponse`. */
  const MaxIterations := 10

  const ErrorMessage := "Error: Maximum iterations reached without a normal response."

  datatype Role = System | User | Assistant

  datatype Message = Message(role: Role, content: string)

  /** One item of `response.output`: a function call, or anything else. */
  datatype Output = FunctionCall(name: string, arguments: string) | OtherOutput

  datatype ModelResponse = ModelResponse(output: seq<Output>, outputText: string)

  datatype Agent<!S, -A, R> = Agent(model: string, tools: seq<ToolSchema.Tool<S, A, R>>,
                                    instructions: string, history: seq<Message>)

  /** The model endpoint: model name, tool schemas, history so far and the
      index of the call within the turn; it may fail. */
  type Ask = (string, seq<ToolSchema.FunctionSchema>, seq<Message>, nat) -> Outcome<ModelResponse>

  /** The state left after the tool calls of one response: the history, the
      game state, whether a function call was seen, and the error thrown, if any. */
  datatype Step<S> = Step(history: seq<Message>, state: S, sawCall: bool, error: Option<string>)

  /** The outcome of one `getResponse`: the history, the game state, what the
      call resolved or rejected with, and how many model calls it made. */
  datatype Turn<S> = Turn(history: seq<Message>, state: S, reply: Outcome<string>, calls: nat)

  /** `new llmClass(model, tools, instructions)` */
  function NewAgent<S, A, R>(model: string, tools: seq<ToolSchema.Tool<S, A, R>>, instructions: string)
    : (a: Agent<S, A, R>)
    ensures a.history == [Message(System, instructions)]
    ensures a.model == model && a.tools == tools && a.instructions == instructions
  {
    Agent(model, tools, instructions, [Message(System, instructions)])
  }

  /** `resetGame()` */
  function ResetGame<S, A, R>(a: Agent<S, A, R>): (r: Agent<S, A, R>)
    ensures r.history == [Message(System, a.instructions)]
    ensures r.model == a.model && r.tools == a.tools && r.instructions == a.instructions
  {
    a.(history := [Message(System, a.instructions)])
  }

  /** `this.tools.map(tool => tool.formatOpenAIReadable())` */
  function Schemas<S, A, R>(tools: seq<ToolSchema.Tool<S, A, R>>): (r: seq<ToolSchema.FunctionSchema>)
    ensures |r| == |tools|
    ensures forall i :: 0 <= i < |tools| ==> r[i] == ToolSchema.FormatOpenAIReadable(tools[i])
    ensures forall i :: 0 <= i < |tools| ==>
              && r[i].name == tools[i].name && r[i].description == tools[i].description
              && r[i].parameters == tools[i].parameters && r[i].strict
  {
    seq(|tools|, i requires 0 <= i < |tools| => ToolSchema.FormatOpenAIReadable(tools[i]))
  }

  /** The first registered tool with the given name. */
  function FindTool<S, A, R>(tools: seq<ToolSchema.Tool<S, A, R>>, name: string): (r: Option<nat>)
    ensures r.Some? ==> r.value < |tools| && tools[r.value].name == name
    ensures r.Some? ==> forall j :: 0 <= j < r.value ==> tools[j].name != name
    ensures r.None? ==> forall j :: 0 <= j < |tools| ==> tools[j].name != name
  {
    if |tools| == 0 then None
    else if tools[0].name == name then Some(0)
    else
      var k := FindTool(tools[1..], name);
      assert forall j :: 1 <= j < |tools| ==> tools[j] == tools[1..][j - 1];
      if k.Some? then Some(k.value + 1) else None
  }

  /** The history entry recording one tool call. */
  function ToolMessage(name: string, arguments: string, result: string): Message {
    Message(User, "Tool " + name + " was called with arguments " + arguments + " and returned: " + result)
  }

  /** The last history entry is the assistant's `text`. */
  predicate EndsWithAnswer(history: seq<Message>, text: string) {
    |history| > 0 && history[|history| - 1] == Message(Assistant, text)
  }

  predicate HasFunctionCall(outputs: seq<Output>) {
    exists i :: 0 <= i < |outputs| && outputs[i].FunctionCall?
  }

  /** How many outputs are function calls naming a registered tool. */
  function MatchedCalls<S, A, R>(outputs: seq<Output>, tools: seq<ToolSchema.Tool<S, A, R>>): nat {
    if |outputs| == 0 then 0
    else
      var here := if outputs[0].FunctionCall? && FindTool(tools, outputs[0].name).Some? then 1 else 0;
      here + MatchedCalls(outputs[1..], tools)
  }

  /** The `for (const output of response.output)` loop: each function call
      naming a registered tool parses its arguments, runs the first tool with
      that name and appends one user entry; an unknown name appends nothing.
      A failing parse or tool stops the loop with its error. */
  function Process<S, A, R>(tools: seq<ToolSchema.Tool<S, A, R>>, outputs: seq<Output>,
                            history: seq<Message>, state: S,
                            parse: string -> Outcome<A>, stringify: R -> string): (r: Step<S>)
    ensures |r.history| >= |history| && r.history[..|history|] == history
    ensures forall j :: |history| <= j < |r.history| ==> r.history[j].role == User
    ensures r.error.None? ==> (r.sawCall <==> HasFunctionCall(outputs))
    ensures r.error.None? ==> |r.history| == |history| + MatchedCalls(outputs, tools)
    ensures !HasFunctionCall(outputs) ==> r == Step(history, state, false, None)
    decreases |outputs|
  {
    if |outputs| == 0 then Step(history, state, false, None)
    else
      var tail := outputs[1..];
      assert forall i :: 1 <= i < |outputs| ==> outputs[i] == tail[i - 1];
      assert HasFunctionCall(tail) ==> HasFunctionCall(outputs);
      match outputs[0]
      case OtherOutput =>
        Process(tools, tail, history, state, parse, stringify)
      case FunctionCall(name, arguments) =>
        match FindTool(tools, name)
        case None =>
          Process(tools, tail, history, state, parse, stringify).(sawCall := true)
        case Some(i) =>
          match parse(arguments)
          case Threw(e) => Step(history, state, true, Some(e))
          case Returned(args) =>
            match ToolSchema.Call(tools[i], state, args)
            case Threw(e) => Step(history, state, true, Some(e))
            case Returned((state', result)) =>
              var history' := history + [ToolMessage(name, arguments, stringify(result))];
              var rest := Process(tools, tail, history', state', parse, stringify);
              assert rest.history[..|history|] == history' [..|history|];
              rest.(sawCall := true)
  }

  /** What one item of `response.output` does on its own: anything but a
      function call is skipped; a call naming no registered tool only marks
      the round as a tool round; a call naming one parses its arguments, runs
      the first tool of that name and reports the result in one user entry,
      unless the parse or the tool throws. */
  function StepOne<S, A, R>(tools: seq<ToolSchema.Tool<S, A, R>>, output: Output,
                            history: seq<Message>, state: S,
                            parse: string -> Outcome<A>, stringify: R -> string): Step<S>
  {
    match output
    case OtherOutput => Step(history, state, false, None)
    case FunctionCall(name, arguments) =>
      match FindTool(tools, name)
      case None => Step(history, state, true, None)
      case Some(i) =>
        match parse(arguments)
        case Threw(e) => Step(history, state, true, Some(e))
        case Returned(args) =>
          match tools[i].execute(state, args)
          case Threw(e) => Step(history, state, true, Some(e))
          case Returned((state', result)) =>
            Step(history + [ToolMessage(name, arguments, stringify(result))], state', true, None)
  }

  /** `later` run after `earlier`: a function call in either counts. */
  function Then<S>(earlier: Step<S>, later: Step<S>): Step<S> {
    later.(sawCall := earlier.sawCall || later.sawCall)
  }

  /** The outputs taken from the last one backwards: everything before the
      last output is processed, then, unless that failed, the last one. */
  function Replay<S, A, R>(tools: seq<ToolSchema.Tool<S, A, R>>, outputs: seq<Output>,
                           history: seq<Message>, state: S,
                           parse: string -> Outcome<A>, stringify: R -> string): Step<S>
    decreases |outputs|
  {
    if |outputs| == 0 then Step(history, state, false, None)
    else
      var before := Replay(tools, outputs[..|outputs| - 1], history, state, parse, stringify);
      if before.error.Some? then before
      else Then(before, StepOne(tools, outputs[|outputs| - 1], before.history, before.state, parse, stringify))
  }

  /** Processing a response in two parts: the second part starts from the
      history and state the first leaves, unless the first failed. */
  lemma {:induction false} ProcessConcat<S, A, R>(tools: seq<ToolSchema.Tool<S, A, R>>, o1: seq<Output>, o2: seq<Output>,
                                                  history: seq<Message>, state: S,
                                                  parse: string -> Outcome<A>, stringify: R -> string)
    ensures var first := Process(tools, o1, history, state, parse, stringify);
            Process(tools, o1 + o2, history, state, parse, stringify)
            == if first.error.Some? then first
               else Then(first, Process(tools, o2, first.history, first.state, parse, stringify))
    decreases |o1|
  {
    if |o1| == 0 {
      assert o1 + o2 == o2;
    } else {
      var o := o1 + o2;
      assert o[0] == o1[0];
      assert o[1..] == o1[1..] + o2;
      match o1[0]
      case OtherOutput =>
        ProcessConcat(tools, o1[1..], o2, history, state, parse, stringify);
      case FunctionCall(name, arguments) =>
        match FindTool(tools, name)
        case None =>
          ProcessConcat(tools, o1[1..], o2, history, state, parse, stringify);
        case Some(i) =>
          match parse(arguments)
          case Threw(e) =>
          case Returned(args) =>
            match tools[i].execute(state, args)
            case Threw(e) =>
            case Returned((state', result)) =>
              var history' := history + [ToolMessage(name, arguments, stringify(result))];
              ProcessConcat(tools, o1[1..], o2, history', state', parse, stringify);
    }
  }

  /** A single output is processed as `StepOne` says. */
  lemma ProcessSingle<S, A, R>(tools: seq<ToolSchema.Tool<S, A, R>>, output: Output,
                               history: seq<Message>, state: S,
                               parse: string -> Outcome<A>, stringify: R -> string)
    ensures Process(tools, [output], history, state, parse, stringify)
         == StepOne(tools, output, history, state, parse, stringify)
  {
    assert [output][1..] == [];
  }

  /** The `for` loop over `response.output` is the outputs replayed one at a
      time in order: the reports are appended in response order, each tool
      seeing the state the previous one left, and the first failure ends it. */
  lemma {:induction false} ProcessIsReplay<S, A, R>(tools: seq<ToolSchema.Tool<S, A, R>>, outputs: seq<Output>,
                                                    history: seq<Message>, state: S,
                                                    parse: string -> Outcome<A>, stringify: R -> string)
    ensures Process(tools, outputs, history, state, parse, stringify)
         == Replay(tools, outputs, history, state, parse, stringify)
    decreases |outputs|
  {
    if |outputs| > 0 {
      var init := outputs[..|outputs| - 1];
      var last := outputs[|outputs| - 1];
      assert init + [last] == outputs;
      ProcessIsReplay(tools, init, history, state, parse, stringify);
      ProcessConcat(tools, init, [last], history, state, parse, stringify);
      var first := Process(tools, init, history, state, parse, stringify);
      ProcessSingle(tools, last, first.history, first.state, parse, stringify);
    }
  }

  /** The turn ended on a model response with no function call: the text of
      that response, asked with the history before the last entry at the
      last call, is what was returned. */
  predicate AnsweredByModel<S, A, R>(a: Agent<S, A, R>, ask: Ask, r: Turn<S>) {
    && r.reply.Returned? && r.calls >= 1 && |r.history| >= 1
    && var asked := ask(a.model, Schemas(a.tools), r.history[..|r.history| - 1], r.calls - 1);
       && asked.Returned?
       && !HasFunctionCall(asked.value.output)
       && asked.value.outputText == r.reply.value
  }

  /** The `while (iterations < MAX_ITERATIONS)` loop, entered at `iteration`. */
  function Loop<S, A, R>(a: Agent<S, A, R>, ask: Ask, parse: string -> Outcome<A>, stringify: R -> string,
                         history: seq<Message>, state: S, iteration: nat): (r: Turn<S>)
    requires iteration <= MaxIterations
    ensures iteration <= r.calls <= MaxIterations
    ensures |r.history| >= |history| && r.history[..|history|] == history
    ensures r.reply.Returned? ==> EndsWithAnswer(r.history, r.reply.value)
    ensures r.reply.Returned? ==>
              AnsweredByModel(a, ask, r) || (r.reply.value == ErrorMessage && r.calls == MaxIterations)
    decreases MaxIterations - iteration
  {
    if iteration == MaxIterations then
      Turn(history + [Message(Assistant, ErrorMessage)], state, Returned(ErrorMessage), iteration)
    else
      match ask(a.model, Schemas(a.tools), history, iteration)
      case Threw(e) => Turn(history, state, Threw(e), iteration + 1)
      case Returned(response) =>
        var step := Process(a.tools, response.output, history, state, parse, stringify);
        if step.error.Some? then Turn(step.history, step.state, Threw(step.error.value), iteration + 1)
        else if !step.sawCall then
          var r := Turn(step.history + [Message(Assistant, response.outputText)], step.state,
                        Returned(response.outputText), iteration + 1);
          assert r.history[..|r.history| - 1] == history;
          r
        else
          var r := Loop(a, ask, parse, stringify, step.history, step.state, iteration + 1);
          assert r.history[..|history|] == step.history[..|history|];
          r
  }

  /** `getResponse(message)`: the user message is appended first, then the loop runs. */
  function GetResponse<S, A, R>(a: Agent<S, A, R>, state: S, message: string, ask: Ask,
                                parse: string -> Outcome<A>, stringify: R -> string): (r: Turn<S>)
    ensures 1 <= r.calls <= MaxIterations
    ensures |r.history| > |a.history| && r.history[..|a.history| + 1] == a.history + [Message(User, message)]
    ensures r.reply.Returned? ==> EndsWithAnswer(r.history, r.reply.value)
    ensures r.reply.Returned? ==>
              AnsweredByModel(a, ask, r) || (r.reply.value == ErrorMessage && r.calls == MaxIterations)
  {
    Loop(a, ask, parse, stringify, a.history + [Message(User, message)], state, 0)
  }

  /** A first response with no function call is the answer: it is appended
      after the user message and returned, after one model call. */
  lemma ImmediateAnswer<S, A, R>(a: Agent<S, A, R>, state: S, message: string, ask: Ask,
                                 parse: string -> Outcome<A>, stringify: R -> string)
    requires var history := a.history + [Message(User, message)];
             && ask(a.model, Schemas(a.tools), history, 0).Returned?
             && !HasFunctionCall(ask(a.model, Schemas(a.tools), history, 0).value.output)
    ensures var text := ask(a.model, Schemas(a.tools), a.history + [Message(User, message)], 0).value.outputText;
            GetResponse(a, state, message, ask, parse, stringify)
            == Turn(a.history + [Message(User, message), Message(Assistant, text)], state, Returned(text), 1)
  {
    var history := a.history + [Message(User, message)];
    var response := ask(a.model, Schemas(a.tools), history, 0).value;
    assert Process(a.tools, response.output, history, state, parse, stringify) == Step(history, state, false, None);
    assert history + [Message(Assistant, response.outputText)]
        == a.history + [Message(User, message), Message(Assistant, response.outputText)];
  }

  /** At any round, a response with no function call ends the turn: its text
      is appended as the assistant's entry and returned. */
  lemma AnswerEndsTurn<S, A, R>(a: Agent<S, A, R>, ask: Ask, parse: string -> Outcome<A>, stringify: R -> string,
                                history: seq<Message>, state: S, iteration: nat)
    requires iteration < MaxIterations
    requires ask(a.model, Schemas(a.tools), history, iteration).Returned?
    requires !HasFunctionCall(ask(a.model, Schemas(a.tools), history, iteration).value.output)
    ensures var text := ask(a.model, Schemas(a.tools), history, iteration).value.outputText;
            Loop(a, ask, parse, stringify, history, state, iteration)
            == Turn(history + [Message(Assistant, text)], state, Returned(text), iteration + 1)
  {
  }

  /** The model keeps calling tools and nothing fails. */
  ghost predicate AlwaysCallsTools<S, A, R>(a: Agent<S, A, R>, ask: Ask, parse: string -> Outcome<A>) {
    && (forall h, i :: ask(a.model, Schemas(a.tools), h, i).Returned?
                       && HasFunctionCall(ask(a.model, Schemas(a.tools), h, i).value.output))
    && (forall t :: parse(t).Returned?)
  }

  ghost predicate ToolsNeverThrow<S(!new), A(!new), R>(a: Agent<S, A, R>) {
    forall j, s, x :: 0 <= j < |a.tools| ==> a.tools[j].execute(s, x).Returned?
  }

  /** Under those conditions one response's tool calls never fail. */
  lemma {:induction false} ProcessSucceeds<S(!new), A(!new), R>(a: Agent<S, A, R>, outputs: seq<Output>,
                                                               history: seq<Message>, state: S,
                                                               parse: string -> Outcome<A>, stringify: R -> string)
    requires (forall t :: parse(t).Returned?) && ToolsNeverThrow(a)
    ensures Process(a.tools, outputs, history, state, parse, stringify).error.None?
    decreases |outputs|
  {
    if |outputs| > 0 {
      var tail := outputs[1..];
      match outputs[0]
      case OtherOutput =>
        ProcessSucceeds(a, tail, history, state, parse, stringify);
      case FunctionCall(name, arguments) =>
        match FindTool(a.tools, name)
        case None =>
          ProcessSucceeds(a, tail, history, state, parse, stringify);
        case Some(i) =>
          var args := parse(arguments).value;
          var (state', result) := a.tools[i].execute(state, args).value;
          ProcessSucceeds(a, tail, history + [ToolMessage(name, arguments, stringify(result))], state', parse, stringify);
    }
  }

  /** A response with function calls whose tools all succeed leads to the next round. */
  lemma ToolRound<S, A, R>(a: Agent<S, A, R>, ask: Ask, parse: string -> Outcome<A>, stringify: R -> string,
                           history: seq<Message>, state: S, iteration: nat)
    requires iteration < MaxIterations
    requires ask(a.model, Schemas(a.tools), history, iteration).Returned?
    requires var response := ask(a.model, Schemas(a.tools), history, iteration).value;
             && HasFunctionCall(response.output)
             && Process(a.tools, response.output, history, state, parse, stringify).error.None?
    ensures var response := ask(a.model, Schemas(a.tools), history, iteration).value;
            var step := Process(a.tools, response.output, history, state, parse, stringify);
            Loop(a, ask, parse, stringify, history, state, iteration)
            == Loop(a, ask, parse, stringify, step.history, step.state, iteration + 1)
  {
  }

  /** After ten tool-call rounds in a row the turn ends with the fixed error
      message, appended to the history, after exactly ten model calls. */
  lemma {:induction false} LoopExhausts<S(!new), A(!new), R>(a: Agent<S, A, R>, ask: Ask,
                                                            parse: string -> Outcome<A>, stringify: R -> string,
                                                            history: seq<Message>, state: S, iteration: nat)
    requires iteration <= MaxIterations
    requires AlwaysCallsTools(a, ask, parse) && ToolsNeverThrow(a)
    ensures var r := Loop(a, ask, parse, stringify, history, state, iteration);
            && r.reply == Returned(ErrorMessage)
            && r.calls == MaxIterations
            && EndsWithAnswer(r.history, ErrorMessage)
    decreases MaxIterations - iteration
  {
    if iteration < MaxIterations {
      var out := ask(a.model, Schemas(a.tools), history, iteration);
      assert out.Returned? && HasFunctionCall(out.value.output);
      ProcessSucceeds(a, out.value.output, history, state, parse, stringify);
      ToolRound(a, ask, parse, stringify, history, state, iteration);
      var step := Process(a.tools, out.value.output, history, state, parse, stringify);
      LoopExhausts(a, ask, parse, stringify, step.history, step.state, iteration + 1);
    }
  }

  lemma MaxIterationsReached<S(!new), A(!new), R>(a: Agent<S, A, R>, state: S, message: string, ask: Ask,
                                                  parse: string -> Outcome<A>, stringify: R -> string)
    requires AlwaysCallsTools(a, ask, parse) && ToolsNeverThrow(a)
    ensures var r := GetResponse(a, state, message, ask, parse, stringify);
            && r.reply == Returned(ErrorMessage)
            && r.calls == MaxIterations
            && EndsWithAnswer(r.history, ErrorMessage)
  {
    LoopExhausts(a, ask, parse, stringify, a.history + [Message(User, message)], state, 0);
  }

  /** A single call to a registered tool appends exactly its report. */
  lemma OneToolCall<S, A, R>(tools: seq<ToolSchema.Tool<S, A, R>>, name: string, arguments: string,
                             history: seq<Message>, state: S,
                             parse: string -> Outcome<A>, stringify: R -> string)
    requires FindTool(tools, name).Some? && parse(arguments).Returned?
    requires tools[FindTool(tools, name).value].execute(state, parse(arguments).value).Returned?
    ensures var t := tools[FindTool(tools, name).value];
            var (state', result) := t.execute(state, parse(arguments).value).value;
            Process(tools, [FunctionCall(name, arguments)], history, state, parse, stringify)
            == Step(history + [ToolMessage(name, arguments, stringify(result))], state', true, None)
  {
    var outputs := [FunctionCall(name, arguments)];
    assert outputs[1..] == [];
  }

  /** Calls naming no registered tool append nothing, yet count as a tool round. */
  lemma UnknownToolsAppendNothing<S, A, R>(tools: seq<ToolSchema.Tool<S, A, R>>, outputs: seq<Output>,
                                           history: seq<Message>, state: S,
                                           parse: string -> Outcome<A>, stringify: R -> string)
    requires HasFunctionCall(outputs)
    requires forall i :: 0 <= i < |outputs| && outputs[i].FunctionCall? ==> FindTool(tools, outputs[i].name).None?
    ensures var r := Process(tools, outputs, history, state, parse, stringify);
            r.history == history && r.sawCall && r.error.None?
  {
    UnknownSteps(tools, outputs, history, state, parse, stringify);
  }

  lemma {:induction false} UnknownSteps<S, A, R>(tools: seq<ToolSchema.Tool<S, A, R>>, outputs: seq<Output>,
                                                 history: seq<Message>, state: S,
                                                 parse: string -> Outcome<A>, stringify: R -> string)
    requires forall i :: 0 <= i < |outputs| && outputs[i].FunctionCall? ==> FindTool(tools, outputs[i].name).None?
    ensures var r := Process(tools, outputs, history, state, parse, stringify);
            r.history == history && r.state == state && r.error.None?
    decreases |outputs|
  {
    if |outputs| > 0 {
      assert forall i :: 1 <= i < |outputs| ==> outputs[i] == outputs[1..][i - 1];
      UnknownSteps(tools, outputs[1..], history, state, parse, stringify);
    }
  }
}
