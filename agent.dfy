/**
 * The turn loop of the service worker (`handleSideInput` in sw.js): the user's
 * message is appended to the conversation, then the completion service is
 * asked, at most ten times, for the assistant's next message. The tool calls
 * of a message run one after another; a message with text ends the loop,
 * preferably by streaming the answer again; a message with neither ends it
 * with a fixed answer.
 *
 * The completion service, the streaming service, the tool executor and the
 * session storage are oracles: the reply to the i-th request, the stream
 * body, the outcome of the k-th tool call of the i-th reply, and whether
 * reading or saving the conversation throws. The side panel sees the
 * sequence of events the request sends; the conversation is saved only when
 * nothing threw.
 */
module Agent {
  import opened Wrappers
  import opened Text
  import opened Tools
  import EventStream

  /** A tab id as the worker holds it: absent, or a number; 0 counts as absent where a truthy id is needed. */
  type TabId = Option<int>

  predicate Truthy(tab: TabId) {
    tab.Some? && tab.value != 0
  }

  /** The assistant's message: its text, if any, and its tool calls, if the field is present at all. */
  datatype Reply = Reply(content: Option<string>, toolCalls: Option<seq<Call>>)

  /** `if (assistantMessage.content)`: present and not empty. */
  predicate HasText(reply: Reply) {
    reply.content.Some? && reply.content.value != []
  }

  /** A message of the conversation. The system prompt's wording is not part of this model. */
  datatype Message =
    | SystemPrompt
    | User(text: string)
    | Assistant(reply: Reply)
    | ToolOutput(callId: string, name: string, result: ToolResult)

  /** One step shown in the side panel's step list. */
  datatype Step = Step(title: string, humanReadable: string, result: ToolResult, isImage: bool)

  /** What the worker sends to the side panel. */
  datatype Event =
    | Status(status: string, text: string, statusTab: int)
    | StepDetail(text: string, step: Step, tab: TabId)
    | StreamNotice(notice: EventStream.Notice, tab: TabId)
    | StreamEnd(steps: seq<Step>, tab: TabId)
    | FinalResponse(answer: string, steps: seq<Step>, tab: TabId)
    | AssistantError(text: string, tab: TabId)

  /** The events that end a request in the side panel. */
  predicate IsTerminal(e: Event) {
    e.StreamEnd? || e.FinalResponse? || e.AssistantError?
  }

  /** What the completion service answers: a thrown error (as `String(e)` reads), a reply without choices, or the first choice's message. */
  datatype Completion = Throws(error: string) | NoChoice | Choice(reply: Reply)

  /**
   * What the streaming request does: it throws before reading, or its body
   * arrives in these decoded chunks and then ends or, when `breaks`, reading
   * the next one throws.
   */
  datatype StreamReply = StreamFails | StreamBody(chunks: seq<string>, breaks: bool)

  /**
   * `historyFails`: reading the saved conversation throws; `saveFails`: the
   * error (as `String(e)` reads) that saving it throws, if it does.
   */
  datatype Oracles = Oracles(
    complete: nat -> Completion,
    run: (nat, nat) -> Outcome,
    stream: StreamReply,
    parse: string -> EventStream.Record,
    historyFails: bool,
    saveFails: Option<string>)

  const MaxTurns: nat := 10
  const NoChoicesError: string := "Error: No choices from OpenRouter"
  const Fallback: string := "Completed the requested actions."

  /** `status(tabId, text, st)`: nothing is sent for a falsy tab id. */
  function StatusEvents(tab: TabId, text: string, st: string): (events: seq<Event>)
    ensures |events| <= 1
    ensures events != [] <==> Truthy(tab)
  {
    if Truthy(tab) then [Status(st, text, tab.value)] else []
  }

  /** The conversation a request starts from: the saved one, or the system prompt alone. */
  function Seeded(history: seq<Message>): (messages: seq<Message>)
    ensures history != [] ==> messages == history
    ensures history == [] ==> messages == [SystemPrompt]
  {
    if history == [] then [SystemPrompt] else history
  }

  // ---------------------------------------------------------------------------
  // The tool calls of one reply

  /** Whether a tool's result moves the worker to another tab: an `ok` result of `open_tab` or `switch_tab` with a truthy id. */
  predicate Adopts(name: string, r: ToolResult) {
    (name == "open_tab" || name == "switch_tab") && r.Ok? && r.payload.TabRef? && r.payload.id != 0
  }

  function Adopt(tab: TabId, name: string, r: ToolResult): (next: TabId)
    ensures !Adopts(name, r) ==> next == tab
    ensures Adopts(name, r) ==> next == Some(r.payload.id) && Truthy(next)
  {
    if Adopts(name, r) then Some(r.payload.id) else tab
  }

  /** The state of the loop over one reply's tool calls. */
  datatype Calls = Calls(events: seq<Event>, steps: seq<Step>, outputs: seq<Message>, tab: TabId, thrown: Option<string>)

  function StepOf(call: Call, r: ToolResult): Step {
    Step("Action: " + call.name, Feedback(call.name, r), r, call.name == "screenshot" && r.Ok?)
  }

  /** One tool call: announce it, run it, then record its step and its output, or stop at what it threw. */
  function CallStep(c: Calls, call: Call, outcome: Outcome): Calls
  {
    var events := c.events + StatusEvents(c.tab, "Executing: " + call.name, "working");
    match outcome
    case Threw(e) => c.(events := events, thrown := Some(e))
    case Returned(r) =>
      var tab := Adopt(c.tab, call.name, r);
      var step := StepOf(call, r);
      Calls(events + [StepDetail("Executed " + call.name, step, tab)], c.steps + [step],
            c.outputs + [ToolOutput(call.id, call.name, r)], tab, None)
  }

  /** The calls from the k-th on of the i-th reply, in order, until one throws. */
  function RunCalls(c: Calls, calls: seq<Call>, run: (nat, nat) -> Outcome, turn: nat, k: nat): Calls
    requires k <= |calls|
    decreases |calls| - k
  {
    if k == |calls| || c.thrown.Some? then c
    else RunCalls(CallStep(c, calls[k], run(turn, k)), calls, run, turn, k + 1)
  }

  // ---------------------------------------------------------------------------
  // The turn loop

  /** Going: the loop goes on; Answered: an answer was sent; Stopped: a reply had neither text nor tool calls; Crashed: something threw. */
  datatype Phase = Going | Answered | Stopped | Crashed(error: string)

  datatype State = State(phase: Phase, messages: seq<Message>, steps: seq<Step>, events: seq<Event>, tab: TabId, calls: nat)

  function Tagged(notices: seq<EventStream.Notice>, tab: TabId): (events: seq<Event>)
    ensures |events| == |notices|
    ensures forall k :: 0 <= k < |notices| ==> events[k] == StreamNotice(notices[k], tab)
  {
    seq(|notices|, k requires 0 <= k < |notices| => StreamNotice(notices[k], tab))
  }

  /**
   * The end of a reply with text: the answer is asked for again as a stream;
   * a complete stream ends with STREAM_END, anything else (a request that
   * fails, an abort for tool calls, a body that breaks off) with the reply's
   * own text, after whatever the reader had already announced.
   */
  function Answer(st: State, text: string, o: Oracles): (next: State)
    ensures next.phase == Answered
    ensures next.messages == st.messages && next.steps == st.steps && next.tab == st.tab && next.calls == st.calls
    ensures |next.events| > |st.events| && next.events[..|st.events|] == st.events
    ensures Last(next.events).StreamEnd? <==> o.stream.StreamBody? && !o.stream.breaks && EventStream.ResultOf(EventStream.ScanStream(Concat(o.stream.chunks), o.parse)).Streamed?
    ensures !Last(next.events).StreamEnd? ==> Last(next.events) == FinalResponse(text, st.steps, st.tab)
    ensures o.stream.StreamFails? ==> next.events == st.events + [FinalResponse(text, st.steps, st.tab)]
    ensures !o.stream.StreamFails? ==> |next.events| >= |st.events| + 2 && next.events[|st.events|] == StreamNotice(EventStream.StreamStart, st.tab)
  {
    if o.stream.StreamFails? then
      st.(phase := Answered, events := st.events + [FinalResponse(text, st.steps, st.tab)])
    else
      var scan := EventStream.ScanStream(Concat(o.stream.chunks), o.parse);
      var notices := Tagged(EventStream.NoticesOf(scan), st.tab);
      if !o.stream.breaks && EventStream.ResultOf(scan).Streamed? then
        st.(phase := Answered, events := st.events + notices + [StreamEnd(st.steps, st.tab)])
      else
        st.(phase := Answered, events := st.events + notices + [FinalResponse(text, st.steps, st.tab)])
  }

  /** What follows a reply once its tool calls have run. */
  function AfterCalls(st: State, reply: Reply, o: Oracles): State {
    if HasText(reply) then Answer(st, reply.content.value, o)
    else if reply.toolCalls.None? then st.(phase := Stopped)
    else st
  }

  /** The i-th turn. */
  function Turn(st: State, o: Oracles, i: nat): State {
    var calls := st.calls + 1;
    match o.complete(i)
    case Throws(e) => st.(phase := Crashed(e), calls := calls)
    case NoChoice => st.(phase := Crashed(NoChoicesError), calls := calls)
    case Choice(reply) =>
      var messages := st.messages + [Assistant(reply)];
      if reply.toolCalls.None? then AfterCalls(st.(messages := messages, calls := calls), reply, o)
      else
        var c := RunCalls(Calls(st.events, st.steps, [], st.tab, None), reply.toolCalls.value, o.run, i, 0);
        if c.thrown.Some? then State(Crashed(c.thrown.value), messages, c.steps, c.events, c.tab, calls)
        else AfterCalls(State(st.phase, messages + c.outputs, c.steps, c.events, c.tab, calls), reply, o)
  }

  /** The turns from the i-th on, until ten have run or one ended the loop. */
  function Loop(st: State, o: Oracles, i: nat): State
    decreases MaxTurns - i
  {
    if i >= MaxTurns || !st.phase.Going? then st else Loop(Turn(st, o, i), o, i + 1)
  }

  /** What a request leaves behind: the events sent, the conversation saved (if any), the tab it ended on and the number of completion requests. */
  datatype Handled = Handled(events: seq<Event>, saved: Option<seq<Message>>, tab: TabId, modelCalls: nat)

  function Start(tab: TabId, content: string, history: seq<Message>): State {
    State(Going, Seeded(history) + [User(content)], [], StatusEvents(tab, "Thinking...", "working"), tab, 0)
  }

  /**
   * The final state: the fallback answer when none was sent, then the save,
   * whose failure is reported like any other error; the error when something
   * threw; then the idle status.
   */
  function Finish(st: State, save: Option<string>): Handled {
    var idle := StatusEvents(st.tab, "", "idle");
    var answered := if st.phase.Answered? then st.events else st.events + [FinalResponse(Fallback, st.steps, st.tab)];
    if st.phase.Crashed? then Handled(st.events + [AssistantError("Error: " + st.phase.error, st.tab)] + idle, None, st.tab, st.calls)
    else if save.Some? then Handled(answered + [AssistantError("Error: " + save.value, st.tab)] + idle, None, st.tab, st.calls)
      else Handled(answered + idle, Some(st.messages), st.tab, st.calls)
  }

  /** `handleSideInput`; reading the saved conversation happens before the `try`, so its failure sends nothing more. */
  function HandleOf(tab: TabId, content: string, history: seq<Message>, o: Oracles): Handled {
    if o.historyFails then Handled(StatusEvents(tab, "Thinking...", "working"), None, tab, 0)
    else Finish(Loop(Start(tab, content, history), o, 0), o.saveFails)
  }

  // ---------------------------------------------------------------------------
  // Properties of the loop

  /** Every turn asks the completion service once. */
  lemma TurnCalls(st: State, o: Oracles, i: nat)
    ensures Turn(st, o, i).calls == st.calls + 1
  {
  }

  lemma {:induction false} LoopCalls(st: State, o: Oracles, i: nat)
    requires i <= MaxTurns
    ensures st.calls <= Loop(st, o, i).calls <= st.calls + (MaxTurns - i)
    decreases MaxTurns - i
  {
    if i < MaxTurns && st.phase.Going? {
      TurnCalls(st, o, i);
      LoopCalls(Turn(st, o, i), o, i + 1);
    }
  }

  /** A request whose conversation could be read asks the completion service at least once and at most ten times; otherwise never. */
  lemma ModelCallsBounded(tab: TabId, content: string, history: seq<Message>, o: Oracles)
    ensures !o.historyFails ==> 1 <= HandleOf(tab, content, history, o).modelCalls <= MaxTurns
    ensures o.historyFails ==> HandleOf(tab, content, history, o).modelCalls == 0
  {
    var st := Start(tab, content, history);
    TurnCalls(st, o, 0);
    LoopCalls(Turn(st, o, 0), o, 1);
  }

  predicate Quiet(events: seq<Event>) {
    forall k :: 0 <= k < |events| ==> !IsTerminal(events[k])
  }

  /** Before the end of a request no terminal event was sent, except the answer as the last event so far. */
  predicate Settled(st: State) {
    if st.phase.Answered? then
      |st.events| > 0 && IsTerminal(Last(st.events)) && !Last(st.events).AssistantError? && Quiet(Init(st.events))
    else Quiet(st.events)
  }

  lemma {:induction false} RunCallsQuiet(c: Calls, calls: seq<Call>, run: (nat, nat) -> Outcome, turn: nat, k: nat)
    requires k <= |calls| && Quiet(c.events)
    ensures Quiet(RunCalls(c, calls, run, turn, k).events)
    decreases |calls| - k
  {
    if k < |calls| && c.thrown.None? {
      RunCallsQuiet(CallStep(c, calls[k], run(turn, k)), calls, run, turn, k + 1);
    }
  }

  lemma AnswerSettled(st: State, text: string, o: Oracles)
    requires Quiet(st.events)
    ensures Settled(Answer(st, text, o))
  {
    var next := Answer(st, text, o);
    assert Init(next.events) == st.events || (!o.stream.StreamFails? && Init(next.events) == st.events + Tagged(EventStream.NoticesOf(EventStream.ScanStream(Concat(o.stream.chunks), o.parse)), st.tab));
  }

  lemma TurnSettled(st: State, o: Oracles, i: nat)
    requires st.phase.Going? && Quiet(st.events)
    ensures Settled(Turn(st, o, i))
  {
    if o.complete(i).Choice? {
      var reply := o.complete(i).reply;
      var messages := st.messages + [Assistant(reply)];
      if reply.toolCalls.None? {
        if HasText(reply) {
          AnswerSettled(st.(messages := messages, calls := st.calls + 1), reply.content.value, o);
        }
      } else {
        var c := RunCalls(Calls(st.events, st.steps, [], st.tab, None), reply.toolCalls.value, o.run, i, 0);
        RunCallsQuiet(Calls(st.events, st.steps, [], st.tab, None), reply.toolCalls.value, o.run, i, 0);
        if c.thrown.None? && HasText(reply) {
          AnswerSettled(State(st.phase, messages + c.outputs, c.steps, c.events, c.tab, st.calls + 1), reply.content.value, o);
        }
      }
    }
  }

  lemma {:induction false} LoopSettled(st: State, o: Oracles, i: nat)
    requires Settled(st)
    ensures Settled(Loop(st, o, i))
    decreases MaxTurns - i
  {
    if i < MaxTurns && st.phase.Going? {
      TurnSettled(st, o, i);
      LoopSettled(Turn(st, o, i), o, i + 1);
    }
  }

  /**
   * Exactly one terminal event (the streamed end, a final answer or an
   * error), followed only by status events; it is the error exactly when the
   * conversation is not saved.
   */
  predicate OneTerminal(h: Handled) {
    exists j :: 0 <= j < |h.events| && IsTerminal(h.events[j])
      && (forall k :: 0 <= k < |h.events| && k != j ==> !IsTerminal(h.events[k]))
      && (forall k :: j < k < |h.events| ==> h.events[k].Status?)
      && (h.events[j].AssistantError? <==> h.saved.None?)
  }

  /**
   * Two terminal events: the answer (streamed or final) and, right after it,
   * the error that saving the conversation threw; then only status events,
   * and nothing is saved.
   */
  predicate AnswerThenError(h: Handled, error: string) {
    exists j :: 0 <= j && j + 1 < |h.events| && (h.events[j].StreamEnd? || h.events[j].FinalResponse?)
      && h.events[j + 1] == AssistantError(error, h.tab)
      && TerminalOnlyIn(h.events, j, 2)
      && h.saved.None?
  }

  /** No event outside the n from the j-th on is terminal, and only status events follow them. */
  predicate TerminalOnlyIn(events: seq<Event>, j: nat, n: nat) {
    (forall k :: 0 <= k < |events| && !(j <= k < j + n) ==> !IsTerminal(events[k]))
    && (forall k :: j + n <= k < |events| ==> events[k].Status?)
  }

  /** Quiet events, then `ts`, then status events: only the events of `ts` are terminal, and only statuses follow them. */
  lemma EndShape(pre: seq<Event>, ts: seq<Event>, post: seq<Event>)
    requires Quiet(pre)
    requires forall k :: 0 <= k < |post| ==> post[k].Status?
    ensures TerminalOnlyIn(pre + ts + post, |pre|, |ts|)
    ensures forall k :: 0 <= k < |ts| ==> (pre + ts + post)[|pre| + k] == ts[k]
  {
    var es := pre + ts + post;
    forall k | 0 <= k < |es| && !(|pre| <= k < |pre| + |ts|)
      ensures !IsTerminal(es[k]) && (k >= |pre| + |ts| ==> es[k].Status?)
    {
      if k < |pre| {
        assert es[k] == pre[k];
      } else {
        assert es[k] == post[k - |pre| - |ts|];
      }
    }
  }

  /**
   * The end of a request: exactly one terminal event, unless the save of a
   * request that sent its answer fails, when the answer is followed by the
   * error.
   */
  lemma FinishOneTerminal(st: State, save: Option<string>)
    requires Settled(st)
    ensures save.None? || st.phase.Crashed? ==> OneTerminal(Finish(st, save))
    ensures save.Some? && !st.phase.Crashed? ==> AnswerThenError(Finish(st, save), "Error: " + save.value)
  {
    var h := Finish(st, save);
    var idle := StatusEvents(st.tab, "", "idle");
    var pre: seq<Event>, t: Event;
    if st.phase.Answered? {
      pre, t := Init(st.events), Last(st.events);
      assert st.events == pre + [t];
    } else if st.phase.Crashed? {
      pre, t := st.events, AssistantError("Error: " + st.phase.error, st.tab);
    } else {
      pre, t := st.events, FinalResponse(Fallback, st.steps, st.tab);
    }
    if save.Some? && !st.phase.Crashed? {
      var e := AssistantError("Error: " + save.value, st.tab);
      assert h.events == pre + [t, e] + idle;
      ShapeTwo(h, pre, t, "Error: " + save.value, idle);
    } else {
      assert h.events == pre + [t] + idle;
      ShapeOne(h, pre, t, idle);
    }
  }

  /** Quiet events, one terminal event, then statuses: exactly one terminal event. */
  lemma ShapeOne(h: Handled, pre: seq<Event>, t: Event, post: seq<Event>)
    requires Quiet(pre) && IsTerminal(t) && (forall k :: 0 <= k < |post| ==> post[k].Status?)
    requires h.events == pre + [t] + post && (t.AssistantError? <==> h.saved.None?)
    ensures OneTerminal(h)
  {
    EndShape(pre, [t], post);
    assert h.events[|pre|] == t;
  }

  /** Quiet events, the answer, the error, then statuses: the answer followed by the error. */
  lemma ShapeTwo(h: Handled, pre: seq<Event>, t: Event, error: string, post: seq<Event>)
    requires Quiet(pre) && (t.StreamEnd? || t.FinalResponse?) && (forall k :: 0 <= k < |post| ==> post[k].Status?)
    requires h.events == pre + [t, AssistantError(error, h.tab)] + post && h.saved.None?
    ensures AnswerThenError(h, error)
  {
    EndShape(pre, [t, AssistantError(error, h.tab)], post);
    assert h.events[|pre|] == t && h.events[|pre| + 1] == AssistantError(error, h.tab);
  }

  /**
   * A request whose conversation could be read ends with exactly one terminal
   * event, the error exactly when nothing is saved; when saving fails after
   * the answer was sent, the error follows the answer. A request whose
   * conversation could not be read sends no terminal event at all.
   */
  lemma OneTerminalEvent(tab: TabId, content: string, history: seq<Message>, o: Oracles)
    ensures var h := HandleOf(tab, content, history, o);
      && (o.historyFails ==> Quiet(h.events) && h.saved.None?)
      && (!o.historyFails && o.saveFails.None? ==> OneTerminal(h))
      && (!o.historyFails && o.saveFails.Some? ==> h.saved.None? && (OneTerminal(h) || AnswerThenError(h, "Error: " + o.saveFails.value)))
  {
    if !o.historyFails {
      LoopSettled(Start(tab, content, history), o, 0);
      FinishOneTerminal(Loop(Start(tab, content, history), o, 0), o.saveFails);
    }
  }

  /** The conversation only grows. */
  lemma TurnExtends(st: State, o: Oracles, i: nat)
    ensures st.messages <= Turn(st, o, i).messages
  {
    if o.complete(i).Choice? {
      var reply := o.complete(i).reply;
      var messages := st.messages + [Assistant(reply)];
      assert st.messages <= messages;
      if reply.toolCalls.Some? {
        var c := RunCalls(Calls(st.events, st.steps, [], st.tab, None), reply.toolCalls.value, o.run, i, 0);
        assert messages <= messages + c.outputs;
      }
    }
  }

  lemma {:induction false} LoopExtends(st: State, o: Oracles, i: nat)
    ensures st.messages <= Loop(st, o, i).messages
    decreases MaxTurns - i
  {
    if i < MaxTurns && st.phase.Going? {
      TurnExtends(st, o, i);
      LoopExtends(Turn(st, o, i), o, i + 1);
    }
  }

  /** A saved conversation is the one the request started from (the system prompt when there was none), the user's message, then what the turns added. */
  lemma SavedHistory(tab: TabId, content: string, history: seq<Message>, o: Oracles)
    ensures var h := HandleOf(tab, content, history, o);
      h.saved.Some? ==> Seeded(history) + [User(content)] <= h.saved.value
  {
    LoopExtends(Start(tab, content, history), o, 0);
  }

  /** A call that returns adds its step and its tool message. */
  lemma CallStepReturned(c: Calls, call: Call, outcome: Outcome)
    requires outcome.Returned?
    ensures var next := CallStep(c, call, outcome);
      && next.thrown.None?
      && next.outputs == c.outputs + [ToolOutput(call.id, call.name, outcome.result)]
      && next.steps == c.steps + [StepOf(call, outcome.result)]
  {
  }

  /** The calls of a reply, none of which throws, give one step and one tool message each, in order and with the call's id. */
  lemma CallsRecorded(c: Calls, calls: seq<Call>, run: (nat, nat) -> Outcome, turn: nat, k: nat)
    requires k <= |calls| && c.thrown.None?
    requires forall j :: k <= j < |calls| ==> run(turn, j).Returned?
    ensures var r := RunCalls(c, calls, run, turn, k);
      r.thrown.None?
      && |r.outputs| == |c.outputs| + (|calls| - k) && r.outputs[..|c.outputs|] == c.outputs
      && |r.steps| == |c.steps| + (|calls| - k) && r.steps[..|c.steps|] == c.steps
      && (forall j :: k <= j < |calls| ==> r.outputs[|c.outputs| + (j - k)] == ToolOutput(calls[j].id, calls[j].name, run(turn, j).result))
      && (forall j :: k <= j < |calls| ==> r.steps[|c.steps| + (j - k)] == StepOf(calls[j], run(turn, j).result))
  {
    CallsOutputs(c, calls, run, turn, k);
    CallsSteps(c, calls, run, turn, k);
    var outputs := OutputsFrom(calls, run, turn, k);
    var steps := StepsFrom(calls, run, turn, k);
    OutputsFromAt(calls, run, turn, k);
    StepsFromAt(calls, run, turn, k);
    AppendAt(c.outputs, outputs);
    AppendAt(c.steps, steps);
  }

  /** The tool messages of calls `k` on, all of which return, in call order. */
  function OutputsFrom(calls: seq<Call>, run: (nat, nat) -> Outcome, turn: nat, k: nat): seq<Message>
    requires k <= |calls| && forall j :: k <= j < |calls| ==> run(turn, j).Returned?
    decreases |calls| - k
  {
    if k == |calls| then []
    else [ToolOutput(calls[k].id, calls[k].name, run(turn, k).result)] + OutputsFrom(calls, run, turn, k + 1)
  }

  /** The steps of calls `k` on, all of which return, in call order. */
  function StepsFrom(calls: seq<Call>, run: (nat, nat) -> Outcome, turn: nat, k: nat): seq<Step> {
    Suffix(StepAt(calls, run, turn), k, |calls|)
  }

  /** The step recorded for call `j` of a turn, when it returned. */
  function StepAt(calls: seq<Call>, run: (nat, nat) -> Outcome, turn: nat): nat -> Step {
    (j: nat) => if j < |calls| && run(turn, j).Returned? then StepOf(calls[j], run(turn, j).result) else Step("", "", Failed(""), false)
  }

  /** `f(k)`, ..., `f(n - 1)`. */
  function Suffix<T>(f: nat -> T, k: nat, n: nat): seq<T>
    decreases n - k
  {
    if k >= n then [] else [f(k)] + Suffix(f, k + 1, n)
  }

  lemma {:induction false} SuffixAt<T>(f: nat -> T, k: nat, n: nat)
    requires k <= n
    ensures |Suffix(f, k, n)| == n - k
    ensures forall j :: k <= j < n ==> Suffix(f, k, n)[j - k] == f(j)
    decreases n - k
  {
    if k < n {
      SuffixAt(f, k + 1, n);
      var rest := Suffix(f, k + 1, n);
      assert Suffix(f, k, n) == [f(k)] + rest;
      forall j | k < j < n
        ensures Suffix(f, k, n)[j - k] == f(j)
      {
        assert Suffix(f, k, n)[j - k] == rest[j - (k + 1)];
      }
    }
  }

  /** Call `j`'s tool message is the `(j - k)`-th of those from call `k` on. */
  lemma {:induction false} OutputsFromAt(calls: seq<Call>, run: (nat, nat) -> Outcome, turn: nat, k: nat)
    requires k <= |calls| && forall j :: k <= j < |calls| ==> run(turn, j).Returned?
    ensures |OutputsFrom(calls, run, turn, k)| == |calls| - k
    ensures forall j :: k <= j < |calls| ==> OutputsFrom(calls, run, turn, k)[j - k] == ToolOutput(calls[j].id, calls[j].name, run(turn, j).result)
    decreases |calls| - k
  {
    if k < |calls| {
      OutputsFromAt(calls, run, turn, k + 1);
      var all := OutputsFrom(calls, run, turn, k);
      var rest := OutputsFrom(calls, run, turn, k + 1);
      assert all == [ToolOutput(calls[k].id, calls[k].name, run(turn, k).result)] + rest;
      forall j | k < j < |calls|
        ensures all[j - k] == ToolOutput(calls[j].id, calls[j].name, run(turn, j).result)
      {
        assert all[j - k] == rest[j - (k + 1)];
      }
    }
  }

  /** Call `j`'s step is the `(j - k)`-th of those from call `k` on. */
  lemma StepsFromAt(calls: seq<Call>, run: (nat, nat) -> Outcome, turn: nat, k: nat)
    requires k <= |calls| && forall j :: k <= j < |calls| ==> run(turn, j).Returned?
    ensures |StepsFrom(calls, run, turn, k)| == |calls| - k
    ensures forall j :: k <= j < |calls| ==> StepsFrom(calls, run, turn, k)[j - k] == StepOf(calls[j], run(turn, j).result)
  {
    var f := StepAt(calls, run, turn);
    SuffixAt(f, k, |calls|);
    forall j | k <= j < |calls|
      ensures StepsFrom(calls, run, turn, k)[j - k] == StepOf(calls[j], run(turn, j).result)
    {
      assert Suffix(f, k, |calls|)[j - k] == f(j);
    }
  }

  /** `x + w` starts with `x`, and then holds `w` in order. */
  lemma AppendAt<T>(x: seq<T>, w: seq<T>)
    ensures (x + w)[..|x|] == x
    ensures forall m :: 0 <= m < |w| ==> (x + w)[|x| + m] == w[m]
  {
  }

  /** Calls that all return add their tool messages, in call order, to those before. */
  lemma {:induction false} CallsOutputs(c: Calls, calls: seq<Call>, run: (nat, nat) -> Outcome, turn: nat, k: nat)
    requires k <= |calls| && c.thrown.None?
    requires forall j :: k <= j < |calls| ==> run(turn, j).Returned?
    ensures RunCalls(c, calls, run, turn, k).thrown.None?
    ensures RunCalls(c, calls, run, turn, k).outputs == c.outputs + OutputsFrom(calls, run, turn, k)
    decreases |calls| - k
  {
    if k < |calls| {
      var next := CallStep(c, calls[k], run(turn, k));
      CallStepReturned(c, calls[k], run(turn, k));
      CallsOutputs(next, calls, run, turn, k + 1);
      RunCallsStep(c, calls, run, turn, k);
      var rest := OutputsFrom(calls, run, turn, k + 1);
      assert next.outputs + rest == c.outputs + ([ToolOutput(calls[k].id, calls[k].name, run(turn, k).result)] + rest);
    } else {
      assert c.outputs + [] == c.outputs;
    }
  }

  /** Running the calls from `k` runs call `k`, then the ones after it. */
  lemma RunCallsStep(c: Calls, calls: seq<Call>, run: (nat, nat) -> Outcome, turn: nat, k: nat)
    requires k < |calls| && c.thrown.None?
    ensures RunCalls(c, calls, run, turn, k) == RunCalls(CallStep(c, calls[k], run(turn, k)), calls, run, turn, k + 1)
  {
  }

  /** Calls that all return add their steps, in call order, to those before. */
  lemma {:induction false} CallsSteps(c: Calls, calls: seq<Call>, run: (nat, nat) -> Outcome, turn: nat, k: nat)
    requires k <= |calls| && c.thrown.None?
    requires forall j :: k <= j < |calls| ==> run(turn, j).Returned?
    ensures RunCalls(c, calls, run, turn, k).steps == c.steps + StepsFrom(calls, run, turn, k)
    decreases |calls| - k
  {
    if k < |calls| {
      var next := CallStep(c, calls[k], run(turn, k));
      CallStepReturned(c, calls[k], run(turn, k));
      CallsSteps(next, calls, run, turn, k + 1);
      RunCallsStep(c, calls, run, turn, k);
      var rest := StepsFrom(calls, run, turn, k + 1);
      assert StepsFrom(calls, run, turn, k) == [StepOf(calls[k], run(turn, k).result)] + rest;
      assert next.steps + rest == c.steps + ([StepOf(calls[k], run(turn, k).result)] + rest);
    } else {
      assert c.steps + [] == c.steps;
    }
  }

  /** A tool turn whose calls all returned keeps the assistant reply, then one output per call, and the calls' steps. */
  lemma ToolTurnShape(st: State, o: Oracles, i: nat)
    requires o.complete(i).Choice? && o.complete(i).reply.toolCalls.Some?
    requires RunCalls(Calls(st.events, st.steps, [], st.tab, None), o.complete(i).reply.toolCalls.value, o.run, i, 0).thrown.None?
    ensures var c := RunCalls(Calls(st.events, st.steps, [], st.tab, None), o.complete(i).reply.toolCalls.value, o.run, i, 0);
      Turn(st, o, i).messages == st.messages + [Assistant(o.complete(i).reply)] + c.outputs
      && Turn(st, o, i).steps == c.steps
  {
  }

  /**
   * A turn whose reply carries tool calls, none of which throws, appends the
   * reply and then one tool message per call, in call order, and one step per
   * call.
   */
  lemma ToolTurnRecorded(st: State, o: Oracles, i: nat)
    requires o.complete(i).Choice? && o.complete(i).reply.toolCalls.Some?
    requires forall j :: 0 <= j < |o.complete(i).reply.toolCalls.value| ==> o.run(i, j).Returned?
    ensures var reply := o.complete(i).reply;
      var calls := reply.toolCalls.value;
      var next := Turn(st, o, i);
      |next.messages| == |st.messages| + 1 + |calls|
      && next.messages[..|st.messages| + 1] == st.messages + [Assistant(reply)]
      && (forall j :: 0 <= j < |calls| ==> next.messages[|st.messages| + 1 + j] == ToolOutput(calls[j].id, calls[j].name, o.run(i, j).result))
      && |next.steps| == |st.steps| + |calls|
      && (forall j :: 0 <= j < |calls| ==> next.steps[|st.steps| + j] == StepOf(calls[j], o.run(i, j).result))
  {
    var reply := o.complete(i).reply;
    var calls := reply.toolCalls.value;
    var c0 := Calls(st.events, st.steps, [], st.tab, None);
    CallsRecorded(c0, calls, o.run, i, 0);
    var c := RunCalls(c0, calls, o.run, i, 0);
    var messages := st.messages + [Assistant(reply)];
    var next := Turn(st, o, i);
    ToolTurnShape(st, o, i);
    forall j | 0 <= j < |calls|
      ensures next.messages[|st.messages| + 1 + j] == ToolOutput(calls[j].id, calls[j].name, o.run(i, j).result)
    {
      assert next.messages[|messages| + j] == c.outputs[j];
    }
  }

  /** The tab the worker acts on changes only to the truthy id of an `ok` result of `open_tab` or `switch_tab`. */
  lemma {:induction false} TabAdoption(c: Calls, calls: seq<Call>, run: (nat, nat) -> Outcome, turn: nat, k: nat)
    requires k <= |calls|
    ensures var r := RunCalls(c, calls, run, turn, k);
      r.tab == c.tab
      || exists j :: k <= j < |calls| && run(turn, j).Returned? && Adopts(calls[j].name, run(turn, j).result)
                     && r.tab == Some(run(turn, j).result.payload.id)
    decreases |calls| - k
  {
    if k < |calls| && c.thrown.None? {
      var next := CallStep(c, calls[k], run(turn, k));
      TabAdoption(next, calls, run, turn, k + 1);
    }
  }

  /** A reply with text, or one without tool calls, is the last the loop asks for. */
  lemma StopsAtAnswer(st: State, o: Oracles, i: nat)
    requires i < MaxTurns && st.phase.Going?
    requires o.complete(i).Choice?
    requires HasText(o.complete(i).reply) || o.complete(i).reply.toolCalls.None?
    ensures !Turn(st, o, i).phase.Going?
    ensures Loop(st, o, i) == Turn(st, o, i)
  {
  }

  /** The replies that carry only tool calls, none of which throws, from the i-th turn on. */
  predicate ToolsOnly(o: Oracles, from: nat) {
    forall t: nat :: from <= t < MaxTurns ==>
      o.complete(t).Choice? && o.complete(t).reply.toolCalls.Some? && !HasText(o.complete(t).reply)
      && forall j :: 0 <= j < |o.complete(t).reply.toolCalls.value| ==> o.run(t, j).Returned?
  }

  lemma {:induction false} LoopToolsOnly(st: State, o: Oracles, i: nat)
    requires i <= MaxTurns && st.phase.Going? && ToolsOnly(o, i)
    ensures Loop(st, o, i).phase.Going?
    ensures Loop(st, o, i).calls == st.calls + (MaxTurns - i)
    decreases MaxTurns - i
  {
    if i < MaxTurns {
      ToolTurnGoesOn(st, o, i);
      LoopToolsOnly(Turn(st, o, i), o, i + 1);
    }
  }

  /** A turn whose reply only calls tools, none of which throws, keeps the loop going and counts one request. */
  lemma ToolTurnGoesOn(st: State, o: Oracles, i: nat)
    requires i < MaxTurns && st.phase.Going? && ToolsOnly(o, i)
    ensures Turn(st, o, i).phase.Going? && Turn(st, o, i).calls == st.calls + 1
  {
    var reply := o.complete(i).reply;
    CallsRecorded(Calls(st.events, st.steps, [], st.tab, None), reply.toolCalls.value, o.run, i, 0);
  }

  /** Ten replies with tool calls only use up the turns, and the fixed answer is sent, then the conversation saved or the save's error reported. */
  lemma TenTurnsThenFallback(tab: TabId, content: string, history: seq<Message>, o: Oracles)
    requires ToolsOnly(o, 0)
    ensures var st := Loop(Start(tab, content, history), o, 0);
      var answered := st.events + [FinalResponse(Fallback, st.steps, st.tab)];
      var idle := StatusEvents(st.tab, "", "idle");
      && (!o.historyFails && o.saveFails.None? ==>
            HandleOf(tab, content, history, o) == Handled(answered + idle, Some(st.messages), st.tab, MaxTurns))
      && (!o.historyFails && o.saveFails.Some? ==>
            HandleOf(tab, content, history, o) == Handled(answered + [AssistantError("Error: " + o.saveFails.value, st.tab)] + idle, None, st.tab, MaxTurns))
  {
    LoopToolsOnly(Start(tab, content, history), o, 0);
  }

  // ---------------------------------------------------------------------------
  // The worker's code

  /** The loop over one reply's tool calls; a thrown error leaves the loop at once. */
  method RunToolCalls(calls: seq<Call>, run: (nat, nat) -> Outcome, turn: nat, events0: seq<Event>, steps0: seq<Step>, tab0: TabId)
    returns (events: seq<Event>, steps: seq<Step>, outputs: seq<Message>, tab: TabId, thrown: Option<string>)
    ensures Calls(events, steps, outputs, tab, thrown) == RunCalls(Calls(events0, steps0, [], tab0, None), calls, run, turn, 0)
  {
    events, steps, outputs, tab, thrown := events0, steps0, [], tab0, None;
    var k := 0;
    while k < |calls|
      invariant k <= |calls|
      invariant RunCalls(Calls(events, steps, outputs, tab, None), calls, run, turn, k)
             == RunCalls(Calls(events0, steps0, [], tab0, None), calls, run, turn, 0)
    {
      var call := calls[k];
      events := events + StatusEvents(tab, "Executing: " + call.name, "working");
      var outcome := run(turn, k);
      if outcome.Threw? {
        thrown := Some(outcome.error);
        return;
      }
      var r := outcome.result;
      if call.name == "open_tab" && r.Ok? && r.payload.TabRef? && r.payload.id != 0 {
        tab := Some(r.payload.id);
      }
      if call.name == "switch_tab" && r.Ok? && r.payload.TabRef? && r.payload.id != 0 {
        tab := Some(r.payload.id);
      }
      var humanReadable := Feedback(call.name, r);
      var step := Step("Action: " + call.name, humanReadable, r, call.name == "screenshot" && r.Ok?);
      events := events + [StepDetail("Executed " + call.name, step, tab)];
      steps := steps + [step];
      outputs := outputs + [ToolOutput(call.id, call.name, r)];
      k := k + 1;
    }
  }

  /**
   * A reply with text: stream the answer, and fall back to the reply's text
   * when the stream fails, turns to tool calls or breaks off (a body that
   * breaks off throws at the read after its last chunk, unless the reader had
   * already returned).
   */
  method SendAnswer(st: State, text: string, o: Oracles) returns (events: seq<Event>)
    ensures Answer(st, text, o) == st.(phase := Answered, events := events)
  {
    events := st.events;
    if !o.stream.StreamFails? {
      var r, notices := EventStream.ReadStream(o.stream.chunks, o.parse);
      events := events + Tagged(notices, st.tab);
      if r.Streamed? && !o.stream.breaks {
        events := events + [StreamEnd(st.steps, st.tab)];
        return;
      }
    }
    events := events + [FinalResponse(text, st.steps, st.tab)];
  }

  /** One turn of the loop. */
  method TakeTurn(st: State, o: Oracles, i: nat) returns (next: State)
    requires st.phase.Going?
    ensures next == Turn(st, o, i)
  {
    var completion := o.complete(i);
    var calls := st.calls + 1;
    if completion.Throws? {
      return st.(phase := Crashed(completion.error), calls := calls);
    } else if completion.NoChoice? {
      return st.(phase := Crashed(NoChoicesError), calls := calls);
    }
    var reply := completion.reply;
    var messages := st.messages + [Assistant(reply)];
    next := st.(messages := messages, calls := calls);
    if reply.toolCalls.Some? {
      var events, steps, outputs, tab, thrown := RunToolCalls(reply.toolCalls.value, o.run, i, st.events, st.steps, st.tab);
      if thrown.Some? {
        return State(Crashed(thrown.value), messages, steps, events, tab, calls);
      }
      next := State(st.phase, messages + outputs, steps, events, tab, calls);
    }
    if HasText(reply) {
      var events := SendAnswer(next, reply.content.value, o);
      next := next.(phase := Answered, events := events);
    } else if reply.toolCalls.None? {
      next := next.(phase := Stopped);
    }
  }

  /** `handleSideInput`: the request from the side panel, served turn by turn. */
  method HandleSideInput(tabId: TabId, content: string, history: seq<Message>, o: Oracles) returns (h: Handled)
    ensures h == HandleOf(tabId, content, history, o)
  {
    var thinking := StatusEvents(tabId, "Thinking...", "working");
    if o.historyFails {
      return Handled(thinking, None, tabId, 0);
    }
    var messages := history;
    if |messages| == 0 {
      messages := [SystemPrompt];
    }
    messages := messages + [User(content)];
    var st := State(Going, messages, [], thinking, tabId, 0);
    assert st == Start(tabId, content, history);
    st := RunTurns(st, o);
    h := Conclude(st, o.saveFails);
  }

  /** The `for` loop of `handleSideInput`: at most ten turns, until one ends the request. */
  method RunTurns(start: State, o: Oracles) returns (st: State)
    ensures st == Loop(start, o, 0)
  {
    st := start;
    var i := 0;
    while i < MaxTurns && st.phase.Going?
      invariant i <= MaxTurns
      invariant Loop(st, o, i) == Loop(start, o, 0)
    {
      st := TakeTurn(st, o, i);
      i := i + 1;
    }
  }

  /** The end of `handleSideInput`: the error, or the fallback answer and the save (whose error is reported), then the idle status. */
  method Conclude(st: State, save: Option<string>) returns (h: Handled)
    ensures h == Finish(st, save)
  {
    var events := st.events;
    var saved: Option<seq<Message>> := Some(st.messages);
    if st.phase.Crashed? {
      events := events + [AssistantError("Error: " + st.phase.error, st.tab)];
      saved := None;
    } else {
      if !st.phase.Answered? {
        events := events + [FinalResponse(Fallback, st.steps, st.tab)];
      }
      if save.Some? {
        events := events + [AssistantError("Error: " + save.value, st.tab)];
        saved := None;
      }
    }
    events := events + StatusEvents(st.tab, "", "idle");
    h := Handled(events, saved, st.tab, st.calls);
  }
}
