/** The Responses SSE encoder (internal/httpapi/responseswire.go) and the terminal
    frame its handler adds (internal/httpapi/responses.go). Validation of tool
    arguments and of structured output are parameters. */
module ResponsesEncoder {
  import opened Common
  import opened Streams
  import O = OpenAIStream

  /** Which argument strings are JSON objects, and which texts satisfy the
      requested output specification. */
  datatype Checks = Checks(argsOk: string -> bool, textOk: string -> bool)

  predicate ValidCalls(c: Checks, calls: seq<ToolCall>) {
    forall i :: 0 <= i < |calls| ==> c.argsOk(calls[i].arguments)
  }

  predicate ValidOutput(c: Checks, r: Response) {
    ValidCalls(c, CallsOf(r.output)) && c.textOk(TextOf(r.output))
  }

  datatype Frame =
    | CreatedFrame(created: int)
    | TextDeltaFrame(delta: string)
    | TextDoneFrame(text: string)
    | ItemAdded(index: int, callId: string, name: string)
    | ArgsDeltaFrame(index: int, delta: string)
    | ArgsDoneFrame(index: int, arguments: string, callId: string, name: string)
    | CompletedFrame(response: Response)
    | FailedFrame(code: string)

  predicate TerminalFrame(f: Frame) {
    f.CompletedFrame? || f.FailedFrame?
  }

  /** limit is the number of frames the connection takes before it breaks. */
  datatype State = State(limit: Option<nat>, frames: seq<Frame>, failed: bool, invalid: bool, text: string,
                         args: map<int, string>, callMeta: map<int, ToolCall>, callOrder: seq<int>,
                         head: Response, final: Response)

  function Begin(limit: Option<nat>): State {
    State(limit, [], false, false, "", map[], map[], [], NO_RESPONSE, NO_RESPONSE)
  }

  predicate Broken(s: State) {
    s.limit.Some? && |s.frames| >= s.limit.value
  }

  datatype Handled = Handled(state: State, ok: bool)

  function Write(s: State, f: Frame): Handled {
    if Broken(s) then Handled(s, false) else Handled(s.(frames := s.frames + [f]), true)
  }

  /** Idempotent per stream. */
  function WriteFailed(s: State, code: string): State {
    if s.failed then s else Write(s.(failed := true), FailedFrame(code)).state
  }

  /** A validation failure is recorded and ends the stream. */
  function Invalidate(s: State, code: string): Handled {
    Handled(WriteFailed(s.(invalid := true), code), false)
  }

  function Args(s: State, index: int): string {
    if index in s.args then s.args[index] else ""
  }

  function OnArgsDelta(s: State, index: int, call: Option<ToolCall>, delta: string): Handled {
    var c := call.GetOr(ToolCall("", "", ""));
    var announced :=
      if index in s.args then Handled(s, true)
      else Write(s.(args := s.args[index := ""]), ItemAdded(index, c.id, c.name));
    if !announced.ok then announced
    else
      var t := announced.state.(args := announced.state.args[index := Args(announced.state, index) + delta]);
      if delta == "" then Handled(t, true) else Write(t, ArgsDeltaFrame(index, delta))
  }

  function OnArgsDone(c: Checks, s: State, index: int, call: Option<ToolCall>): Handled {
    var given := call.GetOr(ToolCall("", "", ""));
    var assembled := if given.arguments != "" then given.arguments else Args(s, index);
    if !c.argsOk(assembled) then Invalidate(s, "invalid_tool_arguments")
    else
      var t := s.(callOrder := if index in s.callMeta then s.callOrder else s.callOrder + [index],
                  callMeta := s.callMeta[index := given.(arguments := assembled)]);
      Write(t, ArgsDoneFrame(index, assembled, given.id, given.name))
  }

  function Calls(s: State, order: seq<int>): seq<Item> {
    if order == [] then []
    else
      var index := order[|order| - 1];
      Calls(s, order[..|order| - 1]) + (if index in s.callMeta then [Item.Call(s.callMeta[index])] else [])
  }

  /** The adapter's output, or what was streamed when it reports none. */
  function AssembledFinal(s: State): Response {
    var output := if s.final.output != [] then s.final.output
                  else (if s.text != "" then [Text(s.text)] else []) + Calls(s, s.callOrder);
    s.final.(output := output, model := s.head.model)
  }

  function OnCompleted(c: Checks, s: State, r: Option<Response>): Handled {
    var t := s.(final := r.GetOr(s.head));
    var final := AssembledFinal(t);
    if !ValidOutput(c, final) then Invalidate(t, "schema_validation_failed")
    else Write(t.(final := final), CompletedFrame(final))
  }

  function Handle(c: Checks, s: State, e: Event): Handled {
    match e
    case Created(r) => var t := s.(head := r.GetOr(s.head)); Write(t, CreatedFrame(t.head.created))
    case TextDelta(delta) => Write(s.(text := s.text + delta), TextDeltaFrame(delta))
    case TextDone(text) => Write(s, TextDoneFrame(text))
    case ArgsDelta(index, call, delta) => OnArgsDelta(s, index, call, delta)
    case ArgsDone(index, call) => OnArgsDone(c, s, index, call)
    case Completed(r) => OnCompleted(c, s, r)
    case FailedEvent => Handled(s, true)
  }

  /** The events of one provider call, up to the first one that is refused. */
  datatype Delivery = Delivery(state: State, taken: nat, refused: bool)

  function Deliver(c: Checks, s: State, es: seq<Event>): Delivery {
    if es == [] then Delivery(s, 0, false)
    else
      var n := |es| - 1;
      var before := Deliver(c, s, es[..n]);
      if before.refused then before
      else
        var h := Handle(c, before.state, es[n]);
        if h.ok then Delivery(h.state, n + 1, false) else Delivery(h.state, n, true)
  }

  /** The handler: stream, then the failure frame if the call returned an error. */
  function Respond(c: Checks, s: State, a: Attempt, code: string): State {
    var d := Deliver(c, s, a.events);
    if d.refused || a.error.Some? then WriteFailed(d.state, code) else d.state
  }

  // ---- Terminal frames ----

  predicate NoTerminal(frames: seq<Frame>) {
    forall i :: 0 <= i < |frames| ==> !TerminalFrame(frames[i])
  }

  /** Exactly one terminal frame, the last. */
  predicate OneTerminal(frames: seq<Frame>) {
    frames != [] && TerminalFrame(frames[|frames| - 1]) && NoTerminal(frames[..|frames| - 1])
  }

  predicate Pending(s: State) {
    !s.failed && NoTerminal(s.frames)
  }

  predicate EndsCompleted(s: State) {
    !s.failed && OneTerminal(s.frames) && s.frames[|s.frames| - 1].CompletedFrame?
  }

  /** A failure was decided: its frame is the last, unless the connection broke. */
  predicate EndsFailed(s: State) {
    s.failed && if NoTerminal(s.frames) then Broken(s) else
      OneTerminal(s.frames) && s.frames[|s.frames| - 1].FailedFrame?
  }

  lemma FrameAppended(frames: seq<Frame>, f: Frame)
    requires NoTerminal(frames)
    ensures if TerminalFrame(f) then OneTerminal(frames + [f]) && !NoTerminal(frames + [f])
        else NoTerminal(frames + [f])
  {
    assert (frames + [f])[..|frames|] == frames;
    assert (frames + [f])[|frames|] == f;
  }

  lemma FailurePending(s: State, code: string)
    requires Pending(s)
    ensures var t := WriteFailed(s, code); EndsFailed(t) && t.limit == s.limit && t.invalid == s.invalid
  {
    FrameAppended(s.frames, FailedFrame(code));
    hide NoTerminal, OneTerminal;
  }

  /** What handling one event can do to a stream that has not ended. */
  predicate Progress(s: State, e: Event, h: Handled) {
    && h.state.limit == s.limit
    && (if h.ok then (if e.Completed? then EndsCompleted(h.state) else Pending(h.state))
        else (Pending(h.state) && Broken(h.state)) || (EndsFailed(h.state) && h.state.invalid))
  }

  lemma ArgsDeltaProgress(s: State, index: int, call: Option<ToolCall>, delta: string)
    requires Pending(s)
    ensures Progress(s, ArgsDelta(index, call, delta), OnArgsDelta(s, index, call, delta))
  {
    var c := call.GetOr(ToolCall("", "", ""));
    var announced := s.frames + [ItemAdded(index, c.id, c.name)];
    FrameAppended(s.frames, ItemAdded(index, c.id, c.name));
    FrameAppended(s.frames, ArgsDeltaFrame(index, delta));
    FrameAppended(announced, ArgsDeltaFrame(index, delta));
    hide NoTerminal, OneTerminal;
  }

  lemma ArgsDoneProgress(c: Checks, s: State, index: int, call: Option<ToolCall>)
    requires Pending(s)
    ensures Progress(s, ArgsDone(index, call), OnArgsDone(c, s, index, call))
  {
    var given := call.GetOr(ToolCall("", "", ""));
    var assembled := if given.arguments != "" then given.arguments else Args(s, index);
    FailurePending(s.(invalid := true), "invalid_tool_arguments");
    FrameAppended(s.frames, ArgsDoneFrame(index, assembled, given.id, given.name));
    hide NoTerminal, OneTerminal, WriteFailed;
  }

  lemma CompletedProgress(c: Checks, s: State, r: Option<Response>)
    requires Pending(s)
    ensures Progress(s, Completed(r), OnCompleted(c, s, r))
  {
    var t := s.(final := r.GetOr(s.head));
    FailurePending(t.(invalid := true), "schema_validation_failed");
    FrameAppended(s.frames, CompletedFrame(AssembledFinal(t)));
    hide NoTerminal, OneTerminal, WriteFailed, AssembledFinal, ValidOutput;
  }

  lemma HandleProgress(c: Checks, s: State, e: Event)
    requires Pending(s)
    ensures Progress(s, e, Handle(c, s, e))
  {
    match e {
      case Created(r) => FrameAppended(s.frames, CreatedFrame(r.GetOr(s.head).created));
      case TextDelta(delta) => FrameAppended(s.frames, TextDeltaFrame(delta));
      case TextDone(text) => FrameAppended(s.frames, TextDoneFrame(text));
      case ArgsDelta(index, call, delta) => ArgsDeltaProgress(s, index, call, delta);
      case ArgsDone(index, call) => ArgsDoneProgress(c, s, index, call);
      case Completed(r) => CompletedProgress(c, s, r);
      case FailedEvent =>
    }
    hide NoTerminal, OneTerminal, OnArgsDelta, OnArgsDone, OnCompleted;
  }

  lemma {:induction false} DeliverProgress(c: Checks, s: State, es: seq<Event>)
    requires Pending(s) && forall i :: 0 <= i < |es| - 1 ==> !es[i].Completed?
    ensures var d := Deliver(c, s, es);
      && d.state.limit == s.limit && d.taken <= |es| && (d.taken == |es| <==> !d.refused)
      && (if d.refused then (Pending(d.state) && Broken(d.state)) || (EndsFailed(d.state) && d.state.invalid)
          else if es != [] && es[|es| - 1].Completed? then EndsCompleted(d.state)
          else Pending(d.state))
  {
    if es != [] {
      var n := |es| - 1;
      DeliverProgress(c, s, es[..n]);
      var before := Deliver(c, s, es[..n]);
      if !before.refused {
        assert n > 0 ==> !es[..n][n - 1].Completed?;
        hide Handle, EndsCompleted, EndsFailed, Pending, Broken;
        HandleProgress(c, before.state, es[n]);
      }
    }
  }

  /** Stream termination, for every provider call that keeps the adapter contract
      and any failure code: if the connection holds, the client gets exactly one of
      response.completed and response.failed, as the last frame, and it is completed
      exactly when every event was accepted and the call returned no error. If the
      connection breaks there is still at most one, and nothing after it. */
  lemma ExactlyOneTerminal(c: Checks, a: Attempt, limit: Option<nat>, code: string)
    requires WellEnded(a)
    ensures var s := Respond(c, Begin(limit), a, code);
      && (limit.None? ==> OneTerminal(s.frames))
      && (OneTerminal(s.frames) || (Broken(s) && NoTerminal(s.frames)))
      && (OneTerminal(s.frames) ==>
            (s.frames[|s.frames| - 1].CompletedFrame? <==>
              !Deliver(c, Begin(limit), a.events).refused && a.error.None?))
  {
    hide Deliver, Handle, NoTerminal, OneTerminal, WriteFailed;
    assert NoTerminal([]) && !OneTerminal([]) by { EmptyFrames(); }
    DeliverProgress(c, Begin(limit), a.events);
    var d := Deliver(c, Begin(limit), a.events).state;
    if Pending(d) {
      FailurePending(d, code);
    } else if d.failed {
      FailedStays(d, code);
    }
    TerminalsExclude(Respond(c, Begin(limit), a, code).frames);
  }

  lemma EmptyFrames()
    ensures NoTerminal([]) && !OneTerminal([])
  {
  }

  lemma FailedStays(s: State, code: string)
    requires s.failed
    ensures WriteFailed(s, code) == s
  {
  }

  lemma TerminalsExclude(frames: seq<Frame>)
    ensures !(NoTerminal(frames) && OneTerminal(frames))
    ensures OneTerminal(frames) ==> frames != []
  {
  }

  // ---- Nothing invalid is marked completed ----

  /** A completed frame carries validated output, an ended call valid arguments. */
  predicate Honest(c: Checks, f: Frame) {
    && (f.CompletedFrame? ==> ValidOutput(c, f.response))
    && (f.ArgsDoneFrame? ==> c.argsOk(f.arguments))
  }

  predicate AllHonest(c: Checks, frames: seq<Frame>) {
    forall i :: 0 <= i < |frames| ==> Honest(c, frames[i])
  }

  lemma HonestAppended(c: Checks, frames: seq<Frame>, f: Frame)
    requires AllHonest(c, frames) && Honest(c, f)
    ensures AllHonest(c, frames + [f])
  {
  }

  lemma WriteHonest(c: Checks, s: State, f: Frame)
    requires AllHonest(c, s.frames) && Honest(c, f)
    ensures AllHonest(c, Write(s, f).state.frames) && Write(s, f).state.invalid == s.invalid
  {
    HonestAppended(c, s.frames, f);
  }

  lemma ArgsDeltaHonest(c: Checks, s: State, index: int, call: Option<ToolCall>, delta: string)
    requires AllHonest(c, s.frames)
    ensures var h := OnArgsDelta(s, index, call, delta); AllHonest(c, h.state.frames) && h.state.invalid == s.invalid
  {
    hide AllHonest;
    var given := call.GetOr(ToolCall("", "", ""));
    WriteHonest(c, s.(args := s.args[index := ""]), ItemAdded(index, given.id, given.name));
    var announced :=
      if index in s.args then s else Write(s.(args := s.args[index := ""]),
                                           ItemAdded(index, given.id, given.name)).state;
    WriteHonest(c, announced.(args := announced.args[index := Args(announced, index) + delta]),
                ArgsDeltaFrame(index, delta));
    hide Write;
  }

  lemma InvalidHonest(c: Checks, s: State, code: string)
    requires AllHonest(c, s.frames)
    ensures AllHonest(c, Invalidate(s, code).state.frames)
  {
    WriteHonest(c, s.(invalid := true, failed := true), FailedFrame(code));
    hide AllHonest;
  }

  /** Handling appends honest frames only, and accepting never invalidates. */
  lemma HandleHonest(c: Checks, s: State, e: Event)
    requires AllHonest(c, s.frames)
    ensures AllHonest(c, Handle(c, s, e).state.frames)
    ensures Handle(c, s, e).ok ==> Handle(c, s, e).state.invalid == s.invalid
  {
    hide ValidOutput, AllHonest, AssembledFinal;
    match e {
      case Created(r) => WriteHonest(c, s.(head := r.GetOr(s.head)), CreatedFrame(r.GetOr(s.head).created));
      case TextDelta(delta) => WriteHonest(c, s.(text := s.text + delta), TextDeltaFrame(delta));
      case TextDone(text) => WriteHonest(c, s, TextDoneFrame(text));
      case ArgsDelta(index, call, delta) => ArgsDeltaHonest(c, s, index, call, delta);
      case ArgsDone(index, call) =>
        InvalidHonest(c, s, "invalid_tool_arguments");
        var given := call.GetOr(ToolCall("", "", ""));
        var assembled := if given.arguments != "" then given.arguments else Args(s, index);
        if c.argsOk(assembled) {
          var t := s.(callOrder := if index in s.callMeta then s.callOrder else s.callOrder + [index],
                      callMeta := s.callMeta[index := given.(arguments := assembled)]);
          WriteHonest(c, t, ArgsDoneFrame(index, assembled, given.id, given.name));
        }
      case Completed(r) =>
        var t := s.(final := r.GetOr(s.head));
        InvalidHonest(c, t, "schema_validation_failed");
        if ValidOutput(c, AssembledFinal(t)) {
          WriteHonest(c, t.(final := AssembledFinal(t)), CompletedFrame(AssembledFinal(t)));
        }
      case FailedEvent =>
    }
    hide Write, WriteFailed, OnArgsDelta;
  }

  lemma {:induction false} DeliverHonest(c: Checks, s: State, es: seq<Event>)
    requires AllHonest(c, s.frames)
    ensures var d := Deliver(c, s, es);
      AllHonest(c, d.state.frames) && (!d.refused ==> d.state.invalid == s.invalid)
  {
    if es != [] {
      var n := |es| - 1;
      DeliverHonest(c, s, es[..n]);
      hide Handle, AllHonest;
      HandleHonest(c, Deliver(c, s, es[..n]).state, es[n]);
    }
  }

  /** A stream whose tool arguments or output fail validation is never marked
      completed: every completed frame carries output that satisfied both checks,
      every ended call valid arguments, and no validation failure was recorded. */
  lemma CompletedMeansValid(c: Checks, a: Attempt, limit: Option<nat>, code: string)
    requires WellEnded(a)
    ensures var s := Respond(c, Begin(limit), a, code);
      && AllHonest(c, s.frames)
      && (OneTerminal(s.frames) && s.frames[|s.frames| - 1].CompletedFrame? ==> !s.failed && !s.invalid)
  {
    hide Deliver, Handle, AllHonest, NoTerminal, OneTerminal;
    assert AllHonest(c, []) by { NoneDishonest(c); }
    assert NoTerminal([]) && !OneTerminal([]) by { EmptyFrames(); }
    DeliverHonest(c, Begin(limit), a.events);
    ExactlyOneTerminal(c, a, limit, code);
    DeliverProgress(c, Begin(limit), a.events);
    var d := Deliver(c, Begin(limit), a.events).state;
    HonestAppended(c, d.frames, FailedFrame(code));
  }

  lemma NoneDishonest(c: Checks)
    ensures AllHonest(c, [])
  {
  }

  // ---- What the completed frame carries ----

  lemma HandleText(c: Checks, s: State, e: Event)
    ensures var h := Handle(c, s, e);
      h.ok ==>
        h.state.text == s.text + (if e.TextDelta? then e.delta else "")
        && (!e.ArgsDone? ==> h.state.callOrder == s.callOrder)
  {
    hide ValidOutput, AssembledFinal;
  }

  lemma {:induction false} DeliverText(c: Checks, s: State, es: seq<Event>)
    requires s.text == "" && s.callOrder == []
    ensures var d := Deliver(c, s, es);
      !d.refused ==> d.state.text == TextDeltas(es) && ((forall e :: e in es ==> !e.ArgsDone?)
                                                        ==> d.state.callOrder == [])
  {
    if es != [] {
      var n := |es| - 1;
      DeliverText(c, s, es[..n]);
      assert es[n] in es;
      assert forall e :: e in es[..n] ==> e in es;
      hide Handle;
      HandleText(c, Deliver(c, s, es[..n]).state, es[n]);
    }
  }

  lemma CompletedFrameIsLast(c: Checks, s: State, es: seq<Event>, body: seq<Event>, r: Response)
    requires es == body + [Completed(Some(r))] && !Deliver(c, s, es).refused
    ensures var before := Deliver(c, s, body).state;
      && !Deliver(c, s, body).refused
      && var t := Deliver(c, s, es).state;
      t.frames == before.frames + [CompletedFrame(AssembledFinal(before.(final := r)))]
  {
    assert es[..|es| - 1] == body;
    hide ValidOutput, AssembledFinal;
  }

  /** If the client of an OpenAI stream sees response.completed, that frame has the
      text of the deltas it was sent and, in order, calls with the arguments of
      theirs: the stream and its summary agree. */
  lemma CompletedMatchesDeltas(c: Checks, u: O.Upstream, limit: Option<nat>)
    requires O.Script(u).error.None? && !Deliver(c, Begin(limit), O.Script(u).events).refused
    ensures var es := O.Script(u).events;
      var frames := Deliver(c, Begin(limit), es).state.frames;
      && frames != [] && frames[|frames| - 1].CompletedFrame?
      && var output := frames[|frames| - 1].response.output;
      && TextOf(output) == TextDeltas(es)
      && |CallsOf(output)| == |Indices(es)|
      && forall k :: 0 <= k < |Indices(es)| ==> CallsOf(output)[k].arguments == ArgsDeltas(es, Indices(es)[k])
  {
    hide O.Script, O.Closing, O.Final, Deliver, CallsOf, TextOf, TextDeltas, ArgsDeltas, Indices, O.Faithful,
        O.Interior;
    var a := O.ScriptShape(u);
    O.FaithfulMeans(a);
    var es := O.Script(u).events;
    var body := O.ClosingShape(a, es);
    O.CompletedIsFaithful(u);
    var r := O.Final(a);
    CompletedFrameIsLast(c, Begin(limit), es, body, r);
    var before := Deliver(c, Begin(limit), body).state;
    if r.output == [] {
      assert TextOf([]) == "" && CallsOf([]) == [] by { EmptyOutput(); }
      DeliverText(c, Begin(limit), body);
      BodyText(a, es, body);
      assert AssembledFinal(before.(final := r)).output == [];
    }
  }

  lemma EmptyOutput()
    ensures TextOf([]) == "" && CallsOf([]) == []
  {
  }

  /** An empty answer was streamed as nothing. */
  lemma BodyText(a: O.Acc, es: seq<Event>, body: seq<Event>)
    requires O.Faithful(a) && es == a.out + O.Closing(a) && es == body + [Completed(Some(O.Final(a)))]
    requires O.Final(a).output == [] && forall e :: e in body ==> O.Interior(a, e)
    ensures TextDeltas(body) == "" && forall e :: e in body ==> !e.ArgsDone?
  {
    O.FaithfulMeans(a);
    O.FinalSays(a) by { O.SilentText(a); }
    O.ClosingIsQuiet(a, 0);
    DeltasSnoc(body, Completed(Some(O.Final(a))), 0);
    EmptyOutput();
    O.TrackedOrder(a);
    assert a.order == [];
    assert forall k :: k !in a.tools;
    forall e | e in body ensures !e.ArgsDone? {
      assert O.Interior(a, e);
    }
    hide O.Closing, TextDeltas, CallsOf, TextOf, Indices, O.Faithful;
  }

  // ---- The object ----

  class ResponsesStreamEncoder {
    const checks: Checks
    const limit: Option<nat>
    var frames: seq<Frame>
    var failed: bool
    var invalid: bool
    var text: string
    var args: map<int, string>
    var callMeta: map<int, ToolCall>
    var callOrder: seq<int>
    var head: Response
    var final: Response

    constructor (checks: Checks, limit: Option<nat>)
      ensures this.checks == checks && View() == Begin(limit)
    {
      this.checks, this.limit, frames, failed, invalid, text := checks, limit, [], false, false, "";
      args, callMeta, callOrder, head, final := map[], map[], [], NO_RESPONSE, NO_RESPONSE;
    }

    function View(): State
      reads this
    {
      State(limit, frames, failed, invalid, text, args, callMeta, callOrder, head, final)
    }

    method WriteFrame(f: Frame) returns (ok: bool)
      modifies this`frames
      ensures Handled(View(), ok) == Write(old(View()), f)
    {
      if limit.Some? && |frames| >= limit.value {
        return false;
      }
      frames := frames + [f];
      return true;
    }

    method Fail(code: string)
      modifies this`frames, this`failed
      ensures View() == WriteFailed(old(View()), code)
    {
      if failed {
        return;
      }
      failed := true;
      var _ := WriteFrame(FailedFrame(code));
    }

    method AppendArguments(index: int, call: Option<ToolCall>, delta: string) returns (ok: bool)
      modifies this
      ensures Handled(View(), ok) == OnArgsDelta(old(View()), index, call, delta)
    {
      if index !in args {
        args := args[index := ""];
        var c := call.GetOr(ToolCall("", "", ""));
        ok := WriteFrame(ItemAdded(index, c.id, c.name));
        if !ok {
          return;
        }
      }
      args := args[index := args[index] + delta];
      if delta == "" {
        return true;
      }
      ok := WriteFrame(ArgsDeltaFrame(index, delta));
    }

    method EndArguments(index: int, call: Option<ToolCall>) returns (ok: bool)
      modifies this
      ensures Handled(View(), ok) == OnArgsDone(checks, old(View()), index, call)
    {
      var assembled := if index in args then args[index] else "";
      var given := call.GetOr(ToolCall("", "", ""));
      if given.arguments != "" {
        assembled := given.arguments;
      }
      if !checks.argsOk(assembled) {
        invalid := true;
        Fail("invalid_tool_arguments");
        return false;
      }
      if index !in callMeta {
        callOrder := callOrder + [index];
      }
      callMeta := callMeta[index := given.(arguments := assembled)];
      ok := WriteFrame(ArgsDoneFrame(index, assembled, given.id, given.name));
    }

    method Complete(r: Option<Response>) returns (ok: bool)
      modifies this
      ensures Handled(View(), ok) == OnCompleted(checks, old(View()), r)
    {
      final := r.GetOr(head);
      var assembled := AssembledFinal(View());
      if !ValidOutput(checks, assembled) {
        invalid := true;
        Fail("schema_validation_failed");
        return false;
      }
      final := assembled;
      ok := WriteFrame(CompletedFrame(assembled));
    }

    method HandleEvent(e: Event) returns (ok: bool)
      modifies this
      ensures Handled(View(), ok) == Handle(checks, old(View()), e)
    {
      match e {
        case Created(r) =>
          head := r.GetOr(head);
          ok := WriteFrame(CreatedFrame(head.created));
        case TextDelta(delta) =>
          text := text + delta;
          ok := WriteFrame(TextDeltaFrame(delta));
        case TextDone(t) => ok := WriteFrame(TextDoneFrame(t));
        case ArgsDelta(index, call, delta) => ok := AppendArguments(index, call, delta);
        case ArgsDone(index, call) => ok := EndArguments(index, call);
        case Completed(r) => ok := Complete(r);
        case FailedEvent => ok := true;
      }
    }
  }
}
