/** What the clients of both SSE encoders receive, frame by frame
    (internal/httpapi/chatwire.go, responseswire.go): the events themselves, read
    back from the frames. */
module SseClients {
  import opened Common
  import opened Streams
  import O = OpenAIStream
  import Chat = ChatEncoder
  import R = ResponsesEncoder

  // ---- Chat chunks ----

  predicate HasArgsDelta(es: seq<Event>) {
    exists e :: e in es && e.ArgsDelta?
  }

  /** The encoder's head is the one announced last, and it knows whether tools ran. */
  lemma {:induction false} HeadIsAnnounced(es: seq<Event>)
    ensures var s := Chat.Fold(Chat.BEGIN, es);
      && Announced(es) == NO_RESPONSE.(id := s.id, created := s.created, model := s.model)
      && (s.toolSeen <==> HasArgsDelta(es))
  {
    if es != [] {
      var n := |es| - 1;
      HeadIsAnnounced(es[..n]);
      assert es == es[..n] + [es[n]];
      Chat.FoldSnoc(Chat.BEGIN, es[..n], es[n]);
      AnnouncedSnoc(es[..n], es[n]);
      assert HasArgsDelta(es) <==> HasArgsDelta(es[..n]) || es[n].ArgsDelta?;
      hide Chat.Fold, Announced, HasArgsDelta;
    }
  }

  /** Each delta and the completion is one chunk under the head announced last; no
      other event writes anything. The completion's chunk carries the finish reason,
      tool_calls or stop when none was reported, and the reported usage. */
  lemma ChunkPerEvent(es: seq<Event>, e: Event)
    ensures var before, after := Chat.Fold(Chat.BEGIN, es).chunks, Chat.Fold(Chat.BEGIN, es + [e]).chunks;
      if e.TextDelta? || e.ArgsDelta? || e.Completed? then
        && |after| == |before| + 1 && after[..|before|] == before
        && var c := after[|before|];
        && c.id == Announced(es).id && c.created == Announced(es).created && c.model == Announced(es).model
        && (e.TextDelta? ==> c.content == e.delta && c.tool.None? && c.finish == "")
        && (e.ArgsDelta? ==>
              c.content == "" && c.finish == "" && c.tool.Some?
              && c.tool.value.index == e.index && c.tool.value.arguments == e.delta)
        && (e.Completed? ==>
              && c.content == "" && c.tool.None?
              && (e.response.Some? && e.response.value.usage.Some? ==> c.usage == e.response.value.usage)
              && c.finish == if e.response.Some? && e.response.value.finish != "" then e.response.value.finish
                             else if HasArgsDelta(es) then "tool_calls" else "stop")
      else after == before
  {
    HeadIsAnnounced(es);
    Chat.FoldSnoc(Chat.BEGIN, es, e);
    hide Chat.Fold, Announced, HasArgsDelta;
  }

  // ---- Responses frames ----

  function FrameText(fs: seq<R.Frame>): string {
    if fs == [] then ""
    else FrameText(fs[..|fs| - 1]) + if fs[|fs| - 1].TextDeltaFrame? then fs[|fs| - 1].delta else ""
  }

  function FrameArgs(fs: seq<R.Frame>, i: int): string {
    if fs == [] then ""
    else
      var f := fs[|fs| - 1];
      FrameArgs(fs[..|fs| - 1], i) + if f.ArgsDeltaFrame? && f.index == i then f.delta else ""
  }

  /** The calls announced, in order, with their identity. */
  function Announcements(fs: seq<R.Frame>): seq<(int, string, string)> {
    if fs == [] then []
    else
      var f := fs[|fs| - 1];
      Announcements(fs[..|fs| - 1]) + if f.ItemAdded? then [(f.index, f.callId, f.name)] else []
  }

  /** What should be announced: each call once, at its first delta. */
  function Openings(es: seq<Event>): seq<(int, string, string)> {
    if es == [] then []
    else
      var before := Openings(es[..|es| - 1]);
      var e := es[|es| - 1];
      if e.ArgsDelta? && e.index !in Indices(es[..|es| - 1]) then
        before + [(e.index, if e.call.Some? then e.call.value.id else "",
                   if e.call.Some? then e.call.value.name else "")]
      else before
  }

  lemma FrameAdds(fs: seq<R.Frame>, f: R.Frame, i: int)
    ensures FrameText(fs + [f]) == FrameText(fs) + if f.TextDeltaFrame? then f.delta else ""
    ensures FrameArgs(fs + [f], i) == FrameArgs(fs, i) + if f.ArgsDeltaFrame? && f.index == i then f.delta else ""
    ensures Announcements(fs + [f]) == Announcements(fs) + if f.ItemAdded? then [(f.index, f.callId, f.name)] else []
  {
    assert (fs + [f])[..|fs|] == fs;
  }

  lemma OpeningsAdd(es: seq<Event>, e: Event)
    ensures Openings(es + [e])
         == if e.ArgsDelta? && e.index !in Indices(es) then
              Openings(es) + [(e.index, if e.call.Some? then e.call.value.id else "",
                               if e.call.Some? then e.call.value.name else "")]
            else Openings(es)
  {
    assert (es + [e])[..|es|] == es;
  }

  /** The client has the deltas of exactly these events. */
  ghost predicate Shows(s: R.State, es: seq<Event>) {
    && FrameText(s.frames) == TextDeltas(es) == s.text
    && (forall i :: FrameArgs(s.frames, i) == ArgsDeltas(es, i) == R.Args(s, i))
    && (forall i :: i in s.args <==> i in Indices(es))
    && Announcements(s.frames) == Openings(es)
  }

  /** The frames the accepted deltas of a call add. */
  lemma ArgsShown(s: R.State, es: seq<Event>, index: int, call: Option<ToolCall>, delta: string)
    requires Shows(s, es) && R.OnArgsDelta(s, index, call, delta).ok
    ensures Shows(R.OnArgsDelta(s, index, call, delta).state, es + [ArgsDelta(index, call, delta)])
  {
    var e := ArgsDelta(index, call, delta);
    var c := call.GetOr(ToolCall("", "", ""));
    var t := R.OnArgsDelta(s, index, call, delta).state;
    var announced := if index in s.args then s.frames else s.frames + [R.ItemAdded(index, c.id, c.name)];
    hide FrameText, FrameArgs, Announcements, Openings, TextDeltas, ArgsDeltas, Indices;
    OpeningsAdd(es, e);
    assert t.frames == if delta == "" then announced else announced + [R.ArgsDeltaFrame(index, delta)];
    forall i
      ensures FrameArgs(t.frames, i) == ArgsDeltas(es + [e], i) == R.Args(t, i)
      ensures FrameText(t.frames) == TextDeltas(es + [e])
      ensures Announcements(t.frames) == Openings(es + [e])
      ensures i in t.args <==> i in Indices(es + [e])
    {
      DeltasSnoc(es, e, i);
      FrameAdds(s.frames, R.ItemAdded(index, c.id, c.name), i);
      FrameAdds(announced, R.ArgsDeltaFrame(index, delta), i);
    }
    DeltasSnoc(es, e, 0);
  }

  /** Any other event writes at most one frame, and only a text delta one that shows. */
  lemma OneFrame(c: R.Checks, s: R.State, e: Event)
    requires R.Handle(c, s, e).ok && !e.ArgsDelta?
    ensures var t := R.Handle(c, s, e).state;
      && t.args == s.args && t.text == s.text + (if e.TextDelta? then e.delta else "")
      && (t.frames == s.frames ==> !e.TextDelta?)
      && (t.frames != s.frames ==>
            && |t.frames| == |s.frames| + 1 && t.frames == s.frames + [t.frames[|s.frames|]]
            && var f := t.frames[|s.frames|];
            && !f.ItemAdded? && !f.ArgsDeltaFrame?
            && (if e.TextDelta? then f == R.TextDeltaFrame(e.delta) else !f.TextDeltaFrame?))
  {
    hide R.ValidOutput, R.AssembledFinal;
  }

  /** Such an event moves the readings of the frames and of the events alike. */
  lemma ReadingsMove(c: R.Checks, s: R.State, es: seq<Event>, e: Event, i: int)
    requires R.Handle(c, s, e).ok && !e.ArgsDelta?
    ensures var fs := R.Handle(c, s, e).state.frames;
      && FrameText(fs) == FrameText(s.frames) + (if e.TextDelta? then e.delta else "")
      && FrameArgs(fs, i) == FrameArgs(s.frames, i) && Announcements(fs) == Announcements(s.frames)
    ensures TextDeltas(es + [e]) == TextDeltas(es) + (if e.TextDelta? then e.delta else "")
    ensures ArgsDeltas(es + [e], i) == ArgsDeltas(es, i) && Indices(es + [e]) == Indices(es)
    ensures Openings(es + [e]) == Openings(es)
  {
    OneFrame(c, s, e);
    OpeningsAdd(es, e);
    DeltasSnoc(es, e, i);
    hide FrameText, FrameArgs, Announcements, Openings, TextDeltas, ArgsDeltas, Indices, R.Handle;
    var fs := R.Handle(c, s, e).state.frames;
    if fs != s.frames {
      FrameAdds(s.frames, fs[|s.frames|], i);
    }
  }

  lemma OtherShown(c: R.Checks, s: R.State, es: seq<Event>, e: Event)
    requires Shows(s, es) && R.Handle(c, s, e).ok && !e.ArgsDelta?
    ensures Shows(R.Handle(c, s, e).state, es + [e])
  {
    hide FrameText, FrameArgs, Announcements, Openings, TextDeltas, ArgsDeltas, Indices, R.Handle, R.Args;
    var t := R.Handle(c, s, e).state;
    assert t.args == s.args && t.text == s.text + (if e.TextDelta? then e.delta else "") by { OneFrame(c, s, e); }
    forall i ensures FrameArgs(t.frames, i) == ArgsDeltas(es + [e], i) == R.Args(t, i) {
      ReadingsMove(c, s, es, e, i);
      assert R.Args(t, i) == R.Args(s, i) by { SameArgs(s, t, i); }
    }
    ReadingsMove(c, s, es, e, 0);
  }

  lemma SameArgs(s: R.State, t: R.State, i: int)
    requires t.args == s.args
    ensures R.Args(t, i) == R.Args(s, i)
  {
  }

  /** One accepted event adds its own deltas and nothing else. */
  lemma EventShown(c: R.Checks, s: R.State, es: seq<Event>, e: Event)
    requires Shows(s, es) && R.Handle(c, s, e).ok
    ensures Shows(R.Handle(c, s, e).state, es + [e])
  {
    if e.ArgsDelta? {
      ArgsShown(s, es, e.index, e.call, e.delta);
    } else {
      OtherShown(c, s, es, e);
    }
    hide Shows, R.OnArgsDelta;
  }

  /** The Responses client receives the stream itself: whatever the events, until one
      is refused, the text frames concatenate to the text deltas, the argument frames
      call by call to the argument deltas, and each call is announced once, at its
      first delta, with the identity given there. */
  lemma {:induction false} ResponsesClientSeesTheDeltas(c: R.Checks, limit: Option<nat>, es: seq<Event>)
    requires !R.Deliver(c, R.Begin(limit), es).refused
    ensures Shows(R.Deliver(c, R.Begin(limit), es).state, es)
  {
    hide R.Handle, FrameText, FrameArgs, Announcements, Openings, TextDeltas, ArgsDeltas, Indices;
    if es == [] {
      NothingShown();
    } else {
      var n := |es| - 1;
      ResponsesClientSeesTheDeltas(c, limit, es[..n]);
      EventShown(c, R.Deliver(c, R.Begin(limit), es[..n]).state, es[..n], es[n]);
      assert es[..n] + [es[n]] == es;
    }
  }

  lemma NothingShown()
    ensures FrameText([]) == TextDeltas([]) == "" && Announcements([]) == Openings([]) == [] && Indices([]) == []
    ensures forall i :: FrameArgs([], i) == ArgsDeltas([], i) == ""
  {
  }

  /** And so over an OpenAI stream the completed frame, the last one, repeats what the
      client received: its text and, in order, its calls' arguments. */
  lemma CompletedFrameRepeatsTheFrames(c: R.Checks, u: O.Upstream, limit: Option<nat>)
    requires O.Script(u).error.None? && !R.Deliver(c, R.Begin(limit), O.Script(u).events).refused
    ensures var es := O.Script(u).events;
      var frames := R.Deliver(c, R.Begin(limit), es).state.frames;
      && frames != [] && frames[|frames| - 1].CompletedFrame?
      && var output := frames[|frames| - 1].response.output;
      && TextOf(output) == FrameText(frames)
      && |CallsOf(output)| == |Indices(es)|
      && forall k :: 0 <= k < |Indices(es)| ==> CallsOf(output)[k].arguments == FrameArgs(frames, Indices(es)[k])
  {
    hide R.Deliver, O.Script, FrameText, FrameArgs, Announcements, Openings, TextDeltas, ArgsDeltas, Indices, TextOf,
        CallsOf;
    R.CompletedMatchesDeltas(c, u, limit);
    ResponsesClientSeesTheDeltas(c, limit, O.Script(u).events);
  }

  /** What ends a call, on a connection that holds: it shows the adapter's arguments,
      or the streamed ones when it gives none, and is refused as
      invalid_tool_arguments exactly when they are not a JSON object. */
  lemma EndedCallsAreChecked(c: R.Checks, s: R.State, es: seq<Event>, index: int, call: Option<ToolCall>)
    requires Shows(s, es) && s.limit.None? && !s.failed
    ensures var h := R.Handle(c, s, ArgsDone(index, call));
      var given := if call.Some? then call.value.arguments else "";
      var arguments := if given != "" then given else ArgsDeltas(es, index);
      && |h.state.frames| == |s.frames| + 1 && h.state.frames[..|s.frames|] == s.frames
      && var f := h.state.frames[|s.frames|];
      && (h.ok <==> c.argsOk(arguments))
      && (h.ok ==> f.ArgsDoneFrame? && f.index == index && f.arguments == arguments)
      && (!h.ok ==> f == R.FailedFrame("invalid_tool_arguments"))
  {
    hide FrameText, FrameArgs, Announcements, Openings, TextDeltas, ArgsDeltas, Indices;
  }

  /** What ends the stream: the adapter's response under the announced model, refused
      as schema_validation_failed exactly when that output is not valid. */
  lemma CompletionIsChecked(c: R.Checks, s: R.State, r: Response)
    requires s.limit.None? && !s.failed && r.output != []
    ensures var h := R.Handle(c, s, Completed(Some(r)));
      && |h.state.frames| == |s.frames| + 1 && h.state.frames[..|s.frames|] == s.frames
      && var f := h.state.frames[|s.frames|];
      && (h.ok <==> c.textOk(TextOf(r.output))
                    && forall i :: 0 <= i < |CallsOf(r.output)| ==> c.argsOk(CallsOf(r.output)[i].arguments))
      && (h.ok ==> f == R.CompletedFrame(r.(model := s.head.model)))
      && (!h.ok ==> f == R.FailedFrame("schema_validation_failed"))
  {
    hide TextOf, CallsOf;
    var final := R.AssembledFinal(s.(final := r));
    assert final == r.(model := s.head.model);
    assert R.Handle(c, s, Completed(Some(r))).ok <==> R.ValidOutput(c, final);
    assert R.ValidCalls(c, CallsOf(r.output)) <==>
      forall i :: 0 <= i < |CallsOf(r.output)| ==> c.argsOk(CallsOf(r.output)[i].arguments);
  }
}
