/** The OpenAI adapter's stream loop (internal/provider/openai.go): upstream
    chunks folded into domain events, with every way the stream can break. */
module OpenAIStream {
  import opened Common
  import opened Streams

  // ---- The upstream stream ----

  /** One tool_calls fragment; a missing index is None. */
  datatype Fragment = Fragment(index: Option<int>, id: string, name: string, arguments: string)

  /** The first choice of a chunk. */
  datatype Choice = Choice(content: string, tools: seq<Fragment>, finish: string)

  datatype Chunk = Chunk(id: string, created: int, model: string, choice: Option<Choice>, usage: Option<Usage>)

  /** One scanned line: no data payload, undecodable, the terminator, a chunk; or
      the context had ended by then. */
  datatype Frame = Ignored | Malformed | Terminator | Data(chunk: Chunk) | Interrupted

  /** What the scanner reports once the loop has ended. It may have failed already
      when it hands out its last line, the terminator included. */
  datatype Tail = CleanEof | ReadFailed

  /** One upstream call: opening is the failure to get a stream at all; expired
      says that the context has ended when the loop is over. */
  datatype Upstream = Upstream(opening: Option<ErrClass>, frames: seq<Frame>, tail: Tail, expired: bool)

  // ---- The loop's variables ----

  /** The accumulators, and the events emitted so far. */
  datatype Acc = Acc(head: Response, text: string, tools: map<int, ToolCall>, order: seq<int>, finish: string,
                     usage: Option<Usage>, textEmitted: bool, out: seq<Event>)

  const BEGIN: Acc := Acc(NO_RESPONSE, "", map[], [], "", None, false, [])

  function Greeting(head: Response): Event {
    Created(Some(Response(head.id, head.created, head.model, "in_progress", [], None, "")))
  }

  function OnHead(a: Acc, c: Chunk): Acc {
    if a.head.id == "" && (c.id != "" || c.model != "") then
      var head := NO_RESPONSE.(id := c.id, created := c.created, model := c.model);
      a.(head := head, out := a.out + [Greeting(head)])
    else a
  }

  function OnText(a: Acc, content: string): Acc {
    if content == "" then a
    else a.(textEmitted := true, text := a.text + content, out := a.out + [TextDelta(content)])
  }

  function IndexOf(f: Fragment): int {
    f.index.GetOr(0)
  }

  /** The first fragment of an index opens the call; its identity rides there. */
  function Identify(a: Acc, f: Fragment): Acc {
    var idx := IndexOf(f);
    var was := if idx in a.tools then a.tools[idx] else ToolCall("", "", "");
    var named := was.(id := if f.id != "" then f.id else was.id, name := if f.name != "" then f.name else was.name);
    if idx in a.tools then a.(tools := a.tools[idx := named])
    else a.(tools := a.tools[idx := named], order := a.order + [idx],
            out := a.out + [ArgsDelta(idx, Some(ToolCall(named.id, named.name, "")), "")])
  }

  function Append(a: Acc, idx: int, arguments: string): Acc
    requires idx in a.tools
  {
    if arguments == "" then a
    else a.(tools := a.tools[idx := a.tools[idx].(arguments := a.tools[idx].arguments + arguments)],
            out := a.out + [ArgsDelta(idx, None, arguments)])
  }

  function OnFragment(a: Acc, f: Fragment): Acc {
    Append(Identify(a, f), IndexOf(f), f.arguments)
  }

  function OnFragments(a: Acc, fs: seq<Fragment>): Acc {
    if fs == [] then a else OnFragment(OnFragments(a, fs[..|fs| - 1]), fs[|fs| - 1])
  }

  function OnUsage(a: Acc, usage: Option<Usage>): Acc {
    if usage.Some? then a.(usage := usage) else a
  }

  function OnFinish(a: Acc, finish: string): Acc {
    if finish != "" then a.(finish := finish) else a
  }

  function OnChunk(a: Acc, c: Chunk): Acc {
    var b := OnUsage(OnHead(a, c), c.usage);
    match c.choice
    case None => b
    case Some(choice) => OnFinish(OnFragments(OnText(b, choice.content), choice.tools), choice.finish)
  }

  /** How the read loop ended. */
  datatype Stop = Broke(error: ErrClass) | SawDone | RanOut

  function Read(a: Acc, frames: seq<Frame>): (Acc, Stop)
    decreases |frames|
  {
    if frames == [] then (a, RanOut)
    else
      match frames[0]
      case Interrupted => (a, Broke(Timeout))
      case Ignored => Read(a, frames[1..])
      case Terminator => (a, SawDone)
      case Malformed => (a, Broke(Server))
      case Data(chunk) => Read(OnChunk(a, chunk), frames[1..])
  }

  // ---- Closing ----

  function NormalizeFinish(reason: string): string {
    if reason == "length" then "length"
    else if reason == "tool_calls" || reason == "function_call" then "tool_calls"
    else if reason == "" then ""
    else "stop"
  }

  function Dones(a: Acc, order: seq<int>): seq<Event>
    requires forall i :: i in order ==> i in a.tools
  {
    if order == [] then []
    else
      var idx := order[|order| - 1];
      assert idx in order;
      Dones(a, order[..|order| - 1]) + [ArgsDone(idx, Some(a.tools[idx]))]
  }

  function Items(a: Acc, order: seq<int>): seq<Item>
    requires forall i :: i in order ==> i in a.tools
  {
    if order == [] then []
    else
      var idx := order[|order| - 1];
      assert idx in order;
      Items(a, order[..|order| - 1]) + [Call(a.tools[idx])]
  }

  /** The assembled domain response: tool calls in order, then the text. */
  function Final(a: Acc): Response
    requires Tracked(a)
  {
    var finish := NormalizeFinish(a.finish);
    a.head.(output := Items(a, a.order) + (if a.textEmitted then [Text(a.text)] else []),
            finish := finish, status := if finish == "length" then "incomplete" else "completed", usage := a.usage)
  }

  function Closing(a: Acc): seq<Event>
    requires Tracked(a)
  {
    Dones(a, a.order) + (if a.textEmitted then [TextDone(a.text)] else []) + [Completed(Some(Final(a)))]
  }

  predicate Tracked(a: Acc) {
    (forall i :: i in a.order ==> i in a.tools) && (forall i :: i in a.tools ==> i in a.order)
  }

  /** The error the loop's end amounts to, in the order the checks are made; none
      if the stream is complete. */
  function LoopError(u: Upstream, stop: Stop): Option<ErrClass> {
    if stop.Broke? then Some(stop.error)
    else if u.tail.ReadFailed? then Some(Network)
    else if u.expired then Some(Timeout)
    else if stop.RanOut? then Some(Network)
    else None
  }

  /** The whole call when no event is refused. */
  function Script(u: Upstream): Attempt {
    if u.opening.Some? then Attempt([], u.opening)
    else
      ReadTracks(BEGIN, u.frames);
      var (a, stop) := Read(BEGIN, u.frames);
      var error := LoopError(u, stop);
      if error.Some? then Attempt(a.out, error) else Attempt(a.out + Closing(a), None)
  }

  // ---- Invariants of the fold ----

  /** A greeting without usage, or a delta. */
  predicate IsStreaming(e: Event) {
    (e.Created? && e.response.Some? && e.response.value.usage.None?) || e.TextDelta? || e.ArgsDelta?
  }

  predicate Streaming(es: seq<Event>) {
    forall e :: e in es ==> IsStreaming(e)
  }

  /** The accumulators hold exactly what was emitted. */
  ghost predicate Faithful(a: Acc) {
    && Tracked(a) && Streaming(a.out)
    && a.head == Announced(a.out)
    && a.text == TextDeltas(a.out)
    && a.order == Indices(a.out)
    && (forall i :: i in a.tools ==> a.tools[i].arguments == ArgsDeltas(a.out, i))
    && (forall i :: i !in a.tools ==> ArgsDeltas(a.out, i) == "")
    && (a.textEmitted <==> exists e :: e in a.out && e.TextDelta?)
  }

  /** Emitting one event that carries no delta for a tracked accumulator. */
  lemma EmitKeeps(a: Acc, e: Event)
    ensures forall i :: ArgsDeltas(a.out + [e], i) == ArgsDeltas(a.out, i) + (if e.ArgsDelta? && e.index == i
        then e.delta else "")
    ensures TextDeltas(a.out + [e]) == TextDeltas(a.out) + (if e.TextDelta? then e.delta else "")
    ensures !e.Created? ==> Announced(a.out + [e]) == Announced(a.out)
    ensures Indices(a.out + [e]) == if e.ArgsDelta? && e.index !in Indices(a.out) then Indices(a.out) + [e.index]
        else Indices(a.out)
  {
    forall i ensures ArgsDeltas(a.out + [e], i) == ArgsDeltas(a.out, i) + (if e.ArgsDelta? && e.index == i then e.delta
        else "") {
      DeltasSnoc(a.out, e, i);
    }
    DeltasSnoc(a.out, e, 0);
    AnnouncedSnoc(a.out, e);
  }

  lemma IdentifyFaithful(a: Acc, f: Fragment)
    requires Faithful(a)
    ensures Faithful(Identify(a, f)) && a.out <= Identify(a, f).out
  {
    hide ArgsDeltas, TextDeltas, Indices, Announced;
    var b := Identify(a, f);
    if b.out != a.out {
      EmitKeeps(a, b.out[|a.out|]);
      forall i ensures i in b.order <==> i in b.tools {
        assert i in a.order <==> i in a.tools;
      }
    }
  }

  lemma AppendFaithful(a: Acc, idx: int, arguments: string)
    requires Faithful(a) && idx in a.tools
    ensures Faithful(Append(a, idx, arguments)) && a.out <= Append(a, idx, arguments).out
  {
    hide ArgsDeltas, TextDeltas, Indices, Announced;
    if arguments != "" {
      EmitKeeps(a, ArgsDelta(idx, None, arguments));
    }
  }

  lemma FragmentFaithful(a: Acc, f: Fragment)
    requires Faithful(a)
    ensures Faithful(OnFragment(a, f)) && a.out <= OnFragment(a, f).out
  {
    IdentifyFaithful(a, f);
    AppendFaithful(Identify(a, f), IndexOf(f), f.arguments);
    hide Faithful;
  }

  lemma {:induction false} FragmentsFaithful(a: Acc, fs: seq<Fragment>)
    requires Faithful(a)
    ensures Faithful(OnFragments(a, fs)) && a.out <= OnFragments(a, fs).out
  {
    if fs != [] {
      FragmentsFaithful(a, fs[..|fs| - 1]);
      FragmentFaithful(OnFragments(a, fs[..|fs| - 1]), fs[|fs| - 1]);
    }
  }

  lemma HeadFaithful(a: Acc, c: Chunk)
    requires Faithful(a)
    ensures Faithful(OnHead(a, c)) && a.out <= OnHead(a, c).out
  {
    hide ArgsDeltas, TextDeltas, Indices, Announced;
    var b := OnHead(a, c);
    if b.out != a.out {
      EmitKeeps(a, b.out[|a.out|]);
      AnnouncedSnoc(a.out, b.out[|a.out|]);
    }
    hide Announced;
  }

  lemma TextFaithful(a: Acc, content: string)
    requires Faithful(a)
    ensures Faithful(OnText(a, content)) && a.out <= OnText(a, content).out
  {
    hide ArgsDeltas, TextDeltas, Indices, Announced;
    if content != "" {
      EmitKeeps(a, TextDelta(content));
      assert TextDelta(content) in a.out + [TextDelta(content)];
    }
  }

  lemma QuietFaithful(a: Acc, usage: Option<Usage>, finish: string)
    requires Faithful(a)
    ensures Faithful(OnUsage(a, usage)) && Faithful(OnFinish(a, finish))
  {
  }

  lemma ChunkFaithful(a: Acc, c: Chunk)
    requires Faithful(a)
    ensures Faithful(OnChunk(a, c)) && a.out <= OnChunk(a, c).out
  {
    hide Faithful, OnHead, OnText, OnFragments;
    HeadFaithful(a, c);
    QuietFaithful(OnHead(a, c), c.usage, "");
    if c.choice.Some? {
      var b := OnUsage(OnHead(a, c), c.usage);
      TextFaithful(b, c.choice.value.content);
      FragmentsFaithful(OnText(b, c.choice.value.content), c.choice.value.tools);
      QuietFaithful(OnFragments(OnText(b, c.choice.value.content), c.choice.value.tools), None, c.choice.value.finish);
    }
  }

  lemma {:induction false} ReadFaithful(a: Acc, frames: seq<Frame>)
    requires Faithful(a)
    ensures Faithful(Read(a, frames).0) && a.out <= Read(a, frames).0.out
    decreases |frames|
  {
    hide Faithful, OnChunk;
    if frames != [] {
      if frames[0].Data? {
        ChunkFaithful(a, frames[0].chunk);
        ReadFaithful(OnChunk(a, frames[0].chunk), frames[1..]);
      } else if frames[0].Ignored? {
        ReadFaithful(a, frames[1..]);
      }
    }
  }

  lemma BeginFaithful()
    ensures Faithful(BEGIN)
  {
  }

  lemma ReadTracks(a: Acc, frames: seq<Frame>)
    requires a == BEGIN
    ensures Tracked(Read(a, frames).0)
  {
    BeginFaithful();
    ReadFaithful(a, frames);
  }

  // ---- What a completed stream says ----

  lemma {:induction false} DonesAt(a: Acc, order: seq<int>)
    requires forall k :: k in order ==> k in a.tools
    ensures |Dones(a, order)| == |order|
    ensures forall k :: 0 <= k < |order| ==>
      order[k] in a.tools && Dones(a, order)[k] == ArgsDone(order[k], Some(a.tools[order[k]]))
  {
    if order != [] {
      var n := |order| - 1;
      assert order[n] in order;
      DonesAt(a, order[..n]);
      forall k | 0 <= k < n ensures order[k] in a.tools {
        assert order[k] in order;
      }
    }
  }

  /** The ends of calls carry no delta. */
  lemma {:induction false} DonesAreQuiet(a: Acc, order: seq<int>, out: seq<Event>, i: int)
    requires forall k :: k in order ==> k in a.tools
    ensures ArgsDeltas(out + Dones(a, order), i) == ArgsDeltas(out, i)
    ensures TextDeltas(out + Dones(a, order)) == TextDeltas(out)
    ensures Indices(out + Dones(a, order)) == Indices(out)
  {
    hide ArgsDeltas, TextDeltas, Indices;
    if order == [] {
      assert out + Dones(a, order) == out;
    } else {
      var n := |order| - 1;
      var idx := order[n];
      assert idx in order;
      DonesAreQuiet(a, order[..n], out, i);
      var before := out + Dones(a, order[..n]);
      var done := ArgsDone(idx, Some(a.tools[idx]));
      assert out + Dones(a, order) == before + [done];
      Quiet(before, done, i);
    }
  }

  lemma {:induction false} ItemsSay(a: Acc, order: seq<int>)
    requires forall k :: k in order ==> k in a.tools
    ensures TextOf(Items(a, order)) == ""
    ensures |CallsOf(Items(a, order))| == |order|
    ensures forall k :: 0 <= k < |order| ==> order[k] in a.tools && CallsOf(Items(a, order))[k] == a.tools[order[k]]
  {
    if order != [] {
      var n := |order| - 1;
      var idx := order[n];
      assert idx in order;
      ItemsSay(a, order[..n]);
      OutputSnoc(Items(a, order[..n]), Call(a.tools[idx]));
    }
  }

  lemma Quiet(es: seq<Event>, e: Event, i: int)
    requires !e.TextDelta? && !e.ArgsDelta?
    ensures ArgsDeltas(es + [e], i) == ArgsDeltas(es, i) && TextDeltas(es + [e]) == TextDeltas(es)
        && Indices(es + [e]) == Indices(es)
  {
    DeltasSnoc(es, e, i);
    hide ArgsDeltas, TextDeltas, Indices, Announced;
  }

  /** The events of a completed call, piece by piece. */
  lemma ClosingSplit(a: Acc)
    requires Tracked(a)
    ensures a.out + Closing(a)
         == if a.textEmitted then a.out + Dones(a, a.order) + [TextDone(a.text)] + [Completed(Some(Final(a)))]
            else a.out + Dones(a, a.order) + [Completed(Some(Final(a)))]
  {
    hide Dones, Final;
  }

  lemma ClosingIsQuiet(a: Acc, i: int)
    requires Tracked(a)
    ensures ArgsDeltas(a.out + Closing(a), i) == ArgsDeltas(a.out, i)
    ensures TextDeltas(a.out + Closing(a)) == TextDeltas(a.out)
    ensures Indices(a.out + Closing(a)) == Indices(a.out)
  {
    hide *;
    ClosingSplit(a);
    DonesAreQuiet(a, a.order, a.out, i) by { TrackedOrder(a); }
    var mid := a.out + Dones(a, a.order) by { TrackedOrder(a); }
    Quiet(mid, TextDone(a.text), i);
    Quiet(mid, Completed(Some(Final(a))), i);
    Quiet(mid + [TextDone(a.text)], Completed(Some(Final(a))), i);
  }

  lemma TrackedOrder(a: Acc)
    requires Tracked(a)
    ensures forall k :: k in a.order <==> k in a.tools
  {
  }

  /** Every script is a faithful fold, closed if and only if it has no error. */
  lemma ScriptShape(u: Upstream) returns (a: Acc)
    ensures Faithful(a)
    ensures Script(u).error.None? ==> Script(u).events == a.out + Closing(a) && Read(BEGIN, u.frames) == (a, SawDone)
    ensures Script(u).error.Some? ==> Script(u).events == [] || Script(u).events == a.out
  {
    a := Read(BEGIN, u.frames).0;
    BeginFaithful();
    ReadFaithful(BEGIN, u.frames);
    hide Faithful, Closing, Read;
  }

  /** No completion, and only ends that carry what was accumulated. */
  predicate Interior(a: Acc, e: Event) {
    && !e.Completed?
    && (e.TextDone? ==> e.text == a.text)
    && (e.ArgsDone? ==> e.index in a.tools && e.call == Some(a.tools[e.index]))
  }

  lemma DonesAreInterior(a: Acc)
    requires Faithful(a)
    ensures forall k :: k in a.order ==> k in a.tools
    ensures forall e :: e in a.out + Dones(a, a.order) ==> Interior(a, e)
  {
    FaithfulMeans(a);
    TrackedOrder(a);
    assert Streaming(a.out);
    hide Dones, ArgsDeltas, TextDeltas, Indices, Announced, Faithful;
    DonesAt(a, a.order);
    forall e | e in a.out + Dones(a, a.order) ensures Interior(a, e) {
      assert e in a.out || e in Dones(a, a.order);
    }
  }

  /** A completed call is an interior followed by the completion. */
  lemma ClosingShape(a: Acc, es: seq<Event>) returns (body: seq<Event>)
    requires Faithful(a) && es == a.out + Closing(a)
    ensures es == body + [Completed(Some(Final(a)))] && forall e :: e in body ==> Interior(a, e)
  {
    DonesAreInterior(a);
    ClosingSplit(a);
    hide Dones, Final, ArgsDeltas, TextDeltas, Indices, Closing, Faithful, Tracked;
    body := a.out + Dones(a, a.order);
    if a.textEmitted {
      body := body + [TextDone(a.text)];
    }
  }

  /** The adapter keeps its contract: completed comes last, once, and exactly when
      no error is returned. */
  lemma ScriptWellEnded(u: Upstream)
    ensures WellEnded(Script(u))
  {
    var a := ScriptShape(u);
    assert Streaming(a.out);
    forall i | 0 <= i < |a.out| ensures !a.out[i].Completed? {
      assert a.out[i] in a.out;
    }
    hide Script, Closing, Faithful;
    if Script(u).error.None? {
      var body := ClosingShape(a, Script(u).events);
      forall i | 0 <= i < |body| ensures !body[i].Completed? {
        assert body[i] in body;
      }
    }
  }

  /** An end carries what was streamed. */
  lemma EndSays(a: Acc, e: Event)
    requires Faithful(a) && Interior(a, e)
    ensures var es := a.out + Closing(a);
      && (e.TextDone? ==> e.text == TextDeltas(es))
      && (e.ArgsDone? ==> e.call.Some? && e.call.value.arguments == ArgsDeltas(es, e.index))
  {
    FaithfulMeans(a);
    hide Closing, ArgsDeltas, TextDeltas, Indices, Faithful, Tracked;
    ClosingIsQuiet(a, if e.ArgsDone? then e.index else 0);
  }

  /** The response says what the events streamed. */
  predicate SaysStreamed(output: seq<Item>, es: seq<Event>) {
    && TextOf(output) == TextDeltas(es)
    && |CallsOf(output)| == |Indices(es)|
    && forall k :: 0 <= k < |Indices(es)| ==> CallsOf(output)[k].arguments == ArgsDeltas(es, Indices(es)[k])
  }

  /** And the completed response. */
  lemma ResponseSays(a: Acc)
    requires Faithful(a)
    ensures SaysStreamed(Final(a).output, a.out + Closing(a))
  {
    FaithfulMeans(a);
    SilentText(a);
    hide Closing, Final, CallsOf, TextOf, ArgsDeltas, TextDeltas, Indices, Faithful, Tracked;
    FinalSays(a);
    ClosingIsQuiet(a, 0);
    var es := a.out + Closing(a);
    forall k | 0 <= k < |Indices(es)| ensures CallsOf(Final(a).output)[k].arguments == ArgsDeltas(es, Indices(es)[k]) {
      ClosingIsQuiet(a, a.order[k]);
    }
  }

  predicate EndMatches(e: Event, es: seq<Event>) {
    && (e.TextDone? ==> e.text == TextDeltas(es))
    && (e.ArgsDone? ==> e.call.Some? && e.call.value.arguments == ArgsDeltas(es, e.index))
  }

  lemma InSnoc(es: seq<Event>, last: Event, e: Event)
    ensures e in es + [last] <==> e in es || e == last
  {
  }

  lemma ClosedEndsMatch(a: Acc)
    requires Faithful(a)
    ensures var es := a.out + Closing(a);
      && (forall e :: e in es ==> EndMatches(e, es))
      && es != [] && es[|es| - 1] == Completed(Some(Final(a)))
  {
    FaithfulMeans(a);
    hide Closing, Final, ArgsDeltas, TextDeltas, Indices, Faithful, Interior, Tracked;
    var es := a.out + Closing(a);
    var body := ClosingShape(a, es);
    forall e | e in es ensures EndMatches(e, es) {
      InSnoc(body, Completed(Some(Final(a))), e);
      if e in body {
        EndSays(a, e);
      }
    }
  }

  /** Stream fidelity: whatever the chunk sequence, when the adapter completes,
      each args_done carries the concatenation of its own argument deltas, the
      text_done that of the text deltas, and the completed response has that text
      and, in order of first appearance, those calls. */
  lemma CompletedIsFaithful(u: Upstream)
    requires Script(u).error.None?
    ensures var es := Script(u).events;
      && (forall e :: e in es ==> EndMatches(e, es))
      && es != [] && es[|es| - 1].Completed? && es[|es| - 1].response.Some?
      && SaysStreamed(es[|es| - 1].response.value.output, es)
  {
    var a := ScriptShape(u);
    hide *;
    FaithfulMeans(a);
    ClosedEndsMatch(a);
    ResponseSays(a);
  }

  lemma FaithfulMeans(a: Acc)
    requires Faithful(a)
    ensures Tracked(a) && a.text == TextDeltas(a.out) && a.order == Indices(a.out)
    ensures forall i :: i in a.tools ==> a.tools[i].arguments == ArgsDeltas(a.out, i)
    ensures forall k :: 0 <= k < |a.order| ==> a.order[k] in a.tools
  {
    hide ArgsDeltas, TextDeltas, Indices, Announced;
    TrackedOrder(a);
    forall k | 0 <= k < |a.order| ensures a.order[k] in a.tools {
      var idx := a.order[k];
      assert idx in a.order;
      assert idx in a.tools;
    }
  }

  lemma SilentText(a: Acc)
    requires Faithful(a)
    ensures !a.textEmitted ==> a.text == ""
  {
    if !a.textEmitted {
      NoTextNoDeltas(a.out);
    }
  }

  lemma FinalSays(a: Acc)
    requires Tracked(a) && (!a.textEmitted ==> a.text == "")
    ensures TextOf(Final(a).output) == a.text
    ensures |CallsOf(Final(a).output)| == |a.order|
    ensures forall k :: 0 <= k < |a.order| ==>
      a.order[k] in a.tools && CallsOf(Final(a).output)[k] == a.tools[a.order[k]]
  {
    TrackedOrder(a);
    hide Items, CallsOf, TextOf, Tracked;
    var items := Items(a, a.order);
    ItemsSay(a, a.order);
    if a.textEmitted {
      OutputSnoc(items, Text(a.text));
      assert Final(a).output == items + [Text(a.text)];
    } else {
      assert Final(a).output == items;
    }
  }

  lemma {:induction false} NoTextNoDeltas(es: seq<Event>)
    requires forall e :: e in es ==> !e.TextDelta?
    ensures TextDeltas(es) == ""
  {
    if es != [] {
      assert es[|es| - 1] in es;
      NoTextNoDeltas(es[..|es| - 1]);
    }
  }

  // ---- The loop ----

  /** The consumer got these events up to the first one it refuses. */
  ghost predicate Refused(sink: Sink, base: seq<Event>, target: seq<Event>)
    reads sink
  {
    var n := FirstRefused(sink.accepts, base, target);
    n.Some? && sink.delivered == base + target[..n.value]
  }

  lemma RefusedLater(sink: Sink, base: seq<Event>, target: seq<Event>, more: seq<Event>)
    requires Refused(sink, base, target) && target <= more
    ensures Refused(sink, base, more)
  {
    RefusedPrefix(sink.accepts, base, target, more);
    var n := FirstRefused(sink.accepts, base, target).value;
    assert target[..n] == more[..n];
  }

  /** The variables of one Stream call and its emit callback. Every step either
      emits all its events or stops at the first refusal. */
  class Call {
    const sink: Sink
    ghost const base: seq<Event>
    var head: Response
    var text: string
    var tools: map<int, ToolCall>
    var order: seq<int>
    var finish: string
    var usage: Option<Usage>
    var textEmitted: bool
    ghost var out: seq<Event>

    constructor (sink: Sink)
      ensures this.sink == sink && base == sink.delivered && View() == BEGIN && Valid()
    {
      this.sink, base := sink, sink.delivered;
      head, text, tools, order, finish, usage, textEmitted, out := NO_RESPONSE, "", map[], [], "", None, false, [];
    }

    ghost function View(): Acc
      reads this
    {
      Acc(head, text, tools, order, finish, usage, textEmitted, out)
    }

    ghost predicate Valid()
      reads this, sink
    {
      sink.delivered == base + out && FirstRefused(sink.accepts, base, out).None?
    }

    method Emit(e: Event) returns (ok: bool)
      requires Valid()
      modifies sink, this`out
      ensures ok ==> Valid() && View() == old(View()).(out := old(out) + [e])
      ensures !ok ==> Refused(sink, base, old(out) + [e]) && out == old(out)
    {
      hide FirstRefused;
      RefusedSnoc(sink.accepts, base, out, e);
      ok := sink.Emit(e);
      if ok {
        out := out + [e];
      }
    }

    method Announce(c: Chunk) returns (ok: bool)
      requires Valid()
      modifies this, sink
      ensures ok ==> Valid() && View() == OnHead(old(View()), c)
      ensures !ok ==> Refused(sink, base, OnHead(old(View()), c).out)
    {
      ok := true;
      if head.id == "" && (c.id != "" || c.model != "") {
        head := NO_RESPONSE.(id := c.id, created := c.created, model := c.model);
        ok := Emit(Greeting(head));
      }
    }

    method AppendText(content: string) returns (ok: bool)
      requires Valid()
      modifies this, sink
      ensures ok ==> Valid() && View() == OnText(old(View()), content)
      ensures !ok ==> Refused(sink, base, OnText(old(View()), content).out)
    {
      ok := true;
      if content != "" {
        textEmitted := true;
        text := text + content;
        ok := Emit(TextDelta(content));
      }
    }

    /** Finds or opens the fragment's call; opening it announces its identity. */
    method OpenCall(f: Fragment) returns (ok: bool)
      requires Valid()
      modifies this, sink
      ensures ok ==> Valid() && View() == Identify(old(View()), f)
      ensures !ok ==> Refused(sink, base, Identify(old(View()), f).out)
    {
      hide FirstRefused, Refused;
      var idx := IndexOf(f);
      var isNew := idx !in tools;
      if isNew {
        tools := tools[idx := ToolCall("", "", "")];
        order := order + [idx];
      }
      if f.id != "" {
        tools := tools[idx := tools[idx].(id := f.id)];
      }
      if f.name != "" {
        tools := tools[idx := tools[idx].(name := f.name)];
      }
      assert tools == Identify(old(View()), f).tools;
      ok := true;
      if isNew {
        ok := Emit(ArgsDelta(idx, Some(ToolCall(tools[idx].id, tools[idx].name, "")), ""));
      }
    }

    method AppendFragment(f: Fragment) returns (ok: bool)
      requires Valid()
      modifies this, sink
      ensures ok ==> Valid() && View() == OnFragment(old(View()), f)
      ensures !ok ==> Refused(sink, base, OnFragment(old(View()), f).out)
    {
      var idx := IndexOf(f);
      ok := OpenCall(f);
      if !ok {
        RefusedLater(sink, base, Identify(old(View()), f).out, OnFragment(old(View()), f).out);
        return;
      }
      if f.arguments != "" {
        tools := tools[idx := tools[idx].(arguments := tools[idx].arguments + f.arguments)];
        ok := Emit(ArgsDelta(idx, None, f.arguments));
      }
    }

    method AppendFragments(fs: seq<Fragment>) returns (ok: bool)
      requires Valid() && Faithful(View())
      modifies this, sink
      ensures ok ==> Valid() && View() == OnFragments(old(View()), fs)
      ensures !ok ==> Refused(sink, base, OnFragments(old(View()), fs).out)
    {
      hide FirstRefused, Refused, OnFragment, Faithful;
      var n := 0;
      assert fs[..0] == [];
      while n < |fs|
        invariant 0 <= n <= |fs| && Valid() && View() == OnFragments(old(View()), fs[..n])
      {
        assert fs[..n + 1][..n] == fs[..n];
        ok := AppendFragment(fs[n]);
        if !ok {
          FragmentsGrow(old(View()), fs, n + 1);
          RefusedLater(sink, base, OnFragments(old(View()), fs[..n + 1]).out,
                       OnFragments(old(View()), fs).out);
          return;
        }
        n := n + 1;
      }
      assert fs[..n] == fs;
      return true;
    }

    method Absorb(c: Chunk) returns (ok: bool)
      requires Valid() && Faithful(View())
      modifies this, sink
      ensures ok ==> Valid() && View() == OnChunk(old(View()), c)
      ensures !ok ==> Refused(sink, base, OnChunk(old(View()), c).out)
    {
      hide FirstRefused, Refused, OnHead, OnText, OnFragments, Faithful;
      ChunkStages(View(), c);
      ok := Announce(c);
      if !ok {
        RefusedLater(sink, base, OnHead(old(View()), c).out, OnChunk(old(View()), c).out);
        return;
      }
      if c.usage.Some? {
        usage := c.usage;
      }
      if c.choice.None? {
        return true;
      }
      var choice := c.choice.value;
      ghost var b := View();
      ok := AppendText(choice.content);
      if !ok {
        RefusedLater(sink, base, OnText(b, choice.content).out, OnChunk(old(View()), c).out);
        return;
      }
      ok := AppendFragments(choice.tools);
      if !ok {
        return;
      }
      if choice.finish != "" {
        finish := choice.finish;
      }
      return true;
    }
  }

  lemma PrefixTransitive(a: seq<Event>, b: seq<Event>, c: seq<Event>)
    requires a <= b <= c
    ensures a <= c
  {
  }

  /** The scan loop; None when the consumer refused an event. */
  method ReadBody(call: Call, frames: seq<Frame>) returns (stop: Option<Stop>)
    requires call.Valid() && Faithful(call.View())
    modifies call, call.sink
    ensures stop.Some? ==> call.Valid() && Read(old(call.View()), frames) == (call.View(), stop.value)
    ensures stop.None? ==> Refused(call.sink, call.base, Read(old(call.View()), frames).0.out)
  {
    hide FirstRefused, Refused, Faithful, OnChunk;
    ghost var begin := call.View();
    var n := 0;
    while n < |frames|
      invariant 0 <= n <= |frames| && call.Valid() && Faithful(call.View())
      invariant Read(begin, frames) == Read(call.View(), frames[n..])
    {
      var frame := frames[n];
      assert frames[n..][0] == frame && frames[n..][1..] == frames[n + 1..];
      match frame {
        case Interrupted => return Some(Broke(Timeout));
        case Ignored =>
        case Terminator => return Some(SawDone);
        case Malformed => return Some(Broke(Server));
        case Data(chunk) =>
          ghost var before := call.View();
          ChunkFaithful(before, chunk);
          ReadFaithful(OnChunk(before, chunk), frames[n + 1..]);
          var ok := call.Absorb(chunk);
          if !ok {
            RefusedLater(call.sink, call.base, OnChunk(before, chunk).out, Read(begin, frames).0.out);
            return None;
          }
      }
      n := n + 1;
    }
    return Some(RanOut);
  }

  /** Ends every call, in order of first appearance, and collects the output. */
  method CloseCalls(call: Call) returns (ok: bool, output: seq<Item>)
    requires call.Valid() && Tracked(call.View())
    modifies call, call.sink
    ensures ok ==>
      && call.Valid()
      && call.View() == old(call.View()).(out := old(call.out) + Dones(old(call.View()), old(call.order)))
      && output == Items(old(call.View()), old(call.order))
    ensures !ok ==> Refused(call.sink, call.base, old(call.out) + Dones(old(call.View()), old(call.order)))
  {
    hide FirstRefused, Refused;
    TrackedOrder(call.View());
    ghost var a := call.View();
    output := [];
    var n := 0;
    assert a.order[..0] == [] && Dones(a, []) == [] && Items(a, []) == [];
    hide Dones, Items, Tracked;
    while n < |call.order|
      invariant 0 <= n <= |a.order| && call.Valid() && call.View() == a.(out := a.out + Dones(a, a.order[..n]))
      invariant output == Items(a, a.order[..n])
    {
      var idx := call.order[n];
      DonesStep(a, n);
      ok := call.Emit(ArgsDone(idx, Some(call.tools[idx])));
      if !ok {
        DonesGrow(a, a.order, n + 1);
        PrefixUnder(a.out, Dones(a, a.order[..n + 1]), Dones(a, a.order));
        RefusedLater(call.sink, call.base, a.out + Dones(a, a.order[..n + 1]), a.out + Dones(a, a.order));
        return;
      }
      output := output + [Item.Call(call.tools[idx])];
      n := n + 1;
    }
    assert a.order[..n] == a.order;
    ok := true;
  }

  /** The closing events, in order, until one is refused. */
  method Close(call: Call) returns (ok: bool)
    requires call.Valid() && Tracked(call.View())
    modifies call, call.sink
    ensures ok ==> call.Valid() && call.out == old(call.out) + Closing(old(call.View()))
    ensures !ok ==> Refused(call.sink, call.base, old(call.out) + Closing(old(call.View())))
  {
    ghost var a := call.View();
    ClosingSplit(a);
    ghost var all := a.out + Closing(a);
    ghost var dones := a.out + Dones(a, a.order);
    hide FirstRefused, Refused, Closing, Dones, Items;
    var output;
    ok, output := CloseCalls(call);
    if !ok {
      RefusedLater(call.sink, call.base, dones, all);
      return;
    }
    if call.textEmitted {
      ok := call.Emit(TextDone(call.text));
      if !ok {
        RefusedLater(call.sink, call.base, dones + [TextDone(a.text)], all);
        return;
      }
      output := output + [Text(call.text)];
    }
    var reason := NormalizeFinish(call.finish);
    var final := call.head.(output := output, finish := reason, usage := call.usage,
                            status := if reason == "length" then "incomplete" else "completed");
    assert output == Items(a, a.order) + (if a.textEmitted then [Text(a.text)] else []);
    ok := call.Emit(Completed(Some(final)));
  }

  lemma DonesStep(a: Acc, n: nat)
    requires n < |a.order| && forall k :: k in a.order ==> k in a.tools
    ensures a.order[n] in a.order && a.order[n] in a.tools
    ensures a.out + Dones(a, a.order[..n + 1])
         == a.out + Dones(a, a.order[..n]) + [ArgsDone(a.order[n], Some(a.tools[a.order[n]]))]
    ensures Items(a, a.order[..n + 1]) == Items(a, a.order[..n]) + [Item.Call(a.tools[a.order[n]])]
  {
    var idx := a.order[n];
    assert idx in a.order;
    assert idx in a.tools;
    assert a.order[..n + 1][..n] == a.order[..n];
  }

  lemma PrefixUnder(a: seq<Event>, b: seq<Event>, c: seq<Event>)
    requires b <= c
    ensures a + b <= a + c
  {
  }

  lemma {:induction false} DonesGrow(a: Acc, order: seq<int>, n: nat)
    requires n <= |order| && forall k :: k in order ==> k in a.tools
    ensures Dones(a, order[..n]) <= Dones(a, order)
  {
    if n == |order| {
      assert order[..n] == order;
    } else {
      var m := |order| - 1;
      assert order[m] in order;
      assert order[..m][..n] == order[..n];
      DonesGrow(a, order[..m], n);
      PrefixTransitive(Dones(a, order[..n]), Dones(a, order[..m]), Dones(a, order));
    }
  }

  /** An opened stream, to its end or to the first refusal. */
  method Drive(call: Call, u: Upstream) returns (ok: bool, error: Option<ErrClass>)
    requires call.Valid() && call.View() == BEGIN && u.opening.None?
    modifies call, call.sink
    ensures ok ==> call.Valid() && call.out == Script(u).events && error == Script(u).error
    ensures !ok ==> Refused(call.sink, call.base, Script(u).events)
  {
    BeginFaithful();
    ReadFaithful(BEGIN, u.frames);
    ScriptExtends(u);
    ScriptByStop(u);
    hide FirstRefused, Refused, Read, Closing, Faithful, Script, LoopError;
    var stop := ReadBody(call, u.frames);
    if stop.None? {
      RefusedLater(call.sink, call.base, Read(BEGIN, u.frames).0.out, Script(u).events);
      return false, None;
    }
    error := EndOfLoop(u, stop.value);
    ok := true;
    if error.None? {
      ok := Close(call);
    }
  }

  /** One streaming call against a consumer that may refuse any event: what was
      delivered and the error returned are those of the script, cut at the first
      refusal. */
  method Stream(u: Upstream, sink: Sink) returns (error: Option<ErrClass>)
    modifies sink
    ensures var t := Take(Script(u), FirstRefused(sink.accepts, old(sink.delivered), Script(u).events));
      sink.delivered == old(sink.delivered) + t.events && error == t.error
  {
    if u.opening.Some? {
      assert sink.delivered + [] == sink.delivered;
      return u.opening;
    }
    var call := new Call(sink);
    hide Script, FirstRefused;
    var ok;
    ok, error := Drive(call, u);
    if !ok {
      return Some(Internal);
    }
  }

  /** The checks between the loop and the closing events. */
  method EndOfLoop(u: Upstream, stop: Stop) returns (error: Option<ErrClass>)
    ensures error == LoopError(u, stop)
  {
    if stop.Broke? {
      return Some(stop.error);
    }
    if u.tail.ReadFailed? {
      return Some(Network);
    }
    if u.expired {
      return Some(Timeout);
    }
    if stop.RanOut? {
      return Some(Network);
    }
    return None;
  }

  /** The script, by how the read loop stops. */
  lemma ScriptByStop(u: Upstream)
    requires u.opening.None?
    ensures var (a, stop) := Read(BEGIN, u.frames);
      var error := LoopError(u, stop);
      && Tracked(a)
      && Script(u) == if error.Some? then Attempt(a.out, error) else Attempt(a.out + Closing(a), None)
  {
    ReadTracks(BEGIN, u.frames);
    hide Read, Closing, Tracked, LoopError;
  }

  lemma ScriptExtends(u: Upstream)
    requires u.opening.None?
    ensures Read(BEGIN, u.frames).0.out <= Script(u).events
  {
  }

  /** How far each stage of a chunk gets. */
  lemma ChunkStages(a: Acc, c: Chunk)
    requires Faithful(a)
    ensures OnHead(a, c).out <= OnChunk(a, c).out
    ensures c.choice.Some? ==>
      var b := OnUsage(OnHead(a, c), c.usage);
      && Faithful(OnText(b, c.choice.value.content))
      && OnText(b, c.choice.value.content).out <= OnChunk(a, c).out
  {
    hide Faithful, OnHead, OnText, OnFragments;
    HeadFaithful(a, c);
    if c.choice.Some? {
      var b := OnUsage(OnHead(a, c), c.usage);
      var choice := c.choice.value;
      QuietFaithful(OnHead(a, c), c.usage, "");
      TextFaithful(b, choice.content);
      var t := OnText(b, choice.content);
      FragmentsFaithful(t, choice.tools);
      assert OnChunk(a, c).out == OnFragments(t, choice.tools).out;
      PrefixTransitive(OnHead(a, c).out, t.out, OnChunk(a, c).out);
    }
  }

  lemma {:induction false} FragmentsGrow(a: Acc, fs: seq<Fragment>, n: nat)
    requires Faithful(a) && n <= |fs|
    ensures OnFragments(a, fs[..n]).out <= OnFragments(a, fs).out
  {
    hide Faithful, OnFragment;
    if n == |fs| {
      assert fs[..n] == fs;
    } else {
      var m := |fs| - 1;
      assert fs[..m][..n] == fs[..n];
      FragmentsGrow(a, fs[..m], n);
      FragmentsFaithful(a, fs[..m]);
      FragmentFaithful(OnFragments(a, fs[..m]), fs[m]);
      PrefixTransitive(OnFragments(a, fs[..n]).out, OnFragments(a, fs[..m]).out, OnFragments(a, fs).out);
    }
  }
}
