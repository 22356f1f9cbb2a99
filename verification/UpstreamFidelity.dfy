/** The OpenAI adapter against its upstream (internal/provider/openai.go): what a
    stream of chunks says, read off the chunks alone, is what the adapter emits and
    what its completed response carries. */
module UpstreamFidelity {
  import opened Common
  import opened Streams
  import opened OpenAIStream
  import Chat = ChatEncoder

  // ---- What the upstream said ----

  /** The chunks before the terminator, or before what broke the stream. */
  function Chunks(frames: seq<Frame>): seq<Chunk>
    decreases |frames|
  {
    if frames == [] then []
    else if frames[0].Data? then [frames[0].chunk] + Chunks(frames[1..])
    else if frames[0].Ignored? then Chunks(frames[1..])
    else []
  }

  /** The first frame that is neither a chunk nor ignored, if any. */
  function EndFrame(frames: seq<Frame>): Option<Frame>
    decreases |frames|
  {
    if frames == [] then None
    else if frames[0].Data? || frames[0].Ignored? then EndFrame(frames[1..])
    else Some(frames[0])
  }

  /** All content, concatenated. */
  function Content(cs: seq<Chunk>): string {
    if cs == [] then ""
    else
      var c := cs[|cs| - 1];
      Content(cs[..|cs| - 1]) + if c.choice.Some? then c.choice.value.content else ""
  }

  /** All tool fragments, in order. */
  function Fragments(cs: seq<Chunk>): seq<Fragment> {
    if cs == [] then []
    else
      var c := cs[|cs| - 1];
      Fragments(cs[..|cs| - 1]) + if c.choice.Some? then c.choice.value.tools else []
  }

  /** A fragment without an index belongs to call 0. */
  predicate Belongs(f: Fragment, i: int) {
    if f.index.Some? then f.index.value == i else i == 0
  }

  /** The call indices, in order of first appearance. */
  function Calls(fs: seq<Fragment>): seq<int> {
    if fs == [] then []
    else
      var before := Calls(fs[..|fs| - 1]);
      var f := fs[|fs| - 1];
      var i := if f.index.Some? then f.index.value else 0;
      if i in before then before else before + [i]
  }

  /** The arguments of one call, concatenated. */
  function Arguments(fs: seq<Fragment>, i: int): string {
    if fs == [] then ""
    else Arguments(fs[..|fs| - 1], i) + if Belongs(fs[|fs| - 1], i) then fs[|fs| - 1].arguments else ""
  }

  /** The last identifier and the last name given for one call. */
  function LastId(fs: seq<Fragment>, i: int): string {
    if fs == [] then ""
    else if Belongs(fs[|fs| - 1], i) && fs[|fs| - 1].id != "" then fs[|fs| - 1].id
    else LastId(fs[..|fs| - 1], i)
  }

  function LastName(fs: seq<Fragment>, i: int): string {
    if fs == [] then ""
    else if Belongs(fs[|fs| - 1], i) && fs[|fs| - 1].name != "" then fs[|fs| - 1].name
    else LastName(fs[..|fs| - 1], i)
  }

  function ToolCalls(fs: seq<Fragment>, order: seq<int>): seq<Item> {
    if order == [] then []
    else
      var i := order[|order| - 1];
      ToolCalls(fs, order[..|order| - 1]) + [Item.Call(ToolCall(LastId(fs, i), LastName(fs, i), Arguments(fs, i)))]
  }

  function LastUsage(cs: seq<Chunk>): Option<Usage> {
    if cs == [] then None
    else if cs[|cs| - 1].usage.Some? then cs[|cs| - 1].usage
    else LastUsage(cs[..|cs| - 1])
  }

  function LastFinish(cs: seq<Chunk>): string {
    if cs == [] then ""
    else
      var c := cs[|cs| - 1];
      if c.choice.Some? && c.choice.value.finish != "" then c.choice.value.finish else LastFinish(cs[..|cs| - 1])
  }

  /** The chunk whose head counts: the first with an identifier, or before there is
      one the last that names a model. */
  function HeadChunk(cs: seq<Chunk>): Option<Chunk> {
    if cs == [] then None
    else
      var before := HeadChunk(cs[..|cs| - 1]);
      var c := cs[|cs| - 1];
      if (before.None? || before.value.id == "") && (c.id != "" || c.model != "") then Some(c) else before
  }

  // ---- The fold against it ----

  function Folded(cs: seq<Chunk>): Acc {
    if cs == [] then BEGIN else OnChunk(Folded(cs[..|cs| - 1]), cs[|cs| - 1])
  }

  lemma {:induction false} ReadFolds(cs: seq<Chunk>, frames: seq<Frame>)
    ensures Read(Folded(cs), frames).0 == Folded(cs + Chunks(frames))
    ensures Read(Folded(cs), frames).1
         == match EndFrame(frames)
            case None => RanOut
            case Some(end) => if end.Terminator? then SawDone else Broke(if end.Interrupted? then Timeout else Server)
    decreases |frames|
  {
    hide OnChunk;
    if frames != [] && frames[0].Data? {
      var chunk := frames[0].chunk;
      assert (cs + [chunk])[..|cs|] == cs;
      assert cs + [chunk] + Chunks(frames[1..]) == cs + Chunks(frames);
      ReadFolds(cs + [chunk], frames[1..]);
    } else if frames != [] && frames[0].Ignored? {
      ReadFolds(cs, frames[1..]);
    } else {
      assert cs + [] == cs;
    }
  }

  /** The accumulated calls are those of these fragments. */
  ghost predicate HoldsCalls(a: Acc, fs: seq<Fragment>) {
    && a.order == Calls(fs)
    && (forall i :: i in a.tools <==> i in a.order)
    && (forall i :: i in a.tools ==> a.tools[i] == ToolCall(LastId(fs, i), LastName(fs, i), Arguments(fs, i)))
  }

  /** A call nobody mentioned has nothing. */
  lemma {:induction false} Unmentioned(fs: seq<Fragment>, i: int)
    requires i !in Calls(fs)
    ensures LastId(fs, i) == LastName(fs, i) == Arguments(fs, i) == ""
  {
    if fs != [] {
      Unmentioned(fs[..|fs| - 1], i);
    }
  }

  lemma FragmentCounts(fs: seq<Fragment>, f: Fragment, i: int)
    ensures LastId(fs + [f], i) == if Belongs(f, i) && f.id != "" then f.id else LastId(fs, i)
    ensures LastName(fs + [f], i) == if Belongs(f, i) && f.name != "" then f.name else LastName(fs, i)
    ensures Arguments(fs + [f], i) == Arguments(fs, i) + if Belongs(f, i) then f.arguments else ""
    ensures Calls(fs + [f])
         == var k := if f.index.Some? then f.index.value else 0;
            if k in Calls(fs) then Calls(fs) else Calls(fs) + [k]
  {
    assert (fs + [f])[..|fs|] == fs;
  }

  lemma FragmentHeld(a: Acc, fs: seq<Fragment>, f: Fragment)
    requires HoldsCalls(a, fs)
    ensures HoldsCalls(OnFragment(a, f), fs + [f])
  {
    hide LastId, LastName, Arguments, Calls;
    var b := OnFragment(a, f);
    var k := IndexOf(f);
    FragmentCounts(fs, f, k);
    if k !in a.tools {
      Unmentioned(fs, k);
    }
    forall i | i in b.tools
      ensures b.tools[i] == ToolCall(LastId(fs + [f], i), LastName(fs + [f], i), Arguments(fs + [f], i))
    {
      FragmentCounts(fs, f, i);
    }
  }

  lemma {:induction false} FragmentsHeld(a: Acc, fs: seq<Fragment>, more: seq<Fragment>)
    requires HoldsCalls(a, fs)
    ensures HoldsCalls(OnFragments(a, more), fs + more)
    ensures var b := OnFragments(a, more);
      b.(tools := a.tools, order := a.order, out := a.out) == a && TextDeltas(b.out) == TextDeltas(a.out)
  {
    hide HoldsCalls, OnFragment;
    if more == [] {
      assert fs + more == fs;
    } else {
      var n := |more| - 1;
      FragmentsHeld(a, fs, more[..n]);
      FragmentHeld(OnFragments(a, more[..n]), fs + more[..n], more[n]);
      FragmentIsQuiet(OnFragments(a, more[..n]), more[n]);
      assert fs + more[..n] + [more[n]] == fs + more;
    }
  }

  lemma FragmentIsQuiet(a: Acc, f: Fragment)
    ensures var b := OnFragment(a, f);
      b.(tools := a.tools, order := a.order, out := a.out) == a && TextDeltas(b.out) == TextDeltas(a.out)
  {
    hide TextDeltas;
    var b := Identify(a, f);
    if b.out != a.out {
      DeltasSnoc(a.out, b.out[|a.out|], 0);
    }
    if f.arguments != "" {
      DeltasSnoc(b.out, ArgsDelta(IndexOf(f), None, f.arguments), 0);
    }
  }

  /** The accumulators hold what the chunks said. */
  ghost predicate Holds(a: Acc, cs: seq<Chunk>) {
    && a.text == Content(cs) && (a.textEmitted <==> Content(cs) != "")
    && a.usage == LastUsage(cs) && a.finish == LastFinish(cs)
    && HoldsCalls(a, Fragments(cs))
    && a.head == (if HeadChunk(cs).None? then NO_RESPONSE
                  else NO_RESPONSE.(id := HeadChunk(cs).value.id, created := HeadChunk(cs).value.created,
                                    model := HeadChunk(cs).value.model))
  }

  /** What one chunk adds to what was said. */
  lemma ChunkSays(cs: seq<Chunk>, c: Chunk)
    ensures var more := cs + [c];
      && Content(more) == Content(cs) + (if c.choice.Some? then c.choice.value.content else "")
      && Fragments(more) == Fragments(cs) + (if c.choice.Some? then c.choice.value.tools else [])
      && LastUsage(more) == (if c.usage.Some? then c.usage else LastUsage(cs))
      && LastFinish(more) == (if c.choice.Some? && c.choice.value.finish != "" then c.choice.value.finish
                              else LastFinish(cs))
      && HeadChunk(more) == if (HeadChunk(cs).None? || HeadChunk(cs).value.id == "") && (c.id != "" || c.model != "")
                            then Some(c) else HeadChunk(cs)
  {
    assert (cs + [c])[..|cs|] == cs;
  }

  /** And to the accumulators other than the calls. */
  lemma ChunkFields(a: Acc, c: Chunk, fs: seq<Fragment>)
    requires HoldsCalls(a, fs)
    ensures var b := OnChunk(a, c);
      var content := if c.choice.Some? then c.choice.value.content else "";
      && HoldsCalls(b, fs + (if c.choice.Some? then c.choice.value.tools else []))
      && b.text == a.text + content && b.textEmitted == (a.textEmitted || content != "")
      && b.usage == (if c.usage.Some? then c.usage else a.usage)
      && b.finish == (if c.choice.Some? && c.choice.value.finish != "" then c.choice.value.finish else a.finish)
      && b.head == if a.head.id == "" && (c.id != "" || c.model != "")
                   then NO_RESPONSE.(id := c.id, created := c.created, model := c.model) else a.head
  {
    hide HoldsCalls, TextDeltas, Greeting, OnFragments;
    var b := OnUsage(OnHead(a, c), c.usage);
    if c.choice.Some? {
      var d := OnText(b, c.choice.value.content);
      SameCalls(a, d, fs);
      FragmentsHeld(d, fs, c.choice.value.tools);
      SameCalls(OnFragments(d, c.choice.value.tools), OnChunk(a, c), fs + c.choice.value.tools);
    } else {
      assert fs + [] == fs;
      SameCalls(a, b, fs);
    }
  }

  lemma {:induction false} FoldHolds(cs: seq<Chunk>)
    ensures Holds(Folded(cs), cs)
  {
    if cs != [] {
      var n := |cs| - 1;
      assert cs[..n] + [cs[n]] == cs;
      FoldHolds(cs[..n]);
      ChunkSays(cs[..n], cs[n]);
      ChunkFields(Folded(cs[..n]), cs[n], Fragments(cs[..n]));
      hide HoldsCalls, OnChunk, Content, Fragments, LastUsage, LastFinish, HeadChunk;
    }
  }

  lemma SameCalls(a: Acc, b: Acc, fs: seq<Fragment>)
    requires HoldsCalls(a, fs) && b.tools == a.tools && b.order == a.order
    ensures HoldsCalls(b, fs)
  {
  }

  lemma {:induction false} ItemsAreCalls(a: Acc, fs: seq<Fragment>, order: seq<int>)
    requires HoldsCalls(a, fs) && forall i :: i in order ==> i in a.tools
    ensures Items(a, order) == ToolCalls(fs, order)
  {
    if order != [] {
      assert order[|order| - 1] in order;
      ItemsAreCalls(a, fs, order[..|order| - 1]);
    }
  }

  // ---- The theorems ----

  /** The adapter completes exactly when the stream was opened, the terminator came
      before anything that breaks a stream, the read did not fail and the deadline has
      not passed; otherwise its error says what happened first. */
  lemma CompletesExactlyWhen(u: Upstream)
    ensures var end := EndFrame(u.frames);
      Script(u).error
      == if u.opening.Some? then u.opening
         else if end == Some(Interrupted) then Some(Timeout)
         else if end == Some(Malformed) then Some(Server)
         else if u.tail == ReadFailed then Some(Network)
         else if u.expired then Some(Timeout)
         else if end == Some(Terminator) then None
         else Some(Network)
  {
    ReadFolds([], u.frames);
    EndIsEnd(u.frames);
    hide Read, Closing, Tracked, EndFrame;
    if u.opening.None? {
      ScriptByStop(u);
    }
  }

  lemma {:induction false} EndIsEnd(frames: seq<Frame>)
    ensures var end := EndFrame(frames);
      end.Some? ==> end.value.Terminator? || end.value.Interrupted? || end.value.Malformed?
    decreases |frames|
  {
    if frames != [] {
      EndIsEnd(frames[1..]);
    }
  }

  /** Nothing the upstream said is lost, altered or made up: whether the stream
      completes or breaks, its text deltas are the content of its chunks and its
      argument deltas are, call by call, the fragments' arguments. */
  lemma DeltasAreTheUpstreams(u: Upstream, i: int)
    requires u.opening.None?
    ensures var cs := Chunks(u.frames);
      && TextDeltas(Script(u).events) == Content(cs)
      && ArgsDeltas(Script(u).events, i) == Arguments(Fragments(cs), i)
      && Indices(Script(u).events) == Calls(Fragments(cs))
  {
    var cs := Chunks(u.frames);
    var a := Folded(cs);
    AccIsFolded(u);
    FoldHolds(cs);
    BeginFaithful();
    ReadFaithful(BEGIN, u.frames);
    FaithfulMeans(a);
    assert i !in a.tools ==> ArgsDeltas(a.out, i) == "";
    if i !in a.tools {
      Unmentioned(Fragments(cs), i);
    }
    ScriptByStop(u);
    ClosingIsQuiet(a, i);
    hide Script, Closing, Read, Content, Fragments, Folded, Chunks, Faithful;
  }

  lemma AccIsFolded(u: Upstream)
    ensures Read(BEGIN, u.frames).0 == Folded(Chunks(u.frames))
  {
    ReadFolds([], u.frames);
    assert [] + Chunks(u.frames) == Chunks(u.frames);
    assert Folded([]) == BEGIN;
  }

  /** And the completed response is the upstream's: its head, its calls in order of
      first appearance with their last identity and all their arguments, then its
      text, the last usage it reported, and its last finish reason in the domain's
      words, which also decides the status. */
  lemma ResponseIsTheUpstreams(u: Upstream)
    requires Script(u).error.None?
    ensures var cs := Chunks(u.frames);
      var es := Script(u).events;
      && es != [] && es[|es| - 1].Completed? && es[|es| - 1].response.Some?
      && var r := es[|es| - 1].response.value;
      var fs := Fragments(cs);
      var finish := LastFinish(cs);
      && r.output == ToolCalls(fs, Calls(fs)) + (if Content(cs) == "" then [] else [Text(Content(cs))])
      && r.usage == LastUsage(cs)
      && (r.finish == "length" <==> finish == "length")
      && (r.finish == "tool_calls" <==> finish == "tool_calls" || finish == "function_call")
      && (r.finish == "" <==> finish == "")
      && (r.finish == "stop" <==> finish !in {"length", "tool_calls", "function_call", ""})
      && r.status == (if finish == "length" then "incomplete" else "completed")
      && (HeadChunk(cs).None? ==> r.id == r.model == "" && r.created == 0)
      && (HeadChunk(cs).Some? ==>
            && r.id == HeadChunk(cs).value.id && r.model == HeadChunk(cs).value.model
            && r.created == HeadChunk(cs).value.created)
  {
    var cs := Chunks(u.frames);
    var a := Folded(cs);
    FinalIsLast(u);
    FoldHolds(cs);
    TrackedOrder(a);
    ItemsAreCalls(a, Fragments(cs), a.order);
    hide Script, Items, ToolCalls, Content, LastUsage, LastFinish, HeadChunk, Fragments, Calls, Folded, Chunks;
  }

  lemma FinalIsLast(u: Upstream)
    requires Script(u).error.None?
    ensures var a := Folded(Chunks(u.frames));
      var es := Script(u).events;
      Tracked(a) && es != [] && es[|es| - 1] == Completed(Some(Final(a)))
  {
    AccIsFolded(u);
    ScriptByStop(u);
    var a := Folded(Chunks(u.frames));
    ClosingSplit(a);
    hide Read, Dones, Final, Folded, Chunks, Closing, Script, Tracked;
  }

  /** From the upstream to the chat client: when the adapter completes, what the client
      puts together from its chunks is the upstream's content and, for every call, the
      upstream's arguments. */
  lemma ChatClientGetsTheUpstream(u: Upstream, i: int)
    requires Script(u).error.None?
    ensures var cs := Chunks(u.frames);
      var s := Chat.Fold(Chat.BEGIN, Script(u).events);
      && Chat.ContentOf(s.chunks) == Content(cs)
      && (i in Calls(Fragments(cs)) ==>
            Chat.Assembled(s.chunks, i).arguments == Arguments(Fragments(cs), i))
  {
    hide *;
    Chat.ChatStreamIsExact(u);
    CompletedIsFaithful(u);
    CompletesExactlyWhen(u);
    DeltasAreTheUpstreams(u, i);
    SaysByCall(u, i);
  }

  lemma SaysByCall(u: Upstream, i: int)
    requires u.opening.None? && Script(u).error.None?
    ensures var es := Script(u).events;
      && es != [] && es[|es| - 1].Completed? && es[|es| - 1].response.Some?
      && var output := es[|es| - 1].response.value.output;
      && TextOf(output) == TextDeltas(es) && |CallsOf(output)| == |Indices(es)|
      && (i in Indices(es) ==>
            exists k ::
              0 <= k < |Indices(es)| && Indices(es)[k] == i && CallsOf(output)[k].arguments == ArgsDeltas(es, i))
  {
    CompletedIsFaithful(u);
    hide Script, TextOf, CallsOf, TextDeltas, ArgsDeltas, Indices;
  }
}
