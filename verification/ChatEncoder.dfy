/** The chat.completion.chunk encoder (internal/httpapi/chatwire.go): it writes one
    chunk per delta and reassembles exactly what it delivered. */
module ChatEncoder {
  import opened Common
  import opened Streams
  import O = OpenAIStream

  /** One tool_calls entry of a chunk. */
  datatype ToolFragment = ToolFragment(index: int, id: string, name: string, arguments: string)

  /** One SSE data chunk; a set finish reason marks the last one. */
  datatype Chunk = Chunk(id: string, created: int, model: string, content: string, tool: Option<ToolFragment>,
                         finish: string, usage: Option<Usage>)

  datatype State = State(id: string, created: int, model: string, usage: Option<Usage>, finish: string, text: string,
                         toolArgs: map<int, string>, toolOrder: seq<int>, toolMeta: map<int, ToolCall>,
                         openTools: set<int>, toolSeen: bool, chunks: seq<Chunk>)

  const BEGIN: State := State("", 0, "", None, "", "", map[], [], map[], {}, false, [])

  function WriteChunk(s: State, content: string, tool: Option<ToolFragment>, finish: string): State {
    s.(chunks := s.chunks + [Chunk(s.id, s.created, s.model, content, tool, finish, s.usage)])
  }

  function Args(s: State, index: int): string {
    if index in s.toolArgs then s.toolArgs[index] else ""
  }

  function OnArgsDelta(s: State, index: int, call: Option<ToolCall>, delta: string): State {
    var t := s.(toolArgs := s.toolArgs[index := Args(s, index) + delta],
                toolOrder := if index in s.toolArgs then s.toolOrder else s.toolOrder + [index],
                openTools := s.openTools + {index}, toolSeen := true);
    var opens := index !in s.openTools && call.Some?;
    WriteChunk(t, "", Some(ToolFragment(index, if opens then call.value.id else "",
                                        if opens then call.value.name else "", delta)), "")
  }

  /** The adapter's assembled arguments win when present. */
  function OnArgsDone(s: State, index: int, call: Option<ToolCall>): State {
    var c := call.GetOr(ToolCall("", "", ""));
    s.(toolMeta := s.toolMeta[index := c.(arguments := if c.arguments != "" then c.arguments else Args(s, index))],
       openTools := s.openTools - {index})
  }

  function OnCompleted(s: State, r: Option<Response>): State {
    var reported := if r.Some? then r.value.finish else "";
    var finish := if reported != "" then reported else if s.toolSeen then "tool_calls" else "stop";
    var t := s.(usage := if r.Some? && r.value.usage.Some? then r.value.usage else s.usage, finish := finish);
    WriteChunk(t, "", None, finish)
  }

  function Handle(s: State, e: Event): State {
    match e
    case Created(r) =>
      if r.Some? then s.(id := r.value.id, created := r.value.created, model := r.value.model, usage := r.value.usage)
          else s
    case TextDelta(delta) => WriteChunk(s.(text := s.text + delta), delta, None, "")
    case ArgsDelta(index, call, delta) => OnArgsDelta(s, index, call, delta)
    case ArgsDone(index, call) => OnArgsDone(s, index, call)
    case Completed(r) => OnCompleted(s, r)
    case TextDone(_) => s
    case FailedEvent => s
  }

  function Fold(s: State, es: seq<Event>): State {
    if es == [] then s else Handle(Fold(s, es[..|es| - 1]), es[|es| - 1])
  }

  lemma FoldSnoc(s: State, es: seq<Event>, e: Event)
    ensures Fold(s, es + [e]) == Handle(Fold(s, es), e)
  {
    assert (es + [e])[..|es|] == es;
  }

  // ---- The assembled response ----

  function Calls(s: State, order: seq<int>): seq<Item> {
    if order == [] then []
    else
      var index := order[|order| - 1];
      Calls(s, order[..|order| - 1]) + (if index in s.toolMeta then [Item.Call(s.toolMeta[index])] else [])
  }

  function FinalResponse(s: State): Response {
    Response(s.id, s.created, s.model, "completed", 
             (if s.text != "" then [Text(s.text)] else []) + Calls(s, s.toolOrder),
             s.usage, s.finish)
  }

  // ---- What the client can put together ----

  function ContentOf(cs: seq<Chunk>): string {
    if cs == [] then "" else ContentOf(cs[..|cs| - 1]) + cs[|cs| - 1].content
  }

  /** Fragments of one index, concatenated field by field as clients do. */
  function Assembled(cs: seq<Chunk>, index: int): ToolCall {
    if cs == [] then ToolCall("", "", "")
    else
      var before := Assembled(cs[..|cs| - 1], index);
      var c := cs[|cs| - 1];
      if c.tool.Some? && c.tool.value.index == index then
        ToolCall(before.id + c.tool.value.id, before.name + c.tool.value.name,
                 before.arguments + c.tool.value.arguments)
      else before
  }

  lemma ChunkSnoc(cs: seq<Chunk>, c: Chunk, index: int)
    ensures ContentOf(cs + [c]) == ContentOf(cs) + c.content
    ensures Assembled(cs + [c], index)
         == if c.tool.Some? && c.tool.value.index == index then
              ToolCall(Assembled(cs, index).id + c.tool.value.id, Assembled(cs, index).name + c.tool.value.name,
                       Assembled(cs, index).arguments + c.tool.value.arguments)
            else Assembled(cs, index)
  {
    assert (cs + [c])[..|cs|] == cs;
  }

  /** The identity on a tool call's opening delta. */
  function Opening(es: seq<Event>, index: int): Option<ToolCall> {
    if es == [] then None
    else
      var before := Opening(es[..|es| - 1], index);
      var e := es[|es| - 1];
      if before.None? && e.ArgsDelta? && e.index == index then Some(e.call.GetOr(ToolCall("", "", ""))) else before
  }

  lemma OpeningSnoc(es: seq<Event>, e: Event, index: int)
    ensures Opening(es + [e], index)
         == if Opening(es, index).None? && e.ArgsDelta? && e.index == index
             then Some(e.call.GetOr(ToolCall("", "", "")))
            else Opening(es, index)
  {
    assert (es + [e])[..|es|] == es;
  }

  // ---- Invariants ----

  /** For any events at all: what was written reassembles to what is recorded. */
  ghost predicate Wired(s: State) {
    && ContentOf(s.chunks) == s.text
    && forall index :: Assembled(s.chunks, index).arguments == Args(s, index)
  }

  lemma HandleWired(s: State, e: Event)
    requires Wired(s)
    ensures Wired(Handle(s, e))
  {
    var t := Handle(s, e);
    hide ContentOf, Assembled;
    if t.chunks != s.chunks {
      forall index ensures Assembled(t.chunks, index).arguments == Args(t, index) {
        ChunkSnoc(s.chunks, t.chunks[|s.chunks|], index);
      }
      ChunkSnoc(s.chunks, t.chunks[|s.chunks|], 0);
    }
  }

  /** What the client assembles is what the encoder recorded, whatever the
      upstream sent: text and every call's arguments. */
  lemma {:induction false} ClientSeesWhatIsRecorded(es: seq<Event>)
    ensures Wired(Fold(BEGIN, es))
  {
    if es != [] {
      ClientSeesWhatIsRecorded(es[..|es| - 1]);
      HandleWired(Fold(BEGIN, es[..|es| - 1]), es[|es| - 1]);
    }
  }

  /** While deltas arrive, the state mirrors the events. */
  ghost predicate Mirrors(s: State, es: seq<Event>) {
    && Announced(es) == NO_RESPONSE.(id := s.id, created := s.created, model := s.model)
    && s.text == TextDeltas(es)
    && s.toolOrder == Indices(es)
    && (forall i :: i in s.toolArgs <==> i in s.toolOrder)
    && (forall i :: Args(s, i) == ArgsDeltas(es, i))
    && (forall i :: i in s.openTools <==> i in s.toolArgs)
    && (s.toolSeen <==> s.toolOrder != [])
    && s.toolMeta == map[]
  }

  /** How one event moves each of the readings. */
  lemma Readings(es: seq<Event>, e: Event)
    ensures forall i :: ArgsDeltas(es + [e], i) == ArgsDeltas(es, i) + (if e.ArgsDelta? && e.index == i then e.delta
        else "")
    ensures TextDeltas(es + [e]) == TextDeltas(es) + (if e.TextDelta? then e.delta else "")
    ensures Indices(es + [e]) == if e.ArgsDelta? && e.index !in Indices(es) then Indices(es) + [e.index]
        else Indices(es)
    ensures !e.Created? ==> Announced(es + [e]) == Announced(es)
  {
    hide TextDeltas, ArgsDeltas, Indices, Announced;
    forall i ensures ArgsDeltas(es + [e], i) == ArgsDeltas(es, i) + (if e.ArgsDelta? && e.index == i then e.delta
        else "") {
      DeltasSnoc(es, e, i);
    }
    DeltasSnoc(es, e, 0);
    AnnouncedSnoc(es, e);
  }

  lemma ArgsMirrors(s: State, es: seq<Event>, index: int, call: Option<ToolCall>, delta: string)
    requires Mirrors(s, es)
    ensures Mirrors(OnArgsDelta(s, index, call, delta), es + [ArgsDelta(index, call, delta)])
  {
    hide TextDeltas, ArgsDeltas, Indices, Announced;
    Readings(es, ArgsDelta(index, call, delta));
    var t := OnArgsDelta(s, index, call, delta);
    assert forall i :: i in t.toolOrder <==> i in s.toolOrder || i == index;
  }

  lemma HandleMirrors(s: State, es: seq<Event>, e: Event)
    requires Mirrors(s, es) && (e.Created? || e.TextDelta? || e.ArgsDelta?)
    ensures Mirrors(Handle(s, e), es + [e])
  {
    hide TextDeltas, ArgsDeltas, Indices, Announced, OnArgsDelta;
    match e {
      case Created(_) =>
        Readings(es, e);
        AnnouncedSnoc(es, e);
      case TextDelta(_) =>
        Readings(es, e);
      case ArgsDelta(index, call, delta) =>
        ArgsMirrors(s, es, index, call, delta);
    }
  }

  lemma {:induction false} FoldMirrors(es: seq<Event>)
    requires O.Streaming(es)
    ensures Mirrors(Fold(BEGIN, es), es)
    ensures Fold(BEGIN, es).usage.None?
  {
    if es != [] {
      var n := |es| - 1;
      assert es[n] in es;
      FoldMirrors(es[..n]);
      HandleMirrors(Fold(BEGIN, es[..n]), es[..n], es[n]);
      assert es[..n] + [es[n]] == es;
      hide Mirrors;
    }
  }

  // ---- End of a completed OpenAI stream ----

  /** After the ends of the first k calls. */
  ghost predicate Ended(s: State, a: O.Acc, k: nat)
    requires O.Tracked(a) && k <= |a.order|
  {
    && a.head == NO_RESPONSE.(id := s.id, created := s.created, model := s.model)
    && s.text == a.text && s.toolOrder == a.order && s.usage.None?
    && (s.toolSeen <==> a.order != [])
    && (forall i :: i in a.tools ==> Args(s, i) == a.tools[i].arguments)
    && (forall j :: 0 <= j < k ==> Recorded(s, a, a.order[j]))
  }

  predicate Recorded(s: State, a: O.Acc, index: int) {
    index in a.tools && index in s.toolMeta && s.toolMeta[index] == a.tools[index]
  }

  lemma {:induction false} DonesFold(a: O.Acc, k: nat)
    requires O.Faithful(a) && k <= |a.order|
    ensures forall i :: i in a.order ==> i in a.tools
    ensures Ended(Fold(BEGIN, a.out + O.Dones(a, a.order[..k])), a, k)
  {
    hide TextDeltas, ArgsDeltas, Indices, Announced, Fold, O.Dones;
    if k == 0 {
      FoldMirrors(a.out);
      assert a.out + O.Dones(a, a.order[..0]) == a.out by { NoDones(a); }
    } else {
      DonesFold(a, k - 1);
      O.DonesStep(a, k - 1);
      var before := a.out + O.Dones(a, a.order[..k - 1]);
      FoldSnoc(BEGIN, before, ArgsDone(a.order[k - 1], Some(a.tools[a.order[k - 1]])));
    }
  }

  lemma NoDones(a: O.Acc)
    ensures O.Dones(a, a.order[..0]) == []
  {
  }

  lemma {:induction false} CallsAreItems(s: State, a: O.Acc, k: nat)
    requires O.Tracked(a) && k <= |a.order| && forall j :: 0 <= j < |a.order| ==> Recorded(s, a, a.order[j])
    ensures forall i :: i in a.order[..k] ==> i in a.tools
    ensures Calls(s, a.order[..k]) == O.Items(a, a.order[..k])
  {
    if k > 0 {
      CallsAreItems(s, a, k - 1);
      assert Recorded(s, a, a.order[k - 1]);
      assert a.order[..k][..k - 1] == a.order[..k - 1];
    }
  }

  /** What a finish reason becomes when the upstream gave none. */
  function FinishOf(r: Response): string {
    if r.finish != "" then r.finish else if CallsOf(r.output) != [] then "tool_calls" else "stop"
  }

  /** Two responses a client cannot tell apart by content. */
  predicate SameContent(a: Response, b: Response) {
    && a.id == b.id && a.created == b.created && a.model == b.model && a.usage == b.usage
    && TextOf(a.output) == TextOf(b.output) && CallsOf(a.output) == CallsOf(b.output)
  }

  /** The last two events only set the usage and the finish reason. */
  lemma TailFold(a: O.Acc, s0: State)
    requires O.Tracked(a) && s0 == Fold(BEGIN, a.out + O.Dones(a, a.order))
    ensures var s := Fold(BEGIN, a.out + O.Closing(a));
      && s == s0.(usage := if a.usage.Some? then a.usage else s0.usage, finish := s.finish, chunks := s.chunks)
      && s.finish == if O.Final(a).finish != "" then O.Final(a).finish else if s0.toolSeen then "tool_calls" else "stop"
  {
    O.ClosingSplit(a);
    hide O.Dones, O.Closing, Fold, O.Tracked, O.Items, O.NormalizeFinish;
    var dones := a.out + O.Dones(a, a.order);
    FoldSnoc(BEGIN, dones, TextDone(a.text));
    FoldSnoc(BEGIN, dones + [TextDone(a.text)], Completed(Some(O.Final(a))));
    FoldSnoc(BEGIN, dones, Completed(Some(O.Final(a))));
  }

  lemma CompletedFold(a: O.Acc)
    requires O.Faithful(a)
    ensures var s := Fold(BEGIN, a.out + O.Closing(a));
      SameContent(FinalResponse(s), O.Final(a)) && s.finish == FinishOf(O.Final(a))
  {
    AllDonesFold(a);
    O.SilentText(a);
    O.FinalSays(a);
    hide O.Faithful, O.Dones, O.Closing, Fold, CallsOf, TextOf, Calls, O.Items, O.Tracked;
    var s0 := Fold(BEGIN, a.out + O.Dones(a, a.order));
    TailFold(a, s0);
    var s := Fold(BEGIN, a.out + O.Closing(a));
    CallsByMeta(s, s0, a.order);
    FinalOutput(s, a);
    FinalCalls(a);
  }

  lemma AllDonesFold(a: O.Acc)
    requires O.Faithful(a)
    ensures forall i :: i in a.order ==> i in a.tools
    ensures var s := Fold(BEGIN, a.out + O.Dones(a, a.order));
      && a.head == NO_RESPONSE.(id := s.id, created := s.created, model := s.model)
      && s.text == a.text && s.toolOrder == a.order && s.usage.None? && (s.toolSeen <==> a.order != [])
      && Calls(s, a.order) == O.Items(a, a.order)
      && (forall i :: i in a.tools ==> Args(s, i) == a.tools[i].arguments)
  {
    DonesFold(a, |a.order|);
    hide O.Faithful, O.Dones, Fold, Calls, O.Items;
    assert a.order[..|a.order|] == a.order;
    CallsAreItems(Fold(BEGIN, a.out + O.Dones(a, a.order)), a, |a.order|);
  }

  lemma FinalCalls(a: O.Acc)
    requires O.Tracked(a)
    ensures CallsOf(O.Final(a).output) == CallsOf(O.Items(a, a.order))
  {
    hide CallsOf, TextOf, O.Items;
    var items := O.Items(a, a.order);
    OutputSnoc(items, Text(a.text));
    if !a.textEmitted {
      assert items + [] == items;
    }
  }

  lemma {:induction false} CallsByMeta(s: State, t: State, order: seq<int>)
    requires s.toolMeta == t.toolMeta
    ensures Calls(s, order) == Calls(t, order)
  {
    if order != [] {
      CallsByMeta(s, t, order[..|order| - 1]);
    }
  }

  /** Text first or calls first, the content is the same. */
  lemma FinalOutput(s: State, a: O.Acc)
    requires O.Tracked(a) && s.text == a.text && Calls(s, s.toolOrder) == O.Items(a, a.order)
    ensures TextOf(FinalResponse(s).output) == a.text
    ensures CallsOf(FinalResponse(s).output) == CallsOf(O.Items(a, a.order))
  {
    O.TrackedOrder(a);
    O.ItemsSay(a, a.order);
    var items := O.Items(a, a.order);
    if s.text == "" {
      assert [] + items == items;
    } else {
      TextFirst(Text(s.text), items);
    }
  }

  lemma {:induction false} TextFirst(t: Item, items: seq<Item>)
    requires t.Text?
    ensures TextOf([t] + items) == t.text + TextOf(items)
    ensures CallsOf([t] + items) == CallsOf(items)
  {
    if items == [] {
      assert [t] + items == [t];
      OutputSnoc([], t);
    } else {
      var n := |items| - 1;
      TextFirst(t, items[..n]);
      assert [t] + items == ([t] + items[..n]) + [items[n]];
      OutputSnoc([t] + items[..n], items[n]);
    }
  }

  // ---- The identity a client dispatches by ----

  predicate NamedAt(s: State, es: seq<Event>, index: int) {
    var t, o := Assembled(s.chunks, index), Opening(es, index);
    && (index in s.openTools <==> o.Some?)
    && t.id == (if o.Some? then o.value.id else "") && t.name == (if o.Some? then o.value.name else "")
  }

  lemma NamedStep(s: State, es: seq<Event>, e: Event, index: int)
    requires NamedAt(s, es, index) && O.IsStreaming(e)
    ensures NamedAt(Handle(s, e), es + [e], index)
  {
    hide ContentOf, Assembled, Opening;
    OpeningSnoc(es, e, index);
    var t := Handle(s, e);
    if t.chunks != s.chunks {
      ChunkSnoc(s.chunks, t.chunks[|s.chunks|], index);
    }
  }

  /** Identity rides on the opening fragment only, so concatenating names is safe. */
  lemma {:induction false} ClientSeesOpeningName(es: seq<Event>, index: int)
    requires O.Streaming(es)
    ensures NamedAt(Fold(BEGIN, es), es, index)
  {
    if es != [] {
      var n := |es| - 1;
      assert es[n] in es;
      ClientSeesOpeningName(es[..n], index);
      hide NamedAt, Handle;
      NamedStep(Fold(BEGIN, es[..n]), es[..n], es[n], index);
      assert es[..n] + [es[n]] == es;
    }
  }

  // ---- End to end with the adapter ----

  /** Exactly the last chunk carries a finish reason. */
  predicate FinishedLast(cs: seq<Chunk>) {
    cs != [] && cs[|cs| - 1].finish != "" && forall i :: 0 <= i < |cs| - 1 ==> cs[i].finish == ""
  }

  lemma {:induction false} UnfinishedChunks(es: seq<Event>)
    requires forall e :: e in es ==> !e.Completed?
    ensures forall c :: c in Fold(BEGIN, es).chunks ==> c.finish == ""
  {
    if es != [] {
      assert es[|es| - 1] in es;
      UnfinishedChunks(es[..|es| - 1]);
    }
  }

  /** The assembled response is the adapter's, and so is what the client can put
      together from the chunks. For every chunk sequence the upstream may send: if
      the adapter completes, FinalResponse has the id, usage, text and tool calls of
      the adapter's completed response, the client's text and per-index arguments
      are those too, and the finish reason comes once, on the last chunk. */
  lemma ChatStreamIsExact(u: O.Upstream)
    requires O.Script(u).error.None?
    ensures var es := O.Script(u).events;
      var s := Fold(BEGIN, es);
      && es != [] && es[|es| - 1].Completed? && es[|es| - 1].response.Some?
      && var r := es[|es| - 1].response.value;
      && SameContent(FinalResponse(s), r) && s.finish == FinishOf(r)
      && ContentOf(s.chunks) == TextOf(r.output)
      && |CallsOf(r.output)| == |Indices(es)|
      && (forall k :: 0 <= k < |Indices(es)| ==>
        Assembled(s.chunks, Indices(es)[k]).arguments == CallsOf(r.output)[k].arguments)
      && FinishedLast(s.chunks)
  {
    hide O.Script, O.Closing, O.Final, Fold, CallsOf, TextOf, ContentOf, Assembled, Indices, O.Faithful, FinalResponse,
        O.Interior;
    var a := O.ScriptShape(u);
    var es := O.Script(u).events;
    var s := Fold(BEGIN, es);
    O.FaithfulMeans(a);
    CompletedFold(a);
    O.CompletedIsFaithful(u);
    ClientSeesWhatIsRecorded(es);
    var body := O.ClosingShape(a, es);
    ScriptReadings(a, es, s);
    FoldSnoc(BEGIN, body, Completed(Some(O.Final(a))));
    forall e | e in body ensures !e.Completed? {
      InteriorGoesOn(a, e);
    }
    UnfinishedChunks(body);
  }

  lemma InteriorGoesOn(a: O.Acc, e: Event)
    ensures O.Interior(a, e) ==> !e.Completed?
  {
  }

  /** The recorded text and arguments, as readings of the whole script. */
  lemma ScriptReadings(a: O.Acc, es: seq<Event>, s: State)
    requires O.Faithful(a) && es == a.out + O.Closing(a) && s == Fold(BEGIN, es)
    ensures s.text == TextDeltas(es)
    ensures forall i :: i in Indices(es) ==> Args(s, i) == ArgsDeltas(es, i)
  {
    hide O.Faithful, O.Closing, O.Dones, Fold, TextDeltas, ArgsDeltas, Indices, O.Tracked, Calls, O.Items;
    O.FaithfulMeans(a);
    O.TrackedOrder(a);
    AllDonesFold(a);
    TailFold(a, Fold(BEGIN, a.out + O.Dones(a, a.order)));
    O.ClosingIsQuiet(a, 0);
    forall i | i in Indices(es) ensures Args(s, i) == ArgsDeltas(es, i) {
      O.ClosingIsQuiet(a, i);
      assert i in a.order;
      assert i in a.tools;
    }
  }

  // ---- The object ----

  class ChatStreamEncoder {
    var id: string
    var created: int
    var model: string
    var usage: Option<Usage>
    var finish: string
    var text: string
    var toolArgs: map<int, string>
    var toolOrder: seq<int>
    var toolMeta: map<int, ToolCall>
    var openTools: set<int>
    var toolSeen: bool
    /** What reached the client. */
    var chunks: seq<Chunk>

    constructor ()
      ensures View() == BEGIN
    {
      id, created, model, usage, finish, text := "", 0, "", None, "", "";
      toolArgs, toolOrder, toolMeta, openTools, toolSeen, chunks := map[], [], map[], {}, false, [];
    }

    function View(): State
      reads this
    {
      State(id, created, model, usage, finish, text, toolArgs, toolOrder, toolMeta, openTools, toolSeen, chunks)
    }

    /** writes says whether the connection takes the chunk. */
    method Write(content: string, tool: Option<ToolFragment>, reason: string, writes: bool) returns (ok: bool)
      modifies this`chunks
      ensures ok == writes
      ensures View() == if ok then WriteChunk(old(View()), content, tool, reason) else old(View())
    {
      if writes {
        chunks := chunks + [Chunk(id, created, model, content, tool, reason, usage)];
      }
      return writes;
    }

    method AppendArguments(index: int, call: Option<ToolCall>, delta: string, writes: bool) returns (ok: bool)
      modifies this
      ensures ok ==> View() == OnArgsDelta(old(View()), index, call, delta)
      ensures ok == writes && (!ok ==> chunks == old(chunks))
    {
      if index !in toolArgs {
        toolArgs := toolArgs[index := ""];
        toolOrder := toolOrder + [index];
      }
      toolArgs := toolArgs[index := toolArgs[index] + delta];
      assert toolArgs == OnArgsDelta(old(View()), index, call, delta).toolArgs;
      var fragment := ToolFragment(index, "", "", delta);
      if index !in openTools {
        if call.Some? {
          fragment := fragment.(id := call.value.id, name := call.value.name);
        }
        openTools := openTools + {index};
      } else {
        assert openTools == openTools + {index};
      }
      toolSeen := true;
      ok := Write("", Some(fragment), "", writes);
    }

    method HandleEvent(e: Event, writes: bool) returns (ok: bool)
      modifies this
      ensures ok ==> View() == Handle(old(View()), e)
      ensures !ok <==> !writes && (e.TextDelta? || e.ArgsDelta? || e.Completed?)
      ensures !ok ==> chunks == old(chunks)
    {
      ok := true;
      match e {
        case Created(r) =>
          if r.Some? {
            id, created, model, usage := r.value.id, r.value.created, r.value.model, r.value.usage;
          }
        case TextDelta(delta) =>
          text := text + delta;
          ok := Write(delta, None, "", writes);
        case ArgsDelta(index, call, delta) =>
          ok := AppendArguments(index, call, delta, writes);
        case ArgsDone(index, call) =>
          var assembled := if index in toolArgs then toolArgs[index] else "";
          var c := call.GetOr(ToolCall("", "", ""));
          if c.arguments != "" {
            assembled := c.arguments;
          }
          toolMeta := toolMeta[index := c.(arguments := assembled)];
          openTools := openTools - {index};
        case TextDone(_) =>
        case FailedEvent =>
        case Completed(r) =>
          var reason := "";
          if r.Some? {
            reason := r.value.finish;
            if r.value.usage.Some? {
              usage := r.value.usage;
            }
          }
          finish := reason;
          if reason == "" {
            reason := if toolSeen then "tool_calls" else "stop";
            finish := reason;
          }
          ok := Write("", None, reason, writes);
      }
    }
  }
}
