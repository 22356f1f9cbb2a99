/** Domain stream events (internal/model/model.go) and how a consumer takes them:
    the vocabulary shared by the adapters, the retry loop and the SSE encoders. */
module Streams {
  import opened Common

  datatype Usage = Usage(prompt: int, completion: int, total: int, known: bool)

  datatype ToolCall = ToolCall(id: string, name: string, arguments: string)

  datatype Item = Text(text: string) | Refusal(text: string) | Call(call: ToolCall)

  datatype Response = Response(id: string, created: int, model: string, status: string, output: seq<Item>,
                               usage: Option<Usage>, finish: string)

  const NO_RESPONSE: Response := Response("", 0, "", "", [], None, "")

  datatype Event =
    | Created(response: Option<Response>)
    | TextDelta(delta: string)
    | TextDone(text: string)
    | ArgsDelta(index: int, call: Option<ToolCall>, delta: string)
    | ArgsDone(index: int, call: Option<ToolCall>)
    | Completed(response: Option<Response>)
    | FailedEvent

  datatype ErrClass = Network | RateLimited | Server | Timeout | Invalid | Internal

  predicate RetryEligible(e: ErrClass) {
    e == Network || e == RateLimited || e == Server || e == Timeout
  }

  // ---- What events and responses say ----

  /** All text outputs, concatenated. */
  function TextOf(output: seq<Item>): string {
    if output == [] then ""
    else TextOf(output[..|output| - 1]) + (if output[|output| - 1].Text? then output[|output| - 1].text else "")
  }

  /** All tool calls, in order. */
  function CallsOf(output: seq<Item>): seq<ToolCall> {
    if output == [] then []
    else CallsOf(output[..|output| - 1]) + (if output[|output| - 1].Call? then [output[|output| - 1].call] else [])
  }

  lemma OutputSnoc(output: seq<Item>, item: Item)
    ensures TextOf(output + [item]) == TextOf(output) + (if item.Text? then item.text else "")
    ensures CallsOf(output + [item]) == CallsOf(output) + (if item.Call? then [item.call] else [])
  {
    assert (output + [item])[..|output|] == output;
  }

  /** The text a stream has delivered: its text deltas. */
  function TextDeltas(es: seq<Event>): string {
    if es == [] then ""
    else TextDeltas(es[..|es| - 1]) + (if es[|es| - 1].TextDelta? then es[|es| - 1].delta else "")
  }

  /** The arguments delivered for one tool index: its argument deltas. */
  function ArgsDeltas(es: seq<Event>, index: int): string {
    if es == [] then ""
    else
      var e := es[|es| - 1];
      ArgsDeltas(es[..|es| - 1], index) + (if e.ArgsDelta? && e.index == index then e.delta else "")
  }

  /** Tool indices in order of first appearance. */
  function Indices(es: seq<Event>): seq<int> {
    if es == [] then []
    else
      var before := Indices(es[..|es| - 1]);
      var e := es[|es| - 1];
      if e.ArgsDelta? && e.index !in before then before + [e.index] else before
  }

  /** The head a stream last announced. */
  function Announced(es: seq<Event>): Response {
    if es == [] then NO_RESPONSE
    else
      var e := es[|es| - 1];
      if e.Created? && e.response.Some? then
        NO_RESPONSE.(id := e.response.value.id, created := e.response.value.created, model := e.response.value.model)
      else Announced(es[..|es| - 1])
  }

  lemma AnnouncedSnoc(es: seq<Event>, e: Event)
    ensures Announced(es + [e])
         == if e.Created? && e.response.Some? then
              NO_RESPONSE.(id := e.response.value.id, created := e.response.value.created,
                           model := e.response.value.model)
            else Announced(es)
  {
    assert (es + [e])[..|es|] == es;
  }

  lemma DeltasSnoc(es: seq<Event>, e: Event, index: int)
    ensures TextDeltas(es + [e]) == TextDeltas(es) + (if e.TextDelta? then e.delta else "")
    ensures ArgsDeltas(es + [e], index) == ArgsDeltas(es, index) + (if e.ArgsDelta? && e.index == index then e.delta
        else "")
    ensures Indices(es + [e]) == if e.ArgsDelta? && e.index !in Indices(es) then Indices(es) + [e.index]
        else Indices(es)
  {
    assert (es + [e])[..|es|] == es;
  }

  // ---- Attempts and consumers ----

  /** What one provider call emits when nobody refuses an event, and the error it
      then returns. */
  datatype Attempt = Attempt(events: seq<Event>, error: Option<ErrClass>)

  /** The adapter contract: the terminal event is emitted last, and exactly by the
      calls that return no error. */
  predicate WellEnded(a: Attempt) {
    && (forall i :: 0 <= i < |a.events| - 1 ==> !a.events[i].Completed?)
    && (a.error.None? <==> a.events != [] && a.events[|a.events| - 1].Completed?)
  }

  /** What a consumer got of an attempt, and the error the attempt then returns. */
  datatype Taken = Taken(events: seq<Event>, error: Option<ErrClass>)

  /** An attempt whose event number refused is refused, if that is one of its
      events: adapters stop there and turn the refusal into an internal error. */
  function Take(a: Attempt, refused: Option<nat>): Taken {
    if refused.Some? && refused.value < |a.events| then Taken(a.events[..refused.value], Some(Internal))
    else Taken(a.events, a.error)
  }

  /** Whether a consumer that has been given some events takes another one. */
  type Taste = (seq<Event>, Event) -> bool

  /** The first of these events it refuses, given those before. */
  function FirstRefused(accepts: Taste, given: seq<Event>, es: seq<Event>): (r: Option<nat>)
    ensures r.Some? ==> r.value < |es|
  {
    if es == [] then None
    else
      var n := |es| - 1;
      var before := FirstRefused(accepts, given, es[..n]);
      if before.Some? then before
      else if accepts(given + es[..n], es[n]) then None
      else Some(n)
  }

  lemma RefusedSnoc(accepts: Taste, given: seq<Event>, es: seq<Event>, e: Event)
    requires FirstRefused(accepts, given, es).None?
    ensures FirstRefused(accepts, given, es + [e]) == if accepts(given + es, e) then None else Some(|es|)
    ensures (es + [e])[..|es|] == es && given + es + [e] == given + (es + [e])
  {
    assert (es + [e])[..|es|] == es;
  }

  /** A refusal stands, whatever would have come after it. */
  lemma {:induction false} RefusedPrefix(accepts: Taste, given: seq<Event>, es: seq<Event>, more: seq<Event>)
    requires es <= more && FirstRefused(accepts, given, es).Some?
    ensures FirstRefused(accepts, given, more) == FirstRefused(accepts, given, es)
  {
    if |more| > |es| {
      RefusedPrefix(accepts, given, es, more[..|more| - 1]);
    } else {
      assert more == es;
    }
  }

  /** The emit callback. */
  class Sink {
    const accepts: Taste
    var delivered: seq<Event>

    constructor (accepts: Taste)
      ensures this.accepts == accepts && delivered == []
    {
      this.accepts, delivered := accepts, [];
    }

    method Emit(e: Event) returns (ok: bool)
      modifies this
      ensures ok <==> accepts(old(delivered), e)
      ensures delivered == if ok then old(delivered) + [e] else old(delivered)
    {
      ok := accepts(delivered, e);
      if ok {
        delivered := delivered + [e];
      }
    }
  }
}
