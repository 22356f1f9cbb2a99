/** The rune-safe sharding loop of the mock provider (internal/provider/fake.go),
    against well-formedness as section 4 of RFC 3629 defines it. */
module Utf8Shard {
  import opened Common

  type Byte = b: int | 0 <= b < 256
  type Bytes = seq<Byte>

  const CHUNK: nat := 8

  /** A continuation byte, the negation of Go's utf8.RuneStart. */
  predicate Tail(b: Byte) {
    0x80 <= b <= 0xBF
  }

  // ---- Well-formed UTF-8 ----

  /** Length of the well-formed character at the front of s, 0 if there is none. */
  function CharLen(s: Bytes): (n: nat)
    ensures n <= 4 && n <= |s|
    ensures n > 0 ==> !Tail(s[0]) && forall k :: 1 <= k < n ==> Tail(s[k])
  {
    if |s| >= 1 && s[0] <= 0x7F then 1
    else if |s| >= 2 && 0xC2 <= s[0] <= 0xDF && Tail(s[1]) then 2
    else if |s| >= 3 && Tail(s[2]) && Second3(s[0], s[1]) then 3
    else if |s| >= 4 && Tail(s[2]) && Tail(s[3]) && Second4(s[0], s[1]) then 4
    else 0
  }

  predicate Second3(a: Byte, b: Byte) {
    || (a == 0xE0 && 0xA0 <= b <= 0xBF)
    || ((0xE1 <= a <= 0xEC || 0xEE <= a <= 0xEF) && Tail(b))
    || (a == 0xED && 0x80 <= b <= 0x9F)
  }

  predicate Second4(a: Byte, b: Byte) {
    || (a == 0xF0 && 0x90 <= b <= 0xBF)
    || (0xF1 <= a <= 0xF3 && Tail(b))
    || (a == 0xF4 && 0x80 <= b <= 0x8F)
  }

  predicate WellFormed(s: Bytes)
    decreases |s|
  {
    s == [] || (CharLen(s) > 0 && WellFormed(s[CharLen(s)..]))
  }

  /** A position between characters. */
  predicate Boundary(s: Bytes, e: nat) {
    e <= |s| && (e < |s| ==> !Tail(s[e]))
  }

  lemma CharLenOfPrefix(s: Bytes, e: nat)
    requires 0 < CharLen(s) <= e <= |s|
    ensures CharLen(s[..e]) == CharLen(s)
  {
  }

  /** Cutting well-formed text at any byte that starts a rune leaves two
      well-formed pieces. */
  lemma {:induction false} CutAtBoundary(s: Bytes, e: nat)
    requires WellFormed(s) && Boundary(s, e)
    ensures WellFormed(s[..e]) && WellFormed(s[e..])
    decreases |s|
  {
    if e == 0 {
      assert s[e..] == s;
    } else if e == |s| {
      assert s[..e] == s;
    } else {
      var n := CharLen(s);
      assert n <= e;
      CharLenOfPrefix(s, e);
      hide CharLen, Tail;
      var rest := s[n..];
      assert rest[e - n] == s[e];
      CutAtBoundary(rest, e - n);
      Slices(s, n, e);
    }
  }

  lemma Slices(s: Bytes, n: nat, e: nat)
    requires n <= e <= |s|
    ensures s[n..][..e - n] == s[..e][n..] && s[n..][e - n..] == s[e..]
  {
  }

  // ---- The loop on values ----

  /** Where the inner loop stops when it starts at end: the last position at or
      below end that is the end of the text or starts a rune; None is the index
      below zero. */
  function StepBack(s: Bytes, end: nat): (r: Option<nat>)
    requires end <= |s|
    ensures r.Some? ==> r.value <= end && Boundary(s, r.value) && forall k :: r.value < k <= end ==>
      k < |s| && Tail(s[k])
    ensures r.None? ==> forall k :: 0 <= k <= end ==> k < |s| && Tail(s[k])
    decreases end
  {
    if end < |s| && Tail(s[end]) then (if end == 0 then None else StepBack(s, end - 1)) else Some(end)
  }

  function Min(a: int, b: int): int {
    if a < b then a else b
  }

  datatype Ending = Complete | Stalls | Panics

  /** The fragments from position i on, and how the loop ends: normally, emitting
      empty fragments for ever, or on an index below zero. */
  datatype Shards = Shards(fragments: seq<Bytes>, ending: Ending)

  function ShardFrom(s: Bytes, i: nat): Shards
    requires i <= |s|
    decreases |s| - i
  {
    if i == |s| then Shards([], Complete)
    else
      match StepBack(s, Min(i + CHUNK, |s|))
      case None => Shards([], Panics)
      case Some(end) =>
        if end < i then Shards([], Panics)
        else if end == i then Shards([], Stalls)
        else
          var rest := ShardFrom(s, end);
          Shards([s[i..end]] + rest.fragments, rest.ending)
  }

  // ---- What the loop promises ----

  function Joined(fragments: seq<Bytes>): Bytes {
    if fragments == [] then [] else fragments[0] + Joined(fragments[1..])
  }

  /** Eight continuation bytes in a row from k on. */
  predicate LongTail(s: Bytes, k: int) {
    1 <= k && k + CHUNK <= |s| && forall j :: k <= j < k + CHUNK ==> Tail(s[j])
  }

  /** One step from a boundary gets stuck exactly on a long tail right after it. */
  lemma StepFrom(s: Bytes, i: nat)
    requires i < |s| && (i == 0 || !Tail(s[i]))
    ensures var end := StepBack(s, Min(i + CHUNK, |s|));
      && (LongTail(s, i + 1) <==> end.None? || end.value <= i)
      && (end.Some? && end.value > i ==> !exists k :: i < k <= end.value && LongTail(s, k))
      && (end.Some? ==> end.value <= i + CHUNK)
  {
    var top := Min(i + CHUNK, |s|);
    var end := StepBack(s, top);
    if end.Some? && end.value > i {
      assert !LongTail(s, i + 1) by {
        assert end.value < |s| ==> !Tail(s[end.value]);
      }
      forall k | i < k <= end.value ensures !LongTail(s, k) {
        if end.value < |s| {
          assert !Tail(s[end.value]);
        }
      }
    } else {
      assert i + CHUNK < |s|;
    }
  }

  /** The loop completes if and only if nowhere after the first byte eight
      continuation bytes follow one another. */
  lemma {:induction false} CompletesIff(s: Bytes, i: nat)
    requires i <= |s| && (i == 0 || Boundary(s, i))
    ensures ShardFrom(s, i).ending.Complete? <==> forall k :: i < k ==> !LongTail(s, k)
    decreases |s| - i
  {
    if i < |s| {
      StepFrom(s, i);
      var end := StepBack(s, Min(i + CHUNK, |s|));
      if end.Some? && end.value > i {
        CompletesIff(s, end.value);
      }
    }
  }

  /** Well-formed text never has more than three in a row. */
  lemma {:induction false} WellFormedHasNoLongTail(s: Bytes, k: int)
    requires WellFormed(s)
    ensures !LongTail(s, k)
    decreases |s|
  {
    if s != [] {
      var n := CharLen(s);
      var rest := s[n..];
      WellFormedHasNoLongTail(rest, k - n);
      assert n < |s| ==> rest[0] == s[n] && !Tail(s[n]);
      assert k > n && LongTail(s, k) ==> LongTail(rest, k - n) by {
        assert forall j :: n <= j < |s| ==> rest[j - n] == s[j];
      }
    }
  }

  lemma JoinedTail(fragments: seq<Bytes>, k: nat)
    requires 0 < k <= |fragments|
    ensures Joined(fragments[..k]) == fragments[0] + Joined(fragments[1..][..k - 1])
  {
    assert fragments[..k][1..] == fragments[1..][..k - 1];
  }

  /** Where the first k fragments end, when the first starts at i. */
  function CutPoint(fragments: seq<Bytes>, i: nat, k: nat): nat
    requires k <= |fragments|
  {
    i + |Joined(fragments[..k])|
  }

  /** Each fragment ends at a rune start or at the end of the text. */
  lemma {:induction false} CutAt(s: Bytes, i: nat, k: nat)
    requires i <= |s| && 0 < k <= |ShardFrom(s, i).fragments|
    ensures Boundary(s, CutPoint(ShardFrom(s, i).fragments, i, k))
    decreases |s| - i
  {
    var r := ShardFrom(s, i);
    var end := StepBack(s, Min(i + CHUNK, |s|)).value;
    var rest := ShardFrom(s, end).fragments;
    assert r.fragments == [s[i..end]] + rest && Boundary(s, end);
    hide ShardFrom, StepBack, Boundary;
    JoinedTail(r.fragments, k);
    assert r.fragments[1..] == rest;
    if k > 1 {
      CutAt(s, end, k - 1);
    } else {
      assert rest[..0] == [] && Joined([]) == [];
    }
  }

  lemma {:induction false} FragmentSizes(s: Bytes, i: nat)
    requires i <= |s|
    ensures var r := ShardFrom(s, i);
      && (forall f :: f in r.fragments ==> 0 < |f| <= CHUNK)
      && Joined(r.fragments) <= s[i..]
      && (r.ending.Complete? ==> Joined(r.fragments) == s[i..])
    decreases |s| - i
  {
    var r := ShardFrom(s, i);
    if r.fragments != [] {
      var end := StepBack(s, Min(i + CHUNK, |s|)).value;
      FragmentSizes(s, end);
      assert r.fragments[1..] == ShardFrom(s, end).fragments;
      assert s[i..] == s[i..end] + s[end..];
    } else {
      assert s[i..] == if i == |s| then [] else s[i..];
    }
  }

  /** What was emitted, for every input: nothing empty, nothing over eight bytes,
      only cuts at rune starts, and together a prefix of the text that is the whole
      text when the loop completes. */
  lemma FragmentsOf(s: Bytes, i: nat)
    requires i <= |s|
    ensures var r := ShardFrom(s, i);
      && (forall f :: f in r.fragments ==> 0 < |f| <= CHUNK)
      && (forall k :: 0 < k <= |r.fragments| ==> Boundary(s, CutPoint(r.fragments, i, k)))
      && Joined(r.fragments) <= s[i..]
      && (r.ending.Complete? ==> Joined(r.fragments) == s[i..])
  {
    FragmentSizes(s, i);
    hide ShardFrom, Boundary, Joined, CutPoint;
    forall k | 0 < k <= |ShardFrom(s, i).fragments| ensures Boundary(s, CutPoint(ShardFrom(s, i).fragments, i, k)) {
      CutAt(s, i, k);
    }
  }

  lemma {:induction false} FragmentsWellFormed(s: Bytes, i: nat)
    requires i <= |s| && Boundary(s, i) && WellFormed(s)
    ensures forall f :: f in ShardFrom(s, i).fragments ==> WellFormed(f)
    decreases |s| - i
  {
    var r := ShardFrom(s, i);
    if r.fragments != [] {
      var end := StepBack(s, Min(i + CHUNK, |s|)).value;
      FragmentsWellFormed(s, end);
      CutAtBoundary(s, end);
      CutAtBoundary(s[..end], i);
      assert s[..end][i..] == s[i..end];
    }
  }

  /** For well-formed text: the loop terminates, every fragment is well-formed,
      non-empty and at most eight bytes, and they concatenate to the text. */
  lemma ShardsAreExact(s: Bytes)
    requires WellFormed(s)
    ensures var r := ShardFrom(s, 0);
      && r.ending.Complete? && Joined(r.fragments) == s
      && forall f :: f in r.fragments ==> 0 < |f| <= CHUNK && WellFormed(f)
  {
    forall k | 0 < k ensures !LongTail(s, k) {
      WellFormedHasNoLongTail(s, k);
    }
    CompletesIff(s, 0);
    FragmentsOf(s, 0);
    FragmentsWellFormed(s, 0);
    assert s[0..] == s;
  }

  // ---- How the loop ends on malformed text ----

  /** The text starts with nine continuation bytes. */
  predicate AllTailHead(s: Bytes) {
    |s| > CHUNK && forall j :: 0 <= j <= CHUNK ==> Tail(s[j])
  }

  /** It ends in one of three ways. It completes unless eight continuation bytes
      follow one another after the first byte; otherwise it reads below the start of
      the text if and only if the text starts with nine of them, and in every other
      case it reaches a position it cannot leave and emits empty fragments. */
  lemma {:induction false} EndingIff(s: Bytes, i: nat)
    requires i <= |s| && (i == 0 || Boundary(s, i))
    ensures var ending := ShardFrom(s, i).ending;
      && (ending.Complete? <==> forall k :: i < k ==> !LongTail(s, k))
      && (ending.Panics? <==> i == 0 && AllTailHead(s))
    decreases |s| - i
  {
    CompletesIff(s, i);
    if i < |s| {
      StepFrom(s, i);
      var end := StepBack(s, Min(i + CHUNK, |s|));
      if end.Some? && end.value > i {
        EndingIff(s, end.value);
      } else {
        assert LongTail(s, i + 1);
      }
    }
  }

  /** Both failures occur: one lead byte and eight continuation bytes, and nine
      continuation bytes. */
  lemma MalformedDefeatsIt()
    ensures ShardFrom([0xF0] + seq(8, i => 0x80), 0) == Shards([], Stalls)
    ensures ShardFrom(seq(9, i => 0x80), 0) == Shards([], Panics)
  {
    StepFrom([0xF0] + seq(8, i => 0x80), 0);
    StepFrom(seq(9, i => 0x80), 0);
    assert LongTail([0xF0] + seq(8, i => 0x80), 1);
    assert LongTail(seq(9, i => 0x80), 1);
  }

  // ---- The loop ----

  datatype Outcome = Returned | Failed | NeverReturns | Panicked

  /** The first round the call cannot finish: before it the deadline has passed, or
      in it the consumer rejects the fragment. */
  function Stop(expires: Option<nat>, refuses: Option<nat>): Option<nat> {
    if expires.None? then refuses
    else if refuses.None? then expires
    else Some(if expires.value < refuses.value then expires.value else refuses.value)
  }

  function Empties(n: nat): (r: seq<Bytes>)
    ensures |r| == n && forall k :: 0 <= k < n ==> r[k] == []
  {
    seq(n, i => [])
  }

  /** What is emitted and how the call ends, from the shards and the stop: a stall
      emits empty fragments until the stop, and never returns without one. */
  function Verdict(r: Shards, expires: Option<nat>, refuses: Option<nat>): (seq<Bytes>, Outcome) {
    var n := |r.fragments|;
    var stop := Stop(expires, refuses);
    if stop.Some? && stop.value < n then (r.fragments[..stop.value], Failed)
    else
      match r.ending
      case Complete => (r.fragments, Returned)
      case Panics => (r.fragments, if expires == Some(n) then Failed else Panicked)
      case Stalls => if stop.Some? then (r.fragments + Empties(stop.value - n), Failed) else (r.fragments, NeverReturns)
  }

  lemma {:induction false} JoinedPrefix(fragments: seq<Bytes>, k: nat)
    requires k <= |fragments|
    ensures Joined(fragments[..k]) <= Joined(fragments)
  {
    if k > 0 {
      JoinedPrefix(fragments[1..], k - 1);
      assert fragments[..k][1..] == fragments[1..][..k - 1];
    }
  }

  /** Well-formed text: the call returns, with all of it emitted, exactly when neither
      the deadline nor a refusal falls on one of its rounds; otherwise it fails at the
      earlier of the two with the fragments before that round, a prefix of the text. */
  lemma ReturnsExactlyWhen(s: Bytes, expires: Option<nat>, refuses: Option<nat>)
    requires WellFormed(s)
    ensures var r := ShardFrom(s, 0);
      var (emitted, outcome) := Verdict(r, expires, refuses);
      var n := |r.fragments|;
      && (outcome == Returned <==> (expires.Some? ==> expires.value >= n) && (refuses.Some? ==> refuses.value >= n))
      && (outcome == Returned ==> Joined(emitted) == s)
      && (outcome != Returned ==>
            && outcome == Failed && emitted <= r.fragments && Joined(emitted) <= s
            && (expires == Some(|emitted|) || refuses == Some(|emitted|))
            && (expires.Some? ==> |emitted| <= expires.value) && (refuses.Some? ==> |emitted| <= refuses.value))
  {
    ShardsAreExact(s);
    hide ShardFrom, Joined, WellFormed;
    var (emitted, outcome) := Verdict(ShardFrom(s, 0), expires, refuses);
    if outcome != Returned {
      JoinedPrefix(ShardFrom(s, 0).fragments, |emitted|);
    }
  }

  lemma Unfold(s: Bytes, i: nat, emitted: seq<Bytes>)
    requires i < |s|
    ensures var end := StepBack(s, Min(i + CHUNK, |s|));
      && (end.None? || end.value < i ==> ShardFrom(s, i) == Shards([], Panics))
      && (end == Some(i) ==> ShardFrom(s, i) == Shards([], Stalls))
      && (end.Some? && end.value > i ==>
            && ShardFrom(s, i).ending == ShardFrom(s, end.value).ending
            && emitted + ShardFrom(s, i).fragments == emitted + [s[i..end.value]] + ShardFrom(s, end.value).fragments)
  {
  }

  lemma ShardAtEnd(s: Bytes)
    ensures ShardFrom(s, |s|) == Shards([], Complete)
  {
  }

  /** The inner loop: where the fragment starting at i ends, if the index stays in
      the text. */
  method FindEnd(s: Bytes, i: nat) returns (end: int)
    requires i < |s|
    ensures StepBack(s, Min(i + CHUNK, |s|)) == if end < 0 then None else Some(end)
    ensures end <= |s|
  {
    end := Min(i + CHUNK, |s|);
    ghost var top := end;
    while end < |s| && Tail(s[end])
      invariant 0 <= end <= |s| && StepBack(s, top) == StepBack(s, end)
      decreases end
    {
      if end == 0 {
        return -1;
      }
      end := end - 1;
    }
  }

  /** expires is the round before which the deadline has passed, refuses the
      emission the consumer rejects, if any; a round that emits nothing counts like
      any other. */
  method Shard(s: Bytes, expires: Option<nat>, refuses: Option<nat>) returns (emitted: seq<Bytes>, outcome: Outcome)
    ensures (emitted, outcome) == Verdict(ShardFrom(s, 0), expires, refuses)
  {
    hide ShardFrom;
    ghost var r := ShardFrom(s, 0);
    ghost var stop := Stop(expires, refuses);
    ghost var empties: nat := 0;
    emitted := [];
    var i := 0;
    assert emitted + r.fragments == r.fragments;
    while i < |s|
      invariant 0 <= i <= |s| && (stop.Some? ==> |emitted| <= stop.value)
      invariant empties == 0 ==> r == Shards(emitted + ShardFrom(s, i).fragments, ShardFrom(s, i).ending)
      invariant empties > 0 ==>
                  && i < |s| && StepBack(s, Min(i + CHUNK, |s|)) == Some(i) && stop.Some?
                  && r.ending.Stalls? && emitted == r.fragments + Empties(empties)
      decreases |s| - i, if stop.Some? then stop.value - |emitted| else 0
    {
      if expires == Some(|emitted|) {
        Unfold(s, i, emitted);
        Cut(r, emitted, empties, ShardFrom(s, i));
        return emitted, Failed;
      }
      Unfold(s, i, emitted);
      assert emitted + [] == emitted;
      var end := FindEnd(s, i);
      if end < i {
        return emitted, Panicked;
      }
      if refuses == Some(|emitted|) {
        Cut(r, emitted, empties, ShardFrom(s, i));
        return emitted, Failed;
      }
      if end == i && expires.None? && refuses.None? {
        return emitted, NeverReturns;
      }
      if end == i {
        assert s[i..end] == [] && emitted + [[]] == r.fragments + Empties(empties + 1);
        empties := empties + 1;
      }
      emitted := emitted + [s[i..end]];
      i := end;
    }
    ShardAtEnd(s);
    assert emitted + [] == emitted && r == Shards(emitted, Complete);
    return emitted, Returned;
  }

  /** A call that stops in the middle has emitted a prefix, or every fragment and
      then empty ones. */
  lemma Cut(r: Shards, emitted: seq<Bytes>, empties: nat, rest: Shards)
    requires empties == 0 ==> r == Shards(emitted + rest.fragments, rest.ending)
    requires empties == 0 && rest.fragments == [] ==> !rest.ending.Complete?
    requires empties > 0 ==> r.ending.Stalls? && emitted == r.fragments + Empties(empties)
    ensures |emitted| < |r.fragments| ==> emitted == r.fragments[..|emitted|]
    ensures |emitted| >= |r.fragments| ==>
              && !r.ending.Complete?
              && emitted == r.fragments + Empties(|emitted| - |r.fragments|)
    ensures |emitted| == |r.fragments| ==> emitted == r.fragments
  {
    if empties == 0 && rest.fragments == [] {
      assert r.fragments == emitted && emitted + Empties(0) == emitted;
    }
  }
}
