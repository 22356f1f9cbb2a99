/** The fixed-window rate and concurrency limiter (internal/limiter/limiter.go). */
module Limiter {
  import opened Common

  datatype Window = Window(start: int, count: int)

  datatype Config = Config(window: int, rate: int, maxConc: int)

  /** Per-subject window and in-flight gauge; a missing entry is a zero value. */
  datatype State = State(counts: map<string, Window>, active: map<string, int>)

  const FRESH: State := State(map[], map[])

  function Active(s: State, subject: string): int {
    if subject in s.active then s.active[subject] else 0
  }

  /** The window a call at time now is counted in. */
  function Current(c: Config, s: State, subject: string, now: int): Window {
    if subject !in s.counts || now - s.counts[subject].start >= c.window then Window(now, 0) else s.counts[subject]
  }

  predicate Admits(c: Config, s: State, subject: string, now: int) {
    Current(c, s, subject, now).count < c.rate && Active(s, subject) < c.maxConc
  }

  /** A denied call may still have opened a new window. */
  function AllowOn(c: Config, s: State, subject: string, now: int): State {
    var w := Current(c, s, subject, now);
    if Admits(c, s, subject, now) then
      State(s.counts[subject := w.(count := w.count + 1)], s.active[subject := Active(s, subject) + 1])
    else State(s.counts[subject := w], s.active)
  }

  function ReleaseOn(s: State, subject: string): State {
    s.(active := s.active[subject := Active(s, subject) - 1])
  }

  function RetryAfter(c: Config, s: State, subject: string, now: int): int {
    if subject !in s.counts then 0
    else
      var d := c.window - (now - s.counts[subject].start);
      if d < 0 then 0 else d
  }

  // ---- Runs ----

  datatype Call = Allow(subject: string, now: int) | Release(subject: string)

  function Step(c: Config, s: State, call: Call): State {
    match call
    case Allow(subject, now) => AllowOn(c, s, subject, now)
    case Release(subject) => ReleaseOn(s, subject)
  }

  function Run(c: Config, s: State, calls: seq<Call>): State
    decreases |calls|
  {
    if calls == [] then s else Run(c, Step(c, s, calls[0]), calls[1..])
  }

  /** Admissions of one subject with lo <= now < hi. */
  function Admitted(c: Config, s: State, calls: seq<Call>, subject: string, lo: int, hi: int): nat
    decreases |calls|
  {
    if calls == [] then 0
    else
      (if calls[0].Allow? && calls[0].subject == subject && lo <= calls[0].now < hi
       && Admits(c, s, subject, calls[0].now) then 1 else 0)
      + Admitted(c, Step(c, s, calls[0]), calls[1..], subject, lo, hi)
  }

  predicate Monotone(calls: seq<Call>, from: int)
    decreases |calls|
  {
    calls == [] ||
    (if calls[0].Allow? then from <= calls[0].now && Monotone(calls[1..], calls[0].now) else Monotone(calls[1..], from))
  }

  // ---- The rate over any interval ----

  function Rate(c: Config): nat {
    if c.rate < 0 then 0 else c.rate
  }

  /** Windows begin no later than the present and never hold more than the rate. */
  predicate SoundWindow(c: Config, s: State, subject: string, now: int) {
    subject in s.counts ==> s.counts[subject].start <= now && 0 <= s.counts[subject].count <= Rate(c)
  }

  /** How many admissions the interval of one window length from lo can still see. */
  function Room(c: Config, s: State, subject: string, now: int, lo: int): int {
    if now < lo then 2 * Rate(c)
    else if subject !in s.counts then Rate(c)
    else
      var w := s.counts[subject];
      if w.start < lo then 2 * Rate(c) - w.count
      else if w.start < lo + c.window then Rate(c) - w.count
      else 0
  }

  /** One call by that subject uses up the room it takes. */
  lemma CallTakesRoom(c: Config, s: State, subject: string, from: int, now: int, lo: int)
    requires c.window > 0 && SoundWindow(c, s, subject, from) && from <= now
    ensures var s' := AllowOn(c, s, subject, now);
      && SoundWindow(c, s', subject, now)
      && Room(c, s', subject, now, lo) + (if lo <= now < lo + c.window && Admits(c, s, subject, now) then 1 else 0)
         <= Room(c, s, subject, from, lo)
  {
  }

  lemma OtherCall(c: Config, s: State, call: Call, subject: string, from: int, lo: int)
    requires SoundWindow(c, s, subject, from) && (call.Release? || call.subject != subject)
    ensures SoundWindow(c, Step(c, s, call), subject, from)
    ensures Room(c, Step(c, s, call), subject, from, lo) == Room(c, s, subject, from, lo)
  {
  }

  lemma RoomLater(c: Config, s: State, subject: string, from: int, now: int, lo: int)
    requires SoundWindow(c, s, subject, from) && from <= now
    ensures SoundWindow(c, s, subject, now) && 0 <= Room(c, s, subject, now, lo) <= Room(c, s, subject, from, lo)
  {
  }

  lemma {:induction false} AdmittedWithinRoom(c: Config, s: State, calls: seq<Call>, subject: string, from: int,
                                              lo: int)
    requires c.window > 0 && SoundWindow(c, s, subject, from) && Monotone(calls, from)
    ensures Admitted(c, s, calls, subject, lo, lo + c.window) <= Room(c, s, subject, from, lo)
    decreases |calls|
  {
    hide Room, SoundWindow, AllowOn, ReleaseOn;
    if calls == [] {
      RoomLater(c, s, subject, from, from, lo);
    } else {
      var call := calls[0];
      var s' := Step(c, s, call);
      if call.Allow? && call.subject == subject {
        CallTakesRoom(c, s, subject, from, call.now, lo);
        AdmittedWithinRoom(c, s', calls[1..], subject, call.now, lo);
      } else {
        OtherCall(c, s, call, subject, from, lo);
        if call.Allow? {
          RoomLater(c, s', subject, from, call.now, lo);
          AdmittedWithinRoom(c, s', calls[1..], subject, call.now, lo);
        } else {
          AdmittedWithinRoom(c, s', calls[1..], subject, from, lo);
        }
      }
    }
  }

  /** Sliding-window bound: with a clock that never goes back, any half-open
      interval of one window length sees at most twice the rate, whatever the other
      subjects and the releases do in between. */
  lemma AtMostTwiceTheRate(c: Config, calls: seq<Call>, subject: string, from: int, lo: int)
    requires c.window > 0 && Monotone(calls, from)
    ensures Admitted(c, FRESH, calls, subject, lo, lo + c.window) <= 2 * Rate(c)
  {
    AdmittedWithinRoom(c, FRESH, calls, subject, from, lo);
  }

  /** And more than the rate does happen: two requests per sixty units, yet three
      of them between 59 and 61. */
  lemma BurstAcrossWindows()
    ensures var c := Config(60, 2, 10);
      var calls := [Allow("s", 0), Allow("s", 59), Allow("s", 60), Allow("s", 61)];
      Monotone(calls, 0) && Admitted(c, FRESH, calls, "s", 59, 119) == 3 > c.rate
  {
    var c := Config(60, 2, 10);
    var calls := [Allow("s", 0), Allow("s", 59), Allow("s", 60), Allow("s", 61)];
    var s1 := State(map["s" := Window(0, 1)], map["s" := 1]);
    var s2 := State(map["s" := Window(0, 2)], map["s" := 2]);
    var s3 := State(map["s" := Window(60, 1)], map["s" := 3]);
    var s4 := State(map["s" := Window(60, 2)], map["s" := 4]);
    assert AllowOn(c, FRESH, "s", 0) == s1 && AllowOn(c, s1, "s", 59) == s2 && AllowOn(c, s2, "s", 60) == s3
        && AllowOn(c, s3, "s", 61) == s4;
    assert calls[1..] == [Allow("s", 59), Allow("s", 60), Allow("s", 61)]
        && calls[1..][1..] == [Allow("s", 60), Allow("s", 61)];
    assert calls[1..][1..][1..] == [Allow("s", 61)] && [Allow("s", 61)][1..] == [];
    assert Admitted(c, s3, [Allow("s", 61)], "s", 59, 119) == 1;
    assert Admitted(c, s2, [Allow("s", 60), Allow("s", 61)], "s", 59, 119) == 2;
    assert Admitted(c, s1, calls[1..], "s", 59, 119) == 3;
  }

  // ---- When a call is denied ----

  /** The fixed windows of one subject by its call times alone: a call that comes a
      window length or more after the last opening opens a new one. */
  function Opened(window: int, calls: seq<Call>, subject: string): Option<int> {
    if calls == [] then None
    else
      var before := Opened(window, calls[..|calls| - 1], subject);
      var call := calls[|calls| - 1];
      if call.Allow? && call.subject == subject && (before.None? || call.now - before.value >= window)
      then Some(call.now) else before
  }

  /** The start of the window a call at time now falls in. */
  function Start(window: int, calls: seq<Call>, subject: string, now: int): int {
    var latest := Opened(window, calls, subject);
    if latest.None? || now - latest.value >= window then now else latest.value
  }

  /** No call of the sequence is later than t. */
  predicate Until(calls: seq<Call>, t: int) {
    forall call :: call in calls && call.Allow? ==> call.now <= t
  }

  lemma {:induction false} RunSnoc(c: Config, s: State, calls: seq<Call>, call: Call)
    ensures Run(c, s, calls + [call]) == Step(c, Run(c, s, calls), call)
    ensures forall subject, lo, hi ::
      Admitted(c, s, calls + [call], subject, lo, hi)
      == Admitted(c, s, calls, subject, lo, hi)
         + if call.Allow? && call.subject == subject && lo <= call.now < hi
              && Admits(c, Run(c, s, calls), subject, call.now) then 1 else 0
    decreases |calls|
  {
    hide Step, Admits;
    if calls == [] {
      assert calls + [call] == [call] && [call][1..] == [];
    } else {
      assert (calls + [call])[0] == calls[0] && (calls + [call])[1..] == calls[1..] + [call];
      RunSnoc(c, Step(c, s, calls[0]), calls[1..], call);
    }
  }

  lemma {:induction false} MonotoneSnoc(calls: seq<Call>, call: Call, from: int)
    requires Monotone(calls + [call], from)
    ensures Monotone(calls, from) && (call.Allow? ==> from <= call.now && Until(calls, call.now))
    decreases |calls|
  {
    if calls != [] {
      assert (calls + [call])[0] == calls[0] && (calls + [call])[1..] == calls[1..] + [call];
      MonotoneSnoc(calls[1..], call, if calls[0].Allow? then calls[0].now else from);
      assert forall a :: a in calls ==> a == calls[0] || a in calls[1..];
    } else {
      assert calls + [call] == [call];
    }
  }

  /** Nothing later than t is admitted from t + 1 on. */
  lemma {:induction false} NoneLater(c: Config, s: State, calls: seq<Call>, subject: string, lo: int, hi: int)
    requires forall call :: call in calls && call.Allow? && call.subject == subject ==> call.now < lo
    ensures Admitted(c, s, calls, subject, lo, hi) == 0
    decreases |calls|
  {
    if calls != [] {
      assert calls[0] in calls && forall call :: call in calls[1..] ==> call in calls;
      NoneLater(c, Step(c, s, calls[0]), calls[1..], subject, lo, hi);
    }
  }

  /** The subject's calls fall before the end of the window opened last. */
  predicate InWindow(calls: seq<Call>, subject: string, hi: int) {
    forall call :: call in calls && call.Allow? && call.subject == subject ==> call.now < hi
  }

  lemma WindowStep(c: Config, s: State, call: Call, subject: string)
    ensures var own := call.Allow? && call.subject == subject;
      var counts, counts' := s.counts, Step(c, s, call).counts;
      var one := if own && Admits(c, s, subject, call.now) then 1 else 0;
      && (!own ==>
            && (subject in counts' <==> subject in counts)
            && (subject in counts ==> counts'[subject] == counts[subject]))
      && (own ==>
            && subject in counts'
            && counts'[subject]
               == if subject !in counts || call.now - counts[subject].start >= c.window then Window(call.now, one)
                  else Window(counts[subject].start, counts[subject].count + one))
  {
  }

  /** What the table holds: the window opened last and its admissions. */
  lemma {:induction false} WindowCounts(c: Config, calls: seq<Call>, subject: string, from: int)
    requires c.window > 0 && Monotone(calls, from)
    ensures var counts := Run(c, FRESH, calls).counts;
      var latest := Opened(c.window, calls, subject);
      && (subject in counts <==> latest.Some?)
      && (latest.Some? ==>
            && counts[subject] == Window(latest.value,
                                         Admitted(c, FRESH, calls, subject, latest.value, latest.value + c.window))
            && InWindow(calls, subject, latest.value + c.window))
      && (latest.None? ==> forall call :: call in calls && call.Allow? ==> call.subject != subject)
    decreases |calls|
  {
    if calls != [] {
      var n := |calls| - 1;
      var before, call := calls[..n], calls[n];
      assert calls == before + [call];
      MonotoneSnoc(before, call, from);
      WindowCounts(c, before, subject, from);
      RunSnoc(c, FRESH, before, call);
      WindowStep(c, Run(c, FRESH, before), call, subject);
      hide Run, Admitted, Monotone, Step, Admits;
      if call.Allow? && call.subject == subject {
        var latest := Opened(c.window, before, subject);
        assert latest.Some? ==> latest.value <= call.now by {
          if latest.Some? {
            OpenedWasCalled(c.window, before, subject);
          }
        }
        hide Until;
        if latest.None? || call.now - latest.value >= c.window {
          NoneLater(c, FRESH, before, subject, call.now, call.now + c.window);
        }
      }
    }
  }

  lemma {:induction false} OpenedWasCalled(window: int, calls: seq<Call>, subject: string)
    requires Opened(window, calls, subject).Some?
    ensures Allow(subject, Opened(window, calls, subject).value) in calls
  {
    if calls != [] {
      var n := |calls| - 1;
      assert calls == calls[..n] + [calls[n]];
      if Opened(window, calls, subject) == Opened(window, calls[..n], subject) {
        OpenedWasCalled(window, calls[..n], subject);
      }
    }
  }

  /** A call is admitted if and only if fewer than the rate were admitted in its own
      fixed window and fewer than the cap are in flight, over every history with a
      clock that never goes back; so nothing is denied too early. */
  lemma AdmittedExactlyWhen(c: Config, calls: seq<Call>, subject: string, now: int, from: int)
    requires c.window > 0 && Monotone(calls + [Allow(subject, now)], from)
    ensures var start := Start(c.window, calls, subject, now);
      Admits(c, Run(c, FRESH, calls), subject, now) <==>
        && Admitted(c, FRESH, calls, subject, start, start + c.window) < c.rate
        && Acquired(c, FRESH, calls, subject) - Released(calls, subject) < c.maxConc
  {
    MonotoneSnoc(calls, Allow(subject, now), from);
    WindowCounts(c, calls, subject, from);
    GaugeCounts(c, FRESH, calls, subject);
    var latest := Opened(c.window, calls, subject);
    if latest.None? || now - latest.value >= c.window {
      NoneLater(c, FRESH, calls, subject, now, now + c.window);
    }
  }

  // ---- The concurrency gauge ----

  function Acquired(c: Config, s: State, calls: seq<Call>, subject: string): nat
    decreases |calls|
  {
    if calls == [] then 0
    else
      (if calls[0].Allow? && calls[0].subject == subject && Admits(c, s, subject, calls[0].now) then 1 else 0)
      + Acquired(c, Step(c, s, calls[0]), calls[1..], subject)
  }

  function Released(calls: seq<Call>, subject: string): nat {
    if calls == [] then 0
    else (if calls[0].Release? && calls[0].subject == subject then 1 else 0) + Released(calls[1..], subject)
  }

  function Cap(c: Config): nat {
    if c.maxConc < 0 then 0 else c.maxConc
  }

  /** The gauge is acquired minus released, and never above the cap. */
  lemma {:induction false} GaugeCounts(c: Config, s: State, calls: seq<Call>, subject: string)
    requires Active(s, subject) <= Cap(c)
    ensures var s' := Run(c, s, calls);
      && Active(s', subject) == Active(s, subject) + Acquired(c, s, calls, subject) - Released(calls, subject)
      && Active(s', subject) <= Cap(c)
    decreases |calls|
  {
    if calls != [] {
      GaugeCounts(c, Step(c, s, calls[0]), calls[1..], subject);
    }
  }

  /** So the requests truly in flight stay within the cap exactly as long as the
      releases are not more than the admissions they belong to: with n surplus
      releases the cap is exceeded by up to n. */
  lemma InFlightWithinCap(c: Config, calls: seq<Call>, subject: string, finished: nat)
    requires finished <= Acquired(c, FRESH, calls, subject)
    requires finished <= Released(calls, subject)
    ensures var inFlight := Acquired(c, FRESH, calls, subject) - finished;
      var surplus := Released(calls, subject) - finished;
      inFlight == Active(Run(c, FRESH, calls), subject) + surplus <= Cap(c) + surplus
  {
    GaugeCounts(c, FRESH, calls, subject);
  }

  // ---- Retry-After ----

  /** A rate denial names a wait after which, nothing else happening, the rate no
      longer stands in the way; and the wait is never longer than the window. */
  lemma RetryAfterSuffices(c: Config, s: State, subject: string, now: int, later: int)
    requires c.window > 0 && c.rate > 0 && SoundWindow(c, s, subject, now)
    requires Current(c, s, subject, now).count >= c.rate
    ensures var s' := AllowOn(c, s, subject, now);
      var d := RetryAfter(c, s', subject, now);
      && 0 < d <= c.window
      && (now <= later ==> (Current(c, s', subject, later).count < c.rate <==> later >= now + d))
  {
  }

  // ---- The object ----

  class Limiter {
    const config: Config
    var counts: map<string, Window>
    var active: map<string, int>

    constructor (config: Config)
      ensures this.config == config && View() == FRESH
    {
      this.config, counts, active := config, map[], map[];
    }

    ghost function View(): State
      reads this
    {
      State(counts, active)
    }

    function Gauge(subject: string): (n: int)
      reads this
      ensures n == Active(View(), subject)
    {
      if subject in active then active[subject] else 0
    }

    method AllowLegacy(subject: string, now: int) returns (ok: bool)
      modifies this
      ensures View() == AllowOn(config, old(View()), subject, now)
      ensures ok <==> Admits(config, old(View()), subject, now)
    {
      if subject !in counts || now - counts[subject].start >= config.window {
        counts := counts[subject := Window(now, 0)];
      } else {
        assert counts == counts[subject := counts[subject]];
      }
      var w := counts[subject];
      if w.count >= config.rate {
        return false;
      }
      if Gauge(subject) >= config.maxConc {
        return false;
      }
      counts := counts[subject := w.(count := w.count + 1)];
      active := active[subject := Gauge(subject) + 1];
      return true;
    }

    method Allow(subject: string, now: int) returns (ok: bool, retryAfter: int)
      modifies this
      ensures View() == AllowOn(config, old(View()), subject, now)
      ensures ok <==> Admits(config, old(View()), subject, now)
      ensures retryAfter == if ok then 0 else RetryAfter(config, View(), subject, now)
    {
      ok := AllowLegacy(subject, now);
      if ok {
        return true, 0;
      }
      var d := config.window - (now - counts[subject].start);
      return false, if d < 0 then 0 else d;
    }

    /** The closure an admission hands out. */
    method Release(subject: string)
      modifies this`active
      ensures View() == ReleaseOn(old(View()), subject)
    {
      active := active[subject := Gauge(subject) - 1];
    }
  }
}
