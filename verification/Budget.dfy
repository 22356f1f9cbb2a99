/** The money-budget gate (internal/accounting/memory.go): one atomic
    check-and-charge across the subject's and the tenant's daily and monthly
    counters, with exactly-once finalization. The value-level functions come
    first; class MemoryBudget is the mutex-guarded object proved against them. */
module Budget {
  import opened Common
  import Int64

  type Counters = map<string, int>

  /** Reading a Go map: a missing key is zero. */
  function At(used: Counters, key: string): int {
    if key in used then used[key] else 0
  }

  // ---- Counter names ----

  /** The UTC calendar rendering of the admission time: YYYYMMDD and YYYYMM. */
  datatype Stamp = Stamp(day: string, month: string) {
    predicate Valid() {
      |day| == 8 && |month| == 6
    }
  }

  /** Subject day, subject month, tenant day, tenant month. */
  function BudgetKeys(prefix: string, subject: string, tenant: string, now: Stamp): (r: seq<string>)
    ensures |r| == 4
  {
    [prefix + ":budget:d:s:" + subject + ":" + now.day,
     prefix + ":budget:m:s:" + subject + ":" + now.month,
     prefix + ":budget:d:t:" + tenant + ":" + now.day,
     prefix + ":budget:m:t:" + tenant + ":" + now.month]
  }

  datatype Limits = Limits(subjectDaily: int, subjectMonthly: int, tenantDaily: int, tenantMonthly: int) {
    /** In the order of BudgetKeys. */
    function InOrder(): (r: seq<int>)
      ensures |r| == 4
    {
      [subjectDaily, subjectMonthly, tenantDaily, tenantMonthly]
    }

    predicate Configured() {
      subjectDaily > 0 || subjectMonthly > 0 || tenantDaily > 0 || tenantMonthly > 0
    }
  }

  datatype Scope = Subject | Tenant
  datatype Period = Day | Month

  /** The denial a client sees: the period decides its Retry-After. */
  datatype Denial = Denial(scope: Scope, period: Period)

  function DenialAt(i: nat): Denial {
    Denial(if i >= 2 then Tenant else Subject, if i % 2 == 1 then Month else Day)
  }

  predicate Distinct(keys: seq<string>) {
    forall i, j :: 0 <= i < j < |keys| ==> keys[i] != keys[j]
  }

  /** Position n + 8 of every counter name after a prefix of length n holds the
      period letter and position n + 10 the scope letter. */
  lemma KeysDistinct(prefix: string, subject: string, tenant: string, now: Stamp)
    ensures Distinct(BudgetKeys(prefix, subject, tenant, now))
  {
    var keys := BudgetKeys(prefix, subject, tenant, now);
    var n := |prefix|;
    assert keys[0][n + 8] == 'd' && keys[0][n + 10] == 's';
    assert keys[1][n + 8] == 'm' && keys[1][n + 10] == 's';
    assert keys[2][n + 8] == 'd' && keys[2][n + 10] == 't';
    assert keys[3][n + 8] == 'm' && keys[3][n + 10] == 't';
  }

  lemma Parts(head: string, id: string, tail: string)
    ensures (head + id + tail)[..|head|] == head
    ensures (head + id + tail)[|head|..|head| + |id|] == id
    ensures (head + id + tail)[|head| + |id|..] == tail
  {
  }

  /** What can be read off a counter name, given only the prefix's length. */
  lemma KeyParts(prefix: string, subject: string, tenant: string, now: Stamp, i: nat)
    requires now.Valid() && i < 4
    ensures var key := BudgetKeys(prefix, subject, tenant, now)[i];
      var n := |prefix|;
      var width := if i % 2 == 0 then 8 else 6;
      && |key| >= n + 13 + width
      && key[n + 8] == (if i % 2 == 0 then 'd' else 'm') && key[n + 10] == (if i < 2 then 's' else 't')
      && key[n + 12..|key| - width - 1] == (if i < 2 then subject else tenant)
      && key[|key| - width..] == (if i % 2 == 0 then now.day else now.month)
  {
    var tag := [":budget:d:s:", ":budget:m:s:", ":budget:d:t:", ":budget:m:t:"][i];
    var id := if i < 2 then subject else tenant;
    var period := if i % 2 == 0 then now.day else now.month;
    var head, tail := prefix + tag, ":" + period;
    assert BudgetKeys(prefix, subject, tenant, now)[i] == head + id + tail by {
      assert prefix + tag + id + ":" + period == head + id + tail;
    }
    Parts(head, id, tail);
    assert tail[1..] == period && head[|prefix| + 8] == tag[8] && head[|prefix| + 10] == tag[10];
  }

  /** Two admissions share a counter only if they agree on the position, the
      subject (or tenant) and the period: names never collide by accident, even
      when identifiers contain colons. */
  lemma KeysInjective(prefix: string, s1: string, t1: string, n1: Stamp, s2: string, t2: string, n2: Stamp,
                      i: nat, j: nat)
    requires n1.Valid() && n2.Valid() && i < 4 && j < 4
    requires BudgetKeys(prefix, s1, t1, n1)[i] == BudgetKeys(prefix, s2, t2, n2)[j]
    ensures i == j
    ensures if i < 2 then s1 == s2 else t1 == t2
    ensures if i % 2 == 0 then n1.day == n2.day else n1.month == n2.month
  {
    hide BudgetKeys;
    var key := BudgetKeys(prefix, s1, t1, n1)[i];
    KeyParts(prefix, s1, t1, n1, i);
    KeyParts(prefix, s2, t2, n2, j);
    assert (i % 2 == 0 <==> j % 2 == 0) && (i < 2 <==> j < 2) by {
      assert 'd' != 'm' && 's' != 't';
    }
    assert i == j;
  }

  // ---- The gate on values ----

  /** What one granted reservation charged, and the delta its finalization
      applied once one has happened. */
  datatype Entry = Entry(keys: seq<string>, estimate: int, fin: Option<int>) {
    function Amount(key: string): int {
      if key in keys then estimate + fin.GetOr(0) else 0
    }
  }

  /** Reservation number n of the gate is log[n - 1]. */
  datatype Gate = Gate(used: Counters, log: seq<Entry>)

  datatype Outcome = Noop | Denied(denial: Denial) | Granted(id: nat)

  predicate Exceeds(used: Counters, key: string, limit: int, estimate: int) {
    limit > 0 && Int64.Wrap(At(used, key) + estimate) > limit
  }

  /** The first counter that refuses, if any. */
  function FirstRefusal(used: Counters, keys: seq<string>, limits: seq<int>, estimate: int, i: nat): (r: Option<nat>)
    requires |keys| == |limits| && i <= |keys|
    ensures r.None? ==> forall k :: i <= k < |keys| ==> !Exceeds(used, keys[k], limits[k], estimate)
    ensures r.Some? ==> i <= r.value < |keys| && Exceeds(used, keys[r.value], limits[r.value], estimate)
    ensures r.Some? ==> forall k :: i <= k < r.value ==> !Exceeds(used, keys[k], limits[k], estimate)
    decreases |keys| - i
  {
    if i == |keys| then None
    else if Exceeds(used, keys[i], limits[i], estimate) then Some(i)
    else FirstRefusal(used, keys, limits, estimate, i + 1)
  }

  /** The capped counters among the first n, in order. */
  function Capped(keys: seq<string>, limits: seq<int>, n: nat): (r: seq<string>)
    requires |keys| == |limits| && n <= |keys|
    ensures forall k :: k in r <==> exists i :: 0 <= i < n && limits[i] > 0 && keys[i] == k
  {
    if n == 0 then []
    else if limits[n - 1] > 0 then Capped(keys, limits, n - 1) + [keys[n - 1]]
    else Capped(keys, limits, n - 1)
  }

  /** used[key] += delta for each key in turn. */
  function Charge(used: Counters, keys: seq<string>, delta: int): Counters {
    if keys == [] then used
    else
      var u := Charge(used, keys[..|keys| - 1], delta);
      var key := keys[|keys| - 1];
      u[key := Int64.Wrap(At(u, key) + delta)]
  }

  /** used[key] += delta for each key in turn, dropping counters that reach zero. */
  function Adjust(used: Counters, keys: seq<string>, delta: int): Counters {
    if keys == [] then used
    else
      var u := Adjust(used, keys[..|keys| - 1], delta);
      var key := keys[|keys| - 1];
      var v := Int64.Wrap(At(u, key) + delta);
      if v <= 0 then u - {key} else u[key := v]
  }

  function ReserveOn(g: Gate, keys: seq<string>, limits: seq<int>, estimate: int): (r: (Gate, Outcome))
    requires |keys| == |limits|
  {
    if estimate <= 0 || forall i :: 0 <= i < |limits| ==> limits[i] <= 0 then (g, Noop)
    else
      match FirstRefusal(g.used, keys, limits, estimate, 0)
      case Some(i) => (g, Denied(DenialAt(i)))
      case None =>
        var charged := Capped(keys, limits, |keys|);
        (Gate(Charge(g.used, charged, estimate), g.log + [Entry(charged, estimate, None)]), Granted(|g.log| + 1))
  }

  // ---- Which cap guards which counter ----

  /** The cap is set, and the counter of that name would exceed it. */
  predicate Over(used: Counters, name: string, cap: int, estimate: int) {
    cap > 0 && Int64.Wrap((if name in used then used[name] else 0) + estimate) > cap
  }

  function SubjectDay(subject: string, now: Stamp): string {
    ":budget:d:s:" + subject + ":" + now.day
  }

  function SubjectMonth(subject: string, now: Stamp): string {
    ":budget:m:s:" + subject + ":" + now.month
  }

  function TenantDay(tenant: string, now: Stamp): string {
    ":budget:d:t:" + tenant + ":" + now.day
  }

  function TenantMonth(tenant: string, now: Stamp): string {
    ":budget:m:t:" + tenant + ":" + now.month
  }

  predicate Refuses(used: Counters, subject: string, tenant: string, now: Stamp, limits: Limits, estimate: int) {
    || Over(used, SubjectDay(subject, now), limits.subjectDaily, estimate)
    || Over(used, SubjectMonth(subject, now), limits.subjectMonthly, estimate)
    || Over(used, TenantDay(tenant, now), limits.tenantDaily, estimate)
    || Over(used, TenantMonth(tenant, now), limits.tenantMonthly, estimate)
  }

  /** Each cap guards the counter of its own scope and period: the first of subject
      day, subject month, tenant day and tenant month that the estimate would exceed
      names the denial. */
  lemma CapsGuardTheirCounters(g: Gate, subject: string, tenant: string, now: Stamp, limits: Limits, estimate: int)
    requires estimate > 0
    requires limits.subjectDaily > 0 || limits.subjectMonthly > 0 || limits.tenantDaily > 0 || limits.tenantMonthly > 0
    ensures var (g', answer) := ReserveOn(g, BudgetKeys("", subject, tenant, now), limits.InOrder(), estimate);
      var sd := Over(g.used, SubjectDay(subject, now), limits.subjectDaily, estimate);
      var sm := Over(g.used, SubjectMonth(subject, now), limits.subjectMonthly, estimate);
      var td := Over(g.used, TenantDay(tenant, now), limits.tenantDaily, estimate);
      var tm := Over(g.used, TenantMonth(tenant, now), limits.tenantMonthly, estimate);
      && (answer == Denied(Denial(Subject, Day)) <==> sd)
      && (answer == Denied(Denial(Subject, Month)) <==> !sd && sm)
      && (answer == Denied(Denial(Tenant, Day)) <==> !sd && !sm && td)
      && (answer == Denied(Denial(Tenant, Month)) <==> !sd && !sm && !td && tm)
      && (answer.Granted? <==> !Refuses(g.used, subject, tenant, now, limits, estimate))
      && (!answer.Granted? ==> g' == g)
  {
    var keys, caps := BudgetKeys("", subject, tenant, now), limits.InOrder();
    CounterNames(subject, tenant, now);
    assert caps[0] == limits.subjectDaily && caps[1] == limits.subjectMonthly;
    assert caps[2] == limits.tenantDaily && caps[3] == limits.tenantMonthly;
    RefusalOfFour(g.used, keys, caps, estimate);
    hide BudgetKeys, SubjectDay, SubjectMonth, TenantDay, TenantMonth, Charge, Exceeds, Over, Capped, FirstRefusal,
        Distinct;
  }

  /** And a grant charges exactly the capped ones. */
  lemma GrantChargesTheCapped(g: Gate, subject: string, tenant: string, now: Stamp, limits: Limits, estimate: int)
    requires ReserveOn(g, BudgetKeys("", subject, tenant, now), limits.InOrder(), estimate).1.Granted?
    ensures var (g', answer) := ReserveOn(g, BudgetKeys("", subject, tenant, now), limits.InOrder(), estimate);
      && |g'.log| == |g.log| + 1 && answer.id == |g'.log| && g'.log[|g.log|].estimate == estimate
      && g'.log[|g.log|].fin.None?
      && var charged := g'.log[|g.log|].keys;
      && (SubjectDay(subject, now) in charged <==> limits.subjectDaily > 0)
      && (SubjectMonth(subject, now) in charged <==> limits.subjectMonthly > 0)
      && (TenantDay(tenant, now) in charged <==> limits.tenantDaily > 0)
      && (TenantMonth(tenant, now) in charged <==> limits.tenantMonthly > 0)
  {
    var keys, caps := BudgetKeys("", subject, tenant, now), limits.InOrder();
    CounterNames(subject, tenant, now);
    KeysDistinct("", subject, tenant, now);
    assert caps[0] == limits.subjectDaily && caps[1] == limits.subjectMonthly;
    assert caps[2] == limits.tenantDaily && caps[3] == limits.tenantMonthly;
    CappedAt(keys, caps);
    hide BudgetKeys, SubjectDay, SubjectMonth, TenantDay, TenantMonth, Charge, Exceeds, Capped, FirstRefusal, Distinct;
  }

  lemma RefusalOfFour(used: Counters, keys: seq<string>, caps: seq<int>, estimate: int)
    requires |keys| == |caps| == 4
    ensures FirstRefusal(used, keys, caps, estimate, 0)
         == if Over(used, keys[0], caps[0], estimate) then Some(0)
            else if Over(used, keys[1], caps[1], estimate) then Some(1)
            else if Over(used, keys[2], caps[2], estimate) then Some(2)
            else if Over(used, keys[3], caps[3], estimate) then Some(3)
            else None
  {
    assert forall i :: 0 <= i < 4 ==>
      (Exceeds(used, keys[i], caps[i], estimate) <==> Over(used, keys[i], caps[i], estimate));
    hide Exceeds, Over;
    var refusal := FirstRefusal(used, keys, caps, estimate, 0);
    assert refusal.Some? ==> refusal.value < 4;
  }

  lemma CappedAt(keys: seq<string>, caps: seq<int>)
    requires |keys| == |caps| && Distinct(keys)
    ensures forall i :: 0 <= i < |keys| ==> (keys[i] in Capped(keys, caps, |keys|) <==> caps[i] > 0)
  {
  }

  lemma CounterNames(subject: string, tenant: string, now: Stamp)
    ensures BudgetKeys("", subject, tenant, now)
         == [SubjectDay(subject, now), SubjectMonth(subject, now), TenantDay(tenant, now), TenantMonth(tenant, now)]
  {
    assert "" + ":budget:d:s:" == ":budget:d:s:" && "" + ":budget:m:s:" == ":budget:m:s:";
    assert "" + ":budget:d:t:" == ":budget:d:t:" && "" + ":budget:m:t:" == ":budget:m:t:";
  }

  predicate Known(g: Gate, id: nat) {
    1 <= id <= |g.log|
  }

  function FinalizeOn(g: Gate, id: nat, delta: int): Gate
    requires Known(g, id)
  {
    var e := g.log[id - 1];
    if e.fin.Some? then g
    else Gate(if delta == 0 then g.used else Adjust(g.used, e.keys, delta), g.log[id - 1 := e.(fin := Some(delta))])
  }

  /** An unknown cost keeps the estimate and does not use up the finalization. */
  function SettleOn(g: Gate, id: nat, cost: Option<int>): Gate
    requires Known(g, id)
  {
    if cost.None? then g else FinalizeOn(g, id, Int64.Wrap(cost.value - g.log[id - 1].estimate))
  }

  function ReleaseOn(g: Gate, id: nat): Gate
    requires Known(g, id)
  {
    FinalizeOn(g, id, Int64.Wrap(-g.log[id - 1].estimate))
  }

  // ---- Conservation ----

  /** Live estimates plus settled costs charged to one counter. */
  function Owed(log: seq<Entry>, key: string): int {
    if log == [] then 0 else Owed(log[..|log| - 1], key) + log[|log| - 1].Amount(key)
  }

  predicate SoundEntry(e: Entry) {
    && Distinct(e.keys)
    && 0 < e.estimate <= Int64.MAX
    && (e.fin.Some? ==> e.estimate + e.fin.value >= 0)
  }

  /** Stored counters are positive int64 values. */
  predicate Positive(used: Counters) {
    forall k :: k in used ==> 0 < used[k] <= Int64.MAX
  }

  /** Each counter equals the sum of what is charged to it, and only non-zero
      counters are stored. */
  ghost predicate Conserved(g: Gate) {
    && (forall e :: e in g.log ==> SoundEntry(e))
    && (forall key :: At(g.used, key) == Owed(g.log, key))
    && Positive(g.used)
  }

  lemma {:induction false} OwedNonNegative(log: seq<Entry>, key: string)
    requires forall e :: e in log ==> SoundEntry(e)
    ensures Owed(log, key) >= 0
    ensures forall e :: e in log ==> e.Amount(key) <= Owed(log, key)
  {
    if log != [] {
      OwedNonNegative(log[..|log| - 1], key);
      assert log == log[..|log| - 1] + [log[|log| - 1]];
      assert SoundEntry(log[|log| - 1]);
    }
  }

  lemma {:induction false} OwedUpdate(log: seq<Entry>, n: nat, e: Entry, key: string)
    requires n < |log|
    ensures Owed(log[n := e], key) == Owed(log, key) - log[n].Amount(key) + e.Amount(key)
  {
    var m := |log| - 1;
    if n == m {
      assert log[n := e][..m] == log[..m];
    } else {
      assert log[n := e][..m] == log[..m][n := e];
      OwedUpdate(log[..m], n, e, key);
    }
  }

  lemma {:induction false} ChargeReads(used: Counters, keys: seq<string>, delta: int, key: string)
    requires Distinct(keys)
    ensures At(Charge(used, keys, delta), key)
         == if key in keys then Int64.Wrap(At(used, key) + delta) else At(used, key)
    ensures key in Charge(used, keys, delta) <==> key in used || key in keys
  {
    if keys != [] {
      var n := |keys| - 1;
      assert keys == keys[..n] + [keys[n]];
      ChargeReads(used, keys[..n], delta, key);
      ChargeReads(used, keys[..n], delta, keys[n]);
    }
  }

  /** An adjusted counter that wraps below zero is dropped like one that reaches it. */
  lemma {:induction false} AdjustReads(used: Counters, keys: seq<string>, delta: int, key: string)
    requires Distinct(keys)
    ensures var v := Int64.Wrap(At(used, key) + delta);
      && At(Adjust(used, keys, delta), key) == (if key !in keys then At(used, key) else if v <= 0 then 0 else v)
      && (key in Adjust(used, keys, delta) <==> if key in keys then v > 0 else key in used)
  {
    if keys != [] {
      var n := |keys| - 1;
      assert keys == keys[..n] + [keys[n]];
      AdjustReads(used, keys[..n], delta, key);
      AdjustReads(used, keys[..n], delta, keys[n]);
    }
  }

  lemma {:induction false} CappedDistinct(keys: seq<string>, limits: seq<int>, n: nat)
    requires |keys| == |limits| && n <= |keys| && Distinct(keys)
    ensures Distinct(Capped(keys, limits, n))
  {
    if n > 0 {
      var before := Capped(keys, limits, n - 1);
      CappedDistinct(keys, limits, n - 1);
      forall i | 0 <= i < |before| ensures before[i] != keys[n - 1] {
        assert before[i] in before;
        var j :| 0 <= j < n - 1 && limits[j] > 0 && keys[j] == before[i];
      }
    }
  }

  // ---- Runs ----

  /** One gate call. Settle and Release name a reservation the gate handed out;
      calls on reservations that do not exist are not part of any run. */
  datatype Op =
    | OpReserve(subject: string, tenant: string, now: Stamp, limits: Limits, estimate: int)
    | OpSettle(id: nat, cost: Option<int>)
    | OpRelease(id: nat)

  function Step(g: Gate, op: Op): Gate {
    match op
    case OpReserve(subject, tenant, now, limits, estimate) =>
      ReserveOn(g, BudgetKeys("", subject, tenant, now), limits.InOrder(), estimate).0
    case OpSettle(id, cost) => if Known(g, id) then SettleOn(g, id, cost) else g
    case OpRelease(id) => if Known(g, id) then ReleaseOn(g, id) else g
  }

  function Run(g: Gate, ops: seq<Op>): Gate
    decreases |ops|
  {
    if ops == [] then g else Run(Step(g, ops[0]), ops[1..])
  }

  /** Estimates are int64 values, and costs are amounts as Cost computes them. */
  predicate Amounts(op: Op) {
    match op
    case OpReserve(_, _, _, _, estimate) => estimate <= Int64.MAX
    case OpSettle(_, cost) => cost.Some? ==> 0 <= cost.value <= Int64.MAX
    case OpRelease(_) => true
  }

  /** No counter the call changes leaves the int64 range: visible to the caller
      before the call. */
  predicate InRange(g: Gate, op: Op) {
    match op
    case OpReserve(subject, tenant, now, limits, estimate) =>
      Fit(g, BudgetKeys("", subject, tenant, now), limits.InOrder(), estimate)
    case OpSettle(id, cost) =>
      cost.Some? && Known(g, id) && g.log[id - 1].fin.None? ==>
        forall k :: k in g.log[id - 1].keys ==> At(g.used, k) + cost.value - g.log[id - 1].estimate <= Int64.MAX
    case OpRelease(_) => true
  }

  /** A granted estimate fits on top of every capped counter. */
  predicate Fit(g: Gate, keys: seq<string>, limits: seq<int>, estimate: int)
    requires |keys| == |limits|
  {
    ReserveOn(g, keys, limits, estimate).1.Granted? ==>
      forall i :: 0 <= i < |keys| && limits[i] > 0 ==> At(g.used, keys[i]) + estimate <= Int64.MAX
  }

  predicate RunInRange(g: Gate, ops: seq<Op>)
    decreases |ops|
  {
    ops == [] || (InRange(g, ops[0]) && RunInRange(Step(g, ops[0]), ops[1..]))
  }

  lemma OwedSnoc(log: seq<Entry>, e: Entry, key: string)
    ensures Owed(log + [e], key) == Owed(log, key) + e.Amount(key)
  {
    assert (log + [e])[..|log|] == log;
  }

  /** What a grant does to one counter. */
  lemma GrantReads(g: Gate, keys: seq<string>, limits: seq<int>, estimate: int, key: string)
    requires |keys| == |limits| && Distinct(keys) && ReserveOn(g, keys, limits, estimate).1.Granted?
    ensures var g' := ReserveOn(g, keys, limits, estimate).0;
      var charged := Capped(keys, limits, |keys|);
      && g'.log == g.log + [Entry(charged, estimate, None)] && Distinct(charged)
      && At(g'.used, key) == (if key in charged then Int64.Wrap(At(g.used, key) + estimate) else At(g.used, key))
      && (key in g'.used <==> key in g.used || key in charged)
      && Owed(g'.log, key) == Owed(g.log, key) + if key in charged then estimate else 0
  {
    hide Capped, Charge, FirstRefusal, Distinct, Owed;
    var charged := Capped(keys, limits, |keys|);
    CappedDistinct(keys, limits, |keys|);
    ChargeReads(g.used, charged, estimate, key);
    OwedSnoc(g.log, Entry(charged, estimate, None), key);
  }

  lemma ChargedConserves(g: Gate, g': Gate, charged: seq<string>, estimate: int)
    requires Conserved(g) && Distinct(charged) && 0 < estimate <= Int64.MAX
    requires g'.log == g.log + [Entry(charged, estimate, None)]
    requires forall key :: At(g'.used, key) == if key in charged then Int64.Wrap(At(g.used, key) + estimate)
        else At(g.used, key)
    requires forall key :: key in g'.used <==> key in g.used || key in charged
    ensures Conserved(g') <==> forall k :: k in charged ==> At(g.used, k) + estimate <= Int64.MAX
  {
    forall key
      ensures 0 <= At(g.used, key) <= Int64.MAX
      ensures Owed(g'.log, key) == Owed(g.log, key) + if key in charged then estimate else 0
    {
      OwedNonNegative(g.log, key);
      assert g'.log[..|g.log|] == g.log;
    }
    hide Owed, Distinct;
    if k :| k in charged && At(g.used, k) + estimate > Int64.MAX {
      assert k in g'.used;
      OutOfRange(At(g.used, k), estimate);
      assert g'.used[k] < 0;
    } else {
      forall key | key in g'.used ensures 0 < g'.used[key] <= Int64.MAX {
        assert At(g'.used, key) == g'.used[key];
      }
      assert SoundEntry(Entry(charged, estimate, None));
    }
  }

  lemma ReserveConserves(g: Gate, keys: seq<string>, limits: seq<int>, estimate: int)
    requires |keys| == |limits| && Distinct(keys) && Conserved(g) && estimate <= Int64.MAX
    ensures Conserved(ReserveOn(g, keys, limits, estimate).0) <==> Fit(g, keys, limits, estimate)
  {
    var (g', outcome) := ReserveOn(g, keys, limits, estimate);
    if outcome.Granted? {
      assert estimate > 0;
      var charged := Capped(keys, limits, |keys|);
      forall key {
        GrantReads(g, keys, limits, estimate, key);
      }
      GrantReads(g, keys, limits, estimate, "");
      hide ReserveOn, Capped, Conserved;
      ChargedConserves(g, g', charged, estimate);
    }
  }

  lemma OutOfRange(x: int, y: int)
    requires -Int64.MAX <= y <= Int64.MAX && 0 <= x <= Int64.MAX && x + y > Int64.MAX
    ensures Int64.Wrap(x + y) < 0
  {
    var z := x + y + Int64.MAX + 1;
    assert Int64.MODULUS <= z < 2 * Int64.MODULUS;
    assert z % Int64.MODULUS == z - Int64.MODULUS;
  }

  /** An adjustment of one counter that is never negative. */
  lemma AdjustedReading(used: Counters, keys: seq<string>, delta: int, key: string)
    requires Distinct(keys) && 0 <= At(used, key) <= Int64.MAX && -Int64.MAX <= delta <= Int64.MAX
    requires key in keys ==> 0 <= At(used, key) + delta
    requires key in used ==> used[key] > 0
    ensures var u := Adjust(used, keys, delta);
      && At(u, key) == (if key !in keys then At(used, key)
                        else if At(used, key) + delta <= Int64.MAX then At(used, key) + delta else 0)
      && (key in u ==> 0 < u[key] <= Int64.MAX)
  {
    AdjustReads(used, keys, delta, key);
    hide Adjust, Distinct;
    if At(used, key) + delta > Int64.MAX {
      OutOfRange(At(used, key), delta);
    }
  }

  /** What finalizing a reservation does to one counter. */
  lemma FinalizeReads(g: Gate, id: nat, delta: int, key: string)
    requires Known(g, id) && Conserved(g) && g.log[id - 1].fin.None?
    requires g.log[id - 1].estimate + delta >= 0 && delta <= Int64.MAX
    ensures var e := g.log[id - 1];
      var g' := FinalizeOn(g, id, delta);
      && 0 <= At(g.used, key) <= Int64.MAX
      && (key in e.keys ==> 0 <= At(g.used, key) + delta)
      && Owed(g'.log, key) == Owed(g.log, key) + (if key in e.keys then delta else 0)
      && At(g'.used, key) == (if key !in e.keys then At(g.used, key)
                              else if At(g.used, key) + delta <= Int64.MAX then At(g.used, key) + delta else 0)
      && (key in g'.used ==> 0 < g'.used[key] <= Int64.MAX)
  {
    var e := g.log[id - 1];
    assert SoundEntry(e);
    OwedNonNegative(g.log, key);
    OwedUpdate(g.log, id - 1, e.(fin := Some(delta)), key);
    assert At(g.used, key) == Owed(g.log, key) <= Int64.MAX;
    assert key in e.keys ==> e.Amount(key) == e.estimate <= At(g.used, key);
    hide Owed, Conserved, Adjust, Distinct;
    AdjustedReading(g.used, e.keys, delta, key);
  }

  lemma FinalizeConserves(g: Gate, id: nat, delta: int)
    requires Known(g, id) && Conserved(g) && g.log[id - 1].fin.None?
    requires g.log[id - 1].estimate + delta >= 0 && delta <= Int64.MAX
    ensures Conserved(FinalizeOn(g, id, delta)) <==> forall k ::
      k in g.log[id - 1].keys ==> At(g.used, k) + delta <= Int64.MAX
  {
    var e := g.log[id - 1];
    assert e in g.log && SoundEntry(e);
    var g' := FinalizeOn(g, id, delta);
    forall o | o in g'.log ensures SoundEntry(o) {
      assert o == e.(fin := Some(delta)) || o in g.log;
    }
    hide FinalizeOn, Owed, SoundEntry;
    if k :| k in e.keys && At(g.used, k) + delta > Int64.MAX {
      FinalizeReads(g, id, delta, k);
      assert At(g'.used, k) != Owed(g'.log, k);
    } else {
      forall key
        ensures At(g'.used, key) == Owed(g'.log, key)
        ensures key in g'.used ==> 0 < g'.used[key] <= Int64.MAX
      {
        FinalizeReads(g, id, delta, key);
      }
    }
  }

  /** Exactly when a call keeps the counters equal to what is charged to them. */
  lemma StepConserves(g: Gate, op: Op)
    requires Conserved(g) && Amounts(op)
    ensures Conserved(Step(g, op)) <==> InRange(g, op)
  {
    match op
    case OpReserve(subject, tenant, now, limits, estimate) =>
      KeysDistinct("", subject, tenant, now);
      ReserveConserves(g, BudgetKeys("", subject, tenant, now), limits.InOrder(), estimate);
    case OpSettle(id, cost) =>
      if Known(g, id) && cost.Some? {
        var e := g.log[id - 1];
        assert SoundEntry(e);
        if e.fin.None? {
          FinalizeConserves(g, id, cost.value - e.estimate);
        }
      }
    case OpRelease(id) =>
      if Known(g, id) {
        var e := g.log[id - 1];
        assert SoundEntry(e);
        if e.fin.None? {
          FinalizeConserves(g, id, -e.estimate);
        }
      }
  }

  /** What is charged to each counter is an int64 value. */
  ghost predicate TotalsFit(log: seq<Entry>) {
    forall key :: Owed(log, key) <= Int64.MAX
  }

  lemma ConservedFits(g: Gate)
    requires Conserved(g)
    ensures TotalsFit(g.log) && Positive(g.used)
  {
    forall key ensures Owed(g.log, key) <= Int64.MAX {
      assert At(g.used, key) == Owed(g.log, key);
    }
  }

  /** The same condition said of the books: a call keeps the counters right if and
      only if what is then charged to each of them still fits in int64. */
  lemma StepConservesIfFits(g: Gate, op: Op)
    requires Conserved(g) && Amounts(op)
    ensures Conserved(Step(g, op)) <==> TotalsFit(Step(g, op).log)
  {
    StepConserves(g, op);
    var g' := Step(g, op);
    if Conserved(g') {
      ConservedFits(g');
    } else {
      assert !InRange(g, op);
      match op
      case OpReserve(subject, tenant, now, limits, estimate) =>
        var keys := BudgetKeys("", subject, tenant, now);
        var i :| 0 <= i < 4 && limits.InOrder()[i] > 0 && At(g.used, keys[i]) + estimate > Int64.MAX;
        KeysDistinct("", subject, tenant, now);
        GrantReads(g, keys, limits.InOrder(), estimate, keys[i]);
        assert keys[i] in Capped(keys, limits.InOrder(), 4);
        hide ReserveOn, Capped, BudgetKeys, Charge, FirstRefusal;
        assert Owed(g'.log, keys[i]) > Int64.MAX;
      case OpSettle(id, cost) =>
        var e := g.log[id - 1];
        assert SoundEntry(e);
        var delta := cost.value - e.estimate;
        var k :| k in e.keys && At(g.used, k) + delta > Int64.MAX;
        OwedUpdate(g.log, id - 1, e.(fin := Some(delta)), k);
        assert Owed(g'.log, k) > Int64.MAX;
    }
  }

  /** The counters are right after every call of the run. */
  ghost predicate AlwaysConserved(g: Gate, ops: seq<Op>)
    decreases |ops|
  {
    Conserved(g) && (ops == [] || AlwaysConserved(Step(g, ops[0]), ops[1..]))
  }

  /** Budget conservation over every run: whatever the interleaving of
      reservations, settlements, repeats and releases, each counter equals at every
      moment the live estimates plus settled costs charged to it, if and only if no
      call pushes a counter it changes out of int64. */
  lemma {:induction false} RunConserves(g: Gate, ops: seq<Op>)
    requires Conserved(g) && forall op :: op in ops ==> Amounts(op)
    ensures AlwaysConserved(g, ops) <==> RunInRange(g, ops)
    ensures AlwaysConserved(g, ops) ==> Conserved(Run(g, ops))
    decreases |ops|
  {
    if ops != [] {
      assert ops[0] in ops && forall op :: op in ops[1..] ==> op in ops;
      StepConserves(g, ops[0]);
      if InRange(g, ops[0]) {
        RunConserves(Step(g, ops[0]), ops[1..]);
      }
    }
  }

  /** No oversell, exactly: an admission charges the estimate and leaves every
      capped counter at or below its limit if and only if no capped counter left
      the int64 range in the check. */
  lemma AdmissionWithinLimits(g: Gate, keys: seq<string>, limits: seq<int>, estimate: int)
    requires |keys| == |limits| && Distinct(keys)
    requires forall i :: 0 <= i < |limits| ==> limits[i] <= Int64.MAX
    requires forall k :: k in g.used ==> 0 <= g.used[k]
    requires ReserveOn(g, keys, limits, estimate).1.Granted?
    ensures var used' := ReserveOn(g, keys, limits, estimate).0.used;
      (forall i :: 0 <= i < |keys| && limits[i] > 0 ==>
         At(used', keys[i]) == At(g.used, keys[i]) + estimate <= limits[i])
      <==>
      (forall i :: 0 <= i < |keys| && limits[i] > 0 ==> At(g.used, keys[i]) + estimate <= Int64.MAX)
  {
    if forall i :: 0 <= i < |keys| && limits[i] > 0 ==> At(g.used, keys[i]) + estimate <= Int64.MAX {
      var charged := Capped(keys, limits, |keys|);
      CappedDistinct(keys, limits, |keys|);
      forall i | 0 <= i < |keys| && limits[i] > 0
        ensures At(Charge(g.used, charged, estimate), keys[i]) == At(g.used, keys[i]) + estimate <= limits[i]
      {
        ChargeReads(g.used, charged, estimate, keys[i]);
        assert !Exceeds(g.used, keys[i], limits[i], estimate);
      }
    }
  }

  /** The range condition is not vacuous: two reservations against a cap of
      2^63 - 1 are both admitted although together they exceed it. */
  lemma OversellBeyondInt64(subject: string, now: Stamp)
    ensures var keys := BudgetKeys("", subject, "", now);
      var limits := Limits(Int64.MAX, 0, 0, 0).InOrder();
      var first := ReserveOn(Gate(map[], []), keys, limits, Int64.MAX);
      var second := ReserveOn(first.0, keys, limits, 2);
      && first.1.Granted? && second.1.Granted?
      && Int64.MAX + 2 > limits[0] && At(second.0.used, keys[0]) < 0
  {
    var keys := BudgetKeys("", subject, "", now);
    var limits := Limits(Int64.MAX, 0, 0, 0).InOrder();
    KeysDistinct("", subject, "", now);
    assert Capped(keys, limits, 4) == [keys[0]] by {
      assert Capped(keys, limits, 3) == Capped(keys, limits, 2) == Capped(keys, limits, 1) == [keys[0]];
    }
    assert limits[0] > 0;
    var g0 := Gate(map[], []);
    assert [keys[0]][..0] == [];
    assert FirstRefusal(g0.used, keys, limits, Int64.MAX, 0).None? by {
      assert FirstRefusal(g0.used, keys, limits, Int64.MAX, 0) == FirstRefusal(g0.used, keys, limits, Int64.MAX, 2);
    }
    var used1 := Charge(g0.used, [keys[0]], Int64.MAX);
    assert used1 == map[keys[0] := Int64.MAX] by {
      assert Charge(g0.used, [], Int64.MAX) == map[];
    }
    assert Int64.Wrap(Int64.MAX + 2) == -Int64.MAX;
    assert FirstRefusal(used1, keys, limits, 2, 0).None? by {
      assert FirstRefusal(used1, keys, limits, 2, 0) == FirstRefusal(used1, keys, limits, 2, 2);
    }
    assert Charge(used1, [keys[0]], 2)[keys[0]] == -Int64.MAX by {
      assert Charge(used1, [], 2) == used1;
    }
  }

  /** Every admission is charged to every capped counter, and to nothing else. */
  lemma AdmissionChargesExactlyTheCapped(g: Gate, keys: seq<string>, limits: seq<int>, estimate: int, key: string)
    requires |keys| == |limits| && Distinct(keys)
    requires ReserveOn(g, keys, limits, estimate).1.Granted?
    ensures At(ReserveOn(g, keys, limits, estimate).0.used, key)
         == if exists i :: 0 <= i < |keys| && limits[i] > 0 && keys[i] == key
             then Int64.Wrap(At(g.used, key) + estimate)
            else At(g.used, key)
  {
    CappedDistinct(keys, limits, |keys|);
    ChargeReads(g.used, Capped(keys, limits, |keys|), estimate, key);
  }

  /** Exactly once: after the first known-cost finalization, every further settle
      or release of that reservation is the identity. */
  lemma FirstFinalizationWins(g: Gate, id: nat, op: Op, later: seq<Op>)
    requires Known(g, id)
    requires op == OpRelease(id) || (op.OpSettle? && op.id == id && op.cost.Some?)
    requires forall o :: o in later ==> (o.OpSettle? && o.id == id) || (o.OpRelease? && o.id == id)
    ensures Run(Step(g, op), later) == Step(g, op)
  {
    var g' := Step(g, op);
    assert Known(g', id) && g'.log[id - 1].fin.Some?;
    FinalizedIsFixed(g', id, later);
  }

  lemma {:induction false} FinalizedIsFixed(g: Gate, id: nat, later: seq<Op>)
    requires Known(g, id) && g.log[id - 1].fin.Some?
    requires forall o :: o in later ==> (o.OpSettle? && o.id == id) || (o.OpRelease? && o.id == id)
    ensures Run(g, later) == g
    decreases |later|
  {
    if later != [] {
      assert later[0] in later;
      assert Step(g, later[0]) == g;
      FinalizedIsFixed(g, id, later[1..]);
    }
  }

  /** No capped counter is stored at zero or below. */
  predicate Restorable(used: Counters, keys: seq<string>, limits: seq<int>)
    requires |keys| == |limits|
  {
    forall i :: 0 <= i < |keys| && limits[i] > 0 && keys[i] in used ==> used[keys[i]] > 0
  }

  /** Stored counters are int64 values. */
  predicate Stored(used: Counters) {
    forall k :: k in used ==> Int64.Fits(used[k])
  }

  /** What granting and releasing does to one counter. */
  lemma RollbackReads(g: Gate, keys: seq<string>, limits: seq<int>, estimate: int, key: string)
    requires |keys| == |limits| && Distinct(keys) && 0 < estimate <= Int64.MAX && Int64.Fits(At(g.used, key))
    requires ReserveOn(g, keys, limits, estimate).1.Granted?
    ensures var g' := ReserveOn(g, keys, limits, estimate).0;
      var charged := Capped(keys, limits, |keys|);
      && Known(g', |g'.log|)
      && var used' := ReleaseOn(g', |g'.log|).used;
      && At(used', key) == (if key in charged && At(g.used, key) <= 0 then 0 else At(g.used, key))
      && (key in used' <==> if key in charged then At(g.used, key) > 0 else key in g.used)
  {
    var g' := ReserveOn(g, keys, limits, estimate).0;
    var charged := Capped(keys, limits, |keys|);
    GrantReads(g, keys, limits, estimate, key);
    AdjustReads(g'.used, charged, -estimate, key);
    Int64.WrapSum(At(g.used, key) + estimate, -estimate);
    hide ReserveOn, Capped, Charge, FirstRefusal, Owed, Adjust;
    assert g'.log[|g'.log| - 1] == Entry(charged, estimate, None);
  }

  /** A reservation that is released leaves the stored map itself, not only its
      readings, as it found it, wrap-around included, if and only if no counter it
      charged was stored at zero or below. */
  lemma ReserveReleaseRestores(g: Gate, keys: seq<string>, limits: seq<int>, estimate: int)
    requires |keys| == |limits| && Distinct(keys) && estimate <= Int64.MAX && Stored(g.used)
    requires ReserveOn(g, keys, limits, estimate).1.Granted?
    ensures var g' := ReserveOn(g, keys, limits, estimate).0;
      && Known(g', |g'.log|)
      && (ReleaseOn(g', |g'.log|).used == g.used <==> Restorable(g.used, keys, limits))
  {
    assert estimate > 0;
    var g' := ReserveOn(g, keys, limits, estimate).0;
    var charged := Capped(keys, limits, |keys|);
    RollbackReads(g, keys, limits, estimate, "");
    var used' := ReleaseOn(g', |g'.log|).used;
    forall k
      ensures At(used', k) == if k in charged && At(g.used, k) <= 0 then 0 else At(g.used, k)
      ensures k in used' <==> if k in charged then At(g.used, k) > 0 else k in g.used
    {
      RollbackReads(g, keys, limits, estimate, k);
    }
    hide ReserveOn, ReleaseOn, Capped;
    if Restorable(g.used, keys, limits) {
      SameReadingsSameMap(used', g.used);
    } else {
      var i :| 0 <= i < |keys| && limits[i] > 0 && keys[i] in g.used && g.used[keys[i]] <= 0;
      assert keys[i] in charged && keys[i] !in used';
    }
  }

  lemma SameReadingsSameMap(a: Counters, b: Counters)
    requires forall k :: At(a, k) == At(b, k) && (k in a <==> k in b)
    ensures a == b
  {
    forall k | k in a ensures a[k] == b[k] {
      assert At(a, k) == At(b, k);
    }
  }

  lemma ReleaseLog(g: Gate, log: seq<Entry>, e: Entry)
    requires g.log == log + [e] && e.fin.None? && 0 < e.estimate <= Int64.MAX
    ensures ReleaseOn(g, |g.log|).log == log + [e.(fin := Some(-e.estimate))]
  {
    hide Adjust;
  }

  lemma ZeroEntryConserves(g: Gate, e: Entry)
    requires Conserved(g) && SoundEntry(e) && e.fin == Some(-e.estimate)
    ensures Conserved(Gate(g.used, g.log + [e]))
  {
    hide Owed, Distinct;
    forall key ensures Owed(g.log + [e], key) == Owed(g.log, key) {
      OwedSnoc(g.log, e, key);
    }
  }

  /** Such a reservation and release also keeps the counters conserved. */
  lemma RollbackConserves(g: Gate, keys: seq<string>, limits: seq<int>, estimate: int)
    requires |keys| == |limits| && Distinct(keys) && Conserved(g) && estimate <= Int64.MAX
    requires ReserveOn(g, keys, limits, estimate).1.Granted?
    ensures var g' := ReserveOn(g, keys, limits, estimate).0;
      Known(g', |g'.log|) && Conserved(ReleaseOn(g', |g'.log|))
  {
    assert estimate > 0 && Stored(g.used) && Restorable(g.used, keys, limits);
    var g' := ReserveOn(g, keys, limits, estimate).0;
    GrantReads(g, keys, limits, estimate, "");
    hide ReserveOn, Capped, Charge, FirstRefusal, Adjust, Distinct, Owed, Conserved, Restorable, Stored;
    ReserveReleaseRestores(g, keys, limits, estimate);
    var e := Entry(Capped(keys, limits, |keys|), estimate, None);
    ReleaseLog(g', g.log, e);
    assert SoundEntry(e.(fin := Some(-estimate)));
    hide ReleaseOn, SoundEntry;
    ZeroEntryConserves(g, e.(fin := Some(-estimate)));
    assert ReleaseOn(g', |g'.log|) == Gate(g.used, g.log + [e.(fin := Some(-estimate))]);
  }

  // ---- The object ----

  class MemoryBudget {
    var used: Counters
    var finalized: set<nat>
    var nextID: nat
    /** What the outstanding handles hold, by reservation number. */
    ghost var log: seq<Entry>

    ghost predicate Valid()
      reads this
    {
      && nextID == |log|
      && forall id :: id in finalized <==> 1 <= id <= |log| && log[id - 1].fin.Some?
    }

    ghost function View(): Gate
      reads this
    {
      Gate(used, log)
    }

    constructor ()
      ensures Valid() && View() == Gate(map[], [])
    {
      used, finalized, nextID, log := map[], {}, 0, [];
    }

    /** The check phase: the first refusing counter, else the counters to charge. */
    method Check(keys: seq<string>, limits: seq<int>, estimate: int)
        returns (refusal: Option<nat>, charged: seq<string>)
      requires |keys| == |limits|
      ensures refusal == FirstRefusal(used, keys, limits, estimate, 0)
      ensures refusal.None? ==> charged == Capped(keys, limits, |keys|)
    {
      charged := [];
      for i := 0 to |keys|
        invariant charged == Capped(keys, limits, i)
        invariant FirstRefusal(used, keys, limits, estimate, 0) == FirstRefusal(used, keys, limits, estimate, i)
      {
        if limits[i] > 0 {
          if Int64.Wrap(At(used, keys[i]) + estimate) > limits[i] {
            return Some(i), [];
          }
          charged := charged + [keys[i]];
        }
      }
      return None, charged;
    }

    /** The charge phase. */
    method ChargeAll(charged: seq<string>, estimate: int)
      modifies this`used
      ensures used == Charge(old(used), charged, estimate)
    {
      for j := 0 to |charged|
        invariant used == Charge(old(used), charged[..j], estimate)
      {
        assert charged[..j + 1][..j] == charged[..j];
        used := used[charged[j] := Int64.Wrap(At(used, charged[j]) + estimate)];
      }
      assert charged[..|charged|] == charged;
    }

    /** Adds delta to each counter and drops those that do not stay positive. */
    method AdjustAll(keys: seq<string>, delta: int)
      modifies this`used
      ensures used == Adjust(old(used), keys, delta)
    {
      for j := 0 to |keys|
        invariant used == Adjust(old(used), keys[..j], delta)
      {
        assert keys[..j + 1][..j] == keys[..j];
        var v := Int64.Wrap(At(used, keys[j]) + delta);
        used := used[keys[j] := v];
        if v <= 0 {
          used := used - {keys[j]};
        }
      }
      assert keys[..|keys|] == keys;
    }

    /** Checks every capped counter, then charges them all or none. */
    method Reserve(keys: seq<string>, limits: seq<int>, estimate: int)
        returns (res: BudgetReservation?, outcome: Outcome)
      requires Valid() && |keys| == |limits|
      modifies this
      ensures Valid()
      ensures (View(), outcome) == ReserveOn(old(View()), keys, limits, estimate)
      ensures res != null <==> outcome.Granted?
      ensures res != null ==> fresh(res) && res.g == this && res.id == outcome.id && res.Handle()
    {
      var configured := false;
      for i := 0 to |limits|
        invariant configured <==> exists k :: 0 <= k < i && limits[k] > 0
      {
        configured := configured || limits[i] > 0;
      }
      if estimate <= 0 || !configured {
        return null, Noop;
      }
      var refusal, charged := Check(keys, limits, estimate);
      if refusal.Some? {
        return null, Denied(DenialAt(refusal.value));
      }
      nextID := nextID + 1;
      ChargeAll(charged, estimate);
      log := log + [Entry(charged, estimate, None)];
      res := new BudgetReservation(this, nextID, charged, estimate);
      outcome := Granted(nextID);
    }
  }

  /** Remembers what was charged, so finalization adjusts exactly that. */
  class BudgetReservation {
    const g: MemoryBudget
    const id: nat
    const keys: seq<string>
    const estimate: int

    constructor (g: MemoryBudget, id: nat, keys: seq<string>, estimate: int)
      ensures this.g == g && this.id == id && this.keys == keys && this.estimate == estimate
    {
      this.g, this.id, this.keys, this.estimate := g, id, keys, estimate;
    }

    /** The gate issued this handle. */
    ghost predicate Handle()
      reads g
    {
      && g.Valid() && Known(g.View(), id)
      && g.log[id - 1].keys == keys && g.log[id - 1].estimate == estimate
    }

    method Finalize(delta: int)
      requires Handle()
      modifies g
      ensures Handle() && g.View() == FinalizeOn(old(g.View()), id, delta)
    {
      if id in g.finalized {
        return;
      }
      g.finalized := g.finalized + {id};
      g.log := g.log[id - 1 := g.log[id - 1].(fin := Some(delta))];
      if delta == 0 {
        return;
      }
      g.AdjustAll(keys, delta);
    }

    method Settle(cost: Option<int>)
      requires Handle()
      modifies g
      ensures Handle() && g.View() == SettleOn(old(g.View()), id, cost)
    {
      if cost.Some? {
        Finalize(Int64.Wrap(cost.value - estimate));
      }
    }

    method Release()
      requires Handle()
      modifies g
      ensures Handle() && g.View() == ReleaseOn(old(g.View()), id)
    {
      Finalize(Int64.Wrap(-estimate));
    }
  }
}
