/** The distributed form of the budget gate (internal/accounting/redis.go): two
    Lua scripts over one Redis keyspace that holds counters and finalize markers.
    They are proved to refine the in-memory gate step by step. */
module RedisBudget {
  import opened Common
  import Int64
  import opened Budget

  /** Integer-valued keys; a marker is the key with value 1. */
  type Keyspace = map<string, int>

  // ---- The scripts on values ----

  /** {allowed, scope, period, used}: scope 1 subject, 2 tenant; period 1 day, 2 month. */
  type Reply = seq<int>

  function FirstOver(kv: Keyspace, keys: seq<string>, limits: seq<int>, estimate: int, i: nat): (r: Option<nat>)
    requires |keys| == |limits| && i <= |keys|
    ensures r.Some? ==> r.value < |keys|
    decreases |keys| - i
  {
    if i == |keys| then None
    else if limits[i] > 0 && At(kv, keys[i]) + estimate > limits[i] then Some(i)
    else FirstOver(kv, keys, limits, estimate, i + 1)
  }

  /** INCRBY on the switched-on keys among the first n. */
  function IncrOn(kv: Keyspace, keys: seq<string>, on: seq<bool>, amount: int, n: nat): Keyspace
    requires |keys| == |on| && n <= |keys|
  {
    if n == 0 then kv
    else
      var u := IncrOn(kv, keys, on, amount, n - 1);
      if on[n - 1] then u[keys[n - 1] := At(u, keys[n - 1]) + amount] else u
  }

  /** INCRBY on the switched-on keys that exist, among the first n. */
  function IncrExisting(kv: Keyspace, keys: seq<string>, on: seq<bool>, amount: int, n: nat): Keyspace
    requires |keys| == |on| && n <= |keys|
  {
    if n == 0 then kv
    else
      var u := IncrExisting(kv, keys, on, amount, n - 1);
      if on[n - 1] && keys[n - 1] in u then u[keys[n - 1] := u[keys[n - 1]] + amount] else u
  }

  function CappedFlags(limits: seq<int>): (r: seq<bool>)
    ensures |r| == |limits| && forall i :: 0 <= i < |r| ==> r[i] == (limits[i] > 0)
  {
    seq(|limits|, i requires 0 <= i < |limits| => limits[i] > 0)
  }

  function ReserveScript(kv: Keyspace, keys: seq<string>, limits: seq<int>, estimate: int): (Keyspace, Reply)
    requires |keys| == |limits| == 4
  {
    match FirstOver(kv, keys, limits, estimate, 0)
    case Some(i) => (kv, [0, if i + 1 > 2 then 2 else 1, if (i + 1) % 2 == 0 then 2 else 1, At(kv, keys[i])])
    case None => (IncrOn(kv, keys, CappedFlags(limits), estimate, 4), [1, 0, 0, 0])
  }

  function FinalizeScript(kv: Keyspace, keys: seq<string>, marker: string, delta: int,
                          charged: seq<bool>): (Keyspace, int)
    requires |keys| == |charged| == 4
  {
    if marker in kv then (kv, 0)
    else if delta == 0 then (kv[marker := 1], 1)
    else (IncrExisting(kv[marker := 1], keys, charged, delta, 4), 1)
  }

  // ---- The client side ----

  /** What a client-held reservation remembers. */
  datatype Hold = Hold(id: string, keys: seq<string>, charged: seq<bool>, estimate: int)

  datatype Remote = Remote(kv: Keyspace, holds: seq<Hold>)

  function MarkerKey(prefix: string, id: string): string {
    prefix + ":budget:fin:" + id
  }

  function DenialOf(reply: Reply): Denial {
    Denial(
      if |reply| >= 2 && reply[1] == 2 then Tenant else Subject,
      if |reply| >= 3 && reply[2] == 2 then Month else Day)
  }

  function RemoteReserve(r: Remote, prefix: string, id: string, subject: string, tenant: string, now: Stamp,
                         limits: Limits, estimate: int): (Remote, Outcome)
  {
    if estimate <= 0 || !limits.Configured() then (r, Noop)
    else
      var keys := BudgetKeys(prefix, subject, tenant, now);
      var (kv, reply) := ReserveScript(r.kv, keys, limits.InOrder(), estimate);
      if |reply| < 4 || reply[0] == 0 then (Remote(kv, r.holds), Denied(DenialOf(reply)))
      else (Remote(kv, r.holds + [Hold(id, keys, CappedFlags(limits.InOrder()), estimate)]), Granted(|r.holds| + 1))
  }

  predicate HoldShaped(h: Hold) {
    |h.keys| == |h.charged| == 4
  }

  function RemoteFinalize(r: Remote, prefix: string, n: nat, delta: int): Remote
    requires 1 <= n <= |r.holds| && HoldShaped(r.holds[n - 1])
  {
    var h := r.holds[n - 1];
    Remote(FinalizeScript(r.kv, h.keys, MarkerKey(prefix, h.id), delta, h.charged).0, r.holds)
  }

  predicate WellFormed(r: Remote) {
    forall h :: h in r.holds ==> HoldShaped(h)
  }

  /** One client call; id is the reservation identifier a Reserve would mint. */
  function RemoteStep(r: Remote, prefix: string, op: Op, id: string): (Remote, Option<Outcome>)
    requires WellFormed(r)
  {
    match op
    case OpReserve(subject, tenant, now, limits, estimate) =>
      var (r', outcome) := RemoteReserve(r, prefix, id, subject, tenant, now, limits, estimate);
      (r', Some(outcome))
    case OpSettle(n, cost) =>
      if 1 <= n <= |r.holds| && cost.Some? then
        (RemoteFinalize(r, prefix, n, cost.value - r.holds[n - 1].estimate), None)
      else (r, None)
    case OpRelease(n) =>
      if 1 <= n <= |r.holds| then (RemoteFinalize(r, prefix, n, -r.holds[n - 1].estimate), None)
      else (r, None)
  }

  /** The outcome the in-memory gate reports for the same call. */
  function LocalOutcome(g: Gate, op: Op): Option<Outcome> {
    match op
    case OpReserve(subject, tenant, now, limits, estimate) =>
      Some(ReserveOn(g, BudgetKeys("", subject, tenant, now), limits.InOrder(), estimate).1)
    case _ => None
  }

  // ---- The refinement relation ----

  /** The counters one reservation charged: the switched-on keys. */
  predicate HoldsFor(prefix: string, h: Hold, e: Entry) {
    && HoldShaped(h) && h.estimate == e.estimate
    && Distinct(h.keys)
    && (forall i :: 0 <= i < 4 ==> IsCounter(prefix, h.keys[i]))
    && (forall i :: 0 <= i < 4 && h.charged[i] ==> h.keys[i][|prefix|..] in e.keys)
    && (forall k :: k in e.keys ==> exists i :: 0 <= i < 4 && h.charged[i] && h.keys[i] == prefix + k)
  }

  /** Counter names and marker names differ at position |prefix| + 8. */
  predicate IsCounter(prefix: string, key: string) {
    && |key| > |prefix| + 8 && key[..|prefix|] == prefix
    && (key[|prefix| + 8] == 'd' || key[|prefix| + 8] == 'm')
  }

  /** Equal counters. */
  ghost predicate CountersAgree(prefix: string, used: Counters, kv: Keyspace) {
    forall k :: IsCounter(prefix, prefix + k) ==> At(used, k) == At(kv, prefix + k)
  }

  /** Counters a reservation charged exist (no period has expired). */
  ghost predicate ChargedExist(prefix: string, log: seq<Entry>, kv: Keyspace) {
    forall n, k :: 0 <= n < |log| && k in log[n].keys ==> prefix + k in kv
  }

  /** Markers say what is finalized. */
  ghost predicate MarkersAgree(prefix: string, log: seq<Entry>, holds: seq<Hold>, kv: Keyspace)
    requires |holds| == |log|
  {
    forall n :: 0 <= n < |log| ==> (MarkerKey(prefix, holds[n].id) in kv <==> log[n].fin.Some?)
  }

  /** Only issued reservations have a marker. */
  ghost predicate IssuedMarkers(prefix: string, holds: seq<Hold>, kv: Keyspace) {
    forall id :: MarkerKey(prefix, id) in kv ==> Issued(holds, id)
  }

  ghost predicate Issued(holds: seq<Hold>, id: string) {
    exists n :: 0 <= n < |holds| && holds[n].id == id
  }

  predicate DistinctHolds(holds: seq<Hold>) {
    forall m, n :: 0 <= m < n < |holds| ==> holds[m].id != holds[n].id
  }

  ghost predicate HoldsAgree(prefix: string, log: seq<Entry>, holds: seq<Hold>) {
    && |holds| == |log|
    && forall n :: 0 <= n < |log| ==> HoldsFor(prefix, holds[n], log[n])
  }

  ghost predicate Refines(prefix: string, g: Gate, r: Remote) {
    && HoldsAgree(prefix, g.log, r.holds)
    && DistinctHolds(r.holds)
    && CountersAgree(prefix, g.used, r.kv)
    && ChargedExist(prefix, g.log, r.kv)
    && MarkersAgree(prefix, g.log, r.holds, r.kv)
    && IssuedMarkers(prefix, r.holds, r.kv)
  }

  predicate FreshId(r: Remote, id: string) {
    forall n :: 0 <= n < |r.holds| ==> r.holds[n].id != id
  }

  // ---- Script lemmas ----

  lemma {:induction false} IncrOnAdds(kv: Keyspace, keys: seq<string>, on: seq<bool>, amount: int, n: nat, key: string)
    requires |keys| == |on| && n <= |keys| && Distinct(keys)
    ensures At(IncrOn(kv, keys, on, amount, n), key)
         == At(kv, key) + if exists i :: 0 <= i < n && on[i] && keys[i] == key then amount else 0
    ensures key in IncrOn(kv, keys, on, amount, n) <==> key in kv || exists i :: 0 <= i < n && on[i] && keys[i] == key
  {
    if n > 0 {
      IncrOnAdds(kv, keys, on, amount, n - 1, key);
      IncrOnAdds(kv, keys, on, amount, n - 1, keys[n - 1]);
    }
  }

  /** When the switched-on keys exist, the existence test changes nothing. */
  lemma {:induction false} ExistingIsOn(kv: Keyspace, keys: seq<string>, on: seq<bool>, amount: int, n: nat)
    requires |keys| == |on| && n <= |keys| && Distinct(keys)
    requires forall i :: 0 <= i < n && on[i] ==> keys[i] in kv
    ensures IncrExisting(kv, keys, on, amount, n) == IncrOn(kv, keys, on, amount, n)
  {
    if n > 0 {
      ExistingIsOn(kv, keys, on, amount, n - 1);
      IncrOnAdds(kv, keys, on, amount, n - 1, keys[n - 1]);
    }
  }

  /** From equal readings both scripts' checks stop at the same counter. */
  lemma {:induction false} SameOver(used: Counters, kv: Keyspace, local: seq<string>, remote: seq<string>,
                                    limits: seq<int>, estimate: int, i: nat)
    requires |local| == |remote| == |limits| && i <= |limits|
    requires forall k :: 0 <= k < |limits| ==> At(used, local[k]) == At(kv, remote[k])
    ensures FirstOver(used, local, limits, estimate, i) == FirstOver(kv, remote, limits, estimate, i)
    decreases |limits| - i
  {
    if i < |limits| {
      SameOver(used, kv, local, remote, limits, estimate, i + 1);
    }
  }

  /** The first counter the estimate pushes over its cap, if any, stays in int64. */
  predicate OverFits(used: Counters, keys: seq<string>, limits: seq<int>, estimate: int, i: nat)
    requires |keys| == |limits| && i <= |limits|
  {
    var over := FirstOver(used, keys, limits, estimate, i);
    over.Some? ==> At(used, keys[over.value]) + estimate <= Int64.MAX
  }

  /** The wrapping check refuses where the exact one does if and only if the exact
      one's refusal does not wrap. */
  lemma {:induction false} SameRefusalIff(used: Counters, keys: seq<string>, limits: seq<int>, estimate: int, i: nat)
    requires |keys| == |limits| && i <= |limits| && 0 < estimate <= Int64.MAX
    requires forall k :: 0 <= k < |limits| ==> limits[k] <= Int64.MAX && 0 <= At(used, keys[k]) <= Int64.MAX
    ensures FirstRefusal(used, keys, limits, estimate, i) == FirstOver(used, keys, limits, estimate, i)
       <==> OverFits(used, keys, limits, estimate, i)
    decreases |limits| - i
  {
    if i < |limits| {
      SameRefusalIff(used, keys, limits, estimate, i + 1);
      if At(used, keys[i]) + estimate > Int64.MAX {
        OutOfRange(At(used, keys[i]), estimate);
      }
    }
  }

  /** When the exact check stops nowhere, every capped sum is within its cap. */
  lemma {:induction false} NoneOver(used: Counters, keys: seq<string>, limits: seq<int>, estimate: int, i: nat)
    requires |keys| == |limits| && i <= |limits| && FirstOver(used, keys, limits, estimate, i).None?
    ensures forall k :: i <= k < |limits| && limits[k] > 0 ==> At(used, keys[k]) + estimate <= limits[k]
    decreases |limits| - i
  {
    if i < |limits| {
      NoneOver(used, keys, limits, estimate, i + 1);
    }
  }

  lemma KeysPrefixed(prefix: string, subject: string, tenant: string, now: Stamp)
    ensures var local := BudgetKeys("", subject, tenant, now);
      var remote := BudgetKeys(prefix, subject, tenant, now);
      forall i :: 0 <= i < 4 ==>
        remote[i] == prefix + local[i] && IsCounter(prefix, remote[i]) && remote[i][|prefix|..] == local[i]
  {
    var local := BudgetKeys("", subject, tenant, now);
    var remote := BudgetKeys(prefix, subject, tenant, now);
    forall i | 0 <= i < 4
      ensures remote[i] == prefix + local[i] && IsCounter(prefix, remote[i]) && remote[i][|prefix|..] == local[i]
    {
      assert remote[i] == prefix + local[i];
    }
  }

  lemma MarkerIsNoCounter(prefix: string, id: string)
    ensures !IsCounter(prefix, MarkerKey(prefix, id))
  {
    assert MarkerKey(prefix, id)[|prefix| + 8] == 'f';
  }

  lemma MarkerInjective(prefix: string, a: string, b: string)
    requires MarkerKey(prefix, a) == MarkerKey(prefix, b)
    ensures a == b
  {
    assert MarkerKey(prefix, a)[|prefix| + 12..] == a;
    assert MarkerKey(prefix, b)[|prefix| + 12..] == b;
  }

  // ---- Refinement, call by call ----

  /** prefix + k names a switched-on remote key exactly when k is a capped local one. */
  lemma CappedMatches(prefix: string, local: seq<string>, remote: seq<string>, limits: seq<int>, k: string)
    requires |local| == |remote| == |limits|
    requires forall i :: 0 <= i < |local| ==> remote[i] == prefix + local[i]
    ensures k in Capped(local, limits, |local|)
       <==> exists i :: 0 <= i < |remote| && CappedFlags(limits)[i] && remote[i] == prefix + k
  {
    if k in Capped(local, limits, |local|) {
      var i :| 0 <= i < |local| && limits[i] > 0 && local[i] == k;
      assert CappedFlags(limits)[i] && remote[i] == prefix + k;
    }
    if i :| 0 <= i < |remote| && CappedFlags(limits)[i] && remote[i] == prefix + k {
      assert (prefix + local[i])[|prefix|..] == local[i] && (prefix + k)[|prefix|..] == k;
    }
  }

  lemma RelatedReadings(prefix: string, g: Gate, r: Remote, subject: string, tenant: string, now: Stamp)
    requires Refines(prefix, g, r)
    ensures var local := BudgetKeys("", subject, tenant, now);
      var remote := BudgetKeys(prefix, subject, tenant, now);
      forall i :: 0 <= i < 4 ==> At(g.used, local[i]) == At(r.kv, remote[i])
  {
    hide BudgetKeys;
    KeysPrefixed(prefix, subject, tenant, now);
  }

  predicate LimitsFit(limits: Limits) {
    forall i :: 0 <= i < 4 ==> limits.InOrder()[i] <= Int64.MAX
  }

  /** The two gates give one reserve call the same answer: the first counter pushed
      over its cap stays in int64. Visible to the caller before the call. */
  predicate SameCheck(g: Gate, op: Op)
    requires op.OpReserve?
  {
    op.estimate > 0 ==> OverFits(g.used, BudgetKeys("", op.subject, op.tenant, op.now), op.limits.InOrder(),
                                 op.estimate, 0)
  }

  lemma ConfiguredIff(limits: Limits)
    ensures limits.Configured() <==> exists i :: 0 <= i < 4 && limits.InOrder()[i] > 0
  {
    assert limits.InOrder()[0] == limits.subjectDaily && limits.InOrder()[1] == limits.subjectMonthly;
    assert limits.InOrder()[2] == limits.tenantDaily && limits.InOrder()[3] == limits.tenantMonthly;
  }

  /** The two answers, from the two checks. */
  lemma AnswersFromChecks(prefix: string, g: Gate, r: Remote, id: string, op: Op)
    requires op.OpReserve? && Refines(prefix, g, r) && op.estimate > 0 && op.limits.Configured()
    ensures WellFormed(r)
    ensures var local := BudgetKeys("", op.subject, op.tenant, op.now);
      var refusal := FirstRefusal(g.used, local, op.limits.InOrder(), op.estimate, 0);
      var over := FirstOver(g.used, local, op.limits.InOrder(), op.estimate, 0);
      var (r', answer) := RemoteStep(r, prefix, op, id);
      && |r.holds| == |g.log|
      && LocalOutcome(g, op) == Some(if refusal.Some? then Denied(DenialAt(refusal.value)) else Granted(|g.log| + 1))
      && Step(g, op) == (if refusal.Some? then g else Granting(g, op))
      && answer == Some(if over.Some? then Denied(DenialAt(over.value)) else Granted(|g.log| + 1))
      && r' == (if over.Some? then r else RemoteGranting(r, prefix, id, op))
  {
    var local := BudgetKeys("", op.subject, op.tenant, op.now);
    var remote := BudgetKeys(prefix, op.subject, op.tenant, op.now);
    ConfiguredIff(op.limits);
    HoldsShaped(prefix, g, r);
    RelatedReadings(prefix, g, r, op.subject, op.tenant, op.now);
    SameOver(g.used, r.kv, local, remote, op.limits.InOrder(), op.estimate, 0);
    hide BudgetKeys, Refines, Charge, IncrOn, Capped, FirstRefusal, FirstOver;
    var over := FirstOver(g.used, local, op.limits.InOrder(), op.estimate, 0);
    if over.Some? {
      DenialAgrees(over.value, At(r.kv, remote[over.value]));
    }
  }

  /** One reserve call on related states: the same admission or the same denial if
      and only if the first counter over its cap stays in int64, and then equal
      counters again, for every mix of capped and uncapped limits. */
  lemma ReserveRefines(prefix: string, g: Gate, r: Remote, id: string, op: Op)
    requires op.OpReserve? && Refines(prefix, g, r) && Conserved(g) && FreshId(r, id)
    requires Amounts(op) && LimitsFit(op.limits)
    ensures WellFormed(r)
    ensures RemoteStep(r, prefix, op, id).1 == LocalOutcome(g, op) <==> SameCheck(g, op)
    ensures SameCheck(g, op) ==> Refines(prefix, Step(g, op), RemoteStep(r, prefix, op, id).0)
  {
    hide BudgetKeys, Refines, Conserved, FirstRefusal, FirstOver, Granting, RemoteGranting, Step, RemoteStep,
        LocalOutcome;
    var local := BudgetKeys("", op.subject, op.tenant, op.now);
    var limits := op.limits.InOrder();
    HoldsShaped(prefix, g, r);
    if op.estimate > 0 && op.limits.Configured() {
      forall k | 0 <= k < 4 ensures 0 <= At(g.used, local[k]) <= Int64.MAX {
        NonNegativeReading(g, local[k]);
      }
      SameRefusalIff(g.used, local, limits, op.estimate, 0);
      AnswersFromChecks(prefix, g, r, id, op);
      var over := FirstOver(g.used, local, limits, op.estimate, 0);
      var refusal := FirstRefusal(g.used, local, limits, op.estimate, 0);
      DenialsDiffer(over, refusal);
      if over.None? {
        NoneOver(g.used, local, limits, op.estimate, 0);
        GrantRefines(prefix, g, r, id, op);
      }
    } else {
      NothingAsked(prefix, g, r, id, op);
    }
  }

  lemma DenialsDiffer(a: Option<nat>, b: Option<nat>)
    requires (a.Some? ==> a.value < 4) && (b.Some? ==> b.value < 4)
    ensures a.Some? && b.Some? && DenialAt(a.value) == DenialAt(b.value) ==> a == b
  {
  }

  lemma NothingAsked(prefix: string, g: Gate, r: Remote, id: string, op: Op)
    requires op.OpReserve? && WellFormed(r) && (op.estimate <= 0 || !op.limits.Configured())
    ensures RemoteStep(r, prefix, op, id) == (r, LocalOutcome(g, op)) && Step(g, op) == g && SameCheck(g, op)
  {
    ConfiguredIff(op.limits);
    if op.estimate > 0 {
      NothingOver(g.used, BudgetKeys("", op.subject, op.tenant, op.now), op.limits.InOrder(), op.estimate, 0);
    }
    hide BudgetKeys, FirstOver, FirstRefusal, Capped, Charge;
  }

  lemma {:induction false} NothingOver(used: Counters, keys: seq<string>, limits: seq<int>, estimate: int, i: nat)
    requires |keys| == |limits| && i <= |limits| && forall k :: i <= k < |limits| ==> limits[k] <= 0
    ensures FirstOver(used, keys, limits, estimate, i).None?
    decreases |limits| - i
  {
    if i < |limits| {
      NothingOver(used, keys, limits, estimate, i + 1);
    }
  }

  /** The script's one-based scope and period codes decode to the same denial. */
  lemma DenialAgrees(i: nat, used: int)
    requires i < 4
    ensures DenialOf([0, if i + 1 > 2 then 2 else 1, if (i + 1) % 2 == 0 then 2 else 1, used]) == DenialAt(i)
  {
  }

  lemma NonNegativeReading(g: Gate, key: string)
    requires Conserved(g)
    ensures 0 <= At(g.used, key) <= Int64.MAX
  {
  }

  /** The local and the remote state after a grant. */
  function Granting(g: Gate, op: Op): Gate
    requires op.OpReserve?
  {
    var charged := Capped(BudgetKeys("", op.subject, op.tenant, op.now), op.limits.InOrder(), 4);
    Gate(Charge(g.used, charged, op.estimate), g.log + [Entry(charged, op.estimate, None)])
  }

  function RemoteGranting(r: Remote, prefix: string, id: string, op: Op): Remote
    requires op.OpReserve?
  {
    var keys := BudgetKeys(prefix, op.subject, op.tenant, op.now);
    var flags := CappedFlags(op.limits.InOrder());
    Remote(IncrOn(r.kv, keys, flags, op.estimate, 4), r.holds + [Hold(id, keys, flags, op.estimate)])
  }

  /** The estimate fits on top of every capped counter. */
  predicate Room(g: Gate, op: Op)
    requires op.OpReserve?
  {
    forall i :: 0 <= i < 4 && op.limits.InOrder()[i] > 0 ==>
      At(g.used, BudgetKeys("", op.subject, op.tenant, op.now)[i]) + op.estimate <= Int64.MAX
  }

  lemma GrantReadings(prefix: string, g: Gate, r: Remote, id: string, op: Op, k: string)
    requires op.OpReserve? && Refines(prefix, g, r) && Conserved(g) && Room(g, op) && op.estimate > 0
    ensures IsCounter(prefix, prefix + k) ==>
              At(Granting(g, op).used, k) == At(RemoteGranting(r, prefix, id, op).kv, prefix + k)
    ensures prefix + k in r.kv ==> prefix + k in RemoteGranting(r, prefix, id, op).kv
    ensures k in Capped(BudgetKeys("", op.subject, op.tenant, op.now), op.limits.InOrder(), 4) ==>
              prefix + k in RemoteGranting(r, prefix, id, op).kv
  {
    var local := BudgetKeys("", op.subject, op.tenant, op.now);
    var remote := BudgetKeys(prefix, op.subject, op.tenant, op.now);
    var limits := op.limits.InOrder();
    hide BudgetKeys, Charge, IncrOn, Capped, IsCounter;
    var charged := Capped(local, limits, 4);
    KeysPrefixed(prefix, op.subject, op.tenant, op.now);
    KeysDistinct("", op.subject, op.tenant, op.now);
    KeysDistinct(prefix, op.subject, op.tenant, op.now);
    CappedDistinct(local, limits, 4);
    forall c | c in charged ensures Int64.Fits(At(g.used, c) + op.estimate) {
      NonNegativeReading(g, c);
    }
    ChargeReads(g.used, charged, op.estimate, k);
    IncrOnAdds(r.kv, remote, CappedFlags(limits), op.estimate, 4, prefix + k);
    CappedMatches(prefix, local, remote, limits, k);
  }

  lemma GrantMarkers(prefix: string, r: Remote, id: string, op: Op, m: string)
    requires op.OpReserve?
    ensures MarkerKey(prefix, m) in RemoteGranting(r, prefix, id, op).kv <==> MarkerKey(prefix, m) in r.kv
  {
    hide BudgetKeys, IncrOn, MarkerKey, IsCounter;
    var remote := BudgetKeys(prefix, op.subject, op.tenant, op.now);
    KeysDistinct(prefix, op.subject, op.tenant, op.now);
    KeysPrefixed(prefix, op.subject, op.tenant, op.now);
    IncrOnAdds(r.kv, remote, CappedFlags(op.limits.InOrder()), op.estimate, 4, MarkerKey(prefix, m));
    MarkerIsNoCounter(prefix, m);
  }

  lemma GrantHolds(prefix: string, id: string, op: Op)
    requires op.OpReserve?
    ensures var charged := Capped(BudgetKeys("", op.subject, op.tenant, op.now), op.limits.InOrder(), 4);
      HoldsFor(prefix,
        Hold(id, BudgetKeys(prefix, op.subject, op.tenant, op.now), CappedFlags(op.limits.InOrder()), op.estimate),
        Entry(charged, op.estimate, None))
  {
    hide BudgetKeys, IsCounter;
    var local := BudgetKeys("", op.subject, op.tenant, op.now);
    var remote := BudgetKeys(prefix, op.subject, op.tenant, op.now);
    var limits := op.limits.InOrder();
    var flags := CappedFlags(limits);
    var charged := Capped(local, limits, 4);
    hide Capped;
    KeysDistinct(prefix, op.subject, op.tenant, op.now);
    KeysPrefixed(prefix, op.subject, op.tenant, op.now);
    forall i | 0 <= i < 4 && flags[i] ensures remote[i][|prefix|..] in charged {
      assert limits[i] > 0 && local[i] in charged;
    }
    forall k | k in charged ensures exists i :: 0 <= i < 4 && flags[i] && remote[i] == prefix + k {
      CappedMatches(prefix, local, remote, limits, k);
    }
  }

  lemma GrantKeepsHolds(prefix: string, g: Gate, r: Remote, id: string, op: Op)
    requires op.OpReserve? && HoldsAgree(prefix, g.log, r.holds)
    ensures HoldsAgree(prefix, Granting(g, op).log, RemoteGranting(r, prefix, id, op).holds)
  {
    hide BudgetKeys, Charge, IncrOn, Capped, HoldsFor, CappedFlags;
    GrantHolds(prefix, id, op);
    var log, holds := Granting(g, op).log, RemoteGranting(r, prefix, id, op).holds;
    forall n | 0 <= n < |log| ensures HoldsFor(prefix, holds[n], log[n]) {
      assert n < |g.log| ==> holds[n] == r.holds[n] && log[n] == g.log[n];
    }
  }

  lemma GrantKeepsCounters(prefix: string, g: Gate, r: Remote, id: string, op: Op)
    requires op.OpReserve? && Refines(prefix, g, r) && Conserved(g) && Room(g, op) && op.estimate > 0
    ensures CountersAgree(prefix, Granting(g, op).used, RemoteGranting(r, prefix, id, op).kv)
    ensures ChargedExist(prefix, Granting(g, op).log, RemoteGranting(r, prefix, id, op).kv)
  {
    var g', r' := Granting(g, op), RemoteGranting(r, prefix, id, op);
    assert ChargedExist(prefix, g.log, r.kv);
    var charged := Capped(BudgetKeys("", op.subject, op.tenant, op.now), op.limits.InOrder(), 4);
    assert g'.log == g.log + [Entry(charged, op.estimate, None)];
    hide BudgetKeys, Capped, Granting, RemoteGranting, IsCounter, Conserved, Room, Refines;
    forall k | IsCounter(prefix, prefix + k) ensures At(g'.used, k) == At(r'.kv, prefix + k) {
      GrantReadings(prefix, g, r, id, op, k);
    }
    forall n, k | 0 <= n < |g'.log| && k in g'.log[n].keys ensures prefix + k in r'.kv {
      GrantReadings(prefix, g, r, id, op, k);
      assert n < |g.log| ==> g'.log[n] == g.log[n];
    }
  }

  lemma GrantRefines(prefix: string, g: Gate, r: Remote, id: string, op: Op)
    requires op.OpReserve? && Refines(prefix, g, r) && Conserved(g) && Room(g, op) && FreshId(r, id)
    requires op.estimate > 0
    ensures Refines(prefix, Granting(g, op), RemoteGranting(r, prefix, id, op))
  {
    hide Granting, RemoteGranting, HoldsAgree, CountersAgree, ChargedExist, MarkersAgree, IssuedMarkers, Conserved,
         Room, FreshId, DistinctHolds;
    GrantKeepsHolds(prefix, g, r, id, op);
    GrantKeepsCounters(prefix, g, r, id, op);
    GrantKeepsMarkers(prefix, g, r, id, op);
  }

  lemma GrantKeepsMarkers(prefix: string, g: Gate, r: Remote, id: string, op: Op)
    requires op.OpReserve? && Refines(prefix, g, r) && FreshId(r, id)
    ensures var g', r' := Granting(g, op), RemoteGranting(r, prefix, id, op);
      && |r'.holds| == |g'.log|
      && MarkersAgree(prefix, g'.log, r'.holds, r'.kv)
      && IssuedMarkers(prefix, r'.holds, r'.kv)
      && DistinctHolds(r'.holds)
  {
    var g', r' := Granting(g, op), RemoteGranting(r, prefix, id, op);
    hide BudgetKeys, Charge, IncrOn, Capped, MarkerKey, CountersAgree, ChargedExist, HoldsFor, CappedFlags;
    forall n | 0 <= n < |g'.log|
      ensures MarkerKey(prefix, r'.holds[n].id) in r'.kv <==> g'.log[n].fin.Some?
    {
      GrantMarkers(prefix, r, id, op, r'.holds[n].id);
      if n < |g.log| {
        assert r'.holds[n] == r.holds[n] && g'.log[n] == g.log[n];
      } else {
        assert !Issued(r.holds, id);
      }
    }
    forall m | MarkerKey(prefix, m) in r'.kv ensures Issued(r'.holds, m) {
      GrantMarkers(prefix, r, id, op, m);
      assert Issued(r.holds, m);
      var n :| 0 <= n < |r.holds| && r.holds[n].id == m;
      assert r'.holds[n].id == m;
    }
  }

  /** What finalizing reservation n does to one remote counter and to one marker. */
  lemma FinalizeReadings(prefix: string, g: Gate, r: Remote, n: nat, delta: int, k: string)
    requires Refines(prefix, g, r) && Known(g, n) && g.log[n - 1].fin.None?
    ensures HoldShaped(r.holds[n - 1])
    ensures var kv' := RemoteFinalize(r, prefix, n, delta).kv;
      && (IsCounter(prefix, prefix + k) ==>
            At(kv', prefix + k) == At(r.kv, prefix + k) + if k in g.log[n - 1].keys then delta else 0)
      && (prefix + k in r.kv ==> prefix + k in kv')
      && (MarkerKey(prefix, k) in kv' <==> MarkerKey(prefix, k) in r.kv || k == r.holds[n - 1].id)
    ensures k in g.log[n - 1].keys ==> IsCounter(prefix, prefix + k)
  {
    var e, h := g.log[n - 1], r.holds[n - 1];
    assert HoldsFor(prefix, h, e);
    var marked := r.kv[MarkerKey(prefix, h.id) := 1];
    hide MarkerKey, Adjust, IncrOn, IncrExisting, IssuedMarkers;
    assert MarkerKey(prefix, h.id) !in r.kv;
    forall i | 0 <= i < 4 && h.charged[i] ensures h.keys[i] in marked {
      assert h.keys[i] == prefix + h.keys[i][|prefix|..];
    }
    ExistingIsOn(marked, h.keys, h.charged, delta, 4);
    IncrOnAdds(marked, h.keys, h.charged, delta, 4, prefix + k);
    HoldMatches(prefix, h, e, k);
    MarkerIsNoCounter(prefix, h.id);
    IncrOnAdds(marked, h.keys, h.charged, delta, 4, MarkerKey(prefix, k));
    MarkerIsNoCounter(prefix, k);
    if MarkerKey(prefix, k) == MarkerKey(prefix, h.id) {
      MarkerInjective(prefix, k, h.id);
    }
  }

  predicate DeltaFits(g: Gate, n: nat, delta: int)
    requires Known(g, n)
  {
    forall k :: k in g.log[n - 1].keys ==> At(g.used, k) + delta <= Int64.MAX
  }

  /** The finalize script against the gate: related states again if and only if no
      counter of the reservation leaves int64. */
  lemma FinalizeRefines(prefix: string, g: Gate, r: Remote, n: nat, delta: int)
    requires Refines(prefix, g, r) && Conserved(g) && Known(g, n) && delta <= Int64.MAX
    requires g.log[n - 1].fin.None? ==> g.log[n - 1].estimate + delta >= 0
    ensures HoldShaped(r.holds[n - 1])
    ensures Refines(prefix, FinalizeOn(g, n, delta), RemoteFinalize(r, prefix, n, delta))
       <==> (g.log[n - 1].fin.Some? || DeltaFits(g, n, delta))
  {
    var e, h := g.log[n - 1], r.holds[n - 1];
    assert HoldsFor(prefix, h, e);
    if e.fin.None? {
      var g' := FinalizeOn(g, n, delta);
      var r' := RemoteFinalize(r, prefix, n, delta);
      assert g'.log == g.log[n - 1 := e.(fin := Some(delta))] && r'.holds == r.holds;
      forall k {:trigger MarkerKey(prefix, k)} {:trigger prefix + k}
        ensures IsCounter(prefix, prefix + k) ==>
                  At(r'.kv, prefix + k) == At(g.used, k) + if k in e.keys then delta else 0
        ensures prefix + k in r.kv ==> prefix + k in r'.kv
        ensures MarkerKey(prefix, k) in r'.kv <==> MarkerKey(prefix, k) in r.kv || k == h.id
      {
        FinalizeReadings(prefix, g, r, n, delta, k);
      }
      if DeltaFits(g, n, delta) {
        assert CountersAgree(prefix, g'.used, r'.kv) by {
          forall k | IsCounter(prefix, prefix + k) ensures At(g'.used, k) == At(r'.kv, prefix + k) {
            FinalizeReads(g, n, delta, k);
          }
        }
        hide FinalizeOn, RemoteFinalize, MarkerKey, IsCounter, Conserved;
        FinalizedHolds(prefix, g, r, n, g', r', delta);
      } else {
        var k :| k in e.keys && At(g.used, k) + delta > Int64.MAX;
        FinalizeReads(g, n, delta, k);
        FinalizeReadings(prefix, g, r, n, delta, k);
        assert At(g'.used, k) != At(r'.kv, prefix + k);
        hide FinalizeOn, RemoteFinalize, MarkerKey, Conserved;
      }
    }
  }

  lemma FinalizedHolds(prefix: string, g: Gate, r: Remote, n: nat, g': Gate, r': Remote, delta: int)
    requires Refines(prefix, g, r) && Known(g, n) && g.log[n - 1].fin.None?
    requires g'.log == g.log[n - 1 := g.log[n - 1].(fin := Some(delta))] && r'.holds == r.holds
    requires CountersAgree(prefix, g'.used, r'.kv)
    requires forall k {:trigger prefix + k} :: prefix + k in r.kv ==> prefix + k in r'.kv
    requires forall k {:trigger MarkerKey(prefix, k)} ::
               MarkerKey(prefix, k) in r'.kv <==> MarkerKey(prefix, k) in r.kv || k == r.holds[n - 1].id
    ensures Refines(prefix, g', r')
  {
    hide MarkerKey, IsCounter;
    assert HoldsAgree(prefix, g'.log, r'.holds) by {
      forall i | 0 <= i < |g.log| ensures HoldsFor(prefix, r'.holds[i], g'.log[i]) {
        assert HoldsFor(prefix, r.holds[i], g.log[i]);
      }
    }
    assert MarkersAgree(prefix, g'.log, r'.holds, r'.kv);
    assert IssuedMarkers(prefix, r'.holds, r'.kv) by {
      forall id | MarkerKey(prefix, id) in r'.kv ensures Issued(r'.holds, id) {
        assert r'.holds[n - 1].id == r.holds[n - 1].id;
      }
    }
  }

  lemma HoldMatches(prefix: string, h: Hold, e: Entry, k: string)
    requires HoldsFor(prefix, h, e)
    ensures k in e.keys <==> exists i :: 0 <= i < 4 && h.charged[i] && h.keys[i] == prefix + k
  {
    if i :| 0 <= i < 4 && h.charged[i] && h.keys[i] == prefix + k {
      assert h.keys[i][|prefix|..] == k;
    }
  }

  lemma SameEstimate(prefix: string, g: Gate, r: Remote, n: nat)
    requires Refines(prefix, g, r) && Conserved(g) && Known(g, n)
    ensures |r.holds| == |g.log| && r.holds[n - 1].estimate == g.log[n - 1].estimate && SoundEntry(g.log[n - 1])
  {
    assert HoldsFor(prefix, r.holds[n - 1], g.log[n - 1]);
  }

  lemma HoldsShaped(prefix: string, g: Gate, r: Remote)
    requires Refines(prefix, g, r)
    ensures WellFormed(r) && |r.holds| == |g.log|
  {
    forall h | h in r.holds ensures HoldShaped(h) {
      var n :| 0 <= n < |r.holds| && r.holds[n] == h;
      assert HoldsFor(prefix, r.holds[n], g.log[n]);
    }
  }

  lemma SettleRefines(prefix: string, g: Gate, r: Remote, op: Op)
    requires Refines(prefix, g, r) && Conserved(g) && Amounts(op)
    requires op.OpSettle? && op.cost.Some? && Known(g, op.id)
    ensures |r.holds| == |g.log| && HoldShaped(r.holds[op.id - 1])
    ensures Refines(prefix, SettleOn(g, op.id, op.cost),
                    RemoteFinalize(r, prefix, op.id, op.cost.value - r.holds[op.id - 1].estimate))
       <==> InRange(g, op)
  {
    hide BudgetKeys, Refines, Conserved, FinalizeOn, RemoteFinalize;
    SameEstimate(prefix, g, r, op.id);
    FinalizeRefines(prefix, g, r, op.id, op.cost.value - r.holds[op.id - 1].estimate);
  }

  lemma ReleaseRefines(prefix: string, g: Gate, r: Remote, n: nat)
    requires Refines(prefix, g, r) && Conserved(g) && Known(g, n)
    ensures |r.holds| == |g.log| && HoldShaped(r.holds[n - 1])
    ensures Refines(prefix, ReleaseOn(g, n), RemoteFinalize(r, prefix, n, -r.holds[n - 1].estimate))
  {
    hide BudgetKeys, Refines, Conserved, FinalizeOn, RemoteFinalize;
    SameEstimate(prefix, g, r, n);
    forall k | k in g.log[n - 1].keys ensures At(g.used, k) - g.log[n - 1].estimate <= Int64.MAX {
      NonNegativeReading(g, k);
    }
    FinalizeRefines(prefix, g, r, n, -r.holds[n - 1].estimate);
  }

  /** Estimates, caps and costs are int64 values, costs not negative. */
  predicate Typed(op: Op) {
    Amounts(op) && (op.OpReserve? ==> LimitsFit(op.limits))
  }

  /** When one call of the two gates agrees. */
  predicate Agrees(g: Gate, op: Op) {
    if op.OpReserve? then SameCheck(g, op) else InRange(g, op)
  }

  /** A settlement or a release, which has no answer. */
  lemma FinalizeStep(prefix: string, g: Gate, r: Remote, id: string, op: Op)
    requires Refines(prefix, g, r) && Conserved(g) && Typed(op) && !op.OpReserve?
    ensures WellFormed(r) && RemoteStep(r, prefix, op, id).1 == LocalOutcome(g, op)
    ensures Refines(prefix, Step(g, op), RemoteStep(r, prefix, op, id).0) <==> InRange(g, op)
  {
    hide BudgetKeys, Refines, Conserved, FinalizeOn, RemoteFinalize, ReserveOn, RemoteReserve, Fit, SettleOn, ReleaseOn;
    HoldsShaped(prefix, g, r);
    match op
    case OpRelease(n) =>
      if Known(g, n) {
        ReleaseRefines(prefix, g, r, n);
      }
    case OpSettle(n, cost) =>
      if Known(g, n) && cost.Some? {
        SettleRefines(prefix, g, r, op);
      } else {
        assert Step(g, op) == g && RemoteStep(r, prefix, op, id).0 == r
            && InRange(g, op) by { SettlesNothing(g, r, prefix, id, op); }
      }
  }

  lemma SettlesNothing(g: Gate, r: Remote, prefix: string, id: string, op: Op)
    requires op.OpSettle? && (!Known(g, op.id) || op.cost.None?) && |r.holds| == |g.log| && WellFormed(r)
    ensures Step(g, op) == g && RemoteStep(r, prefix, op, id).0 == r && InRange(g, op)
  {
  }

  /** One call: same answer and related states, exactly when it agrees; and a call
      that agrees keeps the counters conserved. */
  lemma StepRefines(prefix: string, g: Gate, r: Remote, id: string, op: Op)
    requires Refines(prefix, g, r) && Conserved(g) && Typed(op)
    requires op.OpReserve? ==> FreshId(r, id)
    ensures WellFormed(r)
    ensures Refines(prefix, Step(g, op), RemoteStep(r, prefix, op, id).0)
        && RemoteStep(r, prefix, op, id).1 == LocalOutcome(g, op)
       <==> Agrees(g, op)
    ensures Agrees(g, op) ==> Conserved(Step(g, op))
  {
    hide Refines, Conserved, Step, RemoteStep, LocalOutcome, SameCheck, InRange, FreshId;
    StepConserves(g, op);
    if op.OpReserve? {
      ReserveRefines(prefix, g, r, id, op);
      AgreedIsInRange(g, op);
    } else {
      FinalizeStep(prefix, g, r, id, op);
    }
  }

  lemma AgreedIsInRange(g: Gate, op: Op)
    requires op.OpReserve? && Conserved(g) && Typed(op)
    ensures SameCheck(g, op) ==> InRange(g, op)
  {
    var local := BudgetKeys("", op.subject, op.tenant, op.now);
    var limits := op.limits.InOrder();
    if SameCheck(g, op) && op.estimate > 0 && ReserveOn(g, local, limits, op.estimate).1.Granted? {
      forall k | 0 <= k < 4 ensures 0 <= At(g.used, local[k]) <= Int64.MAX {
        NonNegativeReading(g, local[k]);
      }
      SameRefusalIff(g.used, local, limits, op.estimate, 0);
      NoneOver(g.used, local, limits, op.estimate, 0);
    }
    hide BudgetKeys, Conserved, Capped, Charge;
  }

  // ---- Refinement over whole runs ----

  /** Identifiers are minted fresh: the n-th call's is unlike every earlier one. */
  predicate DistinctIds(ids: seq<string>) {
    forall m, n :: 0 <= m < n < |ids| ==> ids[m] != ids[n]
  }

  ghost predicate AllFresh(r: Remote, ids: seq<string>) {
    DistinctIds(ids) && forall n :: 0 <= n < |ids| ==> FreshId(r, ids[n])
  }

  /** Both gates in lockstep: the two lists of outcomes, call by call. */
  function LocalRun(g: Gate, ops: seq<Op>): (Gate, seq<Option<Outcome>>)
    decreases |ops|
  {
    if ops == [] then (g, [])
    else
      var (g', outs) := LocalRun(Step(g, ops[0]), ops[1..]);
      (g', [LocalOutcome(g, ops[0])] + outs)
  }

  function RemoteRun(r: Remote, prefix: string, ops: seq<Op>, ids: seq<string>): (Remote, seq<Option<Outcome>>)
    requires |ids| == |ops| && WellFormed(r)
    decreases |ops|
  {
    if ops == [] then (r, [])
    else
      var (r1, out) := RemoteStep(r, prefix, ops[0], ids[0]);
      var (r', outs) := RemoteRun(r1, prefix, ops[1..], ids[1..]);
      (r', [out] + outs)
  }

  predicate RunAgrees(g: Gate, ops: seq<Op>)
    decreases |ops|
  {
    ops == [] || (Agrees(g, ops[0]) && RunAgrees(Step(g, ops[0]), ops[1..]))
  }

  /** The states are related after every call of the run. */
  ghost predicate AlwaysRefines(prefix: string, g: Gate, r: Remote, ops: seq<Op>, ids: seq<string>)
    requires |ids| == |ops|
    decreases |ops|
  {
    && Refines(prefix, g, r) && WellFormed(r)
    && (ops == [] ||
        var (r1, out) := RemoteStep(r, prefix, ops[0], ids[0]);
        out == LocalOutcome(g, ops[0]) && AlwaysRefines(prefix, Step(g, ops[0]), r1, ops[1..], ids[1..]))
  }

  /** The Redis gate refines the in-memory gate: from related states, a run gives
      the same admissions, the same denials with the same scope and period, and equal
      counters after every call, for every mix of capped and uncapped limits, if and
      only if no denial and no settlement of it leaves int64. */
  lemma {:induction false} RunRefines(prefix: string, g: Gate, r: Remote, ops: seq<Op>, ids: seq<string>)
    requires Refines(prefix, g, r) && Conserved(g) && (forall op :: op in ops ==> Typed(op))
    requires |ids| == |ops| && AllFresh(r, ids)
    ensures AlwaysRefines(prefix, g, r, ops, ids) <==> RunAgrees(g, ops)
    ensures WellFormed(r)
    ensures RunAgrees(g, ops) ==>
      var (g', localOuts) := LocalRun(g, ops);
      var (r', remoteOuts) := RemoteRun(r, prefix, ops, ids);
      && localOuts == remoteOuts
      && Refines(prefix, g', r')
      && g' == Run(g, ops)
    decreases |ops|
  {
    HoldsShaped(prefix, g, r);
    if ops != [] {
      assert ops[0] in ops && forall op :: op in ops[1..] ==> op in ops;
      StepRefines(prefix, g, r, ids[0], ops[0]);
      hide Refines, Conserved, Agrees, Step, LocalOutcome, Typed;
      if Agrees(g, ops[0]) {
        var r1 := RemoteStep(r, prefix, ops[0], ids[0]).0;
        forall n | 0 <= n < |ids[1..]| ensures FreshId(r1, ids[1..][n]) {
          assert FreshId(r, ids[n + 1]) && ids[0] != ids[n + 1];
        }
        RunRefines(prefix, Step(g, ops[0]), r1, ops[1..], ids[1..]);
      }
    }
  }

  lemma EmptyRefines(prefix: string)
    ensures Refines(prefix, Gate(map[], []), Remote(map[], [])) && Conserved(Gate(map[], []))
  {
  }

  /** In particular two fresh gates given the same calls. */
  lemma FreshGatesAgree(prefix: string, ops: seq<Op>, ids: seq<string>)
    requires |ids| == |ops| && DistinctIds(ids) && (forall op :: op in ops ==> Typed(op))
        && RunAgrees(Gate(map[], []), ops)
    ensures LocalRun(Gate(map[], []), ops).1 == RemoteRun(Remote(map[], []), prefix, ops, ids).1
    ensures CountersAgree(prefix, Run(Gate(map[], []), ops).used, RemoteRun(Remote(map[], []), prefix, ops, ids).0.kv)
  {
    EmptyRefines(prefix);
    RunRefines(prefix, Gate(map[], []), Remote(map[], []), ops, ids);
  }

  // ---- The objects ----

  /** One Redis server; a script runs alone. */
  class Server {
    var kv: Keyspace

    constructor ()
      ensures kv == map[]
    {
      kv := map[];
    }

    method EvalReserve(keys: seq<string>, limits: seq<int>, estimate: int) returns (reply: Reply)
      requires |keys| == |limits| == 4
      modifies this
      ensures (kv, reply) == ReserveScript(old(kv), keys, limits, estimate)
    {
      for i := 0 to 4
        invariant kv == old(kv)
        invariant FirstOver(kv, keys, limits, estimate, 0) == FirstOver(kv, keys, limits, estimate, i)
      {
        if limits[i] > 0 {
          var used := At(kv, keys[i]);
          if used + estimate > limits[i] {
            var scope := 1;
            if i + 1 > 2 { scope := 2; }
            var period := 1;
            if (i + 1) % 2 == 0 { period := 2; }
            return [0, scope, period, used];
          }
        }
      }
      for i := 0 to 4
        invariant kv == IncrOn(old(kv), keys, CappedFlags(limits), estimate, i)
      {
        if limits[i] > 0 {
          kv := kv[keys[i] := At(kv, keys[i]) + estimate];
        }
      }
      return [1, 0, 0, 0];
    }

    method EvalFinalize(keys: seq<string>, marker: string, delta: int, charged: seq<bool>) returns (reply: int)
      requires |keys| == |charged| == 4
      modifies this
      ensures (kv, reply) == FinalizeScript(old(kv), keys, marker, delta, charged)
    {
      if marker in kv {
        return 0;
      }
      kv := kv[marker := 1];
      if delta == 0 {
        return 1;
      }
      for i := 0 to 4
        invariant kv == IncrExisting(old(kv)[marker := 1], keys, charged, delta, i)
      {
        if charged[i] && keys[i] in kv {
          kv := kv[keys[i] := kv[keys[i]] + delta];
        }
      }
      return 1;
    }
  }
}
