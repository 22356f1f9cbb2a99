/** Synchronous admission (internal/httpapi/common.go): the limiter slot, the token
    quota and the money reservation with its ledger row, acquired in that order
    with rollback. The token quota gate (internal/quota/memory.go) is the budget gate
    on two counters. */
module Admission {
  import opened Common
  import Lim = Limiter
  import A = Accounting
  import B = Budget
  import L = Ledger
  import Cost
  import Int64

  /** The three resources. */
  datatype Desk = Desk(limits: Lim.State, tokens: B.Gate, books: A.Books)

  function TokenKeys(subject: string, stamp: B.Stamp): seq<string> {
    [":quota:d:" + subject + ":" + stamp.day, ":quota:m:" + subject + ":" + stamp.month]
  }

  /** One request, and how the collaborators answer. prechecked says that model,
      policy, capability and input-ceiling checks passed. */
  datatype Ask = Ask(
    subject: string, tenant: string, stamp: B.Stamp, now: int, requestId: string, prechecked: bool, limiterFault: bool,
    quotaWired: bool, limitsFault: bool, dailyTokens: int, monthlyTokens: int, tokens: int, quotaFault: bool,
    accountingWired: bool, ceilingFault: bool,
    budgetsWired: bool, enforcement: bool, policy: A.Fetch<A.Policy>, price: A.Fetch<Option<Cost.Price>>,
    estimate: Cost.Usage, ledgerFault: bool)

  datatype Denial = Precheck | LimiterUnavailable | RateLimited | LimitsUnavailable | QuotaUnavailable | QuotaExceeded
                  | Money(error: A.ReserveError)

  /** What an admitted request holds: its token reservation and its money handle. */
  datatype Verdict = Admitted(quota: Option<nat>, money: Option<A.Handle>) | Denied(why: Denial)

  predicate QuotaApplies(q: Ask) {
    q.quotaWired && (q.dailyTokens > 0 || q.monthlyTokens > 0)
  }

  function RequestOf(q: Ask): A.Request {
    A.Request(L.Identity(q.requestId, ""), q.subject, q.tenant, q.stamp, q.now, q.estimate)
  }

  function ReserveTokens(g: B.Gate, q: Ask): (B.Gate, B.Outcome) {
    if QuotaApplies(q) then B.ReserveOn(g, TokenKeys(q.subject, q.stamp), [q.dailyTokens, q.monthlyTokens], q.tokens)
    else (g, B.Noop)
  }

  function ReleaseTokens(g: B.Gate, quota: Option<nat>): B.Gate {
    if quota.Some? && B.Known(g, quota.value) then B.ReleaseOn(g, quota.value) else g
  }

  function QuotaOf(o: B.Outcome): Option<nat> {
    if o.Granted? then Some(o.id) else None
  }

  function AskMoney(b: A.Books, q: Ask): A.Admission {
    A.Admit(b, q.budgetsWired, q.enforcement, q.policy, q.price, RequestOf(q), q.ledgerFault)
  }

  /** The last stage, entered with a limiter slot and a token reservation. */
  function AdmitMoney(d: Desk, q: Ask, quota: Option<nat>): (Desk, Verdict) {
    if !q.accountingWired then (d, Admitted(quota, None))
    else if q.ceilingFault then
      (d.(limits := Lim.ReleaseOn(d.limits, q.subject), tokens := ReleaseTokens(d.tokens, quota)),
       Denied(LimitsUnavailable))
    else
      var m := AskMoney(d.books, q);
      match m.outcome
      case Admitted(h) => (d.(books := m.books), Verdict.Admitted(quota, Some(h)))
      case Refused(e) =>
        (Desk(Lim.ReleaseOn(d.limits, q.subject), ReleaseTokens(d.tokens, quota), m.books), Denied(Money(e)))
  }

  function Admit(c: Lim.Config, d: Desk, q: Ask): (Desk, Verdict) {
    if !q.prechecked then (d, Denied(Precheck))
    else if q.limiterFault then (d, Denied(LimiterUnavailable))
    else
      var limited := d.(limits := Lim.AllowOn(c, d.limits, q.subject, q.now));
      if !Lim.Admits(c, d.limits, q.subject, q.now) then (limited, Denied(RateLimited))
      else
        var back := limited.(limits := Lim.ReleaseOn(limited.limits, q.subject));
        if q.quotaWired && q.limitsFault then (back, Denied(LimitsUnavailable))
        else if QuotaApplies(q) && q.quotaFault then (back, Denied(QuotaUnavailable))
        else
          var (tokens, outcome) := ReserveTokens(d.tokens, q);
          if outcome.Denied? then (back, Denied(QuotaExceeded))
          else AdmitMoney(limited.(tokens := tokens), q, QuotaOf(outcome))
  }

  // ---- Rollback ----

  /** Stored counters and the token estimate are int64 values. */
  predicate Typed(d: Desk, q: Ask) {
    B.Stored(d.tokens.used) && B.Stored(d.books.budget.used) && q.tokens <= Int64.MAX
  }

  /** The token reservation, if one is granted, can be put back exactly. */
  predicate TokensReversible(g: B.Gate, q: Ask) {
    ReserveTokens(g, q).1.Granted? ==>
      B.Restorable(g.used, TokenKeys(q.subject, q.stamp), [q.dailyTokens, q.monthlyTokens])
  }

  /** So can the money reservation. */
  predicate MoneyReversible(b: A.Books, q: Ask) {
    A.Reversible(b, q.budgetsWired, q.enforcement, q.policy, q.price, RequestOf(q))
  }

  /** The request gets past the limiter and the token quota. */
  predicate ReachesMoney(c: Lim.Config, d: Desk, q: Ask) {
    && q.prechecked && !q.limiterFault && Lim.Admits(c, d.limits, q.subject, q.now)
    && !(q.quotaWired && q.limitsFault) && !(QuotaApplies(q) && q.quotaFault)
    && !ReserveTokens(d.tokens, q).1.Denied?
  }

  /** What a client can observe of the desk: every in-flight gauge, every counter
      and the ledger. (The request still counts in its rate window.) */
  ghost predicate SameHoldings(a: Desk, b: Desk) {
    && (forall s :: Lim.Active(a.limits, s) == Lim.Active(b.limits, s))
    && a.tokens.used == b.tokens.used && a.books.budget.used == b.books.budget.used && a.books.ledger == b.books.ledger
  }

  lemma TokenKeysDistinct(subject: string, stamp: B.Stamp)
    ensures B.Distinct(TokenKeys(subject, stamp))
  {
    assert TokenKeys(subject, stamp)[0][7] == 'd' && TokenKeys(subject, stamp)[1][7] == 'm';
  }

  lemma TokensRollBack(g: B.Gate, q: Ask)
    requires B.Stored(g.used) && q.tokens <= Int64.MAX
    ensures var (g', outcome) := ReserveTokens(g, q);
      && (ReleaseTokens(g', QuotaOf(outcome)).used == g.used <==> TokensReversible(g, q))
      && (outcome.Denied? ==> g' == g)
  {
    var (g', outcome) := ReserveTokens(g, q);
    if outcome.Granted? {
      TokenKeysDistinct(q.subject, q.stamp);
      B.ReserveReleaseRestores(g, TokenKeys(q.subject, q.stamp), [q.dailyTokens, q.monthlyTokens], q.tokens);
    }
    hide B.FirstRefusal, B.Capped, B.Charge, B.Adjust, TokenKeys, B.Restorable;
  }

  lemma SlotRollsBack(c: Lim.Config, s: Lim.State, subject: string, now: int, other: string)
    ensures Lim.Active(Lim.AllowOn(c, s, subject, now), other)
         == Lim.Active(s, other) + (if other == subject && Lim.Admits(c, s, subject, now) then 1 else 0)
    ensures Lim.Active(Lim.ReleaseOn(s, subject), other) == Lim.Active(s, other) - (if other == subject then 1 else 0)
  {
  }

  /** All or nothing: every denial, at whatever stage and for whatever reason, gives
      back the limiter slot and writes no ledger row, and it leaves all counters as
      they were if and only if what it had to take back, tokens and money, met no
      counter stored at zero or below. */
  lemma DenialLeavesNothing(c: Lim.Config, d: Desk, q: Ask)
    requires Typed(d, q) && Admit(c, d, q).1.Denied?
    ensures var d' := Admit(c, d, q).0;
      && (forall s :: Lim.Active(d.limits, s) == Lim.Active(d'.limits, s)) && d'.books.ledger == d.books.ledger
      && (SameHoldings(d, d') <==>
            (ReachesMoney(c, d, q) ==>
               && TokensReversible(d.tokens, q)
               && (q.accountingWired && !q.ceilingFault ==> MoneyReversible(d.books, q))))
  {
    var d' := Admit(c, d, q).0;
    TokensRollBack(d.tokens, q);
    if q.accountingWired && AskMoney(d.books, q).outcome.Refused? {
      A.RefusalLeavesNothing(d.books, q.budgetsWired, q.enforcement, q.policy, q.price, RequestOf(q), q.ledgerFault);
    }
    hide Lim.AllowOn, Lim.ReleaseOn, Lim.Admits, Lim.Active, ReserveTokens, ReleaseTokens, A.Admit, TokensReversible,
         A.Reversible, B.Stored;
    var limited := Lim.AllowOn(c, d.limits, q.subject, q.now);
    forall s ensures Lim.Active(d.limits, s) == Lim.Active(d'.limits, s) {
      SlotRollsBack(c, d.limits, q.subject, q.now, s);
      SlotRollsBack(c, limited, q.subject, q.now, s);
    }
  }

  /** And an admission hands back everything together: one limiter slot, the token
      estimate on every capped token counter, and one reserved ledger row with the
      money charged whenever a budget is configured and enforced. */
  lemma AdmissionHoldsEverything(c: Lim.Config, d: Desk, q: Ask)
    requires Admit(c, d, q).1.Admitted?
    ensures var (d', v) := Admit(c, d, q);
      && (forall s :: Lim.Active(d'.limits, s) == Lim.Active(d.limits, s) + if s == q.subject then 1 else 0)
      && (v.quota.Some? <==> QuotaApplies(q) && q.tokens > 0)
      && (v.quota.Some? ==>
            && v.quota.value == |d.tokens.log| + 1 == |d'.tokens.log|
            && d'.tokens.log[v.quota.value - 1]
               == B.Entry(B.Capped(TokenKeys(q.subject, q.stamp), [q.dailyTokens, q.monthlyTokens], 2), q.tokens, None))
      && (v.money.Some? <==> q.accountingWired)
      && (v.money.Some? ==>
            && q.policy.Got? && v.money.value.Open()
            && d'.books.ledger == L.InsertReserved(d.books.ledger, L.Identity(q.requestId, ""), q.subject, q.now)
            && (v.money.value.charged.Some? <==> A.Applies(q.enforcement, q.policy.value)))
      && (v.money.None? ==> d'.books == d.books)
  {
    if q.accountingWired {
      A.AdmissionIsCharged(d.books, q.budgetsWired, q.enforcement, q.policy, q.price, RequestOf(q), q.ledgerFault);
    }
    TokensGranted(d.tokens, q);
    hide Lim.AllowOn, Lim.ReleaseOn, Lim.Admits, Lim.Active, ReserveTokens, ReleaseTokens, A.Admit, B.Capped;
    forall s {
      SlotRollsBack(c, d.limits, q.subject, q.now, s);
    }
  }

  /** The money side is the caller's own: a row under the request identifier and the
      subject, a charge on the capped counters of that subject and that tenant. */
  lemma AdmissionIsTheCallers(c: Lim.Config, d: Desk, q: Ask)
    requires Admit(c, d, q).1.Admitted? && Admit(c, d, q).1.money.Some?
    ensures var (d', v) := Admit(c, d, q);
      && |d'.books.ledger| == |d.books.ledger| + 1
      && var row := d'.books.ledger[|d.books.ledger|];
      && row.requestId == (if q.requestId == "" then None else Some(q.requestId)) && row.jobId.None?
      && row.subject == q.subject && row.createdAt == q.now
      && (v.money.value.charged.Some? ==>
            && q.policy.Got? && B.Known(d'.books.budget, v.money.value.charged.value)
            && var keys, caps := d'.books.budget.log[v.money.value.charged.value - 1].keys, q.policy.value.limits;
            && (B.SubjectDay(q.subject, q.stamp) in keys <==> caps.subjectDaily > 0)
            && (B.SubjectMonth(q.subject, q.stamp) in keys <==> caps.subjectMonthly > 0)
            && (B.TenantDay(q.tenant, q.stamp) in keys <==> caps.tenantDaily > 0)
            && (B.TenantMonth(q.tenant, q.stamp) in keys <==> caps.tenantMonthly > 0))
  {
    assert AskMoney(d.books, q).outcome.Admitted?;
    A.AdmissionIsItsOwn(d.books, q.budgetsWired, q.enforcement, q.policy, q.price, RequestOf(q), q.ledgerFault);
    hide Lim.AllowOn, Lim.ReleaseOn, Lim.Admits, ReserveTokens, ReleaseTokens, A.Admit, B.SubjectDay, B.SubjectMonth,
        B.TenantDay, B.TenantMonth;
  }

  lemma TokensGranted(g: B.Gate, q: Ask)
    ensures var (g', outcome) := ReserveTokens(g, q);
      && (!outcome.Denied? ==> (outcome.Granted? <==> QuotaApplies(q) && q.tokens > 0))
      && (outcome.Granted? ==>
            && outcome.id == |g.log| + 1 == |g'.log|
            && g'.log[outcome.id - 1]
               == B.Entry(B.Capped(TokenKeys(q.subject, q.stamp), [q.dailyTokens, q.monthlyTokens], 2), q.tokens, None))
  {
    assert [q.dailyTokens, q.monthlyTokens][0] == q.dailyTokens
        && [q.dailyTokens, q.monthlyTokens][1] == q.monthlyTokens;
    hide B.FirstRefusal, B.Charge, TokenKeys;
  }

  // ---- Which obstacle denies ----

  /** The token estimate would take the subject's day or month counter over its cap. */
  predicate OverTokens(used: B.Counters, q: Ask) {
    && q.quotaWired && q.tokens > 0
    && (B.Over(used, ":quota:d:" + q.subject + ":" + q.stamp.day, q.dailyTokens, q.tokens)
        || B.Over(used, ":quota:m:" + q.subject + ":" + q.stamp.month, q.monthlyTokens, q.tokens))
  }

  lemma TokensDeniedExactlyWhen(g: B.Gate, q: Ask)
    ensures ReserveTokens(g, q).1.Denied? <==> OverTokens(g.used, q)
  {
    var keys, caps := TokenKeys(q.subject, q.stamp), [q.dailyTokens, q.monthlyTokens];
    assert caps[0] == q.dailyTokens && caps[1] == q.monthlyTokens;
    assert B.Exceeds(g.used, keys[0], caps[0], q.tokens) <==> B.Over(g.used, keys[0], caps[0], q.tokens);
    assert B.Exceeds(g.used, keys[1], caps[1], q.tokens) <==> B.Over(g.used, keys[1], caps[1], q.tokens);
    hide B.Exceeds, B.Over, B.Charge, B.Capped;
    var refusal := B.FirstRefusal(g.used, keys, caps, q.tokens, 0);
    assert refusal.Some? ==> refusal.value == 0 || refusal.value == 1;
  }

  /** The first obstacle, in the order of the stages, names the denial, and a request
      that meets none is admitted: the checks before, the limiter, the limits lookup,
      the token counters, the ceiling lookup, the money. */
  lemma FirstObstacleDenies(c: Lim.Config, d: Desk, q: Ask)
    ensures var v := Admit(c, d, q).1;
      var quota := q.quotaWired && (q.dailyTokens > 0 || q.monthlyTokens > 0);
      var slot := q.prechecked && !q.limiterFault;
      var rated := slot && Lim.Admits(c, d.limits, q.subject, q.now);
      var looked := rated && !(q.quotaWired && q.limitsFault);
      var counted := looked && !(quota && q.quotaFault) && !OverTokens(d.tokens.used, q);
      var money := counted && q.accountingWired && !q.ceilingFault;
      && (v == Denied(Precheck) <==> !q.prechecked)
      && (v == Denied(LimiterUnavailable) <==> q.prechecked && q.limiterFault)
      && (v == Denied(RateLimited) <==> slot && !rated)
      && (v == Denied(LimitsUnavailable) <==> (rated && !looked) || (counted && q.accountingWired && q.ceilingFault))
      && (v == Denied(QuotaUnavailable) <==> looked && quota && q.quotaFault)
      && (v == Denied(QuotaExceeded) <==> looked && !(quota && q.quotaFault) && OverTokens(d.tokens.used, q))
      && (v.Denied? && v.why.Money? <==> money && AskMoney(d.books, q).outcome.Refused?)
      && (v.Admitted? <==> counted && (q.accountingWired ==> money && AskMoney(d.books, q).outcome.Admitted?))
  {
    TokensDeniedExactlyWhen(d.tokens, q);
    hide Lim.AllowOn, Lim.ReleaseOn, Lim.Admits, ReserveTokens, ReleaseTokens, A.Admit, OverTokens;
  }

  // ---- Refund ----

  /** The handler's refund and deferred slot release of an admitted request. */
  function Refund(d: Desk, v: Verdict, subject: string): Desk
    requires v.Admitted? && (v.money.Some? ==> A.Held(d.books, v.money.value))
  {
    Desk(Lim.ReleaseOn(d.limits, subject), ReleaseTokens(d.tokens, v.quota),
         if v.money.None? then d.books else A.ReleaseOn(d.books, v.money.value, false).books)
  }

  /** Admission followed by refund is invisible on the gauges, leaves its ledger row
      released, and puts each kind of counter back exactly if and only if the charge
      met no counter of it stored at zero or below. */
  lemma AdmitThenRefund(c: Lim.Config, d: Desk, q: Ask)
    requires Typed(d, q) && Admit(c, d, q).1.Admitted?
    ensures var (d1, v) := Admit(c, d, q);
      && (v.money.Some? ==> A.Held(d1.books, v.money.value))
      && var d2 := Refund(d1, v, q.subject);
      && (forall s :: Lim.Active(d2.limits, s) == Lim.Active(d.limits, s))
      && (d2.tokens.used == d.tokens.used <==> TokensReversible(d.tokens, q))
      && (d2.books.budget.used == d.books.budget.used <==> (v.money.Some? ==> MoneyReversible(d.books, q)))
      && (v.money.Some? ==>
            d2.books.ledger
            == L.ReleaseRow(L.InsertReserved(d.books.ledger, L.Identity(q.requestId, ""), q.subject, q.now),
                            L.Identity(q.requestId, "")))
  {
    var (d1, v) := Admit(c, d, q);
    AdmissionHoldsEverything(c, d, q);
    TokensRollBack(d.tokens, q);
    if q.accountingWired {
      MoneyRollsBack(d.books, q);
    }
    hide Lim.AllowOn, Lim.ReleaseOn, Lim.Admits, Lim.Active, ReserveTokens, ReleaseTokens, A.Admit, A.ReleaseOn,
         L.ReleaseRow, L.InsertReserved, TokensReversible, MoneyReversible, B.Stored;
    var limited := Lim.AllowOn(c, d.limits, q.subject, q.now);
    forall s ensures Lim.Active(Lim.ReleaseOn(d1.limits, q.subject), s) == Lim.Active(d.limits, s) {
      SlotRollsBack(c, limited, q.subject, q.now, s);
    }
  }

  lemma MoneyRollsBack(b: A.Books, q: Ask)
    requires B.Stored(b.budget.used) && AskMoney(b, q).outcome.Admitted?
    ensures var a := AskMoney(b, q);
      && A.Held(a.books, a.outcome.handle)
      && var s := A.ReleaseOn(a.books, a.outcome.handle, false);
      && (s.books.budget.used == b.budget.used <==> MoneyReversible(b, q))
      && s.books.ledger == L.ReleaseRow(a.books.ledger, L.Identity(q.requestId, ""))
  {
    var a := AskMoney(b, q);
    A.AdmissionIsCharged(b, q.budgetsWired, q.enforcement, q.policy, q.price, RequestOf(q), q.ledgerFault);
    if a.outcome.handle.charged.Some? {
      var micros := A.EstimateMicros(q.policy.value, q.price.value, q.estimate).value;
      A.CostIsAnAmount(q.price.value.value, q.estimate);
      B.KeysDistinct("", q.subject, q.tenant, q.stamp);
      B.ReserveReleaseRestores(b.budget, B.BudgetKeys("", q.subject, q.tenant, q.stamp),
                               q.policy.value.limits.InOrder(), micros);
    }
    hide B.FirstRefusal, B.Capped, B.Charge, B.Adjust, B.BudgetKeys, Cost.Cost, L.ReleaseRow, B.Restorable, B.Stored;
  }

  // ---- The pipeline ----

  /** The price lookup took part in the answer. */
  predicate MoneyReached(q: Ask, v: Verdict) {
    q.accountingWired && (v.Admitted? || v.why.Money?)
  }

  ghost function View(limiter: Lim.Limiter, tokens: B.MemoryBudget, gate: A.Gate): Desk
    reads limiter, tokens, gate, gate.store, gate.budgets
  {
    Desk(limiter.View(), tokens.View(), gate.View())
  }

  lemma DenialKeepsTokens(g: B.Gate, q: Ask)
    ensures ReserveTokens(g, q).1.Denied? ==> ReserveTokens(g, q).0 == g
  {
    hide B.FirstRefusal, B.Capped, B.Charge, TokenKeys;
  }

  /** The token quota, skipped when nothing is configured. */
  method ReserveQuota(tokens: B.MemoryBudget, q: Ask) returns (held: B.BudgetReservation?, outcome: B.Outcome)
    requires tokens.Valid()
    modifies tokens
    ensures tokens.Valid() && (tokens.View(), outcome) == ReserveTokens(old(tokens.View()), q)
    ensures held != null <==> outcome.Granted?
    ensures held != null ==> fresh(held) && held.g == tokens && held.id == outcome.id && held.Handle()
  {
    if !QuotaApplies(q) {
      return null, B.Noop;
    }
    held, outcome := tokens.Reserve(TokenKeys(q.subject, q.stamp), [q.dailyTokens, q.monthlyTokens], q.tokens);
  }

  /** Gives back the token reservation and the limiter slot. */
  method RollBack(limiter: Lim.Limiter, tokens: B.MemoryBudget, held: B.BudgetReservation?, subject: string)
    requires tokens.Valid() && (held != null ==> held.g == tokens && held.Handle())
    modifies limiter, tokens
    ensures tokens.Valid()
    ensures limiter.View() == Lim.ReleaseOn(old(limiter.View()), subject)
    ensures tokens.View() == ReleaseTokens(old(tokens.View()), if held == null then None else Some(held.id))
  {
    if held != null {
      held.Release();
    }
    limiter.Release(subject);
  }

  /** The money stage, with the earlier resources in hand. */
  method AdmitAccounting(limiter: Lim.Limiter, tokens: B.MemoryBudget, gate: A.Gate, held: B.BudgetReservation?,
                         provider: string, model: string, priceFault: bool, q: Ask) returns (v: Verdict)
    requires tokens.Valid() && gate.Valid() && tokens != gate.budgets
        && (held != null ==> held.g == tokens && held.Handle())
    requires q.budgetsWired == (gate.budgets != null) && q.enforcement == gate.enforcement
    modifies limiter, tokens, gate.store, gate.budgets
    ensures tokens.Valid() && gate.Valid()
    ensures var quota := if held == null then None else Some(held.id);
      && (!MoneyReached(q, v) ==> (View(limiter, tokens, gate), v)
                                  == AdmitMoney(old(View(limiter, tokens, gate)), q, quota))

      && (MoneyReached(q, v) ==>
            exists p :: L.InForce(gate.store.catalog, provider, model, q.now, p)
                     && (View(limiter, tokens, gate), v)
                        == AdmitMoney(old(View(limiter, tokens, gate)), q.(price := A.Read(p, priceFault)), quota))
  {
    hide Lim.ReleaseOn, ReleaseTokens, A.Admit, L.InForce, AdmitMoney;
    ghost var d := View(limiter, tokens, gate);
    var quota := if held == null then None else Some(held.id);
    if !q.accountingWired {
      MoneySkipped(d, q, quota);
      return Admitted(quota, None);
    }
    if q.ceilingFault {
      MoneySkipped(d, q, quota);
      RollBack(limiter, tokens, held, q.subject);
      return Denied(LimitsUnavailable);
    }
    var res, answer := gate.Reserve(q.policy, provider, model, RequestOf(q), priceFault, q.ledgerFault);
    ghost var p :| L.InForce(gate.store.catalog, provider, model, q.now, p)
      && A.Admission(gate.View(), answer)
         == A.Admit(d.books, gate.budgets != null, gate.enforcement, q.policy, A.Read(p, priceFault), RequestOf(q),
                    q.ledgerFault);
    MoneyAsked(d, q.(price := A.Read(p, priceFault)), quota, gate.View(), answer);
    if answer.Refused? {
      RollBack(limiter, tokens, held, q.subject);
      return Denied(Money(answer.error));
    }
    return Verdict.Admitted(quota, Some(answer.handle));
  }

  lemma MoneySkipped(d: Desk, q: Ask, quota: Option<nat>)
    ensures !q.accountingWired ==> AdmitMoney(d, q, quota) == (d, Admitted(quota, None))
    ensures q.accountingWired && q.ceilingFault ==>
      AdmitMoney(d, q, quota)
      == (d.(limits := Lim.ReleaseOn(d.limits, q.subject), tokens := ReleaseTokens(d.tokens, quota)),
          Denied(LimitsUnavailable))
  {
  }

  lemma MoneyAsked(d: Desk, q: Ask, quota: Option<nat>, books: A.Books, answer: A.Outcome)
    requires q.accountingWired && !q.ceilingFault && AskMoney(d.books, q) == A.Admission(books, answer)
    ensures AdmitMoney(d, q, quota)
         == match answer
            case Admitted(h) => (d.(books := books), Verdict.Admitted(quota, Some(h)))
            case Refused(e) =>
              (Desk(Lim.ReleaseOn(d.limits, q.subject), ReleaseTokens(d.tokens, quota), books), Denied(Money(e)))
  {
    hide A.Admit;
  }

  /** Steps 5 to 7 against the real gates. The price source answers with the price
      in force unless priceFault; otherwise the outcome is the specification's. */
  method AdmitRequest(limiter: Lim.Limiter, tokens: B.MemoryBudget, gate: A.Gate, provider: string, model: string,
                      priceFault: bool, q: Ask) returns (v: Verdict)
    requires tokens.Valid() && gate.Valid() && tokens != gate.budgets
    requires q.budgetsWired == (gate.budgets != null) && q.enforcement == gate.enforcement
    modifies limiter, tokens, gate.store, gate.budgets
    ensures tokens.Valid() && gate.Valid()
    ensures !MoneyReached(q, v) ==>
      (View(limiter, tokens, gate), v) == Admit(limiter.config, old(View(limiter, tokens, gate)), q)
    ensures MoneyReached(q, v) ==>
      exists p :: L.InForce(gate.store.catalog, provider, model, q.now, p)
               && (View(limiter, tokens, gate), v)
                  == Admit(limiter.config, old(View(limiter, tokens, gate)), q.(price := A.Read(p, priceFault)))
  {
    hide Lim.AllowOn, Lim.ReleaseOn, Lim.Admits, ReserveTokens, ReleaseTokens, A.Admit, L.InForce;
    if !q.prechecked {
      return Denied(Precheck);
    }
    if q.limiterFault {
      return Denied(LimiterUnavailable);
    }
    var ok, _ := limiter.Allow(q.subject, q.now);
    if !ok {
      return Denied(RateLimited);
    }
    if q.quotaWired && q.limitsFault {
      limiter.Release(q.subject);
      return Denied(LimitsUnavailable);
    }
    if QuotaApplies(q) && q.quotaFault {
      limiter.Release(q.subject);
      return Denied(QuotaUnavailable);
    }
    DenialKeepsTokens(tokens.View(), q);
    var held, outcome := ReserveQuota(tokens, q);
    if outcome.Denied? {
      limiter.Release(q.subject);
      return Denied(QuotaExceeded);
    }
    SamePrice(old(tokens.View()), q);
    hide AdmitMoney;
    v := AdmitAccounting(limiter, tokens, gate, held, provider, model, priceFault, q);
  }

  /** The token stage does not depend on the price. */
  lemma SamePrice(g: B.Gate, q: Ask)
    ensures forall price :: ReserveTokens(g, q.(price := price)) == ReserveTokens(g, q)
  {
    hide B.ReserveOn, TokenKeys;
  }
}
