/** The composite reservation (internal/accounting/accounting.go): budget
    counters charged by the gate plus the durable ledger row, reserved together
    and finalized together. Store answers and outages are inputs. */
module Accounting {
  import opened Common
  import Int64
  import Cost
  import B = Budget
  import L = Ledger

  /** What a store read returned; Conflict is the mixed-currency policy error. */
  datatype Fetch<+T> = Got(value: T) | Outage | Conflict

  /** Go error values: the sentinels, any other store error, a budget denial, and
      fmt.Errorf("%w: %v", wraps, quotes), whose chain holds only what it wraps. */
  datatype ReserveError =
    | ErrUnavailable
    | ErrPricingUnavailable
    | ErrBudgetConfig
    | StoreError
    | BudgetDenied(denial: B.Denial)
    | Annotated(wraps: ReserveError, quotes: ReserveError)
  {
    /** errors.Is. */
    predicate Is(target: ReserveError) {
      if Annotated? then wraps.Is(target) else this == target
    }

    /** errors.As for the denial type. */
    predicate IsDenial() {
      if Annotated? then wraps.IsDenial() else BudgetDenied?
    }

    /** The text of the error mentions the other. */
    predicate Mentions(other: ReserveError) {
      this == other || (Annotated? && (wraps.Mentions(other) || quotes.Mentions(other)))
    }
  }

  /** How every infrastructure failure is returned. */
  function Unavailable(err: ReserveError): ReserveError {
    Annotated(ErrUnavailable, err)
  }

  /** What a failed read of the policy returns. */
  function FetchError<T>(f: Fetch<T>): ReserveError
    requires !f.Got?
  {
    if f.Conflict? then ErrBudgetConfig else StoreError
  }

  /** The worker's classification: a terminal failure class, or none for an
      outage, which hands the job back free. */
  function WorkerClass(e: ReserveError): Option<string> {
    if e.IsDenial() then Some("budget_exceeded")
    else if e.Is(ErrPricingUnavailable) || e.Is(ErrBudgetConfig) then
      Some(if e.Is(ErrBudgetConfig) then "budget_configuration_error" else "pricing_unavailable")
    else None
  }

  /** The synchronous handlers' envelope code for the same error. */
  function EnvelopeCode(e: ReserveError): Option<string> {
    if e.Is(ErrUnavailable) then Some("limiter_unavailable")
    else if e.Is(ErrPricingUnavailable) then Some("pricing_unavailable")
    else if e.Is(ErrBudgetConfig) then Some("budget_configuration_error")
    else if e.IsDenial() then Some("budget_exceeded")
    else None
  }

  /** Both sets of books. */
  datatype Books = Books(budget: B.Gate, ledger: L.Table)

  /** One admitted request; charged is the counter reservation, if enforcement
      charged one. */
  datatype Handle = Handle(id: L.Identity, charged: Option<nat>, settled: bool, released: bool) {
    predicate Open() {
      !settled && !released
    }
  }

  datatype Policy = Policy(limits: B.Limits, currency: string)

  /** Everything a reservation is asked with. */
  datatype Request = Request(id: L.Identity, subject: string, tenant: string, stamp: B.Stamp, now: int,
                             estimate: Cost.Usage)

  // ---- Reserve on values ----

  datatype Admission = Admission(books: Books, outcome: Outcome)
  datatype Outcome = Admitted(handle: Handle) | Refused(error: ReserveError)

  predicate Applies(enforcement: bool, policy: Policy) {
    enforcement && policy.limits.Configured()
  }

  /** The estimate's price in micros, when the budget can be evaluated at all. */
  function EstimateMicros(policy: Policy, price: Option<Cost.Price>, estimate: Cost.Usage): Option<int> {
    if price.None? || price.value.currency != policy.currency then None
    else
      var micros := Cost.Cost(price.value, estimate);
      if micros.None? || micros.value <= 0 then None else micros
  }

  function Admit(b: Books, wired: bool, enforcement: bool, policy: Fetch<Policy>, price: Fetch<Option<Cost.Price>>,
                 req: Request, ledgerFault: bool): Admission
  {
    if !policy.Got? then Admission(b, Refused(Unavailable(FetchError(policy))))
    else if !Applies(enforcement, policy.value) then WriteRow(b, None, req, ledgerFault)
    else if !wired then Admission(b, Refused(Unavailable(StoreError)))
    else if !price.Got? then Admission(b, Refused(Unavailable(FetchError(price))))
    else
      match EstimateMicros(policy.value, price.value, req.estimate)
      case None => Admission(b, Refused(ErrPricingUnavailable))
      case Some(micros) =>
        var keys := B.BudgetKeys("", req.subject, req.tenant, req.stamp);
        match B.ReserveOn(b.budget, keys, policy.value.limits.InOrder(), micros)
        case (budget, Denied(denial)) => Admission(Books(budget, b.ledger), Refused(BudgetDenied(denial)))
        case (budget, Noop) => WriteRow(Books(budget, b.ledger), None, req, ledgerFault)
        case (budget, Granted(n)) => WriteRow(Books(budget, b.ledger), Some(n), req, ledgerFault)
  }

  /** The last step: the durable row, or the refund of what was charged. */
  function WriteRow(b: Books, charged: Option<nat>, req: Request, ledgerFault: bool): Admission {
    if ledgerFault then
      Admission(
        if charged.Some? && B.Known(b.budget, charged.value) then Books(B.ReleaseOn(b.budget, charged.value), b.ledger)
        else b,
        Refused(Unavailable(StoreError)))
    else
      Admission(
        Books(b.budget, L.InsertReserved(b.ledger, req.id, req.subject, req.now)),
        Admitted(Handle(req.id, charged, false, false)))
  }

  // ---- Finalization on values ----

  /** One finalization call and the answers it meets. */
  datatype Call =
    | CallSettle(usage: Cost.Usage, price: Fetch<Option<Cost.Price>>, at: int, fault: bool)
    | CallRelease(fault: bool)

  datatype Step = Step(books: Books, handle: Handle, ok: bool)

  /** The computed cost and the column values of a settlement. */
  function CostOf(usage: Cost.Usage, price: Option<Cost.Price>): Option<int> {
    if usage.Reported() && price.Some? then Cost.Cost(price.value, usage) else None
  }

  function FinalOf(usage: Cost.Usage, price: Option<Cost.Price>, at: int): L.Final {
    if usage.Reported() && price.Some? then
      L.Final(usage, Cost.Cost(price.value, usage), Some(price.value.version), price.value.currency, at)
    else L.Final(usage, None, None, "", at)
  }

  predicate Held(b: Books, h: Handle) {
    h.charged.Some? ==> B.Known(b.budget, h.charged.value)
  }

  function SettleOn(b: Books, h: Handle, usage: Cost.Usage, price: Fetch<Option<Cost.Price>>, at: int,
                    fault: bool): Step
    requires Held(b, h)
  {
    if !h.Open() then Step(b, h, true)
    else if usage.Reported() && !price.Got? then Step(b, h, false)
    else
      var p := if usage.Reported() then price.value else None;
      if fault then Step(b, h, false)
      else
        match L.SettleRow(b.ledger, h.id, FinalOf(usage, p, at))
        case (ledger, Failed) => Step(Books(b.budget, ledger), h, false)
        case (ledger, Done(_)) =>
          var budget := if h.charged.Some? then B.SettleOn(b.budget, h.charged.value, CostOf(usage, p)) else b.budget;
          Step(Books(budget, ledger), h.(settled := true), true)
  }

  /** Refunds the counters first; the flag commits only when the row did. */
  function ReleaseOn(b: Books, h: Handle, fault: bool): Step
    requires Held(b, h)
  {
    if !h.Open() then Step(b, h, true)
    else
      var budget := if h.charged.Some? then B.ReleaseOn(b.budget, h.charged.value) else b.budget;
      if fault then Step(Books(budget, b.ledger), h, false)
      else Step(Books(budget, L.ReleaseRow(b.ledger, h.id)), h.(released := true), true)
  }

  function Apply(b: Books, h: Handle, c: Call): (s: Step)
    requires Held(b, h)
    ensures Held(s.books, s.handle)
    ensures s.handle.id == h.id && s.handle.charged == h.charged
    ensures |s.books.budget.log| == |b.budget.log|
  {
    match c
    case CallSettle(usage, price, at, fault) => SettleOn(b, h, usage, price, at, fault)
    case CallRelease(fault) => ReleaseOn(b, h, fault)
  }

  function Finish(b: Books, h: Handle, calls: seq<Call>): (s: Step)
    requires Held(b, h)
    ensures Held(s.books, s.handle) && s.handle.id == h.id && s.handle.charged == h.charged
    decreases |calls|
  {
    if calls == [] then Step(b, h, true)
    else
      var s := Apply(b, h, calls[0]);
      Finish(s.books, s.handle, calls[1..])
  }

  // ---- Admission: all or nothing ----

  lemma CostIsAnAmount(p: Cost.Price, u: Cost.Usage)
    ensures Cost.Cost(p, u).Some? ==> 0 <= Cost.Cost(p, u).value <= Int64.MAX
  {
    hide Int64.Wrap, Int64.Quot;
  }

  /** The admission charges a budget. */
  predicate Charges(b: Books, wired: bool, enforcement: bool, policy: Fetch<Policy>, price: Fetch<Option<Cost.Price>>,
                    req: Request)
  {
    && policy.Got? && Applies(enforcement, policy.value) && wired && price.Got?
    && var micros := EstimateMicros(policy.value, price.value, req.estimate);
    && micros.Some?
    && B.ReserveOn(b.budget, B.BudgetKeys("", req.subject, req.tenant, req.stamp), policy.value.limits.InOrder(),
                   micros.value).1.Granted?
  }

  /** If it does, the counters it charges can be put back exactly. */
  predicate Reversible(b: Books, wired: bool, enforcement: bool, policy: Fetch<Policy>,
                       price: Fetch<Option<Cost.Price>>, req: Request)
  {
    Charges(b, wired, enforcement, policy, price, req) ==>
      B.Restorable(b.budget.used, B.BudgetKeys("", req.subject, req.tenant, req.stamp), policy.value.limits.InOrder())
  }

  /** Every admission that fails leaves both books as they were: no row, and the
      very same counters, even when the check wraps, if and only if a charge it had
      to take back met no counter stored at zero or below. (A conserved gate stores
      none.) */
  lemma RefusalLeavesNothing(b: Books, wired: bool, enforcement: bool, policy: Fetch<Policy>,
                             price: Fetch<Option<Cost.Price>>, req: Request, ledgerFault: bool)
    requires B.Stored(b.budget.used)
    requires Admit(b, wired, enforcement, policy, price, req, ledgerFault).outcome.Refused?
    ensures var b' := Admit(b, wired, enforcement, policy, price, req, ledgerFault).books;
      && b'.ledger == b.ledger
      && (b'.budget.used == b.budget.used <==> Reversible(b, wired, enforcement, policy, price, req))
  {
    if policy.Got? && Applies(enforcement, policy.value) && wired && price.Got? {
      var micros := EstimateMicros(policy.value, price.value, req.estimate);
      if micros.Some? {
        CostIsAnAmount(price.value.value, req.estimate);
        var keys := B.BudgetKeys("", req.subject, req.tenant, req.stamp);
        var limits := policy.value.limits.InOrder();
        hide Cost.Cost, B.BudgetKeys, B.Capped, B.Charge, B.Adjust, B.FirstRefusal, B.Restorable, B.Stored;
        var (budget, outcome) := B.ReserveOn(b.budget, keys, limits, micros.value);
        if outcome.Granted? {
          B.KeysDistinct("", req.subject, req.tenant, req.stamp);
          B.ReserveReleaseRestores(b.budget, keys, limits, micros.value);
        }
      }
    }
  }

  /** An admission writes exactly one reserved row, and a configured, enforced
      budget is never admitted uncharged: its handle holds a reservation of the
      positive priced estimate on precisely the capped counters. */
  lemma AdmissionIsCharged(b: Books, wired: bool, enforcement: bool, policy: Fetch<Policy>,
                           price: Fetch<Option<Cost.Price>>,
                           req: Request, ledgerFault: bool)
    requires Admit(b, wired, enforcement, policy, price, req, ledgerFault).outcome.Admitted?
    ensures policy.Got?
    ensures var a := Admit(b, wired, enforcement, policy, price, req, ledgerFault);
      var h := a.outcome.handle;
      && a.books.ledger == L.InsertReserved(b.ledger, req.id, req.subject, req.now)
      && h.Open() && h.id == req.id && Held(a.books, h)
      && (h.charged.Some? <==> Applies(enforcement, policy.value))
      && (h.charged.None? ==> a.books.budget == b.budget)
      && (h.charged.Some? ==>
            && price.Got?
            && var e := a.books.budget.log[h.charged.value - 1];
            && e.fin.None?
            && EstimateMicros(policy.value, price.value, req.estimate) == Some(e.estimate) && e.estimate > 0
            && e.keys
               == B.Capped(B.BudgetKeys("", req.subject, req.tenant, req.stamp), policy.value.limits.InOrder(), 4))
  {
    if Applies(enforcement, policy.value) && price.Got? {
      var micros := EstimateMicros(policy.value, price.value, req.estimate);
      var limits := policy.value.limits.InOrder();
      assert exists i :: 0 <= i < 4 && limits[i] > 0 by {
        assert limits[0] == policy.value.limits.subjectDaily && limits[1] == policy.value.limits.subjectMonthly;
        assert limits[2] == policy.value.limits.tenantDaily && limits[3] == policy.value.limits.tenantMonthly;
      }
    }
  }

  /** An admission is the request's own: one reserved row under its identity and its
      subject, and a charge, if there is one, on the capped ones of its subject's and
      its tenant's counters of that day and month. */
  lemma AdmissionIsItsOwn(b: Books, wired: bool, enforcement: bool, policy: Fetch<Policy>,
                          price: Fetch<Option<Cost.Price>>, req: Request, ledgerFault: bool)
    requires Admit(b, wired, enforcement, policy, price, req, ledgerFault).outcome.Admitted?
    ensures var a := Admit(b, wired, enforcement, policy, price, req, ledgerFault);
      && |a.books.ledger| == |b.ledger| + 1 && a.books.ledger[..|b.ledger|] == b.ledger
      && var row := a.books.ledger[|b.ledger|];
      && row.requestId == (if req.id.requestId == "" then None else Some(req.id.requestId))
      && row.jobId == (if req.id.jobId == "" then None else Some(req.id.jobId))
      && row.status == L.Reserved && row.final.None? && row.subject == req.subject && row.createdAt == req.now
      && (a.outcome.handle.charged.Some? ==>
            && policy.Got? && B.Known(a.books.budget, a.outcome.handle.charged.value)
            && var keys, caps := a.books.budget.log[a.outcome.handle.charged.value - 1].keys, policy.value.limits;
            && (B.SubjectDay(req.subject, req.stamp) in keys <==> caps.subjectDaily > 0)
            && (B.SubjectMonth(req.subject, req.stamp) in keys <==> caps.subjectMonthly > 0)
            && (B.TenantDay(req.tenant, req.stamp) in keys <==> caps.tenantDaily > 0)
            && (B.TenantMonth(req.tenant, req.stamp) in keys <==> caps.tenantMonthly > 0))
  {
    var a := Admit(b, wired, enforcement, policy, price, req, ledgerFault);
    AdmissionIsCharged(b, wired, enforcement, policy, price, req, ledgerFault);
    if a.outcome.handle.charged.Some? {
      var micros := EstimateMicros(policy.value, price.value, req.estimate).value;
      B.GrantChargesTheCapped(b.budget, req.subject, req.tenant, req.stamp, policy.value.limits, micros);
    }
    hide B.ReserveOn, B.BudgetKeys, B.Capped, EstimateMicros, B.SubjectDay, B.SubjectMonth, B.TenantDay, B.TenantMonth,
        Cost.Cost;
  }

  /** Where nothing is enforced, or no cap is set, an admission needs no price and
      charges nothing; where one is enforced, an unread policy, a missing gate or an
      unread price refuses as an outage and changes nothing. */
  lemma ChargedOnlyWhenEnforced(b: Books, wired: bool, enforcement: bool, policy: Fetch<Policy>,
                                price: Fetch<Option<Cost.Price>>, req: Request, ledgerFault: bool)
    ensures var a := Admit(b, wired, enforcement, policy, price, req, ledgerFault);
      var enforced := enforcement && policy.Got? &&
        var caps := policy.value.limits;
        (caps.subjectDaily > 0 || caps.subjectMonthly > 0 || caps.tenantDaily > 0 || caps.tenantMonthly > 0);
      && (!policy.Got? || (enforced && (!wired || !price.Got?)) ==>
            a.books == b && a.outcome.Refused? && a.outcome.error.Is(ErrUnavailable))
      && (policy.Got? && !enforced ==>
            && a.books.budget == b.budget
            && (a.outcome.Admitted? <==> !ledgerFault)
            && (ledgerFault ==> a.books == b && a.outcome.error.Is(ErrUnavailable))
            && (!ledgerFault ==>
                  && a.outcome.handle.charged.None? && |a.books.ledger| == |b.ledger| + 1
                  && var row := a.books.ledger[|b.ledger|];
                  && row.status == L.Reserved && row.Matches(req.id) && row.subject == req.subject
                  && row.createdAt == req.now && row.final.None?))
  {
    hide B.ReserveOn, B.BudgetKeys, Cost.Cost;
  }

  /** What an enforced budget charges. With a cap, a price and a gate at hand the
      request is unpriceable exactly when there is no price, the price is in another
      currency, or the estimate has no positive cost that fits; otherwise it is denied
      or charged its exact cost, which for counts that are not negative is the sum of
      price times count, and never anything else. */
  lemma EstimateIsCharged(b: Books, policy: Policy, price: Option<Cost.Price>, req: Request, ledgerFault: bool)
    requires policy.limits.subjectDaily > 0 || policy.limits.subjectMonthly > 0
          || policy.limits.tenantDaily > 0 || policy.limits.tenantMonthly > 0
    requires price.Some? ==> Cost.Listed(price.value)
    requires Cost.Countable(req.estimate) && Cost.NonNegative(req.estimate.prompt)
          && Cost.NonNegative(req.estimate.completion) && Cost.NonNegative(req.estimate.reasoning)
    ensures var a := Admit(b, true, true, Got(policy), Got(price), req, ledgerFault);
      var priced := price.Some? && price.value.currency == policy.currency
          && Cost.Chargeable(price.value, req.estimate)
          && 0 < Cost.ExactTotal(price.value, req.estimate) <= Int64.MAX;
      && (a.outcome == Refused(ErrPricingUnavailable) <==> !priced)
      && (a.outcome.Admitted? ==>
            && priced && a.outcome.handle.charged == Some(|b.budget.log| + 1)
            && a.books.budget.log[|b.budget.log|].estimate == Cost.ExactTotal(price.value, req.estimate)
            && a.books.budget.log[|b.budget.log|].fin.None?)
      && (priced ==>
            (a.outcome.Refused? && a.outcome.error.BudgetDenied? <==>
             B.Refuses(b.budget.used, req.subject, req.tenant, req.stamp, policy.limits,
                       Cost.ExactTotal(price.value, req.estimate))))
  {
    var limits := policy.limits.InOrder();
    assert limits[0] == policy.limits.subjectDaily && limits[1] == policy.limits.subjectMonthly;
    assert limits[2] == policy.limits.tenantDaily && limits[3] == policy.limits.tenantMonthly;
    if price.Some? {
      Cost.CostIsExact(price.value, req.estimate);
      if Cost.ExactTotal(price.value, req.estimate) > 0 {
        B.CapsGuardTheirCounters(b.budget, req.subject, req.tenant, req.stamp, policy.limits,
                                 Cost.ExactTotal(price.value, req.estimate));
      }
    }
    hide Cost.Cost, Cost.ExactTotal, Cost.Chargeable, B.BudgetKeys, B.Refuses, B.Capped, B.Charge, L.InsertReserved;
  }

  /** For estimates of any counts the amount is the computed cost. */
  lemma CostIsCharged(b: Books, policy: Policy, price: Option<Cost.Price>, req: Request, ledgerFault: bool)
    requires policy.limits.subjectDaily > 0 || policy.limits.subjectMonthly > 0
          || policy.limits.tenantDaily > 0 || policy.limits.tenantMonthly > 0
    ensures var a := Admit(b, true, true, Got(policy), Got(price), req, ledgerFault);
      var cost := if price.None? then None else Cost.Cost(price.value, req.estimate);
      && (a.outcome == Refused(ErrPricingUnavailable) <==>
            cost.None? || cost.value <= 0 || price.value.currency != policy.currency)
      && (a.outcome.Admitted? ==>
            && cost.Some? && |a.books.budget.log| == |b.budget.log| + 1
            && a.books.budget.log[|b.budget.log|].estimate == cost.value)
  {
    var limits := policy.limits.InOrder();
    assert limits[0] == policy.limits.subjectDaily && limits[1] == policy.limits.subjectMonthly;
    assert limits[2] == policy.limits.tenantDaily && limits[3] == policy.limits.tenantMonthly;
    hide Cost.Cost, B.BudgetKeys, B.Capped, B.Charge, L.InsertReserved, B.ReleaseOn, FetchError, Unavailable;
    assert exists i :: 0 <= i < 4 && limits[i] > 0;
  }

  /** And that is the exact total if and only if no priced class has a negative
      count. */
  lemma AnyEstimateIsCharged(b: Books, policy: Policy, price: Cost.Price, req: Request, ledgerFault: bool)
    requires policy.limits.subjectDaily > 0 || policy.limits.subjectMonthly > 0
          || policy.limits.tenantDaily > 0 || policy.limits.tenantMonthly > 0
    requires Cost.Listed(price) && Cost.Countable(req.estimate)
    requires Admit(b, true, true, Got(policy), Got(Some(price)), req, ledgerFault).outcome.Admitted?
    ensures var entry := Admit(b, true, true, Got(policy), Got(Some(price)), req, ledgerFault).books.budget.log;
      && |entry| > |b.budget.log|
      && (entry[|b.budget.log|].estimate == Cost.ExactTotal(price, req.estimate) <==>
          !Cost.NegativelyPriced(Cost.Items(price, req.estimate)))
  {
    hide *;
    CostIsCharged(b, policy, Some(price), req, ledgerFault);
    Cost.CostExactIff(price, req.estimate);
  }

  /** A mixed-currency policy never reaches the callers as one. Whatever the
      reservation meets, no error it returns has the configuration sentinel in its
      chain, although its text may mention it, so neither caller ever produces the
      class both keep for it; a conflict is classified as an outage. The errors that
      do fail a job are exactly the denials and the missing prices. */
  lemma PolicyConflictIsMasked(b: Books, wired: bool, enforcement: bool, policy: Fetch<Policy>,
                               price: Fetch<Option<Cost.Price>>, req: Request, ledgerFault: bool)
    requires Admit(b, wired, enforcement, policy, price, req, ledgerFault).outcome.Refused?
    ensures var e := Admit(b, wired, enforcement, policy, price, req, ledgerFault).outcome.error;
      && !e.Is(ErrBudgetConfig)
      && WorkerClass(e) != Some("budget_configuration_error") && EnvelopeCode(e) != Some("budget_configuration_error")
      && (policy.Conflict? ==>
            e.Mentions(ErrBudgetConfig) && WorkerClass(e).None? && EnvelopeCode(e) == Some("limiter_unavailable"))
      && (WorkerClass(e).Some? <==> e == ErrPricingUnavailable || e.BudgetDenied?)
      && (e == ErrPricingUnavailable ==> WorkerClass(e) == EnvelopeCode(e) == Some("pricing_unavailable"))
      && (e.BudgetDenied? ==> WorkerClass(e) == EnvelopeCode(e) == Some("budget_exceeded"))
      && (WorkerClass(e).None? ==> EnvelopeCode(e) == Some("limiter_unavailable"))
      && (WorkerClass(e).None? <==> e.Is(ErrUnavailable))
  {
    hide B.BudgetKeys, B.ReserveOn, B.ReleaseOn, Cost.Cost, L.InsertReserved;
    if policy.Conflict? {
      assert ErrBudgetConfig.Mentions(ErrBudgetConfig);
    }
  }

  /** The class is dead only because of that wrapping: unwrapped, or wrapped with
      %w, the sentinel is classified by both callers. */
  lemma UnmaskedConflictIsClassified(e: ReserveError, text: ReserveError)
    requires e == ErrBudgetConfig || e == Annotated(ErrBudgetConfig, text)
    ensures WorkerClass(e) == EnvelopeCode(e) == Some("budget_configuration_error")
  {
    if e.Annotated? {
      assert forall t: ReserveError :: e.Is(t) == ErrBudgetConfig.Is(t);
      assert !ErrBudgetConfig.IsDenial();
    }
  }

  // ---- Finalization: exactly once, and what a failure leaves behind ----

  /** A settlement that returns an error did nothing: the row stays reserved, the
      counters are untouched and the handle is still open. */
  lemma SettleErrorChangesNothing(b: Books, h: Handle, usage: Cost.Usage, price: Fetch<Option<Cost.Price>>, at: int,
                                  fault: bool)
    requires Held(b, h) && !SettleOn(b, h, usage, price, at, fault).ok
    ensures SettleOn(b, h, usage, price, at, fault) == Step(b, h, false)
  {
  }

  /** What a settlement records. The counters and the row carry the exact cost of the
      reported usage at the price in force, if there is one and the cost can be
      computed, and otherwise the counters keep the estimate and the row has no cost;
      the row keeps the usage as reported, with the price's version and currency. */
  lemma SettlementCharges(b: Books, h: Handle, usage: Cost.Usage, price: Fetch<Option<Cost.Price>>, at: int,
                          fault: bool)
    requires PlainReservation(b, h) && b.budget.log[h.charged.value - 1].fin.None?
    requires price.Got? && price.value.Some? ==> Cost.Listed(price.value.value)
    requires Cost.Countable(usage) && Cost.NonNegative(usage.prompt) && Cost.NonNegative(usage.completion)
          && Cost.NonNegative(usage.reasoning)
    ensures var s := SettleOn(b, h, usage, price, at, fault);
      var reported := usage.prompt.Some? || usage.completion.Some? || usage.reasoning.Some? || usage.cached.Some?;
      var priced := reported && price.Got? && price.value.Some?;
      var cost := if priced && Cost.Chargeable(price.value.value, usage)
                     && Cost.ExactTotal(price.value.value, usage) <= Int64.MAX
                  then Some(Cost.ExactTotal(price.value.value, usage)) else None;
      var e := s.books.budget.log[h.charged.value - 1];
      && (s.ok <==> s.handle.settled)
      && (fault || (reported && !price.Got?) ==> !s.ok)
      && (!s.ok ==> s.books == b && s.handle == h)
      && (s.ok ==> e.estimate + e.fin.GetOr(0) == cost.GetOr(e.estimate))
      && e.estimate == b.budget.log[h.charged.value - 1].estimate
      && (forall n :: 0 <= n < |b.ledger| && s.books.ledger[n] != b.ledger[n] ==>
            && s.ok && b.ledger[n].status == L.Reserved && b.ledger[n].Matches(h.id)
            && s.books.ledger[n] == b.ledger[n].(status := L.Settled, final := Some(L.Final(usage, cost,
                 if priced then Some(price.value.value.version) else None,
                 if priced then price.value.value.currency else "", at))))
  {
    if price.Got? && price.value.Some? {
      Cost.CostIsExact(price.value.value, usage);
      CostIsAnAmount(price.value.value, usage);
    }
    hide Cost.Cost, Cost.ExactTotal, Cost.Chargeable, Cost.Listed, Cost.Countable, B.Adjust, L.Conflicts, L.Storable;
  }

  /** Apart from outages a settlement fails only when a row waits for it and its
      values are refused: a negative count, or a cost without a currency. */
  lemma SettlementFailsExactlyWhen(b: Books, h: Handle, usage: Cost.Usage, price: Fetch<Option<Cost.Price>>, at: int,
                                   fault: bool)
    requires Held(b, h) && h.Open()
    requires price.Got? && price.value.Some? ==> Cost.Listed(price.value.value)
    ensures !SettleOn(b, h, usage, price, at, fault).ok <==>
      var reported := usage.prompt.Some? || usage.completion.Some? || usage.reasoning.Some? || usage.cached.Some?;
      || fault || (reported && !price.Got?)
      || ((exists n :: 0 <= n < |b.ledger| && b.ledger[n].status == L.Reserved && b.ledger[n].Matches(h.id))
          && (HasNegative(usage) || (reported && price.value.Some? && price.value.value.currency == ""
                                     && Cost.Cost(price.value.value, usage).Some?)))
  {
    if price.Got? && price.value.Some? {
      CostIsAnAmount(price.value.value, usage);
    }
    assert forall n :: 0 <= n < |b.ledger| && b.ledger[n].status == L.Reserved && b.ledger[n].Matches(h.id) ==>
      L.Candidate(b.ledger[n], h.id);
    hide Cost.Cost, Cost.Listed, B.SettleOn, L.Conflicts;
  }

  predicate HasNegative(u: Cost.Usage) {
    || (u.prompt.Some? && u.prompt.value < 0) || (u.completion.Some? && u.completion.value < 0)
    || (u.reasoning.Some? && u.reasoning.value < 0) || (u.cached.Some? && u.cached.value < 0)
  }

  /** Usage with a negative count is never charged, whatever Cost makes of it: the
      table's checks reject the settlement of a reserved row, so every retry fails,
      the row stays reserved and the counters keep what they hold. */
  lemma {:induction false} NegativeUsageNeverSettles(b: Books, h: Handle, calls: seq<Call>)
    requires Held(b, h) && h.Open() && L.Latest(b.ledger, h.id, |b.ledger|).Some?
    requires forall c :: c in calls ==> c.CallSettle? && HasNegative(c.usage)
    ensures Finish(b, h, calls).books == b && Finish(b, h, calls).handle == h
    ensures calls != [] ==> !Apply(b, h, calls[0]).ok
    decreases |calls|
  {
    if calls != [] {
      assert calls[0] in calls;
      assert !L.Storable(FinalOf(calls[0].usage, if calls[0].price.Got? then calls[0].price.value else None,
                                 calls[0].at)) by {
        hide Cost.Cost;
      }
      hide Cost.Cost, FinalOf, CostOf, L.Storable;
      NegativeUsageNeverSettles(b, h, calls[1..]);
    }
  }

  /** So a retry converges: any number of failed settlements followed by one call
      is that one call. */
  lemma {:induction false} RetryConverges(b: Books, h: Handle, failed: seq<Call>, last: Call)
    requires Held(b, h)
    requires forall c :: c in failed ==> c.CallSettle? && !Apply(b, h, c).ok
    ensures Finish(b, h, failed + [last]) == Finish(b, h, [last])
    decreases |failed|
  {
    if failed == [] {
      assert failed + [last] == [last];
    } else {
      assert failed[0] in failed;
      var c := failed[0];
      SettleErrorChangesNothing(b, h, c.usage, c.price, c.at, c.fault);
      hide SettleOn, ReleaseOn;
      assert (failed + [last])[0] == failed[0] && (failed + [last])[1..] == failed[1..] + [last];
      RetryConverges(b, h, failed[1..], last);
    }
  }

  /** The first finalization wins: once one has landed, no sequence of further
      calls changes the books. */
  lemma {:induction false} ClosedIsFinal(b: Books, h: Handle, calls: seq<Call>)
    requires Held(b, h) && !h.Open()
    ensures Finish(b, h, calls).books == b && Finish(b, h, calls).handle == h
    decreases |calls|
  {
    if calls != [] {
      ClosedIsFinal(b, h, calls[1..]);
    }
  }

  /** What the handle's reservation leaves on each of its counters. */
  function OnCounters(b: Books, h: Handle): int
    requires Held(b, h) && h.charged.Some?
  {
    var e := b.budget.log[h.charged.value - 1];
    e.estimate + e.fin.GetOr(0)
  }

  /** The first call of a sequence that lands, if any; and whether a release
      failed while the handle was still open. */
  function Landing(b: Books, h: Handle, calls: seq<Call>): Option<Call>
    requires Held(b, h)
    decreases |calls|
  {
    if calls == [] then None
    else
      var s := Apply(b, h, calls[0]);
      if s.ok then Some(calls[0]) else Landing(s.books, s.handle, calls[1..])
  }

  function ReleaseFailedFirst(b: Books, h: Handle, calls: seq<Call>): bool
    requires Held(b, h)
    decreases |calls|
  {
    calls != [] &&
    var s := Apply(b, h, calls[0]);
    !s.ok && (calls[0].CallRelease? || ReleaseFailedFirst(s.books, s.handle, calls[1..]))
  }

  predicate PlainReservation(b: Books, h: Handle) {
    && Held(b, h) && h.charged.Some? && h.Open()
    && 0 < b.budget.log[h.charged.value - 1].estimate <= Int64.MAX
  }

  /** What the books should say after a landing call: an exact cost, the estimate
      when the cost is unknown, nothing after a release. */
  function Expected(estimate: int, landed: Option<Call>): int {
    match landed
    case None => estimate
    case Some(CallRelease(_)) => 0
    case Some(CallSettle(usage, price, _, _)) =>
      CostOf(usage, if usage.Reported() && price.Got? then price.value else None).GetOr(estimate)
  }

  /** Finalization, completely: for every sequence of calls on one reservation,
      with outages anywhere, the counters end up holding exactly what the landing
      call says, unless a release failed before it. A failed release has already
      refunded the counters, for good, whatever lands later. */
  lemma {:induction false} FinalAmount(b: Books, h: Handle, calls: seq<Call>)
    requires PlainReservation(b, h) && b.budget.log[h.charged.value - 1].fin.None?
    ensures var s := Finish(b, h, calls);
      OnCounters(s.books, s.handle)
      == if ReleaseFailedFirst(b, h, calls) then 0
         else Expected(b.budget.log[h.charged.value - 1].estimate, Landing(b, h, calls))
    decreases |calls|
  {
    if calls != [] {
      var s := Apply(b, h, calls[0]);
      if s.ok {
        if calls[0].CallSettle? && calls[0].usage.Reported() && calls[0].price.value.Some? {
          CostIsAnAmount(calls[0].price.value.value, calls[0].usage);
        }
        ClosedIsFinal(s.books, s.handle, calls[1..]);
      } else if calls[0].CallRelease? {
        RefundedForGood(s.books, s.handle, calls[1..]);
      } else {
        FinalAmount(s.books, s.handle, calls[1..]);
      }
    }
  }

  lemma FinalizedStays(b: Books, h: Handle, c: Call)
    requires Held(b, h) && h.charged.Some? && b.budget.log[h.charged.value - 1].fin.Some?
    ensures var s := Apply(b, h, c);
      s.books.budget.log[h.charged.value - 1] == b.budget.log[h.charged.value - 1]
  {
    hide Cost.Cost, FinalOf, CostOf, L.SettleRow, L.ReleaseRow;
  }

  /** Once the counter reservation is finalized nothing moves its amount. */
  lemma {:induction false} RefundedForGood(b: Books, h: Handle, calls: seq<Call>)
    requires Held(b, h) && h.charged.Some? && b.budget.log[h.charged.value - 1].fin.Some?
    ensures var s := Finish(b, h, calls);
      OnCounters(s.books, s.handle) == OnCounters(b, h)
    decreases |calls|
  {
    if calls != [] {
      var s := Apply(b, h, calls[0]);
      FinalizedStays(b, h, calls[0]);
      hide Apply, SettleOn, ReleaseOn;
      RefundedForGood(s.books, s.handle, calls[1..]);
    }
  }

  /** The ledger after a landing call. */
  function LedgerAfter(t: L.Table, id: L.Identity, landed: Option<Call>): L.Table {
    match landed
    case None => t
    case Some(CallRelease(_)) => L.ReleaseRow(t, id)
    case Some(CallSettle(usage, price, at, _)) => L.SettleRow(t, id, LandedFinal(usage, price, at)).0
  }

  function LandedFinal(usage: Cost.Usage, price: Fetch<Option<Cost.Price>>, at: int): L.Final {
    FinalOf(usage, if usage.Reported() && price.Got? then price.value else None, at)
  }

  /** Of all calls, only the landing one touches the ledger. */
  lemma {:induction false} FinalLedger(b: Books, h: Handle, calls: seq<Call>)
    requires Held(b, h) && h.Open()
    ensures Finish(b, h, calls).books.ledger == LedgerAfter(b.ledger, h.id, Landing(b, h, calls))
    decreases |calls|
  {
    if calls != [] {
      hide Cost.Cost, FinalOf, CostOf, L.SettleRow, L.ReleaseRow, B.SettleOn, B.ReleaseOn;
      var s := Apply(b, h, calls[0]);
      if s.ok {
        ClosedIsFinal(s.books, s.handle, calls[1..]);
      } else {
        FinalLedger(s.books, s.handle, calls[1..]);
      }
    }
  }

  /** What a settled row says a request cost: an unknown cost keeps the estimate. */
  function RowAmount(r: L.Row, estimate: int): int {
    if r.final.Some? then r.final.value.cost.GetOr(estimate) else estimate
  }

  /** Settle and release are documented as mutually exclusive. They are not after a
      failed release. Over every sequence of calls with outages anywhere: when the
      landing call settles the reservation's row, the row and the counters agree on
      the amount if and only if no release failed before it, or the amount is zero;
      otherwise the row carries it and the counters keep nothing. */
  lemma BooksAgreeIff(b: Books, h: Handle, calls: seq<Call>)
    requires PlainReservation(b, h) && b.budget.log[h.charged.value - 1].fin.None?
    requires Landing(b, h, calls).Some? && Landing(b, h, calls).value.CallSettle?
    requires var c := Landing(b, h, calls).value;
      L.SettleRow(b.ledger, h.id, LandedFinal(c.usage, c.price, c.at)).1 == L.Done(true)
    ensures var s := Finish(b, h, calls);
      var estimate := b.budget.log[h.charged.value - 1].estimate;
      var amount := Expected(estimate, Landing(b, h, calls));
      && var n := L.Latest(b.ledger, h.id, |b.ledger|);
      && n.Some? && n.value < |s.books.ledger|
      && L.SettledFor(s.books.ledger[n.value], h.id)
      && RowAmount(s.books.ledger[n.value], estimate) == amount
      && (OnCounters(s.books, s.handle) == amount <==> !ReleaseFailedFirst(b, h, calls) || amount == 0)
      && (ReleaseFailedFirst(b, h, calls) ==> OnCounters(s.books, s.handle) == 0)
  {
    FinalLedger(b, h, calls);
    FinalAmount(b, h, calls);
    var c := Landing(b, h, calls).value;
    LandingAmount(c.usage, c.price, c.at);
    hide Cost.Cost, FinalOf, CostOf, Finish, Landing, ReleaseFailedFirst, OnCounters;
  }

  lemma LandingAmount(usage: Cost.Usage, price: Fetch<Option<Cost.Price>>, at: int)
    ensures LandedFinal(usage, price, at).cost
         == CostOf(usage, if usage.Reported() && price.Got? then price.value else None)
  {
    hide Cost.Cost;
  }

  /** Such sequences exist for every handle: a release whose row update fails, then
      a settlement. */
  lemma FailedReleaseThenSettle(b: Books, h: Handle, settle: Call)
    requires PlainReservation(b, h) && b.budget.log[h.charged.value - 1].fin.None?
    requires settle.CallSettle? && !settle.fault && (settle.usage.Reported() ==> settle.price.Got?)
    requires L.SettleRow(b.ledger, h.id, LandedFinal(settle.usage, settle.price, settle.at)).1 == L.Done(true)
    ensures Landing(b, h, [CallRelease(true), settle]) == Some(settle)
    ensures ReleaseFailedFirst(b, h, [CallRelease(true), settle])
  {
    hide Cost.Cost, FinalOf, CostOf, L.SettleRow, B.SettleOn, B.ReleaseOn;
    var calls := [CallRelease(true), settle];
    assert calls[1..] == [settle];
    var s1 := Apply(b, h, calls[0]);
    assert !s1.ok && s1.books.ledger == b.ledger;
    assert Landing(s1.books, s1.handle, [settle]) == Some(settle);
  }

  // ---- The objects ----

  function Read<T>(value: T, fault: bool): Fetch<T> {
    if fault then Outage else Got(value)
  }

  class Gate {
    const store: L.LedgerStore
    const budgets: B.MemoryBudget?
    const enforcement: bool

    constructor (store: L.LedgerStore, budgets: B.MemoryBudget?, enforcement: bool)
      ensures this.store == store && this.budgets == budgets && this.enforcement == enforcement
    {
      this.store, this.budgets, this.enforcement := store, budgets, enforcement;
    }

    ghost predicate Valid()
      reads this, store, budgets
    {
      store.Valid() && (budgets != null ==> budgets.Valid())
    }

    ghost function View(): Books
      reads this, store, budgets
    {
      Books(if budgets == null then B.Gate(map[], []) else budgets.View(), store.rows)
    }

    /** policy is what the policy source answered; the two fault flags are outages
        of the price lookup and of the row insert. */
    method Reserve(policy: Fetch<Policy>, provider: string, model: string, req: Request, priceFault: bool,
                   ledgerFault: bool)
      returns (res: Reservation?, outcome: Outcome)
      requires Valid()
      modifies store, budgets
      ensures Valid() && store.catalog == old(store.catalog)
      ensures exists p :: L.InForce(store.catalog, provider, model, req.now, p)
                && Admission(View(), outcome)
                   == Admit(old(View()), budgets != null, enforcement, policy, Read(p, priceFault), req, ledgerFault)
      ensures res != null <==> outcome.Admitted?
      ensures res != null ==> fresh(res) && res.g == this && res.Valid() && res.View() == outcome.handle
      ensures res != null ==> res.model == model && res.asOf == req.now
    {
      var price := L.EffectivePrice(store.catalog, provider, model, req.now);
      if !policy.Got? {
        return null, Refused(Unavailable(FetchError(policy)));
      }
      var charged: B.BudgetReservation? := null;
      if enforcement && policy.value.limits.Configured() {
        if budgets == null || priceFault {
          return null, Refused(Unavailable(StoreError));
        }
        var micros := EstimateMicros(policy.value, price, req.estimate);
        if micros.None? {
          return null, Refused(ErrPricingUnavailable);
        }
        var keys := B.BudgetKeys("", req.subject, req.tenant, req.stamp);
        var answer;
        charged, answer := budgets.Reserve(keys, policy.value.limits.InOrder(), micros.value);
        if answer.Denied? {
          return null, Refused(BudgetDenied(answer.denial));
        }
      }
      var written := store.ReserveLedger(req.id, req.subject, req.now, ledgerFault);
      if !written {
        if charged != null {
          charged.Release();
        }
        return null, Refused(Unavailable(StoreError));
      }
      res := new Reservation(this, req.id, model, req.now, charged);
      outcome := Admitted(Handle(req.id, if charged == null then None else Some(charged.id), false, false));
    }
  }

  class Reservation {
    const g: Gate
    const id: L.Identity
    const model: string
    const asOf: int
    const charged: B.BudgetReservation?
    var settled: bool
    var released: bool

    constructor (g: Gate, id: L.Identity, model: string, asOf: int, charged: B.BudgetReservation?)
      ensures this.g == g && this.id == id && this.model == model && this.asOf == asOf && this.charged == charged
      ensures !settled && !released
    {
      this.g, this.id, this.model, this.asOf, this.charged := g, id, model, asOf, charged;
      settled, released := false, false;
    }

    ghost predicate Valid()
      reads this, g, g.store, g.budgets
    {
      g.Valid() && (charged != null ==> charged.g == g.budgets && charged.Handle())
    }

    ghost function View(): Handle
      reads this
    {
      Handle(id, if charged == null then None else Some(charged.id), settled, released)
    }

    /** The flag commits only after the row did, so a failed settlement can be
        retried. */
    method Settle(provider: string, usage: Cost.Usage, at: int, priceFault: bool, fault: bool) returns (ok: bool)
      requires Valid()
      modifies this, g.store, g.budgets
      ensures Valid() && g.store.catalog == old(g.store.catalog)
      ensures exists p :: L.InForce(g.store.catalog, provider, model, asOf, p)
                && Step(g.View(), View(), ok)
                   == SettleOn(old(g.View()), old(View()), usage, Read(p, priceFault), at, fault)
    {
      var price := L.EffectivePrice(g.store.catalog, provider, model, asOf);
      if settled || released {
        return true;
      }
      if usage.Reported() && priceFault {
        return false;
      }
      var p := if usage.Reported() then price else None;
      var answer := g.store.SettleLedger(id, FinalOf(usage, p, at), fault);
      if answer.Failed? {
        return false;
      }
      settled := true;
      if charged != null {
        charged.Settle(CostOf(usage, p));
      }
      return true;
    }

    method Release(fault: bool) returns (ok: bool)
      requires Valid()
      modifies this, g.store, g.budgets
      ensures Valid()
      ensures Step(g.View(), View(), ok) == ReleaseOn(old(g.View()), old(View()), fault)
    {
      if released || settled {
        return true;
      }
      if charged != null {
        charged.Release();
      }
      ok := g.store.ReleaseLedger(id, fault);
      if ok {
        released := true;
      }
    }
  }
}
