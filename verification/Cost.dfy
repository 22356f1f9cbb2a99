/** Checked integer pricing (internal/accounting/accounting.go). Money is int64
    micros; every accumulation is guarded by hand-written overflow tests. */
module Cost {
  import opened Common
  import Int64

  /** Token counts per priceable class; None is a class the upstream did not report. */
  datatype Usage = Usage(
    prompt: Option<int>,
    completion: Option<int>,
    reasoning: Option<int>,
    cached: Option<int>)
  {
    predicate Reported() {
      prompt.Some? || completion.Some? || reasoning.Some? || cached.Some?
    }
  }

  /** One effective price version: micros per token; None is an unpriced class. */
  datatype Price = Price(
    version: int,
    currency: string,
    input: int,
    output: int,
    reasoning: Option<int>,
    cached: Option<int>)

  function OrZero(v: Option<int>): int {
    v.GetOr(0)
  }

  /** The guarded accumulation, wrap-around and truncating division included. */
  function MulAdd(total: int, price: int, tokens: int): Option<int> {
    if tokens == 0 || price == 0 then Some(total)
    else if tokens > Int64.Quot(Int64.MAX, price) then None
    else
      var sum := Int64.Wrap(total + Int64.Wrap(price * tokens));
      if sum < total then None else Some(sum)
  }

  /** The cost computation, in the order the code accumulates the classes. */
  function Cost(p: Price, u: Usage): Option<int> {
    if u.reasoning.Some? && p.reasoning.None? then None
    else if u.cached.Some? && p.cached.None? then None
    else if u.cached.Some? && (u.cached.value < 0 || u.cached.value > OrZero(u.prompt)) then None
    else
      var cached := OrZero(u.cached);
      match MulAdd(0, p.input, Int64.Wrap(OrZero(u.prompt) - cached))
      case None => None
      case Some(t0) =>
        match MulAdd(t0, p.output, OrZero(u.completion))
        case None => None
        case Some(t1) =>
          match (if u.reasoning.Some? then MulAdd(t1, p.reasoning.value, u.reasoning.value) else Some(t1))
          case None => None
          case Some(t2) =>
            if u.cached.Some? then MulAdd(t2, p.cached.value, cached) else Some(t2)
  }

  // ---- What the answer should be, over the unbounded integers ----

  predicate Fits(v: Option<int>) {
    v.Some? ==> Int64.Fits(v.value)
  }

  predicate NonNegative(v: Option<int>) {
    v.Some? ==> 0 <= v.value <= Int64.MAX
  }

  /** Prices as the catalog's column checks admit them. */
  predicate Listed(p: Price) {
    && 0 <= p.input <= Int64.MAX && 0 <= p.output <= Int64.MAX
    && NonNegative(p.reasoning) && NonNegative(p.cached)
  }

  /** Any usage the types can hold. */
  predicate Countable(u: Usage) {
    Fits(u.prompt) && Fits(u.completion) && Fits(u.reasoning) && Fits(u.cached)
  }

  /** Every reported optional class has a price and the usage is consistent. */
  predicate Chargeable(p: Price, u: Usage) {
    && (u.reasoning.Some? ==> p.reasoning.Some?)
    && (u.cached.Some? ==> p.cached.Some? && 0 <= u.cached.value <= OrZero(u.prompt))
  }

  function Times(price: int, tokens: int): int {
    price * tokens
  }

  /** The (price, tokens) pairs in order; an unreported class has no tokens. */
  function Items(p: Price, u: Usage): (r: seq<(int, int)>)
    ensures |r| == 4
  {
    [(p.input, OrZero(u.prompt) - OrZero(u.cached)), (p.output, OrZero(u.completion)),
     (p.reasoning.GetOr(0), OrZero(u.reasoning)), (p.cached.GetOr(0), OrZero(u.cached))]
  }

  function Sum(items: seq<(int, int)>): int {
    if items == [] then 0 else Times(items[0].0, items[0].1) + Sum(items[1..])
  }

  /** The exact total; no width, no order of accumulation. */
  function ExactTotal(p: Price, u: Usage): int {
    Sum(Items(p, u))
  }

  /** A class with a positive price and a negative count. */
  predicate NegativelyPriced(items: seq<(int, int)>) {
    exists i :: i in items && i.0 > 0 && i.1 < 0
  }

  // ---- One accumulation ----

  /** What one accumulation really adds: the product, and for a negative count the
      product modulo the word size. */
  function Added(price: int, tokens: int): (r: int)
    requires price >= 0
    ensures r >= 0
    ensures Times(price, tokens) <= r
    ensures r == Times(price, tokens) <==> !(price > 0 && tokens < 0)
  {
    ProductSign(price, tokens);
    if tokens >= 0 then Times(price, tokens) else Times(price, tokens) % Int64.MODULUS
  }

  lemma ProductSign(price: int, tokens: int)
    requires price >= 0
    ensures Times(price, tokens) < 0 <==> price > 0 && tokens < 0
    ensures price == 0 || tokens == 0 ==> Times(price, tokens) == 0
  {
    if tokens >= 0 {
      ProductMonotone(price, 0, tokens);
    } else {
      ProductMonotone(price, tokens, -1);
    }
  }

  /** The division guard is exactly the product's overflow test. */
  lemma GuardIsProductOverflow(price: int, tokens: int)
    requires price > 0 && tokens >= 0
    ensures tokens > Int64.MAX / price <==> price * tokens > Int64.MAX
  {
    var q := Int64.MAX / price;
    assert Int64.MAX == price * q + Int64.MAX % price;
    if tokens > q {
      assert price * tokens >= price * (q + 1) by { ProductMonotone(price, q + 1, tokens); }
      assert price * (q + 1) == price * q + price;
    } else {
      ProductMonotone(price, tokens, q);
    }
  }

  lemma ProductMonotone(price: int, a: int, b: int)
    requires price >= 0 && a <= b
    ensures price * a <= price * b
  {
  }

  /** The wrap of a sum is below the running total exactly when the residue does
      not fit on top of it. */
  lemma WrapOfSum(total: int, x: int)
    requires 0 <= total <= Int64.MAX
    ensures var sum := Int64.Wrap(total + Int64.Wrap(x));
      var r := x % Int64.MODULUS;
      if total + r <= Int64.MAX then sum == total + r else sum < total
  {
    var r := x % Int64.MODULUS;
    WrapOfResidue(x);
    WrapOfResidue(total + Int64.Wrap(x));
    if r <= Int64.MAX {
      assert Int64.Wrap(x) == r;
      if total + r > Int64.MAX {
        assert (total + r) % Int64.MODULUS == total + r;
      }
    } else {
      assert Int64.Wrap(x) == r - Int64.MODULUS;
    }
  }

  lemma WrapOfResidue(x: int)
    ensures var r := x % Int64.MODULUS;
      Int64.Wrap(x) == if r <= Int64.MAX then r else r - Int64.MODULUS
  {
    var r := x % Int64.MODULUS;
    var q := x / Int64.MODULUS;
    assert x == q * Int64.MODULUS + r;
    var y := r + Int64.MAX + 1;
    if r <= Int64.MAX {
      assert x + Int64.MAX + 1 == q * Int64.MODULUS + y && 0 <= y < Int64.MODULUS;
    } else {
      assert x + Int64.MAX + 1 == (q + 1) * Int64.MODULUS + (y - Int64.MODULUS)
          && 0 <= y - Int64.MODULUS < Int64.MODULUS;
    }
  }

  /** The checks of one accumulation, for every int64 count: it adds exactly what
      Added says, or refuses exactly when that leaves int64. For counts that are not
      negative this is the exact sum; for a negative one it is the residue. */
  lemma MulAddExact(total: int, price: int, tokens: int)
    requires 0 <= total <= Int64.MAX && 0 <= price <= Int64.MAX && Int64.Fits(tokens)
    ensures MulAdd(total, price, tokens)
         == if total + Added(price, tokens) <= Int64.MAX then Some(total + Added(price, tokens)) else None
  {
    ProductSign(price, tokens);
    if tokens != 0 && price != 0 {
      var x := price * tokens;
      WrapOfSum(total, x);
      if tokens > 0 {
        GuardIsProductOverflow(price, tokens);
        assert x <= Int64.MAX ==> x % Int64.MODULUS == x;
      } else {
        assert Int64.MAX / price >= 0;
      }
    }
  }

  // ---- All accumulations ----

  function Accumulate(total: Option<int>, items: seq<(int, int)>): Option<int>
    decreases |items|
  {
    if items == [] || total.None? then total
    else Accumulate(MulAdd(total.value, items[0].0, items[0].1), items[1..])
  }

  predicate InDomain(items: seq<(int, int)>) {
    forall i :: i in items ==> 0 <= i.0 <= Int64.MAX && Int64.Fits(i.1)
  }

  function SumAdded(items: seq<(int, int)>): (r: int)
    requires InDomain(items)
    ensures r >= 0
  {
    if items == [] then 0
    else
      assert items[0] in items && forall i :: i in items[1..] ==> i in items;
      Added(items[0].0, items[0].1) + SumAdded(items[1..])
  }

  lemma {:induction false} AccumulateIsExact(total: int, items: seq<(int, int)>)
    requires 0 <= total <= Int64.MAX && InDomain(items)
    ensures Accumulate(Some(total), items)
         == if total + SumAdded(items) <= Int64.MAX then Some(total + SumAdded(items)) else None
    decreases |items|
  {
    if items != [] {
      assert items[0] in items && forall i :: i in items[1..] ==> i in items;
      MulAddExact(total, items[0].0, items[0].1);
      hide MulAdd, Times, Added;
      if total + Added(items[0].0, items[0].1) <= Int64.MAX {
        AccumulateIsExact(total + Added(items[0].0, items[0].1), items[1..]);
      }
    }
  }

  /** What is added never falls below the exact sum, and equals it exactly when no
      priced class has a negative count. */
  lemma {:induction false} AddedIsExactIff(items: seq<(int, int)>)
    requires InDomain(items)
    ensures Sum(items) <= SumAdded(items)
    ensures Sum(items) == SumAdded(items) <==> !NegativelyPriced(items)
    decreases |items|
  {
    if items != [] {
      assert items[0] in items && forall i :: i in items[1..] ==> i in items;
      AddedIsExactIff(items[1..]);
      hide Times;
      if i :| i in items && i.0 > 0 && i.1 < 0 {
        assert i == items[0] || i in items[1..];
      }
    }
  }

  lemma NoTokensNoCharge(total: int, price: int)
    ensures MulAdd(total, price, 0) == Some(total)
  {
  }

  lemma ItemsInDomain(p: Price, u: Usage)
    requires Listed(p) && Countable(u) && Chargeable(p, u)
    ensures InDomain(Items(p, u))
    ensures Int64.Wrap(OrZero(u.prompt) - OrZero(u.cached)) == OrZero(u.prompt) - OrZero(u.cached)
  {
  }

  lemma CostAccumulatesItems(p: Price, u: Usage)
    requires Listed(p) && Countable(u) && Chargeable(p, u)
    ensures Cost(p, u) == Accumulate(Some(0), Items(p, u))
  {
    ItemsInDomain(p, u);
    hide MulAdd;
    var items := Items(p, u);
    var t0 := MulAdd(0, items[0].0, items[0].1);
    assert Accumulate(Some(0), items) == Accumulate(t0, items[1..]);
    if t0.Some? {
      var t1 := MulAdd(t0.value, items[1].0, items[1].1);
      assert Accumulate(t0, items[1..]) == Accumulate(t1, items[2..]) by {
        assert items[1..][1..] == items[2..];
      }
      if t1.Some? {
        NoTokensNoCharge(t1.value, items[2].0);
        var t2 := MulAdd(t1.value, items[2].0, items[2].1);
        assert Accumulate(t1, items[2..]) == Accumulate(t2, items[3..]) by {
          assert items[2..][1..] == items[3..];
        }
        if t2.Some? {
          NoTokensNoCharge(t2.value, items[3].0);
          var t3 := MulAdd(t2.value, items[3].0, items[3].1);
          assert Accumulate(t2, items[3..]) == Accumulate(t3, []) by {
            assert items[3..][1..] == [];
          }
        }
      }
    }
  }

  // ---- The theorems ----

  /** Exact cost in 64 bits, on the documented domain of counts that are not
      negative: the computation succeeds exactly when the usage is chargeable and
      the true total fits in an int64, and then it is the true total. */
  lemma CostIsExact(p: Price, u: Usage)
    requires Listed(p) && Countable(u)
    requires NonNegative(u.prompt) && NonNegative(u.completion) && NonNegative(u.reasoning)
    ensures Cost(p, u)
         == if Chargeable(p, u) && ExactTotal(p, u) <= Int64.MAX then Some(ExactTotal(p, u)) else None
  {
    if Chargeable(p, u) {
      CostExactIff(p, u);
    }
  }

  /** And over every count the types can hold: what is answered is the sum of what
      the accumulations add, and an answer is the exact total if and only if no
      class with a positive price has a negative count. */
  lemma CostExactIff(p: Price, u: Usage)
    requires Listed(p) && Countable(u)
    ensures Chargeable(p, u) ==> InDomain(Items(p, u))
    ensures Cost(p, u)
         == if Chargeable(p, u) && SumAdded(Items(p, u)) <= Int64.MAX then Some(SumAdded(Items(p, u))) else None
    ensures Chargeable(p, u) ==> (SumAdded(Items(p, u)) == ExactTotal(p, u) <==> !NegativelyPriced(Items(p, u)))
    ensures Cost(p, u).Some? ==> (Cost(p, u).value == ExactTotal(p, u) <==> !NegativelyPriced(Items(p, u)))
  {
    if Chargeable(p, u) {
      ItemsInDomain(p, u);
      CostAccumulatesItems(p, u);
      AccumulateIsExact(0, Items(p, u));
      AddedIsExactIff(Items(p, u));
    }
  }

  /** A priced negative count that is answered all the same: the product is a
      multiple of the word size. */
  lemma NegativeCountCanAddNothing()
    ensures exists p: Price, u: Usage ::
      && Listed(p) && Countable(u) && u.reasoning.Some? && u.reasoning.value < 0 && Chargeable(p, u)
      && Cost(p, u) == Some(0) && ExactTotal(p, u) < 0
  {
    var p := Price(1, "USD", 0, 0, Some(0x100_0000_0000), None);
    var u := Usage(None, None, Some(-0x100_0000_0000), None);
    var items := Items(p, u);
    assert Times(p.reasoning.value, u.reasoning.value) == -0x1_0000_0000_0000_0000_0000;
    assert Int64.Wrap(-0x1_0000_0000_0000_0000_0000) == 0;
    assert Chargeable(p, u) && Cost(p, u) == Some(0);
    CostExactIff(p, u);
    AddedIsExactIff(items);
    assert items[2] in items;
    assert NegativelyPriced(items);
  }
}
