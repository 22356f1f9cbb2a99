/** Small building blocks shared by every component model. */
module Common {

  datatype Option<+T> = None | Some(value: T) {
    function GetOr(default: T): T {
      if Some? then value else default
    }
  }
}

/** Go's int64: unbounded integers plus the explicit two's-complement wrap. */
module Int64 {

  const MAX: int := 0x7FFF_FFFF_FFFF_FFFF
  const MODULUS: int := 0x1_0000_0000_0000_0000

  predicate Fits(x: int) {
    -MAX - 1 <= x <= MAX
  }

  /** The value an int64 expression has when its exact value is x. */
  function Wrap(x: int): (r: int)
    ensures Fits(r)
    ensures Fits(x) <==> r == x
    ensures (r - x) % MODULUS == 0
  {
    (x + MAX + 1) % MODULUS - MAX - 1
  }

  /** Wrapping in the middle of a sum changes nothing. */
  lemma WrapSum(x: int, y: int)
    ensures Wrap(Wrap(x) + y) == Wrap(x + y)
  {
    var q := (Wrap(x) - x) / MODULUS;
    assert Wrap(x) == x + q * MODULUS;
    var z := x + y + MAX + 1;
    var n := z / MODULUS;
    assert z == n * MODULUS + z % MODULUS && z + q * MODULUS == (n + q) * MODULUS + z % MODULUS;
    assert (z + q * MODULUS) % MODULUS == z % MODULUS;
  }

  /** Truncating division, as Go divides. */
  function Quot(a: int, b: int): int
    requires b != 0
  {
    if a >= 0 then (if b > 0 then a / b else -(a / -b))
    else (if b > 0 then -(-a / b) else -a / -b)
  }
}
