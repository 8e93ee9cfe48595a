/** Sixty-four-bit integers. */
module Int64 {

  const MAX_INT64 := 0x7fff_ffff_ffff_ffff
  const TWO_64 := 0x1_0000_0000_0000_0000

  /** Two's-complement wrap-around. */
  function Wrap64(n: int): int {
    var m := n % TWO_64;
    if m > MAX_INT64 then m - TWO_64 else m
  }
}

module Optional {

  datatype Option<+T> = None | Some(value: T)
}

/** Quotients and remainders. */
module Division {

  lemma TimesOrder(x: nat, y: nat, d: nat)
    ensures x <= y ==> x * d <= y * d
    ensures d == 0 ==> x * d == 0
    ensures (x + 1) * d == x * d + d
  {
  }

  lemma DivModIs(q: nat, r: nat, d: nat)
    requires r < d
    ensures (q * d + r) / d == q && (q * d + r) % d == r
  {
    var x := q * d + r;
    assert x == (x / d) * d + x % d;
    TimesOrder(x / d + 1, q, d);
    TimesOrder(q + 1, x / d, d);
  }
}
