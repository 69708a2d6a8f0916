// Result types shared by every module.
module Prelude {

  datatype Option<+T> = None | Some(value: T)

  // The outcome of a call that can throw or revert.
  datatype Result<+T, +E> = Ok(value: T) | Err(error: E)

  function Min(a: int, b: int): (m: int)
    ensures m <= a && m <= b && (m == a || m == b)
  {
    if a < b then a else b
  }

  function Max(a: int, b: int): (m: int)
    ensures a <= m && b <= m && (m == a || m == b)
  {
    if a < b then b else a
  }

  function CeilDiv(a: nat, b: nat): nat
    requires b > 0
  {
    (a + b - 1) / b
  }

  lemma CeilDivIff(a: nat, b: nat, n: nat)
    requires b > 0
    ensures a <= n * b <==> CeilDiv(a, b) <= n
  {
    var q := CeilDiv(a, b);
    assert a + b - 1 == b * q + (a + b - 1) % b;
    if q <= n {
      assert q * b <= n * b;
    } else {
      assert (n + 1) * b <= q * b;
    }
  }
}
