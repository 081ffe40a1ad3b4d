// Vocabulary shared by the models: bytes, 64-bit counters, optional values and
// results, and the integer encoding of the wire formats.
module Prelude {
  type byte = x: int | 0 <= x < 256

  const U64: int := 0x1_0000_0000_0000_0000

  type u64 = x: int | 0 <= x < 0x1_0000_0000_0000_0000

  datatype Option<+T> = None | Some(value: T)

  datatype Result<+T, +E> = Ok(value: T) | Err(error: E)

  function Min(a: int, b: int): int {
    if a <= b then a else b
  }

  function Max(a: int, b: int): int {
    if a >= b then a else b
  }

  // Unsigned 64-bit addition.
  function Add64(a: u64, b: nat): u64 {
    (a + b) % U64
  }

  // Wrapping commutes with counting on.
  lemma Add64Mod(n: nat, k: nat)
    ensures Add64(n % U64, k) == (n + k) % U64
  {
    var q, r := n / U64, n % U64;
    var q', r' := (r + k) / U64, (r + k) % U64;
    assert n + k == U64 * (q + q') + r';
  }
}

// Fixed-width big-endian integers, as the wire formats use them.
module BigEndian {
  import opened Prelude

  function Pow256(n: nat): (p: nat)
    ensures p > 0
  {
    if n == 0 then 1 else 256 * Pow256(n - 1)
  }

  function Put(v: nat, n: nat): (b: seq<byte>)
    requires v < Pow256(n)
    ensures |b| == n
  {
    if n == 0 then [] else Put(v / 256, n - 1) + [v % 256]
  }

  function Get(b: seq<byte>): (v: nat)
    ensures v < Pow256(|b|)
  {
    if b == [] then 0 else 256 * Get(b[..|b| - 1]) + b[|b| - 1]
  }

  lemma {:induction false} GetPut(v: nat, n: nat)
    requires v < Pow256(n)
    ensures Get(Put(v, n)) == v
  {
    if n > 0 {
      GetPut(v / 256, n - 1);
      assert Put(v, n)[..n - 1] == Put(v / 256, n - 1);
    }
  }

  lemma {:induction false} PutGet(b: seq<byte>)
    ensures Put(Get(b), |b|) == b
  {
    if b != [] {
      var front := b[..|b| - 1];
      PutGet(front);
      assert Get(b) / 256 == Get(front) && Get(b) % 256 == b[|b| - 1];
    }
  }

  lemma Pow256Eight()
    ensures Pow256(8) == U64
  {
    assert Pow256(4) == 0x1_0000_0000;
    assert Pow256(5) == 256 * Pow256(4);
    assert Pow256(6) == 256 * Pow256(5);
    assert Pow256(7) == 256 * Pow256(6);
  }

  lemma Pow256Four()
    ensures Pow256(4) == 0x1_0000_0000
  {
    assert Pow256(2) == 65536;
    assert Pow256(3) == 256 * Pow256(2);
  }

  lemma Pow256Two()
    ensures Pow256(2) == 65536
  {
  }

  function Put64(v: u64): (b: seq<byte>)
    ensures |b| == 8
  {
    Pow256Eight();
    Put(v, 8)
  }

  function Get64(b: seq<byte>): u64
    requires |b| == 8
  {
    Pow256Eight();
    Get(b)
  }

  lemma RoundTrip64(v: u64, b: seq<byte>)
    requires |b| == 8
    ensures Get64(Put64(v)) == v
    ensures Put64(Get64(b)) == b
  {
    Pow256Eight();
    GetPut(v, 8);
    PutGet(b);
  }
}
