/** Fixed-width little-endian integers, as Python's `struct` reads and writes them with "<". */
module LittleEndian {
  import opened Basics

  /** 256 to the k-th power: the number of values k bytes can hold. */
  function Span(k: nat): (n: nat)
    ensures n > 0
  {
    if k == 0 then 1 else 256 * Span(k - 1)
  }

  function Le(n: nat, k: nat): (b: Bytes)
    requires n < Span(k)
    ensures |b| == k
  {
    if k == 0 then [] else [n % 256] + Le(n / 256, k - 1)
  }

  function UnLe(b: Bytes): (n: nat)
    ensures n < Span(|b|)
  {
    if b == [] then 0 else b[0] + 256 * UnLe(b[1..])
  }

  lemma {:induction false} UnLeOfLe(n: nat, k: nat)
    requires n < Span(k)
    ensures UnLe(Le(n, k)) == n
  {
    if k > 0 {
      UnLeOfLe(n / 256, k - 1);
      assert Le(n, k)[1..] == Le(n / 256, k - 1);
    }
  }

  lemma {:induction false} LeOfUnLe(b: Bytes)
    ensures Le(UnLe(b), |b|) == b
  {
    if b != [] {
      LeOfUnLe(b[1..]);
      assert UnLe(b) % 256 == b[0] && UnLe(b) / 256 == UnLe(b[1..]);
    }
  }

  lemma Widths()
    ensures Span(2) == 0x1_0000 && Span(4) == 0x1_0000_0000 && Span(8) == 0x1_0000_0000_0000_0000
  {
    assert Span(1) == 256;
    assert Span(2) == 0x1_0000;
    assert Span(3) == 0x100_0000;
    assert Span(4) == 0x1_0000_0000;
    assert Span(5) == 0x100_0000_0000;
    assert Span(6) == 0x1_0000_0000_0000;
    assert Span(7) == 0x100_0000_0000_0000;
  }

  // ----- signed 32-bit -----

  predicate Int32(x: int) {
    -0x8000_0000 <= x < 0x8000_0000
  }

  /** Two's complement. */
  function Unsigned(x: int): (n: nat)
    requires Int32(x)
    ensures n < Span(4)
  {
    Widths();
    if x < 0 then x + 0x1_0000_0000 else x
  }

  function Signed(n: nat): (x: int)
    requires n < Span(4)
    ensures Int32(x)
  {
    Widths();
    if n >= 0x8000_0000 then n - 0x1_0000_0000 else n
  }

  lemma SignedRoundTrip(x: int, n: nat)
    ensures Int32(x) ==> Signed(Unsigned(x)) == x
    ensures n < Span(4) ==> Unsigned(Signed(n)) == n
  {
    Widths();
  }
}
