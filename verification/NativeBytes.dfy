/** Bytes, and unsigned numbers stored in them least byte first, as the
    processors this program is built for store them. */
module NativeBytes {
  type Byte = b: int | 0 <= b < 256
  type Bytes = seq<Byte>

  function Unsigned(b: Bytes): nat {
    if b == [] then 0 else (b[0] as int) + 0x100 * Unsigned(b[1..])
  }

  /** `n` in `k` bytes, least first. */
  function Stored(n: nat, k: nat): (r: Bytes)
    ensures |r| == k
  {
    if k == 0 then [] else [Low(n)] + Stored(n / 0x100, k - 1)
  }

  function Low(n: nat): Byte {
    n % 0x100
  }

  function Power256(k: nat): nat {
    if k == 0 then 1 else 0x100 * Power256(k - 1)
  }

  lemma {:induction false} UnsignedStored(n: nat, k: nat)
    requires n < Power256(k)
    ensures Unsigned(Stored(n, k)) == n
  {
    if k > 0 {
      UnsignedStored(n / 0x100, k - 1);
      assert Stored(n, k)[1..] == Stored(n / 0x100, k - 1);
    }
  }

  lemma {:induction false} UnsignedBound(b: Bytes)
    ensures Unsigned(b) < Power256(|b|)
  {
    if b != [] {
      UnsignedBound(b[1..]);
    }
  }

  /** Bytes give their number back, and the number its bytes. */
  lemma {:induction false} StoredBack(b: Bytes)
    ensures Stored(Unsigned(b), |b|) == b
  {
    if b != [] {
      StoredBack(b[1..]);
      assert [b[0]] + b[1..] == b;
    }
  }

  /** Four bytes, least first. */
  lemma UnsignedOfFour(b: Bytes)
    requires |b| == 4
    ensures Unsigned(b) == b[0] as int + 0x100 * b[1] as int + 0x1_0000 * b[2] as int + 0x100_0000 * b[3] as int
  {
    assert b[1..][0] == b[1] && b[1..][1..] == b[2..] && b[2..][0] == b[2] && b[2..][1..] == b[3..];
    assert b[3..][0] == b[3] && b[3..][1..] == [];
    assert Unsigned(b[3..]) == b[3] as int;
    assert Unsigned(b[2..]) == b[2] as int + 0x100 * Unsigned(b[3..]);
  }
}
