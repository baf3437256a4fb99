/** Bytes, and 32-bit numbers as four of them, least significant first. */
module Binary {
  type Byte = x: int | 0 <= x < 256
  type Bytes = seq<Byte>

  const U32: nat := 0x1_0000_0000

  function FromLe(b: Bytes): nat
    requires |b| == 4
  {
    b[0] as int + 256 * (b[1] as int + 256 * (b[2] as int + 256 * (b[3] as int)))
  }

  /** The number's low 32 bits. */
  function ToLe(n: nat): (b: Bytes)
    ensures |b| == 4
  {
    [n % 256, n / 256 % 256, n / 256 / 256 % 256, n / 256 / 256 / 256 % 256]
  }

  lemma LeRoundTrip(n: nat)
    requires n < U32
    ensures FromLe(ToLe(n)) == n
  {
    var a, b := n / 256, n / 256 / 256;
    assert n == 256 * a + n % 256 && a == 256 * b + a % 256 && b == 256 * (b / 256) + b % 256;
    assert b / 256 < 256;
  }

  /** Anything wider is truncated. */
  lemma LeTruncates(n: nat)
    ensures FromLe(ToLe(n)) == n % U32
  {
    var a, b := n / 256, n / 256 / 256;
    var c := b / 256;
    assert n == 256 * a + n % 256 && a == 256 * b + a % 256 && b == 256 * c + b % 256 && c == 256 * (c / 256) + c % 256;
  }

  function Zeros(n: nat): (b: Bytes)
    ensures |b| == n && forall i :: 0 <= i < n ==> b[i] == 0
  {
    seq(n, i => 0)
  }
}
