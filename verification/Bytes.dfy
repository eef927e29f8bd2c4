/** Octets, four-octet keys (TEIDs and IPv4 addresses) and big-endian integers. */
module Bytes {

  type byte = x: int | 0 <= x < 256

  datatype Option<+T> = None | Some(value: T)

  /** A GTP TEID or an IPv4 address: four octets, most significant first. */
  datatype Quad = Quad(a: byte, b: byte, c: byte, d: byte)

  function QuadAt(s: seq<byte>, i: nat): (q: Quad)
    requires i + 4 <= |s|
  {
    Quad(s[i], s[i + 1], s[i + 2], s[i + 3])
  }

  const TWO_12 := 0x1000
  const TWO_16 := 0x1_0000
  const TWO_24 := 0x100_0000
  const TWO_32 := 0x1_0000_0000

  /** The low 32 bits of n, most significant octet first. */
  function Be32(n: nat): (s: seq<byte>) {
    [n / 0x100_0000 % 256, n / 0x1_0000 % 256, n / 256 % 256, n % 256]
  }

  /** The four octets determine the low 32 bits, and nothing more. */
  lemma Be32Exact(m: nat, n: nat)
    requires m < TWO_32 && n < TWO_32
    ensures Be32(m) == Be32(n) <==> m == n
  {
    Be32Value(m);
    Be32Value(n);
    if Be32(m) == Be32(n) {
      assert Be32(m)[0] == Be32(n)[0] && Be32(m)[1] == Be32(n)[1];
      assert Be32(m)[2] == Be32(n)[2] && Be32(m)[3] == Be32(n)[3];
    }
  }

  lemma Be32Value(n: nat)
    requires n < TWO_32
    ensures var s := Be32(n); n == (s[0] as int) * 0x100_0000 + (s[1] as int) * 0x1_0000 + (s[2] as int) * 256 + s[3]
  {
    Quotients(n);
    var top := n / 256 / 256 / 256;
    assert top < 256;
    DivModUnique(top, 256, 0, top);
  }

  /** Division by a power of 256 is repeated division by 256. */
  lemma Quotients(n: nat)
    ensures n / 0x1_0000 == n / 256 / 256 && n / 0x100_0000 == n / 256 / 256 / 256
  {
    var a := n / 256;
    var b := a / 256;
    var c := b / 256;
    DivModUnique(n, 0x1_0000, b, a % 256 * 256 + n % 256);
    DivModUnique(n, 0x100_0000, c, b % 256 * 0x1_0000 + a % 256 * 256 + n % 256);
  }

  // ---- Counters of fixed width ----

  /** Counting one on and wrapping is wrapping and counting one on. */
  lemma WrapStep(k: nat, m: nat)
    requires m > 1
    ensures (k % m + 1) % m == (k + 1) % m
  {
    var q, r := k / m, k % m;
    assert k == q * m + r;
    if r + 1 < m {
      DivModUnique(k + 1, m, q, r + 1);
      DivModUnique(r + 1, m, 0, r + 1);
    } else {
      assert k + 1 == (q + 1) * m;
      DivModUnique(k + 1, m, q + 1, 0);
      DivModUnique(m, m, 1, 0);
    }
  }

  lemma DivModUnique(n: nat, m: nat, q: nat, r: nat)
    requires m > 0 && r < m && n == q * m + r
    ensures n / m == q && n % m == r
  {
    var d := n / m - q;
    assert d * m == r - n % m;
    assert d >= 1 ==> d * m >= m;
    assert d <= -1 ==> d * m <= -1 * m;
  }

  /** A narrower number read off a wrapping counter does not notice the wrap. */
  lemma Low12(k: nat)
    ensures k % TWO_16 % TWO_12 == k % TWO_12
    ensures k % TWO_32 % TWO_12 == k % TWO_12
  {
    var r, r' := k % TWO_16, k % TWO_32;
    DivModUnique(k, TWO_12, k / TWO_16 * 16 + r / TWO_12, r % TWO_12);
    DivModUnique(k, TWO_12, k / TWO_32 * 0x10_0000 + r' / TWO_12, r' % TWO_12);
  }

  lemma Low24(k: nat)
    ensures k % TWO_32 % TWO_24 == k % TWO_24
  {
    var r := k % TWO_32;
    DivModUnique(k, TWO_24, k / TWO_32 * 256 + r / TWO_24, r % TWO_24);
  }

  lemma Low8(k: nat)
    ensures k % TWO_24 % 256 == k % 256
  {
    var r := k % TWO_24;
    DivModUnique(k, 256, k / TWO_24 * TWO_16 + r / 256, r % 256);
  }

  // ---- Numbers spread over octets ----

  lemma TwoOctets(n: nat)
    requires n < TWO_16
    ensures n / 256 % 256 * 256 + n % 256 == n
  {
    assert n / 256 < 256;
    DivModUnique(n / 256, 256, 0, n / 256);
  }

  lemma TwelveBits(n: nat)
    ensures n / 256 % 16 * 256 + n % 256 == n % TWO_12
  {
    var a := n / 256;
    var b := a / 16;
    DivModUnique(n, TWO_12, b, a % 16 * 256 + n % 256);
  }

  lemma ThreeOctets(n: nat)
    ensures n / 0x1_0000 % 256 * 0x1_0000 + n / 256 % 256 * 256 + n % 256 == n % TWO_24
  {
    Quotients(n);
    var a := n / 256;
    var b := a / 256;
    DivModUnique(n, TWO_24, b / 256, b % 256 * 0x1_0000 + a % 256 * 256 + n % 256);
  }
}
