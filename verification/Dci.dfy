/** pack_dci_payload and unpack_dci_payload of open-nFAPI/nfapi/src/nfapi.c: a DCI payload of up
    to 64 bits in an eight-byte little-endian buffer, which goes on the wire most significant
    byte first and left-aligned (table 3-37 of SCF 222). */
module Dci {
  import opened Wrappers
  import opened Words
  import opened Cursors

  /** DCI_PAYLOAD_BYTE_LEN */
  const PAYLOAD_BYTES := 8

  // ---- Numbers and bytes ------------------------------------------------------------------

  function Pow2(n: nat): (p: nat)
    ensures p > 0
  {
    if n == 0 then 1 else 2 * Pow2(n - 1)
  }

  lemma MulAssoc(a: int, b: int, c: int)
    ensures (a * b) * c == a * (b * c)
  {
  }

  lemma MulComm(a: int, b: int)
    ensures a * b == b * a
  {
  }

  lemma MulDist(a: int, b: int, c: int)
    ensures (a + b) * c == a * c + b * c
  {
  }

  lemma MulPositive(a: int, b: int)
    requires a > 0 && b > 0
    ensures a * b > 0
  {
  }

  lemma MulAtLeast(a: int, b: int)
    requires b > 0
    ensures a > 0 ==> a * b >= b
    ensures a < 0 ==> a * b <= -b
  {
  }

  lemma {:induction false} PowAdd(a: nat, b: nat)
    ensures Pow2(a + b) == Pow2(a) * Pow2(b)
    decreases b
  {
    if b > 0 {
      PowAdd(a, b - 1);
      MulAssoc(Pow2(a), 2, Pow2(b - 1));
      MulComm(Pow2(a), 2);
      MulAssoc(2, Pow2(a), Pow2(b - 1));
    }
  }

  lemma Pow8()
    ensures Pow2(8) == 0x100
  {
    assert Pow2(4) == 16;
    PowAdd(4, 4);
  }

  lemma DivUnique(n: nat, d: nat, q: nat, r: nat)
    requires d > 0 && n == q * d + r && r < d
    ensures n / d == q && n % d == r
  {
    var k := n / d - q;
    assert n == (n / d) * d + n % d;
    assert k * d == r - n % d;
    MulAtLeast(k, d);
  }

  /** Scaling a number and its modulus. */
  lemma ModScale(x: nat, m: nat, k: nat)
    requires m > 0 && k > 0
    ensures m * k > 0 && (x * k) % (m * k) == (x % m) * k
  {
    var q, r := x / m, x % m;
    MulPositive(m, k);
    MulDist(q * m, r, k);
    MulAssoc(q, m, k);
    MulDist(m - r, r, k);
    MulPositive(m - r, k);
    DivUnique(x * k, m * k, q, r * k);
  }

  /** Reducing by a multiple of the modulus first. */
  lemma ModMod(z: nat, m: nat, k: nat)
    requires m > 0 && k > 0
    ensures m * k > 0 && (z % (m * k)) % m == z % m
  {
    MulPositive(m, k);
    var mk := m * k;
    MulComm(m, k);
    SumOfMultiples(z / mk, k, m, z % mk);
    assert z == (z / mk) * mk + z % mk;
    DivUnique(z, m, (z / mk) * k + z % mk / m, z % mk % m);
  }

  lemma SumOfMultiples(q: nat, k: nat, m: nat, s: nat)
    requires m > 0
    ensures q * (k * m) + s == (q * k + s / m) * m + s % m
  {
    MulAssoc(q, k, m);
    MulDist(q * k, s / m, m);
  }

  /** The number whose bytes are s, least significant first. */
  function Little(s: seq<byte>): nat {
    if s == [] then 0 else s[0] + 0x100 * Little(s[1..])
  }

  function Reversed(s: seq<byte>): (r: seq<byte>)
    ensures |r| == |s|
    ensures forall k :: 0 <= k < |s| ==> r[k] == s[|s| - 1 - k]
  {
    seq(|s|, k requires 0 <= k < |s| => s[|s| - 1 - k])
  }

  lemma {:induction false} BigReversed(s: seq<byte>)
    ensures Big(Reversed(s)) == Little(s)
  {
    if s != [] {
      BigReversed(s[1..]);
      assert Reversed(s)[..|s| - 1] == Reversed(s[1..]);
    }
  }

  lemma {:induction false} LittleConcat(s: seq<byte>, t: seq<byte>)
    ensures Little(s + t) == Little(s) + Pow2(8 * |s|) * Little(t)
  {
    if s == [] {
      assert s + t == t;
    } else {
      LittleConcat(s[1..], t);
      assert (s + t)[1..] == s[1..] + t;
      PowBytes(|s|);
      MulAssoc(0x100, Pow2(8 * (|s| - 1)), Little(t));
    }
  }

  lemma PowBytes(n: nat)
    requires n > 0
    ensures Pow2(8 * n) == 0x100 * Pow2(8 * (n - 1))
  {
    Pow8();
    PowAdd(8, 8 * (n - 1));
  }

  lemma {:induction false} LittleBound(s: seq<byte>)
    ensures Little(s) < Pow2(8 * |s|)
  {
    if s != [] {
      LittleBound(s[1..]);
      PowBytes(|s|);
    }
  }

  /** The first bytes of a buffer are its number modulo a power of two. */
  lemma LittlePrefix(s: seq<byte>, n: nat)
    requires n <= |s|
    ensures Little(s[..n]) == Little(s) % Pow2(8 * n)
  {
    assert s == s[..n] + s[n..];
    LittleConcat(s[..n], s[n..]);
    LittleBound(s[..n]);
    MulComm(Pow2(8 * n), Little(s[n..]));
    DivUnique(Little(s), Pow2(8 * n), Little(s[n..]), Little(s[..n]));
  }

  /** The first k bytes of a number, least significant first. */
  function LittleBytes(n: nat, k: nat): (s: seq<byte>)
    ensures |s| == k
  {
    if k == 0 then [] else [n % 0x100] + LittleBytes(n / 0x100, k - 1)
  }

  lemma {:induction false} NumberOfBytes(n: nat, k: nat)
    requires n < Pow2(8 * k)
    ensures Little(LittleBytes(n, k)) == n
  {
    if k > 0 {
      PowBytes(k);
      NumberOfBytes(n / 0x100, k - 1);
      assert LittleBytes(n, k)[1..] == LittleBytes(n / 0x100, k - 1);
    }
  }

  lemma {:induction false} BytesOfNumber(s: seq<byte>)
    ensures LittleBytes(Little(s), |s|) == s
  {
    if s != [] {
      BytesOfNumber(s[1..]);
      DivUnique(Little(s), 0x100, Little(s[1..]), s[0]);
      assert s == [s[0]] + s[1..];
    }
  }

  // ---- What is on the wire ----------------------------------------------------------------

  function ByteLength(bits: nat): nat { (bits + 7) / 8 }

  /** How far the payload is shifted to be left-aligned. */
  function Rotation(bits: nat): (r: nat)
    ensures bits + r == 8 * ByteLength(bits) && r < 8
  {
    if bits % 8 == 0 then 0 else 8 - bits % 8
  }

  /** w is the big-endian form of v in that many bits, left-aligned to a byte boundary. */
  ghost predicate LeftAligned(w: seq<byte>, v: nat, bits: nat) {
    |w| == ByteLength(bits) && Big(w) == v * Pow2(Rotation(bits))
  }

  /** The number that the shift leaves in a buffer of k bytes. */
  function Shifted(x: nat, bits: nat, k: nat): (y: nat)
    ensures y < Pow2(8 * k)
  {
    x * Pow2(Rotation(bits)) % Pow2(8 * k)
  }

  /** The first bytes of the shifted number are the low bits of x, left-aligned. */
  lemma ShiftedLow(x: nat, bits: nat, k: nat)
    requires bits <= 8 * k
    ensures Shifted(x, bits, k) % Pow2(8 * ByteLength(bits)) == x % Pow2(bits) * Pow2(Rotation(bits))
  {
    var n, r := ByteLength(bits), Rotation(bits);
    PowAdd(8 * n, 8 * k - 8 * n);
    ModMod(x * Pow2(r), Pow2(8 * n), Pow2(8 * k - 8 * n));
    PowAdd(bits, r);
    ModScale(x, Pow2(bits), Pow2(r));
  }

  /** The shifted buffer, as far as it is sent, is the left-aligned form of the low bits of x,
      whatever the bits above them are. */
  lemma ShiftAligns(x: nat, bits: nat, k: nat)
    requires bits <= 8 * k
    ensures ByteLength(bits) <= k
    ensures LeftAligned(Reversed(LittleBytes(Shifted(x, bits, k), k)[..ByteLength(bits)]), x % Pow2(bits), bits)
  {
    var payload, n := LittleBytes(Shifted(x, bits, k), k), ByteLength(bits);
    NumberOfBytes(Shifted(x, bits, k), k);
    BigReversed(payload[..n]);
    LittlePrefix(payload, n);
    ShiftedLow(x, bits, k);
  }

  /** What unpacking makes of the bytes w in a buffer that held before: the bytes beyond those of
      the payload are shifted down with it. */
  ghost function Recovered(w: seq<byte>, before: seq<byte>, bits: nat): nat
    requires |w| == ByteLength(bits) <= |before|
  {
    (Big(w) + Pow2(8 * |w|) * Little(before[|w|..])) / Pow2(Rotation(bits))
  }

  lemma RecoveredSum(w: seq<byte>, v: nat, before: seq<byte>, bits: nat)
    requires LeftAligned(w, v, bits) && |w| <= |before|
    ensures Recovered(w, before, bits) == v + Pow2(bits) * Little(before[|w|..])
  {
    hide Pow2, Little, Big, Rotation, ByteLength;
    var r, g := Pow2(Rotation(bits)), Little(before[|w|..]);
    PowAdd(bits, Rotation(bits));
    ScaledSum(v, Pow2(bits), r, g);
  }

  lemma ScaledSum(v: nat, p: nat, r: nat, g: nat)
    requires r > 0
    ensures (v * r + p * r * g) / r == v + p * g
  {
    MulAssoc(p, r, g);
    MulComm(r, g);
    MulAssoc(p, g, r);
    MulDist(v, p * g, r);
    DivUnique(v * r + p * r * g, r, v + p * g, 0);
  }

  lemma {:induction false} LittleZero(s: seq<byte>)
    ensures Little(s) == 0 <==> forall k :: 0 <= k < |s| ==> s[k] == 0
  {
    if s != [] {
      LittleZero(s[1..]);
      assert forall k :: 1 <= k < |s| ==> s[k] == s[1..][k - 1];
    }
  }

  /** The bytes of the receiving buffer beyond the payload are zero. */
  ghost predicate ZeroBeyond(before: seq<byte>, n: nat) {
    forall k :: n <= k < |before| ==> before[k] == 0
  }

  /** Unpacking what was packed gives the payload's low bits back exactly when the receiving
      buffer is zero beyond the payload. */
  lemma DciRoundTrip(w: seq<byte>, x: nat, before: seq<byte>, bits: nat)
    requires LeftAligned(w, x % Pow2(bits), bits) && |w| <= |before|
    ensures Recovered(w, before, bits) == x % Pow2(bits) <==> ZeroBeyond(before, |w|)
    ensures x < Pow2(bits) ==> x % Pow2(bits) == x
  {
    hide Recovered, LeftAligned, Pow2, Little;
    var rest := before[|w|..];
    RecoveredSum(w, x % Pow2(bits), before, bits);
    LittleZero(rest);
    assert forall k :: |w| <= k < |before| ==> before[k] == rest[k - |w|];
    if Little(rest) > 0 {
      MulPositive(Pow2(bits), Little(rest));
    }
    if x < Pow2(bits) {
      DivUnique(x, Pow2(bits), 0, x);
    }
  }

  /** A one-bit payload in a buffer whose second byte is 1: unpacking gives 3 instead of 1. */
  lemma LeftoverRecovered()
    ensures LeftAligned([0x80], 1 % Pow2(1), 1)
    ensures Recovered([0x80], [0, 1, 0, 0, 0, 0, 0, 0], 1) == 3
  {
    var before: seq<byte> := [0, 1, 0, 0, 0, 0, 0, 0];
    var rest := before[1..];
    assert Pow2(7) == 128 && Pow2(1) == 2;
    assert rest[0] == 1 && forall k :: 1 <= k < |rest| ==> rest[k] == 0;
    LittleZero(rest[1..]);
    assert Little(rest) == 1;
    assert [0x80][..0] == [] && Big([0x80]) == 0x80;
    RecoveredSum([0x80], 1, before, 1);
  }
}
