/**
  Bytes, the exclusive or of two bytes, and the big-endian length fields of the
  wire format (section 5.2 of RFC 6455).
*/
module Bytes {

  /**
    A guard for facts that most proofs should not have to look at: what is stated for all
    k with Asked(t, k) comes into play only where a proof asserts Asked of topic t.
  */
  datatype Topic =
    | AboutParser | AboutKeys | AboutHistory | AboutInput | AboutOutput
    | AboutCounts | AboutPlaces | AboutScripts | AboutBits | AboutClock

  ghost predicate Asked(t: Topic, k: int) { true }

  type byte = x: int | 0 <= x < 256

  /** A 32-bit masking key. */
  type Key = k: seq<byte> | |k| == 4 witness [0, 0, 0, 0]

  const ZERO_KEY: Key := [0, 0, 0, 0]

  /** 2 to the power k. */
  function Pow2(k: nat): (p: nat)
    ensures p > 0
  {
    if k == 0 then 1 else 2 * Pow2(k - 1)
  }

  /** The exclusive or of the low k bits of two numbers. */
  function XorBits(a: nat, b: nat, k: nat): (r: nat)
    ensures r < Pow2(k)
  {
    if k == 0 then 0
    else (if a % 2 == b % 2 then 0 else 1) + 2 * XorBits(a / 2, b / 2, k - 1)
  }

  lemma {:induction false} XorBitsTwice(a: nat, b: nat, k: nat)
    requires a < Pow2(k)
    ensures XorBits(XorBits(a, b, k), b, k) == a
  {
    if k != 0 {
      var r := XorBits(a, b, k);
      assert r / 2 == XorBits(a / 2, b / 2, k - 1);
      assert r % 2 == if a % 2 == b % 2 then 0 else 1;
      XorBitsTwice(a / 2, b / 2, k - 1);
    }
  }

  /** Bit i of a number. */
  function BitOf(n: nat, i: nat): nat {
    n / Pow2(i) % 2
  }

  lemma DivUnique(n: nat, m: nat, q: nat, r: nat)
    requires m > 0 && r < m && n == q * m + r
    ensures n / m == q
  {
    DivMod(n, m);
    DigitsAgree(m, n / m, n % m, q, r);
  }

  /** Dividing by two and then by p. */
  lemma HalfThenDiv(n: nat, p: nat)
    requires p > 0
    ensures n / (2 * p) == n / 2 / p
  {
    var h := n / 2;
    DivMod(h, p);
    HalfProduct(n, h, h / p, p, h % p);
    DivUnique(n, 2 * p, h / p, 2 * (h % p) + n % 2);
  }

  lemma HalfProduct(n: nat, h: nat, q: nat, p: nat, t: nat)
    requires h == q * p + t && h == n / 2
    ensures n == q * (2 * p) + (2 * t + n % 2)
  {
    assert q * (2 * p) == 2 * (q * p);
  }

  lemma {:induction false} XorBitsAt(a: nat, b: nat, k: nat, i: nat)
    requires i < k
    ensures BitOf(XorBits(a, b, k), i) == if BitOf(a, i) == BitOf(b, i) then 0 else 1
  {
    var r := XorBits(a, b, k);
    if i == 0 {
      assert Pow2(0) == 1;
    } else {
      XorBitsAt(a / 2, b / 2, k - 1, i - 1);
      assert r / 2 == XorBits(a / 2, b / 2, k - 1);
      HalfThenDiv(a, Pow2(i - 1));
      HalfThenDiv(b, Pow2(i - 1));
      HalfThenDiv(r, Pow2(i - 1));
    }
  }

  lemma Pow2Eight()
    ensures Pow2(8) == 256
  {
    assert Pow2(4) == 16;
  }

  /** The exclusive or of two bytes. */
  function Xor(a: byte, b: byte): byte {
    Pow2Eight();
    XorBits(a, b, 8)
  }

  /** Each bit of the exclusive or is set exactly if that bit of the two bytes differs. */
  lemma XorAt(a: byte, k: byte, i: nat)
    requires i < 8
    ensures BitOf(Xor(a, k), i) == 1 <==> BitOf(a, i) != BitOf(k, i)
  {
    XorBitsAt(a, k, 8, i);
  }

  /** Masking a byte twice with the same key byte gives the byte back. */
  lemma XorTwice(a: byte, k: byte)
    ensures Xor(Xor(a, k), k) == a
  {
    Pow2Eight();
    XorBitsTwice(a, k, 8);
  }

  /** 256 to the power k: the weight of a byte that has k bytes after it. */
  function Weight(k: nat): (w: nat)
    ensures w > 0
  {
    if k == 0 then 1 else 256 * Weight(k - 1)
  }

  /** The number that a big-endian byte string stands for. */
  function BigEndian(s: seq<byte>): (n: nat) {
    if s == [] then 0 else s[0] * Weight(|s| - 1) + BigEndian(s[1..])
  }

  /** A byte moved up by k byte positions, in 64 bits or more. */
  function ShiftLeft(b: byte, k: nat): nat {
    b * Weight(k)
  }

  lemma BigEndianStep(s: seq<byte>, i: nat, j: nat)
    requires i < j <= |s|
    ensures BigEndian(s[i..j]) == ShiftLeft(s[i], j - i - 1) + BigEndian(s[i + 1..j])
  {
    assert s[i..j][1..] == s[i + 1..j];
  }

  /** The low k bytes of n, most significant first. */
  function LengthBytes(n: nat, k: nat): (s: seq<byte>)
    ensures |s| == k
  {
    if k == 0 then [] else [n / Weight(k - 1) % 256] + LengthBytes(n, k - 1)
  }

  lemma MulMonotone(x: nat, y: nat, w: nat)
    requires x <= y
    ensures x * w <= y * w
  {}

  lemma MulAtLeast(x: nat, w: nat)
    requires x >= 1
    ensures x * w >= w
  {}

  lemma {:induction false} BigEndianBound(s: seq<byte>)
    ensures BigEndian(s) < Weight(|s|)
  {
    if s != [] {
      BigEndianBound(s[1..]);
      MulMonotone(s[0], 255, Weight(|s| - 1));
    }
  }

  /** If two digits with remainders below w stand for the same number, they agree. */
  lemma DigitsAgree(w: nat, d: nat, r: nat, e: nat, q: nat)
    requires r < w && q < w && d * w + r == e * w + q
    ensures d == e && r == q
  {
    if d < e {
      MulAtLeast(e - d, w);
    } else if e < d {
      MulAtLeast(d - e, w);
    }
  }

  lemma {:induction false} BigEndianInjective(s: seq<byte>, t: seq<byte>)
    requires |s| == |t| && BigEndian(s) == BigEndian(t)
    ensures s == t
  {
    if s != [] {
      BigEndianBound(s[1..]);
      BigEndianBound(t[1..]);
      DigitsAgree(Weight(|s| - 1), s[0], BigEndian(s[1..]), t[0], BigEndian(t[1..]));
      BigEndianInjective(s[1..], t[1..]);
      assert s == [s[0]] + s[1..] && t == [t[0]] + t[1..];
    }
  }

  lemma DivMod(n: nat, w: nat)
    requires w > 0
    ensures n == n / w * w + n % w && n % w < w
  {}

  lemma MulDistributes(p: nat, d: nat, w: nat)
    ensures (256 * p + d) * w == p * (256 * w) + d * w
  {}

  lemma ModUnique(n: nat, m: nat, p: nat, r: nat)
    requires m > 0 && r < m && n == p * m + r
    ensures n % m == r
  {
    DivMod(n, m);
    DigitsAgree(m, n / m, n % m, p, r);
  }

  /** Splitting off the top digit: n mod 256w, in terms of n mod w. */
  lemma ModDigit(n: nat, w: nat)
    requires w > 0
    ensures n / w % 256 * w + n % w == n % (256 * w)
  {
    var q := n / w;
    var p, d := q / 256, q % 256;
    DivMod(n, w);
    MulDistributes(p, d, w);
    MulMonotone(d, 255, w);
    ModUnique(n, 256 * w, p, d * w + n % w);
  }

  lemma {:induction false} LengthBytesValue(n: nat, k: nat)
    ensures BigEndian(LengthBytes(n, k)) == n % Weight(k)
  {
    if k != 0 {
      LengthBytesValue(n, k - 1);
      ModDigit(n, Weight(k - 1));
      assert LengthBytes(n, k)[1..] == LengthBytes(n, k - 1);
    }
  }

  /** Writing a length and reading it back. */
  lemma LengthRoundTrip(n: nat, k: nat)
    requires n < Weight(k)
    ensures BigEndian(LengthBytes(n, k)) == n
  {
    LengthBytesValue(n, k);
    ModUnique(n, Weight(k), 0, n);
  }

  /** Reading a length and writing it back, at the same width. */
  lemma LengthCanonical(s: seq<byte>)
    ensures LengthBytes(BigEndian(s), |s|) == s
  {
    BigEndianBound(s);
    LengthRoundTrip(BigEndian(s), |s|);
    BigEndianInjective(LengthBytes(BigEndian(s), |s|), s);
  }

  lemma {:induction false} WeightIsPow2(k: nat)
    ensures Weight(k) == Pow2(8 * k)
  {
    if k > 0 {
      WeightIsPow2(k - 1);
      Pow2Times256(8 * (k - 1));
    }
  }

  lemma Pow2Times256(n: nat)
    ensures Pow2(n + 8) == 256 * Pow2(n)
  {
    assert Pow2(n + 2) == 4 * Pow2(n);
    assert Pow2(n + 4) == 4 * Pow2(n + 2);
    assert Pow2(n + 6) == 4 * Pow2(n + 4);
  }

  /** Byte j of k length bytes, in network order. */
  lemma {:induction false} LengthBytesAt(n: nat, k: nat, j: nat)
    requires j < k
    ensures LengthBytes(n, k)[j] == n / Weight(k - 1 - j) % 256
  {
    if j > 0 {
      LengthBytesAt(n, k - 1, j - 1);
      assert LengthBytes(n, k)[j] == LengthBytes(n, k - 1)[j - 1];
    }
  }

  lemma Weights()
    ensures Weight(0) == 1 && Weight(1) == 0x100 && Weight(2) == 0x1_0000
    ensures Weight(8) == 0x1_0000_0000_0000_0000
  {
    assert Weight(4) == 0x1_0000_0000;
  }

  lemma AppendEmpty(s: seq<byte>)
    ensures s + [] == s
  {}

  lemma AppendAssociates(s: seq<byte>, t: seq<byte>, u: seq<byte>)
    ensures s + (t + u) == s + t + u
  {}

  function Zeros(n: nat): (s: seq<byte>)
    ensures |s| == n
  {
    seq(n, _ => 0)
  }

  function Min(a: int, b: int): int {
    if a <= b then a else b
  }

  function Max(a: int, b: int): int {
    if a <= b then b else a
  }
}
