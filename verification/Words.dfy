/**
  64-bit machine words as 64 bits, least significant first: exclusive or, shifts and
  addition modulo 2^64, as uint64_t has them.
*/
module Words {
  import opened Bytes

  type Word = w: seq<bool> | |w| == 64 witness seq(64, _ => false)

  function ZeroWord(): Word { seq(64, _ => false) }
  function OneWord(): Word { seq(64, i => i == 0) }

  function XorWord(a: Word, b: Word): Word {
    seq(64, i requires 0 <= i < 64 => a[i] != b[i])
  }

  function ShiftUp(w: Word, k: nat): Word {
    seq(64, i requires 0 <= i < 64 => k <= i && w[i - k])
  }

  function ShiftDown(w: Word, k: nat): Word {
    seq(64, i requires 0 <= i < 64 => i + k < 64 && w[i + k])
  }

  /** The carry into bit i when adding a and b. */
  function Carry(a: Word, b: Word, i: nat): bool
    requires i <= 64
  {
    i != 0 &&
    var x, y, c := a[i - 1], b[i - 1], Carry(a, b, i - 1);
    (x && y) || (x && c) || (y && c)
  }

  function Add(a: Word, b: Word): Word {
    seq(64, i requires 0 <= i < 64 => (a[i] != b[i]) != Carry(a, b, i))
  }

  function Bit(b: bool): nat {
    if b then 1 else 0
  }

  /** The number in the low k bits. */
  function Value(w: Word, k: nat): nat
    requires k <= 64
  {
    if k == 0 then 0 else Value(w, k - 1) + Bit(w[k - 1]) * Pow2(k - 1)
  }

  lemma {:induction false} AddLow(a: Word, b: Word, k: nat)
    requires k <= 64
    ensures Value(a, k) + Value(b, k) == Value(Add(a, b), k) + Bit(Carry(a, b, k)) * Pow2(k)
  {
    if k != 0 {
      AddLow(a, b, k - 1);
    }
  }

  lemma {:induction false} ValueBound(w: Word, k: nat)
    requires k <= 64
    ensures Value(w, k) < Pow2(k)
  {
    if k != 0 {
      ValueBound(w, k - 1);
    }
  }

  /** Addition wraps around at 2^64. */
  lemma AddWraps(a: Word, b: Word)
    ensures Value(Add(a, b), 64) == (Value(a, 64) + Value(b, 64)) % Pow2(64)
  {
    AddLow(a, b, 64);
    ValueBound(Add(a, b), 64);
    ModUnique(Value(a, 64) + Value(b, 64), Pow2(64), Bit(Carry(a, b, 64)), Value(Add(a, b), 64));
  }

  /** Words with the same value are the same. */
  lemma {:induction false} SameValue(a: Word, b: Word, k: nat)
    requires k <= 64 && Value(a, k) == Value(b, k)
    ensures a[..k] == b[..k]
  {
    if k != 0 {
      ValueBound(a, k - 1);
      ValueBound(b, k - 1);
      DigitsAgree(Pow2(k - 1), Bit(a[k - 1]), Value(a, k - 1), Bit(b[k - 1]), Value(b, k - 1));
      SameValue(a, b, k - 1);
      assert a[..k] == a[..k - 1] + [a[k - 1]] && b[..k] == b[..k - 1] + [b[k - 1]];
    }
  }
}
