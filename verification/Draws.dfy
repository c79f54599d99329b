/**
  Generators in general: a state step and eight bytes per draw. Nothing here depends on
  which step it is.
*/
module Draws {
  import opened Bytes

  type EightBytes = b: seq<byte> | |b| == 8 witness [0, 0, 0, 0, 0, 0, 0, 0]

  /** The state after n steps. */
  function After<S>(step: S -> S, s: S, n: nat): S {
    if n == 0 then s else step(After(step, s, n - 1))
  }

  /** The state n steps back. */
  function Before<S>(back: S -> S, s: S, n: nat): S
    decreases n
  {
    if n == 0 then s else Before(back, back(s), n - 1)
  }

  lemma {:induction false} BeforeAfter<S(!new)>(step: S -> S, back: S -> S, s: S, n: nat)
    requires forall t :: back(step(t)) == t
    ensures Before(back, After(step, s, n), n) == s
  {
    if n != 0 {
      BeforeAfter(step, back, s, n - 1);
    }
  }

  /** A reversible step that fixes z never gets to z from anywhere else. */
  lemma {:induction false} FixedPointUnreached<S(!new)>(step: S -> S, back: S -> S, z: S, s: S, n: nat)
    requires forall t :: back(step(t)) == t
    requires step(z) == z && s != z
    ensures After(step, s, n) != z
  {
    if n != 0 {
      FixedPointUnreached(step, back, z, s, n - 1);
      assert back(step(z)) == z;
      assert back(step(After(step, s, n - 1))) == After(step, s, n - 1);
    }
  }

  /** Byte j of everything produced from state s on: eight bytes for each step. */
  function StreamByte<S>(step: S -> S, out: S -> EightBytes, s: S, j: nat): byte {
    out(After(step, s, j / 8 + 1))[j % 8]
  }

  function Stream<S>(step: S -> S, out: S -> EightBytes, s: S, from: nat, n: nat): (b: seq<byte>)
    ensures |b| == n
  {
    seq<byte>(n, i requires 0 <= i < n => StreamByte(step, out, s, from + i))
  }

  lemma Split8(m: nat, j: nat)
    ensures (8 * m + j) / 8 == m + j / 8 && (8 * m + j) % 8 == j % 8
  {}

  lemma StreamSplit<S>(step: S -> S, out: S -> EightBytes, s: S, from: nat, m: nat, n: nat)
    ensures Stream(step, out, s, from, m + n)
            == Stream(step, out, s, from, m) + Stream(step, out, s, from + m, n)
  {}

  /**
    The draw after k others yields the next n bytes; n is 8 except where a fill ends.
  */
  lemma StreamDraw<S>(step: S -> S, out: S -> EightBytes, s: S, from: nat, m: nat, k: nat, n: nat)
    requires n <= 8 && from + m == 8 * k
    ensures Stream(step, out, s, from, m + n)
            == Stream(step, out, s, from, m) + out(After(step, s, k + 1))[..n]
  {
    StreamSplit(step, out, s, from, m, n);
    forall i | 0 <= i < n
      ensures Stream(step, out, s, 8 * k, n)[i] == out(After(step, s, k + 1))[i]
    {
      Split8(k, i);
    }
    assert Stream(step, out, s, 8 * k, n) == out(After(step, s, k + 1))[..n];
  }
}
