/**
  The generator of masking keys (xorshift128+) and the cache that hands its bytes out
  four at a time.
*/
module RandomKeys {
  import opened Bytes
  import opened Words
  import opened Draws

  // ------------------------------------------------------------ the generator, as a function

  datatype State = State(s0: Word, s1: Word)

  function ScrambleLeft(x: Word): Word { XorWord(x, ShiftUp(x, 23)) }

  function Blend(x: Word, y: Word): Word {
    XorWord(XorWord(XorWord(x, y), ShiftDown(x, 17)), ShiftDown(y, 26))
  }

  /** One state step. */
  function Step(s: State): State {
    State(s.s1, Blend(ScrambleLeft(s.s0), s.s1))
  }

  /** The number returned by the draw that led to state s. */
  function Output(s: State): Word {
    Add(s.s1, s.s0)
  }

  // The same once more, bit by bit and in the literal shifts of the source.

  /** Bit i of x ^ (x << 23). */
  predicate Scrambled(x: Word, i: nat)
    requires i < 64
  {
    x[i] != (i >= 23 && x[i - 23])
  }

  /** Bit i of x ^ y ^ (x >> 17) ^ (y >> 26), where x has been scrambled. */
  predicate Blended(x: Word, y: Word, i: nat)
    requires i < 64
  {
    ((Scrambled(x, i) != y[i]) != (i + 17 < 64 && Scrambled(x, i + 17))) != (i + 26 < 64 && y[i + 26])
  }

  predicate IsStep(s: State, t: State) {
    t.s0 == s.s1 && forall i :: 0 <= i < 64 ==> t.s1[i] == Blended(s.s0, s.s1, i)
  }

  /** The number that the draw leading to state s returns. */
  predicate IsSum(w: Word, s: State) {
    Value(w, 64) == (Value(s.s0, 64) + Value(s.s1, 64)) % Pow2(64)
  }

  /** A step is what the source computes, bit by bit, and nothing else is. */
  lemma StepBits(s: State, t: State)
    ensures IsStep(s, t) <==> t == Step(s)
  {
    forall i | 0 <= i < 64
      ensures Step(s).s1[i] == Blended(s.s0, s.s1, i)
    {
      ScrambledAt(s.s0, i);
      if i + 17 < 64 {
        ScrambledAt(s.s0, i + 17);
      }
    }
    if IsStep(s, t) {
      assert t.s1 == Step(s).s1;
    }
  }

  lemma ScrambledAt(x: Word, i: nat)
    requires i < 64
    ensures ScrambleLeft(x)[i] == Scrambled(x, i)
  {}

  lemma OutputIsSum(w: Word, s: State)
    ensures IsSum(w, s) <==> w == Output(s)
  {
    AddWraps(s.s1, s.s0);
    if IsSum(w, s) {
      SameValue(w, Output(s), 64);
      assert w[..64] == w && Output(s)[..64] == Output(s);
    }
  }

  /** A draw from state s leads to state t and returns w. */
  ghost predicate IsDraw(s: State, t: State, w: Word) {
    forall k :: Asked(AboutBits, k) ==> IsStep(s, t) && IsSum(w, t)
  }

  lemma StepIsDraw(s: State)
    ensures IsDraw(s, Step(s), Output(Step(s)))
  {
    StepBits(s, Step(s));
    OutputIsSum(Output(Step(s)), Step(s));
  }

  /** The states that a generator goes through, from its seed on. */
  ghost predicate IsRun(states: seq<State>, seed: State) {
    && states != [] && states[0] == seed
    && forall k :: 0 < k < |states| ==> IsStep(states[k - 1], states[k])
  }

  lemma {:induction false} RunIsAfter(states: seq<State>, seed: State, k: nat)
    requires IsRun(states, seed) && k < |states|
    ensures states[k] == After(Step, seed, k)
  {
    if k > 0 {
      RunIsAfter(states, seed, k - 1);
      StepBits(states[k - 1], states[k]);
    }
  }

  /** There is such a run of any length. */
  lemma {:induction false} RunExists(seed: State, n: nat) returns (states: seq<State>)
    ensures IsRun(states, seed) && |states| == n + 1
  {
    states := [seed];
    if n > 0 {
      states := RunExists(seed, n - 1);
      StepBits(states[n - 1], Step(states[n - 1]));
      states := states + [Step(states[n - 1])];
    }
  }

  /** How the machine lays a word out in memory; nothing here depends on the byte order. */
  type Layout = Word -> EightBytes

  function OutputBytes(layout: Layout): State -> EightBytes {
    s => layout(Output(s))
  }

  // ------------------------------------------------------------ its inverse

  function UnscrambleLeft(z: Word): Word {
    XorWord(XorWord(z, ShiftUp(z, 23)), ShiftUp(z, 46))
  }

  function UnscrambleRight(z: Word): Word {
    XorWord(XorWord(XorWord(z, ShiftDown(z, 17)), ShiftDown(z, 34)), ShiftDown(z, 51))
  }

  function Unmix(z: Word, y: Word): Word {
    XorWord(XorWord(z, y), ShiftDown(y, 26))
  }

  /** The state before a step. */
  function Unstep(s: State): State {
    State(UnscrambleLeft(UnscrambleRight(Unmix(s.s1, s.s0))), s.s0)
  }

  lemma LeftInverse(x: Word)
    ensures UnscrambleLeft(ScrambleLeft(x)) == x
    ensures ScrambleLeft(UnscrambleLeft(x)) == x
  {}

  lemma BlendUndone(x: Word, y: Word)
    ensures UnscrambleRight(Unmix(Blend(x, y), y)) == x
  {}

  lemma UndoneBlend(z: Word, y: Word)
    ensures Blend(UnscrambleRight(Unmix(z, y)), y) == z
  {}

  /** A step is a permutation of the 128-bit states, and Unstep is its inverse. */
  lemma StepReversible(s: State)
    ensures Unstep(Step(s)) == s
    ensures Step(Unstep(s)) == s
  {
    BlendUndone(ScrambleLeft(s.s0), s.s1);
    LeftInverse(s.s0);
    LeftInverse(UnscrambleRight(Unmix(s.s1, s.s0)));
    UndoneBlend(s.s1, s.s0);
  }

  function Zero(): State { State(ZeroWord(), ZeroWord()) }

  lemma StepZero()
    ensures Step(Zero()) == Zero()
  {}

  lemma AlwaysReversible()
    ensures forall s :: Unstep(Step(s)) == s
  {
    forall s ensures Unstep(Step(s)) == s { StepReversible(s); }
  }

  /** Any run of draws can be undone. */
  lemma RunReversible(s: State, n: nat)
    ensures Before(Unstep, After(Step, s, n), n) == s
  {
    AlwaysReversible();
    BeforeAfter(Step, Unstep, s, n);
  }

  /** No two seeds are ever in the same state after the same number of draws. */
  lemma SeedsNeverMeet(s: State, t: State, n: nat)
    requires After(Step, s, n) == After(Step, t, n)
    ensures s == t
  {
    RunReversible(s, n);
    RunReversible(t, n);
  }

  /** From a seed that is not zero, no number of draws reaches the fixed point zero. */
  lemma NeverZero(s: State, n: nat)
    requires s != Zero()
    ensures After(Step, s, n) != Zero()
  {
    AlwaysReversible();
    StepZero();
    FixedPointUnreached(Step, Unstep, Zero(), s, n);
  }

  /** Part of the generator's byte stream from seed s on. */
  function KeyBytes(layout: Layout, s: State, from: nat, n: nat): (b: seq<byte>)
    ensures |b| == n
  {
    Stream(Step, OutputBytes(layout), s, from, n)
  }

  /** The masking key at a position of the stream. */
  function KeyAt(layout: Layout, s: State, position: nat): Key {
    KeyBytes(layout, s, position, 4)
  }

  /**
    Byte j of everything the generator yields: eight bytes for each draw, and draw n returns
    the sum of the two words of state n.
  */
  ghost predicate IsDrawn(layout: Layout, states: seq<State>, j: nat, b: byte) {
    j / 8 + 1 < |states| ==> forall w: Word :: IsSum(w, states[j / 8 + 1]) ==> b == layout(w)[j % 8]
  }

  /** The four bytes of a key are bytes q to q + 4 of what the generator yields from its seed on. */
  ghost predicate IsDrawnKey(layout: Layout, seed: State, q: nat, key: Key) {
    forall states :: IsRun(states, seed) ==>
      forall i :: 0 <= i < 4 ==> IsDrawn(layout, states, q + i, key[i])
  }

  lemma ByteIsDrawn(layout: Layout, seed: State, states: seq<State>, j: nat)
    requires IsRun(states, seed)
    ensures IsDrawn(layout, states, j, StreamByte(Step, OutputBytes(layout), seed, j))
  {
    var n := j / 8 + 1;
    if n < |states| {
      RunIsAfter(states, seed, n);
      forall w: Word | IsSum(w, states[n])
        ensures layout(w) == layout(Output(states[n]))
      {
        OutputIsSum(w, states[n]);
      }
    }
  }

  lemma KeyIsDrawn(layout: Layout, seed: State, q: nat)
    ensures IsDrawnKey(layout, seed, q, KeyAt(layout, seed, q))
  {
    var key := KeyAt(layout, seed, q);
    forall states, i | IsRun(states, seed) && 0 <= i < 4
      ensures IsDrawn(layout, states, q + i, key[i])
    {
      ByteIsDrawn(layout, seed, states, q + i);
      assert key[i] == StreamByte(Step, OutputBytes(layout), seed, q + i);
    }
  }

  /** The state made from two seeds: two zeros would be a fixed point, so the second becomes 1. */
  function SeedOf(seed1: Word, seed2: Word): State {
    State(seed1, if seed1 == ZeroWord() && seed2 == ZeroWord() then OneWord() else seed2)
  }

  lemma SeedNotZero(seed1: Word, seed2: Word)
    ensures SeedOf(seed1, seed2) != Zero() && SeedOf(seed1, seed2).s0 == seed1
    ensures Value(seed1, 64) + Value(seed2, 64) > 0 ==> SeedOf(seed1, seed2).s1 == seed2
    ensures Value(seed1, 64) + Value(seed2, 64) == 0 ==> Value(SeedOf(seed1, seed2).s1, 64) == 1
  {
    assert OneWord()[0] != ZeroWord()[0];
    SmallValues(64);
    if Value(seed1, 64) + Value(seed2, 64) == 0 {
      SameValue(seed1, ZeroWord(), 64);
      SameValue(seed2, ZeroWord(), 64);
      assert seed1[..64] == seed1 && seed2[..64] == seed2 && ZeroWord()[..64] == ZeroWord();
    }
  }

  lemma {:induction false} SmallValues(k: nat)
    requires 0 < k <= 64
    ensures Value(ZeroWord(), k) == 0 && Value(OneWord(), k) == 1
  {
    if k > 1 {
      SmallValues(k - 1);
    }
  }

  // ------------------------------------------------------------ the generator and the cache

  class XorShift128Plus {
    var s0: Word
    var s1: Word

    const layout: Layout

    /** The state after construction, and the number of draws since. */
    ghost const seed: State
    ghost var draws: nat

    ghost predicate Valid()
      reads this
    {
      forall k :: Asked(AboutKeys, k) ==> seed != Zero() && State(s0, s1) == After(Step, seed, draws)
    }

    constructor (seed1: Word, seed2: Word, layout: Layout)
      ensures Valid() && draws == 0
      ensures this.layout == layout && seed == SeedOf(seed1, seed2)
    {
      this.layout := layout;
      s0 := seed1;
      s1 := if seed1 == ZeroWord() && seed2 == ZeroWord() then OneWord() else seed2;
      seed := SeedOf(seed1, seed2);
      SeedNotZero(seed1, seed2);
      draws := 0;
    }

    method Next64() returns (r: Word)
      requires Valid()
      modifies this
      ensures Valid() && draws == old(draws) + 1
      ensures r == Output(After(Step, seed, draws))
      ensures IsDraw(State(old(s0), old(s1)), State(s0, s1), r)
    {
      assert Asked(AboutKeys, 0);
      var x := s0;
      var y := s1;
      s0 := y;
      x := XorWord(x, ShiftUp(x, 23));
      s1 := XorWord(XorWord(XorWord(x, y), ShiftDown(x, 17)), ShiftDown(y, 26));
      assert State(s0, s1) == Step(State(old(s0), old(s1)));
      draws := draws + 1;
      r := Add(s1, y);
      StepIsDraw(State(old(s0), old(s1)));
    }

    /** One draw, of which the first n bytes go to buf[at..]. */
    method DrawInto(buf: array<byte>, at: nat, n: nat, ghost from: nat)
      requires Valid() && n <= 8 && at + n <= buf.Length && from + at == 8 * draws
      requires buf[..at] == KeyBytes(layout, seed, from, at)
      modifies this, buf
      ensures Valid() && draws == old(draws) + 1
      ensures buf[..at + n] == KeyBytes(layout, seed, from, at + n)
    {
      var rnd := Next64();
      CopyBytes(buf, at, layout(rnd)[..n]);
      StreamDraw(Step, OutputBytes(layout), seed, from, at, draws - 1, n);
    }

    /** Eight bytes a draw; what is left of the last draw is thrown away. */
    method FillBytes(buf: array<byte>)
      requires Valid()
      modifies this, buf
      ensures Valid() && draws == old(draws) + (buf.Length + 7) / 8
      ensures buf[..] == KeyBytes(layout, seed, 8 * old(draws), buf.Length)
    {
      ghost var from := 8 * draws;
      var at, n := 0, buf.Length;
      while n >= 8
        invariant 0 <= n && at + n == buf.Length && from + at == 8 * draws
        invariant Valid() && from == 8 * old(draws)
        invariant buf[..at] == KeyBytes(layout, seed, from, at)
      {
        DrawInto(buf, at, 8, from);
        at, n := at + 8, n - 8;
      }
      if n > 0 {
        DrawInto(buf, at, n, from);
      }
      assert buf[..] == buf[..buf.Length];
    }
  }

  method CopyBytes(buf: array<byte>, at: nat, bytes: seq<byte>)
    requires at + |bytes| <= buf.Length
    modifies buf
    ensures buf[..at] == old(buf[..at])
    ensures buf[..at + |bytes|] == old(buf[..at]) + bytes
  {
    forall i | 0 <= i < |bytes| {
      buf[at + i] := bytes[i];
    }
    assert buf[..at + |bytes|] == buf[..at] + buf[at..at + |bytes|];
    assert buf[at..at + |bytes|] == bytes;
  }

  const CACHE_SIZE := 32  // eight keys of four bytes

  class RandomCache {
    const rng: XorShift128Plus
    const cache: array<byte>
    var cachePtr: nat

    /** The cache holds what the last four draws produced. */
    ghost predicate Valid()
      reads this, rng, cache
    {
      && rng.Valid() && rng.draws >= 4
      && cache.Length == CACHE_SIZE
      && cachePtr <= CACHE_SIZE && cachePtr % 4 == 0
      && (forall k :: Asked(AboutKeys, k) ==>
            cache[..] == KeyBytes(rng.layout, rng.seed, 8 * rng.draws - CACHE_SIZE, CACHE_SIZE))
    }

    /** Where the next key comes from in the generator's byte stream. */
    ghost function Position(): nat
      requires Valid()
      reads this, rng, cache
    {
      8 * rng.draws - CACHE_SIZE + cachePtr
    }

    constructor (seed1: Word, seed2: Word, layout: Layout)
      ensures Valid() && fresh(rng) && fresh(cache) && Position() == 0
      ensures rng.layout == layout && rng.seed == SeedOf(seed1, seed2)
    {
      rng := new XorShift128Plus(seed1, seed2, layout);
      cache := new byte[CACHE_SIZE](_ => 0);
      cachePtr := 0;
      new;
      FillCache();
    }

    /** Fills the cache anew; keys not handed out yet are lost. */
    method FillCache()
      requires rng.Valid() && cache.Length == CACHE_SIZE
      modifies this`cachePtr, rng, cache
      ensures Valid() && cachePtr == 0 && rng.draws == old(rng.draws) + 4
    {
      rng.FillBytes(cache);
      cachePtr := 0;
    }

    /** Hands out the next four bytes of the stream, whatever refills that takes. */
    method Get() returns (key: Key)
      requires Valid()
      modifies this`cachePtr, rng, cache
      ensures Valid() && Position() == old(Position()) + 4
      ensures key == KeyAt(rng.layout, rng.seed, old(Position()))
      ensures IsDrawnKey(rng.layout, rng.seed, old(Position()), key)
    {
      if cachePtr >= CACHE_SIZE {
        FillCache();
      }
      assert Asked(AboutKeys, 0);
      key := cache[cachePtr..cachePtr + 4];
      assert key == KeyAt(rng.layout, rng.seed, Position());
      KeyIsDrawn(rng.layout, rng.seed, Position());
      cachePtr := cachePtr + 4;
    }
  }
}
