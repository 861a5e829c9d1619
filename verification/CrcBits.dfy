/** The CRC-32 register, one bit and one byte at a time. */
module CrcBits {

  /** The CRC-32 polynomial, least significant coefficient in the top bit. */
  const POLYNOMIAL: bv32 := 0xEDB8_8320

  predicate Even(r: bv32) { r & 1 == 0 }

  predicate Odd(r: bv32) { !Even(r) }

  function Half(r: bv32): bv32 { r >> 1 }

  function Xor(a: bv32, b: bv32): bv32 { a ^ b }

  function Mix(r: bv32): bv32 { Xor(r, POLYNOMIAL) }

  /** Feed one message bit. */
  function Feed(r: bv32, bit: bool): bv32 {
    if Even(r) != bit then Half(r) else Mix(Half(r))
  }

  /** Feed the low eight bits of m, least significant first. */
  function FeedByte(r: bv32, m: bv32): bv32 { Feed8(Feed, Half, Odd, r, m) }

  /** The register moves on by itself. */
  function Shift(r: bv32): bv32 {
    if Even(r) then Half(r) else Mix(Half(r))
  }

  function Shift8(r: bv32): bv32 { Times8(Shift, r) }

  function Unshift(s: bv32): bv32 {
    if s & 0x8000_0000 != 0 then (Mix(s) << 1) | 1 else s << 1
  }

  function Times8<T>(f: T -> T, x: T): T { f(f(f(f(f(f(f(f(x)))))))) }

  /** Eight feeds of what `odd` says of m, half(m), half(half(m)), ... */
  function Feed8<T>(feed: (T, bool) -> T, half: T -> T, odd: T -> bool, r: T, m: T): T {
    var m1 := half(m);
    var m2 := half(m1);
    var m3 := half(m2);
    var m4 := half(m3);
    var m5 := half(m4);
    var m6 := half(m5);
    var m7 := half(m6);
    feed(feed(feed(feed(feed(feed(feed(feed(r, odd(m)), odd(m1)), odd(m2)), odd(m3)), odd(m4)), odd(m5)), odd(m6)), odd(m7))
  }

  // ------------------------------------------------------------------------------------
  // One bit.

  lemma XorAssociates(x: bv32, y: bv32, p: bv32)
    ensures (x ^ y) ^ p == x ^ (y ^ p)
  {
  }

  lemma XorSwaps(x: bv32, y: bv32, p: bv32)
    ensures (x ^ y) ^ p == (x ^ p) ^ y
  {
  }

  lemma HalfXor(x: bv32, y: bv32)
    ensures Half(Xor(x, y)) == Xor(Half(x), Half(y))
  {
  }

  lemma EvenXor(x: bv32, y: bv32)
    ensures Even(Xor(x, y)) == (Even(x) == Even(y))
  {
  }

  lemma MixXor(x: bv32, y: bv32)
    ensures Mix(Xor(x, y)) == Xor(x, Mix(y)) && Mix(Xor(x, y)) == Xor(Mix(x), y)
  {
    XorAssociates(x, y, POLYNOMIAL);
    XorSwaps(x, y, POLYNOMIAL);
  }

  /** A message can be xored into the register ahead of time. */
  lemma FeedAhead(r: bv32, m: bv32)
    ensures Feed(Xor(r, m), !Even(m)) == Xor(Shift(r), Half(m))
  {
    HalfXor(r, m);
    EvenXor(r, m);
    if Even(r) {
      assert Even(Xor(r, m)) == Even(m);
    } else {
      assert Even(Xor(r, m)) != Even(m);
      MixXor(Half(r), Half(m));
    }
  }

  /** What is even passes through a shift unmixed. */
  lemma ShiftXor(x: bv32, y: bv32)
    requires Even(x)
    ensures Shift(Xor(x, y)) == Xor(Half(x), Shift(y))
  {
    HalfXor(x, y);
    EvenXor(x, y);
    if Even(y) {
      assert Even(Xor(x, y));
    } else {
      assert !Even(Xor(x, y));
      MixXor(Half(x), Half(y));
    }
  }

  lemma ShiftLinear(x: bv32, y: bv32)
    ensures Shift(Xor(x, y)) == Xor(Shift(x), Shift(y))
  {
    if Even(x) {
      ShiftXor(x, y);
    } else if Even(y) {
      ShiftXor(y, x);
      Commute(x, y);
      Commute(Half(y), Shift(x));
    } else {
      HalfXor(x, y);
      EvenXor(x, y);
      MixBoth(Half(x), Half(y), POLYNOMIAL);
    }
  }

  lemma Commute(x: bv32, y: bv32)
    ensures Xor(x, y) == Xor(y, x)
  {
  }

  lemma MixBoth(x: bv32, y: bv32, p: bv32)
    ensures Xor(Xor(x, p), Xor(y, p)) == Xor(x, y)
  {
    MixTwice(x, y, p);
  }

  lemma MixTwice(x: bv32, y: bv32, p: bv32)
    ensures (x ^ p) ^ (y ^ p) == x ^ y
  {
  }

  /** A shift can be undone: its top bit tells whether it mixed. */
  lemma UnshiftShift(r: bv32)
    ensures Unshift(Shift(r)) == r
  {
  }

  // ------------------------------------------------------------------------------------
  // Eight bits, for any operations with the one-bit properties above.

  lemma FeedsAhead<T(!new)>(feed: (T, bool) -> T, shift: T -> T, half: T -> T, xor: (T, T) -> T, odd: T -> bool, r: T, m: T)
    requires forall s, u :: feed(xor(s, u), odd(u)) == xor(shift(s), half(u))
    ensures Feed8(feed, half, odd, xor(r, m), m) == xor(Times8(shift, r), Times8(half, m))
  {
    var r1, m1 := shift(r), half(m);
    var r2, m2 := shift(r1), half(m1);
    var r3, m3 := shift(r2), half(m2);
    var r4, m4 := shift(r3), half(m3);
    var r5, m5 := shift(r4), half(m4);
    var r6, m6 := shift(r5), half(m5);
    var r7, m7 := shift(r6), half(m6);
    assert feed(xor(r, m), odd(m)) == xor(r1, m1);
    assert feed(xor(r1, m1), odd(m1)) == xor(r2, m2);
    assert feed(xor(r2, m2), odd(m2)) == xor(r3, m3);
    assert feed(xor(r3, m3), odd(m3)) == xor(r4, m4);
    assert feed(xor(r4, m4), odd(m4)) == xor(r5, m5);
    assert feed(xor(r5, m5), odd(m5)) == xor(r6, m6);
    assert feed(xor(r6, m6), odd(m6)) == xor(r7, m7);
  }

  lemma ShiftsXor<T(!new)>(shift: T -> T, half: T -> T, xor: (T, T) -> T, even: T -> bool, x: T, y: T)
    requires forall u, v :: even(u) ==> shift(xor(u, v)) == xor(half(u), shift(v))
    requires even(x) && even(half(x)) && even(half(half(x))) && even(half(half(half(x))))
    requires even(half(half(half(half(x))))) && even(half(half(half(half(half(x))))))
    requires even(half(half(half(half(half(half(x))))))) && even(half(half(half(half(half(half(half(x))))))))
    ensures Times8(shift, xor(x, y)) == xor(Times8(half, x), Times8(shift, y))
  {
    var x1, y1 := half(x), shift(y);
    var x2, y2 := half(x1), shift(y1);
    var x3, y3 := half(x2), shift(y2);
    var x4, y4 := half(x3), shift(y3);
    var x5, y5 := half(x4), shift(y4);
    var x6, y6 := half(x5), shift(y5);
    var x7, y7 := half(x6), shift(y6);
    assert shift(xor(x, y)) == xor(x1, y1);
    assert shift(xor(x1, y1)) == xor(x2, y2);
    assert shift(xor(x2, y2)) == xor(x3, y3);
    assert shift(xor(x3, y3)) == xor(x4, y4);
    assert shift(xor(x4, y4)) == xor(x5, y5);
    assert shift(xor(x5, y5)) == xor(x6, y6);
    assert shift(xor(x6, y6)) == xor(x7, y7);
  }

  lemma Linear<T(!new)>(shift: T -> T, xor: (T, T) -> T, x: T, y: T)
    requires forall u, v :: shift(xor(u, v)) == xor(shift(u), shift(v))
    ensures Times8(shift, xor(x, y)) == xor(Times8(shift, x), Times8(shift, y))
  {
    var x1, y1 := shift(x), shift(y);
    var x2, y2 := shift(x1), shift(y1);
    var x3, y3 := shift(x2), shift(y2);
    var x4, y4 := shift(x3), shift(y3);
    var x5, y5 := shift(x4), shift(y4);
    var x6, y6 := shift(x5), shift(y5);
    var x7, y7 := shift(x6), shift(y6);
    assert shift(xor(x, y)) == xor(x1, y1);
    assert shift(xor(x1, y1)) == xor(x2, y2);
    assert shift(xor(x2, y2)) == xor(x3, y3);
    assert shift(xor(x3, y3)) == xor(x4, y4);
    assert shift(xor(x4, y4)) == xor(x5, y5);
    assert shift(xor(x5, y5)) == xor(x6, y6);
    assert shift(xor(x6, y6)) == xor(x7, y7);
  }

  lemma Undone<T(!new)>(f: T -> T, g: T -> T, x: T)
    requires forall u :: g(f(u)) == u
    ensures Times8(g, Times8(f, x)) == x
  {
  }

  // ------------------------------------------------------------------------------------
  // One byte.

  lemma Halves(x: bv32)
    ensures Times8(Half, x) == x >> 8
  {
  }

  lemma FeedByteAhead(r: bv32, m: bv32)
    ensures FeedByte(Xor(r, m), m) == Xor(Times8(Shift, r), Times8(Half, m))
  {
    forall s: bv32, u: bv32 ensures Feed(Xor(s, u), Odd(u)) == Xor(Shift(s), Half(u)) { FeedAhead(s, u); }
    FeedsAhead(Feed, Shift, Half, Xor, Odd, r, m);
  }

  lemma Cancel(r: bv32, m: bv32)
    ensures Xor(Xor(r, m), m) == r
  {
  }

  lemma NoBitsLeft(m: bv32, s: bv32)
    requires m <= 0xFF
    ensures Xor(s, Times8(Half, m)) == s
  {
    Halves(m);
  }

  /** Feeding a byte is xoring it in and shifting eight times. */
  lemma FeedByteIsShift8(r: bv32, m: bv32)
    requires m <= 0xFF
    ensures FeedByte(r, m) == Shift8(Xor(r, m))
  {
    var s := Xor(r, m);
    FeedByteAhead(s, m);
    Cancel(r, m);
    NoBitsLeft(m, Times8(Shift, s));
  }

  lemma Shift8Linear(x: bv32, y: bv32)
    ensures Shift8(Xor(x, y)) == Xor(Shift8(x), Shift8(y))
  {
    forall u: bv32, v: bv32 ensures Shift(Xor(u, v)) == Xor(Shift(u), Shift(v)) { ShiftLinear(u, v); }
    Linear(Shift, Xor, x, y);
  }

  /** Eight shifts move what lies above the low byte down unmixed. */
  lemma Shift8Xor(x: bv32, y: bv32)
    requires x & 0xFF == 0
    ensures Shift8(Xor(x, y)) == Xor(x >> 8, Shift8(y))
  {
    forall u: bv32, v: bv32 | Even(u) ensures Shift(Xor(u, v)) == Xor(Half(u), Shift(v)) { ShiftXor(u, v); }
    AllEven(x);
    ShiftsXor(Shift, Half, Xor, Even, x, y);
    Halves(x);
  }

  lemma AllEven(x: bv32)
    requires x & 0xFF == 0
    ensures Even(x) && Even(Half(x)) && Even(Half(Half(x))) && Even(Half(Half(Half(x))))
    ensures Even(Half(Half(Half(Half(x))))) && Even(Half(Half(Half(Half(Half(x))))))
    ensures Even(Half(Half(Half(Half(Half(Half(x))))))) && Even(Half(Half(Half(Half(Half(Half(Half(x))))))))
  {
  }

  lemma HighAndLow(r: bv32)
    ensures Xor(r & 0xFFFF_FF00, r & 0xFF) == r
    ensures (r & 0xFFFF_FF00) & 0xFF == 0
    ensures (r & 0xFFFF_FF00) >> 8 == r >> 8
  {
  }

  /** Only the low byte decides what eight shifts mix in: a table of 256 entries will do. */
  lemma Shift8Splits(r: bv32)
    ensures Shift8(r) == Xor(r >> 8, Shift8(r & 0xFF))
  {
    HighAndLow(r);
    Shift8Xor(r & 0xFFFF_FF00, r & 0xFF);
  }

  lemma UpAndDown(b: bv32)
    requires b <= 0xFF_FFFF
    ensures (b << 8) & 0xFF == 0 && (b << 8) >> 8 == b
  {
  }

  /** A byte xored into the register after eight shifts might as well have been xored in,
      eight places up, before. */
  lemma Shift8Ahead(r: bv32, b: bv32)
    requires b <= 0xFF_FFFF
    ensures Xor(Shift8(r), b) == Shift8(Xor(r, b << 8))
  {
    UpAndDown(b);
    Shift8Xor(b << 8, r);
    Commute(b << 8, r);
    Commute(b, Shift8(r));
  }

  /** Every byte step is a bijection on the register. */
  lemma Shift8Injective(a: bv32, b: bv32)
    requires Shift8(a) == Shift8(b)
    ensures a == b
  {
    forall r: bv32 ensures Unshift(Shift(r)) == r { UnshiftShift(r); }
    Undone(Shift, Unshift, a);
    Undone(Shift, Unshift, b);
  }
}
