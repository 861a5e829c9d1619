/** What the full 32-bit checksum of crc32.c detects. */
module CrcBursts {
  import opened CrcBits
  import opened Checksums
  import opened Octets

  // ------------------------------------------------------------------------------------
  // Folds, whatever the step.

  lemma {:induction false} FoldAppend<T, B>(f: (T, B) -> T, r: T, a: seq<B>, b: seq<B>)
    ensures Fold(f, r, a + b) == Fold(f, Fold(f, r, a), b)
  {
    if b == [] {
      assert a + b == a;
    } else {
      assert (a + b)[..|a + b| - 1] == a + b[..|b| - 1];
      FoldAppend(f, r, a, b[..|b| - 1]);
    }
  }

  lemma {:induction false} FoldLast<T, B>(f: (T, B) -> T, r: T, b: B)
    ensures Fold(f, r, [b]) == f(r, b)
  {
    assert [b][..0] == [];
  }

  lemma {:induction false} FoldInjective<T(!new), B(!new)>(f: (T, B) -> T, r: T, s: T, buf: seq<B>)
    requires forall t, u, b :: f(t, b) == f(u, b) ==> t == u
    requires Fold(f, r, buf) == Fold(f, s, buf)
    ensures r == s
  {
    if buf != [] { FoldInjective(f, r, s, buf[..|buf| - 1]); }
  }

  lemma {:induction false} FoldFour<T, B>(f: (T, B) -> T, r: T, x: seq<B>)
    requires |x| == 4
    ensures Fold(f, r, x) == f(f(f(f(r, x[0]), x[1]), x[2]), x[3])
  {
    assert x[..3][..2] == x[..2] && x[..2][..1] == x[..1] && x[..1][..0] == [];
    assert Fold(f, r, x[..1]) == f(r, x[0]);
    assert Fold(f, r, x[..2]) == f(Fold(f, r, x[..1]), x[1]);
    assert Fold(f, r, x[..3]) == f(Fold(f, r, x[..2]), x[2]);
  }

  lemma FoldLiteral<T, B>(f: (T, B) -> T, r: T, a: B, b: B, c: B, d: B, result: T)
    requires f(f(f(f(r, a), b), c), d) == result
    ensures Fold(f, r, [a, b, c, d]) == result
  {
    FoldFour(f, r, [a, b, c, d]);
  }

  // ------------------------------------------------------------------------------------
  // Feeding the same bytes keeps registers apart.

  lemma Feed1Injective(r: bv32, s: bv32, b: bv8)
    requires Feed1(r, b) == Feed1(s, b)
    ensures r == s
  {
    FeedOne(r, b);
    FeedOne(s, b);
    Shift8Injective(Xor(r, b as bv32), Xor(s, b as bv32));
    Cancel(r, b as bv32);
    Cancel(s, b as bv32);
  }

  lemma FeedBytesInjective(r: bv32, s: bv32, buf: seq<bv8>)
    requires FeedBytes(r, buf) == FeedBytes(s, buf)
    ensures r == s
  {
    forall t: bv32, u: bv32, b: bv8 | Feed1(t, b) == Feed1(u, b) ensures t == u { Feed1Injective(t, u, b); }
    FoldInjective(Feed1, r, s, buf);
  }

  // ------------------------------------------------------------------------------------
  // Four bytes act on the register as one word.

  function Up(b: bv32): bv32 { b << 8 }

  /** Four bytes xored into the register, first byte lowest. */
  function Pack(r: bv32, a: bv32, b: bv32, c: bv32, d: bv32): bv32 {
    Xor(Xor(Xor(Xor(r, a), Up(b)), Up(Up(c))), Up(Up(Up(d))))
  }

  function Shift32(r: bv32): bv32 { Shift8(Shift8(Shift8(Shift8(r)))) }

  lemma UpFits(b: bv8)
    ensures b as bv32 <= 0xFF_FFFF && Up(b as bv32) <= 0xFF_FFFF && Up(Up(b as bv32)) <= 0xFF_FFFF
  {
  }

  lemma Ahead1(z: bv32, b: bv32)
    requires b <= 0xFF_FFFF
    ensures Xor(Shift8(z), b) == Shift8(Xor(z, Up(b)))
  {
    Shift8Ahead(z, b);
  }

  lemma Ahead2(z: bv32, b: bv32)
    requires b <= 0xFF_FFFF && Up(b) <= 0xFF_FFFF
    ensures Xor(Shift8(Shift8(z)), b) == Shift8(Shift8(Xor(z, Up(Up(b)))))
  {
    Ahead1(Shift8(z), b);
    Ahead1(z, Up(b));
  }

  lemma Ahead3(z: bv32, b: bv32)
    requires b <= 0xFF_FFFF && Up(b) <= 0xFF_FFFF && Up(Up(b)) <= 0xFF_FFFF
    ensures Xor(Shift8(Shift8(Shift8(z))), b) == Shift8(Shift8(Shift8(Xor(z, Up(Up(Up(b)))))))
  {
    Ahead1(Shift8(Shift8(z)), b);
    Ahead2(z, Up(b));
  }

  lemma FeedOne(r: bv32, b: bv8)
    ensures Feed1(r, b) == Shift8(Xor(r, b as bv32))
  {
    ByteWidth(b);
    FeedByteIsShift8(r, b as bv32);
  }

  lemma FeedSecond(z: bv32, b: bv8)
    ensures Feed1(Shift8(z), b) == Shift8(Shift8(Xor(z, Up(b as bv32))))
  {
    FeedOne(Shift8(z), b);
    UpFits(b);
    Ahead1(z, b as bv32);
  }

  lemma FeedThird(z: bv32, b: bv8)
    ensures Feed1(Shift8(Shift8(z)), b) == Shift8(Shift8(Shift8(Xor(z, Up(Up(b as bv32))))))
  {
    FeedOne(Shift8(Shift8(z)), b);
    UpFits(b);
    Ahead2(z, b as bv32);
  }

  lemma FeedFourth(z: bv32, b: bv8)
    ensures Feed1(Shift8(Shift8(Shift8(z))), b) == Shift32(Xor(z, Up(Up(Up(b as bv32)))))
  {
    FeedOne(Shift8(Shift8(Shift8(z))), b);
    UpFits(b);
    Ahead3(z, b as bv32);
  }

  /** Feeding four bytes is xoring them in as one word and shifting 32 times. */
  lemma FeedWord(r: bv32, a: bv8, b: bv8, c: bv8, d: bv8)
    ensures Feed1(Feed1(Feed1(Feed1(r, a), b), c), d) == Shift32(Pack(r, a as bv32, b as bv32, c as bv32, d as bv32))
  {
    var z0 := Xor(r, a as bv32);
    var z1 := Xor(z0, Up(b as bv32));
    var z2 := Xor(z1, Up(Up(c as bv32)));
    FeedOne(r, a);
    FeedSecond(z0, b);
    FeedThird(z1, c);
    FeedFourth(z2, d);
  }

  lemma Shift32Injective(a: bv32, b: bv32)
    requires Shift32(a) == Shift32(b)
    ensures a == b
  {
    Shift8Injective(Shift8(Shift8(Shift8(a))), Shift8(Shift8(Shift8(b))));
    Shift8Injective(Shift8(Shift8(a)), Shift8(Shift8(b)));
    Shift8Injective(Shift8(a), Shift8(b));
    Shift8Injective(a, b);
  }

  /** The k-th byte of a word, lowest first. */
  function ByteOf(w: bv32, k: nat): bv32 {
    if k == 0 then w & 0xFF
    else if k == 1 then (w >> 8) & 0xFF
    else if k == 2 then (w >> 16) & 0xFF
    else (w >> 24) & 0xFF
  }

  /** Four bytes as one word, first byte lowest. */
  function Word(a: bv32, b: bv32, c: bv32, d: bv32): bv32 {
    Xor(Xor(Xor(a, Up(b)), Up(Up(c))), Up(Up(Up(d))))
  }

  lemma Gathered(r: bv32, s: bv32, t: bv32, u: bv32, v: bv32)
    ensures Xor(Xor(Xor(Xor(r, s), t), u), v) == Xor(r, Xor(Xor(Xor(s, t), u), v))
  {
  }

  lemma PackIsWord(r: bv32, a: bv32, b: bv32, c: bv32, d: bv32)
    ensures Pack(r, a, b, c, d) == Xor(r, Word(a, b, c, d))
  {
    Gathered(r, a, Up(b), Up(Up(c)), Up(Up(Up(d))));
  }

  lemma Cancelled(r: bv32, x: bv32, y: bv32)
    requires Xor(r, x) == Xor(r, y)
    ensures x == y
  {
  }

  lemma FirstByte(a: bv32, b: bv32, c: bv32, d: bv32)
    requires a <= 0xFF
    ensures ByteOf(Word(a, b, c, d), 0) == a
  {
  }

  lemma SecondByte(a: bv32, b: bv32, c: bv32, d: bv32)
    requires a <= 0xFF && b <= 0xFF
    ensures ByteOf(Word(a, b, c, d), 1) == b
  {
  }

  lemma ThirdByte(a: bv32, b: bv32, c: bv32, d: bv32)
    requires a <= 0xFF && b <= 0xFF && c <= 0xFF
    ensures ByteOf(Word(a, b, c, d), 2) == c
  {
  }

  lemma FourthByte(a: bv32, b: bv32, c: bv32, d: bv32)
    requires a <= 0xFF && b <= 0xFF && c <= 0xFF && d <= 0xFF
    ensures ByteOf(Word(a, b, c, d), 3) == d
  {
  }

  lemma BytesOfWord(a: bv32, b: bv32, c: bv32, d: bv32)
    requires a <= 0xFF && b <= 0xFF && c <= 0xFF && d <= 0xFF
    ensures var w := Word(a, b, c, d);
      ByteOf(w, 0) == a && ByteOf(w, 1) == b && ByteOf(w, 2) == c && ByteOf(w, 3) == d
  {
    FirstByte(a, b, c, d);
    SecondByte(a, b, c, d);
    ThirdByte(a, b, c, d);
    FourthByte(a, b, c, d);
  }

  lemma WordBytesInjective(a: bv32, b: bv32, c: bv32, d: bv32, e: bv32, f: bv32, g: bv32, h: bv32)
    requires a <= 0xFF && b <= 0xFF && c <= 0xFF && d <= 0xFF && e <= 0xFF && f <= 0xFF && g <= 0xFF && h <= 0xFF
    requires Word(a, b, c, d) == Word(e, f, g, h)
    ensures a == e && b == f && c == g && d == h
  {
    BytesOfWord(a, b, c, d);
    BytesOfWord(e, f, g, h);
  }

  lemma PackInjective(r: bv32, a: bv32, b: bv32, c: bv32, d: bv32, e: bv32, f: bv32, g: bv32, h: bv32)
    requires a <= 0xFF && b <= 0xFF && c <= 0xFF && d <= 0xFF && e <= 0xFF && f <= 0xFF && g <= 0xFF && h <= 0xFF
    requires Pack(r, a, b, c, d) == Pack(r, e, f, g, h)
    ensures a == e && b == f && c == g && d == h
  {
    PackIsWord(r, a, b, c, d);
    PackIsWord(r, e, f, g, h);
    Cancelled(r, Word(a, b, c, d), Word(e, f, g, h));
    WordBytesInjective(a, b, c, d, e, f, g, h);
  }

  lemma WidenInjective(a: bv8, b: bv8)
    requires a as bv32 == b as bv32
    ensures a == b
  {
  }

  lemma BytesInjective(r: bv32, a: bv8, b: bv8, c: bv8, d: bv8, e: bv8, f: bv8, g: bv8, h: bv8)
    requires Pack(r, a as bv32, b as bv32, c as bv32, d as bv32) == Pack(r, e as bv32, f as bv32, g as bv32, h as bv32)
    ensures a == e && b == f && c == g && d == h
  {
    ByteWidth(a);
    ByteWidth(b);
    ByteWidth(c);
    ByteWidth(d);
    ByteWidth(e);
    ByteWidth(f);
    ByteWidth(g);
    ByteWidth(h);
    PackInjective(r, a as bv32, b as bv32, c as bv32, d as bv32, e as bv32, f as bv32, g as bv32, h as bv32);
    WidenInjective(a, e);
    WidenInjective(b, f);
    WidenInjective(c, g);
    WidenInjective(d, h);
  }

  /** From one register, different words of four bytes lead to different registers. */
  lemma WordInjective(r: bv32, a: bv8, b: bv8, c: bv8, d: bv8, e: bv8, f: bv8, g: bv8, h: bv8)
    requires Feed1(Feed1(Feed1(Feed1(r, a), b), c), d) == Feed1(Feed1(Feed1(Feed1(r, e), f), g), h)
    ensures a == e && b == f && c == g && d == h
  {
    FeedWord(r, a, b, c, d);
    FeedWord(r, e, f, g, h);
    Shift32Injective(Pack(r, a as bv32, b as bv32, c as bv32, d as bv32), Pack(r, e as bv32, f as bv32, g as bv32, h as bv32));
    BytesInjective(r, a, b, c, d, e, f, g, h);
  }

  lemma WindowInjective(r: bv32, x: seq<bv8>, y: seq<bv8>)
    requires |x| == |y| == 4 && FeedBytes(r, x) == FeedBytes(r, y)
    ensures x == y
  {
    FoldFour(Feed1, r, x);
    FoldFour(Feed1, r, y);
    WordInjective(r, x[0], x[1], x[2], x[3], y[0], y[1], y[2], y[3]);
  }

  // ------------------------------------------------------------------------------------
  // The guarantees.

  /** The two buffers differ, and only inside four consecutive bytes. */
  ghost predicate ShortBurst<T>(a: seq<T>, b: seq<T>, at: nat) {
    && |a| == |b| && a != b
    && forall k :: 0 <= k < |a| && a[k] != b[k] ==> at <= k < at + 4
  }

  const FOUR_ZEROS: seq<bv8> := [0, 0, 0, 0]

  lemma WholeWindow(r: bv32, a: seq<bv8>, b: seq<bv8>, at: nat)
    requires ShortBurst(a, b, at) && at + 4 <= |a|
    ensures FeedBytes(r, a) != FeedBytes(r, b)
  {
    var pre, x, y, post := a[..at], a[at..at + 4], b[at..at + 4], a[at + 4..];
    assert a == pre + x + post && b == pre + y + post by {
      assert b[..at] == pre && b[at + 4..] == post;
    }
    FoldAppend(Feed1, r, pre + x, post);
    FoldAppend(Feed1, r, pre + y, post);
    FoldAppend(Feed1, r, pre, x);
    FoldAppend(Feed1, r, pre, y);
    if FeedBytes(r, a) == FeedBytes(r, b) {
      FeedBytesInjective(FeedBytes(r, pre + x), FeedBytes(r, pre + y), post);
      WindowInjective(FeedBytes(r, pre), x, y);
    }
  }

  lemma LastXor(a: bv32, b: bv32)
    requires a ^ ALL_ONES == b ^ ALL_ONES
    ensures a == b
  {
  }

  /** A burst of damage no longer than four bytes always changes the checksum. */
  lemma BurstDetected(a: seq<bv8>, b: seq<bv8>, at: nat)
    requires ShortBurst(a, b, at)
    ensures Crc(a) != Crc(b)
  {
    var a', b' := a + FOUR_ZEROS, b + FOUR_ZEROS;
    assert exists k :: 0 <= k < |a| && a[k] != b[k];
    assert ShortBurst(a', b', at) by {
      var k :| 0 <= k < |a| && a[k] != b[k];
      assert a'[k] != b'[k];
    }
    WholeWindow(ALL_ONES, a', b', at);
    FoldAppend(Feed1, ALL_ONES, a, FOUR_ZEROS);
    FoldAppend(Feed1, ALL_ONES, b, FOUR_ZEROS);
    if Crc(a) == Crc(b) {
      LastXor(FeedBytes(ALL_ONES, a), FeedBytes(ALL_ONES, b));
    }
  }

  /** The same of the octets crc32.c reads. */
  lemma OctetBurstDetected(a: seq<Octet>, b: seq<Octet>, at: nat)
    requires |a| == |b| && a != b
    requires forall k :: 0 <= k < |a| && a[k] != b[k] ==> at <= k < at + 4
    ensures Crc(Bits(a)) != Crc(Bits(b))
  {
    var k :| 0 <= k < |a| && a[k] != b[k];
    BitsAreNumbers(a, k);
    BitsAreNumbers(b, k);
    assert Bits(a) != Bits(b);
    BurstDetected(Bits(a), Bits(b), at);
  }

  function Low(w: bv32): bv8 { (w & 0xFF) as bv8 }

  function Down(w: bv32): bv32 { w >> 8 }

  /** A word as four bytes, lowest first. */
  function LittleEndian(w: bv32): seq<bv8> {
    [Low(w), Low(Down(w)), Low(Down(Down(w))), Low(Down(Down(Down(w))))]
  }

  lemma ComplementBytes(r: bv32)
    ensures var w := r ^ ALL_ONES;
      Pack(r, w & 0xFF, (w >> 8) & 0xFF, (w >> 16) & 0xFF, (w >> 24) & 0xFF) == ALL_ONES
  {
  }

  lemma DownTwice(w: bv32)
    ensures Down(Down(w)) == w >> 16 && Down(Down(Down(w))) == w >> 24
  {
  }

  lemma PackedComplement(r: bv32, w: bv32, a: bv32, b: bv32, c: bv32, d: bv32)
    requires w == r ^ ALL_ONES
    requires a == w & 0xFF && b == Down(w) & 0xFF && c == Down(Down(w)) & 0xFF && d == Down(Down(Down(w))) & 0xFF
    ensures Pack(r, a, b, c, d) == ALL_ONES
  {
    DownTwice(w);
    ComplementBytes(r);
  }

  lemma FeedBytesWord(r: bv32, a: bv8, b: bv8, c: bv8, d: bv8, p: bv32)
    requires Pack(r, a as bv32, b as bv32, c as bv32, d as bv32) == p
    ensures FeedBytes(r, [a, b, c, d]) == Shift32(p)
  {
    FeedWord(r, a, b, c, d);
    FoldLiteral(Feed1, r, a, b, c, d, Shift32(p));
  }

  lemma FeedComplementOf(r: bv32, w: bv32, a: bv8, b: bv8, c: bv8, d: bv8)
    requires w == r ^ ALL_ONES
    requires a as bv32 == w & 0xFF && b as bv32 == Down(w) & 0xFF
    requires c as bv32 == Down(Down(w)) & 0xFF && d as bv32 == Down(Down(Down(w))) & 0xFF
    ensures FeedBytes(r, [a, b, c, d]) == Shift32(ALL_ONES)
  {
    PackedComplement(r, w, a as bv32, b as bv32, c as bv32, d as bv32);
    FeedBytesWord(r, a, b, c, d, ALL_ONES);
  }

  lemma LowIsMasked(w: bv32)
    ensures Low(w) as bv32 == w & 0xFF
  {
    ThereAndBack(w);
  }

  lemma FeedComplement(r: bv32, w: bv32)
    requires w == r ^ ALL_ONES
    ensures FeedBytes(r, LittleEndian(w)) == Shift32(ALL_ONES)
  {
    LowIsMasked(w);
    LowIsMasked(Down(w));
    LowIsMasked(Down(Down(w)));
    LowIsMasked(Down(Down(Down(w))));
    FeedComplementOf(r, w, Low(w), Low(Down(w)), Low(Down(Down(w))), Low(Down(Down(Down(w)))));
  }

  lemma EightShifts(r: bv32, a: bv32, b: bv32, c: bv32, d: bv32, e: bv32, f: bv32, g: bv32, h: bv32)
    requires Shift(r) == a && Shift(a) == b && Shift(b) == c && Shift(c) == d
    requires Shift(d) == e && Shift(e) == f && Shift(f) == g && Shift(g) == h
    ensures Shift8(r) == h
  {
  }

  lemma FirstByteOfOnes()
    ensures Shift8(ALL_ONES) == 0x2DFD_1072
  {
    EightShifts(0xFFFF_FFFF, 0x9247_7CDF, 0xA49B_3D4F, 0xBFF5_1D87,
                0xB242_0DE3, 0xB499_85D1, 0xB7F4_41C8, 0x5BFA_20E4, 0x2DFD_1072);
  }

  lemma SecondByteOfOnes()
    ensures Shift8(0x2DFD_1072) == 0xBE26_ED00
  {
    EightShifts(0x2DFD_1072, 0x16FE_8839, 0xE6C7_C73C, 0x7363_E39E,
                0x39B1_F1CF, 0xF160_7BC7, 0x9508_BEC3, 0xA73C_DC41, 0xBE26_ED00);
  }

  lemma ThirdByteOfOnes()
    ensures Shift8(0xBE26_ED00) == 0x00BE_26ED
  {
    EightShifts(0xBE26_ED00, 0x5F13_7680, 0x2F89_BB40, 0x17C4_DDA0,
                0x0BE2_6ED0, 0x05F1_3768, 0x02F8_9BB4, 0x017C_4DDA, 0x00BE_26ED);
  }

  lemma FourthByteOfOnes()
    ensures Shift8(0x00BE_26ED) == 0xDEBB_20E3
  {
    EightShifts(0x00BE_26ED, 0xEDE7_9056, 0x76F3_C82B, 0xD6C1_6735,
                0x86D8_30BA, 0x436C_185D, 0xCC0E_8F0E, 0x6607_4787, 0xDEBB_20E3);
  }

  lemma Shift32AllOnes()
    ensures Shift32(ALL_ONES) ^ ALL_ONES == 0x2144_DF1C
  {
    FirstByteOfOnes();
    SecondByteOfOnes();
    ThirdByteOfOnes();
    FourthByteOfOnes();
  }

  /** A message followed by its own checksum, lowest byte first, always has the same
      checksum, whatever the message. */
  lemma Residue(buf: seq<bv8>)
    ensures Crc(buf + LittleEndian(Crc(buf))) == 0x2144_DF1C
  {
    var r := FeedBytes(ALL_ONES, buf);
    FoldAppend(Feed1, ALL_ONES, buf, LittleEndian(Crc(buf)));
    FeedComplement(r, Crc(buf));
    Shift32AllOnes();
  }

  // ------------------------------------------------------------------------------------
  // Known answers.

  lemma {:induction false} EmptyMessage()
    ensures Crc([]) == 0
  {
  }

  /** The message of the one octet 0x61. */
  lemma {:induction false} LetterA()
    ensures Crc([0x61]) == 0xE8B7_BE43
  {
    FeedOne(ALL_ONES, 0x61);
    assert Xor(ALL_ONES, 0x61) == 0xFFFF_FF9E;
    EightShifts(0xFFFF_FF9E, 0x7FFF_FFCF, 0xD247_7CC7, 0x849B_3D43, 0xAFF5_1D81,
                0xBA42_0DE0, 0x5D21_06F0, 0x2E90_8378, 0x1748_41BC);
    FoldLast(Feed1, ALL_ONES, 0x61);
  }
}
