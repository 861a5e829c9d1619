/** What the masking of the checksum costs: short bursts of damage that the whole CRC-32 would
    catch get past its low 28 bits. */
module MaskedBursts {
  import opened Checksums
  import opened CrcBits
  import opened CrcBursts
  import opened Octets
  import opened Wire

  lemma FirstOfFlips()
    ensures Shift8(0x46D4_D0A2) == 0x389E_1614
  {
    EightShifts(0x46D4_D0A2, 0x236A_6851, 0xFC0D_B708, 0x7E06_DB84,
                0x3F03_6DC2, 0x1F81_B6E1, 0xE278_5850, 0x713C_2C28, 0x389E_1614);
  }

  lemma SecondOfFlips()
    ensures Shift8(0x389E_1614) == 0x1AE2_4A6B
  {
    EightShifts(0x389E_1614, 0x1C4F_0B0A, 0x0E27_8585, 0xEAAB_41E2,
                0x7555_A0F1, 0xD712_5358, 0x6B89_29AC, 0x35C4_94D6, 0x1AE2_4A6B);
  }

  lemma ThirdOfFlips()
    ensures Shift8(0x1AE2_4A6B) == 0xDA7A_5A9A
  {
    EightShifts(0x1AE2_4A6B, 0xE0C9_A615, 0x9DDC_502A, 0x4EEE_2815,
                0xCACF_972A, 0x6567_CB95, 0xDF0B_66EA, 0x6F85_B375, 0xDA7A_5A9A);
  }

  lemma FourthOfFlips()
    ensures Shift8(0xDA7A_5A9A) == 0x1000_0000
  {
    EightShifts(0xDA7A_5A9A, 0x6D3D_2D4D, 0xDB26_1586, 0x6D93_0AC3,
                0xDB71_0641, 0x8000_0000, 0x4000_0000, 0x2000_0000, 0x1000_0000);
  }

  /** Four bytes whose 32 shifts end in one of the bits that are masked out. */
  lemma ShiftsOfFlips()
    ensures Shift32(0x46D4_D0A2) == 0x1000_0000
  {
    FirstOfFlips();
    SecondOfFlips();
    ThirdOfFlips();
    FourthOfFlips();
  }

  lemma UpXor(x: bv32, y: bv32)
    ensures Up(Xor(x, y)) == Xor(Up(x), Up(y))
  {
  }

  lemma XorAssociative(x: bv32, y: bv32, z: bv32)
    ensures Xor(x, Xor(y, z)) == Xor(Xor(x, y), z)
  {
    XorAssociates(x, y, z);
  }

  lemma XorSwap(x: bv32, y: bv32, z: bv32)
    ensures Xor(Xor(x, y), z) == Xor(Xor(x, z), y)
  {
    XorAssociative(x, y, z);
    XorAssociative(x, z, y);
    Commute(y, z);
  }

  lemma XorsTogether(x: bv32, y: bv32, a: bv32, e: bv32)
    ensures Xor(Xor(x, y), Xor(a, e)) == Xor(Xor(x, a), Xor(y, e))
  {
    XorAssociative(Xor(x, y), a, e);
    XorSwap(x, y, a);
    XorAssociative(Xor(x, a), y, e);
  }

  lemma WordsTogether(a: bv32, b: bv32, c: bv32, d: bv32, e: bv32, f: bv32, g: bv32, h: bv32)
    ensures Xor(Xor(Xor(Xor(a, e), Xor(b, f)), Xor(c, g)), Xor(d, h))
         == Xor(Xor(Xor(Xor(a, b), c), d), Xor(Xor(Xor(e, f), g), h))
  {
    XorsTogether(a, e, b, f);
    XorsTogether(Xor(a, b), Xor(e, f), c, g);
    XorsTogether(Xor(Xor(a, b), c), Xor(Xor(e, f), g), d, h);
  }

  lemma FlipsAsWord()
    ensures Xor(Xor(Xor(0xA2, Up(0xD0)), Up(Up(0xD4))), Up(Up(Up(0x46)))) == 0x46D4_D0A2
  {
  }

  lemma WordFlipped(r: bv32, a: bv32, b: bv32, c: bv32, d: bv32)
    ensures CrcBursts.Pack(r, Xor(a, 0xA2), Xor(b, 0xD0), Xor(c, 0xD4), Xor(d, 0x46))
         == Xor(CrcBursts.Pack(r, a, b, c, d), 0x46D4_D0A2)
  {
    UpXor(b, 0xD0);
    UpXor(c, 0xD4);
    UpXor(Up(c), Up(0xD4));
    UpXor(d, 0x46);
    UpXor(Up(d), Up(0x46));
    UpXor(Up(Up(d)), Up(Up(0x46)));
    WordsTogether(a, Up(b), Up(Up(c)), Up(Up(Up(d))), 0xA2, Up(0xD0), Up(Up(0xD4)), Up(Up(Up(0x46))));
    FlipsAsWord();
    PackIsWord(r, a, b, c, d);
    PackIsWord(r, Xor(a, 0xA2), Xor(b, 0xD0), Xor(c, 0xD4), Xor(d, 0x46));
    XorAssociative(r, CrcBursts.Word(a, b, c, d), 0x46D4_D0A2);
  }

  lemma Shift32Linear(x: bv32, y: bv32)
    ensures Shift32(Xor(x, y)) == Xor(Shift32(x), Shift32(y))
  {
    Shift8Linear(x, y);
    Shift8Linear(Shift8(x), Shift8(y));
    Shift8Linear(Shift8(Shift8(x)), Shift8(Shift8(y)));
    Shift8Linear(Shift8(Shift8(Shift8(x))), Shift8(Shift8(Shift8(y))));
  }

  /** Four bytes fed from any register, and four that differ from them in just those bits. */
  lemma FlippedWord(r: bv32, a: bv8, b: bv8, c: bv8, d: bv8, e: bv8, f: bv8, g: bv8, h: bv8)
    requires e as bv32 == Xor(a as bv32, 0xA2) && f as bv32 == Xor(b as bv32, 0xD0)
    requires g as bv32 == Xor(c as bv32, 0xD4) && h as bv32 == Xor(d as bv32, 0x46)
    ensures Feed1(Feed1(Feed1(Feed1(r, e), f), g), h) == Xor(Feed1(Feed1(Feed1(Feed1(r, a), b), c), d), 0x1000_0000)
  {
    FeedWord(r, a, b, c, d);
    FeedWord(r, e, f, g, h);
    WordFlipped(r, a as bv32, b as bv32, c as bv32, d as bv32);
    Shift32Linear(CrcBursts.Pack(r, a as bv32, b as bv32, c as bv32, d as bv32), 0x46D4_D0A2);
    ShiftsOfFlips();
  }

  /** The checksum made of a register. */
  function Masked(r: bv32): nat { Low28(r ^ ALL_ONES) }

  lemma ChecksumOf(body: seq<Octet>)
    ensures Checksum(body) == Masked(FeedBytes(ALL_ONES, Bits(body)))
  {
  }

  lemma MaskedOut(r: bv32)
    ensures Masked(Xor(r, 0x1000_0000)) == Masked(r)
  {
  }

  function Flip(b: Octet, w: bv8): Octet { (Bv(b) ^ w) as int }

  lemma FlipIsXor(b: Octet, w: bv8)
    ensures Bv(Flip(b, w)) == Bv(b) ^ w
  {
    ThereAndBackByNumber(Bv(b) ^ w);
  }

  lemma Wider(b: bv8, w: bv8)
    ensures (b ^ w) as bv32 == Xor(b as bv32, w as bv32)
  {
  }

  lemma FlipsBits(b: Octet, w: bv8, wide: bv32)
    requires wide == w as bv32
    ensures Bv(Flip(b, w)) as bv32 == Xor(Bv(b) as bv32, wide)
  {
    FlipIsXor(b, w);
    Wider(Bv(b), w);
  }

  /** Some bits of the last four octets flipped. */
  function Damaged(body: seq<Octet>): (r: seq<Octet>)
    requires |body| >= 4
    ensures |r| == |body|
  {
    var n := |body| - 4;
    body[..n] + [Flip(body[n], 0xA2), Flip(body[n + 1], 0xD0), Flip(body[n + 2], 0xD4), Flip(body[n + 3], 0x46)]
  }

  lemma LastFourOf<T>(s: seq<T>, n: nat)
    requires |s| == n + 4
    ensures s == s[..n] + [s[n], s[n + 1], s[n + 2], s[n + 3]]
  {
  }

  lemma BitsOfConcat(a: seq<Octet>, b: seq<Octet>)
    ensures Bits(a + b) == Bits(a) + Bits(b)
  {
  }

  lemma BitsOfFour(a: Octet, b: Octet, c: Octet, d: Octet)
    ensures Bits([a, b, c, d]) == [Bv(a), Bv(b), Bv(c), Bv(d)]
  {
  }

  lemma {:induction false} FourMore<T, B>(f: (T, B) -> T, r: T, front: seq<B>, a: B, b: B, c: B, d: B)
    ensures Fold(f, r, front + [a, b, c, d]) == f(f(f(f(Fold(f, r, front), a), b), c), d)
  {
    FoldAppend(f, r, front, [a, b, c, d]);
    FoldFour(f, Fold(f, r, front), [a, b, c, d]);
  }

  lemma RegistersDiffer(front: seq<bv8>, a: bv8, b: bv8, c: bv8, d: bv8, e: bv8, f: bv8, g: bv8, h: bv8)
    requires e as bv32 == Xor(a as bv32, 0xA2) && f as bv32 == Xor(b as bv32, 0xD0)
    requires g as bv32 == Xor(c as bv32, 0xD4) && h as bv32 == Xor(d as bv32, 0x46)
    ensures FeedBytes(ALL_ONES, front + [e, f, g, h]) == Xor(FeedBytes(ALL_ONES, front + [a, b, c, d]), 0x1000_0000)
  {
    FourMore(Feed1, ALL_ONES, front, a, b, c, d);
    FourMore(Feed1, ALL_ONES, front, e, f, g, h);
    FlippedWord(FeedBytes(ALL_ONES, front), a, b, c, d, e, f, g, h);
  }

  lemma BitsInTwo(body: seq<Octet>, n: nat, a: Octet, b: Octet, c: Octet, d: Octet)
    requires n <= |body|
    ensures Bits(body[..n] + [a, b, c, d]) == Bits(body[..n]) + [Bv(a), Bv(b), Bv(c), Bv(d)]
  {
    BitsOfConcat(body[..n], [a, b, c, d]);
    BitsOfFour(a, b, c, d);
  }

  lemma DamagedParts(body: seq<Octet>)
    requires |body| >= 4
    ensures var n, r := |body| - 4, Damaged(body);
      && r[..n] == body[..n] && r[n] == Flip(body[n], 0xA2) && r[n + 1] == Flip(body[n + 1], 0xD0)
      && r[n + 2] == Flip(body[n + 2], 0xD4) && r[n + 3] == Flip(body[n + 3], 0x46)
      && forall k :: 0 <= k < n ==> r[k] == body[k]
  {
  }

  lemma FourFlips(a: Octet, b: Octet, c: Octet, d: Octet)
    ensures Bv(Flip(a, 0xA2)) as bv32 == Xor(Bv(a) as bv32, 0xA2) && Bv(Flip(b, 0xD0)) as bv32 == Xor(Bv(b) as bv32, 0xD0)
    ensures Bv(Flip(c, 0xD4)) as bv32 == Xor(Bv(c) as bv32, 0xD4) && Bv(Flip(d, 0x46)) as bv32 == Xor(Bv(d) as bv32, 0x46)
  {
    FlipsBits(a, 0xA2, 0xA2);
    FlipsBits(b, 0xD0, 0xD0);
    FlipsBits(c, 0xD4, 0xD4);
    FlipsBits(d, 0x46, 0x46);
  }

  lemma DamagedRegister(body: seq<Octet>, n: nat, a: Octet, b: Octet, c: Octet, d: Octet)
    requires n <= |body|
    ensures FeedBytes(ALL_ONES, Bits(body[..n] + [Flip(a, 0xA2), Flip(b, 0xD0), Flip(c, 0xD4), Flip(d, 0x46)]))
         == Xor(FeedBytes(ALL_ONES, Bits(body[..n] + [a, b, c, d])), 0x1000_0000)
  {
    BitsInTwo(body, n, a, b, c, d);
    BitsInTwo(body, n, Flip(a, 0xA2), Flip(b, 0xD0), Flip(c, 0xD4), Flip(d, 0x46));
    FourFlips(a, b, c, d);
    RegistersDiffer(Bits(body[..n]), Bv(a), Bv(b), Bv(c), Bv(d),
                    Bv(Flip(a, 0xA2)), Bv(Flip(b, 0xD0)), Bv(Flip(c, 0xD4)), Bv(Flip(d, 0x46)));
  }

  lemma DamagedChecksum(body: seq<Octet>, n: nat)
    requires |body| == n + 4
    ensures Checksum(Damaged(body)) == Checksum(body)
  {
    LastFourOf(body, n);
    DamagedRegister(body, n, body[n], body[n + 1], body[n + 2], body[n + 3]);
    ChecksumOf(body);
    ChecksumOf(Damaged(body));
    MaskedOut(FeedBytes(ALL_ONES, Bits(body)));
  }

  lemma Changes(b: Octet)
    ensures Flip(b, 0xA2) != b
  {
    FlipIsXor(b, 0xA2);
    Differs(Bv(b));
  }

  lemma Differs(b: bv8)
    ensures b ^ 0xA2 != b
  {
  }

  lemma WholeCrcTells(body: seq<Octet>, other: seq<Octet>, n: nat)
    requires |body| == |other| == n + 4 && other[n] != body[n]
    requires forall k :: 0 <= k < n ==> other[k] == body[k]
    ensures other != body && Crc(Bits(other)) != Crc(Bits(body))
  {
    OctetBurstDetected(other, body, n);
  }

  /** Every body has a damaged one, different from it only inside its last four octets, with
      the same 28 bits of checksum; the other 4 bits of the CRC tell the two apart. */
  lemma MaskMissesBurst(body: seq<Octet>)
    requires |body| >= 4
    ensures Damaged(body) != body && (forall k :: 0 <= k < |body| - 4 ==> Damaged(body)[k] == body[k])
    ensures Checksum(Damaged(body)) == Checksum(body)
    ensures Crc(Bits(Damaged(body))) != Crc(Bits(body))
  {
    var n := |body| - 4;
    DamagedParts(body);
    Changes(body[n]);
    DamagedChecksum(body, n);
    WholeCrcTells(body, Damaged(body), n);
  }

  lemma Spliced<T>(data: seq<T>, length: nat, body: seq<T>)
    requires 4 <= length <= |data| && |body| == length - 4
    ensures var r := data[..4] + body + data[length..];
      && |r| == |data| && r[0..4] == data[0..4] && r[4..length] == body
      && forall k :: 4 <= k < length ==> r[k] == body[k - 4]
  {
  }

  lemma StillAccepted(data: seq<Octet>, other: seq<Octet>, length: nat, maxDelay: nat)
    requires length <= |data| == |other| && PacketSize(maxDelay) <= |data| && HEADER <= length
    requires other[0..4] == data[0..4] && Checksum(other[4..length]) == Checksum(data[4..length])
    requires other[12] == data[12] && other[13] == data[13]
    ensures Decode(other, length, maxDelay).Some? == Decode(data, length, maxDelay).Some?
  {
  }

  /** Different datagrams of the length their commands ask for are different packets. */
  lemma DecodeInjective(data: seq<Octet>, damaged: seq<Octet>, length: nat, maxDelay: nat)
    requires length <= |data| == |damaged| && PacketSize(maxDelay) <= |data| && maxDelay < 256
    requires Decode(data, length, maxDelay).Some? && Decode(damaged, length, maxDelay).Some?
    requires Decode(damaged, length, maxDelay) == Decode(data, length, maxDelay)
    requires length == HEADER + 2 * |Decode(data, length, maxDelay).value.cmds|
    ensures damaged[..length] == data[..length]
  {
    EncodeDecode(data, length, maxDelay);
    EncodeDecode(damaged, length, maxDelay);
  }

  lemma SameBody<T>(data: seq<T>, damaged: seq<T>, length: nat)
    requires 4 <= length <= |data| == |damaged| && damaged[..length] == data[..length]
    ensures damaged[4..length] == data[4..length]
  {
    assert damaged[..length][4..] == damaged[4..length] && data[..length][4..] == data[4..length];
  }

  /** So any datagram of two commands or more that is accepted is still accepted with that
      damage to its last four octets, and taken for another packet if its length is the one its
      commands ask for. */
  lemma DamageAccepted(data: seq<Octet>, length: nat, maxDelay: nat, damaged: seq<Octet>)
    requires length <= |data| && PacketSize(maxDelay) <= |data|
    requires 18 <= length && Decode(data, length, maxDelay).Some?
    requires damaged == data[..4] + Damaged(data[4..length]) + data[length..]
    ensures Decode(damaged, length, maxDelay).Some?
    ensures maxDelay < 256 && length == 14 + 2 * |Decode(data, length, maxDelay).value.cmds| ==>
      Decode(damaged, length, maxDelay) != Decode(data, length, maxDelay)
  {
    MaskMissesBurst(data[4..length]);
    Spliced(data, length, Damaged(data[4..length]));
    FrontOfBody(data, length, damaged);
    StillAccepted(data, damaged, length, maxDelay);
    if maxDelay < 256 && length == 14 + 2 * |Decode(data, length, maxDelay).value.cmds|
       && Decode(damaged, length, maxDelay) == Decode(data, length, maxDelay) {
      DecodeInjective(data, damaged, length, maxDelay);
      SameBody(data, damaged, length);
    }
  }

  lemma FrontOfBody(data: seq<Octet>, length: nat, damaged: seq<Octet>)
    requires 18 <= length <= |data| == |damaged|
    requires forall k :: 0 <= k < length - 8 ==> damaged[4..length][k] == data[4..length][k]
    ensures damaged[12] == data[12] && damaged[13] == data[13]
  {
    assert damaged[4..length][8] == damaged[12] && damaged[4..length][9] == damaged[13];
  }
}
