/** crc32.c: the table-driven CRC-32, against the bit-at-a-time definition. */
module Checksums {
  import opened CrcBits
  import opened Octets

  // ------------------------------------------------------------------------------------
  // crc_table, sixteen entries to a row.

  const ROW_0: seq<bv32> := [
    0x00000000, 0x77073096, 0xEE0E612C, 0x990951BA, 0x076DC419, 0x706AF48F, 0xE963A535, 0x9E6495A3,
    0x0EDB8832, 0x79DCB8A4, 0xE0D5E91E, 0x97D2D988, 0x09B64C2B, 0x7EB17CBD, 0xE7B82D07, 0x90BF1D91
  ]

  const ROW_1: seq<bv32> := [
    0x1DB71064, 0x6AB020F2, 0xF3B97148, 0x84BE41DE, 0x1ADAD47D, 0x6DDDE4EB, 0xF4D4B551, 0x83D385C7,
    0x136C9856, 0x646BA8C0, 0xFD62F97A, 0x8A65C9EC, 0x14015C4F, 0x63066CD9, 0xFA0F3D63, 0x8D080DF5
  ]

  const ROW_2: seq<bv32> := [
    0x3B6E20C8, 0x4C69105E, 0xD56041E4, 0xA2677172, 0x3C03E4D1, 0x4B04D447, 0xD20D85FD, 0xA50AB56B,
    0x35B5A8FA, 0x42B2986C, 0xDBBBC9D6, 0xACBCF940, 0x32D86CE3, 0x45DF5C75, 0xDCD60DCF, 0xABD13D59
  ]

  const ROW_3: seq<bv32> := [
    0x26D930AC, 0x51DE003A, 0xC8D75180, 0xBFD06116, 0x21B4F4B5, 0x56B3C423, 0xCFBA9599, 0xB8BDA50F,
    0x2802B89E, 0x5F058808, 0xC60CD9B2, 0xB10BE924, 0x2F6F7C87, 0x58684C11, 0xC1611DAB, 0xB6662D3D
  ]

  const ROW_4: seq<bv32> := [
    0x76DC4190, 0x01DB7106, 0x98D220BC, 0xEFD5102A, 0x71B18589, 0x06B6B51F, 0x9FBFE4A5, 0xE8B8D433,
    0x7807C9A2, 0x0F00F934, 0x9609A88E, 0xE10E9818, 0x7F6A0DBB, 0x086D3D2D, 0x91646C97, 0xE6635C01
  ]

  const ROW_5: seq<bv32> := [
    0x6B6B51F4, 0x1C6C6162, 0x856530D8, 0xF262004E, 0x6C0695ED, 0x1B01A57B, 0x8208F4C1, 0xF50FC457,
    0x65B0D9C6, 0x12B7E950, 0x8BBEB8EA, 0xFCB9887C, 0x62DD1DDF, 0x15DA2D49, 0x8CD37CF3, 0xFBD44C65
  ]

  const ROW_6: seq<bv32> := [
    0x4DB26158, 0x3AB551CE, 0xA3BC0074, 0xD4BB30E2, 0x4ADFA541, 0x3DD895D7, 0xA4D1C46D, 0xD3D6F4FB,
    0x4369E96A, 0x346ED9FC, 0xAD678846, 0xDA60B8D0, 0x44042D73, 0x33031DE5, 0xAA0A4C5F, 0xDD0D7CC9
  ]

  const ROW_7: seq<bv32> := [
    0x5005713C, 0x270241AA, 0xBE0B1010, 0xC90C2086, 0x5768B525, 0x206F85B3, 0xB966D409, 0xCE61E49F,
    0x5EDEF90E, 0x29D9C998, 0xB0D09822, 0xC7D7A8B4, 0x59B33D17, 0x2EB40D81, 0xB7BD5C3B, 0xC0BA6CAD
  ]

  const ROW_8: seq<bv32> := [
    0xEDB88320, 0x9ABFB3B6, 0x03B6E20C, 0x74B1D29A, 0xEAD54739, 0x9DD277AF, 0x04DB2615, 0x73DC1683,
    0xE3630B12, 0x94643B84, 0x0D6D6A3E, 0x7A6A5AA8, 0xE40ECF0B, 0x9309FF9D, 0x0A00AE27, 0x7D079EB1
  ]

  const ROW_9: seq<bv32> := [
    0xF00F9344, 0x8708A3D2, 0x1E01F268, 0x6906C2FE, 0xF762575D, 0x806567CB, 0x196C3671, 0x6E6B06E7,
    0xFED41B76, 0x89D32BE0, 0x10DA7A5A, 0x67DD4ACC, 0xF9B9DF6F, 0x8EBEEFF9, 0x17B7BE43, 0x60B08ED5
  ]

  const ROW_A: seq<bv32> := [
    0xD6D6A3E8, 0xA1D1937E, 0x38D8C2C4, 0x4FDFF252, 0xD1BB67F1, 0xA6BC5767, 0x3FB506DD, 0x48B2364B,
    0xD80D2BDA, 0xAF0A1B4C, 0x36034AF6, 0x41047A60, 0xDF60EFC3, 0xA867DF55, 0x316E8EEF, 0x4669BE79
  ]

  const ROW_B: seq<bv32> := [
    0xCB61B38C, 0xBC66831A, 0x256FD2A0, 0x5268E236, 0xCC0C7795, 0xBB0B4703, 0x220216B9, 0x5505262F,
    0xC5BA3BBE, 0xB2BD0B28, 0x2BB45A92, 0x5CB36A04, 0xC2D7FFA7, 0xB5D0CF31, 0x2CD99E8B, 0x5BDEAE1D
  ]

  const ROW_C: seq<bv32> := [
    0x9B64C2B0, 0xEC63F226, 0x756AA39C, 0x026D930A, 0x9C0906A9, 0xEB0E363F, 0x72076785, 0x05005713,
    0x95BF4A82, 0xE2B87A14, 0x7BB12BAE, 0x0CB61B38, 0x92D28E9B, 0xE5D5BE0D, 0x7CDCEFB7, 0x0BDBDF21
  ]

  const ROW_D: seq<bv32> := [
    0x86D3D2D4, 0xF1D4E242, 0x68DDB3F8, 0x1FDA836E, 0x81BE16CD, 0xF6B9265B, 0x6FB077E1, 0x18B74777,
    0x88085AE6, 0xFF0F6A70, 0x66063BCA, 0x11010B5C, 0x8F659EFF, 0xF862AE69, 0x616BFFD3, 0x166CCF45
  ]

  const ROW_E: seq<bv32> := [
    0xA00AE278, 0xD70DD2EE, 0x4E048354, 0x3903B3C2, 0xA7672661, 0xD06016F7, 0x4969474D, 0x3E6E77DB,
    0xAED16A4A, 0xD9D65ADC, 0x40DF0B66, 0x37D83BF0, 0xA9BCAE53, 0xDEBB9EC5, 0x47B2CF7F, 0x30B5FFE9
  ]

  const ROW_F: seq<bv32> := [
    0xBDBDF21C, 0xCABAC28A, 0x53B39330, 0x24B4A3A6, 0xBAD03605, 0xCDD70693, 0x54DE5729, 0x23D967BF,
    0xB3667A2E, 0xC4614AB8, 0x5D681B02, 0x2A6F2B94, 0xB40BBE37, 0xC30C8EA1, 0x5A05DF1B, 0x2D02EF8D
  ]

  function Row(h: nat): seq<bv32> {
    if h == 0 then ROW_0 else
    if h == 1 then ROW_1 else
    if h == 2 then ROW_2 else
    if h == 3 then ROW_3 else
    if h == 4 then ROW_4 else
    if h == 5 then ROW_5 else
    if h == 6 then ROW_6 else
    if h == 7 then ROW_7 else
    if h == 8 then ROW_8 else
    if h == 9 then ROW_9 else
    if h == 10 then ROW_A else
    if h == 11 then ROW_B else
    if h == 12 then ROW_C else
    if h == 13 then ROW_D else
    if h == 14 then ROW_E else
    ROW_F
  }

  lemma RowSize(h: nat)
    ensures |Row(h)| == 16
  {
    if h < 8 { if h < 4 {} else {} } else if h < 12 {} else {}
  }

  /** crc_table[i]. */
  function CrcTable(i: bv8): bv32 {
    RowSize((i >> 4) as nat);
    Row((i >> 4) as nat)[(i & 0xF) as nat]
  }

  /** The row's first entry is what eight shifts of `base` mix in, and every other entry
      differs from it as the first row's entries differ from 0. */
  ghost predicate RowOk(row: seq<bv32>, base: bv32) {
    && |row| == 16 && row[0] == Shift8(base)
    && row[1] == Xor(row[0], ROW_0[1]) && row[2] == Xor(row[0], ROW_0[2]) && row[3] == Xor(row[0], ROW_0[3])
    && row[4] == Xor(row[0], ROW_0[4]) && row[5] == Xor(row[0], ROW_0[5]) && row[6] == Xor(row[0], ROW_0[6])
    && row[7] == Xor(row[0], ROW_0[7]) && row[8] == Xor(row[0], ROW_0[8]) && row[9] == Xor(row[0], ROW_0[9])
    && row[10] == Xor(row[0], ROW_0[10]) && row[11] == Xor(row[0], ROW_0[11]) && row[12] == Xor(row[0], ROW_0[12])
    && row[13] == Xor(row[0], ROW_0[13]) && row[14] == Xor(row[0], ROW_0[14]) && row[15] == Xor(row[0], ROW_0[15])
  }

  lemma ShiftsOfZero()
    ensures Shift8(0) == 0
  {
    assert Shift(0) == 0;
  }

  lemma ZeroXor(x: bv32)
    ensures Xor(0, x) == x
  {
  }

  lemma Row0()
    ensures RowOk(ROW_0, 0x00)
  {
    ShiftsOfZero();
    assert |ROW_0| == 16 && ROW_0[0] == 0;
    ZeroXor(ROW_0[1]); ZeroXor(ROW_0[2]); ZeroXor(ROW_0[3]); ZeroXor(ROW_0[4]); ZeroXor(ROW_0[5]);
    ZeroXor(ROW_0[6]); ZeroXor(ROW_0[7]); ZeroXor(ROW_0[8]); ZeroXor(ROW_0[9]); ZeroXor(ROW_0[10]);
    ZeroXor(ROW_0[11]); ZeroXor(ROW_0[12]); ZeroXor(ROW_0[13]); ZeroXor(ROW_0[14]); ZeroXor(ROW_0[15]);
  }

  lemma Row1() ensures RowOk(ROW_1, 0x10) { }

  lemma Row2() ensures RowOk(ROW_2, 0x20) { }

  lemma Row3() ensures RowOk(ROW_3, 0x30) { }

  lemma Row4() ensures RowOk(ROW_4, 0x40) { }

  lemma Row5() ensures RowOk(ROW_5, 0x50) { }

  lemma Row6() ensures RowOk(ROW_6, 0x60) { }

  lemma Row7() ensures RowOk(ROW_7, 0x70) { }

  lemma Row8() ensures RowOk(ROW_8, 0x80) { }

  lemma Row9() ensures RowOk(ROW_9, 0x90) { }

  lemma RowA() ensures RowOk(ROW_A, 0xA0) { }

  lemma RowB() ensures RowOk(ROW_B, 0xB0) { }

  lemma RowC() ensures RowOk(ROW_C, 0xC0) { }

  lemma RowD() ensures RowOk(ROW_D, 0xD0) { }

  lemma RowE() ensures RowOk(ROW_E, 0xE0) { }

  lemma RowF() ensures RowOk(ROW_F, 0xF0) { }

  lemma FirstRowLow()
    ensures ROW_0[1] == Shift8(1) && ROW_0[2] == Shift8(2) && ROW_0[3] == Shift8(3)
  {
  }

  lemma FirstRowMiddle()
    ensures ROW_0[4] == Shift8(4) && ROW_0[5] == Shift8(5) && ROW_0[6] == Shift8(6) && ROW_0[7] == Shift8(7)
  {
  }

  lemma FirstRowHigh()
    ensures ROW_0[8] == Shift8(8) && ROW_0[9] == Shift8(9) && ROW_0[10] == Shift8(10) && ROW_0[11] == Shift8(11)
    ensures ROW_0[12] == Shift8(12) && ROW_0[13] == Shift8(13) && ROW_0[14] == Shift8(14) && ROW_0[15] == Shift8(15)
  {
  }

  lemma FirstRow(j: bv8)
    requires j < 16
    ensures |ROW_0| == 16 && ROW_0[j as nat] == Shift8(j as bv32)
  {
    ShiftsOfZero();
    FirstRowLow();
    FirstRowMiddle();
    FirstRowHigh();
    if j == 0 {} else if j == 1 {} else if j == 2 {} else if j == 3 {} else if j == 4 {} else if j == 5 {} else if j == 6 {} else if j == 7 {} else if j == 8 {} else if j == 9 {} else if j == 10 {} else if j == 11 {} else if j == 12 {} else if j == 13 {} else if j == 14 {} else {}
  }

  lemma RowEntryLow(row: seq<bv32>, base: bv32, j: bv8)
    requires RowOk(row, base) && 0 < j < 8
    ensures row[j as nat] == Xor(row[0], ROW_0[j as nat])
  {
    if j == 1 {} else if j == 2 {} else if j == 3 {} else if j == 4 {} else if j == 5 {} else if j == 6 {} else {}
  }

  lemma RowEntryHigh(row: seq<bv32>, base: bv32, j: bv8)
    requires RowOk(row, base) && 8 <= j < 16
    ensures row[j as nat] == Xor(row[0], ROW_0[j as nat])
  {
    if j == 8 {} else if j == 9 {} else if j == 10 {} else if j == 11 {}
    else if j == 12 {} else if j == 13 {} else if j == 14 {} else {}
  }

  lemma RowEntry(row: seq<bv32>, base: bv32, j: bv8)
    requires RowOk(row, base) && j < 16
    ensures row[j as nat] == Shift8(Xor(base, j as bv32))
  {
    FirstRow(j);
    Shift8Linear(base, j as bv32);
    if j == 0 {
      XorZero(base);
    } else if j < 8 {
      RowEntryLow(row, base, j);
    } else {
      RowEntryHigh(row, base, j);
    }
  }

  lemma XorZero(x: bv32)
    ensures Xor(x, 0) == x
  {
  }

  lemma Nibbles(b: bv8)
    ensures Xor((b & 0xF0) as bv32, (b & 0xF) as bv32) == b as bv32
  {
  }

  lemma RowAt(b: bv8)
    ensures RowOk(Row((b >> 4) as nat), (b & 0xF0) as bv32)
  {
    var h := b >> 4;
    if h == 0 { Row0(); }
    else if h == 1 { Row1(); }
    else if h == 2 { Row2(); }
    else if h == 3 { Row3(); }
    else if h == 4 { Row4(); }
    else if h == 5 { Row5(); }
    else if h == 6 { Row6(); }
    else if h == 7 { Row7(); }
    else if h == 8 { Row8(); }
    else if h == 9 { Row9(); }
    else if h == 10 { RowA(); }
    else if h == 11 { RowB(); }
    else if h == 12 { RowC(); }
    else if h == 13 { RowD(); }
    else if h == 14 { RowE(); }
    else { RowF(); }
  }

  /** The table holds, for every byte, what eight shifts make of it. */
  lemma TableEntry(b: bv8)
    ensures CrcTable(b) == Shift8(b as bv32)
  {
    Nibbles(b);
    RowAt(b);
    RowEntry(Row((b >> 4) as nat), (b & 0xF0) as bv32, b & 0xF);
  }

  // ------------------------------------------------------------------------------------
  // The reference: one message bit at a time, least significant bit of each byte first.

  const ALL_ONES: bv32 := 0xFFFF_FFFF

  function Fold<T, B>(f: (T, B) -> T, r: T, buf: seq<B>): T {
    if buf == [] then r else f(Fold(f, r, buf[..|buf| - 1]), buf[|buf| - 1])
  }

  function Feed1(r: bv32, b: bv8): bv32 { FeedByte(r, b as bv32) }

  /** The register after feeding every bit of `buf`. */
  function FeedBytes(r: bv32, buf: seq<bv8>): bv32 { Fold(Feed1, r, buf) }

  /** The CRC-32 of a message. */
  function Crc(buf: seq<bv8>): bv32 {
    FeedBytes(ALL_ONES, buf) ^ ALL_ONES
  }

  // ------------------------------------------------------------------------------------
  // The table-driven loop.

  lemma ByteWidth(b: bv8)
    ensures b as bv32 <= 0xFF && (b as bv32) >> 8 == 0
  {
  }

  lemma HighUnmixed(r: bv32, m: bv32)
    requires m <= 0xFF
    ensures Xor(r, m) >> 8 == r >> 8
  {
  }

  lemma ShiftsFrom(x: bv32, high: bv32)
    requires high == x >> 8
    ensures Shift8(x) == Xor(high, Shift8(x & 0xFF))
  {
    Shift8Splits(x);
  }

  lemma ShiftsByTable(r: bv32, m: bv32)
    requires m <= 0xFF
    ensures Shift8(Xor(r, m)) == Xor(r >> 8, Shift8(Xor(r, m) & 0xFF))
  {
    HighUnmixed(r, m);
    ShiftsFrom(Xor(r, m), r >> 8);
  }

  /** A table step does what feeding eight bits does. */
  lemma TableStep(r: bv32, m: bv32)
    requires m <= 0xFF
    ensures FeedByte(r, m) == Xor(r >> 8, Shift8(Xor(r, m) & 0xFF))
  {
    FeedByteIsShift8(r, m);
    ShiftsByTable(r, m);
  }

  lemma ThereAndBack(x: bv32)
    ensures ((x & 0xFF) as bv8) as bv32 == x & 0xFF
  {
  }

  method LookUp(r: bv32, b: bv8) returns (entry: bv32)
    ensures entry == Shift8(Xor(r, b as bv32) & 0xFF)
  {
    var index := ((r ^ b as bv32) & 0xff) as bv8;
    entry := CrcTable(index);
    TableEntry(index);
    ThereAndBack(Xor(r, b as bv32));
  }

  method Step(r: bv32, b: bv8) returns (next: bv32)
    ensures next == Feed1(r, b)
  {
    var entry := LookUp(r, b);
    next := Xor(r >> 8, entry);
    ByteWidth(b);
    TableStep(r, b as bv32);
  }

  function Bits(buf: seq<Octet>): (r: seq<bv8>)
    ensures |r| == |buf|
  {
    seq(|buf|, i requires 0 <= i < |buf| => Bv(buf[i]))
  }

  function Bv(b: Octet): bv8 { b as bv8 }

  lemma OneUp(x: bv8)
    requires x != 255
    ensures (x + 1) as nat == x as nat + 1
  {
  }

  lemma Topmost(x: bv8)
    requires x == 255
    ensures x as nat == 255
  {
  }

  lemma ThereAndBackByNumber(x: bv8)
    ensures (x as nat) as bv8 == x
  {
  }

  lemma {:induction false} SomeByte(b: Octet) returns (x: bv8)
    ensures x as nat == b
  {
    x := 0;
    if b > 0 {
      x := SomeByte(b - 1);
      if x == 255 { Topmost(x); } else { OneUp(x); }
      x := x + 1;
    }
  }

  /** The bits fed for an octet are those of its number. */
  lemma {:induction false} BvIsNumber(b: Octet)
    ensures Bv(b) as nat == b
  {
    var x := SomeByte(b);
    ThereAndBackByNumber(x);
  }

  /** What is fed is the message, octet by octet. */
  lemma {:induction false} BitsAreNumbers(a: seq<Octet>, k: nat)
    requires k < |a|
    ensures |Bits(a)| == |a| && Bits(a)[k] as nat == a[k]
  {
    BvIsNumber(a[k]);
  }

  /** r is the register after the first i octets of `message`. */
  ghost predicate HasRead(r: bv32, message: seq<Octet>, i: nat)
    requires i <= |message|
  {
    r == FeedBytes(ALL_ONES, Bits(message[..i]))
  }

  lemma {:induction false} FoldSnoc<T, B>(f: (T, B) -> T, r: T, buf: seq<B>, more: seq<B>, i: nat)
    requires i < |more| && more[..i] == buf
    ensures Fold(f, r, more[..i + 1]) == f(Fold(f, r, buf), more[i])
  {
    assert more[..i + 1][..i] == buf;
  }

  lemma BitsOfPrefix(message: seq<Octet>, i: nat)
    requires i <= |message|
    ensures Bits(message[..i]) == Bits(message)[..i]
  {
  }

  lemma OneMore(r: bv32, next: bv32, message: seq<Octet>, i: nat)
    requires i < |message| && HasRead(r, message, i) && next == Feed1(r, Bv(message[i]))
    ensures HasRead(next, message, i + 1)
  {
    BitsOfPrefix(message, i);
    BitsOfPrefix(message, i + 1);
    FoldSnoc(Feed1, ALL_ONES, Bits(message[..i]), Bits(message), i);
  }

  /** One turn of the loop. */
  method Turn(r: bv32, b: Octet, ghost message: seq<Octet>, ghost i: nat) returns (next: bv32)
    requires i < |message| && b == message[i] && HasRead(r, message, i)
    ensures HasRead(next, message, i + 1)
  {
    next := Step(r, Bv(b));
    OneMore(r, next, message, i);
  }

  lemma AllRead(r: bv32, message: seq<Octet>)
    requires HasRead(r, message, |message|)
    ensures Xor(r, 0xffff_ffff) == Crc(Bits(message))
  {
    assert message[..|message|] == message;
  }

  /** crc32.c's Crc32, over the `bufLen` bytes from `at` on. */
  method Crc32(buf: array<Octet>, at: nat, bufLen: nat) returns (result: bv32)
    requires at + bufLen <= buf.Length
    ensures result == Crc(Bits(buf[at..at + bufLen]))
  {
    result := 0xffff_ffff;
    ghost var message := buf[at..at + bufLen];
    var i := 0;
    while i < bufLen
      invariant i <= bufLen
      invariant HasRead(result, message, i)
    {
      result := Turn(result, buf[at + i], message, i);
      i := i + 1;
    }
    AllRead(result, message);
    result := Xor(result, 0xffff_ffff);
  }
}
