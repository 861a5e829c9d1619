/** The packed, little-endian datagrams of protocol.c and the filters a received one passes. */
module Wire {
  import opened Windows
  import opened Checksums
  import opened Octets
  import opened Seqs
  import opened Options

  const HEADER: nat := 14

  /** struct packet with all its command slots. */
  function PacketSize(maxDelay: nat): nat { HEADER + 2 * maxDelay }

  /** The `width` bytes of n, lowest first. */
  function Digits(n: nat, width: nat): (r: seq<Octet>)
    ensures |r| == width
  {
    if width == 0 then [] else [n % 256] + Digits(n / 256, width - 1)
  }

  function Number(bytes: seq<Octet>): nat {
    if bytes == [] then 0 else bytes[0] + 256 * Number(bytes[1..])
  }

  function U8(n: nat): (r: seq<Octet>)
    ensures |r| == 1
  {
    Digits(n, 1)
  }

  function U32(n: nat): (r: seq<Octet>)
    ensures |r| == 4
  {
    Digits(n, 4)
  }

  function LowByte(n: Cmd): Octet { n % 256 }

  function HighByte(n: Cmd): Octet { n / 256 }

  /** The commands, two bytes each, low byte first. */
  function Commands(cmds: seq<Cmd>): (r: seq<Octet>)
    ensures |r| == 2 * |cmds|
  {
    seq(2 * |cmds|, i requires 0 <= i < 2 * |cmds| =>
      if i % 2 == 0 then LowByte(cmds[i / 2]) else HighByte(cmds[i / 2]))
  }

  /** What the checksum covers. */
  function Body(pkt: Packet): (r: seq<Octet>)
    ensures |r| == 10 + 2 * |pkt.cmds|
  {
    U32(pkt.start) + U32(pkt.ack) + (U8(pkt.player) + U8(|pkt.cmds|)) + Commands(pkt.cmds)
  }

  function Low28(crc: bv32): nat { (crc & 0x0FFF_FFFF) as nat }

  /** 28 bits of the CRC. */
  function Checksum(body: seq<Octet>): nat {
    Low28(Crc(Bits(body)))
  }

  function Encode(pkt: Packet): (r: seq<Octet>)
    ensures |r| == HEADER + 2 * |pkt.cmds|
  {
    U32(Checksum(Body(pkt))) + Body(pkt)
  }

  /** ReceivePacket's filters and what it reads past them. Only `length` bytes of `data` were
      received; the rest is whatever the buffer held before, and nothing compares the length
      with num_cmds. */
  function Decode(data: seq<Octet>, length: nat, maxDelay: nat): Option<Packet>
    requires length <= |data| && PacketSize(maxDelay) <= |data|
  {
    if length < HEADER
      || Number(data[0..4]) != Checksum(data[4..length])
      || data[12] >= MAX_PLAYERS
      || data[13] > maxDelay
    then None
    else
      Some(Packet(Number(data[4..8]), Number(data[8..12]), data[12], CommandsIn(data, data[13])))
  }

  function CommandAt(data: seq<Octet>, k: nat): Cmd
    requires HEADER + 2 * k + 2 <= |data|
  {
    var low: nat, high: nat := data[HEADER + 2 * k], data[HEADER + 2 * k + 1];
    low + 256 * high
  }

  function CommandsIn(data: seq<Octet>, n: nat): (r: seq<Cmd>)
    requires HEADER + 2 * n <= |data|
    ensures |r| == n
  {
    seq(n, k requires 0 <= k < n => CommandAt(data, k))
  }

  // ------------------------------------------------------------------------------------
  // Numbers.

  function Pow256(k: nat): nat { if k == 0 then 1 else 256 * Pow256(k - 1) }

  lemma {:induction false} NumberDigits(n: nat, width: nat)
    requires n < Pow256(width)
    ensures Number(Digits(n, width)) == n
  {
    if width > 0 {
      NumberDigits(n / 256, width - 1);
      assert Digits(n, width)[1..] == Digits(n / 256, width - 1);
    }
  }

  lemma FirstDigit(b: Octet, rest: nat)
    ensures (b + 256 * rest) % 256 == b && (b + 256 * rest) / 256 == rest
  {
  }

  lemma {:induction false} DigitsNumber(bytes: seq<Octet>)
    ensures Number(bytes) < Pow256(|bytes|) && Digits(Number(bytes), |bytes|) == bytes
  {
    if bytes != [] {
      DigitsNumber(bytes[1..]);
      FirstDigit(bytes[0], Number(bytes[1..]));
      HeadAndTail(bytes);
    }
  }

  lemma Narrowed(crc: bv32, low: bv28)
    requires low as bv32 == crc & 0x0FFF_FFFF
    ensures (crc & 0x0FFF_FFFF) as nat == (low as bv32) as nat
  {
  }

  lemma Widened(low: bv28)
    ensures (low as bv32) as nat == low as nat
  {
  }

  lemma BelowWidth(low: bv28)
    ensures low as nat < 0x1000_0000
  {
  }

  lemma MaskedFits(crc: bv32)
    ensures (crc & 0x0FFF_FFFF) as nat < 0x1000_0000
  {
    var low := (crc & 0x0FFF_FFFF) as bv28;
    Narrowed(crc, low);
    Widened(low);
    BelowWidth(low);
  }

  lemma HighAndLow(crc: bv32)
    ensures crc as nat == ((crc >> 28) as nat) * 0x1000_0000 + ((crc & 0x0FFF_FFFF) as nat)
  {
  }

  lemma Remainder(high: nat, low: nat, n: nat)
    requires n == high * 0x1000_0000 + low && low < 0x1000_0000
    ensures n % 0x1000_0000 == low
  {
  }

  lemma Low28IsRemainder(crc: bv32)
    ensures Low28(crc) == (crc as nat) % 0x1000_0000
  {
    HighAndLow(crc);
    MaskedFits(crc);
    Remainder((crc >> 28) as nat, (crc & 0x0FFF_FFFF) as nat, crc as nat);
  }

  /** The checksum is the CRC's remainder by 2^28: its low 28 bits. */
  lemma ChecksumIsRemainder(body: seq<Octet>)
    ensures Checksum(body) == (Crc(Bits(body)) as nat) % 0x1000_0000
  {
    Low28IsRemainder(Crc(Bits(body)));
  }

  // ------------------------------------------------------------------------------------
  // The round trip.

  /** Every field fits the type struct packet gives it. */
  predicate Representable(pkt: Packet, maxDelay: nat) {
    && pkt.start < 0x1_0000_0000 && pkt.ack < 0x1_0000_0000
    && pkt.player < MAX_PLAYERS
    && |pkt.cmds| <= maxDelay < 256
  }

  lemma Sections<T>(a: seq<T>, b: seq<T>, c: seq<T>, d: seq<T>, e: seq<T>, f: seq<T>, rest: seq<T>)
    requires |a| == |b| == |c| == 4 && |d| == |e| == 1
    ensures var data := a + (b + c + (d + e) + f) + rest;
      && data[0..4] == a && data[4..8] == b && data[8..12] == c && data[12..13] == d && data[13..14] == e
      && data[14..14 + |f|] == f && data[4..14 + |f|] == b + c + (d + e) + f
  {
  }

  /** Where the fields of a sent packet lie. */
  lemma Layout(pkt: Packet, stale: seq<Octet>)
    ensures var data := Encode(pkt) + stale;
      && data[0..4] == U32(Checksum(Body(pkt)))
      && data[4..|Encode(pkt)|] == Body(pkt)
      && data[4..8] == U32(pkt.start)
      && data[8..12] == U32(pkt.ack)
      && data[12..13] == U8(pkt.player) && data[13..14] == U8(|pkt.cmds|)
      && data[HEADER..HEADER + 2 * |pkt.cmds|] == Commands(pkt.cmds)
  {
    Sections(U32(Checksum(Body(pkt))), U32(pkt.start), U32(pkt.ack), U8(pkt.player), U8(|pkt.cmds|), Commands(pkt.cmds), stale);
  }

  lemma OneByte(data: seq<Octet>, at: nat)
    requires at < |data|
    ensures Number(data[at..at + 1]) == data[at]
  {
    assert data[at..at + 1][1..] == [];
  }

  lemma BytesOfCommand(n: Cmd)
    ensures LowByte(n) + 256 * HighByte(n) == n
  {
  }

  lemma CommandsDecode(data: seq<Octet>, cmds: seq<Cmd>)
    requires HEADER + 2 * |cmds| <= |data|
    requires data[HEADER..HEADER + 2 * |cmds|] == Commands(cmds)
    ensures CommandsIn(data, |cmds|) == cmds
  {
    var bytes := Commands(cmds);
    forall k | 0 <= k < |cmds| ensures CommandAt(data, k) == cmds[k] {
      assert data[HEADER + 2 * k] == bytes[2 * k] == LowByte(cmds[k]);
      assert data[HEADER + 2 * k + 1] == bytes[2 * k + 1] == HighByte(cmds[k]);
      BytesOfCommand(cmds[k]);
    }
  }

  lemma HeaderDecodes(pkt: Packet, stale: seq<Octet>, maxDelay: nat)
    requires Representable(pkt, maxDelay)
    ensures var data := Encode(pkt) + stale;
      && Number(data[0..4]) == Checksum(data[4..|Encode(pkt)|])
      && Number(data[4..8]) == pkt.start && Number(data[8..12]) == pkt.ack
      && data[12] == pkt.player && data[13] == |pkt.cmds|
  {
    var data := Encode(pkt) + stale;
    Layout(pkt, stale);
    ChecksumIsRemainder(Body(pkt));
    NumberDigits(Checksum(Body(pkt)), 4);
    NumberDigits(pkt.start, 4);
    NumberDigits(pkt.ack, 4);
    NumberDigits(pkt.player, 1);
    NumberDigits(|pkt.cmds|, 1);
    OneByte(data, 12);
    OneByte(data, 13);
  }

  /** A packet that was sent is accepted as itself, whatever the buffer held before. */
  lemma DecodeEncode(pkt: Packet, stale: seq<Octet>, maxDelay: nat)
    requires Representable(pkt, maxDelay)
    requires PacketSize(maxDelay) <= |Encode(pkt) + stale|
    ensures Decode(Encode(pkt) + stale, |Encode(pkt)|, maxDelay) == Some(pkt)
  {
    HeaderDecodes(pkt, stale, maxDelay);
    Layout(pkt, stale);
    CommandsDecode(Encode(pkt) + stale, pkt.cmds);
  }

  // ------------------------------------------------------------------------------------
  // The other way round.

  lemma CommandOfBytes(low: Octet, high: Octet)
    ensures LowByte(low + 256 * high) == low && HighByte(low + 256 * high) == high
  {
  }

  lemma CommandsOfBytes(data: seq<Octet>, n: nat)
    requires HEADER + 2 * n <= |data|
    ensures Commands(CommandsIn(data, n)) == data[HEADER..HEADER + 2 * n]
  {
    var bytes := Commands(CommandsIn(data, n));
    forall i | 0 <= i < 2 * n ensures bytes[i] == data[HEADER + i] {
      var k := i / 2;
      CommandOfBytes(data[HEADER + 2 * k], data[HEADER + 2 * k + 1]);
      assert CommandsIn(data, n)[k] == CommandAt(data, k);
    }
  }

  lemma BodyOfBytes(data: seq<Octet>, pkt: Packet, length: nat)
    requires length == HEADER + 2 * |pkt.cmds| <= |data|
    requires U32(pkt.start) == data[4..8] && U32(pkt.ack) == data[8..12]
    requires U8(pkt.player) == data[12..13] && U8(|pkt.cmds|) == data[13..14]
    requires Commands(pkt.cmds) == data[HEADER..length]
    ensures Body(pkt) == data[4..length]
  {
    assert data[4..length] == data[4..8] + data[8..12] + data[12..13] + data[13..14] + data[HEADER..length];
  }

  lemma NumbersOfBytes(data: seq<Octet>)
    requires HEADER <= |data|
    ensures U32(Number(data[0..4])) == data[0..4] && U32(Number(data[4..8])) == data[4..8]
    ensures U32(Number(data[8..12])) == data[8..12]
    ensures Number(data[4..8]) < 0x1_0000_0000 && Number(data[8..12]) < 0x1_0000_0000
  {
    DigitsNumber(data[0..4]);
    DigitsNumber(data[4..8]);
    DigitsNumber(data[8..12]);
    Wide();
  }

  lemma Wide()
    ensures Pow256(4) == 0x1_0000_0000
  {
  }

  lemma OctetsOfBytes(data: seq<Octet>)
    requires HEADER <= |data|
    ensures U8(data[12]) == data[12..13] && U8(data[13]) == data[13..14]
  {
    DigitsNumber(data[12..13]);
    DigitsNumber(data[13..14]);
    OneByte(data, 12);
    OneByte(data, 13);
  }

  /** An accepted datagram whose length matches its command count is, byte for byte, what the
      packet read from it would be sent as. */
  lemma EncodeDecode(data: seq<Octet>, length: nat, maxDelay: nat)
    requires length <= |data| && PacketSize(maxDelay) <= |data| && maxDelay < 256
    requires Decode(data, length, maxDelay).Some?
    requires length == HEADER + 2 * |Decode(data, length, maxDelay).value.cmds|
    ensures Representable(Decode(data, length, maxDelay).value, maxDelay)
    ensures Encode(Decode(data, length, maxDelay).value) == data[..length]
  {
    var pkt := Decode(data, length, maxDelay).value;
    NumbersOfBytes(data);
    OctetsOfBytes(data);
    CommandsOfBytes(data, data[13]);
    BodyOfBytes(data, pkt, length);
    HeadOfPrefix(data, 4, length);
  }

  // ------------------------------------------------------------------------------------
  // The layout in numbers.

  /** The little-endian number of four octets. */
  function Word(data: seq<Octet>, at: nat): nat
    requires at + 4 <= |data|
  {
    var a: nat, b: nat, c: nat, d: nat := data[at], data[at + 1], data[at + 2], data[at + 3];
    a + 0x100 * b + 0x1_0000 * c + 0x100_0000 * d
  }

  lemma {:induction false} FourBytes(bytes: seq<Octet>)
    requires |bytes| == 4
    ensures Number(bytes) == Word(bytes, 0)
  {
    var t, u, v := bytes[1..], bytes[2..], bytes[3..];
    assert t[1..] == u && u[1..] == v && v[1..] == [];
    assert Number(bytes) == bytes[0] + 256 * Number(t);
    assert Number(t) == t[0] + 256 * Number(u);
    assert Number(u) == u[0] + 256 * Number(v);
    assert Number(v) == v[0];
  }

  lemma WordAt(data: seq<Octet>, at: nat)
    requires at + 4 <= |data|
    ensures Number(data[at..at + 4]) == Word(data, at)
  {
    FourBytes(data[at..at + 4]);
  }

  /** What ReceivePacket lets through, in numbers: at least a header; in front the low 28 bits
      of the CRC of everything that was received after it; a player below 4; no more commands
      than the window holds. And what it reads from it. */
  lemma AcceptedExactly(data: seq<Octet>, length: nat, maxDelay: nat)
    requires length <= |data| && PacketSize(maxDelay) <= |data|
    ensures var r := Decode(data, length, maxDelay);
      && (r.Some? <==>
            && 14 <= length
            && Word(data, 0) == (Crc(Bits(data[4..length])) as nat) % 0x1000_0000
            && data[12] < 4 && data[13] <= maxDelay)
      && (r.Some? ==>
            && r.value.start == Word(data, 4) && r.value.ack == Word(data, 8)
            && r.value.player == data[12] && |r.value.cmds| == data[13]
            && forall k :: 0 <= k < data[13] ==>
                 var low: nat, high: nat := data[14 + 2 * k], data[15 + 2 * k]; r.value.cmds[k] == low + 0x100 * high)
  {
    if 14 <= length {
      ChecksumIsRemainder(data[4..length]);
      WordAt(data, 0);
      WordAt(data, 4);
      WordAt(data, 8);
    }
  }

  lemma CommandBytes(data: seq<Octet>, cmds: seq<Cmd>, k: nat)
    requires HEADER + 2 * |cmds| <= |data| && k < |cmds|
    requires data[HEADER..HEADER + 2 * |cmds|] == Commands(cmds)
    ensures data[14 + 2 * k] == cmds[k] % 256 && data[15 + 2 * k] == cmds[k] / 256
  {
    var bytes := Commands(cmds);
    InSlice(data, HEADER, bytes, 2 * k);
    InSlice(data, HEADER, bytes, 2 * k + 1);
    assert bytes[2 * k] == LowByte(cmds[k]) && bytes[2 * k + 1] == HighByte(cmds[k]);
  }

  /** How a packet lies in front of whatever follows it. */
  lemma HeaderBytes(pkt: Packet, data: seq<Octet>, stale: seq<Octet>, maxDelay: nat)
    requires Representable(pkt, maxDelay) && data == Encode(pkt) + stale
    ensures Word(data, 0) == (Crc(Bits(data[4..|Encode(pkt)|])) as nat) % 0x1000_0000
    ensures Word(data, 4) == pkt.start && Word(data, 8) == pkt.ack
    ensures data[12] == pkt.player && data[13] == |pkt.cmds|
  {
    HeaderDecodes(pkt, stale, maxDelay);
    ChecksumIsRemainder(data[4..|Encode(pkt)|]);
    WordAt(data, 0);
    WordAt(data, 4);
    WordAt(data, 8);
  }

  /** What SendPacket puts where, whatever follows it in the buffer. */
  lemma SentExactly(pkt: Packet, data: seq<Octet>, stale: seq<Octet>, maxDelay: nat)
    requires Representable(pkt, maxDelay) && data == Encode(pkt) + stale
    ensures var length := 14 + 2 * |pkt.cmds|;
      && length == |Encode(pkt)|
      && Word(data, 0) == (Crc(Bits(data[4..length])) as nat) % 0x1000_0000
      && Word(data, 4) == pkt.start && Word(data, 8) == pkt.ack
      && data[12] == pkt.player && data[13] == |pkt.cmds|
    ensures forall k :: 0 <= k < |pkt.cmds| ==>
      data[14 + 2 * k] == pkt.cmds[k] % 256 && data[15 + 2 * k] == pkt.cmds[k] / 256
  {
    HeaderBytes(pkt, data, stale, maxDelay);
    Layout(pkt, stale);
    forall k | 0 <= k < |pkt.cmds|
      ensures data[14 + 2 * k] == pkt.cmds[k] % 256 && data[15 + 2 * k] == pkt.cmds[k] / 256
    {
      CommandBytes(data, pkt.cmds, k);
    }
  }

  /** Damage to the checksum itself is always noticed: of two accepted datagrams that agree in
      the rest, the checksums agree too. */
  lemma ChecksumDamageNoticed(data: seq<Octet>, other: seq<Octet>, length: nat, maxDelay: nat)
    requires length <= |data| == |other| && PacketSize(maxDelay) <= |data|
    requires Decode(data, length, maxDelay).Some? && Decode(other, length, maxDelay).Some?
    requires other[4..length] == data[4..length]
    ensures other[0..4] == data[0..4]
  {
    DigitsNumber(data[0..4]);
    DigitsNumber(other[0..4]);
  }
}
