/** The packet buffer shared with the network driver, filled and read in place. */
module Driver {
  import opened Windows
  import opened Checksums
  import opened Octets
  import opened Seqs
  import opened Options
  import opened Wire

  /** The part of doomcom_t that carries a packet. */
  class Doomcom {
    const data: array<Octet>
    var dataLength: nat

    constructor (size: nat)
      ensures data.Length == size && dataLength == 0 && fresh(data)
    {
      data := new Octet[size](_ => 0);
      dataLength := 0;
    }

    /** A little-endian store of `width` bytes, higher digits dropped. */
    method Put(at: nat, n: nat, width: nat)
      requires at + width <= data.Length
      modifies data
      ensures data[..] == old(data[..at]) + Digits(n, width) + old(data[at + width..])
    {
      var i, rest := 0, n;
      ghost var digits := Digits(n, width);
      while i < width
        invariant i <= width
        invariant digits[i..] == Digits(rest, width - i)
        invariant forall k :: 0 <= k < i ==> data[at + k] == digits[k]
        invariant forall k :: 0 <= k < at || at + i <= k < data.Length ==> data[k] == old(data[k])
      {
        assert digits[i] == digits[i..][0] == rest % 256;
        assert digits[i + 1..] == digits[i..][1..] == Digits(rest / 256, width - i - 1);
        data[at + i] := rest % 256;
        rest := rest / 256;
        i := i + 1;
      }
    }

    method PutCommands(cmds: seq<Cmd>)
      requires HEADER + 2 * |cmds| <= data.Length
      modifies data
      ensures data[..HEADER] == old(data[..HEADER])
      ensures data[HEADER..HEADER + 2 * |cmds|] == Commands(cmds)
      ensures data[HEADER + 2 * |cmds|..] == old(data[HEADER + 2 * |cmds|..])
    {
      var i := 0;
      while i < |cmds|
        invariant i <= |cmds|
        invariant forall k :: 0 <= k < HEADER || HEADER + 2 * i <= k < data.Length ==> data[k] == old(data[k])
        invariant forall k :: 0 <= k < 2 * i ==> data[HEADER + k] == Commands(cmds)[k]
      {
        data[HEADER + 2 * i] := LowByte(cmds[i]);
        data[HEADER + 2 * i + 1] := HighByte(cmds[i]);
        i := i + 1;
      }
    }

    method ComputeChecksum() returns (sum: nat)
      requires 4 <= dataLength <= data.Length
      ensures sum == Checksum(data[4..dataLength])
    {
      var crc := Crc32(data, 4, dataLength - 4);
      sum := Low28(crc);
    }

    method PutHeader(pkt: Packet)
      requires HEADER <= data.Length
      modifies data
      ensures data[..] == old(data[..4]) + (U32(pkt.start) + U32(pkt.ack) + (U8(pkt.player) + U8(|pkt.cmds|))) + old(data[HEADER..])
    {
      ghost var d := data[..];
      ghost var x, y, z, w := U32(pkt.start), U32(pkt.ack), U8(pkt.player), U8(|pkt.cmds|);
      Put(4, pkt.start, 4);
      StoreAfter(d, 4, [], x);
      Put(8, pkt.ack, 4);
      StoreAfter(d, 4, x, y);
      Put(12, pkt.player, 1);
      StoreAfter(d, 4, x + y, z);
      Put(13, |pkt.cmds|, 1);
      StoreAfter(d, 4, x + y + z, w);
      ConcatThree(x + y, z, w);
    }

    method PutBody(pkt: Packet)
      requires HEADER + 2 * |pkt.cmds| <= data.Length
      modifies data
      ensures data[..] == old(data[..4]) + Body(pkt) + old(data[HEADER + 2 * |pkt.cmds|..])
    {
      ghost var d := data[..];
      ghost var header := U32(pkt.start) + U32(pkt.ack) + (U8(pkt.player) + U8(|pkt.cmds|));
      PutHeader(pkt);
      ghost var h := data[..];
      PutCommands(pkt.cmds);
      BodyInPlace(d, h, data[..], header, Commands(pkt.cmds));
    }

    /** What SendPacket does to the buffer: the fields, then the length, then the checksum. */
    method Pack(pkt: Packet, maxDelay: nat)
      requires |pkt.cmds| <= maxDelay && PacketSize(maxDelay) <= data.Length
      modifies this`dataLength, data
      ensures dataLength == 14 + 2 * |pkt.cmds| == |Encode(pkt)|
      ensures data[..] == Encode(pkt) + old(data[HEADER + 2 * |pkt.cmds|..])
    {
      ghost var d := data[..];
      PutBody(pkt);
      dataLength := PacketSize(maxDelay) - 2 * (maxDelay - |pkt.cmds|);
      ghost var b := data[..];
      BodyBetween(b, d[..4], Body(pkt), d[HEADER + 2 * |pkt.cmds|..]);
      var sum := ComputeChecksum();
      Put(0, sum, 4);
      ChecksumInFront(b, d[..4], U32(sum), Body(pkt), d[HEADER + 2 * |pkt.cmds|..]);
    }

    method Get(at: nat, width: nat) returns (n: nat)
      requires at + width <= data.Length
      ensures n == Number(data[at..at + width])
    {
      n := 0;
      var i := width;
      while i > 0
        invariant 0 <= i <= width
        invariant n == Number(data[at + i..at + width])
      {
        i := i - 1;
        n := data[at + i] + 256 * n;
        assert data[at + i..at + width][1..] == data[at + i + 1..at + width];
      }
    }

    method GetCommands(n: nat) returns (cmds: seq<Cmd>)
      requires HEADER + 2 * n <= data.Length
      ensures cmds == CommandsIn(data[..], n)
    {
      cmds := [];
      for i := 0 to n
        invariant cmds == CommandsIn(data[..], i)
      {
        var low: nat, high: nat := data[HEADER + 2 * i], data[HEADER + 2 * i + 1];
        cmds := cmds + [low + 256 * high];
        assert CommandsIn(data[..], i + 1) == CommandsIn(data[..], i) + [CommandAt(data[..], i)];
      }
    }

    /** The filters at the head of ReceivePacket, and the packet that gets past them. */
    method Unpack(maxDelay: nat) returns (pkt: Option<Packet>)
      requires dataLength <= data.Length && PacketSize(maxDelay) <= data.Length
      ensures pkt == Decode(data[..], dataLength, maxDelay)
    {
      if dataLength < HEADER { return None; }
      var checksum := Get(0, 4);
      var sum := ComputeChecksum();
      assert data[..][4..dataLength] == data[4..dataLength] && data[..][0..4] == data[0..4];
      if checksum != sum || data[12] >= MAX_PLAYERS || data[13] > maxDelay { return None; }
      var start := Get(4, 4);
      var ack := Get(8, 4);
      var cmds := GetCommands(data[13]);
      assert data[..][4..8] == data[4..8] && data[..][8..12] == data[8..12];
      pkt := Some(Packet(start, ack, data[12], cmds));
    }
  }

  /** A buffer with `parts` stored from `at` on. */
  function Stored<T>(d: seq<T>, at: nat, parts: seq<T>): seq<T>
    requires at + |parts| <= |d|
  {
    d[..at] + parts + d[at + |parts|..]
  }

  lemma StoreAfter<T>(d: seq<T>, at: nat, parts: seq<T>, next: seq<T>)
    requires at + |parts| + |next| <= |d|
    ensures var s, k := Stored(d, at, parts), at + |parts|;
      s[..k] + next + s[k + |next|..] == Stored(d, at, parts + next)
    ensures Stored(d, at, []) == d
  {
  }

  lemma BodyBetween<T>(b: seq<T>, head: seq<T>, body: seq<T>, tail: seq<T>)
    requires |head| == 4 && b == head + body + tail
    ensures b[4..4 + |body|] == body
  {
  }

  lemma ChecksumInFront<T>(b: seq<T>, head: seq<T>, sum: seq<T>, body: seq<T>, tail: seq<T>)
    requires |head| == |sum| == 4 && b == head + body + tail
    ensures b[..0] + sum + b[4..] == sum + body + tail
  {
  }

  lemma BodyInPlace<T>(d: seq<T>, h: seq<T>, b: seq<T>, header: seq<T>, cmds: seq<T>)
    requires |header| == 10 && HEADER + |cmds| <= |d| == |h| == |b|
    requires h == d[..4] + header + d[HEADER..]
    requires b[..HEADER] == h[..HEADER] && b[HEADER..HEADER + |cmds|] == cmds && b[HEADER + |cmds|..] == h[HEADER + |cmds|..]
    ensures b == d[..4] + (header + cmds) + d[HEADER + |cmds|..]
  {
    assert b == b[..HEADER] + b[HEADER..HEADER + |cmds|] + b[HEADER + |cmds|..];
  }
}
