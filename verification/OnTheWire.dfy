/** The protocol's packets as the octets of its datagrams. */
module OnTheWire {
  import opened Windows
  import opened Lockstep
  import opened Invariant
  import opened Guarantees
  import opened Octets
  import opened Options
  import opened Wire

  /** Until some peer comes within 2*DELAY tics of 2^32, every datagram ever sent, laid over
      anything an earlier one left in the buffer, passes every filter of ReceivePacket at
      whatever peer it reaches and is read back as the packet that was sent. */
  lemma DatagramsAreReadBack(c: Config, s: System, e: Envelope, stale: seq<Octet>)
    requires Reachable(c, s) && e in s.net && c.maxDelay < 256
    requires forall m :: 0 <= m < c.n ==> Gametic(s, m) + 2 * c.delay < 0x1_0000_0000
    requires |Encode(e.pkt) + stale| == PacketSize(c.maxDelay)
    ensures Representable(e.pkt, c.maxDelay)
    ensures Decode(Encode(e.pkt) + stale, |Encode(e.pkt)|, c.maxDelay) == Some(e.pkt)
  {
    ReachableInv(c, s);
    assert EnvelopeOk(c, s, e);
    CountersFit(c, s);
    assert e.pkt.player == c.player[e.src] < MAX_PLAYERS;
    DecodeEncode(e.pkt, stale, c.maxDelay);
  }
}
