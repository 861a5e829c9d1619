/** What every reachable state of the protocol satisfies, and why each step keeps it. */
module Invariant {
  import opened Seqs
  import opened Windows
  import opened Peers
  import opened Lockstep

  /** v is round t: each peer's player gets element t of that peer's stream, every other
      player gets 0. */
  ghost predicate IsRound(c: Config, s: System, v: seq<Cmd>, t: nat)
    requires ValidConfig(c) && Shape(c, s)
  {
    && |v| == MAX_PLAYERS
    && (forall j :: 0 <= j < c.n ==> t < |Stream(c, s, j)| && v[c.player[j]] == Stream(c, s, j)[t])
    && (forall p :: 0 <= p < MAX_PLAYERS && p !in c.player ==> v[p] == 0)
  }

  /** Before its very first push the loopback window is empty although the stream is not. */
  ghost predicate LoopbackOk(c: Config, s: System, i: nat)
    requires ValidConfig(c) && Shape(c, s) && i < c.n
  {
    var n := NodeFor(c, s, i, i);
    && n.player == c.player[i]
    && |n.recv.slots| == c.maxDelay
    && n.recv.start == Gametic(s, i)
    && n.send.End() == c.delay - 1
    && Holds(n.recv, Stream(c, s, i))
    && (if s.asked[i] == [] then n.recv.len == 0 && n.recv.slots == Zeros(c.maxDelay)
        else n.recv.End() == |Stream(c, s, i)|)
  }

  ghost predicate PeerOk(c: Config, s: System, i: nat)
    requires ValidConfig(c) && Shape(c, s) && i < c.n
  {
    && s.peers[i].maketic == Gametic(s, i) + c.delay
    && |s.asked[i]| == Gametic(s, i) + (if s.waiting[i] then 1 else 0)
    && |s.returned[i]| == Gametic(s, i)
    && LoopbackOk(c, s, i)
    && forall t :: 0 <= t < |s.returned[i]| ==> IsRound(c, s, s.returned[i][t], t)
  }

  /** Peer i's node for another peer j. */
  ghost predicate PairOk(c: Config, s: System, i: nat, j: nat)
    requires ValidConfig(c) && Shape(c, s) && i < c.n && j < c.n
  {
    var n := NodeFor(c, s, i, j);
    && |n.send.slots| == c.maxDelay && |n.recv.slots| == c.maxDelay
    && Holds(n.send, Stream(c, s, i)) && n.send.End() == |Stream(c, s, i)|
    && Holds(n.recv, Stream(c, s, j)) && n.recv.start == Gametic(s, i)
    && n.send.start <= NodeFor(c, s, j, i).recv.End()
    && n.recv.End() <= n.send.start + c.delay
    && (n.player == -1 || n.player == c.player[j])
    && (n.recv.End() > 0 ==> n.player == c.player[j])
  }

  ghost predicate EnvelopeOk(c: Config, s: System, e: Envelope)
    requires ValidConfig(c) && Shape(c, s)
  {
    && e.src < c.n && e.dst < c.n && e.src != e.dst
    && Carries(e.pkt, Stream(c, s, e.src))
    && e.pkt.player == c.player[e.src]
    && e.pkt.start <= NodeFor(c, s, e.dst, e.src).recv.End()
    && e.pkt.ack <= NodeFor(c, s, e.src, e.dst).recv.End()
    && e.pkt.End() <= e.pkt.ack + c.delay
    && |e.pkt.cmds| <= c.maxDelay
  }

  ghost predicate PeersOk(c: Config, s: System) {
    && ValidConfig(c) && Shape(c, s)
    && (forall i :: 0 <= i < c.n ==> PeerOk(c, s, i))
    && (forall i, j :: 0 <= i < c.n && 0 <= j < c.n && i != j ==> PairOk(c, s, i, j))
  }

  ghost predicate Inv(c: Config, s: System) {
    PeersOk(c, s) && forall e :: e in s.net ==> EnvelopeOk(c, s, e)
  }

  lemma InitialInv(c: Config)
    requires ValidConfig(c)
    ensures Inv(c, Initial(c))
  {
    var s := Initial(c);
    forall i, j | 0 <= i < c.n && 0 <= j < c.n && i != j ensures PairOk(c, s, i, j) {
      assert c.nodeOf[i][j] != 0 by { assert c.peerAt[i][c.nodeOf[i][i]] == i; }
    }
  }

  // ------------------------------------------------------------------------------------
  // Consequences of the invariant for a pair of peers.

  /** Any two peers are within DELAY tics of each other and both windows of every node
      hold at most 2*DELAY commands, one less in a send window while the peer is idle. */
  lemma PairBounds(c: Config, s: System, i: nat, j: nat)
    requires PeersOk(c, s) && i < c.n && j < c.n && i != j
    ensures Gametic(s, i) <= Gametic(s, j) + c.delay
    ensures NodeFor(c, s, i, j).recv.len <= 2 * c.delay
    ensures NodeFor(c, s, i, j).send.len <= 2 * c.delay
    ensures !s.waiting[i] ==> NodeFor(c, s, i, j).send.len < 2 * c.delay
    ensures |Stream(c, s, i)| == Gametic(s, i) + c.delay - (if s.waiting[i] then 0 else 1)
  {
    assert PeerOk(c, s, i) && PeerOk(c, s, j);
    assert PairOk(c, s, i, j) && PairOk(c, s, j, i);
  }

  lemma NodesApart(c: Config, i: nat, j: nat, k: nat)
    requires ValidConfig(c) && i < c.n && j < c.n && k < c.n && j != k
    ensures c.nodeOf[i][j] != c.nodeOf[i][k]
  {
    assert c.peerAt[i][c.nodeOf[i][j]] == j && c.peerAt[i][c.nodeOf[i][k]] == k;
  }

  lemma OwnPlayer(c: Config, s: System, i: nat)
    requires PeersOk(c, s) && i < c.n
    ensures s.peers[i].nodes[0].player == c.player[i]
  {
    assert PeerOk(c, s, i) && LoopbackOk(c, s, i);
    assert NodeFor(c, s, i, i) == s.peers[i].nodes[0];
  }

  lemma PacketOk(c: Config, s: System, i: nat, j: nat)
    requires PeersOk(c, s) && i < c.n && j < c.n && i != j
    ensures EnvelopeOk(c, s, Envelope(i, j, MakePacket(NodeFor(c, s, i, j), c.player[i])))
  {
    assert PeerOk(c, s, i) && PairOk(c, s, i, j) && PairOk(c, s, j, i);
    MakePacketCarries(NodeFor(c, s, i, j), c.player[i], Stream(c, s, i));
    PairBounds(c, s, i, j);
  }

  lemma PeerBehind(c: Config, i: nat, k: nat)
    requires ValidConfig(c) && i < c.n && 1 <= k < c.n
    ensures c.peerAt[i][k] < c.n && c.peerAt[i][k] != i && c.nodeOf[i][c.peerAt[i][k]] == k
  {
  }

  /** A packet made now is fit to be in the network. */
  lemma DatagramOk(c: Config, s: System, i: nat, k: nat)
    requires PeersOk(c, s) && i < c.n && 1 <= k < c.n
    ensures EnvelopeOk(c, s, Datagram(c, i, s.peers[i], k))
  {
    PeerBehind(c, i, k);
    OwnPlayer(c, s, i);
    PacketOk(c, s, i, c.peerAt[i][k]);
  }

  // ------------------------------------------------------------------------------------
  // Preservation, one kind of step at a time.

  lemma RoundsKept(c: Config, s: System, r: System, j: nat)
    requires ValidConfig(c) && Shape(c, s) && Shape(c, r) && j < c.n && PeerOk(c, s, j)
    requires forall i :: 0 <= i < c.n ==> s.asked[i] <= r.asked[i]
    ensures forall t :: 0 <= t < |s.returned[j]| ==> IsRound(c, r, s.returned[j][t], t)
  {
    forall t | 0 <= t < |s.returned[j]| ensures IsRound(c, r, s.returned[j][t], t) {
      assert IsRound(c, s, s.returned[j][t], t);
      RoundKept(c, s, r, s.returned[j][t], t);
    }
  }

  lemma RoundKept(c: Config, s: System, r: System, v: seq<Cmd>, t: nat)
    requires ValidConfig(c) && Shape(c, s) && Shape(c, r)
    requires forall i :: 0 <= i < c.n ==> s.asked[i] <= r.asked[i]
    requires IsRound(c, s, v, t)
    ensures IsRound(c, r, v, t)
  {
    forall j | 0 <= j < c.n
      ensures t < |Stream(c, r, j)| && v[c.player[j]] == Stream(c, r, j)[t]
    {
      assert v[c.player[j]] == Stream(c, s, j)[t];
    }
  }

  lemma ResendInv(c: Config, s: System, i: nat, k: nat)
    requires Inv(c, s) && Enabled(c, s, Resend(i, k))
    ensures Inv(c, Next(c, s, Resend(i, k)))
  {
    var r := Next(c, s, Resend(i, k));
    DatagramOk(c, s, i, k);
    forall j | 0 <= j < c.n ensures PeerOk(c, r, j) {
      assert PeerOk(c, s, j);
      RoundsKept(c, s, r, j);
    }
    forall j, m | 0 <= j < c.n && 0 <= m < c.n && j != m ensures PairOk(c, r, j, m) {
      assert PairOk(c, s, j, m);
    }
    forall e | e in r.net ensures EnvelopeOk(c, r, e) {
      assert EnvelopeOk(c, s, e);
    }
  }

  /** A delivery changes one node of one peer, and only in these ways. */
  lemma DeliverEffect(c: Config, s: System, e: Envelope)
    requires Inv(c, s) && e in s.net && e.src < c.n && e.dst < c.n
    ensures e.src != e.dst
    ensures var r := Next(c, s, Deliver(e));
      && (forall i, j :: 0 <= i < c.n && 0 <= j < c.n && !(i == e.dst && j == e.src)
            ==> NodeFor(c, r, i, j) == NodeFor(c, s, i, j))
      && NodeFor(c, r, e.dst, e.src) == Receive(NodeFor(c, s, e.dst, e.src), e.pkt)
      && (forall i :: 0 <= i < c.n ==> Gametic(r, i) == Gametic(s, i) && r.peers[i].maketic == s.peers[i].maketic)
    ensures var n, m := NodeFor(c, s, e.dst, e.src), NodeFor(c, Next(c, s, Deliver(e)), e.dst, e.src);
      && Holds(m.send, Stream(c, s, e.dst)) && Holds(m.recv, Stream(c, s, e.src))
      && |m.send.slots| == |m.recv.slots| == c.maxDelay
      && m.send.start == Max(n.send.start, e.pkt.ack)
      && m.send.End() == n.send.End()
      && m.recv.start == n.recv.start
      && m.recv.End() == (if e.pkt.start < n.recv.start then n.recv.End() else Max(n.recv.End(), e.pkt.End()))
      && m.player == (if e.pkt.start < n.recv.start then n.player else c.player[e.src])
  {
    assert EnvelopeOk(c, s, e);
    var d, o := e.dst, e.src;
    assert PairOk(c, s, d, o) && PairOk(c, s, o, d);
    assert PeerOk(c, s, d) && PeerOk(c, s, o);
    PairBounds(c, s, o, d);
    var r := Next(c, s, Deliver(e));
    forall j | 0 <= j < c.n && j != o ensures NodeFor(c, r, d, j) == NodeFor(c, s, d, j) {
      NodesApart(c, d, j, o);
    }
    HonestReceive(NodeFor(c, s, d, o), e.pkt, Stream(c, s, d), Stream(c, s, o));
  }

  lemma DeliverPeerOk(c: Config, s: System, e: Envelope, i: nat)
    requires Inv(c, s) && Enabled(c, s, Deliver(e)) && i < c.n
    ensures PeerOk(c, Next(c, s, Deliver(e)), i)
  {
    DeliverEffect(c, s, e);
    assert PeerOk(c, s, i);
    RoundsKept(c, s, Next(c, s, Deliver(e)), i);
  }

  lemma DeliverPairOk(c: Config, s: System, e: Envelope, i: nat, j: nat)
    requires Inv(c, s) && Enabled(c, s, Deliver(e)) && i < c.n && j < c.n && i != j
    ensures PairOk(c, Next(c, s, Deliver(e)), i, j)
  {
    DeliverEffect(c, s, e);
    assert EnvelopeOk(c, s, e);
    assert PairOk(c, s, i, j) && PairOk(c, s, j, i);
  }

  lemma DeliverEnvelopeOk(c: Config, s: System, e: Envelope, f: Envelope)
    requires Inv(c, s) && Enabled(c, s, Deliver(e)) && f in s.net
    ensures EnvelopeOk(c, Next(c, s, Deliver(e)), f)
  {
    DeliverEffect(c, s, e);
    assert EnvelopeOk(c, s, f);
  }

  lemma DeliverInv(c: Config, s: System, e: Envelope)
    requires Inv(c, s) && Enabled(c, s, Deliver(e))
    ensures Inv(c, Next(c, s, Deliver(e)))
  {
    var r := Next(c, s, Deliver(e));
    forall i | 0 <= i < c.n ensures PeerOk(c, r, i) { DeliverPeerOk(c, s, e, i); }
    forall i, j | 0 <= i < c.n && 0 <= j < c.n && i != j ensures PairOk(c, r, i, j) { DeliverPairOk(c, s, e, i, j); }
    forall f | f in r.net ensures EnvelopeOk(c, r, f) { DeliverEnvelopeOk(c, s, e, f); }
  }

  /** What a push at peer i does to its node for another peer. */
  ghost predicate SendGrew(c: Config, s: System, i: nat, j: nat, cmd: Cmd, n: Node, m: Node) {
    && ValidConfig(c) && Shape(c, s) && i < c.n && j < c.n
    && m == n.(send := m.send)
    && m.send.start == n.send.start
    && m.send.End() == n.send.End() + 1
    && |m.send.slots| == c.maxDelay
    && Holds(m.send, Stream(c, s, i) + [cmd])
  }

  lemma SendPush(c: Config, s: System, i: nat, cmd: Cmd, j: nat)
    requires Inv(c, s) && i < c.n && !s.waiting[i] && j < c.n && j != i
    ensures NodeFor(c, s, i, j).send.len < c.maxDelay
    ensures SendGrew(c, s, i, j, cmd, NodeFor(c, s, i, j),
                     Pushed(NodeFor(c, s, i, j), c.nodeOf[i][j], s.peers[i].maketic, cmd))
  {
    assert PeerOk(c, s, i) && PairOk(c, s, i, j);
    NodesApart(c, i, j, i);
    PairBounds(c, s, i, j);
    ExtendHolds(NodeFor(c, s, i, j).send, cmd, Stream(c, s, i));
  }

  lemma StreamPush(c: Config, s: System, i: nat, cmd: Cmd)
    requires Inv(c, s) && Enabled(c, s, Begin(i, cmd))
    ensures Stream(c, Next(c, s, Begin(i, cmd)), i) == Stream(c, s, i) + [cmd]
  {
    assert PeerOk(c, s, i);
    ConcatThree(Zeros(c.delay - 1), s.asked[i], [cmd]);
  }

  /** A push changes only peer i: its loopback window and the send window of every other
      node each grow by the one command. */
  lemma BeginEffect(c: Config, s: System, i: nat, cmd: Cmd)
    requires Inv(c, s) && Enabled(c, s, Begin(i, cmd))
    ensures !TooFarAhead(s.peers[i], c.maxDelay)
    ensures var r := Next(c, s, Begin(i, cmd));
      && Stream(c, r, i) == Stream(c, s, i) + [cmd]
      && (forall j :: 0 <= j < c.n && j != i ==> r.peers[j] == s.peers[j] && Stream(c, r, j) == Stream(c, s, j))
      && Gametic(r, i) == Gametic(s, i) && r.peers[i].maketic == s.peers[i].maketic
      && (forall j :: 0 <= j < c.n && j != i ==> SendGrew(c, s, i, j, cmd, NodeFor(c, s, i, j), NodeFor(c, r, i, j)))
  {
    var r := Next(c, s, Begin(i, cmd));
    assert PeerOk(c, s, i);
    StreamPush(c, s, i, cmd);
    forall j | 0 <= j < c.n && j != i
      ensures SendGrew(c, s, i, j, cmd, NodeFor(c, s, i, j), NodeFor(c, r, i, j))
    {
      SendPush(c, s, i, cmd, j);
    }
  }

  /** The loopback window of an idle peer grows by what is pushed, its first time too. */
  lemma LoopbackGrows(w: Window, asked: seq<Cmd>, cmd: Cmd, delay: nat, maxDelay: nat)
    requires 0 < delay && w.start + delay <= maxDelay + |asked| && |w.slots| == maxDelay && |asked| == w.start
    requires Holds(w, Zeros(delay - 1) + asked)
    requires if asked == [] then w.len == 0 && w.slots == Zeros(maxDelay) else w.End() == |Zeros(delay - 1) + asked|
    ensures var r := Extend(w, w.start + delay, cmd);
      && r.start == w.start && |r.slots| == maxDelay && r.End() == delay + |asked|
      && Holds(r, Zeros(delay - 1) + asked + [cmd])
  {
    if asked == [] {
      EmptyConcat(Zeros(delay - 1));
      FirstPush(delay, maxDelay, cmd);
    } else {
      ExtendHolds(w, cmd, Zeros(delay - 1) + asked);
    }
  }

  /** What a push does to the pusher's own node. */
  lemma OwnNodeAfterPush(c: Config, s: System, i: nat, cmd: Cmd)
    requires Inv(c, s) && Enabled(c, s, Begin(i, cmd))
    ensures var n, r := NodeFor(c, s, i, i), Next(c, s, Begin(i, cmd));
      && NodeFor(c, r, i, i) == n.(recv := Extend(n.recv, n.recv.start + c.delay, cmd))
      && Gametic(r, i) == Gametic(s, i) == n.recv.start && r.asked[i] == s.asked[i] + [cmd]
  {
    assert PeerOk(c, s, i) && LoopbackOk(c, s, i);
  }

  lemma LoopbackPush(c: Config, s: System, i: nat, cmd: Cmd)
    requires Inv(c, s) && Enabled(c, s, Begin(i, cmd))
    ensures LoopbackOk(c, Next(c, s, Begin(i, cmd)), i)
  {
    assert PeerOk(c, s, i) && LoopbackOk(c, s, i);
    OwnNodeAfterPush(c, s, i, cmd);
    LoopbackGrows(NodeFor(c, s, i, i).recv, s.asked[i], cmd, c.delay, c.maxDelay);
    ConcatThree(Zeros(c.delay - 1), s.asked[i], [cmd]);
  }

  lemma BeginPeerOk(c: Config, s: System, i: nat, cmd: Cmd, j: nat)
    requires Inv(c, s) && Enabled(c, s, Begin(i, cmd)) && j < c.n
    ensures PeerOk(c, Next(c, s, Begin(i, cmd)), j)
  {
    BeginEffect(c, s, i, cmd);
    assert PeerOk(c, s, j);
    RoundsKept(c, s, Next(c, s, Begin(i, cmd)), j);
    if i == j { LoopbackPush(c, s, i, cmd); }
  }

  lemma BeginPairOk(c: Config, s: System, i: nat, cmd: Cmd, j: nat, m: nat)
    requires Inv(c, s) && Enabled(c, s, Begin(i, cmd)) && j < c.n && m < c.n && j != m
    ensures PairOk(c, Next(c, s, Begin(i, cmd)), j, m)
  {
    BeginEffect(c, s, i, cmd);
    assert PairOk(c, s, j, m) && PairOk(c, s, m, j);
    if m == i { HoldsLonger(NodeFor(c, s, j, i).recv, Stream(c, s, i), [cmd]); }
  }

  lemma BeginInv(c: Config, s: System, i: nat, cmd: Cmd)
    requires Inv(c, s) && Enabled(c, s, Begin(i, cmd))
    ensures Inv(c, Next(c, s, Begin(i, cmd)))
  {
    var r := Next(c, s, Begin(i, cmd));
    forall j | 0 <= j < c.n ensures PeerOk(c, r, j) { BeginPeerOk(c, s, i, cmd, j); }
    forall j, m | 0 <= j < c.n && 0 <= m < c.n && j != m ensures PairOk(c, r, j, m) { BeginPairOk(c, s, i, cmd, j, m); }
    forall e | e in r.net ensures EnvelopeOk(c, r, e) {
      if e in s.net {
        OldEnvelope(c, s, i, cmd, e);
      } else {
        BeginEffect(c, s, i, cmd);
        var k :| 0 <= k < c.n && SendsTo(s.peers[i], k) && e == Datagram(c, i, PushAll(s.peers[i], cmd), k);
        DatagramOk(c, r, i, k);
      }
    }
  }

  lemma OldEnvelope(c: Config, s: System, i: nat, cmd: Cmd, e: Envelope)
    requires Inv(c, s) && Enabled(c, s, Begin(i, cmd)) && e in s.net
    ensures EnvelopeOk(c, Next(c, s, Begin(i, cmd)), e)
  {
    BeginEffect(c, s, i, cmd);
    assert EnvelopeOk(c, s, e);
    if e.src == i { CarriesLonger(e.pkt, Stream(c, s, i), [cmd]); }
  }

  /** When a waiting peer is ready, slot 0 of every node is element `gametic` of the
      stream of the peer it stands for, and every player is known. */
  lemma ReadyNodes(c: Config, s: System, i: nat)
    requires Inv(c, s) && i < c.n && s.waiting[i] && NewTicReady(s.peers[i])
    ensures forall k :: 0 <= k < c.n ==>
      var n, j := s.peers[i].nodes[k], c.peerAt[i][k];
      && n.player == c.player[j] && |n.recv.slots| == c.maxDelay
      && Gametic(s, i) < |Stream(c, s, j)|
      && n.recv.slots[0] == Stream(c, s, j)[Gametic(s, i)]
  {
    forall k | 0 <= k < c.n
      ensures var n, j := s.peers[i].nodes[k], c.peerAt[i][k];
        && n.player == c.player[j] && |n.recv.slots| == c.maxDelay
        && Gametic(s, i) < |Stream(c, s, j)|
        && n.recv.slots[0] == Stream(c, s, j)[Gametic(s, i)]
    {
      var j := c.peerAt[i][k];
      assert c.nodeOf[i][j] == k;
      assert PeerOk(c, s, i);
      if j != i { assert PairOk(c, s, i, j); }
    }
  }

  /** The vector a ready peer is about to return is the round of its gametic. */
  lemma CollectIsRound(c: Config, s: System, i: nat)
    requires Inv(c, s) && i < c.n && s.waiting[i] && NewTicReady(s.peers[i])
    ensures IsRound(c, s, Collect(s.peers[i].nodes), Gametic(s, i))
  {
    var nodes := s.peers[i].nodes;
    ReadyNodes(c, s, i);
    forall j, k | 0 <= j < k < c.n ensures nodes[j].player != nodes[k].player {
      assert c.nodeOf[i][c.peerAt[i][j]] == j && c.nodeOf[i][c.peerAt[i][k]] == k;
    }
    CollectSpec(nodes);
    forall j | 0 <= j < c.n
      ensures Gametic(s, i) < |Stream(c, s, j)| && Collect(nodes)[c.player[j]] == Stream(c, s, j)[Gametic(s, i)]
    {
      assert c.peerAt[i][c.nodeOf[i][j]] == j;
      assert nodes[c.nodeOf[i][j]].player == c.player[j];
    }
    forall p | 0 <= p < MAX_PLAYERS && p !in c.player ensures Collect(nodes)[p] == 0 {
      forall k | 0 <= k < c.n ensures nodes[k].player != p {
        assert c.player[c.peerAt[i][k]] in c.player;
      }
    }
  }

  /** What a tic does to a node: its receive window loses its first command. */
  ghost predicate RecvShrank(c: Config, s: System, j: nat, n: Node, m: Node) {
    && ValidConfig(c) && Shape(c, s) && j < c.n
    && m == n.(recv := m.recv)
    && |m.recv.slots| == c.maxDelay
    && m.recv.start == n.recv.start + 1
    && m.recv.End() == n.recv.End()
    && Holds(m.recv, Stream(c, s, j))
  }

  lemma NodeConsumed(c: Config, s: System, i: nat, j: nat)
    requires Inv(c, s) && Enabled(c, s, Finish(i)) && j < c.n
    ensures NodeFor(c, s, i, j).recv.len > 0
    ensures RecvShrank(c, s, j, NodeFor(c, s, i, j), Consumed(NodeFor(c, s, i, j)))
  {
    assert PeerOk(c, s, i);
    if j != i { assert PairOk(c, s, i, j); }
    TrimHolds(NodeFor(c, s, i, j).recv, 1, Stream(c, s, j));
  }

  /** Finishing a tic takes exactly one command off the front of each receive window. */
  lemma FinishEffect(c: Config, s: System, i: nat)
    requires Inv(c, s) && Enabled(c, s, Finish(i))
    ensures var r := Next(c, s, Finish(i));
      && Gametic(r, i) == Gametic(s, i) + 1
      && (forall j :: 0 <= j < c.n && j != i ==> r.peers[j] == s.peers[j])
      && (forall j :: 0 <= j < c.n ==> RecvShrank(c, s, j, NodeFor(c, s, i, j), NodeFor(c, r, i, j)))
  {
    var r := Next(c, s, Finish(i));
    forall j | 0 <= j < c.n ensures RecvShrank(c, s, j, NodeFor(c, s, i, j), NodeFor(c, r, i, j)) {
      NodeConsumed(c, s, i, j);
    }
  }

  lemma FinishPeerOk(c: Config, s: System, i: nat, j: nat)
    requires Inv(c, s) && Enabled(c, s, Finish(i)) && j < c.n
    ensures PeerOk(c, Next(c, s, Finish(i)), j)
  {
    var r := Next(c, s, Finish(i));
    FinishEffect(c, s, i);
    assert PeerOk(c, s, j);
    RoundsKept(c, s, r, j);
    if i == j {
      CollectIsRound(c, s, i);
      RoundKept(c, s, r, Collect(s.peers[i].nodes), Gametic(s, i));
    }
  }

  lemma FinishPairOk(c: Config, s: System, i: nat, j: nat, m: nat)
    requires Inv(c, s) && Enabled(c, s, Finish(i)) && j < c.n && m < c.n && j != m
    ensures PairOk(c, Next(c, s, Finish(i)), j, m)
  {
    FinishEffect(c, s, i);
    assert PairOk(c, s, j, m) && PairOk(c, s, m, j);
  }

  lemma FinishEnvelopeOk(c: Config, s: System, i: nat, e: Envelope)
    requires Inv(c, s) && Enabled(c, s, Finish(i)) && e in s.net
    ensures EnvelopeOk(c, Next(c, s, Finish(i)), e)
  {
    FinishEffect(c, s, i);
    assert EnvelopeOk(c, s, e);
  }

  lemma FinishInv(c: Config, s: System, i: nat)
    requires Inv(c, s) && Enabled(c, s, Finish(i))
    ensures Inv(c, Next(c, s, Finish(i)))
  {
    var r := Next(c, s, Finish(i));
    forall j | 0 <= j < c.n ensures PeerOk(c, r, j) { FinishPeerOk(c, s, i, j); }
    forall j, m | 0 <= j < c.n && 0 <= m < c.n && j != m ensures PairOk(c, r, j, m) { FinishPairOk(c, s, i, j, m); }
    forall e | e in r.net ensures EnvelopeOk(c, r, e) { FinishEnvelopeOk(c, s, i, e); }
  }

  lemma NextInv(c: Config, s: System, a: Action)
    requires Inv(c, s) && Enabled(c, s, a)
    ensures Inv(c, Next(c, s, a))
  {
    match a
    case Begin(i, cmd) => BeginInv(c, s, i, cmd);
    case Resend(i, k) => ResendInv(c, s, i, k);
    case Deliver(e) => DeliverInv(c, s, e);
    case Finish(i) => FinishInv(c, s, i);
  }

  /** The invariant holds after every run, whatever the network did. */
  lemma {:induction false} RunInv(c: Config, s: System, acts: seq<Action>)
    requires Inv(c, s) && IsRun(c, s, acts)
    ensures Inv(c, After(c, s, acts))
    decreases |acts|
  {
    if acts != [] {
      NextInv(c, s, acts[0]);
      RunInv(c, Next(c, s, acts[0]), acts[1..]);
    }
  }
}
