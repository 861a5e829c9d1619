/** What the protocol guarantees over every run. */
module Guarantees {
  import opened Seqs
  import opened Windows
  import opened Peers
  import opened Polls
  import opened Lockstep
  import opened Invariant

  /** Some run leads from the initial state to `s`. */
  ghost predicate Reachable(c: Config, s: System) {
    ValidConfig(c) && exists acts :: IsRun(c, Initial(c), acts) && After(c, Initial(c), acts) == s
  }

  lemma ReachableInv(c: Config, s: System)
    requires Reachable(c, s)
    ensures Inv(c, s)
  {
    var acts :| IsRun(c, Initial(c), acts) && After(c, Initial(c), acts) == s;
    InitialInv(c);
    RunInv(c, Initial(c), acts);
  }

  lemma RoundsEqual(c: Config, s: System, u: seq<Cmd>, v: seq<Cmd>, t: nat)
    requires ValidConfig(c) && Shape(c, s) && IsRound(c, s, u, t) && IsRound(c, s, v, t)
    ensures u == v
  {
    forall p | 0 <= p < MAX_PLAYERS ensures u[p] == v[p] {
      if p in c.player {
        var j :| 0 <= j < c.n && c.player[j] == p;
        assert u[p] == Stream(c, s, j)[t];
      }
    }
  }

  lemma InvLockstep(c: Config, s: System, i: nat, j: nat, t: nat)
    requires Inv(c, s) && i < c.n && j < c.n
    requires t < |s.returned[i]| && t < |s.returned[j]|
    ensures s.returned[i][t] == s.returned[j][t]
    ensures |s.returned[i][t]| == MAX_PLAYERS
    ensures t < c.delay - 1 || t - (c.delay - 1) < |s.asked[j]|
    ensures s.returned[i][t][c.player[j]] == if t < c.delay - 1 then 0 else s.asked[j][t - (c.delay - 1)]
    ensures forall p :: 0 <= p < MAX_PLAYERS && p !in c.player ==> s.returned[i][t][p] == 0
  {
    assert PeerOk(c, s, i) && PeerOk(c, s, j);
    var u, v := s.returned[i][t], s.returned[j][t];
    assert IsRound(c, s, u, t) && IsRound(c, s, v, t);
    RoundsEqual(c, s, u, v, t);
    assert u[c.player[j]] == Stream(c, s, j)[t];
  }

  /** Peers that complete tic t get the same vector, and it holds what every player asked
      for DELAY-1 calls earlier. */
  lemma LockstepAgreement(c: Config, s: System, i: nat, j: nat, t: nat)
    requires Reachable(c, s) && i < c.n && j < c.n
    requires t < |s.returned[i]| && t < |s.returned[j]|
    ensures s.returned[i][t] == s.returned[j][t]
    ensures |s.returned[i][t]| == MAX_PLAYERS
    ensures t < c.delay - 1 || t - (c.delay - 1) < |s.asked[j]|
    ensures s.returned[i][t][c.player[j]] == if t < c.delay - 1 then 0 else s.asked[j][t - (c.delay - 1)]
    ensures forall p :: 0 <= p < MAX_PLAYERS && p !in c.player ==> s.returned[i][t][p] == 0
  {
    ReachableInv(c, s);
    InvLockstep(c, s, i, j, t);
  }

  lemma InvPushesFit(c: Config, s: System, i: nat)
    requires Inv(c, s) && i < c.n && !s.waiting[i]
    ensures var p := s.peers[i];
      && !TooFarAhead(p, c.maxDelay)
      && p.maketic - p.nodes[0].recv.start == c.delay
      && (forall k :: 1 <= k < c.n ==> 0 < p.maketic - p.nodes[k].send.start <= 2 * c.delay <= |p.nodes[k].send.slots|)
      && (forall k :: 1 <= k < c.n ==> SendsTo(p, k))
      && (forall k :: 0 <= k < c.n ==> PushFits(p, k, c.maxDelay))
  {
    assert PeerOk(c, s, i) && LoopbackOk(c, s, i);
    forall k | 1 <= k < c.n
      ensures 0 < s.peers[i].maketic - s.peers[i].nodes[k].send.start <= 2 * c.delay <= |s.peers[i].nodes[k].send.slots|
      ensures SendsTo(s.peers[i], k)
    {
      var j := c.peerAt[i][k];
      assert c.nodeOf[i][j] == k && j != i;
      assert PairOk(c, s, i, j);
      PairBounds(c, s, i, j);
    }
  }

  /** SwapCommand never refuses, and no push writes past its array: the loopback grows to
      DELAY commands, every send window to at most 2*DELAY. */
  lemma PushesFit(c: Config, s: System, i: nat)
    requires Reachable(c, s) && i < c.n && !s.waiting[i]
    ensures var p := s.peers[i];
      && !TooFarAhead(p, c.maxDelay)
      && p.maketic - p.nodes[0].recv.start == c.delay
      && (forall k :: 1 <= k < c.n ==> 0 < p.maketic - p.nodes[k].send.start <= 2 * c.delay <= |p.nodes[k].send.slots|)
      && (forall k :: 1 <= k < c.n ==> SendsTo(p, k))
      && (forall k :: 0 <= k < c.n ==> PushFits(p, k, c.maxDelay))
  {
    ReachableInv(c, s);
    InvPushesFit(c, s, i);
  }

  /** Peers stay within DELAY tics of each other, and no window ever exceeds 2*DELAY. */
  lemma BoundedSkew(c: Config, s: System, i: nat, j: nat)
    requires Reachable(c, s) && i < c.n && j < c.n && i != j
    ensures Gametic(s, i) - c.delay <= Gametic(s, j) <= Gametic(s, i) + c.delay
    ensures NodeFor(c, s, i, j).recv.len <= 2 * c.delay <= |NodeFor(c, s, i, j).recv.slots|
    ensures NodeFor(c, s, i, j).send.len <= 2 * c.delay <= |NodeFor(c, s, i, j).send.slots|
  {
    ReachableInv(c, s);
    PairBounds(c, s, i, j);
    PairBounds(c, s, j, i);
    assert PairOk(c, s, i, j);
  }

  lemma {:induction false} NetOnlyGrows(c: Config, s: System, acts: seq<Action>)
    requires ValidConfig(c) && Shape(c, s) && IsRun(c, s, acts)
    ensures s.net <= After(c, s, acts).net
    decreases |acts|
  {
    if acts != [] {
      NetOnlyGrows(c, Next(c, s, acts[0]), acts[1..]);
    }
  }

  /** However late a packet arrives, every filter of ReceivePacket lets it by, it leaves no
      gap behind the receive window, none of it is cut off at MAX_DELAY, and its ack lies
      within what the receiver has sent. */
  lemma {:induction false} LatePacketsAreHarmless(c: Config, s: System, e: Envelope, later: seq<Action>)
    requires Reachable(c, s) && e in s.net && IsRun(c, s, later)
    ensures e.src < c.n && e.dst < c.n && e.src != e.dst
    ensures e.pkt.player == c.player[e.src] < MAX_PLAYERS && |e.pkt.cmds| <= c.maxDelay
    ensures var n := NodeFor(c, After(c, s, later), e.dst, e.src);
      && e.pkt.start <= n.recv.End()
      && e.pkt.End() <= n.recv.start + |n.recv.slots|
      && e.pkt.ack <= n.send.End()
  {
    ReachableInv(c, s);
    RunInv(c, s, later);
    NetOnlyGrows(c, s, later);
    var r := After(c, s, later);
    assert EnvelopeOk(c, s, e) && EnvelopeOk(c, r, e);
    assert PairOk(c, r, e.dst, e.src) && PairOk(c, r, e.src, e.dst);
    assert PeerOk(c, r, e.dst) && PeerOk(c, r, e.src);
    PairBounds(c, r, e.src, e.dst);
  }

  // ------------------------------------------------------------------------------------
  // Acknowledgements.

  ghost predicate Grew(n: Node, m: Node) {
    && n.send.start <= m.send.start && n.send.End() <= m.send.End()
    && n.recv.start <= m.recv.start && n.recv.End() <= m.recv.End()
  }

  lemma StepGrows(c: Config, s: System, a: Action, i: nat, j: nat)
    requires Inv(c, s) && Enabled(c, s, a) && i < c.n && j < c.n && i != j
    ensures Grew(NodeFor(c, s, i, j), NodeFor(c, Next(c, s, a), i, j))
  {
    match a
    case Begin(x, cmd) => BeginEffect(c, s, x, cmd);
    case Resend(x, k) =>
    case Deliver(e) => assert EnvelopeOk(c, s, e); DeliverEffect(c, s, e);
    case Finish(x) => FinishEffect(c, s, x);
  }

  lemma {:induction false} RunGrows(c: Config, s: System, acts: seq<Action>, i: nat, j: nat)
    requires Inv(c, s) && IsRun(c, s, acts) && i < c.n && j < c.n && i != j
    ensures Grew(NodeFor(c, s, i, j), NodeFor(c, After(c, s, acts), i, j))
    decreases |acts|
  {
    if acts != [] {
      StepGrows(c, s, acts[0], i, j);
      NextInv(c, s, acts[0]);
      RunGrows(c, Next(c, s, acts[0]), acts[1..], i, j);
    }
  }

  /** A command leaves a send window only once the other side has it: along any run both
      ends of both windows only grow, and the sender never forgets past what was received. */
  lemma {:induction false} AckSoundness(c: Config, s: System, acts: seq<Action>, i: nat, j: nat)
    requires Reachable(c, s) && IsRun(c, s, acts) && i < c.n && j < c.n && i != j
    ensures var r := After(c, s, acts);
      && Grew(NodeFor(c, s, i, j), NodeFor(c, r, i, j))
      && NodeFor(c, r, i, j).send.start <= NodeFor(c, r, j, i).recv.End() <= NodeFor(c, r, i, j).send.End()
      && NodeFor(c, r, i, j).recv.End() <= NodeFor(c, r, i, j).send.start + c.delay
  {
    ReachableInv(c, s);
    RunGrows(c, s, acts, i, j);
    RunInv(c, s, acts);
    var r := After(c, s, acts);
    assert PairOk(c, r, i, j) && PairOk(c, r, j, i);
  }

  // ------------------------------------------------------------------------------------
  // Each ordered pair of peers is joined by a FIFO queue.

  /** What peer j has not consumed yet of peer i's commands: j's receive window, then the
      part of i's send window that j has not received. */
  ghost function Queue(c: Config, s: System, i: nat, j: nat): seq<Cmd>
    requires Inv(c, s) && i < c.n && j < c.n && i != j
  {
    var recv, send := NodeFor(c, s, j, i).recv, NodeFor(c, s, i, j).send;
    assert PairOk(c, s, i, j) && PairOk(c, s, j, i);
    recv.Live() + send.Live()[recv.End() - send.start..]
  }

  lemma Overlap(recv: Window, send: Window, stream: seq<Cmd>)
    requires Holds(recv, stream) && Holds(send, stream)
    requires send.start <= recv.End() <= send.End() == |stream|
    ensures recv.Live() + send.Live()[recv.End() - send.start..] == stream[recv.start..]
  {
    HoldsIsSlice(recv, stream);
    HoldsIsSlice(send, stream);
    WholeTail(stream, send.start);
    TailOfTail(stream, send.start, recv.End());
    TailSplits(stream, recv.start, recv.End());
  }

  lemma QueueIsUnread(c: Config, s: System, i: nat, j: nat)
    requires Inv(c, s) && i < c.n && j < c.n && i != j
    ensures Gametic(s, j) <= |Stream(c, s, i)|
    ensures Queue(c, s, i, j) == Stream(c, s, i)[Gametic(s, j)..]
  {
    assert PairOk(c, s, i, j) && PairOk(c, s, j, i);
    Overlap(NodeFor(c, s, j, i).recv, NodeFor(c, s, i, j).send, Stream(c, s, i));
  }

  /** The queue starts as DELAY-1 zeros. */
  lemma QueueInitially(c: Config, i: nat, j: nat)
    requires ValidConfig(c) && i < c.n && j < c.n && i != j
    ensures Inv(c, Initial(c))
    ensures Queue(c, Initial(c), i, j) == Zeros(c.delay - 1)
  {
    InitialInv(c);
    QueueIsUnread(c, Initial(c), i, j);
  }

  /** How a step moves what the queue from i to j is cut from. */
  lemma StepMovesStream(c: Config, s: System, a: Action, i: nat, j: nat)
    requires Inv(c, s) && Enabled(c, s, a) && i < c.n && j < c.n && i != j
    ensures var r := Next(c, s, a);
      && Stream(c, r, i) == Stream(c, s, i) + (if a.Begin? && a.i == i then [a.cmd] else [])
      && Gametic(r, j) == Gametic(s, j) + (if a.Finish? && a.i == j then 1 else 0)
  {
    match a
    case Begin(x, cmd) => BeginEffect(c, s, x, cmd);
    case Resend(x, k) =>
    case Deliver(e) =>
    case Finish(x) =>
  }

  lemma QueuePushed(c: Config, s: System, a: Action, i: nat, j: nat)
    requires Inv(c, s) && Enabled(c, s, a) && i < c.n && j < c.n && i != j && a.Begin? && a.i == i
    requires Inv(c, Next(c, s, a))
    ensures Queue(c, Next(c, s, a), i, j) == Queue(c, s, i, j) + [a.cmd]
  {
    QueueIsUnread(c, s, i, j);
    QueueIsUnread(c, Next(c, s, a), i, j);
    StepMovesStream(c, s, a, i, j);
    TailGrows(Stream(c, s, i), Gametic(s, j), [a.cmd]);
  }

  lemma QueueTaken(c: Config, s: System, a: Action, i: nat, j: nat)
    requires Inv(c, s) && Enabled(c, s, a) && i < c.n && j < c.n && i != j && a.Finish? && a.i == j
    requires Inv(c, Next(c, s, a))
    ensures var q := Queue(c, s, i, j);
      q != [] && Queue(c, Next(c, s, a), i, j) == q[1..] && Collect(s.peers[j].nodes)[c.player[i]] == q[0]
  {
    QueueIsUnread(c, s, i, j);
    QueueIsUnread(c, Next(c, s, a), i, j);
    StepMovesStream(c, s, a, i, j);
    CollectIsRound(c, s, j);
    EmptyConcat(Stream(c, s, i));
    TailOfTail(Stream(c, s, i), Gametic(s, j), Gametic(s, j) + 1);
  }

  lemma QueueKept(c: Config, s: System, a: Action, i: nat, j: nat)
    requires Inv(c, s) && Enabled(c, s, a) && i < c.n && j < c.n && i != j
    requires !(a.Begin? && a.i == i) && !(a.Finish? && a.i == j)
    requires Inv(c, Next(c, s, a))
    ensures Queue(c, Next(c, s, a), i, j) == Queue(c, s, i, j)
  {
    QueueIsUnread(c, s, i, j);
    QueueIsUnread(c, Next(c, s, a), i, j);
    StepMovesStream(c, s, a, i, j);
    EmptyConcat(Stream(c, s, i));
  }

  /** A push by the sender enqueues its command, a tic of the receiver dequeues the head
      and hands it out under the sender's player number, and every other step - resends,
      deliveries, what other peers do - leaves the queue alone. */
  lemma QueueStep(c: Config, s: System, a: Action, i: nat, j: nat)
    requires Inv(c, s) && Enabled(c, s, a) && i < c.n && j < c.n && i != j
    ensures Inv(c, Next(c, s, a))
    ensures var q, r := Queue(c, s, i, j), Queue(c, Next(c, s, a), i, j);
      if a.Begin? && a.i == i then r == q + [a.cmd]
      else if a.Finish? && a.i == j then
        q != [] && r == q[1..] && Collect(s.peers[j].nodes)[c.player[i]] == q[0]
      else r == q
  {
    NextInv(c, s, a);
    if a.Begin? && a.i == i {
      QueuePushed(c, s, a, i, j);
    } else if a.Finish? && a.i == j {
      QueueTaken(c, s, a, i, j);
    } else {
      QueueKept(c, s, a, i, j);
    }
  }

  // ------------------------------------------------------------------------------------
  // Delivery is a join.

  /** Equal but for stale slots. */
  ghost predicate SameLive(n: Node, m: Node) {
    && n.player == m.player
    && n.send.start == m.send.start && n.send.len == m.send.len && n.send.Live() == m.send.Live()
    && n.recv.start == m.recv.start && n.recv.len == m.recv.len && n.recv.Live() == m.recv.Live()
  }

  /** Taking any packet twice in a row is taking it once, honest or not. */
  lemma ReceiveIdempotent(n: Node, pkt: Packet)
    ensures Receive(Receive(n, pkt), pkt) == Receive(n, pkt)
  {
    var m := Receive(n, pkt);
    if n.recv.start <= pkt.start {
      assert Merge(Merge(n.recv, pkt), pkt).slots == Merge(n.recv, pkt).slots;
    }
  }

  lemma DeliverIdempotent(c: Config, s: System, e: Envelope)
    requires ValidConfig(c) && Shape(c, s) && Enabled(c, s, Deliver(e))
    ensures Next(c, Next(c, s, Deliver(e)), Deliver(e)) == Next(c, s, Deliver(e))
  {
    var r := Next(c, s, Deliver(e));
    var t := Next(c, r, Deliver(e));
    ReceiveIdempotent(NodeFor(c, s, e.dst, e.src), e.pkt);
    assert t.peers[e.dst].nodes == r.peers[e.dst].nodes;
    assert t.peers == r.peers;
  }

  lemma SameEndsSameLive(n: Node, m: Node, mine: seq<Cmd>, theirs: seq<Cmd>)
    requires Holds(n.send, mine) && Holds(m.send, mine) && Holds(n.recv, theirs) && Holds(m.recv, theirs)
    requires n.send.start == m.send.start && n.send.End() == m.send.End()
    requires n.recv.start == m.recv.start && n.recv.End() == m.recv.End()
    requires n.player == m.player
    ensures SameLive(n, m)
  {
    HoldsIsSlice(n.send, mine);
    HoldsIsSlice(m.send, mine);
    HoldsIsSlice(n.recv, theirs);
    HoldsIsSlice(m.recv, theirs);
  }

  /** Where two deliveries on one link leave the node. */
  ghost predicate TookBoth(n: Node, e: Packet, f: Packet, player: nat, mine: seq<Cmd>, theirs: seq<Cmd>, m: Node) {
    && Holds(m.send, mine) && Holds(m.recv, theirs)
    && m.send.start == Max(Max(n.send.start, e.ack), f.ack) && m.send.End() == n.send.End()
    && m.recv.start == n.recv.start && m.recv.End() == EndWith(n, EndWith(n, n.recv.End(), e), f)
    && m.player == (if e.start < n.recv.start && f.start < n.recv.start then n.player else player)
  }

  function EndWith(n: Node, end: nat, pkt: Packet): nat {
    if pkt.start < n.recv.start then end else Max(end, pkt.End())
  }

  lemma DeliverTwo(c: Config, s: System, e: Envelope, f: Envelope)
    requires Inv(c, s) && e in s.net && f in s.net && e.src == f.src && e.dst == f.dst
    requires Enabled(c, s, Deliver(e)) && Enabled(c, s, Deliver(f))
    ensures TookBoth(NodeFor(c, s, e.dst, e.src), e.pkt, f.pkt, c.player[e.src], Stream(c, s, e.dst), Stream(c, s, e.src),
                     NodeFor(c, Next(c, Next(c, s, Deliver(e)), Deliver(f)), e.dst, e.src))
  {
    DeliverEffect(c, s, e);
    DeliverInv(c, s, e);
    DeliverEffect(c, Next(c, s, Deliver(e)), f);
  }

  lemma BothWaysSame(n: Node, e: Packet, f: Packet, player: nat, mine: seq<Cmd>, theirs: seq<Cmd>, a: Node, b: Node)
    requires TookBoth(n, e, f, player, mine, theirs, a) && TookBoth(n, f, e, player, mine, theirs, b)
    ensures SameLive(a, b)
  {
    SameEndsSameLive(a, b, mine, theirs);
  }

  /** Two packets on the same link can arrive in either order. */
  lemma DeliverCommutes(c: Config, s: System, e: Envelope, f: Envelope)
    requires Inv(c, s) && e in s.net && f in s.net && e.src == f.src && e.dst == f.dst
    requires Enabled(c, s, Deliver(e)) && Enabled(c, s, Deliver(f))
    ensures SameLive(NodeFor(c, Next(c, Next(c, s, Deliver(e)), Deliver(f)), e.dst, e.src),
                     NodeFor(c, Next(c, Next(c, s, Deliver(f)), Deliver(e)), e.dst, e.src))
  {
    DeliverTwo(c, s, e, f);
    DeliverTwo(c, s, f, e);
    BothWaysSame(NodeFor(c, s, e.dst, e.src), e.pkt, f.pkt, c.player[e.src], Stream(c, s, e.dst), Stream(c, s, e.src),
                 NodeFor(c, Next(c, Next(c, s, Deliver(e)), Deliver(f)), e.dst, e.src),
                 NodeFor(c, Next(c, Next(c, s, Deliver(f)), Deliver(e)), e.dst, e.src));
  }

  // ------------------------------------------------------------------------------------
  // Counters.

  /** A window's counters fit their types. */
  predicate WindowFits32(w: Window) {
    w.End() < 0x1_0000_0000 && w.len < 256
  }

  predicate PacketFits32(pkt: Packet) {
    pkt.End() < 0x1_0000_0000 && pkt.ack < 0x1_0000_0000 && |pkt.cmds| < 256
  }

  /** While no peer has passed tic 2^32 - 1 - 2*DELAY, every counter, every window (the loopback
      included) and every field of every packet fits the 32-bit (8-bit for lengths) type the
      source gives it. */
  lemma CountersFit(c: Config, s: System)
    requires Reachable(c, s) && c.maxDelay < 256
    requires forall m :: 0 <= m < c.n ==> Gametic(s, m) + 2 * c.delay < 0x1_0000_0000
    ensures forall i :: 0 <= i < c.n ==> s.peers[i].maketic < 0x1_0000_0000
    ensures forall i, j :: 0 <= i < c.n && 0 <= j < c.n ==>
      WindowFits32(NodeFor(c, s, i, j).send) && WindowFits32(NodeFor(c, s, i, j).recv)
    ensures forall e :: e in s.net ==> PacketFits32(e.pkt)
  {
    ReachableInv(c, s);
    forall i | 0 <= i < c.n ensures s.peers[i].maketic < 0x1_0000_0000 { assert PeerOk(c, s, i); }
    forall i, j | 0 <= i < c.n && 0 <= j < c.n
      ensures WindowFits32(NodeFor(c, s, i, j).send) && WindowFits32(NodeFor(c, s, i, j).recv)
    {
      NodeFits32(c, s, i, j);
    }
    forall e | e in s.net ensures PacketFits32(e.pkt) {
      assert EnvelopeOk(c, s, e);
      assert PairOk(c, s, e.src, e.dst);
      PairBounds(c, s, e.src, e.dst);
      PairBounds(c, s, e.dst, e.src);
    }
  }

  lemma NodeFits32(c: Config, s: System, i: nat, j: nat)
    requires Inv(c, s) && i < c.n && j < c.n && c.maxDelay < 256
    requires forall m :: 0 <= m < c.n ==> Gametic(s, m) + 2 * c.delay < 0x1_0000_0000
    ensures WindowFits32(NodeFor(c, s, i, j).send) && WindowFits32(NodeFor(c, s, i, j).recv)
  {
    assert PeerOk(c, s, i) && PeerOk(c, s, j);
    if i == j {
      assert LoopbackOk(c, s, i);
    } else {
      assert PairOk(c, s, i, j);
      PairBounds(c, s, i, j);
      PairBounds(c, s, j, i);
    }
  }
}
