/** N peers running protocol.c over a network that loses, duplicates and reorders packets. */
module Lockstep {
  import opened Windows
  import opened Peers

  /** DELAY and MAX_DELAY, the number of peers, and how each peer numbers its nodes:
      peerAt[i][k] is the peer behind node k of peer i and nodeOf[i] is its inverse.
      player[i] is the player number the driver gave peer i. */
  datatype Config = Config(delay: nat, maxDelay: nat, n: nat,
                           peerAt: seq<seq<nat>>, nodeOf: seq<seq<nat>>, player: seq<nat>)

  ghost predicate ValidConfig(c: Config) {
    && 2 <= c.delay && 2 * c.delay <= c.maxDelay
    && 2 <= c.n <= MAX_PLAYERS
    && |c.peerAt| == |c.nodeOf| == |c.player| == c.n
    && (forall i :: 0 <= i < c.n ==> |c.peerAt[i]| == c.n && |c.nodeOf[i]| == c.n && c.nodeOf[i][i] == 0)
    && (forall i, j :: 0 <= i < c.n && 0 <= j < c.n ==> c.nodeOf[i][j] < c.n && c.peerAt[i][c.nodeOf[i][j]] == j)
    && (forall i, k :: 0 <= i < c.n && 0 <= k < c.n ==> c.peerAt[i][k] < c.n && c.nodeOf[i][c.peerAt[i][k]] == k)
    && (forall i :: 0 <= i < c.n ==> c.player[i] < MAX_PLAYERS)
    && (forall i, j :: 0 <= i < j < c.n ==> c.player[i] != c.player[j])
  }

  datatype Envelope = Envelope(src: nat, dst: nat, pkt: Packet)

  /** waiting[i]: peer i is inside SwapCommand's wait loop. net: every packet ever sent, for
      none ever has to arrive and any may arrive again. asked[i]: the arguments of peer i's
      SwapCommand calls. returned[i]: the vectors those calls gave back. */
  datatype System = System(peers: seq<Peer>, waiting: seq<bool>, net: set<Envelope>,
                           asked: seq<seq<Cmd>>, returned: seq<seq<seq<Cmd>>>)

  datatype Action =
    | Begin(i: nat, cmd: Cmd)   // SwapCommand up to its wait loop
    | Resend(i: nat, k: nat)    // CheckResends finds node k overdue
    | Deliver(e: Envelope)      // ReceivePackets takes a packet from the driver
    | Finish(i: nat)            // the wait loop ends; SwapCommand consumes a tic and returns

  ghost predicate Shape(c: Config, s: System) {
    && |s.peers| == |s.waiting| == |s.asked| == |s.returned| == c.n
    && (forall i :: 0 <= i < c.n ==> |s.peers[i].nodes| == c.n)
  }

  function Initial(c: Config): (s: System)
    requires ValidConfig(c)
    ensures Shape(c, s)
  {
    System(seq(c.n, i requires 0 <= i < c.n => InitialPeer(c.n, c.delay, c.maxDelay, c.player[i])),
           seq(c.n, _ => false), {}, seq(c.n, _ => []), seq(c.n, _ => []))
  }

  ghost predicate Enabled(c: Config, s: System, a: Action) {
    && Shape(c, s)
    && match a
       case Begin(i, _) => i < c.n && !s.waiting[i]
       case Resend(i, k) => i < c.n && 1 <= k < c.n
       case Deliver(e) => e in s.net && e.src < c.n && e.dst < c.n
       case Finish(i) => i < c.n && s.waiting[i] && NewTicReady(s.peers[i])
  }

  /** The datagram peer i's state `p` yields for its node k. */
  function Datagram(c: Config, i: nat, p: Peer, k: nat): Envelope
    requires ValidConfig(c) && i < c.n && k < c.n == |p.nodes|
  {
    Envelope(i, c.peerAt[i][k], MakePacket(p.nodes[k], p.nodes[0].player % 256))
  }

  ghost function Next(c: Config, s: System, a: Action): (r: System)
    requires ValidConfig(c) && Shape(c, s) && Enabled(c, s, a)
    ensures Shape(c, r)
  {
    match a
    case Begin(i, cmd) =>
      var p := s.peers[i];
      if TooFarAhead(p, c.maxDelay) then s
      else
        var q := PushAll(p, cmd);
        s.(peers := s.peers[i := q],
           waiting := s.waiting[i := true],
           net := s.net + set k | 0 <= k < c.n && SendsTo(p, k) :: Datagram(c, i, q, k),
           asked := s.asked[i := s.asked[i] + [cmd]])
    case Resend(i, k) =>
      s.(net := s.net + {Datagram(c, i, s.peers[i], k)})
    case Deliver(e) =>
      var p, k := s.peers[e.dst], c.nodeOf[e.dst][e.src];
      s.(peers := s.peers[e.dst := p.(nodes := p.nodes[k := Receive(p.nodes[k], e.pkt)])])
    case Finish(i) =>
      var p := s.peers[i];
      s.(peers := s.peers[i := Advance(p)],
         waiting := s.waiting[i := false],
         returned := s.returned[i := s.returned[i] + [Collect(p.nodes)]])
  }

  /** Every action in turn is possible, starting from `s`. */
  ghost predicate IsRun(c: Config, s: System, acts: seq<Action>)
    decreases |acts|
  {
    && ValidConfig(c) && Shape(c, s)
    && (acts == [] || (Enabled(c, s, acts[0]) && IsRun(c, Next(c, s, acts[0]), acts[1..])))
  }

  ghost function After(c: Config, s: System, acts: seq<Action>): (r: System)
    requires ValidConfig(c) && Shape(c, s) && IsRun(c, s, acts)
    ensures Shape(c, r)
    decreases |acts|
  {
    if acts == [] then s else After(c, Next(c, s, acts[0]), acts[1..])
  }

  /** Node of peer i that stands for peer j. */
  function NodeFor(c: Config, s: System, i: nat, j: nat): Node
    requires ValidConfig(c) && Shape(c, s) && i < c.n && j < c.n
  {
    s.peers[i].nodes[c.nodeOf[i][j]]
  }

  function Gametic(s: System, i: nat): nat
    requires i < |s.peers|
  {
    s.peers[i].gametic
  }

  /** Peer i's command stream: DELAY-1 zeros and then its arguments in order. */
  function Stream(c: Config, s: System, i: nat): seq<Cmd>
    requires 0 < c.delay && i < |s.asked|
  {
    Zeros(c.delay - 1) + s.asked[i]
  }

  // ------------------------------------------------------------------------------------
  // Configurations.

  /** The peers from i on, in a circle. */
  function PeersFrom(n: nat, i: nat): (r: seq<nat>)
    ensures |r| == n
  {
    seq(n, k requires 0 <= k < n => if i + k < n then i + k else i + k - n)
  }

  /** How far each peer is from i. */
  function NodesFrom(n: nat, i: nat): (r: seq<nat>)
    requires i < n
    ensures |r| == n
  {
    seq(n, j requires 0 <= j < n => if i <= j then j - i else n + j - i)
  }

  /** Every peer numbers the others in a circle that starts at itself. */
  function Circle(delay: nat, maxDelay: nat, player: seq<nat>): Config {
    var n := |player|;
    Config(delay, maxDelay, n, seq(n, i requires 0 <= i < n => PeersFrom(n, i)),
           seq(n, i requires 0 <= i < n => NodesFrom(n, i)), player)
  }

  lemma ThereAndBack(n: nat, i: nat, j: nat)
    requires i < n && j < n
    ensures PeersFrom(n, i)[j] < n && NodesFrom(n, i)[PeersFrom(n, i)[j]] == j
    ensures NodesFrom(n, i)[j] < n && PeersFrom(n, i)[NodesFrom(n, i)[j]] == j
    ensures NodesFrom(n, i)[i] == 0
  {
  }

  /** What the theorems about N peers ask of a configuration is met for every number of peers
      that InitProtocol allows and every seating, with DELAY 4 and MAX_DELAY 16 and with any
      other two that leave as much room. */
  lemma CirclesAreValid(delay: nat, maxDelay: nat, player: seq<nat>)
    requires 2 <= |player| <= 4 && forall i :: 0 <= i < |player| ==> player[i] < 4
    requires forall i, j :: 0 <= i < j < |player| ==> player[i] != player[j]
    ensures ValidConfig(Circle(4, 16, player))
    ensures 2 <= delay && 2 * delay <= maxDelay ==> ValidConfig(Circle(delay, maxDelay, player))
  {
    var c := Circle(delay, maxDelay, player);
    forall i, j | 0 <= i < c.n && 0 <= j < c.n
      ensures c.nodeOf[i][j] < c.n && c.peerAt[i][c.nodeOf[i][j]] == j
           && c.peerAt[i][j] < c.n && c.nodeOf[i][c.peerAt[i][j]] == j
    {
      ThereAndBack(c.n, i, j);
    }
    forall i | 0 <= i < c.n ensures c.nodeOf[i][i] == 0 { ThereAndBack(c.n, i, 0); }
    assert Circle(4, 16, player) == c.(delay := 4, maxDelay := 16);
  }
}
