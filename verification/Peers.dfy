/** One peer's whole protocol state (the static variables of protocol.c) and what each
    piece of SwapCommand and ReceivePackets does to it, as functions on values. */
module Peers {
  import opened Windows

  /** nodes[0] is the peer itself: its receive window is the local loopback. */
  datatype Peer = Peer(nodes: seq<Node>, maketic: nat, gametic: nat)

  /** InitProtocol over zero-initialised static storage. */
  function InitialPeer(numNodes: nat, delay: nat, maxDelay: nat, player: nat): Peer
    requires 0 < delay
  {
    var send := Window(0, delay - 1, Zeros(maxDelay));
    var recv := Window(0, 0, Zeros(maxDelay));
    Peer(seq(numNodes, k => Node(send, recv, if k == 0 then player else -1)), delay, 0)
  }

  /** What InitProtocol leaves of a node: contents and the receive window's start stay. */
  function ResetNode(n: Node, delay: nat, player: int): Node
    requires 0 < delay
  {
    Node(Window(0, delay - 1, n.send.slots), Window(n.recv.start, 0, n.recv.slots), player)
  }

  /** A node of zero-initialised static storage. */
  function StaticNode(maxDelay: nat): Node {
    Node(Window(0, 0, Zeros(maxDelay)), Window(0, 0, Zeros(maxDelay)), 0)
  }

  /** The guard of SwapCommand that would make it return false. */
  predicate TooFarAhead(p: Peer, maxDelay: nat) {
    p.maketic - p.gametic >= maxDelay
  }

  /** Node `k` after the push loop: the loopback grows its receive window, the others
      their send window. */
  function Pushed(n: Node, k: nat, maketic: nat, cmd: Cmd): Node {
    if k == 0 then n.(recv := Extend(n.recv, maketic, cmd))
    else n.(send := Extend(n.send, maketic, cmd))
  }

  function PushAll(p: Peer, cmd: Cmd): (r: Peer)
    ensures |r.nodes| == |p.nodes|
  {
    p.(nodes := seq(|p.nodes|, k requires 0 <= k < |p.nodes| => Pushed(p.nodes[k], k, p.maketic, cmd)))
  }

  /** Whether the push loop also sends to node `k`. */
  predicate SendsTo(p: Peer, k: nat)
    requires k < |p.nodes|
  {
    k != 0 && p.maketic - p.nodes[k].send.start > p.nodes[k].send.len
  }

  predicate NewTicReady(p: Peer) {
    forall k :: 0 <= k < |p.nodes| ==> p.nodes[k].recv.len > 0
  }

  /** The vector `v` with the entry of node n's player replaced by the first command of its
      receive window, if the player is known. */
  function Taken(v: seq<Cmd>, n: Node): (r: seq<Cmd>)
    ensures |r| == |v|
  {
    if 0 <= n.player < |v| && |n.recv.slots| > 0 then v[n.player := n.recv.slots[0]] else v
  }

  /** The command vector a tic yields. */
  function Collect(nodes: seq<Node>): (r: seq<Cmd>)
    ensures |r| == MAX_PLAYERS
  {
    if nodes == [] then Zeros(MAX_PLAYERS)
    else Taken(Collect(nodes[..|nodes| - 1]), nodes[|nodes| - 1])
  }

  function Consumed(n: Node): Node
    requires n.recv.len > 0
  {
    if n.player == -1 then n else n.(recv := Trim(n.recv, 1))
  }

  /** Consume one tic from every node. */
  function Advance(p: Peer): (r: Peer)
    requires NewTicReady(p)
    ensures |r.nodes| == |p.nodes|
  {
    Peer(seq(|p.nodes|, k requires 0 <= k < |p.nodes| => Consumed(p.nodes[k])),
         p.maketic + 1, p.gametic + 1)
  }

  lemma AdvanceCounts(p: Peer)
    requires NewTicReady(p)
    ensures Advance(p) == Peer(Advance(p).nodes, p.maketic + 1, p.gametic + 1)
  {
  }

  /** When every node knows its player and no two share one, each player's entry is the
      first command of that player's window and every other entry is 0. */
  lemma {:induction false} CollectSpec(nodes: seq<Node>)
    requires forall k :: 0 <= k < |nodes| ==> 0 <= nodes[k].player < MAX_PLAYERS && |nodes[k].recv.slots| > 0
    requires forall j, k :: 0 <= j < k < |nodes| ==> nodes[j].player != nodes[k].player
    ensures forall k :: 0 <= k < |nodes| ==> Collect(nodes)[nodes[k].player] == nodes[k].recv.slots[0]
    ensures forall p | 0 <= p < MAX_PLAYERS && (forall k :: 0 <= k < |nodes| ==> nodes[k].player != p) ::
      Collect(nodes)[p] == 0
  {
    if nodes != [] {
      var front := nodes[..|nodes| - 1];
      CollectSpec(front);
      forall p | 0 <= p < MAX_PLAYERS && (forall k :: 0 <= k < |nodes| ==> nodes[k].player != p)
        ensures Collect(nodes)[p] == 0
      {
        assert forall k :: 0 <= k < |front| ==> front[k] == nodes[k];
        assert nodes[|nodes| - 1].player != p;
      }
      forall k | 0 <= k < |nodes| - 1
        ensures Collect(nodes)[nodes[k].player] == nodes[k].recv.slots[0]
      {
        assert front[k] == nodes[k];
        assert nodes[k].player != nodes[|nodes| - 1].player;
      }
    }
  }

  /** Node n has a command for player p. */
  predicate Gives(n: Node, p: nat) {
    n.player == p && |n.recv.slots| > 0
  }

  /** Whatever players the nodes have: a player's entry comes from the last node that has a
      command for it, and is 0 if there is none. */
  lemma {:induction false} CollectAny(nodes: seq<Node>, p: nat)
    requires p < 4
    ensures (forall k :: 0 <= k < |nodes| ==> !Gives(nodes[k], p)) ==> Collect(nodes)[p] == 0
    ensures forall k :: 0 <= k < |nodes| && Gives(nodes[k], p) && (forall j :: k < j < |nodes| ==> !Gives(nodes[j], p)) ==>
      Collect(nodes)[p] == nodes[k].recv.slots[0]
  {
    if nodes != [] {
      var front, last := nodes[..|nodes| - 1], nodes[|nodes| - 1];
      assert nodes == front + [last];
      CollectAny(front, p);
    }
  }

  /** Consuming a tic takes the first command from every node with a known player, nothing from
      the others, and counts one in both counters. */
  lemma AdvanceSpec(p: Peer, k: nat)
    requires NewTicReady(p) && k < |p.nodes| && p.nodes[k].recv.Fits()
    ensures var r, n := Advance(p), p.nodes[k];
      && |r.nodes| == |p.nodes| && r.maketic == p.maketic + 1 && r.gametic == p.gametic + 1
      && r.nodes[k].player == n.player && r.nodes[k].send == n.send
      && (if n.player == -1 then r.nodes[k].recv == n.recv
          else r.nodes[k].recv.start == n.recv.start + 1 && r.nodes[k].recv.Live() == n.recv.Live()[1..])
  {
  }

  /** SwapCommand refuses exactly when its push would fill the loopback window up. */
  lemma RefusesWhenFull(p: Peer, cmd: Cmd, maxDelay: nat)
    requires p.nodes != [] && p.nodes[0].recv.start == p.gametic && p.nodes[0].recv.End() < p.maketic
    ensures TooFarAhead(p, maxDelay) <==> PushAll(p, cmd).nodes[0].recv.len >= maxDelay
  {
  }

  /** Only over zeroed storage are the commands a reset node starts with zeros: they are
      whatever its first slots held. */
  lemma ResetKeepsSlots(n: Node, delay: nat, player: int)
    requires 0 < delay <= |n.send.slots|
    ensures var r := ResetNode(n, delay, player);
      && r.player == player && r.send.start == 0 && r.send.Live() == n.send.slots[..delay - 1]
      && r.recv.start == n.recv.start && r.recv.Live() == []
      && r.send.slots == n.send.slots && r.recv.slots == n.recv.slots
  {
  }
}
