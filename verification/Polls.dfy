/** What the loops of protocol.c do to a peer's state, as folds of single steps: one
    ReceivePackets call, the wait loop of SwapCommand, and the packets they send. */
module Polls {
  import opened Seqs
  import opened Windows
  import opened Peers

  /** A packet to or from the peer behind `node`. */
  datatype Frame = Frame(node: nat, pkt: Packet)

  /** What one ReceivePackets call meets: the nodes whose last send is over a second old
      and the packets the driver hands over. */
  datatype Poll = Poll(due: set<nat>, arrivals: seq<Frame>)

  ghost predicate ArrivalsFrom(arrivals: seq<Frame>, n: nat) {
    forall a :: a in arrivals ==> a.node < n
  }

  /** The driver names no node that is not in use. */
  ghost predicate FromNodes(polls: seq<Poll>, n: nat) {
    forall u :: 0 <= u < |polls| ==> ArrivalsFrom(polls[u].arrivals, n)
  }

  /** What SwapCommand comes to: the guard refuses, the wait loop is still spinning when the
      polls run out, or it ends after `polls` of them with a command vector. */
  datatype SwapOutcome = Refused | Blocked | Completed(polls: nat, cmds: seq<Cmd>)

  function ReceiveAt(p: Peer, k: nat, pkt: Packet): (r: Peer)
    ensures |r.nodes| == |p.nodes|
  {
    if k < |p.nodes| then p.(nodes := p.nodes[k := Receive(p.nodes[k], pkt)]) else p
  }

  function ReceiveAll(p: Peer, arrivals: seq<Frame>): (r: Peer)
    ensures |r.nodes| == |p.nodes|
  {
    if arrivals == [] then p
    else
      var last := arrivals[|arrivals| - 1];
      ReceiveAt(ReceiveAll(p, arrivals[..|arrivals| - 1]), last.node, last.pkt)
  }

  /** The state after the wait loop has polled these times. */
  function Waited(p: Peer, polls: seq<Poll>): (r: Peer)
    ensures |r.nodes| == |p.nodes|
  {
    if polls == [] then p
    else ReceiveAll(Waited(p, polls[..|polls| - 1]), polls[|polls| - 1].arrivals)
  }

  function OwnPacket(p: Peer, k: nat): Packet
    requires k < |p.nodes|
  {
    MakePacket(p.nodes[k], p.nodes[0].player % 256)
  }

  /** The packets CheckResends sends, in node order. */
  function Resends(p: Peer, due: set<nat>, upto: nat): seq<Frame>
    requires upto <= |p.nodes|
  {
    if upto <= 1 then []
    else Resends(p, due, upto - 1) + if upto - 1 in due then [Frame(upto - 1, OwnPacket(p, upto - 1))] else []
  }

  /** The packets the push loop sends. */
  function PushSends(p: Peer, cmd: Cmd, upto: nat): seq<Frame>
    requires upto <= |p.nodes|
  {
    if upto == 0 then []
    else PushSends(p, cmd, upto - 1)
         + if SendsTo(p, upto - 1) then [Frame(upto - 1, OwnPacket(PushAll(p, cmd), upto - 1))] else []
  }

  /** The packets the wait loop sends. */
  function WaitSends(p: Peer, polls: seq<Poll>): seq<Frame> {
    if polls == [] then []
    else
      var front := polls[..|polls| - 1];
      WaitSends(p, front) + Resends(Waited(p, front), polls[|polls| - 1].due, |p.nodes|)
  }

  /** What array bounds ask of a push at node k; the source tests nothing of the kind. */
  predicate PushFits(p: Peer, k: nat, maxDelay: nat)
    requires k < |p.nodes|
  {
    p.maketic - (if k == 0 then p.nodes[k].recv.start else p.nodes[k].send.start) <= maxDelay
  }

  /** No node set was complete before poll number `upto`. */
  ghost predicate BusyFor(q: Peer, polls: seq<Poll>, upto: nat)
    requires upto <= |polls|
  {
    forall u :: 0 <= u < upto ==> !NewTicReady(Waited(q, polls[..u]))
  }

  /** What one SwapCommand call comes to: from state `p` to state `r`, with outcome `out` and
      the packets `sent`, if its wait loop's polls meet `polls`. */
  ghost predicate SwapResult(p: Peer, maxDelay: nat, cmd: Cmd, polls: seq<Poll>,
                             out: SwapOutcome, sent: seq<Frame>, r: Peer)
  {
    if TooFarAhead(p, maxDelay) then
      out == Refused && r == p && sent == []
    else
      var used := if out.Completed? then out.polls else |polls|;
      var q := PushAll(p, cmd);
      && used <= |polls|
      && sent == PushSends(p, cmd, |p.nodes|) + WaitSends(q, polls[..used])
      && BusyFor(q, polls, used)
      && var w := Waited(q, polls[..used]);
         if NewTicReady(w) then out == Completed(used, Collect(w.nodes)) && r == Advance(w)
         else out == Blocked && r == w
  }

  // ------------------------------------------------------------------------------------
  // The loops over nodes, half way.

  ghost predicate PartlyPushed(p: Peer, cmd: Cmd, i: nat, m: Peer) {
    && |m.nodes| == |p.nodes| && m.maketic == p.maketic && m.gametic == p.gametic
    && (forall k :: 0 <= k < i && k < |p.nodes| ==> m.nodes[k] == Pushed(p.nodes[k], k, p.maketic, cmd))
    && (forall k :: i <= k < |p.nodes| ==> m.nodes[k] == p.nodes[k])
  }

  lemma PushedOneMore(p: Peer, cmd: Cmd, i: nat, m: Peer)
    requires PartlyPushed(p, cmd, i, m) && i < |p.nodes|
    ensures var r := m.(nodes := m.nodes[i := Pushed(m.nodes[i], i, m.maketic, cmd)]);
      && PartlyPushed(p, cmd, i + 1, r)
      && PushSends(p, cmd, i + 1)
         == PushSends(p, cmd, i) + if SendsTo(m, i) then [Frame(i, OwnPacket(r, i))] else []
    ensures forall maxDelay :: PushFits(m, i, maxDelay) == PushFits(p, i, maxDelay)
  {
  }

  lemma AllPushed(p: Peer, cmd: Cmd, m: Peer)
    requires PartlyPushed(p, cmd, |p.nodes|, m)
    ensures m == PushAll(p, cmd)
  {
    assert m.nodes == PushAll(p, cmd).nodes;
  }

  ghost predicate PartlyConsumed(p: Peer, i: nat, m: Peer)
    requires NewTicReady(p)
  {
    && |m.nodes| == |p.nodes| && m.maketic == p.maketic && m.gametic == p.gametic
    && (forall k :: 0 <= k < i && k < |p.nodes| ==> m.nodes[k] == Consumed(p.nodes[k]))
    && (forall k :: i <= k < |p.nodes| ==> m.nodes[k] == p.nodes[k])
  }

  lemma ConsumedOneMore(p: Peer, i: nat, m: Peer)
    requires NewTicReady(p) && PartlyConsumed(p, i, m) && i < |p.nodes|
    ensures m.nodes[i].recv.len > 0
    ensures PartlyConsumed(p, i + 1, m.(nodes := m.nodes[i := Consumed(m.nodes[i])]))
    ensures Collect(p.nodes[..i + 1]) == Taken(Collect(p.nodes[..i]), m.nodes[i])
  {
    assert p.nodes[..i + 1][..i] == p.nodes[..i];
  }

  lemma AllConsumed(p: Peer, m: Peer)
    requires NewTicReady(p) && PartlyConsumed(p, |p.nodes|, m)
    ensures m == p.(nodes := Advance(p).nodes)
    ensures p.nodes[..|p.nodes|] == p.nodes
  {
    assert m.nodes == Advance(p).nodes;
  }

  lemma {:induction false} ReceivedOneMore(p: Peer, arrivals: seq<Frame>, i: nat)
    requires i < |arrivals|
    ensures ReceiveAll(p, arrivals[..i + 1])
         == ReceiveAt(ReceiveAll(p, arrivals[..i]), arrivals[i].node, arrivals[i].pkt)
  {
    PrefixOneMore(arrivals, i);
  }

  /** After `used` polls, none of which began with every node ready, the wait that began at q
      has come to p and sent `sent`. */
  ghost predicate WaitedFor(q: Peer, polls: seq<Poll>, used: nat, p: Peer, sent: seq<Frame>) {
    && used <= |polls|
    && p == Waited(q, polls[..used]) && sent == WaitSends(q, polls[..used])
    && BusyFor(q, polls, used)
  }

  lemma WaitBegins(q: Peer, polls: seq<Poll>)
    ensures WaitedFor(q, polls, 0, q, [])
  {
  }

  lemma {:induction false} WaitGoesOn(q: Peer, polls: seq<Poll>, used: nat, p: Peer, sent: seq<Frame>)
    requires WaitedFor(q, polls, used, p, sent) && used < |polls| && !NewTicReady(p)
    ensures WaitedFor(q, polls, used + 1, ReceiveAll(p, polls[used].arrivals),
                      sent + Resends(p, polls[used].due, |p.nodes|))
  {
    PrefixOneMore(polls, used);
  }

  lemma SwapRefuses(p: Peer, maxDelay: nat, cmd: Cmd, polls: seq<Poll>)
    requires TooFarAhead(p, maxDelay)
    ensures SwapResult(p, maxDelay, cmd, polls, Refused, [], p)
  {
  }

  /** How a whole call ends, from how its wait has ended. */
  lemma {:induction false} SwapEnds(p: Peer, maxDelay: nat, cmd: Cmd, polls: seq<Poll>, used: nat, w: Peer, resent: seq<Frame>)
    requires !TooFarAhead(p, maxDelay)
    requires WaitedFor(PushAll(p, cmd), polls, used, w, resent) && (NewTicReady(w) || used == |polls|)
    ensures var sent := PushSends(p, cmd, |p.nodes|) + resent;
      if NewTicReady(w) then SwapResult(p, maxDelay, cmd, polls, Completed(used, Collect(w.nodes)), sent, Advance(w))
      else SwapResult(p, maxDelay, cmd, polls, Blocked, sent, w)
  {
  }

  // ------------------------------------------------------------------------------------
  // The order in which things happen.

  lemma {:induction false} ReceiveFirst(p: Peer, a: Frame, rest: seq<Frame>)
    ensures ReceiveAll(p, [a] + rest) == ReceiveAll(ReceiveAt(p, a.node, a.pkt), rest)
  {
    if rest == [] {
      EmptyConcat([a]);
      FrontOfOne(a);
      assert ReceiveAll(p, []) == p;
    } else {
      ReceiveFirst(p, a, rest[..|rest| - 1]);
      FrontOfConcat([a], rest);
    }
  }

  lemma {:induction false} WaitFirst(p: Peer, u: Poll, rest: seq<Poll>)
    ensures Waited(p, [u] + rest) == Waited(ReceiveAll(p, u.arrivals), rest)
    ensures WaitSends(p, [u] + rest) == Resends(p, u.due, |p.nodes|) + WaitSends(ReceiveAll(p, u.arrivals), rest)
  {
    var q := ReceiveAll(p, u.arrivals);
    if rest == [] {
      EmptyConcat([u]);
      FrontOfOne(u);
      assert Waited(p, []) == p && WaitSends(p, []) == [];
      EmptyConcat(Resends(p, u.due, |p.nodes|));
    } else {
      var front, last := rest[..|rest| - 1], rest[|rest| - 1];
      WaitFirst(p, u, front);
      FrontOfConcat([u], rest);
      ConcatThree(Resends(p, u.due, |p.nodes|), WaitSends(q, front), Resends(Waited(q, front), last.due, |p.nodes|));
    }
  }

  /** A wait takes its polls in order; each poll sends its resends, made before anything it
      receives, and then takes its arrivals in order, each at the node the driver names. */
  lemma {:induction false} WaitInOrder(p: Peer, due: set<nat>, a: Frame, arrivals: seq<Frame>, rest: seq<Poll>)
    requires a.node < |p.nodes|
    ensures Waited(p, []) == p && WaitSends(p, []) == []
    ensures var q := ReceiveAll(p.(nodes := p.nodes[a.node := Receive(p.nodes[a.node], a.pkt)]), arrivals);
      && Waited(p, [Poll(due, [a] + arrivals)] + rest) == Waited(q, rest)
      && WaitSends(p, [Poll(due, [a] + arrivals)] + rest) == Resends(p, due, |p.nodes|) + WaitSends(q, rest)
  {
    ReceiveFirst(p, a, arrivals);
    WaitFirst(p, Poll(due, [a] + arrivals), rest);
  }

  // ------------------------------------------------------------------------------------
  // Which packets are sent.

  ghost predicate InNodeOrder(frames: seq<Frame>) {
    forall a, b :: 0 <= a < b < |frames| ==> frames[a].node < frames[b].node
  }

  /** CheckResends sends one packet, made then, to every overdue node but the loopback, in node
      order, and nothing else. */
  lemma {:induction false} ResendsMean(p: Peer, due: set<nat>, upto: nat)
    requires upto <= |p.nodes|
    ensures forall f :: f in Resends(p, due, upto) <==>
      1 <= f.node < upto && f.node in due && f.pkt == OwnPacket(p, f.node)
    ensures InNodeOrder(Resends(p, due, upto))
  {
    if upto > 1 { ResendsMean(p, due, upto - 1); }
  }

  /** The push loop sends one packet to every node whose send window it has grown, made after
      the push, in node order, and nothing else. */
  lemma {:induction false} PushSendsMean(p: Peer, cmd: Cmd, upto: nat)
    requires upto <= |p.nodes|
    ensures forall f :: f in PushSends(p, cmd, upto) <==>
      f.node < upto && SendsTo(p, f.node) && f.pkt == OwnPacket(PushAll(p, cmd), f.node)
    ensures InNodeOrder(PushSends(p, cmd, upto))
  {
    if upto > 0 { PushSendsMean(p, cmd, upto - 1); }
  }

  /** What one SwapCommand call comes to is settled by its state, its argument and what its
      polls meet: it stops at the first moment every node has a command. */
  lemma {:induction false} SwapIsDetermined(p: Peer, maxDelay: nat, cmd: Cmd, polls: seq<Poll>,
                                            out: SwapOutcome, sent: seq<Frame>, r: Peer,
                                            out': SwapOutcome, sent': seq<Frame>, r': Peer)
    requires SwapResult(p, maxDelay, cmd, polls, out, sent, r)
    requires SwapResult(p, maxDelay, cmd, polls, out', sent', r')
    ensures out == out' && sent == sent' && r == r'
  {
  }
}
