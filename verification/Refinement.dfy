/** A call of the C function SwapCommand, with everything its wait loop meets and whatever the
    other peers do meanwhile, is a run of the N-peer system. What Protocol.Endpoint is proved
    to do is thereby covered by the guarantees over runs. */
module Refinement {
  import opened Seqs
  import opened Windows
  import opened Peers
  import opened Polls
  import opened Lockstep
  import opened Invariant
  import opened Guarantees
  import opened Progress

  /** What peer i puts into the network by sending these. */
  function Sent(c: Config, i: nat, frames: seq<Frame>): set<Envelope>
    requires ValidConfig(c) && i < c.n
  {
    set f | f in frames && f.node < c.n :: Envelope(i, c.peerAt[i][f.node], f.pkt)
  }

  lemma SentSplits(c: Config, i: nat, a: seq<Frame>, b: seq<Frame>)
    requires ValidConfig(c) && i < c.n
    ensures Sent(c, i, a + b) == Sent(c, i, a) + Sent(c, i, b)
  {
  }

  lemma SentOne(c: Config, i: nat, f: Frame)
    requires ValidConfig(c) && i < c.n && f.node < c.n
    ensures Sent(c, i, [f]) == {Envelope(i, c.peerAt[i][f.node], f.pkt)}
  {
    assert f in [f];
  }

  // ------------------------------------------------------------------------------------
  // What ReceivePackets calls do, step by step.

  /** One step of a peer inside ReceivePackets. */
  datatype Mine = Overdue(k: nat) | Arrives(frame: Frame)

  function ResendSteps(due: set<nat>, upto: nat): seq<Mine> {
    if upto <= 1 then []
    else ResendSteps(due, upto - 1) + if upto - 1 in due then [Overdue(upto - 1)] else []
  }

  function TakeSteps(arrivals: seq<Frame>): seq<Mine> {
    if arrivals == [] then []
    else TakeSteps(arrivals[..|arrivals| - 1]) + [Arrives(arrivals[|arrivals| - 1])]
  }

  /** One call's steps: first the resends that are due, in node order, then the arrivals. */
  function PollSteps(poll: Poll, n: nat): seq<Mine> {
    ResendSteps(poll.due, n) + TakeSteps(poll.arrivals)
  }

  /** The steps of a whole wait. */
  function WaitSteps(polls: seq<Poll>, n: nat): seq<Mine> {
    if polls == [] then []
    else WaitSteps(polls[..|polls| - 1], n) + PollSteps(polls[|polls| - 1], n)
  }

  /** What such steps make of the peer. */
  function AfterMine(p: Peer, mine: seq<Mine>): (r: Peer)
    ensures |r.nodes| == |p.nodes|
  {
    if mine == [] then p
    else
      var q, last := AfterMine(p, mine[..|mine| - 1]), mine[|mine| - 1];
      match last
      case Overdue(_) => q
      case Arrives(frame) => ReceiveAt(q, frame.node, frame.pkt)
  }

  /** What it sends by them. */
  function MineSends(p: Peer, mine: seq<Mine>): seq<Frame> {
    if mine == [] then []
    else
      var front, last := mine[..|mine| - 1], mine[|mine| - 1];
      MineSends(p, front) + StepSends(AfterMine(p, front), last)
  }

  function StepSends(p: Peer, m: Mine): seq<Frame> {
    if m.Overdue? && m.k < |p.nodes| then [Frame(m.k, OwnPacket(p, m.k))] else []
  }

  lemma {:induction false} StepsThenSteps(p: Peer, a: seq<Mine>, b: seq<Mine>)
    ensures AfterMine(p, a + b) == AfterMine(AfterMine(p, a), b)
    ensures MineSends(p, a + b) == MineSends(p, a) + MineSends(AfterMine(p, a), b)
  {
    if b == [] {
      assert a + b == a;
    } else {
      var front, last := b[..|b| - 1], b[|b| - 1];
      assert (a + b)[..|a + b| - 1] == a + front && (a + b)[|a + b| - 1] == last;
      StepsThenSteps(p, a, front);
    }
  }

  lemma {:induction false} ResendStepsMean(p: Peer, due: set<nat>, upto: nat)
    requires upto <= |p.nodes|
    ensures AfterMine(p, ResendSteps(due, upto)) == p
    ensures MineSends(p, ResendSteps(due, upto)) == Resends(p, due, upto)
  {
    if upto > 1 {
      ResendStepsMean(p, due, upto - 1);
      var front := ResendSteps(due, upto - 1);
      if upto - 1 in due {
        assert (front + [Overdue(upto - 1)])[..|front|] == front;
      } else {
        assert front + [] == front;
      }
    }
  }

  lemma {:induction false} TakeStepsMean(p: Peer, arrivals: seq<Frame>)
    ensures AfterMine(p, TakeSteps(arrivals)) == ReceiveAll(p, arrivals)
    ensures MineSends(p, TakeSteps(arrivals)) == []
  {
    if arrivals != [] {
      var front := TakeSteps(arrivals[..|arrivals| - 1]);
      TakeStepsMean(p, arrivals[..|arrivals| - 1]);
      assert TakeSteps(arrivals)[..|TakeSteps(arrivals)| - 1] == front;
    }
  }

  lemma {:induction false} PollStepsMean(p: Peer, poll: Poll)
    ensures AfterMine(p, PollSteps(poll, |p.nodes|)) == ReceiveAll(p, poll.arrivals)
    ensures MineSends(p, PollSteps(poll, |p.nodes|)) == Resends(p, poll.due, |p.nodes|)
  {
    ResendStepsMean(p, poll.due, |p.nodes|);
    TakeStepsMean(p, poll.arrivals);
    StepsThenSteps(p, ResendSteps(poll.due, |p.nodes|), TakeSteps(poll.arrivals));
  }

  lemma {:induction false} WaitStepsMean(p: Peer, polls: seq<Poll>)
    ensures AfterMine(p, WaitSteps(polls, |p.nodes|)) == Waited(p, polls)
    ensures MineSends(p, WaitSteps(polls, |p.nodes|)) == WaitSends(p, polls)
  {
    if polls != [] {
      var front, last := polls[..|polls| - 1], polls[|polls| - 1];
      WaitStepsMean(p, front);
      PollStepsMean(Waited(p, front), last);
      StepsThenSteps(p, WaitSteps(front, |p.nodes|), PollSteps(last, |p.nodes|));
    }
  }

  // ------------------------------------------------------------------------------------
  // The same steps among those of the other peers.

  /** A step of peer i and what the rest of the world does before it. */
  datatype Move = Move(others: seq<Action>, mine: Mine)

  function MinesOf(moves: seq<Move>): (r: seq<Mine>)
    ensures |r| == |moves|
  {
    seq(|moves|, k requires 0 <= k < |moves| => moves[k].mine)
  }

  /** What arrives has been sent by then. */
  ghost predicate MineOk(c: Config, s: System, i: nat, m: Mine)
    requires ValidConfig(c) && i < c.n
  {
    match m
    case Overdue(k) => 1 <= k < c.n
    case Arrives(frame) => 1 <= frame.node < c.n && Envelope(c.peerAt[i][frame.node], i, frame.pkt) in s.net
  }

  ghost function MineEffect(c: Config, s: System, i: nat, m: Mine): (r: System)
    requires ValidConfig(c) && Shape(c, s) && i < c.n && MineOk(c, s, i, m)
    ensures Shape(c, r)
  {
    match m
    case Overdue(k) => s.(net := s.net + Sent(c, i, [Frame(k, OwnPacket(s.peers[i], k))]))
    case Arrives(frame) => s.(peers := s.peers[i := ReceiveAt(s.peers[i], frame.node, frame.pkt)])
  }

  lemma MineIsAction(c: Config, s: System, i: nat, m: Mine) returns (a: Action)
    requires ValidConfig(c) && Shape(c, s) && i < c.n && MineOk(c, s, i, m)
    ensures Enabled(c, s, a) && Next(c, s, a) == MineEffect(c, s, i, m)
  {
    match m
    case Overdue(k) =>
      SentOne(c, i, Frame(k, OwnPacket(s.peers[i], k)));
      a := Resend(i, k);
    case Arrives(frame) =>
      a := Deliver(Envelope(c.peerAt[i][frame.node], i, frame.pkt));
  }

  /** Peer i's own part of the state, untouched by the others. */
  ghost predicate Untouched(c: Config, s: System, r: System, i: nat) {
    && ValidConfig(c) && Shape(c, s) && Shape(c, r) && i < c.n
    && r.peers[i] == s.peers[i] && r.waiting[i] == s.waiting[i]
    && r.asked[i] == s.asked[i] && r.returned[i] == s.returned[i]
  }

  /** The others can do this, and it leaves peer i alone. */
  ghost predicate OthersOk(c: Config, s: System, i: nat, others: seq<Action>) {
    && ValidConfig(c) && Shape(c, s) && i < c.n
    && IsRun(c, s, others) && Untouched(c, s, After(c, s, others), i)
  }

  /** The moves can happen: before every single step of peer i, a resend or an arrival, the
      others may do anything they can. */
  ghost predicate MovesOk(c: Config, s: System, i: nat, moves: seq<Move>)
    requires ValidConfig(c) && Shape(c, s) && i < c.n
    decreases |moves|, 0
  {
    moves == [] ||
    var front, last := moves[..|moves| - 1], moves[|moves| - 1];
    && MovesOk(c, s, i, front)
    && OthersOk(c, AfterMoves(c, s, i, front), i, last.others)
    && MineOk(c, After(c, AfterMoves(c, s, i, front), last.others), i, last.mine)
  }

  ghost function AfterMoves(c: Config, s: System, i: nat, moves: seq<Move>): (r: System)
    requires ValidConfig(c) && Shape(c, s) && i < c.n && MovesOk(c, s, i, moves)
    ensures Shape(c, r)
    decreases |moves|, 1
  {
    if moves == [] then s
    else
      var front, last := moves[..|moves| - 1], moves[|moves| - 1];
      MineEffect(c, After(c, AfterMoves(c, s, i, front), last.others), i, last.mine)
  }

  /** Peer i has gone from s to r by these steps of its own. */
  ghost predicate Went(c: Config, s: System, i: nat, mine: seq<Mine>, r: System) {
    && ValidConfig(c) && Shape(c, s) && Shape(c, r) && i < c.n
    && r.peers[i] == AfterMine(s.peers[i], mine)
    && r.waiting[i] == s.waiting[i] && r.asked[i] == s.asked[i] && r.returned[i] == s.returned[i]
    && s.net + Sent(c, i, MineSends(s.peers[i], mine)) <= r.net
  }

  lemma MoveIsRun(c: Config, s: System, i: nat, move: Move) returns (acts: seq<Action>)
    requires ValidConfig(c) && Shape(c, s) && i < c.n
    requires OthersOk(c, s, i, move.others) && MineOk(c, After(c, s, move.others), i, move.mine)
    ensures IsRun(c, s, acts)
    ensures After(c, s, acts) == MineEffect(c, After(c, s, move.others), i, move.mine)
  {
    var a := MineIsAction(c, After(c, s, move.others), i, move.mine);
    RunThenStep(c, s, move.others, a);
    acts := move.others + [a];
  }

  lemma {:induction false} WentOneMore(c: Config, s: System, i: nat, mine: seq<Mine>, t: System, move: Move)
    requires ValidConfig(c) && Shape(c, s) && Shape(c, t) && i < c.n && Went(c, s, i, mine, t)
    requires OthersOk(c, t, i, move.others) && MineOk(c, After(c, t, move.others), i, move.mine)
    ensures Went(c, s, i, mine + [move.mine], MineEffect(c, After(c, t, move.others), i, move.mine))
  {
    NetOnlyGrows(c, t, move.others);
    var all := mine + [move.mine];
    assert all[..|all| - 1] == mine;
    SentSplits(c, i, MineSends(s.peers[i], mine), StepSends(t.peers[i], move.mine));
  }

  lemma MinesOfLast(moves: seq<Move>)
    requires moves != []
    ensures MinesOf(moves) == MinesOf(moves[..|moves| - 1]) + [moves[|moves| - 1].mine]
  {
  }

  lemma {:induction false} LastMove(c: Config, s: System, i: nat, moves: seq<Move>)
    requires ValidConfig(c) && Shape(c, s) && i < c.n && MovesOk(c, s, i, moves) && moves != []
    ensures var front, last := moves[..|moves| - 1], moves[|moves| - 1];
      && MovesOk(c, s, i, front)
      && OthersOk(c, AfterMoves(c, s, i, front), i, last.others)
      && MineOk(c, After(c, AfterMoves(c, s, i, front), last.others), i, last.mine)
      && AfterMoves(c, s, i, moves) == MineEffect(c, After(c, AfterMoves(c, s, i, front), last.others), i, last.mine)
  {
  }

  /** Peer i comes out of a wait as its own steps say. */
  lemma {:induction false} MovesGo(c: Config, s: System, i: nat, moves: seq<Move>)
    requires ValidConfig(c) && Shape(c, s) && i < c.n && MovesOk(c, s, i, moves)
    ensures Went(c, s, i, MinesOf(moves), AfterMoves(c, s, i, moves))
    decreases |moves|
  {
    if moves != [] {
      var front, last := moves[..|moves| - 1], moves[|moves| - 1];
      LastMove(c, s, i, moves);
      MovesGo(c, s, i, front);
      WentOneMore(c, s, i, MinesOf(front), AfterMoves(c, s, i, front), last);
      MinesOfLast(moves);
    }
  }

  /** A wait is a run of the system. */
  lemma {:induction false} MovesAreRun(c: Config, s: System, i: nat, moves: seq<Move>) returns (acts: seq<Action>)
    requires ValidConfig(c) && Shape(c, s) && i < c.n && MovesOk(c, s, i, moves)
    ensures IsRun(c, s, acts) && After(c, s, acts) == AfterMoves(c, s, i, moves)
    decreases |moves|
  {
    acts := [];
    if moves != [] {
      LastMove(c, s, i, moves);
      var t := AfterMoves(c, s, i, moves[..|moves| - 1]);
      acts := MovesAreRun(c, s, i, moves[..|moves| - 1]);
      var more := MoveIsRun(c, t, i, moves[|moves| - 1]);
      RunThenRun(c, s, acts, more);
      acts := acts + more;
    }
  }

  /** These moves are what peer i's calls of ReceivePackets meet in these polls. */
  ghost predicate Meets(c: Config, s: System, i: nat, polls: seq<Poll>, moves: seq<Move>) {
    && ValidConfig(c) && Shape(c, s) && i < c.n
    && MinesOf(moves) == WaitSteps(polls, c.n) && MovesOk(c, s, i, moves)
  }

  /** Any number of ReceivePackets calls, with the other peers acting at any moment. */
  lemma PollsAreRun(c: Config, s: System, i: nat, polls: seq<Poll>, moves: seq<Move>) returns (acts: seq<Action>)
    requires ValidConfig(c) && Shape(c, s) && i < c.n && Meets(c, s, i, polls, moves)
    ensures IsRun(c, s, acts) && After(c, s, acts) == AfterMoves(c, s, i, moves)
    ensures var r := AfterMoves(c, s, i, moves);
      && r.peers[i] == Waited(s.peers[i], polls)
      && r.waiting[i] == s.waiting[i] && r.asked[i] == s.asked[i] && r.returned[i] == s.returned[i]
      && s.net + Sent(c, i, WaitSends(s.peers[i], polls)) <= r.net
  {
    acts := MovesAreRun(c, s, i, moves);
    MovesGo(c, s, i, moves);
    WaitStepsMean(s.peers[i], polls);
  }

  // ------------------------------------------------------------------------------------
  // A whole call.

  lemma {:induction false} PushSendsAreSent(c: Config, s: System, i: nat, cmd: Cmd)
    requires ValidConfig(c) && Shape(c, s) && i < c.n && !s.waiting[i] && !TooFarAhead(s.peers[i], c.maxDelay)
    ensures Sent(c, i, PushSends(s.peers[i], cmd, c.n)) <= Next(c, s, Begin(i, cmd)).net
  {
    var p := s.peers[i];
    PushSendsMean(p, cmd, c.n);
    forall e | e in Sent(c, i, PushSends(p, cmd, c.n)) ensures e in Next(c, s, Begin(i, cmd)).net {
      var f :| f in PushSends(p, cmd, c.n) && f.node < c.n && e == Envelope(i, c.peerAt[i][f.node], f.pkt);
      assert e == Datagram(c, i, PushAll(p, cmd), f.node);
    }
  }

  /** The polls a call has met when it comes to `out`. */
  function Used(out: SwapOutcome, polls: seq<Poll>): (r: seq<Poll>)
    ensures |r| <= |polls|
  {
    if out.Completed? && out.polls <= |polls| then polls[..out.polls] else polls
  }

  /** The world around a call of SwapCommand that comes to `out`: the moves of its wait, and
      what the others do between its last step and its return. */
  ghost predicate Around(c: Config, s: System, i: nat, cmd: Cmd, polls: seq<Poll>, out: SwapOutcome,
                         moves: seq<Move>, last: seq<Action>)
  {
    && ValidConfig(c) && Shape(c, s) && i < c.n && !s.waiting[i]
    && var t := Next(c, s, Begin(i, cmd));
    && Meets(c, t, i, Used(out, polls), moves)
    && OthersOk(c, AfterMoves(c, t, i, moves), i, last)
  }

  /** A push and a wait of any length. */
  lemma CallIsRun(c: Config, s: System, i: nat, cmd: Cmd, polls: seq<Poll>, out: SwapOutcome,
                  moves: seq<Move>, last: seq<Action>)
    returns (acts: seq<Action>)
    requires Inv(c, s) && i < c.n && !s.waiting[i] && Around(c, s, i, cmd, polls, out, moves, last)
    ensures !TooFarAhead(s.peers[i], c.maxDelay)
    ensures IsRun(c, Next(c, s, Begin(i, cmd)), acts)
    ensures var q, r := PushAll(s.peers[i], cmd), After(c, Next(c, s, Begin(i, cmd)), acts);
      && r.peers[i] == Waited(q, Used(out, polls)) && r.waiting[i]
      && r.asked[i] == s.asked[i] + [cmd] && r.returned[i] == s.returned[i]
      && s.net + Sent(c, i, PushSends(s.peers[i], cmd, c.n) + WaitSends(q, Used(out, polls))) <= r.net
  {
    BeginEffect(c, s, i, cmd);
    var t := Next(c, s, Begin(i, cmd));
    PushSendsAreSent(c, s, i, cmd);
    var wait := PollsAreRun(c, t, i, Used(out, polls), moves);
    NetOnlyGrows(c, AfterMoves(c, t, i, moves), last);
    RunThenRun(c, t, wait, last);
    acts := wait + last;
    SentSplits(c, i, PushSends(s.peers[i], cmd, c.n), WaitSends(t.peers[i], Used(out, polls)));
  }

  /** What a call that is not refused has come to, in terms of the polls it has met. */
  lemma {:induction false} SwapResultMeans(p: Peer, maxDelay: nat, cmd: Cmd, polls: seq<Poll>, out: SwapOutcome, sent: seq<Frame>, r: Peer)
    requires !TooFarAhead(p, maxDelay) && SwapResult(p, maxDelay, cmd, polls, out, sent, r)
    ensures var q := PushAll(p, cmd);
      var w := Waited(q, Used(out, polls));
      && sent == PushSends(p, cmd, |p.nodes|) + WaitSends(q, Used(out, polls))
      && !out.Refused?
      && (out.Completed? ==> NewTicReady(w) && out.cmds == Collect(w.nodes) && r == Advance(w))
      && (out.Blocked? ==> r == w)
  {
    WholePrefix(polls);
  }

  /** Whatever the method SwapCommand can come to in a reachable state, a run of the system
      comes to: the call asks for its command, what it sends gets into the network, and it
      either is still waiting or has returned its vector. */
  lemma SwapCommandIsRun(c: Config, s: System, i: nat, cmd: Cmd, polls: seq<Poll>,
                         moves: seq<Move>, last: seq<Action>, out: SwapOutcome, sent: seq<Frame>, p: Peer)
    returns (acts: seq<Action>)
    requires Reachable(c, s) && i < c.n && !s.waiting[i]
    requires SwapResult(s.peers[i], c.maxDelay, cmd, polls, out, sent, p)
    requires Around(c, s, i, cmd, polls, out, moves, last)
    ensures !out.Refused? && IsRun(c, s, acts)
    ensures var r := After(c, s, acts);
      && r.peers[i] == p
      && r.asked[i] == s.asked[i] + [cmd]
      && r.waiting[i] == out.Blocked?
      && r.returned[i] == s.returned[i] + (if out.Completed? then [out.cmds] else [])
      && s.net + Sent(c, i, sent) <= r.net
  {
    ReachableInv(c, s);
    BeginEffect(c, s, i, cmd);
    OneStep(c, s, Begin(i, cmd));
    var wait := CallIsRun(c, s, i, cmd, polls, out, moves, last);
    RunThenRun(c, s, [Begin(i, cmd)], wait);
    acts := [Begin(i, cmd)] + wait;
    SwapResultMeans(s.peers[i], c.maxDelay, cmd, polls, out, sent, p);
    if out.Completed? {
      RunThenStep(c, s, acts, Finish(i));
      acts := acts + [Finish(i)];
    }
  }
}
