/** A sector write of the C code, with everything its SwapCommand meets and whatever the other
    peers do meanwhile, is a story of the composed system. What FakeDisk.Drive is proved to
    do is thereby covered by the shared-log theorem. */
module DiskRefinement {
  import opened Seqs
  import opened Windows
  import opened Peers
  import opened Polls
  import opened Lockstep
  import opened Invariant
  import opened Guarantees
  import opened Refinement
  import opened Progress
  import opened Disks
  import opened FakeDisk
  import opened SharedLog

  lemma {:induction false} StoryThenStory(u: Setup, w: World, a: seq<Step>, b: seq<Step>)
    requires Fits(u, w) && IsStory(u, w, a) && IsStory(u, Ending(u, w, a), b)
    ensures IsStory(u, w, a + b) && Ending(u, w, a + b) == Ending(u, Ending(u, w, a), b)
    decreases |a|
  {
    if a == [] {
      EmptyConcat(b);
    } else {
      TailOfConcat(a, b);
      StoryThenStory(u, Take(u, w, a[0]), a[1..], b);
    }
  }

  lemma {:induction false} StoryOfOne(u: Setup, w: World, s: Step)
    requires Fits(u, w) && Possible(u, w, s)
    ensures IsStory(u, w, [s]) && Ending(u, w, [s]) == Take(u, w, s)
  {
    var rest := [s][1..];
    assert rest == [];
    assert IsStory(u, Take(u, w, s), rest) && Ending(u, Take(u, w, s), rest) == Take(u, w, s);
  }

  lemma {:induction false} StoryThenStep(u: Setup, w: World, steps: seq<Step>, s: Step)
    requires Fits(u, w) && IsStory(u, w, steps) && Possible(u, Ending(u, w, steps), s)
    ensures IsStory(u, w, steps + [s]) && Ending(u, w, steps + [s]) == Take(u, Ending(u, w, steps), s)
  {
    StoryOfOne(u, Ending(u, w, steps), s);
    StoryThenStory(u, w, steps, [s]);
  }

  /** Where a reached world's story leads is reached. */
  lemma {:induction false} ReachedOn(u: Setup, w: World, steps: seq<Step>)
    requires Reached(u, w) && IsStory(u, w, steps)
    ensures Reached(u, Ending(u, w, steps))
  {
    var before :| IsStory(u, PowerOn(u), before) && Ending(u, PowerOn(u), before) == w;
    StoryThenStory(u, PowerOn(u), before, steps);
  }

  /** Peer i's disk and its history are as they were. */
  ghost predicate SameDisk(u: Setup, w: World, r: World, i: nat) {
    && Fits(u, w) && Fits(u, r) && i < u.c.n
    && r.disks[i] == w.disks[i] && r.written[i] == w.written[i] && r.results[i] == w.results[i]
  }

  /** Every peer whose calls are the same at r as in w.net has the disk it had at w. */
  ghost predicate OtherDisksSame(u: Setup, w: World, r: World) {
    && Fits(u, w) && Fits(u, r)
    && forall i :: 0 <= i < u.c.n && r.net.asked[i] == w.net.asked[i] && r.net.returned[i] == w.net.returned[i] ==>
      SameDisk(u, w, r, i)
  }

  /** A peer asks for a command by writing its data sector, for the first time first if it
      has not yet done so. */
  lemma LiftBegin(u: Setup, w: World, j: nat, cmd: Cmd) returns (steps: seq<Step>)
    requires Fits(u, w) && Enabled(u.c, w.net, Begin(j, cmd)) && !TooFarAhead(w.net.peers[j], u.c.maxDelay)
    ensures IsStory(u, w, steps)
    ensures Ending(u, w, steps).net == Next(u.c, w.net, Begin(j, cmd)) && OtherDisksSame(u, w, Ending(u, w, steps))
  {
    var data := BLANK.(key := BLANK.key[u.c.player[j] := cmd]);
    steps := [];
    if w.disks[j].state == Init {
      StoryThenStep(u, w, steps, StartWrite(j, BLANK));
      steps := [StartWrite(j, BLANK)];
    }
    StoryThenStep(u, w, steps, StartWrite(j, data));
    steps := steps + [StartWrite(j, data)];
  }

  /** An action of the protocol is what some steps of the disks come to. */
  lemma LiftAction(u: Setup, w: World, a: Action) returns (steps: seq<Step>)
    requires Fits(u, w) && Enabled(u.c, w.net, a)
    ensures IsStory(u, w, steps)
    ensures Ending(u, w, steps).net == Next(u.c, w.net, a) && OtherDisksSame(u, w, Ending(u, w, steps))
  {
    match a
    case Begin(j, cmd) =>
      if TooFarAhead(w.net.peers[j], u.c.maxDelay) { return []; }
      steps := LiftBegin(u, w, j, cmd);
    case Finish(j) =>
      StoryOfOne(u, w, EndWrite(j));
      steps := [EndWrite(j)];
    case Resend(j, k) =>
      StoryOfOne(u, w, Traffic(a));
      steps := [Traffic(a)];
    case Deliver(e) =>
      StoryOfOne(u, w, Traffic(a));
      steps := [Traffic(a)];
  }

  lemma CallsGrowByStep(c: Config, s: System, a: Action, i: nat)
    requires ValidConfig(c) && Shape(c, s) && Enabled(c, s, a) && i < c.n
    ensures s.asked[i] <= Next(c, s, a).asked[i] && s.returned[i] <= Next(c, s, a).returned[i]
  {
  }

  lemma {:induction false} CallsGrow(c: Config, s: System, acts: seq<Action>, i: nat)
    requires ValidConfig(c) && Shape(c, s) && IsRun(c, s, acts) && i < c.n
    ensures s.asked[i] <= Lockstep.After(c, s, acts).asked[i] && s.returned[i] <= Lockstep.After(c, s, acts).returned[i]
    decreases |acts|
  {
    if acts != [] {
      CallsGrowByStep(c, s, acts[0], i);
      CallsGrow(c, Next(c, s, acts[0]), acts[1..], i);
    }
  }

  lemma SameDiskTwice(u: Setup, w: World, x: World, r: World)
    requires Fits(u, w) && Fits(u, x) && Fits(u, r)
    requires OtherDisksSame(u, w, x) && OtherDisksSame(u, x, r)
    requires forall i :: 0 <= i < u.c.n ==>
      w.net.asked[i] <= x.net.asked[i] <= r.net.asked[i] && w.net.returned[i] <= x.net.returned[i] <= r.net.returned[i]
    ensures OtherDisksSame(u, w, r)
  {
    forall i | 0 <= i < u.c.n && r.net.asked[i] == w.net.asked[i] && r.net.returned[i] == w.net.returned[i]
      ensures SameDisk(u, w, r, i)
    {
      assert x.net.asked[i] == w.net.asked[i] && x.net.returned[i] == w.net.returned[i];
      assert SameDisk(u, w, x, i) && SameDisk(u, x, r, i);
    }
  }

  /** Every run of the protocol is what some story of the disks above it comes to. */
  lemma {:induction false} LiftRun(u: Setup, w: World, acts: seq<Action>) returns (steps: seq<Step>)
    requires Fits(u, w) && IsRun(u.c, w.net, acts)
    ensures IsStory(u, w, steps)
    ensures Ending(u, w, steps).net == Lockstep.After(u.c, w.net, acts) && OtherDisksSame(u, w, Ending(u, w, steps))
    decreases |acts|
  {
    steps := [];
    if acts != [] {
      steps := LiftAction(u, w, acts[0]);
      var x := Ending(u, w, steps);
      var more := LiftRun(u, x, acts[1..]);
      forall i | 0 <= i < u.c.n
        ensures w.net.asked[i] <= x.net.asked[i] && w.net.returned[i] <= x.net.returned[i]
        ensures x.net.asked[i] <= Ending(u, x, more).net.asked[i] && x.net.returned[i] <= Ending(u, x, more).net.returned[i]
      {
        CallsGrowByStep(u.c, w.net, acts[0], i);
        CallsGrow(u.c, x.net, acts[1..], i);
      }
      SameDiskTwice(u, w, x, Ending(u, x, more));
      StoryThenStory(u, w, steps, more);
      steps := steps + more;
    }
  }

  /** No write hangs for good: from every world the peers can reach, whatever was lost so far,
      every one of them can still complete any number of writes. */
  lemma {:induction false} WritesCanComplete(u: Setup, w: World, goal: nat, input: (nat, nat) -> Cmd) returns (steps: seq<Step>)
    requires Reached(u, w)
    ensures IsStory(u, w, steps)
    ensures var r := Ending(u, w, steps);
      && Follows(u.c, w.net, r.net, input)
      && forall i :: 0 <= i < u.c.n ==> |r.results[i]| >= goal
  {
    ReachedInv(u, w);
    var acts := AdvanceTo(u.c, w.net, goal, input);
    steps := LiftRun(u, w, acts);
    StoryInv(u, w, steps);
    var r := Ending(u, w, steps);
    forall i | 0 <= i < u.c.n ensures |r.results[i]| >= goal {
      assert DiskOk(u, r, i) && PeerOk(u.c, r.net, i);
    }
  }

  function Commanded(u: Setup, i: nat, data: Multio): Cmd
    requires ValidSetup(u) && i < u.c.n
  {
    data.key[u.c.player[i]]
  }

  /** Peer i's write, begun at w, is still waiting at r. */
  ghost predicate StillWriting(u: Setup, w: World, i: nat, data: Multio, sent: seq<Frame>, p: Peer, r: World) {
    && Fits(u, w) && Fits(u, r) && i < u.c.n
    && r.written[i] == w.written[i] + [Commanded(u, i, data)] && r.results[i] == w.results[i]
    && r.disks[i] == AfterRefusal(w.disks[i], data)
    && r.net.peers[i] == p && r.net.waiting[i]
    && w.net.net + Sent(u.c, i, sent) <= r.net.net
  }

  /** Peer i's write, begun at w, has left at r the disk `after` and told the game `result`
      and `buffer`. */
  ghost predicate WriteCameTo(u: Setup, w: World, i: nat, data: Multio, sent: seq<Frame>, p: Peer,
                              after: Disk, result: WriteResult, buffer: Multio, r: World)
  {
    && Fits(u, w) && Fits(u, r) && i < u.c.n
    && r.written[i] == w.written[i] + [Commanded(u, i, data)]
    && r.results[i] == w.results[i] + (if result == Ok then [buffer] else [])
    && r.disks[i] == after && r.net.peers[i] == p
    && r.net.waiting[i] == (result == Hung) && result != Fail
    && w.net.net + Sent(u.c, i, sent) <= r.net.net
  }

  /** A write up to its wait and through a wait of any length. */
  lemma WaitIsStory(u: Setup, w: World, i: nat, data: Multio, polls: seq<Poll>, out: SwapOutcome,
                    moves: seq<Move>, last: seq<Action>)
    returns (steps: seq<Step>)
    requires WorldInv(u, w) && i < u.c.n && !w.net.waiting[i] && w.disks[i].state != Init
    requires Around(u.c, w.net, i, Commanded(u, i, data), polls, out, moves, last)
    ensures IsStory(u, w, steps)
    ensures var p, cmd := w.net.peers[i], Commanded(u, i, data);
      var sent := PushSends(p, cmd, u.c.n) + WaitSends(PushAll(p, cmd), Used(out, polls));
      StillWriting(u, w, i, data, sent, Waited(PushAll(p, cmd), Used(out, polls)), Ending(u, w, steps))
  {
    var cmd := Commanded(u, i, data);
    BeginEffect(u.c, w.net, i, cmd);
    StoryOfOne(u, w, StartWrite(i, data));
    var w1 := Take(u, w, StartWrite(i, data));
    var acts := CallIsRun(u.c, w.net, i, cmd, polls, out, moves, last);
    var more := LiftRun(u, w1, acts);
    assert SameDisk(u, w1, Ending(u, w1, more), i);
    StoryThenStory(u, w, [StartWrite(i, data)], more);
    steps := [StartWrite(i, data)] + more;
  }

  /** The end of a write whose wait is over. */
  lemma EndOfWrite(u: Setup, w: World, i: nat, data: Multio, sent: seq<Frame>, p: Peer, t: World)
    requires Fits(u, w) && Fits(u, t) && i < u.c.n
    requires StillWriting(u, w, i, data, sent, p, t) && NewTicReady(p)
    ensures Possible(u, t, EndWrite(i))
    ensures var after := AfterSwap(SeatOf(u, i), data, Collect(p.nodes));
      WriteCameTo(u, w, i, data, sent, Advance(p), after, Ok, after.multio, Take(u, t, EndWrite(i)))
  {
  }

  /** What a write by C code meets and comes to: the polls of its SwapCommand amid what the
      other peers do, the call's outcome, and the disk, result and buffer it leaves. */
  ghost predicate WriteHappens(u: Setup, w: World, i: nat, data: Multio, polls: seq<Poll>, moves: seq<Move>,
                               last: seq<Action>, out: SwapOutcome, sent: seq<Frame>, p: Peer,
                               after: Disk, result: WriteResult, buffer: Multio)
  {
    && Fits(u, w) && i < u.c.n && !w.net.waiting[i]
    && Around(u.c, w.net, i, Commanded(u, i, data), polls, out, moves, last)
    && SwapResult(w.net.peers[i], u.c.maxDelay, Commanded(u, i, data), polls, out, sent, p)
    && LaterWrite(SeatOf(u, i), w.disks[i], data, out, after, result, buffer)
  }

  /** How a write ends from the end of its wait, its call having come to `out`. */
  lemma WriteEnds(u: Setup, w: World, i: nat, data: Multio, out: SwapOutcome, sent: seq<Frame>, q: Peer, p: Peer,
                  after: Disk, result: WriteResult, buffer: Multio, steps: seq<Step>)
    returns (all: seq<Step>)
    requires Fits(u, w) && i < u.c.n && IsStory(u, w, steps) && StillWriting(u, w, i, data, sent, q, Ending(u, w, steps))
    requires LaterWrite(SeatOf(u, i), w.disks[i], data, out, after, result, buffer)
    requires !out.Refused?
    requires out.Completed? ==> NewTicReady(q) && out.cmds == Collect(q.nodes) && p == Advance(q)
    requires out.Blocked? ==> p == q
    ensures IsStory(u, w, all)
    ensures WriteCameTo(u, w, i, data, sent, p, after, result, buffer, Ending(u, w, all))
  {
    all := steps;
    if out.Completed? {
      EndOfWrite(u, w, i, data, sent, q, Ending(u, w, steps));
      StoryThenStep(u, w, steps, EndWrite(i));
      all := steps + [EndWrite(i)];
    } else {
      EmptyConcat(w.results[i]);
    }
  }

  /** Whatever the method WriteData can come to after its first call, a story comes to: the
      disk, the record left in the game's buffer and the packets sent are the same. */
  lemma WriteDataIsStory(u: Setup, w: World, i: nat, data: Multio, polls: seq<Poll>, moves: seq<Move>,
                         last: seq<Action>, out: SwapOutcome, sent: seq<Frame>, p: Peer,
                         after: Disk, result: WriteResult, buffer: Multio)
    returns (steps: seq<Step>)
    requires Reached(u, w) && i < u.c.n && !w.net.waiting[i] && w.disks[i].state != Init
    requires WriteHappens(u, w, i, data, polls, moves, last, out, sent, p, after, result, buffer)
    ensures IsStory(u, w, steps) && Reached(u, Ending(u, w, steps))
    ensures WriteCameTo(u, w, i, data, sent, p, after, result, buffer, Ending(u, w, steps))
  {
    ReachedInv(u, w);
    InvPushesFit(u.c, w.net, i);
    SwapResultMeans(w.net.peers[i], u.c.maxDelay, Commanded(u, i, data), polls, out, sent, p);
    steps := WaitIsStory(u, w, i, data, polls, out, moves, last);
    var q := Waited(PushAll(w.net.peers[i], Commanded(u, i, data)), Used(out, polls));
    steps := WriteEnds(u, w, i, data, out, sent, q, p, after, result, buffer, steps);
    ReachedOn(u, w, steps);
  }

  // ------------------------------------------------------------------------------------
  // A drive of the C code, from power-up through any calls, is one peer's share of a world
  // the peers can reach.

  /** The drive's disk, seat and protocol are peer i's. */
  ghost predicate Mirrors(d: Drive, u: Setup, w: World, i: nat)
    reads d, d.protocol
  {
    && Fits(u, w) && i < u.c.n
    && d.View() == w.disks[i] && d.Chair() == SeatOf(u, i)
    && d.protocol.model == w.net.peers[i]
    && d.protocol.numNodes == u.c.n && d.protocol.maxDelay == u.c.maxDelay
  }

  /** The drive is peer i's share of a world the peers can reach, and no call on it is under way. */
  ghost predicate Idle(d: Drive, u: Setup, w: World, i: nat)
    reads d, d.protocol, d.protocol.NodesRepr()
  {
    Reached(u, w) && i < u.c.n && !w.net.waiting[i] && d.Valid() && Mirrors(d, u, w, i)
  }

  method PowerUpShare(numplayers: nat, fakePlayers: bool, ghost u: Setup, ghost i: nat, numnodes: nat,
                      consoleplayer: nat, delay: nat, maxDelay: nat)
    returns (d: Drive)
    requires ValidSetup(u) && i < u.c.n && numnodes == u.c.n && delay == u.c.delay && maxDelay == u.c.maxDelay
    requires 1 < numplayers <= MAX_PLAYERS && consoleplayer == u.c.player[i] < numplayers
    requires u.numPlayers[i] == if fakePlayers then MAX_PLAYERS else numplayers
    ensures fresh(d) && fresh(d.protocol.Repr()) && Idle(d, u, PowerOn(u), i)
  {
    d := PowerUp(numnodes, numplayers, consoleplayer, fakePlayers, delay, maxDelay);
    var none: seq<Step> := [];
    assert IsStory(u, PowerOn(u), none) && Ending(u, PowerOn(u), none) == PowerOn(u);
  }

  /** What the other peers and the network do meanwhile leaves the drive a share of the world. */
  lemma {:induction false} OthersGoOn(d: Drive, u: Setup, w: World, i: nat, steps: seq<Step>)
    requires Idle(d, u, w, i) && IsStory(u, w, steps)
    requires var r := Ending(u, w, steps);
      r.disks[i] == w.disks[i] && r.net.peers[i] == w.net.peers[i] && r.net.waiting[i] == w.net.waiting[i]
    ensures Idle(d, u, Ending(u, w, steps), i)
  {
    ReachedOn(u, w, steps);
  }

  /** A read is a step of the world, and hands out what the world's disk then holds. */
  method ReadShare(d: Drive, ghost u: Setup, ghost w: World, ghost i: nat) returns (data: Multio)
    requires Idle(d, u, w, i)
    modifies d
    ensures Idle(d, u, Take(u, w, ReadSector(i)), i)
    ensures data == Take(u, w, ReadSector(i)).disks[i].multio
  {
    data := d.ReadData();
    StoryOfOne(u, w, ReadSector(i));
    ReachedOn(u, w, [ReadSector(i)]);
  }

  /** What a call of ReceivePackets outside a write comes to in the world. */
  lemma PollIsStory(u: Setup, w: World, i: nat, poll: Poll, moves: seq<Move>) returns (steps: seq<Step>)
    requires Reached(u, w) && i < u.c.n && !w.net.waiting[i] && Meets(u.c, w.net, i, [poll], moves)
    ensures IsStory(u, w, steps) && Reached(u, Ending(u, w, steps))
    ensures var r := Ending(u, w, steps);
      && SameDisk(u, w, r, i) && !r.net.waiting[i]
      && r.net.peers[i] == ReceiveAll(w.net.peers[i], poll.arrivals)
      && w.net.net + Sent(u.c, i, Resends(w.net.peers[i], poll.due, u.c.n)) <= r.net.net
  {
    var acts := PollsAreRun(u.c, w.net, i, [poll], moves);
    steps := LiftRun(u, w, acts);
    assert SameDisk(u, w, Ending(u, w, steps), i);
    ReachedOn(u, w, steps);
    OnePoll(w.net.peers[i], poll);
  }

  lemma {:induction false} OnePoll(p: Peer, poll: Poll)
    ensures Waited(p, [poll]) == ReceiveAll(p, poll.arrivals)
    ensures WaitSends(p, [poll]) == Resends(p, poll.due, |p.nodes|)
  {
    assert [poll][..0] == [];
    EmptyConcat(Resends(p, poll.due, |p.nodes|));
  }

  /** A call of ReceivePackets outside a write, the other peers acting between any two of its
      steps. */
  method PollShare(d: Drive, poll: Poll, ghost u: Setup, ghost w: World, ghost i: nat, ghost moves: seq<Move>)
    returns (sent: seq<Frame>, ghost r: World)
    requires Idle(d, u, w, i) && ArrivalsFrom(poll.arrivals, d.protocol.numNodes)
    requires Meets(u.c, w.net, i, [poll], moves)
    modifies d.protocol`model, d.protocol.NodesRepr()
    ensures Idle(d, u, r, i) && SameDisk(u, w, r, i)
    ensures w.net.net + Sent(u.c, i, sent) <= r.net.net
  {
    ghost var steps := PollIsStory(u, w, i, poll, moves);
    r := Ending(u, w, steps);
    sent := d.protocol.ReceivePackets(poll);
  }

  /** A write begun at w has left the drive a share of r: still waiting, or with its result. */
  ghost predicate WriteLeft(d: Drive, u: Setup, w: World, i: nat, data: Multio, sent: seq<Frame>,
                            result: WriteResult, buffer: Multio, r: World)
    reads d, d.protocol
  {
    && Fits(u, w) && i < u.c.n
    && Reached(u, r) && Mirrors(d, u, r, i)
    && WriteCameTo(u, w, i, data, sent, d.protocol.model, d.View(), result, buffer, r)
  }

  /** A write to an idle drive needs no test of its own to keep its stores inside their arrays.
      The first is a single step of the world. A later one, whatever the others do between any
      two of its steps, leaves the drive a share of a world the peers can reach, idle again
      unless the write is still waiting. */
  method WriteShare(d: Drive, data: Multio, polls: seq<Poll>, ghost u: Setup, ghost w: World, ghost i: nat)
    returns (result: WriteResult, buffer: Multio, sent: seq<Frame>, ghost out: SwapOutcome)
    requires Idle(d, u, w, i) && FromNodes(polls, d.protocol.numNodes)
    modifies d, d.protocol.Repr()
    ensures d.Valid()
    ensures w.disks[i].state == Init ==>
      Idle(d, u, Take(u, w, StartWrite(i, data)), i) && result == Ok && buffer == d.multio && sent == []
    ensures w.disks[i].state != Init ==> forall moves, last |
      Around(u.c, w.net, i, Commanded(u, i, data), polls, out, moves, last) ::
      exists r :: WriteLeft(d, u, w, i, data, sent, result, buffer, r)
  {
    ReachedInv(u, w);
    InvPushesFit(u.c, w.net, i);
    result, buffer, sent, out := d.WriteData(data, polls);
    if w.disks[i].state == Init {
      StoryOfOne(u, w, StartWrite(i, data));
      ReachedOn(u, w, [StartWrite(i, data)]);
    } else {
      forall moves, last | Around(u.c, w.net, i, Commanded(u, i, data), polls, out, moves, last)
        ensures exists r :: WriteLeft(d, u, w, i, data, sent, result, buffer, r)
      {
        var steps := WriteDataIsStory(u, w, i, data, polls, moves, last, out, sent, d.protocol.model, d.View(), result, buffer);
        assert WriteLeft(d, u, w, i, data, sent, result, buffer, Ending(u, w, steps));
      }
    }
  }
}
