/** The protocol cannot deadlock: from every reachable state the network can still let
    every peer complete any number of tics. */
module Progress {
  import opened Seqs
  import opened Windows
  import opened Peers
  import opened Lockstep
  import opened Invariant
  import opened Guarantees

  lemma {:induction false} RunThenRun(c: Config, s: System, a: seq<Action>, b: seq<Action>)
    requires ValidConfig(c) && Shape(c, s) && IsRun(c, s, a) && IsRun(c, After(c, s, a), b)
    ensures IsRun(c, s, a + b) && After(c, s, a + b) == After(c, After(c, s, a), b)
    decreases |a|
  {
    if a == [] {
      EmptyConcat(b);
    } else {
      TailOfConcat(a, b);
      RunThenRun(c, Next(c, s, a[0]), a[1..], b);
    }
  }

  lemma {:induction false} OneStep(c: Config, s: System, a: Action)
    requires ValidConfig(c) && Shape(c, s) && Enabled(c, s, a)
    ensures IsRun(c, s, [a]) && After(c, s, [a]) == Next(c, s, a)
  {
    var rest := [a][1..];
    assert rest == [];
    assert IsRun(c, Next(c, s, a), rest) && After(c, Next(c, s, a), rest) == Next(c, s, a);
  }

  lemma {:induction false} RunThenStep(c: Config, s: System, acts: seq<Action>, a: Action)
    requires ValidConfig(c) && Shape(c, s) && IsRun(c, s, acts) && Enabled(c, After(c, s, acts), a)
    ensures IsRun(c, s, acts + [a]) && After(c, s, acts + [a]) == Next(c, After(c, s, acts), a)
  {
    OneStep(c, After(c, s, acts), a);
    RunThenRun(c, s, acts, [a]);
  }

  /** Nothing has happened but resends and deliveries. */
  ghost predicate OnlyTraffic(c: Config, s: System, r: System) {
    && Inv(c, s) && Inv(c, r)
    && r.waiting == s.waiting && r.asked == s.asked && r.returned == s.returned
    && (forall i :: 0 <= i < c.n ==> Gametic(r, i) == Gametic(s, i))
    && (forall i, j :: 0 <= i < c.n && 0 <= j < c.n && i != j ==> Grew(NodeFor(c, s, i, j), NodeFor(c, r, i, j)))
  }

  lemma TrafficStep(c: Config, s: System, r: System, a: Action)
    requires OnlyTraffic(c, s, r) && Enabled(c, r, a) && (a.Resend? || a.Deliver?)
    ensures OnlyTraffic(c, s, Next(c, r, a))
  {
    NextInv(c, r, a);
    if a.Deliver? { DeliverEffect(c, r, a.e); }
    forall i, j | 0 <= i < c.n && 0 <= j < c.n && i != j
      ensures Grew(NodeFor(c, s, i, j), NodeFor(c, Next(c, r, a), i, j))
    {
      StepGrows(c, r, a, i, j);
    }
  }

  /** m resends to j and that very packet arrives. */
  function FreshPacket(c: Config, s: System, m: nat, j: nat): (acts: seq<Action>)
    requires ValidConfig(c) && m < c.n && j < c.n && m < |s.peers| && |s.peers[m].nodes| == c.n
  {
    [Resend(m, c.nodeOf[m][j])] + [Deliver(Datagram(c, m, s.peers[m], c.nodeOf[m][j]))]
  }

  /** What the arrival of m's current packet does to j's node. */
  lemma FreshDelivery(c: Config, s: System, m: nat, j: nat)
    requires Inv(c, s) && m < c.n && j < c.n && m != j
    requires Datagram(c, m, s.peers[m], c.nodeOf[m][j]) in s.net
    ensures var e := Datagram(c, m, s.peers[m], c.nodeOf[m][j]);
      && e.src == m && e.dst == j
      && NodeFor(c, Next(c, s, Deliver(e)), m, j) == NodeFor(c, s, m, j)
      && NodeFor(c, Next(c, s, Deliver(e)), j, m).send.start == NodeFor(c, s, m, j).recv.End()
      && (NodeFor(c, s, j, m).recv.start <= NodeFor(c, s, m, j).send.start
          ==> NodeFor(c, Next(c, s, Deliver(e)), j, m).recv.End() == |Stream(c, s, m)|)
  {
    var e := Datagram(c, m, s.peers[m], c.nodeOf[m][j]);
    DeliverEffect(c, s, e);
    assert PairOk(c, s, j, m) && PairOk(c, s, m, j);
    HoldsIsSlice(NodeFor(c, s, m, j).send, Stream(c, s, m));
  }

  /** One fresh packet from m to j brings j's send window to exactly what m still lacks, for
      the ack is honoured even when the packet itself is old; and unless it is old, j then
      has every command m has made. */
  lemma {:induction false} FreshPacketArrives(c: Config, s: System, m: nat, j: nat)
    requires Inv(c, s) && m < c.n && j < c.n && m != j
    ensures IsRun(c, s, FreshPacket(c, s, m, j))
    ensures var r := After(c, s, FreshPacket(c, s, m, j));
      && OnlyTraffic(c, s, r)
      && NodeFor(c, r, j, m).send.start == NodeFor(c, r, m, j).recv.End()
      && (NodeFor(c, s, j, m).recv.start <= NodeFor(c, s, m, j).send.start
          ==> NodeFor(c, r, j, m).recv.End() == |Stream(c, s, m)|)
  {
    NodesApart(c, m, j, m);
    var e := Datagram(c, m, s.peers[m], c.nodeOf[m][j]);
    var a, b := Resend(m, c.nodeOf[m][j]), Deliver(e);
    var s1 := Next(c, s, a);
    TrafficStep(c, s, s, a);
    FreshDelivery(c, s1, m, j);
    TrafficStep(c, s, s1, b);
    OneStep(c, s, a);
    RunThenStep(c, s, [a], b);
  }

  lemma TrafficThenTraffic(c: Config, s: System, r: System, t: System)
    requires OnlyTraffic(c, s, r) && OnlyTraffic(c, r, t)
    ensures OnlyTraffic(c, s, t)
  {
    forall x, y | 0 <= x < c.n && 0 <= y < c.n && x != y
      ensures Grew(NodeFor(c, s, x, y), NodeFor(c, t, x, y))
    {
      assert Grew(NodeFor(c, s, x, y), NodeFor(c, r, x, y)) && Grew(NodeFor(c, r, x, y), NodeFor(c, t, x, y));
    }
  }

  /** If m is no further than j, a fresh packet from m to j and then one back leave m
      holding a command from j - whatever was lost before, and whatever j is doing. */
  lemma ExchangeFills(c: Config, s: System, m: nat, j: nat) returns (acts: seq<Action>)
    requires Inv(c, s) && m < c.n && j < c.n && m != j && Gametic(s, m) <= Gametic(s, j)
    ensures IsRun(c, s, acts) && OnlyTraffic(c, s, After(c, s, acts))
    ensures IsRun(c, s, FreshPacket(c, s, m, j))
    ensures acts == FreshPacket(c, s, m, j) + FreshPacket(c, After(c, s, FreshPacket(c, s, m, j)), j, m)
    ensures NodeFor(c, After(c, s, acts), m, j).recv.len > 0
  {
    FreshPacketArrives(c, s, m, j);
    var s1 := After(c, s, FreshPacket(c, s, m, j));
    FreshPacketArrives(c, s1, j, m);
    var s2 := After(c, s1, FreshPacket(c, s1, j, m));
    RunThenRun(c, s, FreshPacket(c, s, m, j), FreshPacket(c, s1, j, m));
    acts := FreshPacket(c, s, m, j) + FreshPacket(c, s1, j, m);
    TrafficThenTraffic(c, s, s1, s2);
    assert PairOk(c, s2, m, j);
    PairBounds(c, s1, j, m);
  }

  ghost predicate Filled(c: Config, s: System, m: nat, upto: nat) {
    && ValidConfig(c) && Shape(c, s) && m < c.n && upto <= c.n
    && forall j :: 0 <= j < upto && j != m ==> NodeFor(c, s, m, j).recv.len > 0
  }

  lemma StaysFilled(c: Config, s: System, r: System, m: nat, upto: nat)
    requires OnlyTraffic(c, s, r) && m < c.n && upto <= c.n && Filled(c, s, m, upto)
    ensures Filled(c, r, m, upto)
  {
    forall j | 0 <= j < upto && j != m ensures NodeFor(c, r, m, j).recv.len > 0 {
      assert Grew(NodeFor(c, s, m, j), NodeFor(c, r, m, j));
      assert PairOk(c, s, m, j) && PairOk(c, r, m, j);
    }
  }

  lemma FillOneMore(c: Config, s: System, m: nat, j: nat) returns (acts: seq<Action>)
    requires Inv(c, s) && m < c.n && j < c.n && m != j && Gametic(s, m) <= Gametic(s, j)
    requires Filled(c, s, m, j)
    ensures IsRun(c, s, acts) && OnlyTraffic(c, s, After(c, s, acts))
    ensures Filled(c, After(c, s, acts), m, j + 1)
  {
    acts := ExchangeFills(c, s, m, j);
    StaysFilled(c, s, After(c, s, acts), m, j);
  }

  /** After exchanges with peers 0..upto, m holds a command from each of them. */
  lemma {:induction false} FillWindows(c: Config, s: System, m: nat, upto: nat) returns (acts: seq<Action>)
    requires Inv(c, s) && m < c.n && upto <= c.n
    requires forall j :: 0 <= j < c.n ==> Gametic(s, m) <= Gametic(s, j)
    ensures IsRun(c, s, acts) && OnlyTraffic(c, s, After(c, s, acts))
    ensures Filled(c, After(c, s, acts), m, upto)
  {
    if upto == 0 { return []; }
    acts := FillWindows(c, s, m, upto - 1);
    if upto - 1 != m {
      var s1 := After(c, s, acts);
      var more := FillOneMore(c, s1, m, upto - 1);
      TrafficThenTraffic(c, s, s1, After(c, s1, more));
      RunThenRun(c, s, acts, more);
      acts := acts + more;
    }
  }

  lemma FilledIsReady(c: Config, s: System, m: nat)
    requires Inv(c, s) && m < c.n && s.waiting[m] && Filled(c, s, m, c.n)
    ensures NewTicReady(s.peers[m])
  {
    forall k | 0 <= k < c.n ensures s.peers[m].nodes[k].recv.len > 0 {
      var j := c.peerAt[m][k];
      assert NodeFor(c, s, m, j) == s.peers[m].nodes[k];
      if j == m { assert PeerOk(c, s, m) && LoopbackOk(c, s, m); }
    }
  }

  /** Peers only asked for what `input` says, where input(i, t) is what player i's t-th
      command will be. */
  ghost predicate Follows(c: Config, s: System, r: System, input: (nat, nat) -> Cmd) {
    && Shape(c, s) && Shape(c, r)
    && forall i :: 0 <= i < c.n ==>
      && s.asked[i] <= r.asked[i]
      && forall t :: |s.asked[i]| <= t < |r.asked[i]| ==> r.asked[i][t] == input(i, t)
  }

  lemma AskFollows(c: Config, s: System, m: nat, input: (nat, nat) -> Cmd)
    requires Inv(c, s) && m < c.n && !s.waiting[m]
    ensures var r := Next(c, s, Begin(m, input(m, |s.asked[m]|)));
      && Inv(c, r) && Follows(c, s, r, input) && r.waiting[m]
      && forall i :: 0 <= i < c.n ==> Gametic(r, i) == Gametic(s, i)
  {
    var cmd := input(m, |s.asked[m]|);
    BeginEffect(c, s, m, cmd);
    BeginInv(c, s, m, cmd);
    var r := Next(c, s, Begin(m, cmd));
    assert forall j :: 0 <= j < c.n && j != m ==> r.asked[j] == s.asked[j];
  }

  /** An idle peer can ask for its next command, which leaves it waiting. */
  lemma Ask(c: Config, s: System, m: nat, input: (nat, nat) -> Cmd) returns (acts: seq<Action>)
    requires Inv(c, s) && m < c.n
    ensures IsRun(c, s, acts)
    ensures var r := After(c, s, acts);
      && Inv(c, r) && Follows(c, s, r, input) && r.waiting[m]
      && forall i :: 0 <= i < c.n ==> Gametic(r, i) == Gametic(s, i)
  {
    acts := [];
    if !s.waiting[m] {
      AskFollows(c, s, m, input);
      acts := [Begin(m, input(m, |s.asked[m]|))];
      OneStep(c, s, acts[0]);
    }
  }

  /** A waiting peer that is behind nobody can complete its tic. */
  lemma CompleteWaiting(c: Config, s: System, m: nat) returns (acts: seq<Action>)
    requires Inv(c, s) && m < c.n && s.waiting[m]
    requires forall j :: 0 <= j < c.n ==> Gametic(s, m) <= Gametic(s, j)
    ensures IsRun(c, s, acts)
    ensures var r := After(c, s, acts);
      && Inv(c, r) && r.asked == s.asked
      && forall i :: 0 <= i < c.n ==> Gametic(r, i) == Gametic(s, i) + (if i == m then 1 else 0)
  {
    acts := FillWindows(c, s, m, c.n);
    var s1 := After(c, s, acts);
    FilledIsReady(c, s1, m);
    RunThenStep(c, s, acts, Finish(m));
    FinishEffect(c, s1, m);
    FinishInv(c, s1, m);
    acts := acts + [Finish(m)];
  }

  /** A peer that is behind nobody can complete its tic, asking first if it is idle. */
  lemma CompleteTic(c: Config, s: System, m: nat, input: (nat, nat) -> Cmd) returns (acts: seq<Action>)
    requires Inv(c, s) && m < c.n
    requires forall j :: 0 <= j < c.n ==> Gametic(s, m) <= Gametic(s, j)
    ensures IsRun(c, s, acts)
    ensures var r := After(c, s, acts);
      && Inv(c, r) && Follows(c, s, r, input)
      && forall i :: 0 <= i < c.n ==> Gametic(r, i) == Gametic(s, i) + (if i == m then 1 else 0)
  {
    var first := Ask(c, s, m, input);
    var s1 := After(c, s, first);
    var second := CompleteWaiting(c, s1, m);
    RunThenRun(c, s, first, second);
    acts := first + second;
  }

  /** Tics still to go until the first `upto` peers have completed `goal` of them. */
  ghost function TicsToGo(s: System, goal: nat, upto: nat): nat
    requires upto <= |s.peers|
  {
    if upto == 0 then 0
    else TicsToGo(s, goal, upto - 1) + if Gametic(s, upto - 1) < goal then goal - Gametic(s, upto - 1) else 0
  }

  lemma {:induction false} OneTicLess(s: System, r: System, goal: nat, upto: nat, m: nat)
    requires upto <= |s.peers| == |r.peers| && m < |s.peers|
    requires forall i :: 0 <= i < |s.peers| ==> Gametic(r, i) == Gametic(s, i) + (if i == m then 1 else 0)
    requires Gametic(s, m) < goal
    ensures TicsToGo(r, goal, upto) == TicsToGo(s, goal, upto) - (if m < upto then 1 else 0)
  {
    if upto != 0 { OneTicLess(s, r, goal, upto - 1, m); }
  }

  lemma {:induction false} LeastPeer(s: System, upto: nat) returns (m: nat)
    requires 0 < upto <= |s.peers|
    ensures m < upto && forall j :: 0 <= j < upto ==> Gametic(s, m) <= Gametic(s, j)
  {
    if upto == 1 { return 0; }
    m := LeastPeer(s, upto - 1);
    if Gametic(s, upto - 1) < Gametic(s, m) { m := upto - 1; }
  }

  lemma {:induction false} AdvanceTo(c: Config, s: System, goal: nat, input: (nat, nat) -> Cmd) returns (acts: seq<Action>)
    requires Inv(c, s)
    ensures IsRun(c, s, acts) && Follows(c, s, After(c, s, acts), input)
    ensures forall i :: 0 <= i < c.n ==> Gametic(After(c, s, acts), i) >= goal
    decreases TicsToGo(s, goal, |s.peers|)
  {
    var m := LeastPeer(s, c.n);
    if Gametic(s, m) >= goal {
      acts := [];
    } else {
      var tic := CompleteTic(c, s, m, input);
      var r := After(c, s, tic);
      OneTicLess(s, r, goal, c.n, m);
      var rest := AdvanceTo(c, r, goal, input);
      RunThenRun(c, s, tic, rest);
      acts := tic + rest;
    }
  }

  /** No reachable state is a dead end: whatever was lost so far and whatever the players go
      on to press, every peer can still complete every future tic. */
  lemma {:induction false} NoDeadlock(c: Config, s: System, goal: nat, input: (nat, nat) -> Cmd)
    requires Reachable(c, s)
    ensures exists acts | IsRun(c, s, acts) ::
      && Follows(c, s, After(c, s, acts), input)
      && forall i :: 0 <= i < c.n ==> |After(c, s, acts).returned[i]| >= goal
  {
    ReachableInv(c, s);
    var acts := AdvanceTo(c, s, goal, input);
    RunInv(c, s, acts);
    var r := After(c, s, acts);
    forall i | 0 <= i < c.n ensures |r.returned[i]| >= goal {
      assert PeerOk(c, r, i);
    }
  }
}
