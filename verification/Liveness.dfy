/** On every endless run in which the games go on asking, waiting peers go on resending and no
    link loses everything, every peer completes every tic. */
module Liveness {
  import opened Windows
  import opened Peers
  import opened Lockstep
  import opened Invariant
  import opened Guarantees
  import opened Progress

  /** An endless run: the action at each instant and the state it finds. */
  datatype Schedule = Schedule(act: nat -> Action, state: nat -> System)

  ghost predicate IsSchedule(c: Config, x: Schedule) {
    && Reachable(c, x.state(0))
    && (forall t: nat :: Shape(c, x.state(t)))
    && (forall t: nat :: StepsAt(c, x, t))
  }

  ghost predicate StepsAt(c: Config, x: Schedule, t: nat) {
    && ValidConfig(c) && Shape(c, x.state(t))
    && Enabled(c, x.state(t), x.act(t)) && x.state(t + 1) == Next(c, x.state(t), x.act(t))
  }

  // ------------------------------------------------------------------------------------
  // What the world has to keep up.

  ghost predicate WaitingAt(c: Config, x: Schedule, i: nat, t: nat) {
    i < |x.state(t).waiting| && x.state(t).waiting[i]
  }

  ghost predicate ReadyAt(c: Config, x: Schedule, i: nat, t: nat) {
    WaitingAt(c, x, i, t) && i < |x.state(t).peers| && NewTicReady(x.state(t).peers[i])
  }

  /** A game that is not waiting will ask for its next tic. */
  ghost predicate GamesAsk(c: Config, x: Schedule) {
    forall i: nat, t: nat :: i < c.n ==> AsksAfter(c, x, i, t)
  }

  ghost predicate AsksAfter(c: Config, x: Schedule, i: nat, t: nat) {
    exists u: nat :: t <= u && WaitingAt(c, x, i, u)
  }

  /** A wait loop that is ready ends. */
  ghost predicate LoopsEnd(c: Config, x: Schedule) {
    forall i: nat, t: nat :: i < c.n ==> EndsAfter(c, x, i, t)
  }

  ghost predicate EndsAfter(c: Config, x: Schedule, i: nat, t: nat) {
    exists u: nat :: t <= u && EndsAt(c, x, i, u)
  }

  ghost predicate EndsAt(c: Config, x: Schedule, i: nat, u: nat) {
    ReadyAt(c, x, i, u) ==> x.act(u) == Finish(i)
  }

  /** A wait loop finds every other node overdue again and again. */
  ghost predicate WaitersResend(c: Config, x: Schedule) {
    forall i: nat, k: nat, t: nat :: i < c.n && 1 <= k < c.n ==> ResendsAfter(c, x, i, k, t)
  }

  ghost predicate ResendsAfter(c: Config, x: Schedule, i: nat, k: nat, t: nat) {
    exists u: nat :: t <= u && ResendsAt(c, x, i, k, u)
  }

  ghost predicate ResendsAt(c: Config, x: Schedule, i: nat, k: nat, u: nat) {
    WaitingAt(c, x, i, u) ==> x.act(u) == Resend(i, k)
  }

  /** Instant u sends a packet from i to j, by a push or a resend. */
  ghost predicate SendsAt(c: Config, x: Schedule, i: nat, j: nat, u: nat) {
    && ValidConfig(c) && i < c.n && j < c.n
    && (x.act(u) == Resend(i, c.nodeOf[i][j]) || (x.act(u).Begin? && x.act(u).i == i))
  }

  ghost function SentAt(c: Config, x: Schedule, i: nat, j: nat, u: nat): Envelope
    requires IsSchedule(c, x) && i < c.n && j < c.n
  {
    Datagram(c, i, x.state(u + 1).peers[i], c.nodeOf[i][j])
  }

  /** The packet that instant u sends from i to j arrives at instant v. */
  ghost predicate ArrivesAt(c: Config, x: Schedule, i: nat, j: nat, u: nat, v: nat) {
    && IsSchedule(c, x) && i < c.n && j < c.n
    && u <= v && SendsAt(c, x, i, j, u) && x.act(v) == Deliver(SentAt(c, x, i, j, u))
  }

  ghost predicate Busy(c: Config, x: Schedule, i: nat, j: nat) {
    forall t: nat :: SendsAfter(c, x, i, j, t)
  }

  ghost predicate SendsAfter(c: Config, x: Schedule, i: nat, j: nat, t: nat) {
    exists u: nat :: t <= u && SendsAt(c, x, i, j, u)
  }

  /** Of the packets sent on a link again and again, some arrive again and again. */
  ghost predicate SomeArrive(c: Config, x: Schedule) {
    forall i: nat, j: nat, t: nat :: i < c.n && j < c.n && i != j && Busy(c, x, i, j) ==> SomeArriveAfter(c, x, i, j, t)
  }

  ghost predicate SomeArriveAfter(c: Config, x: Schedule, i: nat, j: nat, t: nat) {
    exists u: nat, v: nat :: t <= u && ArrivesAt(c, x, i, j, u, v)
  }

  ghost predicate Fair(c: Config, x: Schedule) {
    IsSchedule(c, x) && GamesAsk(c, x) && LoopsEnd(c, x) && WaitersResend(c, x) && SomeArrive(c, x)
  }

  // ------------------------------------------------------------------------------------
  // Along a schedule.

  lemma {:induction false} StateInv(c: Config, x: Schedule, t: nat)
    requires IsSchedule(c, x)
    ensures Inv(c, x.state(t))
  {
    if t == 0 {
      ReachableInv(c, x.state(0));
    } else {
      StateInv(c, x, t - 1);
      assert StepsAt(c, x, t - 1);
      NextInv(c, x.state(t - 1), x.act(t - 1));
    }
  }

  /** Nothing peer i has is ever taken back. */
  ghost predicate NoLess(c: Config, s: System, r: System, i: nat) {
    && ValidConfig(c) && Shape(c, s) && Shape(c, r) && i < c.n
    && Gametic(s, i) <= Gametic(r, i) && |s.asked[i]| <= |r.asked[i]|
    && forall j :: 0 <= j < c.n && j != i ==> Grew(NodeFor(c, s, i, j), NodeFor(c, r, i, j))
  }

  lemma NoLessNext(c: Config, s: System, a: Action, i: nat)
    requires Inv(c, s) && Enabled(c, s, a) && i < c.n
    ensures NoLess(c, s, Next(c, s, a), i)
  {
    forall j | 0 <= j < c.n && j != i ensures Grew(NodeFor(c, s, i, j), NodeFor(c, Next(c, s, a), i, j)) {
      StepGrows(c, s, a, i, j);
    }
  }

  lemma NoLessTwice(c: Config, s: System, r: System, t: System, i: nat)
    requires ValidConfig(c) && Shape(c, s) && Shape(c, r) && Shape(c, t) && i < c.n
    requires NoLess(c, s, r, i) && NoLess(c, r, t, i)
    ensures NoLess(c, s, t, i)
  {
    forall j | 0 <= j < c.n && j != i ensures Grew(NodeFor(c, s, i, j), NodeFor(c, t, i, j)) {
      assert Grew(NodeFor(c, s, i, j), NodeFor(c, r, i, j)) && Grew(NodeFor(c, r, i, j), NodeFor(c, t, i, j));
    }
  }

  lemma {:induction false} Later(c: Config, x: Schedule, t: nat, u: nat, i: nat)
    requires IsSchedule(c, x) && t <= u && i < c.n
    ensures NoLess(c, x.state(t), x.state(u), i)
    decreases u - t
  {
    if t < u {
      Later(c, x, t, u - 1, i);
      StateInv(c, x, u - 1);
      assert StepsAt(c, x, u - 1);
      NoLessNext(c, x.state(u - 1), x.act(u - 1), i);
      NoLessTwice(c, x.state(t), x.state(u - 1), x.state(u), i);
    }
  }

  lemma {:induction false} NetLater(c: Config, x: Schedule, t: nat, u: nat)
    requires IsSchedule(c, x) && t <= u
    ensures x.state(t).net <= x.state(u).net
    decreases u - t
  {
    if t < u {
      NetLater(c, x, t, u - 1);
      assert StepsAt(c, x, u - 1);
      NetOnlyGrows(c, x.state(u - 1), [x.act(u - 1)]) by { OneStep(c, x.state(u - 1), x.act(u - 1)); }
      OneStep(c, x.state(u - 1), x.act(u - 1));
    }
  }

  /** A peer that stays at its tic goes on waiting. */
  lemma StaysWaiting(c: Config, x: Schedule, t: nat, u: nat, i: nat)
    requires IsSchedule(c, x) && t <= u && i < c.n && WaitingAt(c, x, i, t)
    requires Gametic(x.state(u), i) == Gametic(x.state(t), i)
    ensures WaitingAt(c, x, i, u)
  {
    StateInv(c, x, t);
    StateInv(c, x, u);
    Later(c, x, t, u, i);
    assert PeerOk(c, x.state(t), i) && PeerOk(c, x.state(u), i);
  }

  // ------------------------------------------------------------------------------------
  // Every link stays busy.

  /** Between an instant where i is idle and one where it waits, it pushes. */
  lemma {:induction false} PushBetween(c: Config, x: Schedule, i: nat, u: nat, v: nat) returns (w: nat)
    requires IsSchedule(c, x) && i < c.n && u <= v && !WaitingAt(c, x, i, u) && WaitingAt(c, x, i, v)
    ensures u <= w < v && x.act(w).Begin? && x.act(w).i == i
    decreases v - u
  {
    assert StepsAt(c, x, v - 1);
    if WaitingAt(c, x, i, v - 1) {
      w := PushBetween(c, x, i, u, v - 1);
    } else {
      w := v - 1;
    }
  }

  lemma LinkIsBusy(c: Config, x: Schedule, i: nat, j: nat)
    requires Fair(c, x) && i < c.n && j < c.n && i != j
    ensures Busy(c, x, i, j)
  {
    NodesApart(c, i, j, i);
    var k := c.nodeOf[i][j];
    forall t: nat ensures SendsAfter(c, x, i, j, t) {
      assert ResendsAfter(c, x, i, k, t);
      var u: nat :| t <= u && ResendsAt(c, x, i, k, u);
      if WaitingAt(c, x, i, u) {
        assert SendsAt(c, x, i, j, u);
      } else {
        assert AsksAfter(c, x, i, u);
        var v: nat :| u <= v && WaitingAt(c, x, i, v);
        var w := PushBetween(c, x, i, u, v);
        assert SendsAt(c, x, i, j, w);
      }
    }
  }

  /** What i sends at u is in the network from then on, and says what i then has. */
  lemma SentIsThere(c: Config, x: Schedule, i: nat, j: nat, u: nat)
    requires IsSchedule(c, x) && i < c.n && j < c.n && i != j && SendsAt(c, x, i, j, u)
    ensures var e, s := SentAt(c, x, i, j, u), x.state(u + 1);
      && e.src == i && e.dst == j && e in s.net
      && e.pkt.ack == NodeFor(c, s, i, j).recv.End()
      && e.pkt.start == NodeFor(c, s, i, j).send.start
      && e.pkt.End() == |Stream(c, s, i)|
  {
    StateInv(c, x, u);
    StateInv(c, x, u + 1);
    assert StepsAt(c, x, u);
    NodesApart(c, i, j, i);
    var s := x.state(u + 1);
    assert PairOk(c, s, i, j);
    HoldsIsSlice(NodeFor(c, s, i, j).send, Stream(c, s, i));
    if x.act(u).Begin? { InvPushesFit(c, x.state(u), i); }
  }

  // ------------------------------------------------------------------------------------
  // Every tic completes.

  /** A packet that i sent at u and that arrives at v leaves j's window acknowledged up to what
      i had at u, and j with all i had produced by u unless the packet was old. */
  lemma Arrival(c: Config, x: Schedule, i: nat, j: nat, u: nat, v: nat)
    requires IsSchedule(c, x) && i < c.n && j < c.n && i != j && ArrivesAt(c, x, i, j, u, v)
    ensures u < v
    ensures var s, r := x.state(u + 1), x.state(v + 1);
      && NodeFor(c, r, j, i).send.start >= NodeFor(c, s, i, j).recv.End()
      && (Gametic(x.state(v), j) <= NodeFor(c, s, i, j).send.start
          ==> NodeFor(c, r, j, i).recv.End() >= |Stream(c, s, i)|)
  {
    SentIsThere(c, x, i, j, u);
    NetLater(c, x, u + 1, v);
    StateInv(c, x, v);
    assert StepsAt(c, x, v);
    DeliverEffect(c, x.state(v), SentAt(c, x, i, j, u));
    assert PairOk(c, x.state(v), j, i);
  }

  lemma HasAtLeast(c: Config, x: Schedule, m: nat, j: nat, t: nat, u: nat)
    requires IsSchedule(c, x) && m < c.n && j < c.n && m != j && t <= u
    ensures NodeFor(c, x.state(u), m, j).recv.End() >= Gametic(x.state(t), m)
  {
    StateInv(c, x, u);
    Later(c, x, t, u, m);
    assert PairOk(c, x.state(u), m, j);
  }

  /** What j has to send to m starts no earlier than tic and goes past it. */
  ghost predicate Offers(c: Config, s: System, m: nat, j: nat, tic: nat) {
    && ValidConfig(c) && Shape(c, s) && m < c.n && j < c.n
    && NodeFor(c, s, j, m).send.start >= tic && |Stream(c, s, j)| > tic
  }

  lemma StillOffers(c: Config, x: Schedule, m: nat, j: nat, tic: nat, t: nat, u: nat)
    requires IsSchedule(c, x) && m < c.n && j < c.n && m != j && t <= u && Offers(c, x.state(t), m, j, tic)
    ensures Offers(c, x.state(u), m, j, tic)
  {
    Later(c, x, t, u, j);
    assert Grew(NodeFor(c, x.state(t), j, m), NodeFor(c, x.state(u), j, m));
  }

  lemma PacketComes(c: Config, x: Schedule, i: nat, j: nat, t: nat) returns (u: nat, v: nat)
    requires Fair(c, x) && i < c.n && j < c.n && i != j
    ensures t <= u && ArrivesAt(c, x, i, j, u, v)
  {
    LinkIsBusy(c, x, i, j);
    assert SomeArriveAfter(c, x, i, j, t);
    u, v :| t <= u && ArrivesAt(c, x, i, j, u, v);
  }

  lemma AckComes(c: Config, x: Schedule, m: nat, j: nat, t: nat) returns (v: nat)
    requires Fair(c, x) && m < c.n && j < c.n && m != j
    ensures t <= v && NodeFor(c, x.state(v), j, m).send.start >= Gametic(x.state(t), m)
  {
    var u, w := PacketComes(c, x, m, j, t);
    Arrival(c, x, m, j, u, w);
    HasAtLeast(c, x, m, j, t, u + 1);
    v := w + 1;
  }

  lemma OfferComes(c: Config, x: Schedule, m: nat, j: nat, tic: nat, t: nat) returns (v: nat)
    requires Fair(c, x) && m < c.n && j < c.n && m != j && Offers(c, x.state(t), m, j, tic)
    ensures t <= v && NodeFor(c, x.state(v), m, j).recv.End() > tic
  {
    var u, w := PacketComes(c, x, j, m, t);
    Arrival(c, x, j, m, u, w);
    StillOffers(c, x, m, j, tic, t, u + 1);
    HasAtLeast(c, x, m, j, w, w + 1);
    v := w + 1;
  }

  /** From t on, peer m has or gets a command of j's for the tic it is at. */
  lemma CommandComes(c: Config, x: Schedule, m: nat, j: nat, t: nat) returns (v: nat)
    requires Fair(c, x) && m < c.n && j < c.n && m != j
    requires Gametic(x.state(t), m) <= Gametic(x.state(t), j)
    ensures t <= v && NodeFor(c, x.state(v), m, j).recv.End() > Gametic(x.state(t), m)
  {
    var u := AckComes(c, x, m, j, t);
    StateInv(c, x, u);
    PairBounds(c, x.state(u), j, m);
    Later(c, x, t, u, j);
    v := OfferComes(c, x, m, j, Gametic(x.state(t), m), u);
  }

  /** m holds a command past `tic` of each of the first `upto` peers. */
  ghost predicate HasPast(c: Config, s: System, m: nat, tic: nat, upto: nat) {
    && ValidConfig(c) && Shape(c, s) && m < c.n && upto <= c.n
    && forall j :: 0 <= j < upto && j != m ==> NodeFor(c, s, m, j).recv.End() > tic
  }

  lemma StillHasPast(c: Config, x: Schedule, m: nat, tic: nat, upto: nat, t: nat, u: nat)
    requires IsSchedule(c, x) && m < c.n && upto <= c.n && t <= u && HasPast(c, x.state(t), m, tic, upto)
    ensures HasPast(c, x.state(u), m, tic, upto)
  {
    Later(c, x, t, u, m);
    forall j | 0 <= j < upto && j != m ensures NodeFor(c, x.state(u), m, j).recv.End() > tic {
      assert Grew(NodeFor(c, x.state(t), m, j), NodeFor(c, x.state(u), m, j));
    }
  }

  lemma {:induction false} CommandsCome(c: Config, x: Schedule, m: nat, t: nat, upto: nat) returns (v: nat)
    requires Fair(c, x) && m < c.n && upto <= c.n
    requires forall j :: 0 <= j < c.n ==> Gametic(x.state(t), m) <= Gametic(x.state(t), j)
    ensures t <= v && HasPast(c, x.state(v), m, Gametic(x.state(t), m), upto)
  {
    if upto == 0 { return t; }
    v := CommandsCome(c, x, m, t, upto - 1);
    if upto - 1 != m {
      var w := CommandComes(c, x, m, upto - 1, t);
      var last := if v <= w then w else v;
      StillHasPast(c, x, m, Gametic(x.state(t), m), upto - 1, v, last);
      Later(c, x, w, last, m);
      assert Grew(NodeFor(c, x.state(w), m, upto - 1), NodeFor(c, x.state(last), m, upto - 1));
      v := last;
    }
  }

  lemma ReadyOnceThere(c: Config, x: Schedule, m: nat, u: nat)
    requires IsSchedule(c, x) && m < c.n && WaitingAt(c, x, m, u)
    requires HasPast(c, x.state(u), m, Gametic(x.state(u), m), c.n)
    ensures ReadyAt(c, x, m, u)
  {
    StateInv(c, x, u);
    var s := x.state(u);
    forall j | 0 <= j < c.n && j != m ensures NodeFor(c, s, m, j).recv.len > 0 {
      assert PairOk(c, s, m, j);
    }
    FilledIsReady(c, s, m);
  }

  /** A peer that is behind nobody gets past its tic. */
  lemma TicCompletes(c: Config, x: Schedule, m: nat, t: nat) returns (v: nat)
    requires Fair(c, x) && m < c.n
    requires forall j :: 0 <= j < c.n ==> Gametic(x.state(t), m) <= Gametic(x.state(t), j)
    ensures t <= v && Gametic(x.state(v), m) > Gametic(x.state(t), m)
  {
    var tic := Gametic(x.state(t), m);
    var filled := CommandsCome(c, x, m, t, c.n);
    assert AsksAfter(c, x, m, filled);
    var u: nat :| filled <= u && WaitingAt(c, x, m, u);
    assert EndsAfter(c, x, m, u);
    var w: nat :| u <= w && EndsAt(c, x, m, w);
    Later(c, x, t, u, m);
    Later(c, x, u, w, m);
    v := w;
    if Gametic(x.state(w), m) == tic {
      StaysWaiting(c, x, u, w, m);
      StillHasPast(c, x, m, tic, c.n, filled, w);
      ReadyOnceThere(c, x, m, w);
      assert StepsAt(c, x, w);
      v := w + 1;
    }
  }

  ghost predicate AllPast(c: Config, s: System, tic: nat, upto: nat) {
    && Shape(c, s) && upto <= c.n
    && forall i :: 0 <= i < c.n ==> Gametic(s, i) >= tic + (if i < upto then 1 else 0)
  }

  lemma AllStayPast(c: Config, x: Schedule, tic: nat, upto: nat, t: nat, u: nat)
    requires IsSchedule(c, x) && upto <= c.n && t <= u && AllPast(c, x.state(t), tic, upto)
    ensures AllPast(c, x.state(u), tic, upto)
  {
    forall i | 0 <= i < c.n ensures Gametic(x.state(u), i) >= tic + (if i < upto then 1 else 0) {
      Later(c, x, t, u, i);
    }
  }

  lemma {:induction false} OneTicOn(c: Config, x: Schedule, tic: nat, upto: nat, t: nat) returns (v: nat)
    requires Fair(c, x) && upto <= c.n && AllPast(c, x.state(t), tic, 0)
    ensures t <= v && AllPast(c, x.state(v), tic, upto)
  {
    if upto == 0 { return t; }
    var w := OneTicOn(c, x, tic, upto - 1, t);
    v := w;
    if Gametic(x.state(w), upto - 1) == tic { v := TicCompletes(c, x, upto - 1, w); }
    AllStayPast(c, x, tic, upto - 1, w, v);
    Later(c, x, w, v, upto - 1);
  }

  lemma {:induction false} AllGetTo(c: Config, x: Schedule, goal: nat) returns (v: nat)
    requires Fair(c, x)
    ensures AllPast(c, x.state(v), goal, 0)
  {
    if goal == 0 { return 0; }
    var t := AllGetTo(c, x, goal - 1);
    v := OneTicOn(c, x, goal - 1, c.n, t);
  }

  /** Every call of SwapCommand returns, and so every peer completes every tic. */
  lemma EveryTicCompletes(c: Config, x: Schedule, goal: nat)
    requires Fair(c, x)
    ensures exists t: nat :: forall i :: 0 <= i < c.n ==> |x.state(t).returned[i]| >= goal
  {
    var t := AllGetTo(c, x, goal);
    StateInv(c, x, t);
    forall i | 0 <= i < c.n ensures |x.state(t).returned[i]| >= goal {
      assert PeerOk(c, x.state(t), i);
    }
  }
}
