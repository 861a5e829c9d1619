/** The endless runs that Liveness speaks of exist: taking every peer's steps in turn, over a
    network that delivers what it is given, is one. */
module FairRuns {
  import opened Seqs
  import opened Peers
  import opened Lockstep
  import opened Invariant
  import opened Liveness

  datatype Slot = Ask(i: nat) | End(i: nat) | Send(i: nat, j: nat) | Arrive(i: nat, j: nat)

  /** What peer i sends to peers 0..j, each packet arriving at once. */
  function Links(i: nat, j: nat): seq<Slot> {
    if j == 0 then [] else Links(i, j - 1) + [Send(i, j - 1), Arrive(i, j - 1)]
  }

  /** One turn of peers 0..i out of n. */
  function Turns(i: nat, n: nat): seq<Slot> {
    if i == 0 then [] else Turns(i - 1, n) + Own(i - 1, n)
  }

  /** The turn of peer i. */
  function Own(i: nat, n: nat): seq<Slot> {
    [Ask(i), End(i)] + Links(i, n)
  }

  ghost predicate Within(slots: seq<Slot>, n: nat) {
    forall q :: 0 <= q < |slots| ==> slots[q].i < n && (slots[q].Send? || slots[q].Arrive? ==> slots[q].j < n)
  }

  lemma {:induction false} LinksWithin(i: nat, j: nat, n: nat)
    requires i < n && j <= n
    ensures Within(Links(i, j), n)
  {
    if j > 0 { LinksWithin(i, j - 1, n); }
  }

  lemma {:induction false} TurnsWithin(i: nat, n: nat)
    requires i <= n
    ensures Within(Turns(i, n), n)
  {
    if i > 0 {
      TurnsWithin(i - 1, n);
      LinksWithin(i - 1, n, n);
    }
  }

  lemma {:induction false} LinkAt(i: nat, j: nat, m: nat) returns (q: nat)
    requires j < m
    ensures q + 1 < |Links(i, m)| && Links(i, m)[q] == Send(i, j) && Links(i, m)[q + 1] == Arrive(i, j)
  {
    if j == m - 1 {
      q := |Links(i, m - 1)|;
    } else {
      q := LinkAt(i, j, m - 1);
    }
  }

  /** Where the turn of peer i is in a turn of everyone's. */
  lemma {:induction false} TurnAt(i: nat, m: nat, n: nat) returns (q: nat)
    requires i < m
    ensures q + |Own(i, n)| <= |Turns(m, n)| && Turns(m, n)[q..q + |Own(i, n)|] == Own(i, n)
  {
    if i == m - 1 {
      q := |Turns(m - 1, n)|;
      BackOfConcat(Turns(m - 1, n), Own(i, n));
    } else {
      q := TurnAt(i, m - 1, n);
      SliceOfFront(Turns(m - 1, n), Own(m - 1, n), q, q + |Own(i, n)|);
    }
  }

  lemma {:induction false} TurnIndex(i: nat, n: nat) returns (q: nat)
    requires i < n
    ensures q + 1 < |Turns(n, n)| && Turns(n, n)[q] == Ask(i) && Turns(n, n)[q + 1] == End(i)
  {
    q := TurnAt(i, n, n);
    InSlice(Turns(n, n), q, Own(i, n), 0);
    InSlice(Turns(n, n), q, Own(i, n), 1);
  }

  lemma {:induction false} LinkIndex(i: nat, j: nat, n: nat) returns (q: nat)
    requires i < n && j < n
    ensures q + 1 < |Turns(n, n)| && Turns(n, n)[q] == Send(i, j) && Turns(n, n)[q + 1] == Arrive(i, j)
  {
    var at := TurnAt(i, n, n);
    var k := LinkAt(i, j, n);
    q := at + (2 + k);
    InSlice(Turns(n, n), at, Own(i, n), 2 + k);
    InSlice(Turns(n, n), at, Own(i, n), 3 + k);
    assert Own(i, n)[2 + k] == Links(i, n)[k] && Own(i, n)[3 + k] == Links(i, n)[k + 1];
  }

  // ------------------------------------------------------------------------------------
  // Going round and round.

  /** Where instant t is in a cycle of `size` slots. */
  function Position(t: nat, size: nat): (q: nat)
    requires size > 0
    ensures q < size
  {
    if t == 0 || Position(t - 1, size) + 1 == size then 0 else Position(t - 1, size) + 1
  }

  lemma {:induction false} ComesRound(t: nat, size: nat, q: nat) returns (u: nat)
    requires q < size
    ensures t <= u && Position(u, size) == q
    decreases if Position(t, size) <= q then q - Position(t, size) else size + q - Position(t, size)
  {
    if Position(t, size) == q { return t; }
    u := ComesRound(t + 1, size, q);
  }

  lemma {:induction false} NextPosition(t: nat, size: nat)
    requires size > 0 && Position(t, size) + 1 < size
    ensures Position(t + 1, size) == Position(t, size) + 1
  {
  }

  ghost function Choice(c: Config, s: System, slot: Slot): (a: Action)
    requires ValidConfig(c) && Shape(c, s) && Within([slot], c.n)
    ensures Enabled(c, s, a)
  {
    assert [slot][0] == slot;
    match slot
    case Ask(i) => if s.waiting[i] then Resend(i, 1) else Begin(i, 0)
    case End(i) => if s.waiting[i] && NewTicReady(s.peers[i]) then Finish(i) else Resend(i, 1)
    case Send(i, j) => if c.nodeOf[i][j] == 0 then Resend(i, 1) else Resend(i, c.nodeOf[i][j])
    case Arrive(i, j) =>
      var e := Datagram(c, i, s.peers[i], c.nodeOf[i][j]);
      if e in s.net then Deliver(e) else Resend(i, 1)
  }

  ghost function SlotAt(c: Config, t: nat): (slot: Slot)
    requires ValidConfig(c)
    ensures Within([slot], c.n)
  {
    TurnsWithin(c.n, c.n);
    TurnsNotEmpty(c.n);
    Turns(c.n, c.n)[Position(t, |Turns(c.n, c.n)|)]
  }

  lemma {:induction false} TurnsNotEmpty(n: nat)
    requires n > 0
    ensures |Turns(n, n)| > 0
  {
  }

  ghost function StateAt(c: Config, t: nat): (s: System)
    requires ValidConfig(c)
    ensures Shape(c, s)
  {
    if t == 0 then Initial(c)
    else
      var s := StateAt(c, t - 1);
      Next(c, s, Choice(c, s, SlotAt(c, t - 1)))
  }

  ghost function RoundRobin(c: Config): Schedule
    requires ValidConfig(c)
  {
    Schedule((t: nat) => Choice(c, StateAt(c, t), SlotAt(c, t)), (t: nat) => StateAt(c, t))
  }

  lemma {:induction false} ActsBySlot(c: Config, t: nat)
    requires ValidConfig(c)
    ensures RoundRobin(c).state(t) == StateAt(c, t)
    ensures RoundRobin(c).act(t) == Choice(c, StateAt(c, t), SlotAt(c, t))
  {
  }

  lemma RoundRobinIsSchedule(c: Config)
    requires ValidConfig(c)
    ensures IsSchedule(c, RoundRobin(c))
  {
    var x := RoundRobin(c);
    var none: seq<Action> := [];
    assert IsRun(c, Initial(c), none) && After(c, Initial(c), none) == x.state(0);
    forall t: nat ensures StepsAt(c, x, t) {
      var s := StateAt(c, t);
      assert x.act(t) == Choice(c, s, SlotAt(c, t));
      assert StateAt(c, t + 1) == Next(c, s, Choice(c, s, SlotAt(c, t)));
    }
  }

  /** From t on, peer i's turn comes: it asks at u, its loop is looked at at v. */
  lemma TurnComes(c: Config, i: nat, t: nat) returns (u: nat, v: nat)
    requires ValidConfig(c) && i < c.n
    ensures t <= u < v && SlotAt(c, u) == Ask(i) && SlotAt(c, v) == End(i)
  {
    var q := TurnIndex(i, c.n);
    u := ComesRound(t, |Turns(c.n, c.n)|, q);
    v := u + 1;
    NextPosition(u, |Turns(c.n, c.n)|);
  }

  /** And so does the turn of its link to j: it sends at u, the packet arrives at v. */
  lemma LinkComes(c: Config, i: nat, j: nat, t: nat) returns (u: nat, v: nat)
    requires ValidConfig(c) && i < c.n && j < c.n
    ensures t <= u && v == u + 1 && SlotAt(c, u) == Send(i, j) && SlotAt(c, v) == Arrive(i, j)
  {
    var q := LinkIndex(i, j, c.n);
    u := ComesRound(t, |Turns(c.n, c.n)|, q);
    v := u + 1;
    NextPosition(u, |Turns(c.n, c.n)|);
  }

  lemma AsksInTurn(c: Config, i: nat, t: nat)
    requires ValidConfig(c) && i < c.n && IsSchedule(c, RoundRobin(c))
    ensures AsksAfter(c, RoundRobin(c), i, t)
  {
    var x := RoundRobin(c);
    var u, _ := TurnComes(c, i, t);
    StateInv(c, x, u);
    assert StepsAt(c, x, u);
    if x.state(u).waiting[i] {
      assert WaitingAt(c, x, i, u);
    } else {
      BeginEffect(c, x.state(u), i, 0);
      assert x.act(u) == Begin(i, 0);
      assert WaitingAt(c, x, i, u + 1);
    }
  }

  lemma EndsInTurn(c: Config, i: nat, t: nat)
    requires ValidConfig(c) && i < c.n && IsSchedule(c, RoundRobin(c))
    ensures EndsAfter(c, RoundRobin(c), i, t)
  {
    var _, v := TurnComes(c, i, t);
    ActsBySlot(c, v);
    assert EndsAt(c, RoundRobin(c), i, v);
  }

  lemma ResendsInTurn(c: Config, i: nat, k: nat, t: nat)
    requires ValidConfig(c) && i < c.n && 1 <= k < c.n && IsSchedule(c, RoundRobin(c))
    ensures ResendsAfter(c, RoundRobin(c), i, k, t)
  {
    var x := RoundRobin(c);
    PeerBehind(c, i, k);
    var u, _ := LinkComes(c, i, c.peerAt[i][k], t);
    assert x.act(u) == Choice(c, x.state(u), Send(i, c.peerAt[i][k]));
    assert ResendsAt(c, x, i, k, u);
  }

  lemma ArrivesInTurn(c: Config, i: nat, j: nat, t: nat)
    requires ValidConfig(c) && i < c.n && j < c.n && i != j && IsSchedule(c, RoundRobin(c))
    ensures SomeArriveAfter(c, RoundRobin(c), i, j, t)
  {
    var u, v := LinkComes(c, i, j, t);
    NodesApart(c, i, j, i);
    ActsBySlot(c, u);
    ActsBySlot(c, v);
    assert SendsAt(c, RoundRobin(c), i, j, u);
    SentIsThere(c, RoundRobin(c), i, j, u);
    assert ArrivesAt(c, RoundRobin(c), i, j, u, v);
  }

  /** For every number of peers and every numbering of nodes there is a fair run. */
  lemma FairRunExists(c: Config)
    requires ValidConfig(c)
    ensures exists x :: Fair(c, x)
  {
    var x := RoundRobin(c);
    RoundRobinIsSchedule(c);
    forall i: nat, t: nat | i < c.n ensures AsksAfter(c, x, i, t) && EndsAfter(c, x, i, t) {
      AsksInTurn(c, i, t);
      EndsInTurn(c, i, t);
    }
    forall i: nat, k: nat, t: nat | i < c.n && 1 <= k < c.n ensures ResendsAfter(c, x, i, k, t) {
      ResendsInTurn(c, i, k, t);
    }
    forall i: nat, j: nat, t: nat | i < c.n && j < c.n && i != j ensures SomeArriveAfter(c, x, i, j, t) {
      ArrivesInTurn(c, i, j, t);
    }
    assert Fair(c, x);
  }
}
