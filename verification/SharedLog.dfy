/** N peers, each with an emulated disk over its protocol: every peer's copy of SOPWITH1.DTA
    is the same log of rounds, DELAY-1 rounds behind what the games write. */
module SharedLog {
  import opened Windows
  import opened Peers
  import opened Polls
  import opened Lockstep
  import opened Invariant
  import opened Guarantees
  import opened Disks

  /** net.waiting[i] means that peer i is inside a sector write. written[i]: the command in
      each write after the first, in order. results[i]: the records those writes left in the
      game's buffer. numPlayers[i] may differ between peers (-fakeplayers). */
  datatype World = World(net: System, disks: seq<Disk>, written: seq<seq<Cmd>>, results: seq<seq<Multio>>)

  datatype Setup = Setup(c: Config, numPlayers: seq<nat>)

  ghost predicate ValidSetup(u: Setup) {
    && ValidConfig(u.c) && |u.numPlayers| == u.c.n
    && forall i :: 0 <= i < u.c.n ==> u.c.player[i] < u.numPlayers[i] <= MAX_PLAYERS
  }

  function SeatOf(u: Setup, i: nat): (g: Seat)
    requires ValidSetup(u) && i < u.c.n
    ensures ValidSeat(g)
  {
    Seat(u.c.player[i], u.numPlayers[i])
  }

  /** Every seating of 2 to 4 peers is one, whether or not absent players are faked. */
  lemma SeatingsAreValid(player: seq<nat>, fake: bool)
    requires 2 <= |player| <= 4 && forall i :: 0 <= i < |player| ==> player[i] < |player|
    requires forall i, j :: 0 <= i < j < |player| ==> player[i] != player[j]
    ensures ValidSetup(Setup(Circle(4, 16, player), seq(|player|, _ => if fake then 4 else |player|)))
  {
    CirclesAreValid(4, 16, player);
  }

  datatype Step =
    | ReadSector(i: nat)
    | StartWrite(i: nat, data: Multio)
    | EndWrite(i: nat)
    | Traffic(a: Action)

  ghost predicate Fits(u: Setup, w: World) {
    && ValidSetup(u) && Shape(u.c, w.net)
    && |w.disks| == |w.written| == |w.results| == u.c.n
  }

  function PowerOn(u: Setup): (w: World)
    requires ValidSetup(u)
    ensures Fits(u, w)
  {
    World(Initial(u.c), seq(u.c.n, _ => POWERED_ON), seq(u.c.n, _ => []), seq(u.c.n, _ => []))
  }

  ghost predicate Possible(u: Setup, w: World, s: Step) {
    && Fits(u, w)
    && match s
       case ReadSector(i) => i < u.c.n && !w.net.waiting[i]
       case StartWrite(i, _) => i < u.c.n && !w.net.waiting[i]
       case EndWrite(i) => i < u.c.n && Enabled(u.c, w.net, Finish(i))
       case Traffic(a) => (a.Resend? || a.Deliver?) && Enabled(u.c, w.net, a)
  }

  ghost function Take(u: Setup, w: World, s: Step): (r: World)
    requires Fits(u, w) && Possible(u, w, s)
    ensures Fits(u, r)
  {
    match s
    case ReadSector(i) =>
      w.(disks := w.disks[i := AfterRead(SeatOf(u, i), w.disks[i])])
    case StartWrite(i, data) =>
      if w.disks[i].state == Init then
        w.(disks := w.disks[i := AfterFirstWrite(SeatOf(u, i), data)])
      else
        var cmd := data.key[u.c.player[i]];
        w.(net := Next(u.c, w.net, Begin(i, cmd)),
           disks := w.disks[i := AfterRefusal(w.disks[i], data)],
           written := w.written[i := w.written[i] + [cmd]])
    case EndWrite(i) =>
      var d := AfterSwap(SeatOf(u, i), w.disks[i].multio, Collect(w.net.peers[i].nodes));
      w.(net := Next(u.c, w.net, Finish(i)),
         disks := w.disks[i := d],
         results := w.results[i := w.results[i] + [d.multio]])
    case Traffic(a) =>
      w.(net := Next(u.c, w.net, a))
  }

  ghost predicate IsStory(u: Setup, w: World, steps: seq<Step>)
    decreases |steps|
  {
    && Fits(u, w)
    && (steps == [] || (Possible(u, w, steps[0]) && IsStory(u, Take(u, w, steps[0]), steps[1..])))
  }

  ghost function Ending(u: Setup, w: World, steps: seq<Step>): (r: World)
    requires Fits(u, w) && IsStory(u, w, steps)
    ensures Fits(u, r)
    decreases |steps|
  {
    if steps == [] then w else Ending(u, Take(u, w, steps[0]), steps[1..])
  }

  ghost predicate Reached(u: Setup, w: World) {
    ValidSetup(u) && exists steps :: IsStory(u, PowerOn(u), steps) && Ending(u, PowerOn(u), steps) == w
  }

  /** The record the latest completed write left in the game's buffer. */
  function Latest(w: World, i: nat): Multio
    requires i < |w.results| && w.results[i] != []
  {
    w.results[i][|w.results[i]| - 1]
  }

  /** A disk and the protocol under it agree. While peer i is not writing, what its disk holds
      is what its latest completed write left, with the turn passed on once it has been read. */
  ghost predicate DiskOk(u: Setup, w: World, i: nat) {
    && Fits(u, w) && i < u.c.n
    && w.written[i] == w.net.asked[i]
    && (w.disks[i].state == Init ==> w.written[i] == [] && !w.net.waiting[i])
    && |w.results[i]| == |w.net.returned[i]|
    && (w.results[i] != [] ==> w.disks[i].state != Init)
    && (w.results[i] != [] && !w.net.waiting[i] ==> w.disks[i].multio.key == Latest(w, i).key)
    && (w.disks[i].state == WaitingWrite && !w.net.waiting[i] ==> w.disks[i].multio.lastPlayer == YourTurn(SeatOf(u, i)))
    && (forall k :: 0 <= k < |w.results[i]| ==> ResultOk(u, w, i, k))
  }

  ghost predicate ResultOk(u: Setup, w: World, i: nat, k: nat) {
    && Fits(u, w) && i < u.c.n && k < |w.results[i]| == |w.net.returned[i]|
    && |w.net.returned[i][k]| == MAX_PLAYERS
    && w.results[i][k].lastPlayer == u.numPlayers[i] - 1
    && forall p :: 0 <= p < u.numPlayers[i] ==> w.results[i][k].key[p] == w.net.returned[i][k][p]
  }

  ghost predicate WorldInv(u: Setup, w: World) {
    Fits(u, w) && Inv(u.c, w.net) && forall i :: 0 <= i < u.c.n ==> DiskOk(u, w, i)
  }

  lemma PowerOnInv(u: Setup)
    requires ValidSetup(u)
    ensures WorldInv(u, PowerOn(u))
  {
    InitialInv(u.c);
  }

  lemma StartWriteInv(u: Setup, w: World, i: nat, data: Multio)
    requires WorldInv(u, w) && Possible(u, w, StartWrite(i, data))
    ensures WorldInv(u, Take(u, w, StartWrite(i, data)))
  {
    var r := Take(u, w, StartWrite(i, data));
    if w.disks[i].state != Init {
      BeginEffect(u.c, w.net, i, data.key[u.c.player[i]]);
      BeginInv(u.c, w.net, i, data.key[u.c.player[i]]);
    }
    forall j | 0 <= j < u.c.n ensures DiskOk(u, r, j) {
      assert DiskOk(u, w, j);
      forall k | 0 <= k < |r.results[j]| ensures ResultOk(u, r, j, k) { assert ResultOk(u, w, j, k); }
    }
  }

  lemma EndWriteInv(u: Setup, w: World, i: nat)
    requires WorldInv(u, w) && Possible(u, w, EndWrite(i))
    ensures WorldInv(u, Take(u, w, EndWrite(i)))
  {
    var r := Take(u, w, EndWrite(i));
    FinishInv(u.c, w.net, i);
    forall j | 0 <= j < u.c.n ensures DiskOk(u, r, j) {
      assert DiskOk(u, w, j);
      forall k | 0 <= k < |r.results[j]| ensures ResultOk(u, r, j, k) {
        if k < |w.results[j]| { assert ResultOk(u, w, j, k); }
      }
    }
  }

  lemma ReadInv(u: Setup, w: World, i: nat)
    requires WorldInv(u, w) && Possible(u, w, ReadSector(i))
    ensures WorldInv(u, Take(u, w, ReadSector(i)))
  {
    var r := Take(u, w, ReadSector(i));
    forall j | 0 <= j < u.c.n ensures DiskOk(u, r, j) {
      assert DiskOk(u, w, j);
      forall k | 0 <= k < |r.results[j]| ensures ResultOk(u, r, j, k) { assert ResultOk(u, w, j, k); }
    }
  }

  lemma TrafficInv(u: Setup, w: World, a: Action)
    requires WorldInv(u, w) && Possible(u, w, Traffic(a))
    ensures WorldInv(u, Take(u, w, Traffic(a)))
  {
    NextInv(u.c, w.net, a);
    var r := Take(u, w, Traffic(a));
    forall j | 0 <= j < u.c.n ensures DiskOk(u, r, j) {
      assert DiskOk(u, w, j);
      forall k | 0 <= k < |r.results[j]| ensures ResultOk(u, r, j, k) { assert ResultOk(u, w, j, k); }
    }
  }

  lemma StepInv(u: Setup, w: World, s: Step)
    requires WorldInv(u, w) && Possible(u, w, s)
    ensures WorldInv(u, Take(u, w, s))
  {
    match s
    case StartWrite(i, data) => StartWriteInv(u, w, i, data);
    case EndWrite(i) => EndWriteInv(u, w, i);
    case ReadSector(i) => ReadInv(u, w, i);
    case Traffic(a) => TrafficInv(u, w, a);
  }

  lemma {:induction false} StoryInv(u: Setup, w: World, steps: seq<Step>)
    requires WorldInv(u, w) && IsStory(u, w, steps)
    ensures WorldInv(u, Ending(u, w, steps))
    decreases |steps|
  {
    if steps != [] {
      StepInv(u, w, steps[0]);
      StoryInv(u, Take(u, w, steps[0]), steps[1..]);
    }
  }

  lemma ReachedInv(u: Setup, w: World)
    requires Reached(u, w)
    ensures WorldInv(u, w)
  {
    var steps :| IsStory(u, PowerOn(u), steps) && Ending(u, PowerOn(u), steps) == w;
    PowerOnInv(u);
    StoryInv(u, PowerOn(u), steps);
  }

  lemma ResultIsRound(u: Setup, w: World, i: nat, k: nat)
    requires WorldInv(u, w) && i < u.c.n && k < |w.results[i]|
    ensures w.written[i] == w.net.asked[i] && k < |w.net.returned[i]| && |w.net.returned[i][k]| == MAX_PLAYERS
    ensures forall p :: 0 <= p < u.numPlayers[i] ==> w.results[i][k].key[p] == w.net.returned[i][k][p]
  {
    assert DiskOk(u, w, i);
    assert ResultOk(u, w, i, k);
  }

  lemma SameKeys(u: Setup, w: World, i: nat, j: nat, k: nat, p: nat)
    requires WorldInv(u, w) && i < u.c.n && j < u.c.n && k < |w.results[i]| && k < |w.results[j]|
    requires p < u.numPlayers[i] && p < u.numPlayers[j]
    ensures w.results[i][k].key[p] == w.results[j][k].key[p]
  {
    ResultIsRound(u, w, i, k);
    ResultIsRound(u, w, j, k);
    InvLockstep(u.c, w.net, i, j, k);
  }

  lemma DelayedKey(u: Setup, w: World, i: nat, j: nat, k: nat)
    requires WorldInv(u, w) && i < u.c.n && j < u.c.n && k < |w.results[i]| && k < |w.results[j]|
    requires u.c.player[j] < u.numPlayers[i]
    ensures k >= u.c.delay - 1 ==> k - (u.c.delay - 1) < |w.written[j]|
    ensures w.results[i][k].key[u.c.player[j]]
         == (if k < u.c.delay - 1 then 0 else w.written[j][k - (u.c.delay - 1)])
  {
    ResultIsRound(u, w, i, k);
    ResultIsRound(u, w, j, k);
    InvLockstep(u.c, w.net, i, j, k);
  }

  lemma NobodysKey(u: Setup, w: World, i: nat, k: nat, p: nat)
    requires WorldInv(u, w) && i < u.c.n && k < |w.results[i]|
    requires p < u.numPlayers[i] && p !in u.c.player
    ensures w.results[i][k].key[p] == 0
  {
    ResultIsRound(u, w, i, k);
    InvLockstep(u.c, w.net, i, i, k);
  }

  /** After its k-th completed write (k counts from 0 here), every peer sees the same
      commands: for a player q of the game, the one q's peer put into its own write number
      k-(DELAY-1), or 0 if there is none that early; for a player nobody plays, 0. */
  lemma EveryCopyIsTheSameLog(u: Setup, w: World, i: nat, j: nat, k: nat)
    requires Reached(u, w) && i < u.c.n && j < u.c.n
    requires k < |w.results[i]| && k < |w.results[j]|
    ensures forall p :: 0 <= p < u.numPlayers[i] && p < u.numPlayers[j] ==>
      w.results[i][k].key[p] == w.results[j][k].key[p]
    ensures u.c.player[j] < u.numPlayers[i] ==>
      && (k >= u.c.delay - 1 ==> k - (u.c.delay - 1) < |w.written[j]|)
      && w.results[i][k].key[u.c.player[j]]
         == (if k < u.c.delay - 1 then 0 else w.written[j][k - (u.c.delay - 1)])
    ensures forall p :: 0 <= p < u.numPlayers[i] && p !in u.c.player ==> w.results[i][k].key[p] == 0
  {
    ReachedInv(u, w);
    forall p | 0 <= p < u.numPlayers[i] && p < u.numPlayers[j]
      ensures w.results[i][k].key[p] == w.results[j][k].key[p]
    {
      SameKeys(u, w, i, j, k, p);
    }
    if u.c.player[j] < u.numPlayers[i] { DelayedKey(u, w, i, j, k); }
    forall p | 0 <= p < u.numPlayers[i] && p !in u.c.player ensures w.results[i][k].key[p] == 0 {
      NobodysKey(u, w, i, k, p);
    }
  }

  lemma HandedOut(u: Setup, w: World, i: nat)
    requires WorldInv(u, w) && Possible(u, w, ReadSector(i)) && w.results[i] != []
    ensures var handedOut := Take(u, w, ReadSector(i)).disks[i].multio;
      handedOut.key == Latest(w, i).key && (handedOut.lastPlayer + 1) % u.numPlayers[i] == u.c.player[i]
  {
    assert DiskOk(u, w, i);
    YourTurnComesNext(SeatOf(u, i));
  }

  lemma TwoReadsAgree(u: Setup, w: World, i: nat, j: nat)
    requires Reached(u, w) && Possible(u, w, ReadSector(i)) && Possible(u, w, ReadSector(j))
    requires |w.results[i]| == |w.results[j]| > 0
    ensures SameGameKeys(u, i, j, Take(u, w, ReadSector(i)).disks[i].multio, Take(u, w, ReadSector(j)).disks[j].multio)
  {
    ReachedInv(u, w);
    HandedOut(u, w, i);
    HandedOut(u, w, j);
    EveryCopyIsTheSameLog(u, w, i, j, |w.results[i]| - 1);
  }

  /** What a read of the data sector hands out is the log as well: once a write after the first
      has completed, a peer that reads gets the keys of its latest such write, so that two peers
      that have completed equally many read the same. */
  lemma ReadsTheLog(u: Setup, w: World, i: nat)
    requires Reached(u, w) && Possible(u, w, ReadSector(i)) && w.results[i] != []
    ensures var handedOut := Take(u, w, ReadSector(i)).disks[i].multio;
      && handedOut.key == Latest(w, i).key
      && (handedOut.lastPlayer + 1) % u.numPlayers[i] == u.c.player[i]
      && forall j :: 0 <= j < u.c.n && Possible(u, w, ReadSector(j)) && |w.results[j]| == |w.results[i]| ==>
        SameGameKeys(u, i, j, handedOut, Take(u, w, ReadSector(j)).disks[j].multio)
  {
    ReachedInv(u, w);
    HandedOut(u, w, i);
    forall j | 0 <= j < u.c.n && Possible(u, w, ReadSector(j)) && |w.results[j]| == |w.results[i]|
      ensures SameGameKeys(u, i, j, Take(u, w, ReadSector(i)).disks[i].multio, Take(u, w, ReadSector(j)).disks[j].multio)
    {
      TwoReadsAgree(u, w, i, j);
    }
  }

  ghost predicate SameGameKeys(u: Setup, i: nat, j: nat, a: Multio, b: Multio) {
    && ValidSetup(u) && i < u.c.n && j < u.c.n
    && forall p :: 0 <= p < u.numPlayers[i] && p < u.numPlayers[j] ==> a.key[p] == b.key[p]
  }

  /** SwapCommand runs once for every write after the first and never refuses one: the write
      calls it for the disk's own player, and every store of its push fits its array. */
  lemma WritesNeverFail(u: Setup, w: World, i: nat, data: Multio)
    requires Reached(u, w) && Possible(u, w, StartWrite(i, data)) && w.disks[i].state != Init
    ensures !TooFarAhead(w.net.peers[i], u.c.maxDelay)
    ensures forall k :: 0 <= k < u.c.n ==> PushFits(w.net.peers[i], k, u.c.maxDelay)
    ensures w.net.peers[i].nodes[0].player == SeatOf(u, i).consolePlayer
    ensures Take(u, w, StartWrite(i, data)).net.waiting[i]
    ensures w.written[i] == w.net.asked[i] && |w.results[i]| == |w.written[i]|
  {
    ReachedInv(u, w);
    assert DiskOk(u, w, i) && PeerOk(u.c, w.net, i);
    InvPushesFit(u.c, w.net, i);
    OwnPlayer(u.c, w.net, i);
  }
}
