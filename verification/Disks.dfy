/** The emulated disk of fakedisk.c: how reads and writes of SOPWITH1.DTA move its state. */
module Disks {
  import opened Octets
  import opened Options
  import opened Windows

  const PLAYER_WAITING: Octet := 0
  const PLAYER_FLYING: Octet := 1
  const EXPL_RANDOM_SEED: Octet := 0x84

  datatype State = Init | WaitingRead | WaitingWrite

  /** struct sop_multio, the first bytes of the data sector. */
  datatype Record = Record(maxPlayers: Octet, numPlayers: Octet, lastPlayer: Octet,
                           key: seq<Cmd>, state: seq<Octet>, explseed: Octet)

  type Multio = m: Record | |m.key| == MAX_PLAYERS && |m.state| == MAX_PLAYERS
    witness Record(0, 0, 0, [0, 0, 0, 0], [0, 0, 0, 0], 0)

  const BLANK: Multio := Record(0, 0, 0, [0, 0, 0, 0], [0, 0, 0, 0], 0)

  /** consoleplayer and num_players as InitProtocol sets them. */
  datatype Seat = Seat(consolePlayer: nat, numPlayers: nat)

  predicate ValidSeat(g: Seat) {
    g.consolePlayer < g.numPlayers <= MAX_PLAYERS
  }

  datatype Disk = Disk(state: State, multio: Multio)

  const POWERED_ON: Disk := Disk(Init, BLANK)

  /** The player before this one: the disk says it is this player's turn. */
  function YourTurn(g: Seat): Octet
    requires ValidSeat(g)
  {
    (g.consolePlayer + g.numPlayers - 1) % g.numPlayers
  }

  function WithStates(m: Multio, n: nat, flying: nat): (r: Multio)
    requires n <= MAX_PLAYERS
  {
    m.(state := seq(MAX_PLAYERS, i requires 0 <= i < MAX_PLAYERS =>
      if i >= n then m.state[i] else if i < flying then PLAYER_FLYING else PLAYER_WAITING))
  }

  /** ReadData; the caller's buffer becomes the new multio. */
  function AfterRead(g: Seat, d: Disk): Disk
    requires ValidSeat(g)
  {
    match d.state
    case Init =>
      d.(multio := WithStates(d.multio, g.numPlayers, g.consolePlayer).(
           maxPlayers := g.numPlayers, numPlayers := 1, explseed := EXPL_RANDOM_SEED))
    case WaitingRead => Disk(WaitingWrite, d.multio.(lastPlayer := YourTurn(g)))
    case WaitingWrite => d
  }

  /** WriteData's first call ever. */
  function AfterFirstWrite(g: Seat, data: Multio): Disk
    requires ValidSeat(g)
  {
    Disk(WaitingRead, WithStates(data, g.numPlayers, g.numPlayers).(
           numPlayers := g.numPlayers, lastPlayer := g.numPlayers - 1))
  }

  /** Any later WriteData once SwapCommand has returned `cmds`. */
  function AfterSwap(g: Seat, data: Multio, cmds: seq<Cmd>): Disk
    requires ValidSeat(g) && |cmds| == MAX_PLAYERS
  {
    Disk(WaitingRead, data.(
           key := seq(MAX_PLAYERS, i requires 0 <= i < MAX_PLAYERS => if i < g.numPlayers then cmds[i] else data.key[i]),
           lastPlayer := g.numPlayers - 1))
  }

  /** A later WriteData whose SwapCommand refuses: the buffer is kept all the same. */
  function AfterRefusal(d: Disk, data: Multio): Disk {
    d.(multio := data)
  }

  // ------------------------------------------------------------------------------------
  // Any sequence of calls on one disk.

  /** What can happen to the data sector. A write after the first comes with what its
      SwapCommand returned, None for a refusal. */
  datatype Call = Read | Write(data: Multio, swap: Option<seq<Cmd>>)

  predicate ValidCall(c: Call) {
    c.Write? && c.swap.Some? ==> |c.swap.value| == MAX_PLAYERS
  }

  function Apply(g: Seat, d: Disk, c: Call): Disk
    requires ValidSeat(g) && ValidCall(c)
  {
    match c
    case Read => AfterRead(g, d)
    case Write(data, swap) =>
      if d.state == Init then AfterFirstWrite(g, data)
      else if swap.Some? then AfterSwap(g, data, swap.value)
      else AfterRefusal(d, data)
  }

  /** The command the call passes to SwapCommand, if it calls it at all. */
  function Swapped(g: Seat, d: Disk, c: Call): seq<Cmd>
    requires ValidSeat(g)
  {
    if c.Write? && d.state != Init then [c.data.key[g.consolePlayer]] else []
  }

  ghost predicate ValidCalls(calls: seq<Call>) { forall c :: c in calls ==> ValidCall(c) }

  ghost function After(g: Seat, d: Disk, calls: seq<Call>): Disk
    requires ValidSeat(g) && ValidCalls(calls)
  {
    if calls == [] then d else Apply(g, After(g, d, calls[..|calls| - 1]), calls[|calls| - 1])
  }

  /** Every command passed to SwapCommand, in order. */
  ghost function AllSwapped(g: Seat, d: Disk, calls: seq<Call>): seq<Cmd>
    requires ValidSeat(g) && ValidCalls(calls)
  {
    if calls == [] then []
    else
      var front := calls[..|calls| - 1];
      AllSwapped(g, d, front) + Swapped(g, After(g, d, front), calls[|calls| - 1])
  }

  /** The commands of all writes, the first included. */
  ghost function Written(g: Seat, calls: seq<Call>): seq<Cmd>
    requires ValidSeat(g)
  {
    if calls == [] then []
    else
      var last := calls[|calls| - 1];
      Written(g, calls[..|calls| - 1]) + if last.Write? then [last.data.key[g.consolePlayer]] else []
  }

  /** SwapCommand runs exactly once for every write after the first, with the command that
      write carries, and the first write ends INIT for good. */
  lemma {:induction false} OneSwapPerLaterWrite(g: Seat, calls: seq<Call>)
    requires ValidSeat(g) && ValidCalls(calls)
    ensures After(g, POWERED_ON, calls).state == Init <==> Written(g, calls) == []
    ensures AllSwapped(g, POWERED_ON, calls) == if Written(g, calls) == [] then [] else Written(g, calls)[1..]
  {
    if calls != [] {
      var front, last := calls[..|calls| - 1], calls[|calls| - 1];
      assert last in calls;
      OneSwapPerLaterWrite(g, front);
      var w := Written(g, front);
      if last.Write? && w != [] {
        assert (w + [last.data.key[g.consolePlayer]])[1..] == w[1..] + [last.data.key[g.consolePlayer]];
      }
    }
  }

  lemma YourTurnComesNext(g: Seat)
    requires ValidSeat(g)
    ensures YourTurn(g) < g.numPlayers && (YourTurn(g) + 1) % g.numPlayers == g.consolePlayer
  {
    if g.consolePlayer > 0 {
      assert g.consolePlayer + g.numPlayers - 1 == (g.consolePlayer - 1) + g.numPlayers;
    }
  }

  lemma SecondReadChangesNothing(g: Seat, d: Disk)
    requires ValidSeat(g)
    ensures AfterRead(g, AfterRead(g, d)) == AfterRead(g, d)
  {
    if d.state == Init {
      assert AfterRead(g, AfterRead(g, d)).multio.state == AfterRead(g, d).multio.state;
    }
  }

  /** However often it is read between two writes, the data sector always has one content. */
  lemma {:induction false} ReadsSettle(g: Seat, d: Disk, n: nat)
    requires ValidSeat(g) && 0 < n
    ensures After(g, d, seq(n, _ => Read)) == AfterRead(g, d)
    decreases n
  {
    var calls: seq<Call> := seq(n, _ => Read);
    var fewer: seq<Call> := seq(n - 1, _ => Read);
    assert calls[..n - 1] == fewer;
    if n > 1 {
      ReadsSettle(g, d, n - 1);
      SecondReadChangesNothing(g, d);
    } else {
      assert fewer == [];
    }
  }

  /** Before its first write the game is told of one player, itself, and of one flying player
      for every player before this one, so that the first free seat it finds is this player's;
      every peer gets the same random seed. */
  lemma {:induction false} FirstFreeSeatIsYours(g: Seat, n: nat)
    requires ValidSeat(g) && 0 < n
    ensures var r := After(g, POWERED_ON, seq(n, _ => Read));
      && r.state == Init
      && (forall i :: 0 <= i < g.consolePlayer ==> r.multio.state[i] == 1)
      && (forall i :: g.consolePlayer <= i < MAX_PLAYERS ==> r.multio.state[i] == 0)
      && r.multio.explseed == 0x84
      && r.multio.numPlayers == 1 && r.multio.maxPlayers == g.numPlayers
      && r.multio.lastPlayer == 0 && r.multio.key == [0, 0, 0, 0]
  {
    ReadsSettle(g, POWERED_ON, n);
  }

  /** Everyone has joined: the first n players are flying, the other states are what the game
      wrote. */
  ghost predicate AllJoined(m: Multio, data: Multio, n: nat) {
    && n <= MAX_PLAYERS
    && (forall i :: 0 <= i < n ==> m.state[i] == 1)
    && (forall i :: n <= i < MAX_PLAYERS ==> m.state[i] == data.state[i])
  }

  /** The first write tells the game that everyone has joined: all seats in the game are taken,
      num_players is their number and the last of them has just moved. Reads then only pass the
      turn to this player; all else stays what the game wrote. */
  lemma {:induction false} EveryoneJoins(g: Seat, data: Multio, n: nat)
    requires ValidSeat(g)
    ensures var r := After(g, AfterFirstWrite(g, data), seq(n, _ => Read));
      && r.state == (if n == 0 then WaitingRead else WaitingWrite)
      && r.multio.numPlayers == g.numPlayers
      && AllJoined(r.multio, data, g.numPlayers)
      && r.multio.lastPlayer == (if n == 0 then g.numPlayers - 1 else YourTurn(g))
      && r.multio.maxPlayers == data.maxPlayers && r.multio.explseed == data.explseed && r.multio.key == data.key
  {
    if n == 0 {
      assert seq(n, _ => Read) == [];
    } else {
      ReadsSettle(g, AfterFirstWrite(g, data), n);
    }
  }

  /** A later write hands the players' commands out and says that the last player has just
      moved; reads then only pass the turn to this player. All else, the keys of seats nobody
      has included, stays what the game wrote. */
  lemma {:induction false} CommandsHandedOut(g: Seat, data: Multio, cmds: seq<Cmd>, n: nat)
    requires ValidSeat(g) && |cmds| == MAX_PLAYERS
    ensures var r := After(g, AfterSwap(g, data, cmds), seq(n, _ => Read));
      && r.state == (if n == 0 then WaitingRead else WaitingWrite)
      && (forall p :: 0 <= p < g.numPlayers ==> r.multio.key[p] == cmds[p])
      && (forall p :: g.numPlayers <= p < MAX_PLAYERS ==> r.multio.key[p] == data.key[p])
      && r.multio.lastPlayer == (if n == 0 then g.numPlayers - 1 else YourTurn(g))
      && r.multio.maxPlayers == data.maxPlayers && r.multio.numPlayers == data.numPlayers
      && r.multio.state == data.state && r.multio.explseed == data.explseed
  {
    if n == 0 {
      assert seq(n, _ => Read) == [];
    } else {
      ReadsSettle(g, AfterSwap(g, data, cmds), n);
    }
  }

  /** A refused write keeps the game's record as it is and leaves the disk where it was: the
      next reads hand that record back, with the turn passed to this player unless it had been
      passed on already. */
  lemma {:induction false} RefusedWriteIsKept(g: Seat, d: Disk, data: Multio, n: nat)
    requires ValidSeat(g) && d.state != Init
    ensures var r := After(g, AfterRefusal(d, data), seq(n, _ => Read));
      && r.state == (if n == 0 then d.state else WaitingWrite)
      && r.multio == if n > 0 && d.state == WaitingRead then data.(lastPlayer := YourTurn(g)) else data
  {
    if n == 0 {
      assert seq(n, _ => Read) == [];
    } else {
      ReadsSettle(g, AfterRefusal(d, data), n);
    }
  }

  /** Between two writes, once a write has gone through, every read returns the same record:
      the one that write left - all players flying after the first, the players' commands
      filled in after a later one - with the turn passed to this player. */
  lemma {:induction false} ReadsAgree(g: Seat, data: Multio, cmds: seq<Cmd>, n: nat)
    requires ValidSeat(g) && |cmds| == MAX_PLAYERS && 0 < n
    ensures var written := AfterSwap(g, data, cmds);
      var r := After(g, written, seq(n, _ => Read));
      && r == Disk(WaitingWrite, written.multio.(lastPlayer := YourTurn(g)))
      && r.multio.lastPlayer < g.numPlayers && (r.multio.lastPlayer + 1) % g.numPlayers == g.consolePlayer
      && (forall p :: 0 <= p < g.numPlayers ==> r.multio.key[p] == cmds[p])
    ensures var r := After(g, AfterFirstWrite(g, data), seq(n, _ => Read));
      && r.state == WaitingWrite && r.multio.key == data.key
      && r.multio.lastPlayer < g.numPlayers && (r.multio.lastPlayer + 1) % g.numPlayers == g.consolePlayer
      && (forall p :: 0 <= p < g.numPlayers ==> r.multio.state[p] == PLAYER_FLYING)
  {
    YourTurnComesNext(g);
    ReadsSettle(g, AfterSwap(g, data, cmds), n);
    ReadsSettle(g, AfterFirstWrite(g, data), n);
  }
}
