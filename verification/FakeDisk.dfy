/** fakedisk.c itself: sector reads and writes that change the static state in place and
    drive the protocol. */
module FakeDisk {
  import opened Windows
  import opened Peers
  import opened Polls
  import opened Disks
  import Protocol

  const SECTOR_BOOT := 0
  const SECTOR_DIRECTORY := 2
  const SECTOR_SOPWITH1 := 3
  const SECTOR_SEMAPHOR := 4

  /** What a sector write comes to; Hung is a SwapCommand still waiting when its polls run out. */
  datatype WriteResult = Ok | Fail | Hung

  /** What a write after the first comes to, if its SwapCommand comes to `out`: the disk
      afterwards, what the game is told and what its buffer holds. */
  ghost predicate LaterWrite(g: Seat, before: Disk, data: Multio, out: SwapOutcome,
                             after: Disk, result: WriteResult, buffer: Multio)
    requires ValidSeat(g)
  {
    match out
    case Refused => result == Fail && after == AfterRefusal(before, data) && buffer == data
    case Blocked => result == Hung && after == AfterRefusal(before, data) && buffer == data
    case Completed(_, cmds) =>
      result == Ok && |cmds| == MAX_PLAYERS && after == AfterSwap(g, data, cmds) && buffer == after.multio
  }

  class Drive {
    const protocol: Protocol.Endpoint
    var state: State
    var multio: Multio
    var locked: bool

    constructor (protocol: Protocol.Endpoint)
      ensures this.protocol == protocol
      ensures View() == POWERED_ON && !locked
    {
      this.protocol := protocol;
      state, multio, locked := Init, BLANK, false;
    }

    function View(): Disk
      reads this
    {
      Disk(state, multio)
    }

    /** consoleplayer and num_players, which are the protocol's. */
    function Chair(): Seat
      reads protocol
    {
      Seat(protocol.consolePlayer, protocol.numPlayers)
    }

    ghost predicate Valid()
      reads this, protocol, protocol.NodesRepr()
    {
      ValidSeat(Chair()) && this !in protocol.Repr() && protocol.Valid()
    }

    /** The loops that set the first n states, FLYING below `flying`. */
    method SetStates(n: nat, flying: nat)
      requires n <= MAX_PLAYERS
      modifies this`multio
      ensures multio == WithStates(old(multio), n, flying)
    {
      ghost var before := multio;
      for i := 0 to n
        invariant multio == before.(state := multio.state)
        invariant forall k :: 0 <= k < MAX_PLAYERS ==>
          multio.state[k] == if k >= i then before.state[k] else if k < flying then PLAYER_FLYING else PLAYER_WAITING
      {
        multio := multio.(state := multio.state[i := if i < flying then PLAYER_FLYING else PLAYER_WAITING]);
      }
      assert multio.state == WithStates(before, n, flying).state;
    }

    method ReadData() returns (data: Multio)
      requires ValidSeat(Chair())
      modifies this`state, this`multio
      ensures View() == AfterRead(Chair(), old(View())) && data == multio
    {
      match state {
        case Init =>
          multio := multio.(maxPlayers := protocol.numPlayers);
          SetStates(protocol.numPlayers, protocol.consolePlayer);
          multio := multio.(numPlayers := 1);
          multio := multio.(explseed := EXPL_RANDOM_SEED);
        case WaitingRead =>
          multio := multio.(lastPlayer := (protocol.consolePlayer + protocol.numPlayers - 1) % protocol.numPlayers);
          state := WaitingWrite;
        case WaitingWrite =>
      }
      data := multio;
    }

    method TakeCommands(cmds: seq<Cmd>)
      requires Valid() && |cmds| == MAX_PLAYERS
      modifies this`state, this`multio
      ensures Valid() && View() == AfterSwap(Chair(), old(multio), cmds)
      ensures protocol.model == old(protocol.model)
    {
      ghost var before := multio;
      for i := 0 to protocol.numPlayers
        invariant multio == before.(key := multio.key)
        invariant forall k :: 0 <= k < MAX_PLAYERS ==> multio.key[k] == if k < i then cmds[k] else before.key[k]
      {
        multio := multio.(key := multio.key[i := cmds[i]]);
      }
      assert multio.key == AfterSwap(Chair(), before, cmds).multio.key;
      multio := multio.(lastPlayer := protocol.numPlayers - 1);
      state := WaitingRead;
    }

    method FirstWrite()
      requires Valid()
      modifies this`state, this`multio
      ensures Valid() && Chair() == old(Chair()) && View() == AfterFirstWrite(Chair(), old(multio))
      ensures protocol.model == old(protocol.model)
    {
      SetStates(protocol.numPlayers, protocol.numPlayers);
      multio := multio.(numPlayers := protocol.numPlayers, lastPlayer := protocol.numPlayers - 1);
      state := WaitingRead;
    }

    method Swap(cmd: Cmd, polls: seq<Poll>) returns (out: SwapOutcome, sent: seq<Frame>)
      requires Valid()
      requires FromNodes(polls, protocol.numNodes)
      requires !TooFarAhead(protocol.model, protocol.maxDelay) ==>
        forall k :: 0 <= k < protocol.numNodes ==> PushFits(protocol.model, k, protocol.maxDelay)
      modifies protocol.Repr()
      ensures Valid() && View() == old(View()) && Chair() == old(Chair())
      ensures SwapResult(old(protocol.model), protocol.maxDelay, cmd, polls, out, sent, protocol.model)
    {
      out, sent := protocol.SwapCommand(cmd, polls);
    }

    /** `buffer` is what the caller's sector holds afterwards. */
    method WriteData(data: Multio, polls: seq<Poll>) returns (result: WriteResult, buffer: Multio, sent: seq<Frame>, ghost out: SwapOutcome)
      requires Valid()
      requires FromNodes(polls, protocol.numNodes)
      requires state != Init && !TooFarAhead(protocol.model, protocol.maxDelay) ==>
        forall k :: 0 <= k < protocol.numNodes ==> PushFits(protocol.model, k, protocol.maxDelay)
      modifies this`state, this`multio, protocol.Repr()
      ensures Valid() && Chair() == old(Chair())
      ensures old(state) == Init ==>
        && result == Ok && View() == AfterFirstWrite(Chair(), data) && buffer == multio
        && protocol.model == old(protocol.model) && sent == []
      ensures old(state) != Init ==>
        && SwapResult(old(protocol.model), protocol.maxDelay, data.key[protocol.consolePlayer], polls, out, sent, protocol.model)
        && LaterWrite(Chair(), old(View()), data, out, View(), result, buffer)
        && (result == Ok <==> out.Completed?) && (result == Fail <==> out.Refused?) && buffer == multio
        && (!out.Completed? ==> View() == Disk(old(state), data))
    {
      buffer, sent, out, result := data, [], Blocked, Hung;
      if state == Init {
        StoreRecord(data);
        FirstWrite();
        buffer := multio;
        result := Ok;
        return;
      }
      StoreRecord(data);
      var swap: SwapOutcome;
      swap, sent := Swap(data.key[protocol.consolePlayer], polls);
      out := swap;
      match swap {
        case Refused => result := Fail;
        case Blocked =>
        case Completed(_, cmds) =>
          TakeCommands(cmds);
          buffer := multio;
          result := Ok;
      }
    }

    method StoreRecord(data: Multio)
      requires Valid()
      modifies this`multio
      ensures Valid() && View() == AfterRefusal(old(View()), data)
      ensures protocol.model == old(protocol.model) && protocol.numNodes == old(protocol.numNodes)
    {
      multio := data;
    }

    /** The semaphore sector's one byte is the record's first. */
    method ReadSemaphore() returns (data: Multio)
      ensures data == BLANK.(maxPlayers := if locked then 0xff else 0xfe)
    {
      data := BLANK.(maxPlayers := if locked then 0xff else 0xfe);
    }

    method WriteSemaphore(data: Multio) returns (ok: bool)
      requires Valid()
      modifies this`locked
      ensures Valid() && protocol.model == old(protocol.model)
      ensures ok <==> data.maxPlayers == 0xfe || data.maxPlayers == 0xff
      ensures locked == if ok then data.maxPlayers == 0xff else old(locked)
    {
      if data.maxPlayers == 0xfe {
        locked := false;
        return true;
      } else if data.maxPlayers == 0xff {
        locked := true;
        return true;
      }
      ok := false;
    }

    /** Only the data and semaphore sectors' contents are part of this model. */
    method ReadSector(sector: nat, cnt: nat) returns (ok: bool, data: Multio)
      requires ValidSeat(Chair())
      modifies this`state, this`multio
      ensures ok <==> cnt == 1 && sector in {0, 2, 3, 4}
      ensures View() == if cnt == 1 && sector == SECTOR_SOPWITH1 then AfterRead(Chair(), old(View())) else old(View())
      ensures ok && sector == SECTOR_SOPWITH1 ==> data == multio
      ensures ok && sector == SECTOR_SEMAPHOR ==> data == BLANK.(maxPlayers := if locked then 0xff else 0xfe)
    {
      ok, data := false, BLANK;
      if cnt != 1 || sector > 16 { return; }
      if sector == SECTOR_SOPWITH1 {
        data := ReadData();
        ok := true;
      } else if sector == SECTOR_SEMAPHOR {
        data := ReadSemaphore();
        ok := true;
      } else {
        ok := sector == SECTOR_BOOT || sector == SECTOR_DIRECTORY;
      }
    }

    method WriteSector(sector: nat, cnt: nat, data: Multio, polls: seq<Poll>)
      returns (result: WriteResult, buffer: Multio, sent: seq<Frame>, ghost out: SwapOutcome)
      requires Valid()
      requires FromNodes(polls, protocol.numNodes)
      requires state != Init && !TooFarAhead(protocol.model, protocol.maxDelay) ==>
        forall k :: 0 <= k < protocol.numNodes ==> PushFits(protocol.model, k, protocol.maxDelay)
      modifies this`state, this`multio, this`locked, protocol.Repr()
      ensures Valid() && Chair() == old(Chair())
      ensures cnt == 1 && sector == SECTOR_SOPWITH1 && old(state) != Init ==>
        && SwapResult(old(protocol.model), protocol.maxDelay, data.key[protocol.consolePlayer], polls, out, sent, protocol.model)
        && LaterWrite(Chair(), old(View()), data, out, View(), result, buffer)
      ensures cnt == 1 && sector == SECTOR_SOPWITH1 && old(state) == Init ==>
        result == Ok && View() == AfterFirstWrite(Chair(), data) && buffer == multio
      ensures !(cnt == 1 && sector == SECTOR_SOPWITH1) ==> View() == old(View()) && buffer == data
      ensures !(cnt == 1 && sector == SECTOR_SOPWITH1 && old(state) != Init) ==>
        protocol.model == old(protocol.model) && sent == []
      ensures cnt == 1 && sector == SECTOR_SEMAPHOR && data.maxPlayers in {0xfe, 0xff} ==>
        result == Ok && locked == (data.maxPlayers == 0xff)
      ensures !(cnt == 1 && sector == SECTOR_SEMAPHOR && data.maxPlayers in {0xfe, 0xff}) ==> locked == old(locked)
      ensures !(cnt == 1 && (sector == SECTOR_SOPWITH1 || (sector == SECTOR_SEMAPHOR && data.maxPlayers in {0xfe, 0xff}))) ==>
        result == Fail
    {
      result, buffer, sent, out := Fail, data, [], Blocked;
      if cnt != 1 { return; }
      if sector == SECTOR_SEMAPHOR {
        var ok := WriteSemaphore(data);
        if ok { result := Ok; }
      } else if sector == SECTOR_SOPWITH1 {
        result, buffer, sent, out := WriteData(data, polls);
      }
    }
  }

  /** A disk over a protocol just initialised. */
  method PowerUp(numnodes: nat, numplayers: nat, consoleplayer: nat, fakePlayers: bool, delay: nat, maxDelay: nat)
    returns (d: Drive)
    requires 1 < numnodes <= MAX_PLAYERS && 0 < delay <= maxDelay
    requires 1 < numplayers <= MAX_PLAYERS && consoleplayer < numplayers
    ensures fresh(d) && fresh(d.protocol.Repr()) && d.Valid() && d.View() == POWERED_ON
    ensures d.Chair() == Seat(consoleplayer, if fakePlayers then MAX_PLAYERS else numplayers)
    ensures d.protocol.model == InitialPeer(numnodes, delay, maxDelay, consoleplayer) && d.protocol.maxDelay == maxDelay
  {
    var e := Protocol.Start(numnodes, numplayers, consoleplayer, fakePlayers, delay, maxDelay);
    d := new Drive(e);
  }
}
