/** protocol.c itself: windows over fixed arrays, updated in place. */
module Protocol {
  import opened Seqs
  import opened Windows
  import opened Peers
  import opened Polls

  /** struct window */
  class WindowBuf {
    var start: nat
    var len: nat
    const slots: array<Cmd>

    constructor (maxDelay: nat)
      ensures View() == Window(0, 0, Zeros(maxDelay))
      ensures fresh(slots)
    {
      start, len := 0, 0;
      slots := new Cmd[maxDelay](_ => 0);
    }

    function Repr(): set<object> { {this, slots} }

    function View(): Window
      reads Repr()
    {
      Window(start, len, slots[..])
    }

    /** memmove towards slot 0. */
    method MoveDown(from: nat, n: nat)
      requires from + n <= slots.Length
      modifies slots
      ensures slots[..] == Moved(old(slots[..]), from, n)
    {
      for i := 0 to n
        invariant forall k :: 0 <= k < i ==> slots[k] == old(slots[k + from])
        invariant forall k :: i <= k < slots.Length ==> slots[k] == old(slots[k])
      {
        slots[i] := slots[i + from];
      }
    }

    method DropFront(cnt: nat)
      requires cnt <= len <= slots.Length
      modifies this, slots
      ensures View() == Trim(old(View()), cnt)
    {
      MoveDown(cnt, len - cnt);
      start := start + cnt;
      len := len - cnt;
    }

    /** The store has no bound test of its own: the array must be long enough. */
    method Push(tic: nat, cmd: Cmd) returns (grew: bool)
      requires tic - start <= slots.Length
      modifies this, slots
      ensures View() == Extend(old(View()), tic, cmd)
      ensures grew == (tic - old(start) > old(len))
    {
      var newLen: int := tic - start;
      grew := newLen > len;
      if grew {
        slots[newLen - 1] := cmd;
        len := newLen;
      }
    }

    method Acknowledge(ack: nat)
      requires len <= slots.Length
      modifies this, slots
      ensures View() == AckTrim(old(View()), ack)
    {
      if start < ack && ack <= start + len {
        DropFront(ack - start);
      }
    }

    method CopyIn(pkt: Packet)
      requires start <= pkt.start
      modifies this, slots
      ensures View() == Merge(old(View()), pkt)
    {
      var at := pkt.start - start;
      var i := 0;
      while i < |pkt.cmds|
        invariant 0 <= i <= |pkt.cmds|
        invariant start == old(start)
        invariant i > 0 ==> at + i <= slots.Length
        invariant len == if i == 0 then old(len) else Max(old(len), at + i)
        invariant forall k :: 0 <= k < slots.Length ==>
          slots[k] == if at <= k < at + i then pkt.cmds[k - at] else old(slots[k])
      {
        if at + i >= slots.Length { break; }
        slots[at + i] := pkt.cmds[i];
        len := if len < at + i + 1 then at + i + 1 else len;
        i := i + 1;
      }
    }
  }

  /** struct node */
  class NodeRec {
    const send: WindowBuf
    const recv: WindowBuf
    var player: int

    constructor (maxDelay: nat)
      ensures View() == StaticNode(maxDelay)
      ensures Separate() && fresh(Repr())
    {
      send := new WindowBuf(maxDelay);
      recv := new WindowBuf(maxDelay);
      player := 0;
    }

    function Repr(): set<object> { {this} + send.Repr() + recv.Repr() }

    predicate Separate() { send != recv && send.slots != recv.slots }

    function View(): Node
      reads Repr()
    {
      Node(send.View(), recv.View(), player)
    }

    /** One turn of InitProtocol's loop. */
    method Reset(delay: nat)
      requires Separate() && 0 < delay
      modifies Repr()
      ensures View() == ResetNode(old(View()), delay, -1)
    {
      player := -1;
      send.start := 0;
      send.len := delay - 1;
      recv.len := 0;
    }

    /** ReceivePacket, for a packet of good length and checksum. */
    method ReceivePacket(pkt: Packet)
      requires Separate() && View().send.Fits()
      modifies Repr()
      ensures View() == Receive(old(View()), pkt)
    {
      if pkt.player >= MAX_PLAYERS || |pkt.cmds| > recv.slots.Length {
        return;
      }
      send.Acknowledge(pkt.ack);
      if pkt.start < recv.start {
        return;
      }
      recv.CopyIn(pkt);
      player := pkt.player;
    }
  }

  /** The static variables of protocol.c. `model` is the state the specification speaks of:
      the nodes in use and the two tic counters. */
  class Endpoint {
    const maxDelay: nat
    const nodes: seq<NodeRec>
    var numNodes: nat
    var maketic: nat
    var gametic: nat
    var consolePlayer: nat
    var numPlayers: nat
    ghost var model: Peer

    function NodesRepr(): set<object> {
      set k, o | 0 <= k < |nodes| && o in nodes[k].Repr() :: o
    }

    function Repr(): set<object> { {this} + NodesRepr() }

    ghost predicate Apart() {
      && |nodes| == MAX_PLAYERS && this !in NodesRepr()
      && (forall k :: 0 <= k < |nodes| ==> nodes[k].Separate())
      && (forall j, k :: 0 <= j < k < |nodes| ==> nodes[j].Repr() !! nodes[k].Repr())
    }

    ghost predicate NodeFits(n: Node) {
      && n.send.Fits() && n.recv.Fits() && |n.send.slots| == |n.recv.slots| == maxDelay
      && -1 <= n.player < MAX_PLAYERS
    }

    /** The nodes in use are what `ns` says. */
    ghost predicate Mirrors(ns: seq<Node>)
      reads NodesRepr()
    {
      && |ns| <= |nodes|
      && forall k :: 0 <= k < |ns| ==> nodes[k].View() == ns[k] && NodeFits(ns[k])
    }

    ghost predicate Valid()
      reads this, NodesRepr()
    {
      && Apart()
      && 0 < numNodes <= MAX_PLAYERS && numNodes == |model.nodes|
      && gametic <= maketic
      && maketic == model.maketic && gametic == model.gametic
      && Mirrors(model.nodes)
    }

    /** Zero-initialised static storage. */
    constructor (maxDelay: nat)
      ensures this.maxDelay == maxDelay && Apart() && fresh(Repr())
      ensures gametic == 0
      ensures forall k :: 0 <= k < MAX_PLAYERS ==> nodes[k].View() == StaticNode(maxDelay)
    {
      this.maxDelay := maxDelay;
      numNodes, maketic, gametic := 0, 0, 0;
      consolePlayer, numPlayers := 0, 0;
      var ns: seq<NodeRec> := [];
      ghost var used: set<object> := {};
      for i := 0 to MAX_PLAYERS
        invariant |ns| == i && fresh(used)
        invariant forall k :: 0 <= k < i ==> ns[k].Separate() && ns[k].Repr() <= used
        invariant forall j, k :: 0 <= j < k < i ==> ns[j].Repr() !! ns[k].Repr()
        invariant forall k :: 0 <= k < i ==> ns[k].View() == StaticNode(maxDelay)
      {
        var n := new NodeRec(maxDelay);
        assert n.Repr() !! used;
        used := used + n.Repr();
        ns := ns + [n];
      }
      nodes := ns;
    }

    /** Resets what the source resets and nothing else: window contents and the receive
        windows' starts keep the values the static storage had. */
    method InitProtocol(numnodes: nat, numplayers: nat, consoleplayer: nat, fakePlayers: bool, delay: nat)
      requires Apart() && 1 < numnodes <= MAX_PLAYERS && 0 < delay
      requires 1 < numplayers <= MAX_PLAYERS && consoleplayer < numplayers
      modifies Repr()
      ensures numNodes == numnodes && maketic == delay && gametic == old(gametic)
      ensures consolePlayer == consoleplayer && numPlayers == if fakePlayers then MAX_PLAYERS else numplayers
      ensures forall k :: 0 <= k < MAX_PLAYERS ==>
        nodes[k].View() == ResetNode(old(nodes[k].View()), delay, if k == 0 then consoleplayer else -1)
      ensures |model.nodes| == numnodes && model.maketic == delay && model.gametic == gametic
      ensures forall k :: 0 <= k < numnodes ==> model.nodes[k] == nodes[k].View()
    {
      ResetAll(delay);
      SetConsole(consoleplayer);
      SetCounters(numnodes, consoleplayer, if fakePlayers then MAX_PLAYERS else numplayers, delay);
    }

    method SetCounters(numnodes: nat, consoleplayer: nat, numplayers: nat, delay: nat)
      requires Apart() && numnodes <= MAX_PLAYERS
      modifies this
      ensures numNodes == numnodes && maketic == delay && gametic == old(gametic)
      ensures consolePlayer == consoleplayer && numPlayers == numplayers
      ensures forall k :: 0 <= k < MAX_PLAYERS ==> nodes[k].View() == old(nodes[k].View())
      ensures |model.nodes| == numnodes && model.maketic == delay && model.gametic == gametic
      ensures forall k :: 0 <= k < numnodes ==> model.nodes[k] == nodes[k].View()
    {
      maketic := delay;
      numNodes := numnodes;
      consolePlayer := consoleplayer;
      numPlayers := numplayers;
      model := Peer(seq(numnodes, k requires 0 <= k < numnodes reads NodesRepr() => nodes[k].View()), maketic, gametic);
    }

    ghost predicate PartlyReset(before: seq<Node>, i: nat, delay: nat)
      requires 0 < delay
      reads NodesRepr()
    {
      && |before| == |nodes|
      && forall k :: 0 <= k < |nodes| ==>
        nodes[k].View() == if k < i then ResetNode(before[k], delay, -1) else before[k]
    }

    /** InitProtocol's loop. */
    method ResetAll(delay: nat)
      requires Apart() && 0 < delay
      modifies NodesRepr()
      ensures forall k :: 0 <= k < MAX_PLAYERS ==> nodes[k].View() == ResetNode(old(nodes[k].View()), delay, -1)
    {
      ghost var before := seq(|nodes|, k requires 0 <= k < |nodes| reads NodesRepr() => nodes[k].View());
      for i := 0 to MAX_PLAYERS
        invariant PartlyReset(before, i, delay)
      {
        ResetAt(i, delay, before);
      }
    }

    method ResetAt(i: nat, delay: nat, ghost before: seq<Node>)
      requires Apart() && 0 < delay && i < |nodes| && PartlyReset(before, i, delay)
      modifies nodes[i].Repr()
      ensures PartlyReset(before, i + 1, delay)
    {
      nodes[i].Reset(delay);
    }

    method SetConsole(player: nat)
      requires Apart()
      modifies NodesRepr()
      ensures nodes[0].View() == old(nodes[0].View()).(player := player)
      ensures forall k :: 1 <= k < MAX_PLAYERS ==> nodes[k].View() == old(nodes[k].View())
    {
      assert nodes[0] in nodes[0].Repr();
      nodes[0].player := player;
    }

    method SendPacket(k: nat) returns (pkt: Packet)
      requires Valid() && k < numNodes
      ensures pkt == OwnPacket(model, k)
    {
      var dest := nodes[k];
      assert NodeFits(model.nodes[k]);
      pkt := Packet(dest.send.start, dest.recv.start + dest.recv.len, nodes[0].player % 256,
                    dest.send.slots[..dest.send.len]);
    }

    method TicReady() returns (result: bool)
      requires Valid()
      ensures result == NewTicReady(model)
    {
      result := true;
      for i := 0 to numNodes
        invariant result == forall k :: 0 <= k < i ==> model.nodes[k].recv.len > 0
      {
        result := result && nodes[i].recv.len > 0;
      }
    }

    method CheckResends(due: set<nat>) returns (sent: seq<Frame>)
      requires Valid()
      ensures sent == Resends(model, due, numNodes)
    {
      sent := [];
      for i := 1 to numNodes
        invariant sent == Resends(model, due, i)
      {
        if i in due {
          var pkt := SendPacket(i);
          sent := sent + [Frame(i, pkt)];
        } else {
          assert sent + [] == sent;
        }
      }
    }

    /** The specification's node k becomes what the node now is. */
    ghost method Resync(k: nat, n: Node)
      requires Apart() && 0 < numNodes <= MAX_PLAYERS && numNodes == |model.nodes| && k < numNodes
      requires gametic <= maketic && maketic == model.maketic && gametic == model.gametic
      requires forall j :: 0 <= j < numNodes && j != k ==> nodes[j].View() == model.nodes[j] && NodeFits(model.nodes[j])
      requires n == nodes[k].View() && NodeFits(n)
      modifies this`model
      ensures Valid() && model == old(model).(nodes := old(model).nodes[k := n])
    {
      model := model.(nodes := model.nodes[k := n]);
    }

    method ReceiveAtNode(k: nat, pkt: Packet)
      requires Valid() && k < numNodes
      modifies this`model, nodes[k].Repr()
      ensures Valid() && model == ReceiveAt(old(model), k, pkt)
    {
      assert NodeFits(model.nodes[k]);
      nodes[k].ReceivePacket(pkt);
      Resync(k, nodes[k].View());
    }

    method ReceivePackets(poll: Poll) returns (sent: seq<Frame>)
      requires Valid()
      requires ArrivalsFrom(poll.arrivals, numNodes)
      modifies this`model, NodesRepr()
      ensures Valid() && model == ReceiveAll(old(model), poll.arrivals)
      ensures sent == Resends(old(model), poll.due, old(numNodes))
    {
      sent := CheckResends(poll.due);
      for i := 0 to |poll.arrivals|
        invariant Valid() && model == ReceiveAll(old(model), poll.arrivals[..i])
      {
        ReceivedOneMore(old(model), poll.arrivals, i);
        ReceiveAtNode(poll.arrivals[i].node, poll.arrivals[i].pkt);
      }
      WholePrefix(poll.arrivals);
    }

    /** The store of SwapCommand's push loop. Nothing but the caller keeps it inside the
        array. */
    method PushAtNode(k: nat, cmd: Cmd) returns (grew: bool)
      requires Valid() && k < numNodes && PushFits(model, k, maxDelay)
      modifies this`model, nodes[k].Repr()
      ensures Valid()
      ensures model == old(model).(nodes := old(model).nodes[k := Pushed(old(model).nodes[k], k, maketic, cmd)])
      ensures k != 0 ==> grew == SendsTo(old(model), k)
    {
      assert NodeFits(model.nodes[k]);
      var window := if k == 0 then nodes[k].recv else nodes[k].send;
      grew := window.Push(maketic, cmd);
      Resync(k, nodes[k].View());
    }

    /** One turn of SwapCommand's push loop. */
    method PushAndSend(k: nat, cmd: Cmd) returns (sent: seq<Frame>)
      requires Valid() && k < numNodes && PushFits(model, k, maxDelay)
      modifies this`model, nodes[k].Repr()
      ensures Valid()
      ensures model == old(model).(nodes := old(model).nodes[k := Pushed(old(model).nodes[k], k, maketic, cmd)])
      ensures sent == if SendsTo(old(model), k) then [Frame(k, OwnPacket(model, k))] else []
    {
      sent := [];
      var grew := PushAtNode(k, cmd);
      if grew && k != 0 {
        var pkt := SendPacket(k);
        sent := [Frame(k, pkt)];
      }
    }

    method PushCommand(cmd: Cmd) returns (sent: seq<Frame>)
      requires Valid()
      requires forall k :: 0 <= k < numNodes ==> PushFits(model, k, maxDelay)
      modifies this`model, NodesRepr()
      ensures Valid() && model == PushAll(old(model), cmd)
      ensures sent == PushSends(old(model), cmd, old(numNodes))
    {
      sent := [];
      ghost var p := model;
      for i := 0 to numNodes
        invariant Valid() && numNodes == |p.nodes|
        invariant PartlyPushed(p, cmd, i, model)
        invariant sent == PushSends(p, cmd, i)
      {
        PushedOneMore(p, cmd, i, model);
        var frame := PushAndSend(i, cmd);
        sent := sent + frame;
      }
      AllPushed(p, cmd, model);
    }

    /** One turn of SwapCommand's consuming loop. */
    method ConsumeAtNode(k: nat, cmds: seq<Cmd>) returns (taken: seq<Cmd>)
      requires Valid() && k < numNodes && model.nodes[k].recv.len > 0 && |cmds| == MAX_PLAYERS
      modifies this`model, nodes[k].Repr()
      ensures Valid()
      ensures model == old(model).(nodes := old(model).nodes[k := Consumed(old(model).nodes[k])])
      ensures taken == Taken(cmds, old(model).nodes[k])
    {
      assert NodeFits(model.nodes[k]);
      taken := cmds;
      if nodes[k].player != -1 {
        taken := taken[nodes[k].player := nodes[k].recv.slots[0]];
        nodes[k].recv.DropFront(1);
      }
      Resync(k, nodes[k].View());
    }

    method ConsumeNodes() returns (cmds: seq<Cmd>)
      requires Valid() && NewTicReady(model)
      modifies this`model, NodesRepr()
      ensures Valid() && model == old(model).(nodes := Advance(old(model)).nodes)
      ensures cmds == Collect(old(model).nodes)
    {
      cmds := Zeros(MAX_PLAYERS);
      ghost var p := model;
      for i := 0 to numNodes
        invariant Valid() && numNodes == |p.nodes|
        invariant PartlyConsumed(p, i, model)
        invariant cmds == Collect(p.nodes[..i])
      {
        ConsumedOneMore(p, i, model);
        cmds := ConsumeAtNode(i, cmds);
      }
      AllConsumed(p, model);
    }

    method CountTic()
      requires Valid()
      modifies this`maketic, this`gametic, this`model
      ensures Valid()
      ensures model == Peer(old(model).nodes, old(model).maketic + 1, old(model).gametic + 1)
    {
      maketic := maketic + 1;
      gametic := gametic + 1;
      model := Peer(model.nodes, maketic, gametic);
    }

    method ConsumeTic() returns (cmds: seq<Cmd>)
      requires Valid() && NewTicReady(model)
      modifies this`maketic, this`gametic, this`model, NodesRepr()
      ensures Valid() && model == Advance(old(model))
      ensures cmds == Collect(old(model).nodes)
    {
      ghost var p := model;
      cmds := ConsumeNodes();
      CountTic();
      AdvanceCounts(p);
    }

    /** The busy wait, over the polls it will meet. */
    method AwaitTic(polls: seq<Poll>) returns (used: nat, ready: bool, sent: seq<Frame>)
      requires Valid()
      requires FromNodes(polls, numNodes)
      modifies this`model, NodesRepr()
      ensures Valid() && WaitedFor(old(model), polls, used, model, sent)
      ensures ready == NewTicReady(model) && (ready || used == |polls|)
    {
      used, sent := 0, [];
      ghost var q := model;
      WaitBegins(q, polls);
      ready := TicReady();
      while !ready && used < |polls|
        invariant Valid() && WaitedFor(q, polls, used, model, sent)
        invariant ready == NewTicReady(model)
      {
        ready, sent := WaitTurn(polls, used, sent, q);
        used := used + 1;
      }
    }

    /** One turn of the busy wait. */
    method WaitTurn(polls: seq<Poll>, used: nat, sent: seq<Frame>, ghost q: Peer) returns (ready: bool, all: seq<Frame>)
      requires Valid() && FromNodes(polls, numNodes)
      requires WaitedFor(q, polls, used, model, sent) && used < |polls| && !NewTicReady(model)
      modifies this`model, NodesRepr()
      ensures Valid() && WaitedFor(q, polls, used + 1, model, all)
      ensures ready == NewTicReady(model)
    {
      WaitGoesOn(q, polls, used, model, sent);
      var resent := ReceivePackets(polls[used]);
      all := sent + resent;
      ready := TicReady();
    }

    /** The wait and what follows it. */
    method WaitAndConsume(polls: seq<Poll>) returns (out: SwapOutcome, used: nat, sent: seq<Frame>, ghost w: Peer)
      requires Valid() && FromNodes(polls, numNodes)
      modifies this`maketic, this`gametic, this`model, NodesRepr()
      ensures Valid() && WaitedFor(old(model), polls, used, w, sent) && (NewTicReady(w) || used == |polls|)
      ensures if NewTicReady(w) then out == Completed(used, Collect(w.nodes)) && model == Advance(w)
              else out == Blocked && model == w
    {
      var ready;
      used, ready, sent := AwaitTic(polls);
      w := model;
      out := Blocked;
      if ready {
        var cmds := ConsumeTic();
        out := Completed(used, cmds);
      }
    }

    /** `polls` is what the wait loop's ReceivePackets calls will meet. The loop has no other
        exit than readiness; running out of polls means it is still inside. */
    method SwapCommand(cmd: Cmd, polls: seq<Poll>) returns (out: SwapOutcome, sent: seq<Frame>)
      requires Valid()
      requires FromNodes(polls, numNodes)
      requires !TooFarAhead(model, maxDelay) ==> forall k :: 0 <= k < numNodes ==> PushFits(model, k, maxDelay)
      modifies Repr()
      ensures Valid() && numNodes == old(numNodes)
      ensures consolePlayer == old(consolePlayer) && numPlayers == old(numPlayers)
      ensures SwapResult(old(model), maxDelay, cmd, polls, out, sent, model)
    {
      if maketic - gametic >= maxDelay {
        SwapRefuses(model, maxDelay, cmd, polls);
        return Refused, [];
      }
      out, sent := PushAndWait(cmd, polls);
    }

    /** SwapCommand past its guard. */
    method PushAndWait(cmd: Cmd, polls: seq<Poll>) returns (out: SwapOutcome, sent: seq<Frame>)
      requires Valid() && FromNodes(polls, numNodes) && !TooFarAhead(model, maxDelay)
      requires forall k :: 0 <= k < numNodes ==> PushFits(model, k, maxDelay)
      modifies this`maketic, this`gametic, this`model, NodesRepr()
      ensures Valid()
      ensures SwapResult(old(model), maxDelay, cmd, polls, out, sent, model)
    {
      ghost var p, w, used := model, model, 0;
      sent := PushCommand(cmd);
      var resent: seq<Frame>;
      out, used, resent, w := WaitAndConsume(polls);
      SwapEnds(p, maxDelay, cmd, polls, used, w, resent);
      sent := sent + resent;
    }
  }

  /** InitProtocol at program start is one peer's share of the initial state of the system. */
  method Start(numnodes: nat, numplayers: nat, consoleplayer: nat, fakePlayers: bool, delay: nat, maxDelay: nat)
    returns (e: Endpoint)
    requires 1 < numnodes <= MAX_PLAYERS && 0 < delay <= maxDelay
    requires 1 < numplayers <= MAX_PLAYERS && consoleplayer < numplayers
    ensures fresh(e.Repr()) && e.Valid() && e.numNodes == numnodes && e.maxDelay == maxDelay
    ensures e.consolePlayer == consoleplayer && e.numPlayers == if fakePlayers then MAX_PLAYERS else numplayers
    ensures e.model == InitialPeer(numnodes, delay, maxDelay, consoleplayer)
  {
    e := new Endpoint(maxDelay);
    e.InitProtocol(numnodes, numplayers, consoleplayer, fakePlayers, delay);
    assert e.model.nodes == InitialPeer(numnodes, delay, maxDelay, consoleplayer).nodes;
  }
}
