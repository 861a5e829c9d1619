/** The sliding windows and packets of protocol.c, as values.

    A window keeps every slot of its fixed array, not just the live ones: slots at or
    above `len` are stale but real, and both the first loopback push and an unchecked
    merge can bring them back to life. */
module Windows {

  const MAX_PLAYERS: nat := 4

  /** uint16_t */
  type Cmd = c: int | 0 <= c < 0x1_0000

  datatype Window = Window(start: nat, len: nat, slots: seq<Cmd>) {
    function End(): nat { start + len }

    predicate Fits() { len <= |slots| }

    function Live(): seq<Cmd> { if Fits() then slots[..len] else slots }
  }

  /** The payload of a datagram once the checksum is out of the way; num_cmds is |cmds|. */
  datatype Packet = Packet(start: nat, ack: nat, player: nat, cmds: seq<Cmd>) {
    function End(): nat { start + |cmds| }
  }

  datatype Node = Node(send: Window, recv: Window, player: int)

  function Zeros(n: nat): (r: seq<Cmd>)
    ensures |r| == n && forall k :: 0 <= k < n ==> r[k] == 0
  {
    seq(n, _ => 0)
  }

  function Max(a: nat, b: nat): nat { if a < b then b else a }

  function Min(a: nat, b: nat): nat { if a < b then a else b }

  /** memmove of `n` commands from slot `from` down to slot 0. */
  function Moved(slots: seq<Cmd>, from: nat, n: nat): (r: seq<Cmd>)
    ensures |r| == |slots|
  {
    seq(|slots|, k requires 0 <= k < |slots| =>
      if k < n && k + from < |slots| then slots[k + from] else slots[k])
  }

  /** Drop the first `cnt` live commands. */
  function Trim(w: Window, cnt: nat): Window
    requires cnt <= w.len
  {
    Window(w.start + cnt, w.len - cnt, Moved(w.slots, cnt, w.len - cnt))
  }

  /** The unchecked push of SwapCommand: grow the window to end at `tic`, storing `cmd` last.
      A store past the array touches none of its slots but still sets the length, so an
      overflow would show as a window that no longer Fits. */
  function Extend(w: Window, tic: nat, cmd: Cmd): Window {
    var newLen: int := tic - w.start;
    if newLen > w.len
    then Window(w.start, newLen, if newLen <= |w.slots| then w.slots[newLen - 1 := cmd] else w.slots)
    else w
  }

  /** Forget what the peer acknowledges, if the ack lies inside the window. */
  function AckTrim(w: Window, ack: nat): Window {
    if w.start < ack <= w.End() then Trim(w, ack - w.start) else w
  }

  /** Copy a packet's commands into place, whatever lies between the window and them. */
  function Merge(w: Window, pkt: Packet): Window
    requires w.start <= pkt.start
  {
    var at := pkt.start - w.start;
    var written := Min(at + |pkt.cmds|, |w.slots|);
    Window(w.start,
           if at < written then Max(w.len, written) else w.len,
           seq(|w.slots|, k requires 0 <= k < |w.slots| =>
             if at <= k < written then pkt.cmds[k - at] else w.slots[k]))
  }

  /** ReceivePacket once length and checksum have been found good. */
  function Receive(n: Node, pkt: Packet): Node {
    if pkt.player >= MAX_PLAYERS || |pkt.cmds| > |n.recv.slots| then n
    else
      var send := AckTrim(n.send, pkt.ack);
      if pkt.start < n.recv.start then n.(send := send)
      else Node(send, Merge(n.recv, pkt), pkt.player)
  }

  /** SendPacket: the whole send window, acknowledging all that has been received. */
  function MakePacket(dest: Node, player: nat): Packet {
    Packet(dest.send.start, dest.recv.End(), player, dest.send.Live())
  }

  // ------------------------------------------------------------------------------------
  // A window holds a piece of a command stream.

  /** The live part of `w` is exactly stream[w.start..w.End()]. */
  ghost predicate Holds(w: Window, stream: seq<Cmd>) {
    && w.Fits()
    && w.End() <= |stream|
    && forall k :: 0 <= k < w.len ==> w.slots[k] == stream[w.start + k]
  }

  ghost predicate Carries(pkt: Packet, stream: seq<Cmd>) {
    && pkt.End() <= |stream|
    && forall k :: 0 <= k < |pkt.cmds| ==> pkt.cmds[k] == stream[pkt.start + k]
  }

  lemma HoldsIsSlice(w: Window, stream: seq<Cmd>)
    requires Holds(w, stream)
    ensures w.Live() == stream[w.start..w.End()]
  {
  }

  /** A packet carries what its sender's window holds. */
  lemma MakePacketCarries(n: Node, player: nat, stream: seq<Cmd>)
    requires Holds(n.send, stream)
    ensures var pkt := MakePacket(n, player);
      && Carries(pkt, stream) && pkt.End() == n.send.End() && |pkt.cmds| == n.send.len
      && pkt.start == n.send.start && pkt.ack == n.recv.End() && pkt.player == player
  {
  }

  lemma HoldsLonger(w: Window, stream: seq<Cmd>, more: seq<Cmd>)
    requires Holds(w, stream)
    ensures Holds(w, stream + more)
  {
  }

  lemma CarriesLonger(pkt: Packet, stream: seq<Cmd>, more: seq<Cmd>)
    requires Carries(pkt, stream)
    ensures Carries(pkt, stream + more)
  {
  }

  lemma TrimHolds(w: Window, cnt: nat, stream: seq<Cmd>)
    requires Holds(w, stream) && cnt <= w.len
    ensures Holds(Trim(w, cnt), stream)
    ensures Trim(w, cnt).End() == w.End()
  {
  }

  lemma ExtendHolds(w: Window, cmd: Cmd, stream: seq<Cmd>)
    requires Holds(w, stream) && w.End() == |stream| && w.len < |w.slots|
    ensures Holds(Extend(w, w.End() + 1, cmd), stream + [cmd])
  {
  }

  /** The first push into the empty loopback window: stale zeros below it come to life. */
  lemma FirstPush(delay: nat, maxDelay: nat, cmd: Cmd)
    requires 0 < delay <= maxDelay
    ensures var w := Extend(Window(0, 0, Zeros(maxDelay)), delay, cmd);
      Holds(w, Zeros(delay - 1) + [cmd]) && w.start == 0 && w.End() == delay && |w.slots| == maxDelay
  {
  }

  /** An honest packet that leaves no gap raises the window's end to its own and keeps the
      window a slice of the stream. */
  lemma MergeHolds(w: Window, pkt: Packet, stream: seq<Cmd>)
    requires Holds(w, stream) && Carries(pkt, stream)
    requires w.start <= pkt.start <= w.End()
    requires pkt.End() <= w.start + |w.slots|
    ensures Holds(Merge(w, pkt), stream)
    ensures Merge(w, pkt).End() == Max(w.End(), pkt.End())
  {
  }

  /** What an honest packet does to a node, whatever the stale slots hold. */
  lemma HonestReceive(n: Node, pkt: Packet, mine: seq<Cmd>, theirs: seq<Cmd>)
    requires Holds(n.send, mine) && Holds(n.recv, theirs)
    requires Carries(pkt, theirs) && pkt.player < MAX_PLAYERS
    requires |pkt.cmds| <= |n.recv.slots|
    requires pkt.ack <= n.send.End()
    requires pkt.start <= n.recv.End()
    requires pkt.End() <= n.recv.start + |n.recv.slots|
    ensures var r := Receive(n, pkt);
      && Holds(r.send, mine) && Holds(r.recv, theirs)
      && |r.send.slots| == |n.send.slots| && |r.recv.slots| == |n.recv.slots|
      && r.send.start == Max(n.send.start, pkt.ack)
      && r.send.End() == n.send.End()
      && r.recv.start == n.recv.start
      && r.recv.End() == (if pkt.start < n.recv.start then n.recv.End() else Max(n.recv.End(), pkt.End()))
      && r.player == (if pkt.start < n.recv.start then n.player else pkt.player)
  {
    if n.send.start < pkt.ack { TrimHolds(n.send, pkt.ack - n.send.start, mine); }
    if n.recv.start <= pkt.start { MergeHolds(n.recv, pkt, theirs); }
  }

  /** A push reaches to its tic if the window did not yet: the last slot is the command, the rest
      stays. A push that reaches no further stores nothing. */
  lemma PushAnything(w: Window, tic: nat, cmd: Cmd)
    ensures var r := Extend(w, tic, cmd);
      if tic <= w.End() then r == w
      else
        && r.start == w.start && r.End() == tic && |r.slots| == |w.slots|
        && (r.Fits() ==> r.slots[r.len - 1] == cmd)
        && forall k :: 0 <= k < |w.slots| && k != r.len - 1 ==> r.slots[k] == w.slots[k]
  {
  }

  /** Any ack moves the window up to itself if it lies inside, and slots past the live ones stay. */
  lemma AckAnything(w: Window, ack: nat)
    requires w.Fits()
    ensures var r := AckTrim(w, ack);
      if w.start < ack <= w.End() then
        && r.start == ack && r.Live() == w.Live()[ack - w.start..]
        && |r.slots| == |w.slots| && forall k :: r.len <= k < |r.slots| ==> r.slots[k] == w.slots[k]
      else r == w
  {
  }

  /** Merging any packet puts every command whose tic has a slot there, over whatever was there,
      and touches no other slot. */
  lemma MergeAnything(w: Window, pkt: Packet)
    requires w.start <= pkt.start
    ensures var r, end := Merge(w, pkt), Min(pkt.End(), w.start + |w.slots|);
      && r.start == w.start && |r.slots| == |w.slots|
      && r.len == (if pkt.start < end then Max(w.len, end - w.start) else w.len)
      && forall k :: 0 <= k < |w.slots| ==>
           r.slots[k] == if pkt.start <= w.start + k < pkt.End() then pkt.cmds[w.start + k - pkt.start] else w.slots[k]
  {
  }

  /** What any packet, honest or not, does to a node: nothing if its player or its count is out
      of range; otherwise its ack is taken, and, unless it starts before the receive window, it
      is merged and names the player. */
  lemma ReceiveAnything(n: Node, pkt: Packet)
    ensures var r := Receive(n, pkt);
      if pkt.player >= 4 || |pkt.cmds| > |n.recv.slots| then r == n
      else
        && r.send == AckTrim(n.send, pkt.ack)
        && if pkt.start < n.recv.start then r.recv == n.recv && r.player == n.player
           else r.recv == Merge(n.recv, pkt) && r.player == pkt.player
  {
  }
}
