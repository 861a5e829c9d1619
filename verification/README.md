# Imaginot, verified

The repository lets the 1980s game Sopwith, which shared its state through a sector of a floppy
disk, be played over a DOOM network driver. This project models that program and proves what
its design relies on.

* **The lockstep protocol** (`protocol.c`). Every peer keeps a send window and a receive window
  per node. Almost nothing is checked locally: stores into the windows have no bound test, the
  merge of a packet does not look for gaps, and the guard that would refuse a call never fires.
  It works only because of an invariant over all peers and all packets in flight. `Windows`,
  `Peers` and `Polls` say on values what each piece of the C code does, slot by slot, stale slots
  included; `Lockstep` puts N peers on a network that may lose, duplicate, delay and reorder
  packets; `Invariant` holds the invariant and its preservation; `Guarantees`, `Progress`,
  `Liveness` and `FairRuns` what follows. `Protocol` is the C code itself, arrays updated in place, proved equal
  to those value functions, and `Refinement` shows that a whole `SwapCommand` call, with the other
  peers acting between any two of its steps, is a run of the N-peer system.
* **Its datagrams** (`Wire`, `Driver`, `OnTheWire`): the packed little-endian layout, the masked
  checksum and the receive filters.
* **The checksum** (`crc32.c`): `CrcBits`, `Checksums`, `CrcBursts`, and `MaskedBursts` on what is
  left of it in a packet.
* **The emulated disk** (`fakedisk.c`): `Disks` and `FakeDisk` for one peer, `SharedLog` for N of
  them over the protocol, and `DiskRefinement`, which ties the two call by call.
* **The in-memory patches** (`mempatch.c`): `MemPatch`.
* **Argument lists and response files** (`lib/flag.c`): `Args`, `ResponseFiles`, `CommandLines`.

`Octets`, `Options` and `Seqs` are small helpers.

`DELAY` and `MAX_DELAY` (4 and 16 in the source) are parameters with `2 <= DELAY` and
`2*DELAY <= MAX_DELAY`, and the number of peers is any from 2 to 4, the least and most that
`InitProtocol` allows. The environment is explicit: what a wait loop meets (packets handed over by
the driver, nodes whose resend is due) is an argument of the method, and the network of the N-peer
system is the set of all packets ever sent, any of which may be delivered at any time, any number
of times or never. Command streams start with `DELAY-1` zeros because `InitProtocol` gives every
send window that many commands over zero-initialised static storage.

`protocol.h:15-21` says that `SwapCommand` returns false when commands are missing and that the
caller should try again, and `fakedisk.c:305-307` was written for that. The code waits in a loop
instead (`protocol.c:152-156`) and returns false only from a guard that, as `Guarantees.PushesFit`
shows, never fires. The model follows the code. Two more promises of comments do not hold on all
inputs: that a command line fits the limit afterwards (`lib/flag.c:655-660`, see
`CommandLines.SquashedFits` and `CommandLines.LeftAloneFits`), and that response files are
transparent, since the reader's NUL can miss its buffer (`ResponseFiles.ReadBackMeans`), white
space splits arguments (`ResponseFiles.WriteThenRead`), and a NUL in some other file can make a
list come back by accident (`CommandLines.ByAccident`). The comment on the oxen
(`mempatch.c:33-35`) puts the second one at x 1608; the bytes say 1970 (`MemPatch.OxenMove`).

## Model

| member | source | states |
|---|---|---|
| Guarantees.LockstepAgreement | protocol.c:127-187 | Over every run, any two peers that complete tic t get the same vector; the entry of each peer's player is what that player asked for DELAY-1 calls earlier (0 before that), and the entry of a player nobody plays is 0. |
| Guarantees.PushesFit | protocol.c:132-150 | In every reachable state the guard does not fire and no push of SwapCommand stores past its array, though no local test sees to it: send windows reach at most 2*DELAY, the loopback exactly DELAY, and the push always sends to every other node. |
| Guarantees.BoundedSkew | protocol.c:114-125 | The tic counts of any two peers differ by at most DELAY, and no send or receive window ever holds more than 2*DELAY commands. |
| Guarantees.LatePacketsAreHarmless | protocol.c:192-232 | A packet that was ever sent, delivered after any further run, passes the player and count filters, starts no later than the end of the receive window (so raising its length exposes no unwritten slot), is not cut off at MAX_DELAY, and acknowledges nothing unsent. |
| Guarantees.AckSoundness | protocol.c:201-211 | Along every run both ends of both windows only grow; a sender forgets a command only after the other side has it, and a receiver is never more than DELAY past what its sender has been acknowledged for. |
| Guarantees.QueueInitially | protocol.c:71-79 | For every ordered pair of peers, what the receiver has yet to consume starts out as DELAY-1 zero commands. |
| Guarantees.QueueIsUnread | protocol.c:93-110 | Receive window plus the not yet received end of the send window is exactly the sender's command stream from the receiver's tic on: nothing lost, repeated or altered. |
| Guarantees.QueueStep | protocol.c:127-235 | Each step refines a FIFO queue: a push by the sender enqueues its command, a tic of the receiver dequeues the head and reports it under the sender's player number, and resends, deliveries and everything other peers do leave the queue alone. |
| Guarantees.ReceiveIdempotent | protocol.c:190-235 | Processing any packet, honest or not, twice in a row leaves the node as processing it once did, stale slots included. |
| Guarantees.DeliverIdempotent | protocol.c:190-235 | In the N-peer system a duplicated delivery changes nothing. |
| Guarantees.DeliverCommutes | protocol.c:190-235 | Two packets of one link delivered in either order give the same player, window ends and live contents. |
| Guarantees.CountersFit | protocol.c:28-49 | While every tic count is below 2^32 - 2*DELAY, every counter, the ends and lengths of every window of every node (the loopback included) and every packet field fit the integer types the source declares, so unbounded numbers in the model lose nothing. |
| Invariant.InitialInv | protocol.c:59-85 | The state InitProtocol leaves satisfies the global invariant, with the loopback window empty although its stream is not. |
| Invariant.BeginInv | protocol.c:127-150 | A push keeps the global invariant over peers, pairs of windows and packets in flight. |
| Invariant.ResendInv | protocol.c:237-249 | A resend at any moment keeps the invariant. |
| Invariant.DeliverInv | protocol.c:190-235 | Delivering any packet ever sent keeps the invariant. |
| Invariant.FinishInv | protocol.c:158-184 | Consuming a tic keeps the invariant. |
| Invariant.CollectIsRound | protocol.c:161-181 | The vector a ready peer is about to return is the round of its tic: element gametic of every peer's stream, 0 for players without a peer. |
| Invariant.RunInv | protocol.c:127-261 | The invariant holds after every run. |
| Progress.FreshPacketArrives | protocol.c:201-217 | One fresh packet from m to j makes j's send window start at exactly what m still lacks, because the ack is processed even when the packet is then dropped as old; unless it is old, j then holds every command m has produced. |
| Progress.ExchangeFills | protocol.c:201-235 | If m is no further than j, one fresh packet from m to j and one back leave m with a command from j, whatever was lost before. |
| Progress.CompleteWaiting | protocol.c:152-184 | A waiting peer that is behind nobody can complete its tic by resends and deliveries alone. |
| Progress.NoDeadlock | protocol.c:127-261 | From every reachable state, whatever was lost and whatever the players press from then on, every peer can still complete any number of tics. |
| Liveness.LinkIsBusy | protocol.c:137-150 | On an endless run in which idle games ask again and waiting peers find each node overdue again and again, every link carries packets again and again. |
| Liveness.CommandComes | protocol.c:201-235 | If moreover a link that stays busy does not lose everything, a peer gets a command for its tic from every peer that is not behind it. |
| Liveness.EveryTicCompletes | protocol.c:127-261 | On every such endless run in which ready wait loops end, every peer completes every tic: each SwapCommand call returns. |
| FairRuns.FairRunExists | protocol.c:127-261 | Such endless runs exist for every number of peers and every numbering of nodes: taking everyone's steps in turn over a network that delivers is one. |
| Windows.HonestReceive | protocol.c:190-235 | A packet carrying a slice of the sender's stream that leaves no gap keeps both windows slices of their streams and moves their ends to the maxima of what was there and what it carries; an old one moves only the ack. |
| Windows.MergeHolds | protocol.c:219-232 | Merging such a packet raises the window's end to the packet's if that is later and keeps the contents right, whatever the stale slots held. |
| Windows.PushAnything | protocol.c:140-144 | Any push at all: one that reaches past the window makes it end at its tic with its command in the last slot and no other slot changed; one that does not stores nothing. |
| Windows.AckAnything | protocol.c:201-211 | Any ack at all, if it lies inside the send window, moves its start there and drops just the commands before it; any other changes nothing. Stale slots stay. |
| Windows.MergeAnything | protocol.c:219-232 | Any packet at all: each command whose tic has a slot is stored there, over whatever was there, no other slot changes, and the end never moves back. |
| Windows.ReceiveAnything | protocol.c:190-235 | Any packet at all: out of range it changes nothing; otherwise its ack counts even if it is old, and only one that is not old is merged and names the player. |
| Peers.CollectSpec | protocol.c:161-181 | If all nodes have different players, the consuming loop reports each node's first command under its player and 0 for the rest. |
| Peers.CollectAny | protocol.c:161-181 | Whatever players the nodes claim, a player's entry comes from the last node that claims it, and is 0 if none does. |
| Peers.AdvanceSpec | protocol.c:161-184 | A tic takes the first command from every node whose player is known and nothing from the others, leaves every send window alone, and raises both counters by one. |
| Peers.RefusesWhenFull | protocol.c:132-150 | The guard refuses exactly when the push would leave no free slot in the loopback window. |
| Peers.ResetKeepsSlots | protocol.c:59-85 | The DELAY-1 commands a reset node starts with are whatever its first slots held, zeros only over zeroed storage; the receive start is kept. |
| Polls.ResendsMean | protocol.c:237-249 | CheckResends sends exactly one packet, made then, to exactly the overdue nodes but the loopback, in node order. |
| Polls.PushSendsMean | protocol.c:137-150 | The push loop sends exactly one packet, made after the push, to exactly the nodes whose send window it has grown, in node order. |
| Polls.WaitInOrder | protocol.c:152-156 | The wait takes its polls in order; each first sends its resends, made before it receives anything, and then takes its arrivals one by one in order, each at the node the driver names. |
| Polls.SwapIsDetermined | protocol.c:127-187 | State, argument and what the polls meet settle what a call comes to: it stops at the first moment every node has a command, not before and not later. |
| Lockstep.CirclesAreValid | protocol.c:22-23 | The conditions the N-peer theorems put on a configuration are met, with DELAY 4 and MAX_DELAY 16, by a configuration for every seating of 2 to 4 peers. |
| Protocol.WindowBuf.DropFront | protocol.c:206-210 | The memmove, start and length updates are the trim of the value model, every slot included. |
| Protocol.WindowBuf.Push | protocol.c:140-144 | The store and length update are the value model's extension of the window; reports whether it grew. |
| Protocol.WindowBuf.CopyIn | protocol.c:219-232 | The copying loop with its break at MAX_DELAY and its max is the value model's merge. |
| Protocol.NodeRec.ReceivePacket | protocol.c:190-235 | Filters, ack, old-packet drop and merge in the source's order are the value model's Receive. |
| Protocol.Endpoint.InitProtocol | protocol.c:59-85 | Resets exactly what the source resets, node by node, contents and receive starts staying; stores the console player and the number of players, which is the most there can be when players are faked. |
| Protocol.Start | protocol.c:51-85 | InitProtocol over zero-initialised storage yields one peer's share of the N-peer system's initial state. |
| Protocol.Endpoint.SendPacket | protocol.c:93-100 | The packet is the whole send window from its start, acknowledging the end of the receive window, under the own player number. |
| Protocol.Endpoint.TicReady | protocol.c:114-125 | True exactly when every node in use has a command waiting. |
| Protocol.Endpoint.CheckResends | protocol.c:237-249 | Sends, in node order, a packet to each overdue node but the loopback, and changes no window. |
| Protocol.Endpoint.ReceivePackets | protocol.c:251-261 | Resends first, then takes the arriving packets in order. |
| Protocol.Endpoint.PushCommand | protocol.c:137-150 | The push loop grows every window the value model grows and sends to exactly the nodes whose window grew, each packet made after its own push. |
| Protocol.Endpoint.AwaitTic | protocol.c:152-156 | The wait loop polls until the first moment every node has a command, and no longer. |
| Protocol.Endpoint.ConsumeTic | protocol.c:161-184 | Returns the collected vector, drops one command from every node with a known player, and counts the tic. |
| Protocol.Endpoint.SwapCommand | protocol.c:127-187 | The whole call: refused with nothing changed or sent, still waiting, or completed after the least number of polls that make a tic ready, with its vector, its packets in order and its new state. |
| Refinement.WaitStepsMean | protocol.c:237-261 | The single resends and arrivals of any number of ReceivePackets calls, in the source's order, add up to what those calls are specified to do and send. |
| Refinement.PollsAreRun | protocol.c:237-261 | Any number of ReceivePackets calls, with the other peers doing anything they can before every single resend and every single arrival (so that a reply to a resend may arrive in the same call), is a run of the N-peer system, out of which the peer comes as its calls alone say. |
| Refinement.SwapCommandIsRun | protocol.c:127-187 | Whatever SwapCommand can come to in a reachable state, the other peers acting between any two of its steps, is never a refusal and is a run of the N-peer system with the same state, packets and returned vector, so the guarantees over runs cover the C function. |
| Wire.DecodeEncode | protocol.c:87-110 | A sent packet, over anything an earlier one left in the buffer, passes every filter including the masked checksum and is read back as itself. |
| Wire.EncodeDecode | protocol.c:192-199 | A datagram that passes the filters and whose length fits its command count is byte for byte what the packet read from it would be sent as. |
| Wire.ChecksumIsRemainder | protocol.c:87-91 | The checksum is the remainder of the CRC-32 of the rest of the packet by 2^28. |
| Wire.AcceptedExactly | protocol.c:192-235 | A datagram of any length and content is let through if and only if it has at least 14 bytes, its first four are, as a little-endian number, that remainder for everything received after them, its player is below 4 and its count at most MAX_DELAY; and what is then read from which bytes. |
| Wire.SentExactly | protocol.c:28-40 | What is sent in which byte: that remainder, start and ack as little-endian 32-bit numbers, player, count, then each command low byte first. |
| Wire.ChecksumDamageNoticed | protocol.c:192-199 | Two accepted datagrams that agree after the checksum agree in the checksum. |
| MaskedBursts.MaskMissesBurst | protocol.c:87-91 | The mask loses what the CRC promises: every body of at least four bytes has another, different only in its last four, with the same 28 bits and a different CRC. |
| MaskedBursts.DamageAccepted | protocol.c:192-199 | Every accepted datagram with room for two commands is still accepted with such damage to its last four bytes, and taken for a different packet if its length fits its count. |
| Driver.Doomcom.Pack | protocol.c:95-106 | Filling the packet in place leaves its encoding, then the stale rest of the buffer, and the length that covers exactly the encoding. |
| Driver.Doomcom.Unpack | protocol.c:192-199 | The filters, in the source's order, accept exactly what the decoder accepts. |
| OnTheWire.DatagramsAreReadBack | protocol.c:93-110 | In every reachable state with counters that fit, every packet ever sent survives packing, the stale buffer and all filters unchanged. |
| Checksums.TableEntry | crc32.c:13-79 | Each of the 256 table entries is what eight one-bit steps with the reflected polynomial make of its index. |
| Checksums.TableStep | crc32.c:87-91 | One table step does what feeding the byte's eight bits one by one does, for every register and byte. |
| Checksums.Crc32 | crc32.c:81-94 | The table-driven loop computes the bit-at-a-time CRC-32 (section 8 of RFC 1952) of the buffer, whatever its length. |
| Checksums.BitsAreNumbers | crc32.c:88 | What is fed for each byte of the buffer, in order, is the 8-bit value of that byte. |
| CrcBursts.FeedWord | crc32.c:87-92 | Feeding four bytes is xoring them in as one little-endian word and shifting 32 times. |
| CrcBursts.WordInjective | crc32.c:87-92 | From one register, different words of four bytes lead to different registers. |
| CrcBursts.BurstDetected | crc32.c:81-94 | Two equally long buffers that differ only inside four consecutive bytes have different 32-bit checksums. |
| CrcBursts.OctetBurstDetected | crc32.c:81-94 | The same of the bytes of the buffer themselves, before they are fed. |
| CrcBursts.Residue | crc32.c:81-94 | A message followed by its own checksum, low byte first, always has the checksum 0x2144DF1C. |
| CrcBursts.EmptyMessage | crc32.c:81-94 | The checksum of nothing is 0. |
| CrcBursts.LetterA | crc32.c:81-94 | The checksum of the one byte 0x61 is 0xE8B7BE43. |
| Disks.OneSwapPerLaterWrite | fakedisk.c:277-328 | Over any sequence of data sector calls, SwapCommand runs exactly once per write after the first, in order and with the command written, and the first write ends INIT for good. |
| Disks.ReadsSettle | fakedisk.c:173-219 | However often the data sector is read between two writes, in any state, its content is that of the first read. |
| Disks.FirstFreeSeatIsYours | fakedisk.c:179-205 | However often it is read before its first write, the record shows exactly the players before this one as flying, so the first free seat the game finds is this player's; num_players is 1, so that the game keeps the fixed random seed, max_players the number of players; the rest is blank. |
| Disks.ReadsAgree | fakedisk.c:173-219 | Any number of reads after a write that went through leave one record: (last_player + 1) % num_players is this player, with everyone flying after the first write and every player's swapped command after a later one. |
| Disks.EveryoneJoins | fakedisk.c:286-297 | After the first write, before and after any number of reads: num_players is the number of players, all of them are flying, and max_players, the seed, the keys and the other states are what the game wrote; the turn is the last player's until the first read passes it on. |
| Disks.CommandsHandedOut | fakedisk.c:299-327 | After a later write, before and after any number of reads: each player's key is its swapped command, the other keys and max_players, num_players, the states and the seed are what the game wrote; the turn likewise. |
| Disks.RefusedWriteIsKept | fakedisk.c:304-311 | After a refused write the reads hand back what the game wrote, with only the turn passed on. |
| FakeDisk.Drive.ReadData | fakedisk.c:173-219 | The read's state machine, loops included, moves the disk as specified and hands out the record it leaves. |
| FakeDisk.Drive.WriteData | fakedisk.c:277-328 | The first write registers all players without touching the protocol; a later one runs SwapCommand once with the key of the protocol's own console player and stores its vector, or keeps the written record on a refusal; the game's buffer gets the record only on success. |
| FakeDisk.PowerUp | fakedisk.c:104-106 | A disk over a protocol just initialised is in INIT with a blank record and sits in the seat InitProtocol stored, which is the player its loopback node plays. |
| FakeDisk.Drive.ReadSector | fakedisk.c:221-260 | Which sectors and counts are served, and that only the data sector moves the disk. |
| FakeDisk.Drive.WriteSector | fakedisk.c:330-349 | Which sectors and counts are accepted, and that only a data write reaches the protocol and only a good semaphore byte the lock. |
| SharedLog.StoryInv | fakedisk.c:173-349 | Over every interleaving of sector calls on N peers and network traffic, each disk stays in step with the protocol under it. |
| SharedLog.SeatingsAreValid | protocol.c:59-85 | Every seating of 2 to 4 peers, with players faked or not, is one the theorems about N disks speak of. |
| SharedLog.EveryCopyIsTheSameLog | fakedisk.c:277-328 | After their k-th completed writes all peers hold the same commands: for each player the one its peer wrote DELAY-1 such writes before, 0 if there is none, 0 for a player nobody plays. |
| SharedLog.ReadsTheLog | fakedisk.c:173-219 | What a read hands out once a write after the first has completed is the log too: the keys of the latest such write, the turn passed to this player, the same keys for all peers that have completed equally many. |
| SharedLog.WritesNeverFail | fakedisk.c:304-311 | The branch that reports a failed write is never taken; each later write calls SwapCommand once, for the player its own node plays, and every store of its push fits its array. |
| DiskRefinement.LiftRun | fakedisk.c:277-349 | Every run of the protocol is what some sequence of sector calls and traffic comes to, and it leaves alone the disk of every peer whose calls it leaves alone. |
| DiskRefinement.WriteDataIsStory | fakedisk.c:277-328 | Whatever WriteData can come to after its first call, the other peers acting between any two of its steps, the N-disk system can come to, with the same disk, result, buffer, packets and protocol state, so the shared log theorem covers the C function. |
| DiskRefinement.PowerUpShare | fakedisk.c:93-106 | A drive just powered up is its peer's share of the N-disk system's initial world. |
| DiskRefinement.ReadShare | fakedisk.c:173-219 | A read by the C code is a step of the world and hands out what the world's disk then holds. |
| DiskRefinement.PollShare | fakedisk.c:351-354 | A ReceivePackets call outside a write, the other peers acting between any two of its steps, leaves the drive a share of a world the peers can reach, its disk untouched. |
| DiskRefinement.WriteShare | fakedisk.c:277-328 | On a drive that is a share of any world the peers can reach, WriteData meets its array bounds and leaves the drive a share of such a world again, with the result, buffer and packets of a write there. |
| DiskRefinement.OthersGoOn | fakedisk.c:351-354 | Whatever the other peers and the network do between the calls, a drive stays such a share. |
| DiskRefinement.WritesCanComplete | fakedisk.c:277-349 | From every world the peers can reach, whatever packets were lost and whatever the players press, every peer can still complete any number of sector writes. |
| MemPatch.FindPattern | mempatch.c:69-93 | The search, whose index steps back over a failed match, ends and finds the leftmost occurrence, or ends past the buffer exactly when there is none. |
| MemPatch.ApplyPatch | mempatch.c:66-100 | The leftmost occurrence is replaced and no other byte changes; without one nothing changes. |
| MemPatch.RemovesExactly | mempatch.c:66-100 | A patch none of whose ends overlap makes no new occurrence of the old pattern and hides no other. |
| MemPatch.PatchTakesLeast | mempatch.c:66-100 | Such a patch removes the least occurrence and no other, so the number falls by one if it was not zero. |
| MemPatch.PatchAgain | mempatch.c:66-100 | Patching again changes nothing if and only if the pattern occurred at most once to begin with. |
| MemPatch.MoveOxenIsClean | mempatch.c:30-38 | The first patch table is of that kind. |
| MemPatch.RespawnTimeIsClean | mempatch.c:57-64 | So is the second, though its pattern repeats five of its own bytes. |
| MemPatch.OxenMove | mempatch.c:28-38 | The first patch moves the oxen from x 1376 and 1608, y 80 and 91 to x 1080 and 1970, y 42. |
| MemPatch.OneByteOfRespawn | mempatch.c:40-64 | The second patch changes one byte, from 10 to 16. |
| MemPatch.PatchedBytes | mempatch.c:66-100 | Byte for byte: the leftmost occurrence becomes the new data and every other byte stays. |
| MemPatch.OthersUntouched | mempatch.c:102-121 | A patch leaves the occurrences of an unrelated pattern where they were. |
| MemPatch.ApplyPatches | mempatch.c:102-121 | The flag, the player count and the order decide which patches are applied, to the first 0xffff bytes only. |
| MemPatch.PatchesTakeOneEach | mempatch.c:102-121 | The two patches do not interfere: one ApplyPatches takes one occurrence of each pattern it looks for, if there is any. |
| MemPatch.PatchingIsIdempotent | mempatch.c:102-121 | A second ApplyPatches changes nothing if and only if no pattern it looks for occurs twice (the first only with more than two players). |
| Args.MoveCallee | lib/flag.c:354-368 | The callee, found by identity, is moved first and the arguments before it shift up by one. |
| Args.GatherFlags | lib/flag.c:374-393 | Reading and writing through one array, with the write index never past the read index, sorts the list into this program's flags with their parameters and the rest. |
| Args.ReadFromFront | lib/flag.c:374-393 | An unknown argument is passed over, a switch is taken alone, and any other flag takes the argument after it, whatever that is, if there is one. |
| Args.ReorderArgsForBakedIn | lib/flag.c:337-399 | The array ends up as the specified reordering, in place. |
| Args.StablePartition | lib/flag.c:370-398 | Both halves keep the order of the list. |
| Args.ReorderPermutes | lib/flag.c:337-399 | No argument is lost, doubled or altered and the program's name stays first. |
| Args.CalleeLeadsTheRest | lib/flag.c:343-368 | The callee comes right after this program's own arguments, and no flag of this program comes after it. |
| Args.CalleeMovesAlone | lib/flag.c:354-368 | Moving the callee leaves the order of all other arguments as it was. |
| Args.HalvesKeepOrder | lib/flag.c:337-399 | The callee apart, this program's arguments and the others are each in the order they had in the original list. |
| Args.CalleeStandsApart | lib/flag.c:337-399 | If the callee is no flag and no flag's parameter where it stands, then moving it changes neither what is read as this program's nor any order: it just comes first among the others. |
| Args.OwnReadsTheSame | lib/flag.c:374-393 | Read again without the others in between, this program's arguments are still all its own. |
| Args.ReorderIdempotent | lib/flag.c:370-398 | Sorting a sorted list changes nothing, even if its last flag lacks its parameter. |
| ResponseFiles.ReadBuffer.Store | lib/flag.c:266-279 | Storing a character grows the buffer by 64 bytes when it is full and keeps the word so far. |
| ResponseFiles.ReadBuffer.Terminate | lib/flag.c:281-283 | The NUL that ends a word is stored without a test: it misses the buffer exactly when the word fills it, and otherwise the copy is the word up to its first NUL. |
| ResponseFiles.Stream.ReadResponseFile | lib/flag.c:225-291 | Reads the maximal runs of non-space characters, each up to its first NUL, across the end-of-file that only shows after a failed read, up to the first store that misses the buffer. |
| ResponseFiles.ReadBackMeans | lib/flag.c:261-285 | Every store of a whole file is in bounds if and only if each word whose length is a multiple of 64 comes after a longer one. |
| ResponseFiles.SixtyFourCharacters | lib/flag.c:268-281 | One argument of 64 characters is enough for a store past the buffer. |
| ResponseFiles.OneWordComesBack | lib/flag.c:225-291 | A file written for one argument without white space gives it back if and only if its length is no multiple of 64. |
| ResponseFiles.WordsPartAt | lib/flag.c:239-268 | Exactly the characters 9 to 13 and 32 part two words. |
| ResponseFiles.OneLineEach | lib/flag.c:640-653 | A written file has exactly one line for each argument, if none has a line end in it, and ends with a line end. |
| ResponseFiles.WriteResponseFile | lib/flag.c:640-653 | Writes each argument on a line of its own. |
| ResponseFiles.WriteThenRead | lib/flag.c:640-653 | What is written is read back as it was if and only if no argument is empty or has white space in it and each one whose length is a multiple of 64 comes after a longer one. |
| CommandLines.ExpandResponseArgs | lib/flag.c:416-448 | Splices every named file in place of its reference, once, skipping the program's name, or ends at the first file that is missing or overruns the reader. |
| CommandLines.FirstBadFile | lib/flag.c:416-448 | The first reference whose file is missing or overruns the reader ends the expansion with its own error, whatever comes after it. |
| CommandLines.NoBadFile | lib/flag.c:416-448 | Without such a reference the expansion succeeds. |
| CommandLines.CommandLine.FindCut | lib/flag.c:691-704 | Finds the last option at which a cut makes the 16-bit sum fit with the reference, or else falls back to the first argument. |
| CommandLines.CommandLine.SquashToResponseFile | lib/flag.c:661-712 | Leaves a line alone whose 16-bit sum is within the limit; otherwise cuts there, moves the rest to the file and refers to it, reusing an earlier file name. |
| CommandLines.CutIsAtOption | lib/flag.c:694-704 | A line is cut at an option if and only if some option after the first argument leaves the 16-bit sum room for the reference. |
| CommandLines.CutLeavesOneOver | lib/flag.c:694-704 | An argument is a place to cut if and only if it begins with '-' and the line cut there sums to at most 125: a line of exactly the limit is passed over. |
| CommandLines.LimitIs126 | lib/flag.c:666-677 | Of lines below 32768 characters exactly those of at most 126 are left alone. |
| CommandLines.SquashedFits | lib/flag.c:655-704 | A line cut at an option meets the limit if and only if what stays has not overflowed the 16-bit sum; one cut at the first argument takes exactly the room of the program's name and the reference, so that it meets the limit if and only if they do. |
| CommandLines.LeftAloneFits | lib/flag.c:666-677 | A line left alone meets the limit if and only if it is shorter than 32768 characters. |
| CommandLines.TakenForShort | lib/flag.c:666-677 | A line of 32768 characters sums to -32768 and is left alone. |
| CommandLines.SquashedTooLong | lib/flag.c:655-704 | A name of 120 characters and an argument of 5 that is no option: a line of 127 becomes one of 131, over the limit the comment promises to meet. |
| CommandLines.RestoredExactly | lib/flag.c:416-448 | Cut anywhere, a line comes back whole if and only if its kept arguments are their own expansion and its moved ones survive their file, provided that only the program's name is kept, or the first moved argument holds something, or no file holds a NUL. |
| CommandLines.ByAccident | lib/flag.c:416-448 | Without that proviso it can come back although neither holds: with a file f of `@f`, a space and a NUL, the list p, @f, an empty argument, a, cut before the empty one. |
| CommandLines.SquashThenExpand | lib/flag.c:655-712 | Cut where SquashToResponseFile cuts, whatever the files hold, a line comes back whole if and only if its kept arguments are their own expansion (as they are when none starts with '@') and its moved ones survive their file; a line of the program's name alone, if and only if that is the reference. |

## Left out

- Interrupt hooking, register packing, stack switching and PSP code (`fakedisk.c:351-560`, `lib/ints.c`): machine level.
- The driver call (`doomnet.c:38-51`): sending adds to the network's set of packets, receiving takes any of it.
- Wall-clock resend timing (`protocol.c:239-247`): which nodes are overdue is a parameter of each poll; in the N-peer system a resend may happen at any time.
- 32-bit wrap-around of tic counters: numbers are unbounded; `Guarantees.CountersFit` says for how long that makes no difference.
- Corrupted or forged packets in the protocol theorems: only sent packets are delivered, players are distinct and node numbers match peers one to one. `Guarantees.ReceiveIdempotent` and the wire results do not need this.
- Protocol.Endpoint.SwapCommand: requires the pushes to fit their arrays, which the source does not test; `Guarantees.PushesFit` proves it of every reachable state. The wait loop runs over the polls it is given and reports when they run out; the source waits on.
- Refinement.SwapCommandIsRun: the push is one step: the sends of one push reach the network together, and others act before it or after it.
- Liveness.EveryTicCompletes: is about the endless runs that meet its conditions (games ask again, wait loops turn, a busy link does not lose everything); `FairRuns.FairRunExists` shows that there are such runs, and that a particular network yields one is not part of this model.
- The assertions of `InitProtocol` are its preconditions; storage is assumed zero-initialised, as C promises.
- FakeDisk.Drive.WriteData: has the precondition of `SwapCommand` on the fit of its pushes, which `DiskRefinement.WriteShare` discharges.
- FakeDisk.Drive.ReadSector: the boot sector's and the directory's bytes are constants and left out, as are the counters of reads and writes.
- The byte layout of the shared record is a datatype; of the semaphore sector only its one byte is modelled.
- MemPatch.FindPattern: 16-bit `unsigned int` is modelled as unbounded; the step back never goes below the start of the candidate, so only the last index, at most 0xffff, comes near the limit.
- Args.ReorderArgsForBakedIn: looking a flag up by name (`FindFlagForName`) is a parameter that classifies arguments; memory allocation is left out.
- ResponseFiles.Stream.ReadResponseFile: a store past the read buffer ends the read with its own result; the source goes on with undefined behaviour. A missing file ends the program and is an error result. Allocation failure is left out.
- CommandLines.CommandLine.SquashToResponseFile: text mode (carriage returns, Ctrl-Z), `tmpnam` (a parameter) and the removal of the file at exit are left out. The summed length is a 16-bit int; argument counts and indices are unbounded.
- Usage texts, logging, number parsing, `DoParseArgs`, `StripAPIPointers` and `lib/dos.c`: easy or about the environment.
- Sopwith itself is not part of this model.
