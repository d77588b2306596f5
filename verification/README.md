# Verification of the ENet transport and the HTTP response reader

This project models, in Dafny, the parts of the repository where the logic is hard, and proves what they are for.
`dafny verify dfyconfig.toml` checks everything.

**Range coder** (`enet_new/compress.c`). `RangeArithmetic` is the carry-less 32-bit interval arithmetic, `PpmModel` the
adaptive order-2 model with every context named by the bytes that lead to it, `SymbolTree` and `PoolRelation` the binary
trees with partial sums packed in the 4096-slot pool, `RangeCoding` the pool itself, changed in place, `Compression` and
`Decompression` the two main loops. Compressing and then decompressing gives back every input, including where the stream
ends without an end marker; the two sides build their pools in different orders and still learn the same model.

**Reliable channels** (`enet_new/peer.c`, `enet_new/protocol.c`). `SequenceNumbers` compares the 16-bit window tests with
numbers that never wrap, `Fragmentation` splits packets and puts them together, `ReliableReceiver` and `ReliableSender` are
the two ends with their lists and masks, and `ReliableChannel` joins them by a network that may lose, repeat and reorder
everything. Packets are dispatched exactly once and in order, acknowledgements are honest, and no two commands in flight
share a 16-bit number. The network is assumed not to keep copies for ever: when a copy of a packet's command arrives, the
packet's first number is at most RELIABLE_WINDOWS - FREE_RELIABLE_WINDOWS + 1 windows behind the receiver, and a copy of an
acknowledgement is less than 65536 numbers behind the sender. Neither bound can be relaxed by one:
`SequenceNumbers.OlderIsNotTrue` is a command one window older that would be taken again, and
`ReliableChannel.Link.AcknowledgeLate` an acknowledgement one number older that retires a command nobody has acknowledged.

**Unsequenced packets** (`enet_new/protocol.c`): delivered at most once, for groups less than half the number space away.

**Connections** (`enet_new/host.c`, `enet_new/peer.c`, `enet_new/protocol.c`). `Connections` holds the handlers that change a
peer's state and the host's counts of its peers, and follows whole connections from CONNECT to the freed slot; `Handshake` puts a client and a server host on a lossy, repeating,
reordering network, and makes the handlers' results steps of its runs. `Bandwidth` is the allocator of `enet_host_bandwidth_throttle`. `Ownership` is packet reference counting.

**Lists** (`enet_new/list.c`): the intrusive rings on the heap, with the sequences they spell.

**HTTP responses** (`include/HTTPRequest.hpp`). `HttpResponse` compares the reader, which works on whole `recv` results, with
one that takes a byte at a time. From that it follows what the reading loop returns for a whole response: status,
description, header lines and body, whether the body is chunked as section 4.1 of RFC 7230 defines it, of known length, or
ends with the connection. `unsigned long`, in which lengths and chunk sizes are read, has 64 bits here; on Windows it has 32,
and larger numbers are refused there.

Integers are unbounded; every field or product that is narrower in the program is shown to fit, is wrapped explicitly, or
is required not to overflow where the program relies on that.

## Where a property does not hold as one might expect

- The level that `enet_host_bandwidth_throttle` finds is not always max-min fair: the integer division can leave something
  over. `Bandwidth.ShareIncoming` says which level the passes end with, the least stable one, `Bandwidth.FairExactly` says
  exactly when it is fair, and `Bandwidth.NotAlwaysFair` is an example where it is not.
- The body of an HTTP response with a Content-Length depends on how its bytes are cut when something follows it in the
  same piece. `HttpResponse.CutsAgreeExactly` says exactly when any two ways of cutting agree, and
  `HttpResponse.OneByteTooMuch` is a response and one byte behind it for which they do not.
- Both 16-bit window tests mistake copies that are too old: `SequenceNumbers.StaleCopies` and `Unsequenced.TakenExactly` say
  exactly which. `Unsequenced.ReceivedAgain` is a run of the receiver that queues a group twice.
- The two sides of a connection need not have the same channels or throttle settings for ever: a side that lets the other go
  drops its channels at once, and `enet_peer_throttle_configure` changes one side before the other. What they agree on in
  every run is `Handshake.HandshakesAgree`.

## Model

| member | source | states |
|---|---|---|
| `RangeArithmetic.BoundaryShift` | enet_new/compress.c:128-132 | when the top bytes differ and the range is small, the range is cut to what is left below the next multiple of 2^24, which is never zero |
| `RangeArithmetic.ShiftSound` | enet_new/compress.c:126-136 | every turn of the normalising loop keeps low + range within 2^32, with equality only for low of at least 2^24, and brings the loop nearer to its end although one branch shrinks the range |
| `RangeArithmetic.Normalise` | enet_new/compress.c:126-136 | the loop ends with a sound interval whose range is at least 2^16 |
| `RangeArithmetic.NormaliseKeeps` | enet_new/compress.c:126-136 | emitted bytes never need a carry: a stream whose tail lies in the new interval lies as a whole in the old one |
| `RangeArithmetic.NarrowSound` | enet_new/compress.c:123-125 | narrowing to a slot keeps the interval sound and inside the old one |
| `RangeArithmetic.CodedKeeps` | enet_new/compress.c:121-137 | what is coded after a slot never leaves the slot's part of the interval |
| `RangeArithmetic.ReadSlot` | enet_new/compress.c:352 | a code word in a slot's part of the interval reads as a code of the slot |
| `RangeArithmetic.Flush` | enet_new/compress.c:139-146 | the flush writes low up to its trailing zeros |
| `RangeArithmetic.FlushWindow` | enet_new/compress.c:139-146 | followed by zeros for ever, the flushed bytes spell low |
| `RangeArithmetic.NormaliseAtEnd` | enet_new/compress.c:354-371 | once the stream has run into its zeros, the decoder's code and low stay equal |
| `Counting.SumHalved` | enet_new/compress.c:96-101 | halving keeps every positive count positive, sums do not grow and stay positive |
| `Counting.CodeSide` | enet_new/compress.c:384-411 | a code in a value's slot lies on the value's side of every other symbol |
| `Counting.ValueAbove` | enet_new/compress.c:425-430 | the root decoder computes the byte of a missing symbol above a node from the code |
| `Counting.ValueBelow` | enet_new/compress.c:431-436 | and that of one below a node |
| `SymbolTree.WalkHit` | enet_new/compress.c:188-194 | where the encoder's search ends at the value, the sum collected is that of the smaller values |
| `SymbolTree.WalkLeftEnd` | enet_new/compress.c:173-179 | where it ends at a missing left branch, the value is new and the branch is the one for it |
| `SymbolTree.WalkRightEnd` | enet_new/compress.c:181-187 | the same for a missing right branch |
| `SymbolTree.WalkCode` | enet_new/compress.c:386-404 | the decoder's comparisons of a code with a node go the way the encoder's went for the value |
| `SymbolTree.HitKeepsTree` | enet_new/compress.c:188-194 | counting a symbol on the way down keeps every node's partial sum right |
| `SymbolTree.GrowKeepsTree` | enet_new/compress.c:165-187 | so does adding one |
| `SymbolTree.RescaleKeepsTree` | enet_new/compress.c:90-105 | halving a context's tree keeps it a tree of the halved counts and leaves all others alone |
| `PpmModel.BumpedIsGood` | enet_new/compress.c:311-314 | learning a symbol, with its rescaling, keeps counts in 8 bits, totals below 2^16 and equal to escapes, counts and minimum |
| `PpmModel.BumpedByNumbers` | enet_new/compress.c:291-329 | what a byte adds to a context in plain numbers: 3 in the root, 2 elsewhere, 5 for an escape that was needed, and when everything is halved |
| `PpmModel.LearntIsGood` | enet_new/compress.c:286-329 | learning a byte keeps every context good and every known symbol in place, and adds at most one symbol for each context it passes |
| `PpmModel.NextIsGood` | enet_new/compress.c:331-336 | after every byte the context chain has at most two links beyond the root and the pool has room for the next byte |
| `PpmModel.NextByNumbers` | enet_new/compress.c:331-336 | the last two bytes foretell the next one, and the model starts anew at 4094 symbols |
| `PpmModel.LearntAfter` | enet_new/compress.c:286-329 | touching a longer context first changes neither what shorter ones code nor what they learn |
| `PpmModel.TouchedCommute` | enet_new/compress.c:598-611 | contexts can be touched in any order |
| `PpmModel.PatchedIsLearnt` | enet_new/compress.c:598-612 | model synchronisation: the decoder, which touches the finding context first and patches the longer ones afterwards, learns what the encoder learns top-down |
| `PpmModel.CodedAllKeeps` | enet_new/compress.c:286-329 | a stream that goes on in the last interval lies in the first, through all the escapes of a byte |
| `PpmModel.EncodedWithin` | enet_new/compress.c:246-342 | at any time the bytes still to come spell a number inside the coder's interval |
| `PpmModel.FirstByte` | enet_new/compress.c:246-342 | the stream of a single byte v spells (v + 1) * 16711935, a 257th of the line for each byte and for the escape |
| `PpmModel.AheadCode` | enet_new/compress.c:529-548 | the code read in a context tells an escape from the byte that is there |
| `PpmModel.AheadFirst` | enet_new/compress.c:286-329 | what a context has coded comes first in the stream, and the rest lies in the new interval |
| `PoolRelation.PoolAdds` | enet_new/compress.c:68-80 | a new symbol in the pool is a new, empty context in the model, and disturbs no other |
| `PoolRelation.PoolCounts` | enet_new/compress.c:188-194 | counting a symbol in the pool is counting it in the model |
| `PoolRelation.PoolHalves` | enet_new/compress.c:107-112 | halving a tree in the pool halves that context's counts in the model |
| `RangeCoding.RangeCoder.constructor` | enet_new/compress.c:48-56 | a pool of 4096 symbols whose fields fit their widths |
| `RangeCoding.RangeCoder.CreateRoot` | enet_new/compress.c:82-88 | the pool is empty but for the root context, as at the start |
| `RangeCoding.RangeCoder.AddSymbol` | enet_new/compress.c:68-80 | a symbol in the next slot, linked from where the search ended; the pool has room for it |
| `RangeCoding.RangeCoder.TreeEncode` | enet_new/compress.c:159-199 | v's count grows by update in its context alone, and the counts before and of v are returned |
| `RangeCoding.RangeCoder.ContextEncode` | enet_new/compress.c:159-199 | the same against the model: the context's counts, the symbol's path, what is returned and what is not changed |
| `RangeCoding.RangeCoder.DecodeWalk` | enet_new/compress.c:380-411 | the decoder's search for a code goes the encoder's way for the value that the code belongs to |
| `RangeCoding.RangeCoder.TryDecode` | enet_new/compress.c:415-416 | a code in the slot of a known v finds v, its count and the sum before it |
| `RangeCoding.RangeCoder.RootDecode` | enet_new/compress.c:418-438 | a code in v's slot of the root finds v, creating its symbol where there is none |
| `RangeCoding.RangeCoder.SymbolRescale` | enet_new/compress.c:90-105 | the recursion halves exactly the nodes of one subtree, with their new partial sums, and returns the new total |
| `RangeCoding.RangeCoder.ContextRescale` | enet_new/compress.c:107-112 | one context becomes the rescaled one, the others stay |
| `RangeCoding.RangeCoder.ContextUpdate` | enet_new/compress.c:306-314 | escapes and total grow and the context is rescaled exactly when the model's is |
| `Compression.Output` | enet_new/compress.c:114-119 | a byte is written behind the others, or does not fit |
| `Compression.EncodeNormalise` | enet_new/compress.c:126-136 | the loop on the output buffer writes the normalised bytes, or reports that they do not fit |
| `Compression.RangeEncode` | enet_new/compress.c:121-137 | one slot is coded as the interval arithmetic has it |
| `Compression.EncodeFlush` | enet_new/compress.c:139-146 | the flushed bytes are written |
| `Compression.EncodeInContext` | enet_new/compress.c:291-315 | one context codes v or an escape or nothing, and learns v |
| `Compression.NextInput` | enet_new/compress.c:331-336 | the next context is the model's, and the pool is emptied exactly when the model starts anew |
| `Compression.EncodeSubcontexts` | enet_new/compress.c:286-316 | the loop over the contexts ends in the one that knows v, with all parent links in place, or at the root |
| `Compression.EncodeByte` | enet_new/compress.c:267-336 | one byte is coded by the model's slots, and the pool again stands for the model |
| `Compression.Compress` | enet_new/compress.c:246-342 | the output is the model's stream of all the buffers, or 0 is returned because it does not fit |
| `Decompression.DecodeNormalise` | enet_new/compress.c:358-370 | the decoder's loop follows the encoder's and reads one byte for each byte written |
| `Decompression.Seed` | enet_new/compress.c:344-350 | the code word holds the first four bytes, zeros where there are none |
| `Decompression.Read` | enet_new/compress.c:352 | the quotient, which its 16 bits do not cut |
| `Decompression.StreamCode` | enet_new/compress.c:529-548 | in a context that can escape, the code read is v's or the escape's; after the last byte it is the escape's |
| `Decompression.DecodeInContext` | enet_new/compress.c:529-567 | a context that does not hold the byte is left as it is, one that does gives it and learns it |
| `Decompression.DecodeSubcontexts` | enet_new/compress.c:529-568 | the loop ends in the context where the encoder's byte was found, or at the root |
| `Decompression.DecodeInRoot` | enet_new/compress.c:570-596 | the root gives the byte, or the escape that ends the stream exactly when no byte is left |
| `Decompression.PatchContexts` | enet_new/compress.c:598-612 | afterwards the pool stands for what the encoder has learnt, with predicted at the byte's symbol in the longest context |
| `Decompression.DecodeByte` | enet_new/compress.c:520-612 | one turn gives the next byte and leaves decoder, stream and model where the encoder's were, or stops at the end |
| `Decompression.Decompress` | enet_new/compress.c:498-627 | a stream made by compress decompresses to the data, or to nothing when the data does not fit |
| `Decompression.RoundTrip` | enet_new/compress.c:246-627 | compress and then decompress gives back the buffers' bytes whenever compress succeeds and the limit allows |
| `Unambiguity.Unambiguous` | enet_new/compress.c:246-342 | from any state of the coder, different data never have the same stream |
| `Unambiguity.NotAtEnd` | enet_new/compress.c:570-582 | a stream with a byte to come is never mistaken for one that has ended |
| `Unambiguity.OnlyNothingIsEmpty` | enet_new/compress.c:337-341 | only no data at all has an empty stream |
| `SequenceNumbers.AheadIsTrue` | enet_new/peer.c:624-633 | less than 65536 ahead, the wrapped window distance is the true one |
| `SequenceNumbers.StaleCopies` | enet_new/peer.c:882-891 | exactly which numbers from behind are taken for new ones |
| `SequenceNumbers.AcceptsIsTrue` | enet_new/peer.c:882-899 | for recent copies, the receiver's 16-bit test is true exactly for numbers ahead and within its windows |
| `SequenceNumbers.OlderIsNotTrue` | enet_new/peer.c:882-891 | one window older, and a delivered command would be taken again |
| `SequenceNumbers.AcknowledgesIsTrue` | enet_new/peer.c:624-633 | a command ahead that is not taken is acknowledged exactly when it is more than FREE_RELIABLE_WINDOWS ahead |
| `SequenceNumbers.BeforeIsTrue` | enet_new/peer.c:904-918 | the search loop's comparisons order numbers as if they had not wrapped |
| `Fragmentation.Split` | enet_new/peer.c:127-186 | the loop, with its shrinking last piece, makes exactly fragmentCount pieces at their offsets |
| `Fragmentation.PieceBounds` | enet_new/peer.c:150-186 | every piece has at least one byte and at most fragmentLength, and each starts where the one before ends |
| `Fragmentation.PiecesMakeThePacket` | enet_new/peer.c:150-186 | the pieces partition the packet |
| `Fragmentation.FilledKeeps` | enet_new/protocol.c:624-637 | a fragment sets its bit, lowers fragmentsRemaining and writes its bytes without touching others |
| `Fragmentation.AssembledIsThePacket` | enet_new/protocol.c:624-640 | fragmentsRemaining, the number of clear bits, is 0 exactly when all fragments have come, and then the buffer is the packet |
| `Numbering.NumberTells` | enet_new/peer.c:663-669 | no two commands of a channel share an unwrapped number, and later packets have later ones |
| `ReliableReceiver.Receiver.Find` | enet_new/peer.c:901-919 | the backward search finds the entry of the number, or the place that keeps the list in sending order |
| `ReliableReceiver.Receiver.Dispatch` | enet_new/peer.c:821-858 | everything that can be delivered in order is, each packet whole, across wraps of the number |
| `ReliableReceiver.Receiver.QueueIncoming` | enet_new/peer.c:860-1039 | the command is stored exactly when it is of a packet inside the windows of which nothing has come, and memory is left; otherwise it is discarded or refused, and nothing changes |
| `ReliableReceiver.Receiver.HandleReliable` | enet_new/protocol.c:446-466 | a command inside the windows is received and any other changes nothing; it fails exactly when its packet is new and memory for waiting data is used up |
| `ReliableReceiver.Receiver.HandleFragment` | enet_new/protocol.c:536-645 | the same for a fragment, in any order and with duplicates |
| `ReliableReceiver.Receiver.Fill` | enet_new/protocol.c:624-642 | the fragment is received, and the packet dispatched when it was the last one missing and its turn has come |
| `ReliableReceiver.Receiver.QueueAcknowledgement` | enet_new/peer.c:618-648 | an acknowledgement is queued exactly when the test allows it |
| `ReliableReceiver.AckTest` | enet_new/peer.c:624-633 | the 16-bit test allows it exactly when the true window distance, whole laps aside, is neither FREE_RELIABLE_WINDOWS - 1 nor FREE_RELIABLE_WINDOWS |
| `ReliableReceiver.Receiver.HandleCommand` | enet_new/protocol.c:1274-1306 | exactly what is received, and exactly when it is acknowledged: a command inside the windows is, and what is acknowledged and not received was more than FREE_RELIABLE_WINDOWS ahead; dispatched packets stay the first ones sent |
| `ReliableReceiver.EntryIsComplete` | enet_new/peer.c:832-835 | an entry has no fragments remaining exactly when all its commands have been received, and then holds the packet |
| `SendWindow.MaskHas` | enet_new/protocol.c:1541-1543 | the shifted mask covers the window and the FREE_RELIABLE_WINDOWS + 1 after it, around the end of the 16 bits |
| `SendWindow.MaskIsBits` | enet_new/protocol.c:1541-1543 | the mask is made of the bits of those ten windows and no others |
| `SendWindow.StartsInReach` | enet_new/protocol.c:1537-1548 | the window test keeps what is in flight within RELIABLE_WINDOWS - FREE_RELIABLE_WINDOWS - 1 consecutive windows ending at the newest |
| `SendWindow.StartsExactly` | enet_new/protocol.c:1537-1548 | the test on counters and mask is a statement about the commands in flight: one of the window before is not among them, and none is RELIABLE_WINDOWS - FREE_RELIABLE_WINDOWS - 1 windows back or more |
| `SendWindow.CountedMore` | enet_new/protocol.c:1578-1584 | a first send keeps reliableWindows and usedReliableWindows exact |
| `SendWindow.CountedLess` | enet_new/protocol.c:251-261 | so does an acknowledgement |
| `SendWindow.FlightTells` | enet_new/protocol.c:1537-1548 | no two commands in flight share a 16-bit number |
| `ReliableSender.StartsMayBegin` | enet_new/protocol.c:1537-1548 | a window is started only when a command of the window before it has been acknowledged |
| `ReliableSender.Sender.constructor` | enet_new/host.c:227-241 | nothing queued, sent or in flight |
| `ReliableSender.Sender.SetUpOutgoing` | enet_new/peer.c:650-717 | the command takes the next number and goes to the end of the queue, never sent and with no time set |
| `ReliableSender.Sender.Send` | enet_new/peer.c:106-226 | the packet is queued as one command or as all its fragments, or refused: for a peer not connected or without the channel, for its size, or for having too many fragments |
| `ReliableSender.Sender.SendNext` | enet_new/protocol.c:1576-1602 | the first queued command becomes the last sent, counted in its window when it goes for the first time, and the data in transit grows by its length |
| `ReliableSender.Sender.CheckOutgoing` | enet_new/protocol.c:1492-1602 | commands go out in order, taking their headers of 6 or 24 bytes and their data from the datagram, until one may not start its window, does not fit the transit limit or the space left, or has no slot left; every sender invariant is kept |
| `ReliableSender.DueTwiceAsLate` | enet_new/protocol.c:1446-1464 | a command sent is due once its time is up, and sent again, once twice the time is |
| `ReliableSender.Sender.CheckTimeouts` | enet_new/protocol.c:1434-1490 | exactly the overdue commands go, in order and with doubled time, to the front of the queue; nothing leaves flight |
| `ReliableSender.Sender.RemoveSent` | enet_new/protocol.c:220-292 | the one command in flight with the number is retired, wherever it is queued, and no other moves; the search that stops at the first unsent command misses none |
| `ReliableSender.Sender.FreeWindow` | enet_new/protocol.c:251-261 | its window loses it, and the window's bit when it was the last |
| `ReliableChannel.NextIsGood` | enet_new/protocol.c:1274-1306 | every step of sender, receiver or network keeps the channel's invariant |
| `ReliableChannel.SendsNear` | enet_new/protocol.c:1537-1548 | the sender's newest command is always less than FREE_RELIABLE_WINDOWS windows ahead of the receiver's current one |
| `ReliableChannel.DeliversGood` | enet_new/peer.c:618-648 | in a reachable state nothing is acknowledged that has not been received |
| `ReliableChannel.RunsAreReliable` | enet_new/protocol.c:1492-1602 | in every state of every run: what was retired was received, numbers in flight are distinct, and with nothing left to send or retire all packets have been delivered |
| `ReliableChannel.Link.Deliver` | enet_new/protocol.c:1274-1306 | a copy of any command sent, of a packet that starts no further behind than the network keeps copies, is a step of the model, and what it adds to the received and to the acknowledgements is exactly HandleCommand's |
| `ReliableChannel.Link.Flush` | enet_new/protocol.c:1492-1602 | so is a pass over the outgoing commands, which puts on the wire what CheckOutgoing has sent |
| `ReliableChannel.Link.Acknowledge` | enet_new/protocol.c:910-920 | a copy of an acknowledgement less than a lap of numbers old retires the command it was for and no other |
| `ReliableChannel.Link.AcknowledgeLate` | enet_new/protocol.c:220-247 | exactly a lap old, it retires the newest command, which has not been acknowledged |
| `ReliableChannel.LapBehind` | enet_new/protocol.c:230-247 | the 16-bit number of the command a lap before the newest belongs to the newest alone among those in flight |
| `ReliableChannel.DispatchedInOrder` | enet_new/peer.c:821-858 | at any time the dispatched packets are the first packets queued, each once and in order, and in the end all of them |
| `Unsequenced.TakenExactly` | enet_new/protocol.c:485-492 | exactly which distances from the window the 16-bit test lets through |
| `Unsequenced.StaleIsTaken` | enet_new/protocol.c:485-492 | a group that the window has left behind and the test lets through |
| `Unsequenced.Receiver.Advance` | enet_new/protocol.c:494-504 | moving or clearing the 1024-group bitmap forgets no group that could still be let through |
| `Unsequenced.Receiver.Receive` | enet_new/protocol.c:468-512 | a group no further than half the number space away is queued exactly when it is not behind the window and has never been queued; the window moves to its block |
| `Unsequenced.ReceivedAgain` | enet_new/protocol.c:468-512 | four calls after which the same packet has been queued twice |
| `Lists.Clear` | enet_new/list.c:13-18 | the empty ring |
| `Lists.Insert` | enet_new/list.c:20-32 | the node comes before the position, and the ring stays linked both ways |
| `Lists.Remove` | enet_new/list.c:34-41 | the node leaves the ring |
| `Lists.Move` | enet_new/list.c:43-59 | the nodes from first to last leave their ring and enter the position's, in order, whether it is the same ring or another |
| `Lists.Size` | enet_new/list.c:61-73 | the number of nodes without the sentinel |
| `Bandwidth.SettlePeers` | enet_new/host.c:462-476 | a pass marks exactly the peers below the level, takes their share, and leaves the level for each of the others |
| `Bandwidth.ShareIncoming` | enet_new/host.c:446-478 | the loop ends with the least stable level and exactly the peers below it marked, or with all of them where no level is stable; the shares stay within the host's bandwidth, each is the peer's own limit or the level, and less than one unit for each peer at the level is left |
| `Bandwidth.LimitIncoming` | enet_new/host.c:446-502 | every active peer is told its own limit or the level, whichever is less, and none where it or the host has none |
| `Bandwidth.StableIsAbove` | enet_new/host.c:457-460 | no pass divides to more than a stable level |
| `Bandwidth.OneOutcome` | enet_new/host.c:446-478 | peers and bandwidth determine who is settled and, where somebody is not, the level |
| `Bandwidth.FairExactly` | enet_new/host.c:446-478 | the shares that the loops end with are max-min fair exactly when the last division leaves nothing over or nobody would take more |
| `Bandwidth.NotAlwaysFair` | enet_new/host.c:446-478 | peers that send at most 3, 3 and 100 and a bandwidth of 10: the loops end at 3 with nobody settled, which is not fair |
| `Bandwidth.Take` | enet_new/host.c:403-417 | limiting a peer takes its bandwidth from both totals without either going below zero |
| `Bandwidth.LimitPeers` | enet_new/host.c:387-418 | a pass limits exactly the peers that would get more than they take, each to the largest throttle at which it does not, with no underflow and no 32-bit product overflowing |
| `Bandwidth.FindThrottle` | enet_new/host.c:378-419 | the loop is through after one pass; the throttle it ends with is the largest at which what is left to send fits in what is left of the bandwidth, and nobody left gets more than it takes at it |
| `Bandwidth.ThrottleFalls` | enet_new/host.c:382-417 | taking the same from bandwidth and data lowers the throttle, so that a second pass finds nobody to limit |
| `Bandwidth.ApplyThrottle` | enet_new/host.c:428-443 | the peers not limited, and only they, get the throttle |
| `Bandwidth.ThrottleOutgoing` | enet_new/host.c:338-444 | every active peer ends with its own limit or the common throttle, by whether it would get more than it takes at the throttle of all; both are as large as the bandwidths allow and no larger |
| `Bandwidth.DataTotal` | enet_new/host.c:366-374 | the sum over the active peers |
| `HttpResponse.FindCrlf` | include/HTTPRequest.hpp:613 | the first CRLF, or the end |
| `HttpResponse.RunJoined` | include/HTTPRequest.hpp:599-735 | byte by byte, reading is reading the parts one after the other until the response is complete |
| `HttpResponse.RunLine` | include/HTTPRequest.hpp:610-640 | taking a line out of the buffer at once is what its bytes come to one by one |
| `HttpResponse.RunChunk` | include/HTTPRequest.hpp:700-709 | so is taking as much of a chunk as there is |
| `HttpResponse.ReadLines` | include/HTTPRequest.hpp:609-690 | the loop over header lines follows the byte-wise parser and leaves an incomplete line waiting |
| `HttpResponse.ReadChunks` | include/HTTPRequest.hpp:696-735 | so does the loop over chunks, with sizes, CRLFs and data cut anywhere |
| `HttpResponse.ReadPiece` | include/HTTPRequest.hpp:600-745 | one recv result: same outcome and state as byte by byte, but for bytes behind a body of known length |
| `HttpResponse.ReadResponse` | include/HTTPRequest.hpp:599-750 | all of them: outcome and response depend on the joined bytes alone, but for those bytes |
| `HttpResponse.CutsAgreeExactly` | include/HTTPRequest.hpp:736-745 | any two ways of cutting give the same response exactly when it is not complete, is chunked, or has nothing behind it |
| `HttpResponse.CutsDiffer` | include/HTTPRequest.hpp:738-743 | what follows a complete response of known length becomes part of its body in one piece with it, and not in a piece of its own |
| `HttpResponse.OneByteTooMuch` | include/HTTPRequest.hpp:738-743 | a response with Content-Length 1 and one byte behind it, cut both ways |
| `HttpResponse.SizeIsRead` | include/HTTPRequest.hpp:730 | a chunk size written in hexadecimal, in capitals or not, with leading zeros or an extension, is read as that number, or refused from 2^64 on |
| `HttpResponse.SpelledNumber` | include/HTTPRequest.hpp:638-730 | digits are read, most significant first, as the number they are written for and no other |
| `HttpResponse.DecimalIsRead` | include/HTTPRequest.hpp:638-679 | so are decimal status codes and lengths, or they are refused as too big |
| `HttpResponse.ChunkedIsRead` | include/HTTPRequest.hpp:696-735 | byte by byte, a chunked body, as section 4.1 of RFC 7230 defines it, is read as the concatenation of the chunks' data, up to the last chunk's line |
| `HttpResponse.HeaderIsRead` | include/HTTPRequest.hpp:649-690 | a header line with its name in capitals or not and blanks around the value is kept as it is, and its meaning for the body taken |
| `HttpResponse.StatusLineIsRead` | include/HTTPRequest.hpp:628-647 | version, status as it is written in decimal, and description, which may be empty or hold spaces, are taken apart |
| `HttpResponse.HeadIsRead` | include/HTTPRequest.hpp:608-690 | status line, header lines and the empty line lead the parser from its start to the body, with status, description, headers, last length given and whether chunked |
| `HttpResponse.LengthIs` | include/HTTPRequest.hpp:677-682 | the length taken is the number written in the last header about it |
| `HttpResponse.ReadChunked` | include/HTTPRequest.hpp:599-735 | however a chunked response is cut into pieces, and whatever follows it, the reading loop returns its status, description and header lines and the chunks' data |
| `HttpResponse.ChunkedExample` | include/HTTPRequest.hpp:683-686 | a response with "Transfer-Encoding: chunked" and a chunk of one byte is one of those |
| `HttpResponse.ReadKnownLength` | include/HTTPRequest.hpp:599-745 | the same for a response with a length: the body has as many bytes as its last Content-Length is written for, and at most some of those that follow it behind them |
| `HttpResponse.ReadUntilClosed` | include/HTTPRequest.hpp:599-745 | and for one with neither: the body is everything until the other side closes |
| `HttpResponse.NoColonIsRefused` | include/HTTPRequest.hpp:651-654 | a header line without a colon is an invalid header |
| `HttpResponse.EncodingIsRefused` | include/HTTPRequest.hpp:683-689 | a transfer encoding other than chunked is refused |
| `HttpResponse.ChunkEndIsRefused` | include/HTTPRequest.hpp:713-721 | a chunk whose data are not followed by a CRLF is refused |
| `Connections.SessionIsNew` | enet_new/protocol.c:352-362 | the session number chosen is valid, differs from the one used last, and is the first after the other side's that does |
| `Connections.Host.constructor` | enet_new/host.c:73-131 | all slots free, both counts zero, and the host's limits and bandwidths as given |
| `Connections.Host.Counts` | enet_new/peer.c:366-388 | the counts follow a peer into a state |
| `Connections.Host.ChangeState` | enet_new/protocol.c:35-44 | the state changes and both counts stay exact |
| `Connections.Host.Reset` | enet_new/peer.c:395-450 | the slot is free again, its session numbers kept, and the counts stay exact |
| `Connections.Host.ResetQueues` | enet_new/peer.c:330-364 | the peer loses its channels and nothing else of what is modelled |
| `Connections.Host.Connect` | enet_new/host.c:183-261 | the first free slot starts connecting with the host's mtu, and the CONNECT says so; or there is none |
| `Connections.Host.HandleConnect` | enet_new/protocol.c:294-441 | the first free slot is taken, with smaller mtu and new sessions, and answered for, unless and only unless the CONNECT has to be refused |
| `Connections.Host.NotifyConnect` | enet_new/protocol.c:119-134 | the state after a connection is complete, with exact counts |
| `Connections.Host.NotifyDisconnect` | enet_new/protocol.c:136-159 | a peer still being accepted is cleared; any other waits for the event as a zombie where it cannot be told at once; exact counts |
| `Connections.Host.HandleVerifyConnect` | enet_new/protocol.c:948-1006 | only a connecting peer takes a matching answer; a wrong one makes it a zombie |
| `Connections.Host.Disconnect` | enet_new/peer.c:551-586 | an active peer starts disconnecting, without channels; one not yet active is cleared; one on its way out stays; exact counts |
| `Connections.Host.DisconnectWhenSent` | enet_new/peer.c:605-616 | the same with commands still to send |
| `Connections.Host.HandleAcknowledge` | enet_new/protocol.c:922-945 | what an acknowledgement does to the state, with exact counts |
| `Connections.Host.HandleDisconnect` | enet_new/protocol.c:821-848 | what a DISCONNECT makes of a peer in each state, with exact counts; the channels are gone whatever the state becomes |
| `Connections.Host.HandleBandwidthLimit` | enet_new/protocol.c:774-787 | a changed limit keeps the count of limited peers exact |
| `Connections.Host.ConfigureThrottle` | enet_new/peer.c:42-59 | one peer's throttle settings change, whatever its state |
| `Connections.Host.HandleThrottleConfigure` | enet_new/protocol.c:806-818 | those of an active peer change when the other side says so |
| `Connections.Host.Dispatch` | enet_new/protocol.c:68-90 | pending connections and zombies are taken on, with exact counts |
| `Connections.Host.SendAcknowledgement` | enet_new/protocol.c:1420-1421 | a peer whose DISCONNECT has been acknowledged is a zombie |
| `Connections.Establish` | enet_new/protocol.c:294-441 | two hosts after CONNECT, VERIFY_CONNECT and its acknowledgement: both peers connected, with the same connectID, smaller mtu, limited channels and throttle, new sessions crosswise, and each the bandwidths of the other host; and when the server has a slot |
| `Connections.EndFromHere` | enet_new/peer.c:551-586 | a connected peer that is disconnected and acknowledged ends as a free slot, through the states on the way, and the counts lose it alone |
| `Connections.EndWhenSent` | enet_new/peer.c:605-616 | the same for one that is to send its commands first |
| `Connections.EndFromThere` | enet_new/protocol.c:821-848 | and for one that the other side disconnects, whether it wants an acknowledgement or not |
| `Connections.HandlersMoveOn` | enet_new/protocol.c:119-159 | no handler outside the handshake changes connection, mtu, sessions or, until the peer is let go, channels, or establishes a client's connection; only configuring it changes the throttle |
| `Connections.LimitedAreConnected` | enet_new/peer.c:366-388 | limited peers are never more than connected ones, nor those more than peers |
| `Handshake.NextIsGood` | enet_new/protocol.c:294-441 | every step of either host, and every copy delivered, keeps the handshake's invariant |
| `Handshake.HandshakesAgree` | enet_new/protocol.c:948-1006 | in every run, an established client and the server slot that still answers for it hold the same connectID and mtu and crosswise equal sessions; until the server lets the client go, the client has no more channels; until one side configures its throttle, the settings are the same |
| `Handshake.ServerHandlersAreSteps` | enet_new/protocol.c:119-159 | what the handlers make of a server slot after accepting is a step of these runs |
| `Handshake.ClientHandlersAreSteps` | enet_new/protocol.c:119-159 | so is what they make of a client's peer, apart from connecting and taking the answer |
| `Ownership.Packet.Destroy` | enet_new/packet.c:56-68 | a packet that has not been destroyed is |
| `Ownership.Host.Queue` | enet_new/peer.c:719-735 | a queued command adds one to its packet's count |
| `Ownership.Host.Move` | enet_new/protocol.c:1594-1597 | going from queue to queue changes no count |
| `Ownership.Host.Release` | enet_new/protocol.c:265-280 | the packet is destroyed exactly with the last command queued for it |
| `Ownership.Host.Receive` | enet_new/peer.c:243-268 | the application gets the packet undestroyed, with one command less |
| `Ownership.Host.Reset` | enet_new/peer.c:271-326 | emptying a queue destroys exactly the packets whose last commands were in it |

## Left out

- Decompress: only streams that compress has made; what decompression makes of other bytes is not stated.
- Compress: buffers after the first are required to be non-empty, because the program reads a byte of the next buffer without looking at its length.
- RoundTrip: buffers after the first are required to be non-empty, as for Compress.
- Receiver: state CONNECTED only; in DISCONNECT_LATER the program acknowledges commands that it discards.
- ReadResponse: the body's reserve call and the sizes of standard containers are not limited.
- QueueIncoming: only recent copies of commands that an honest sender has queued, as the introduction says; the same holds for HandleReliable, HandleFragment and HandleCommand.
- HandleReliable: as QueueIncoming.
- HandleFragment: as QueueIncoming, for the packet's first number.
- HandleCommand: as QueueIncoming, for a peer in state CONNECTED.
- Deliver: only copies of packets whose first number the receiver's windows can tell from a new one; older ones are the failing family of StaleCopies.
- Acknowledge: only copies less than a lap of numbers old; AcknowledgeLate shows what an older one does.
- Receive: only groups no further than half the number space from the window; ReceivedAgain shows what an older one does.
- CheckOutgoing: one channel alone in the queue, without unreliable commands and the merging of two queues by queueTime.
- Destroy: freeing the packet and its data and calling its callback are one flag; that no packet is destroyed twice is what the callers prove.
- LimitPeers: products are required to stay within 32 bits, as for ThrottleOutgoing.
- FindThrottle: products are required to stay within 32 bits, as for ThrottleOutgoing.
- ThrottleOutgoing: products and sums are required to stay within 32 bits, as the program does not check them.
- ShareIncoming: no peer's throttle epoch is the current time yet, which the minimum interval between calls provides.
- CheckTimeouts: times do not wrap; giving up a peer after too many timeouts is a state change of the connection and not part of it.
- Understood: which values with signs or spaces in front std::stoul takes for a length is described by the program's own scanner; the results about whole responses are for lengths written as plain numbers.
- Unreliable packets, their fragments and their dispatch, and the packet throttle that drops them.
- Several channels and peer-level commands sharing a sender's queues; each channel is modelled with its own.
- The bitmap of received fragments is a sequence of booleans instead of 32-bit words; the lists of commands in the channel are sequences, and their heap rings are proved separately.
- Window sizes, round trip times and packet loss figures of a peer, and the dispatch queue's flags.
- The line and header grammar of HTTP beyond what the reader uses; sending the request, timeouts and sockets.
- Context exclusion in the range coder, which is compiled out, and its allocation and registration with a host.
- Memory allocation failure, byte order macros, checksums, base64, sockets, clocks and address resolution.
- The older `.cpp` files of the same transport, and the game server itself.
