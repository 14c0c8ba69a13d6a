# DAENet: a verified model

DAENet is an anonymous peer-to-peer network. Nodes form a ring of identifiers and look keys up
through finger tables; two sockets that share a seed meet at dead-drop nodes, where the n-th
payloads of the two sides are swapped; a shuffle pool sends one packet to every finger at each
tick; and beside the overlay there are onion circuits, packet checksums, a file-sharing example
with its own MD5, a bounded vector of nearby keys and a routing simulator.

The project models that logic in Dafny and proves what it promises. Code that updates objects or
arrays is a class or an in-place method, proved against functions on values; the laws are lemmas
about those functions, over every input, every run or every reachable state.

| file | what it holds |
|---|---|
| `Ring.dfy`, `Routing.dfy` | identifier ranges, the routing decision, lookups and their hop bound |
| `Protocol.dfy`, `Network.dfy` | a node's handlers as functions, and the asynchronous protocol as a state machine |
| `Settled.dfy`, `Repair.dfy`, `Convergence.dfy`, `Joining.dfy` | stabilisation, finger repair and where they lead, and how nodes join |
| `Checks.dfy`, `Backup.dfy` | failure checks, successor lists and failover |
| `Node.dfy` | the node object, each method proved to be the function of the protocol |
| `DeadDrop.dfy`, `Generator.dfy`, `Rendezvous.dfy`, `Relay.dfy` | the dead-drop swap, the seeded generator, the end-to-end exchange and its objects |
| `ShufflePool.dfy` | the random queue, the pool and what an observer sees |
| `Checksum.dfy`, `Crc32c.dfy` | internet checksums and CRC-32C |
| `Onion.dfy` | onion circuits |
| `OrderedVector.dfy` | the bounded sorted vector |
| `Simulator.dfy` | simulator routing and conservation |
| `Word32.dfy`, `Md5.dfy`, `Md5Stream.dfy`, `FileTask.dfy` | the file-sharing example |
| `Common.dfy`, `Paths.dfy` | shared definitions, and paths of a step relation |

Some properties turn out false of the code as it stands. The code is kept as it is and the exact
condition is proved:

- A sorted vector loses its order or its counts on a key it already holds, on the middle key, and
  on one kind of insertion into an odd capacity (`ShapedIff`, `SoundIffNew`).
- A neighbour search for a key that is itself held, other than the first two and the last, takes
  the key to stand after the first one and returns the window there (`PlaceDividesIff`,
  `InnerKeyMisplaced`).
- A neighbour window of odd size can end one key past the array (`WindowInsideIff`,
  `OddWindowOverruns`).
- MD5 padding differs from RFC 1321 just when the length is 55 modulo 64 (`PaddingIsRfc`).
- The drain loop of a download does not end when the block in place, with waiting blocks that
  follow on, reaches past the start of another waiting block (`AppendDataBlock`). For the parts of
  a file that is the arrival of the first missing part while one of the prefix it completes has
  come twice (`ArrivalKeeps`, `RepeatRunSpins`).

## Model

| member | source | states |
|---|---|---|
| Ring.InRangeIsArc | src/p2p/DAENode.hpp:182-191 | for all identifiers, the three-branch range test holds exactly on the open clockwise arc, the whole ring but the start when both ends coincide |
| Ring.RightTightIsArc | src/p2p/DAENode.hpp:200-206 | the right-closed test, whose last two arguments are passed crossed, holds exactly when the distance to its right argument is within the arc |
| Ring.SentinelInNoRange | src/p2p/DAENode.hpp:182-191 | the sentinel -1, read as unsigned, lies in no range, so it never passes for a neighbour |
| Ring.StartIsModulo | src/p2p/DAENode.hpp:248-254 | a finger's start is id plus its power of two modulo the ring size, and lies at that clockwise distance |
| Routing.ClosestIndex | src/p2p/DAENode.hpp:155-162 | the highest finger that lies strictly between the node and the key, and none of the higher ones does; -1 if there is none |
| Routing.TrueSuccessorTest | src/p2p/DAENode.cpp:11-37 | at a true successor the right-closed test holds if and only if the successor is the first node at or after the key, and otherwise the successor itself lies on the way |
| Routing.DecisionOfNode | src/p2p/DAENode.cpp:11-37 | with a true successor and live fingers a node answers with the first live node at or after the key or forwards strictly closer to it, and never takes the fallback to itself |
| Routing.DecisionSound | src/p2p/DAENode.cpp:11-37 | the same for every node of a network of truthful tables, and the peer chosen carries its own address |
| Routing.LookupCorrect | src/p2p/DAENode.cpp:11-37 | every chain of find-successor messages ends and answers with the true successor of the key, with that node's own address |
| Routing.LookupOfMember | src/p2p/DAENode.cpp:94-106 | a lookup of an id that is already linked answers with that very node, which is what a join lookup that arrives late gets |
| Routing.HopHalves | src/p2p/DAENode.hpp:155-162 | with exact fingers one hop brings the distance to the key's predecessor below the power of two it had reached |
| Routing.HopBound | src/p2p/DAENode.cpp:11-37 | with exact fingers any lookup is forwarded at most m times |
| DeadDrop.TripIsLookup | src/p2p/DAENode.cpp:39-67 | an external message is forwarded exactly as often as a lookup of its key, unchanged, and only its last packet, to the node that lookup answers with, is marked final |
| DeadDrop.TripBound | src/p2p/DAENode.cpp:39-67 | with exact fingers any external message is forwarded at most m times and ends at the first node at or after its key |
| Network.ReceiveSafe | src/relay/RandomSocket.cpp:237-423 | every handler of an internal message keeps a node's pointers real and sends only packets that pair an id with its own address |
| Network.FixFromSafe | src/p2p/DAENode.cpp:191-206 | the finger-repair loop, including entries copied from the one before, keeps pointers and packets real |
| Network.StabilizeSafe | src/p2p/DAENode.cpp:160-180 | taking over the predecessor of the successor keeps pointers real, as the sentinel passes no range test |
| Network.StepSafe | src/relay/RandomSocket.cpp:237-423 | any step of any node (joins, timers, deliveries in any order, loss, duplication) keeps the whole network safe |
| Network.RunSafe | src/p2p/DAENode.cpp:94-338 | in every state of every run from the empty network, every finger, list entry, known predecessor and reply in flight pairs a real id with that node's own ip and port, indices stay in range, the sentinel never enters a finger table, no successor list names its own node, and the answer to a check names the node that sent it |
| Settled.StabilizeTakes | src/p2p/DAENode.cpp:160-180 | the successor is replaced exactly when the predecessor it last reported lies strictly between the node and it, by that node and nothing else changes; the old successor is asked for its predecessor and the new one, unless it is the node itself, is told of the node |
| Settled.NotifyTakes | src/p2p/DAENode.cpp:182-189 | a candidate is taken for predecessor exactly when none is known or it lies strictly between the known one and the node |
| Settled.StabilizeShrinks | src/p2p/DAENode.cpp:160-180 | a stabilise that changes the successor strictly shortens the way to it and never passes the true neighbour |
| Settled.NotifyShrinks | src/p2p/DAENode.cpp:182-189 | an accepted notify strictly shortens the way from the known predecessor and never passes the true one |
| Settled.CopyIsExact | src/p2p/DAENode.cpp:195-199 | the shortcut that copies the entry before is right: the copied node is the first at or after the new start |
| Settled.StepSettled | src/p2p/DAENode.cpp:160-206 | with true neighbours and truthful messages in flight, no step without joins or failures disturbs a successor, a predecessor or an exact finger |
| Settled.RunSettled | src/p2p/DAENode.cpp:160-206 | the same over every run, in any order of timers and deliveries |
| Settled.StepKeepsPredecessor | src/p2p/DAENode.cpp:182-189 | in a settled ring a known predecessor is never replaced |
| Repair.AnsweredIsFirst | src/p2p/DAENode.cpp:11-37 | the reply that a chain of find-successor messages ends in goes to the asker, keeps its index and names the first node at or after the key |
| Repair.PassExact | src/p2p/DAENode.cpp:191-206 | with true successors and replies in step, one repair pass leaves every entry the first node at or after its start, copied and wrapped entries included, and changes nothing else |
| Repair.PassSeesAll | src/p2p/DAENode.cpp:191-206 | whatever the table holds, a pass looks every entry up, under its own index and start and with the own return address, or copies the one before it, which then lies past the start |
| Repair.AnswerExtends | src/relay/RandomSocket.cpp:262-285 | the answer to the first entry not yet exact makes it exact |
| Repair.PassExtends | src/p2p/DAENode.cpp:191-206 | in the asynchronous protocol every pass makes the first entry not known to be exact exact, or sends a lookup of that very entry with the own return address to a live node, or its answer |
| Convergence.LookupAnswered | src/p2p/DAENode.cpp:11-37 | in a settled ring every finger lookup in flight can be delivered on, closer each time, until its answer is on the way to the asker |
| Convergence.RingRepaired | src/p2p/DAENode.cpp:191-206 | from any settled ring, whatever its other fingers hold, repair passes and deliveries lead to one in which every finger of every node is the first node at or after its start |
| Convergence.AnsweredInTurn | src/relay/RandomSocket.cpp:262-285 | in any quiet run, whatever happens in between, each answer for the first entry not known to be exact makes it exact for good |
| Convergence.AllAnswered | src/relay/RandomSocket.cpp:262-285 | a quiet run that brings a node the answers for its entries one after the other leaves its whole table exact |
| Convergence.PredecessorsLearnt | src/p2p/DAENode.cpp:160-189 | from any settled ring of two nodes or more, whatever predecessors are known, quiet steps lead to one in which every node knows its predecessor |
| Convergence.KnownIsTrue | src/p2p/DAENode.cpp:182-189 | and a predecessor known in a settled ring is the true one, with its own address |
| Joining.NewcomerLinked | src/p2p/DAENode.cpp:160-189 | a newcomer that has found its successor beside a settled ring: stabilise and notify steps reach the settled ring with it, its successor and its predecessor true |
| Joining.JoinCompletes | src/p2p/DAENode.cpp:94-189 | from any settled ring, whatever is in flight, a new node that asks any member reaches the settled ring that it is part of |
| Joining.SettledBecomesPerfect | src/p2p/DAENode.cpp:160-206 | from any settled ring of two or more, with anything in flight, quiet steps reach one in which every finger of every node is exact and every predecessor known and true |
| Joining.RingBuilt | src/p2p/DAENode.cpp:94-189 | every set of nodes can join one after the other, from nothing, into a settled ring |
| Joining.PerfectRingBuilt | src/p2p/DAENode.cpp:94-206 | and every set of two or more into one with all fingers exact and all predecessors true |
| Checks.SuccessorAnswers | src/relay/RandomSocket.cpp:395-423 | the answer to a check of the successor sets the status exactly when the node that answered is the successor and another node |
| Checks.PredecessorAnswers | src/relay/RandomSocket.cpp:375-393 | the same for the predecessor |
| Checks.LiveSuccessorSurvives | src/p2p/DAENode.cpp:241-291 | in a network, the five steps of a check of a live successor (begin, probe, answer, receive, end) leave every node as it was but for the status |
| Checks.LivePredecessorSurvives | src/p2p/DAENode.cpp:208-235 | the same for a live predecessor |
| Checks.DeadPredecessorForgotten | src/p2p/DAENode.cpp:208-235 | a check of the predecessor that nobody answers forgets it, and the next candidate is taken |
| Checks.SuccStatusIffAnswered | src/p2p/DAENode.cpp:241-291 | in any run, while a check of the successor is under way, its status is set if and only if an answer of the node that was successor when it came in has come in since the check began |
| Checks.PredStatusIffAnswered | src/p2p/DAENode.cpp:208-235 | the same for the predecessor |
| Checks.CheckOutcome | src/p2p/DAENode.cpp:241-291 | in any run from nothing, a check of the successor keeps it and the list if an answer that counts has come in, and such an answer was sent by the successor; otherwise it moves on along the list |
| Backup.NoReturn | src/p2p/DAENode.cpp:321-338 | walking successors meets every live node before the start again |
| Backup.RoundReplies | src/p2p/DAENode.cpp:328-338 | a fetch with counter c draws exactly c + 1 replies, the j-th naming the (j + 1)-th successor of the node asked |
| Backup.FetchFills | src/relay/RandomSocket.cpp:355-373 | in a true ring of eight or more, one round and its six replies in order leave exactly the 2nd to 7th successors, whatever the list held before |
| Backup.FailoverWalks | src/p2p/DAENode.cpp:241-291 | after k unanswered checks the successor is the k-th list entry and the list starts there; past its end the last entry stays |
| Backup.FailoverAfterFetch | src/p2p/DAENode.cpp:241-291 | after a fetch round, k failures in a row, up to six, leave the successor at the (k + 1)-th successor |
| NodeObject.DAENode.constructor | src/p2p/DAENode.hpp:221-258 | a new node points to itself with every start computed modulo the ring |
| NodeObject.DAENode.UpdateSuccessor | src/p2p/DAENode.hpp:368-378 | writes one finger and nothing else |
| NodeObject.DAENode.FindClosestPrecedingNode | src/p2p/DAENode.hpp:155-162 | the loop from the top finger down finds the closest preceding node, or the node itself |
| NodeObject.DAENode.FindClosestPrecedingNodeIp | src/p2p/DAENode.hpp:164-171 | its own loop finds the ip of the same node |
| NodeObject.DAENode.FindClosestPrecedingNodePort | src/p2p/DAENode.hpp:173-180 | its own loop finds the port of the same node |
| NodeObject.DAENode.HandleFindSuccessor | src/p2p/DAENode.cpp:11-37 | sends exactly the packet of the routing decision, answer or forward |
| NodeObject.DAENode.HandleExternalMessaging | src/p2p/DAENode.cpp:39-67 | sends an external message along the same decision, marked when the next node is the destination |
| NodeObject.DAENode.Stabilize | src/p2p/DAENode.cpp:160-180 | the new table and the messages sent are those of the protocol's stabilise |
| NodeObject.DAENode.Notify | src/p2p/DAENode.cpp:182-189 | changes the predecessor fields exactly when the protocol does |
| NodeObject.DAENode.FixEntry | src/p2p/DAENode.cpp:195-204 | one turn of the repair loop, copy or lookup, is the first turn of the rest of the pass |
| NodeObject.DAENode.FixFingers | src/p2p/DAENode.cpp:191-206 | the in-place loop leaves the table and sends the lookups of the protocol's repair pass, in order |
| NodeObject.DAENode.FetchSuccessorList | src/p2p/DAENode.cpp:321-326 | asks the successor for a round of six |
| NodeObject.DAENode.HandleFetchSuccessorList | src/p2p/DAENode.cpp:328-338 | one reply with the own successor, and the request passed on while the counter lasts |
| NodeObject.DAENode.TrimList | src/relay/RandomSocket.cpp:364-371 | the erasing loop keeps exactly the last entries |
| NodeObject.DAENode.AddBackup | src/relay/RandomSocket.cpp:355-373 | a reply is appended and the list cut to what the counter allows, unless it names the node itself |
| NodeObject.DAENode.StartCheckSuccessor | src/p2p/DAENode.cpp:241-245 | a check begins only when none is under way and the successor is another node |
| NodeObject.DAENode.EndCheckSuccessor | src/p2p/DAENode.cpp:261-291 | an unanswered check drops a list head equal to the successor and takes the next entry as successor |
| NodeObject.DAENode.StartCheckPredecessor | src/p2p/DAENode.cpp:208-212 | a check begins only when none is under way and a predecessor is known |
| NodeObject.DAENode.EndCheckPredecessor | src/p2p/DAENode.cpp:230-235 | an unanswered check forgets the predecessor |
| NodeObject.DAENode.ProcessInternalMessage | src/relay/RandomSocket.cpp:237-423 | the switch over every internal message is the protocol's receive step, state and messages |
| DeadDrop.SlotAlone | src/relay/RandomSocket.cpp:465-496 | whatever arrives, in whatever interleaving, a slot behaves as if alone: it holds the last arrival exactly after an odd number of its own, and its replies are its arrivals crossed in pairs |
| DeadDrop.PayloadsKept | src/relay/RandomSocket.cpp:465-496 | the payloads that reach a slot are those it replies plus the one that waits |
| Generator.RandomGenerator.Rand | src/utils/RandomGenerator.hpp:14-16 | the k-th draw of a generator is a function of its first seed and k alone, so that both ends of a session draw the same dead drops |
| Generator.OutputBits | src/utils/RandomGenerator.hpp:14-16 | the number drawn is, bit by bit, bits 16 to 46 of the new seed |
| Generator.StepUndone | src/utils/RandomGenerator.hpp:14-16 | the 64-bit wrapping step can be undone, so different seeds never fall together |
| Rendezvous.RunInv | src/relay/RandomSocket.cpp:453-526 | in every state of every run each payload sent is in exactly one place (in flight, at its dead drop, on its way back, or received), and every packet carries what its sender sent |
| Rendezvous.OnlyTheOthersPayload | src/relay/RandomSocket.cpp:507-526 | whatever an endpoint receives for a session and number is exactly the other side's payload of that number, and at most once |
| Rendezvous.Delivered | src/interface/dae/DAESocket.cpp:153-174 | when nothing is in flight and both sides have sent their n-th payload, each has received exactly the other's, whatever the start nodes, seeds and arrival order |
| Rendezvous.LonePayloadWaits | src/relay/RandomSocket.cpp:465-505 | a payload whose partner has not been sent waits, unchanged, at the first node at or after its dead-drop id |
| Rendezvous.DeliveryProgress | src/p2p/DAENode.cpp:39-67 | every delivery strictly lowers the work left, so deliveries alone come to an end |
| Rendezvous.DeliveryPossible | src/relay/RandomSocket.cpp:453-526 | in every state of every run each packet in flight can be delivered to a live node |
| Rendezvous.RunFallsQuiet | src/relay/RandomSocket.cpp:453-526 | every run goes on by deliveries alone to a state with nothing in flight |
| Rendezvous.ExchangeCompletes | src/interface/dae/DAESocket.cpp:153-174 | once both ends have sent their n-th payloads, deliveries alone bring each to the other, exactly once and unchanged, whatever has happened before |
| Relay.RelaySocket.Swap | src/relay/RandomSocket.cpp:465-496 | the table update and the two replies of a swap are those of the dead-drop function |
| Relay.RelaySocket.ProcessExternalMessage | src/relay/RandomSocket.cpp:453-526 | storing, swapping, receiving or forwarding is the step of the rendezvous model |
| Relay.DAESocket.Send | src/interface/dae/DAESocket.cpp:153-174 | routes the payload to the dead drop of the first seed and the number of draws, under the current number, and moves both on |
| ShufflePool.RandomQueue.Push | src/utils/ConcurrentRandomQueue.hpp:29-32 | appends in place |
| ShufflePool.RandomQueue.PopRandom | src/utils/ConcurrentRandomQueue.hpp:42-66 | takes the drawn element by moving the last into its place, or nothing when the draw is beyond the size or the queue is empty |
| ShufflePool.RemovedKeepsRest | src/utils/ConcurrentRandomQueue.hpp:46-64 | that removal keeps every other element |
| ShufflePool.RandomQueue.PopWithChance | src/utils/ConcurrentRandomQueue.hpp:67-77 | the in-place pop at a chance is one turn of a queue in a batch |
| ShufflePool.CertainChance | src/utils/ConcurrentRandomQueue.hpp:67-77 | every draw is accepted exactly from chance 1 on, and none exactly below 0 |
| ShufflePool.RoutedPacketHasQueue | src/obfuscation/ShufflePool.cpp:24-41 | a routed packet always finds a queue or is for the node itself: the error branch is never taken |
| ShufflePool.BatchShape | src/obfuscation/ShufflePool.cpp:43-71 | with dummies on, a batch sends one packet per finger, in finger order and to the fingers' own addresses |
| ShufflePool.BatchServes | src/obfuscation/ShufflePool.cpp:43-71 | a batch takes from every queue with an accepting draw and something waiting exactly the drawn packet, which it sends, and leaves every other queue as it was |
| ShufflePool.BatchPlaces | src/obfuscation/ShufflePool.cpp:43-71 | with dummies on, the packet in a queue's place is the drawn one, or a dummy for that finger when nothing is taken |
| ShufflePool.BatchKeeps | src/obfuscation/ShufflePool.cpp:43-71 | a batch neither loses, repeats nor invents a real packet |
| ShufflePool.RunKeeps | src/obfuscation/ShufflePool.cpp:24-71 | over every sequence of offers and batches, however the finger table changes in between, the real packets queued are those waiting plus those sent, each as often |
| ShufflePool.QueueDrains | src/obfuscation/ShufflePool.cpp:43-71 | after any run, while nothing more is offered, every batch with an accepting draw for a queue makes it one shorter until it is empty |
| ShufflePool.PoolDrains | src/obfuscation/ShufflePool.cpp:24-71 | then the pool is empty if and only if each queue has had as many accepting draws as packets, and everything it ever took has been sent, as often as it was taken |
| ShufflePool.RunAddressed | src/obfuscation/ShufflePool.cpp:24-71 | while the finger table stays, every waiting packet is in the queue of a finger with its address |
| ShufflePool.VolumeHidden | src/obfuscation/ShufflePool.cpp:43-71 | with dummies on, the number of packets sent is m for each batch, however the table changes and whatever is offered |
| ShufflePool.TrafficHidden | src/obfuscation/ShufflePool.cpp:43-71 | while the finger table stays, the addresses an observer sees depend only on it and the number of batches, not on the packets offered or the draws |
| ShufflePool.ShufflePoolObject.Send | src/obfuscation/ShufflePool.cpp:24-41 | the first finger with the packet's address gets it, else it goes directly to the node, else it is dropped |
| ShufflePool.ShufflePoolObject.SendBatch | src/obfuscation/ShufflePool.cpp:43-71 | the loop over the queues is the batch function, which serves every queue as `BatchServes` says; it counts every queue, a real packet for each queue taken from and, with dummies on, a dummy for each other |
| Checksum.IpChecksumPartial | src/packet/checksum.c:33-56 | the 32-bit loop with its 16-bit and odd-byte tails sums every little-endian word once, modulo 2^64 |
| Checksum.IpChecksumFold | src/packet/checksum.c:58-66 | folding a 64-bit sum gives the complement of its one's complement residue |
| Checksum.ByteOrderDoesNotMatter | src/packet/checksum.c:33-66 | the folded little-endian sum is the byte-swapped big-endian one's complement sum of RFC 1071 |
| Checksum.Ipv4Checksum | src/packet/checksum.c:107-111 | the result is the checksum of RFC 1071 for every header, odd lengths included |
| Checksum.PseudoHeaderChecksum | src/packet/checksum.c:97-152 | summing a pseudo-header and then a payload is the checksum of the two in a row |
| Checksum.PseudoOfFields | src/packet/checksum.c:68-95 | the pseudo-header of an IPv4 packet holds its addresses, a zero, its protocol and, high byte first, its total length less its header words, each from its place in the header |
| Checksum.PseudoOfV6Fields | src/packet/checksum.c:113-141 | that of an IPv6 packet its addresses, its payload length high byte first, three zeros and its next header |
| Checksum.FieldOfIsOffset | src/packet/packet_checksum.c:49-66 | the checksum lies behind the fields before it in each transport header |
| Checksum.StoredVerifies | src/packet/packet_checksum.c:40-47 | a checksum stored in a zeroed field makes the whole verify as zero |
| Checksum.FillField | src/packet/packet_checksum.c:40-66 | zeroing a field and storing the checksum makes the stretch verify with its pseudo-header, and no other byte changes |
| Checksum.ChecksumIpv4Packet | src/packet/packet_checksum.c:35-68 | in place, header and payload checksums both verify afterwards and no other byte changes |
| Checksum.ChecksumIpv6Packet | src/packet/packet_checksum.c:70-106 | in place, the payload checksum with its pseudo-header verifies afterwards, ICMP included, and no other byte changes |
| Crc32c.EntryIsSteps | src/packet/checksum.c:156-221 | every one of the 256 table entries is its index after eight bits of division by the reflected polynomial |
| Crc32c.TableStep | src/packet/checksum.c:154-154 | one table step on any register and byte is eight bits of the division |
| Crc32c.SctpCrc32c | src/packet/checksum.c:223-239 | for every byte string, the bytes returned are the complement of the bit-by-bit division of Appendix B of RFC 4960, low byte first |
| Crc32c.BurstDetected | src/packet/checksum.c:223-239 | any change within four consecutive bytes of a message of any length changes the result |
| Crc32c.AcceptedIffStored | src/packet/checksum.c:223-239 | four bytes behind a packet bring the register to one fixed residue exactly when they are the packet's checksum |
| Onion.CircuitVisits | src/interface/tor/TorSocket.cpp:384-421 | relay i of a set-up frame reads exactly the address of relay i + 1, the last and only the last reads the destination marker, and the frame at relay k is 40 bytes for each relay left |
| Onion.AddLayer | src/interface/tor/TorSocket.cpp:193-213 | one turn of the sender loop wraps the header for the next relay, if asked, and all that was there before |
| Onion.GenerateCircuits | src/interface/tor/TorSocket.cpp:176-215 | the in-place loop over two buffers makes such a frame from a set-up message, and one layer per nonce round data |
| Onion.PeelsLayers | src/interface/tor/TorSocket.cpp:126-142 | taking k layers off leaves exactly what the layers below made |
| Onion.LayersSize | src/interface/tor/TorSocket.cpp:183-214 | data grows by 28 bytes for each layer |
| Onion.SenderToTarget | src/interface/tor/TorSocket.cpp:68-107 | through any number of relays the target reads exactly what the sender sent |
| Onion.TargetToSender | src/interface/tor/TorSocket.cpp:68-107 | and the sender reads exactly what the target sent back |
| Onion.RecvDecryptOnion | src/interface/tor/TorSocket.cpp:109-143 | the reader's loop takes off exactly layer + 1 layers or fails as soon as one does |
| OrderedVector.Vector.Insert | src/utils/OrderedVector.hpp:30-91 | for any key, the in-place loops and counters leave the vector of the insertion function |
| OrderedVector.Vector.InsertUp | src/utils/OrderedVector.hpp:46-59 | the loop down a full array, in place, is the sliding function |
| OrderedVector.Vector.InsertDown | src/utils/OrderedVector.hpp:60-75 | the loop up a full array, in place, is the sliding function |
| OrderedVector.Vector.InsertRoom | src/utils/OrderedVector.hpp:77-88 | the loop with room left, in place, whatever the unused slot holds |
| OrderedVector.ShapedIff | src/utils/OrderedVector.hpp:30-91 | any insertion leaves the keys sorted and different and both counters exact if and only if the key is not the middle, is not held already (unless the capacity is one), and is not below all keys of a full vector with just one more key above the middle than below |
| OrderedVector.SpoilsOnlyWhenOdd | src/utils/OrderedVector.hpp:30-75 | with an even capacity that insertion cannot happen |
| OrderedVector.OddCapacitySpoils | src/utils/OrderedVector.hpp:60-75 | a vector of capacity three that an insertion leaves unsorted |
| OrderedVector.NeverLessBalanced | src/utils/OrderedVector.hpp:30-75 | once full with even capacity the difference of the two sides never grows, and a key on the smaller side shrinks it by two |
| OrderedVector.HistoryOptimal | src/utils/OrderedVector.hpp:30-91 | after any sequence of keys that are not held when offered and not the middle (left-out keys may come again), each side holds exactly the keys nearest to the middle among all ever offered, and a key is left out only by a side that holds at least as many as the other |
| OrderedVector.SoundIffNew | src/utils/OrderedVector.hpp:30-91 | with an even capacity the vector is sorted with exact counters all along a sequence if and only if the sequence is such a one |
| OrderedVector.OrderDoesNotMatter | src/utils/OrderedVector.hpp:30-91 | two such sequences of the same keys, in any order and with any left-out keys repeated, leave the same vector |
| OrderedVector.Vector.NearNeighbour | src/utils/OrderedVector.hpp:104-133 | returns the window at the place the search ends in: the number of keys below an absent key, and 1 for an inner held one |
| OrderedVector.PlaceDividesIff | src/utils/OrderedVector.hpp:104-123 | that place has no key above t before it and none below t from it on if and only if t is not a held key other than the first two and the last |
| OrderedVector.InnerKeyMisplaced | src/utils/OrderedVector.hpp:116-121 | of the keys 1 to 6, the two neighbours returned for 5 are 1 and 2 |
| OrderedVector.WindowInsideIff | src/utils/OrderedVector.hpp:104-133 | the window lies inside the array if and only if its size is not odd with its middle half reaching just to the end |
| OrderedVector.OddWindowOverruns | src/utils/OrderedVector.hpp:122-131 | for the keys 1 and 3, the three neighbours of 2 reach past the array |
| OrderedVector.WindowCentred | src/utils/OrderedVector.hpp:104-131 | a window of any size that does not overrun is as long as it can be, and one that does ends one key past the last; unless t is such an inner key, half of it, rounded down, lies before t and the rest behind, or it lies at an end with at most half of it on that side of t |
| Simulator.GetIdx | src/simulation/DAESimulator.cpp:101-110 | the scan from the top neighbour down finds the place of the highest one bit of the distance, and the last neighbour for a message to oneself |
| Simulator.BandIsDistance | src/simulation/DAESimulator.cpp:45-51 | the range test between two neighbours, wrapped or not, is a band of distances |
| Simulator.Init | src/simulation/DAESimulator.cpp:53-64 | the neighbour table holds the users at each power of two ahead |
| Simulator.HopsAreOnes | src/simulation/DAESimulator.cpp:79-153 | with 2^c users the way to another user by the routing rule has exactly as many hops as its distance has one bits |
| Simulator.HopsToSelf | src/simulation/DAESimulator.cpp:79-153 | the way to oneself has exactly two hops |
| Simulator.RunRouted | src/simulation/DAESimulator.cpp:79-153 | in every state of every run the sends a message has had and those before it make up the hops between its two ends |
| Simulator.DeliveredAfterOnes | src/simulation/DAESimulator.cpp:79-153 | in every run a message delivered to another user was sent exactly as often as its distance has one bits, and one to oneself twice |
| Simulator.RunConserves | src/simulation/DAESimulator.cpp:117-153 | in every state of every run, each message emitted has been delivered or is held by exactly one user |
| Simulator.RunAccounts | src/simulation/DAESimulator.cpp:79-87 | in every state of every run a user's counters tell, from their starts at 1 and 10, how many messages were delivered to it and how long these took in all |
| Simulator.DAESimulator.RecvMessage | src/simulation/DAESimulator.cpp:79-87 | a message at its destination is counted with its latency, any other is queued |
| Simulator.DAESimulator.EmitRealMessage | src/simulation/DAESimulator.cpp:117-135 | the new message is queued first, then all received ones in order, each one step further |
| Simulator.DAESimulator.SendRealMessage | src/simulation/DAESimulator.cpp:144-153 | the front message goes to the neighbour its distance asks for and is counted there or queued |
| Md5.ScheduleFollowsRfc | app/filesharing/md5.h:420-486 | the word and rotation columns of the 64 rounds follow the formulas of section 3.4 of RFC 1321 |
| Md5.WordValue | app/filesharing/md5.h:391-391 | every word of a block is, as a number, its four bytes with the lowest first |
| Md5.InitIsRfc | app/filesharing/md5.h:248-257 | the first registers are the bytes of section 3.3 of RFC 1321, low byte first |
| Word32.RotateLeftBits | app/filesharing/md5.h:225-232 | a rotation moves every bit s places up and the top ones round to the bottom |
| Word32.HBits | app/filesharing/md5.h:401-404 | the third mixing function is, in every bit, the parity of its three operands |
| Word32.IBits | app/filesharing/md5.h:405-408 | the fourth is, in every bit, y against x or not z |
| Md5.MixIsRfcMix | app/filesharing/md5.h:393-408 | the two shorter mixing functions of the code are the formulas of section 3.4 of RFC 1321, and each pass uses the one it should |
| Md5.RoundsHold | app/filesharing/md5.h:415-486 | after any number of rounds the four registers, which the code renames by turns, hold the last four values of the recurrence without registers, each in its place |
| Md5.CompressIsRfc | app/filesharing/md5.h:389-491 | for every state and block, the compression is that of section 3.4 of RFC 1321, written as a recurrence over the values of the 64 rounds, with the same additive constants |
| Md5Stream.AbsorbBlocks | app/filesharing/md5.h:383-493 | the loop over blocks is the fold of the compression over the data |
| Md5Stream.Buffer.Fill | app/filesharing/md5.h:95-107 | appends the value in place as often as asked |
| Md5Stream.Buffer.PushBack | app/filesharing/md5.h:109-116 | appends the bytes in place |
| Md5Stream.BlockHash.Reset | app/filesharing/md5.h:248-257 | makes the object that of an empty message again |
| Md5Stream.BlockHash.AddDataImpl | app/filesharing/md5.h:383-392 | folds whole blocks into the state and counts their bytes modulo 2^64 |
| Md5Stream.BlockHash.AddData | app/filesharing/md5.h:331-363 | after any piece of any length the state holds all whole blocks of everything added and the buffer the rest, less than a block |
| Md5Stream.BlockHash.Finalize | app/filesharing/md5.h:259-284 | the state is the fold over the whole message and its padding, with the bit length modulo 2^64 |
| Md5Stream.PaddingIsRfc | app/filesharing/md5.h:263-280 | the padding is that of sections 3.1 and 3.2 of RFC 1321, with the bit length modulo 2^64 as a number, if and only if the length is not 55 modulo 64 |
| Md5Stream.RfcPaddingUnique | app/filesharing/md5.h:263-280 | and the RFC allows no other |
| Md5Stream.PaddingAtFiftyFive | app/filesharing/md5.h:266-268 | there it is exactly one block of zeros longer |
| Md5Stream.HashChunks | app/filesharing/md5.h:259-363 | however a message is cut into pieces, the state at the end is that of the whole, and unless its length is 55 modulo 64 it is the one RFC 1321 gives: the RFC's compression over the blocks of the message and its one padding |
| FileTask.FileTask.AppendDataBlock | app/filesharing/FileTask.cpp:19-46 | a block in place moves the position over exactly the waiting blocks that follow on, any other waits; with non-empty blocks waiting the loop fails to end if and only if the block is in place and some waiting blocks follow on from it past the start of another |
| FileTask.ArrivalKeeps | app/filesharing/FileTask.cpp:19-46 | for every cutting of a file and every part, new or repeated, the loop fails to end if and only if the part is the first one missing and one of the prefix it completes has come twice; otherwise the position is the longest received prefix and the queue exactly the other copies received |
| FileTask.FinishedIffAll | app/filesharing/FileTask.cpp:48-57 | the download is finished exactly when every block has arrived |
| FileTask.FileTask.CheckFin | app/filesharing/FileTask.cpp:48-57 | for every cutting of the file into parts, true exactly when each of them has arrived |
| FileTask.RepeatSpins | app/filesharing/FileTask.cpp:26-38 | in a file of two parts or more, the order first, first again, second is one that hangs |
| FileTask.RepeatRunSpins | app/filesharing/FileTask.cpp:19-46 | in a file of two parts or more, those three calls from the start: the first two return and the third does not |
| FileTask.OnceEachIsSmooth | app/filesharing/FileTask.cpp:19-46 | parts that come once each, in any order, never make the loop hang |
| FileTask.Download | app/filesharing/FileTask.cpp:19-57 | any parts in any order, with any repeats: the download hangs if and only if some arrival meets the condition above, and otherwise ends finished exactly when every part has come |

## Left out

- Sockets, threads, locks, timers, logging and the daemon; a step of a node is atomic and the network is a set of packets that may be lost, repeated and reordered.
- Joining.PerfectRingBuilt: joins come one after the other, each into a ring that has settled; nodes that join at the same time are only shown to keep every pointer real (`RunSafe`).
- Convergence.RingRepaired: shows that the exact ring can always be reached, not that a particular schedule of timers reaches it; `AllAnswered` covers the schedules that deliver the answers.
- Failing nodes in the rendezvous: the ring is fixed there, and packets are neither lost nor repeated.
- NodeObject.DAENode.ProcessInternalMessage: a finger index outside the table, which the code would write out of bounds, is excluded; no reachable packet carries one.
- Ping-pong services, server and client lists and the message-descriptor queue of the node.
- Relay.DAESocket.Send: the sequence number is an unbounded integer, not a 32-bit one.
- Receive queues are per node as in the code; reading one queue from several sessions is not modelled.
- ShufflePool.RandomQueue.Push: the code has no capacity check, so room is a precondition.
- ShufflePool.ShufflePoolObject.SendBatch: queues are sequences inside the pool, each popped as `PopWithChance` pops the array queue, and the random draws are parameters.
- Checksum.ChecksumIpv4Packet: a UDP checksum of zero is stored as zero, as in the code, and the assertions of the code on sizes and protocols are preconditions.
- The internals of the cipher and the byte framing of TCP in `Onion.dfy`; every party has the same key, and buffers are large enough.
- Onion.RecvDecryptOnion: works on values instead of the two buffers.
- A relay that cannot decrypt a set-up frame refuses it in the model, where the code goes on with what is in its buffer.
- The write-only set inside the vector, and the subscript operator.
- OrderedVector.Vector.NearNeighbour: needs a non-empty sorted array, as the code reads both its ends.
- The random priority queues of the simulator, which its main loop never drains, and numbers of users that are not powers of two. A message of the model also carries the user it comes from.
- Md5Stream.BlockHash.AddData: the compression is a parameter of the object, which MD5 fills with its own.
- Md5.CompressIsRfc: the additive constants on the RFC side are those of the code; that they are scaled sines is not shown.
- The hexadecimal output of MD5.
- FileTask.FileTask.AppendDataBlock: the bytes of blocks are not modelled, since the code only copies and frees them.
- `Heap.hpp` and `ConcurrentHeap.hpp`, whose insert and removal disagree on parents and children, and `NeighbouringSet.hpp`, the vector over comparisons that form no order.
- The other simulators, the plain TCP socket and configuration reading.
