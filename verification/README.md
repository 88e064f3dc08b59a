# A verified model of the broadcast stack

The repository implements a stack of broadcast abstractions for N processes over UDP. Perfect links retransmit
until acknowledged; best-effort broadcast (BEB) sends on every link; uniform reliable broadcast (URB) relays on
first receipt and delivers a message once more than N/2 acknowledgements for it have been counted; localized causal
broadcast (LCB) stamps messages with partial vector clocks and delivers them when the clock allows; FIFO broadcast
is an alternative top layer. The program batches fifteen numbers into one broadcast, logs what it broadcasts and
delivers, and writes the log to a file that `tools/validate_fifo.py` checks.

The project models all of this twice, and proves that the two fit together.

* **On structured values**, as a step system. `UrbSystem` is N processes with links, BEB and URB over a network that
  may lose, duplicate and reorder packets, with crashes; `Stack` puts LCB on top. `UrbTheorems` and `StackTheorems`
  prove, for every run, that links lose nothing, that whatever is delivered is held by a majority, that nothing is
  created or duplicated, localized causal order, agreement at quiescence with its exact bound, and the absence of
  causal deadlock. `Quiescence` proves that every run can be continued to a quiescent state, and `Traffic` bounds what
  is queued for the network. `LcbProtocol` holds the delivery rule of LCB as a function on values, with the confluence
  of its scans.
* **On texts**, as objects with the source's fields and loops. `Node` has the receiver, the links, BEB, URB and the
  receive thread's loop body; `Causal` has LCB; `Fifo` has FIFO broadcast (its messages in parts), with `FifoOrder` for
  the exact condition under which it keeps its order and `FifoFiles` for what it logs; `StdList` has the lists;
  `Codec`, `Batching`, `Output` and `Validator` have the text formats, the batching, the output file and the
  validator. Each method is proved against a function on its old state.
* **The connection.** `Rendering` says how structured messages, keys and packets are written and proves that
  different ones have different texts. `Refinement`, `CausalRefinement` and `StackRefinement` prove that the functions
  the methods are proved against, applied to texts, do what the steps do on structured values: in every run the
  fields and the log of every process are the texts of its structured state, and no handler throws. So the theorems
  hold of the objects, up to the file that is accepted by the validator (`WrittenFilesAreAccepted`,
  `PassedFilesAreAccepted`).

## What the proofs say about the source

* **A process never acknowledges itself** (there is no self link, `template_cpp/src/src/main.cpp:250-261`), and
  delivers only with more than N/2 acknowledgements. With C live processes the code therefore needs C - 1 > N/2, not
  a live majority. `UniformAgreement` proves agreement at quiescence under that bound, and `DeliveryWithinReach` that
  every run can then be continued to such a state. `OriginDelivers` says exactly when a live origin delivers its own
  message: when C - 1, plus the number of crashed processes whose relay still reached it, is more than N/2.
  `README.md:128` of the repository promises to tolerate any minority of crashes. `BreaksForEveryNumber` constructs,
  for every N, every set of processes that crash at the start and leave C with C > N/2 >= C - 1, and every live
  origin, a run that ends with nothing left to send, in which all other live processes deliver the message and the
  origin does not. `MinorityCrashBreaksAgreement` is the smallest such run, step by step: one crash of three.
* **The origin is counted twice.** The one-argument `broadcastMessage` puts the text into `pending` without its
  sender (`template_cpp/src/src/broadcast/urb.cpp:48-52`), so the origin relays its own message when a relay of it
  comes back, and another process counts its direct copy and its relay. `MajorityHeld` proves that a majority holds
  every delivered message all the same: the copy of the process that counts makes up for it.
* **An acknowledgement read by another link's thread is dropped.** The lookup uses the packet's sender, which is the
  process itself and has no link (`template_cpp/src/src/perfectlink.cpp:155-162`). Nothing is lost by that
  (`PerfectLinks`); the message is acknowledged again when it is sent again.
* **`isInferior` tests `<=` but acts as equality** on the sender's own entry: `ReleaseIsNext`, `SenderOrder`.
* **Un-batching** returns the batched list exactly when only the last message of a batch is empty and `s` occurs, if
  at all, as a message's first character: `PiecesOfJoin`, `BatchRoundTrip`, `BatchingRoundTrip`.
* **Texts.** A packet reads back exactly when both identifiers are below 1000 (`PacketRoundTrip`); a direct copy is
  filed under its origin exactly when its text does not start with `r` (`DirectKeyIff`); the logged body is the
  broadcast body exactly when it contains no `v` (`BodyRoundTrip`).
* **FIFO numbers** are read with the length of the message being delivered as a limit
  (`template_cpp/src/src/broadcast/fifo.cpp:66-67`), so a waiting message whose number has more digits than that length
  is filed under the leading digits. `OrderIff` gives the exact condition: a set of messages is delivered in order for
  every order of arrival if and only if each number that can be read short is read as one that has some smaller number
  missing from the set. `ShortNumbersAreSafe`: numbers below 100000 always meet it. `HundredThousandOvertakes`: 2 to
  9999, then 100000, then 1, each once and with empty bodies, make 100000 arrive above FIFO in the place of 10000.

## Assumptions

* Each receive handler, broadcast call and hand-over is one atomic step. The scans of URB and LCB are sequences of
  single steps, so other steps may come in between; `PassIsARun` and `ScanIsAMove` show that whole scans are such
  sequences. The source has one mutex per link for its receive handler.
* Identifiers are 1 to 999. In the texts of the refinement, bodies contain no `v` and do not start with `r`.
* Packets fit into the buffer, and integers are unbounded.
* The network is the set of packets ever sent; a receive picks any of them, any number of times.

## Model

| member | source | states |
|---|---|---|
| UrbSystem.InitInv | template_cpp/src/src/main.cpp:244-270 | the start, with no self link and all lists empty, satisfies the invariant |
| UrbSystem.ReceiveGood | template_cpp/src/src/perfectlink.cpp:114-143 | receiving a data packet any number of times keeps every part of the invariant: deliver once, acknowledge always |
| UrbSystem.FirstReceiptGood | template_cpp/src/src/broadcast/urb.cpp:76-123 | the first receipt of a content counts one vote, relays a new message and keeps counts, origins and queues consistent |
| UrbSystem.AckGood | template_cpp/src/src/perfectlink.cpp:146-164 | an acknowledgement, read by the right link's thread or another one's, removes only what was received |
| UrbSystem.FlushGood | template_cpp/src/src/perfectlink.cpp:172-195 | sending the acknowledgements and clearing their list loses nothing |
| UrbSystem.BroadcastGood | template_cpp/src/src/broadcast/urb.cpp:48-74 | both forms of URB broadcast keep the invariant, with the bare or the prefixed text pending |
| UrbSystem.HandOverGood | template_cpp/src/src/broadcast/urb.cpp:129-159 | a hand-over happens once, and only with more than N/2 acknowledgements |
| UrbSystem.NextInv | template_cpp/src/src/broadcast/urb.cpp:48-159 | every step of every process, and every crash, keeps the invariant |
| UrbSystem.ListsKeepOrder | template_cpp/src/src/perfectlink.cpp:62-206 | a step adds to the end of a list and nowhere else; acknowledging removes one content and keeps the order of the others |
| UrbProtocol.HandOversExact | template_cpp/src/src/broadcast/urb.cpp:135-155 | a pass hands over exactly the pending keys with enough acknowledgements that were not delivered, in list order, each once |
| UrbTheorems.PerfectLinks | template_cpp/src/src/perfectlink.cpp:62-206 | in every run a message given to a link is still queued or was received; an acknowledgement implies receipt; nothing is received that was not sent |
| UrbTheorems.VotesAreHeld | template_cpp/src/src/broadcast/urb.cpp:76-127 | the acknowledgements counted at a process never exceed the number of processes that hold the message, although the origin may be counted twice |
| UrbTheorems.MajorityHeld | template_cpp/src/src/broadcast/urb.cpp:48-139 | in every run, what any process delivered was broadcast by its origin and is held by more than half of all processes |
| UrbTheorems.NoDuplicationNoCreation | template_cpp/src/src/broadcast/urb.cpp:129-159 | URB hands each message over at most once per process and only if its origin broadcast it |
| UrbTheorems.AllShare | template_cpp/src/src/broadcast/urb.cpp:99-122 | at quiescence, a message on one live process's links was relayed by every live process |
| UrbTheorems.AllVote | template_cpp/src/src/broadcast/urb.cpp:76-127 | at quiescence every live process counts an acknowledgement from each other live one |
| UrbTheorems.UniformAgreement | template_cpp/src/src/broadcast/urb.cpp:76-159 | with C - 1 > N/2, at quiescence every live process delivered what a live one broadcast or any process delivered |
| UrbTheorems.OriginVotes | template_cpp/src/src/broadcast/urb.cpp:99-127 | at quiescence an origin has counted exactly the other live processes and the crashed ones whose relay reached it |
| UrbTheorems.OriginDelivers | template_cpp/src/src/broadcast/urb.cpp:125-139 | a live origin delivers its own message if and only if C - 1 plus the crashed processes whose relay reached it is more than N/2 |
| UrbTheorems.DoubleCount | template_cpp/src/src/broadcast/urb.cpp:48-52 | another live process counts the origin twice once that has relayed its own message |
| UrbTheorems.OriginRelayed | template_cpp/src/src/broadcast/urb.cpp:99-122 | at quiescence an origin that broadcast the bare text has relayed its own message |
| UrbTheorems.OthersDeliver | template_cpp/src/src/broadcast/urb.cpp:48-139 | with the bare-text broadcast the other live processes deliver already when C > N/2 |
| UrbTheorems.AgreementBreaks | template_cpp/src/src/broadcast/urb.cpp:125-139 | when C > N/2 and the origin counts no more than N/2, all other live processes deliver a live origin's message and the origin does not |
| ThreeProcesses.MinorityCrashBreaksAgreement | README.md:128 | a run of three processes with one crash in which agreement fails at quiescence |
| Quiescence.QuiescenceReachable | template_cpp/src/src/perfectlink.cpp:77-206 | every run can be continued by steps of the protocol, without a further broadcast or crash, to a state in which the live processes are at rest |
| Quiescence.DeliveryWithinReach | template_cpp/src/src/broadcast/urb.cpp:76-159 | with C - 1 > N/2, after any losses and crashes, what a live process broadcast or any process delivered can still be delivered by every live one |
| Quiescence.BreaksForEveryNumber | README.md:128 | for every N and every set of crashes at the start with C > N/2 >= C - 1, a run in which agreement fails at quiescence |
| Traffic.AppendsCounted | template_cpp/src/src/broadcast/beb.cpp:28-35 | the contents of a message appended to retransmission lists over a run are the calls that asked for them times the links of a process |
| Traffic.QuadraticTraffic | template_cpp/src/src/broadcast/urb.cpp:48-121 | over any run a message is appended to retransmission lists at most N*N - 1 times, and N*(N - 1) times when broadcast with its prefix |
| UrbTheorems.PassIsARun | template_cpp/src/src/broadcast/urb.cpp:135-155 | a pass over the pending messages is a sequence of single hand-overs of the run |
| LcbProtocol.ScanAllowed | template_cpp/src/src/broadcast/lcb.cpp:118-143 | each message a scan releases is deliverable when its turn comes |
| LcbProtocol.ScanSnoc | template_cpp/src/src/broadcast/lcb.cpp:118-143 | a scan releases the next message it visits if and only if that is deliverable after what it released before |
| LcbProtocol.ClockOfReads | template_cpp/src/src/broadcast/lcb.cpp:161-187 | a clock holds the last entry written for an identifier |
| LcbProtocol.EntriesRead | template_cpp/src/src/broadcast/lcb.cpp:74-80 | the entries written are the dependencies, in list order, with their counts |
| LcbProtocol.ScansAllowed | template_cpp/src/src/broadcast/lcb.cpp:111-146 | any number of scans is one sequence of allowed releases |
| LcbProtocol.DrainConfluence | template_cpp/src/src/broadcast/lcb.cpp:116-143 | releasing until nothing can be released gives the same clock, delivered set and leftover for every order |
| LcbProtocol.ScansConfluence | template_cpp/src/src/broadcast/lcb.cpp:111-146 | scanning to a fixpoint gives the same clock, delivered set and leftover, however many scans it takes and whatever their orders |
| LcbProtocol.EntryAfter | template_cpp/src/src/broadcast/lcb.cpp:126-128 | each delivery adds one to its origin's entry and nothing to others |
| LcbProtocol.ScanShrinks | template_cpp/src/src/broadcast/lcb.cpp:111-146 | one scan of a complete inbox releases something and leaves it complete |
| LcbProtocol.DrainsCompletely | template_cpp/src/src/broadcast/lcb.cpp:111-146 | a complete inbox is emptied by as many scans as it has messages |
| Stack.BroadcastNeverBlocked | template_cpp/src/src/broadcast/lcb.cpp:85-92 | a stamped message is always new, so a live process can always broadcast |
| Stack.ReleaseIsNext | template_cpp/src/src/broadcast/lcb.cpp:122-128 | the `<=` test releases a message only when its number equals the count of its origin's deliveries |
| Stack.NextInv | template_cpp/src/src/broadcast/lcb.cpp:70-146 | every move of the whole stack keeps the invariant on clocks, stamps, logs and waiting messages |
| StackTheorems.Projection | template_cpp/src/src/broadcast/urb.cpp:149-153 | every run of the stack is, below LCB, a run of the link and URB system |
| StackTheorems.CausalOrder | template_cpp/src/src/broadcast/lcb.cpp:70-146 | a process that delivers a message has delivered before it every message it directly depends on |
| StackTheorems.CausalOrderTransitive | template_cpp/src/include/lcb.hpp:59-63 | the same along every chain of dependencies |
| StackTheorems.SenderOrder | template_cpp/src/src/broadcast/lcb.cpp:122-128 | a clock entry counts the deliveries from that sender, and they are its messages 0, 1, 2, ... in order |
| StackTheorems.StampIsEarlier | template_cpp/src/src/broadcast/lcb.cpp:72-90 | everything a stamp counts was broadcast before the stamped message, so stamps are acyclic |
| StackTheorems.NoCausalDeadlock | template_cpp/src/src/broadcast/lcb.cpp:111-146 | if the waiting messages are closed under their stamps, as many scans as messages release them all |
| StackTheorems.ScanIsAMove | template_cpp/src/src/broadcast/lcb.cpp:118-143 | a scan is a sequence of moves of the run |
| StackTheorems.CausalAgreement | template_cpp/src/src/broadcast/lcb.cpp:97-146 | with C - 1 > N/2, at quiescence every live process's LCB delivered what a live one broadcast or any one delivered |
| Codec.PacketRoundTrip | template_cpp/src/src/perfectlink.cpp:62-66 | a packet reads back if and only if both identifiers are below 1000 |
| Codec.PacketLayout | template_cpp/src/src/perfectlink.cpp:62-66 | type, identifiers and payload of a packet are at characters 0, 1, 4 and 7 |
| Codec.PacketThrowsIff | template_cpp/src/src/perfectlink.cpp:110-114 | reading a packet throws if and only if it is shorter than seven characters or an identifier starts with no digit |
| Codec.DirectKeyIff | template_cpp/src/src/broadcast/urb.cpp:83-97 | a direct copy is filed under origin and text if and only if the text does not start with `r` |
| Codec.KeyThrowsIff | template_cpp/src/src/broadcast/urb.cpp:83-97 | a payload throws if and only if it starts with `r` and has less than four characters |
| Codec.RelayKeepsKey | template_cpp/src/src/broadcast/urb.cpp:83-121 | a relayed message has the key of the original, whoever relays it |
| Codec.KeyInjective | template_cpp/src/src/broadcast/urb.cpp:94 | keys determine origin and text |
| Codec.ReadEntry | template_cpp/src/src/broadcast/lcb.cpp:167-183 | one clock entry of a text, or the throw |
| Codec.ConstructVC | template_cpp/src/src/broadcast/lcb.cpp:161-187 | the clock parser computes the clock of the text, or throws |
| Codec.ClockRoundTrip | template_cpp/src/src/broadcast/lcb.cpp:161-187 | the parser returns the written entries, the last one winning for a repeated identifier |
| Codec.ClockEntryThrowsIff | template_cpp/src/src/broadcast/lcb.cpp:167-183 | an entry throws if and only if its identifier or its number starts with no digit |
| Codec.ClockThrows | template_cpp/src/src/broadcast/lcb.cpp:161-187 | one unreadable entry after any readable ones makes the whole clock throw |
| Codec.BodyRoundTrip | template_cpp/src/src/broadcast/lcb.cpp:132 | the logged text is origin and body if and only if the body has no `v` |
| Codec.StampRoundTrip | template_cpp/src/src/broadcast/lcb.cpp:104-108 | the clock read from a delivered text is the one its origin wrote |
| Codec.SameLastEntry | template_cpp/src/src/broadcast/lcb.cpp:85-90 | equal texts end with the same clock entry |
| Codec.FifoRoundTrip | template_cpp/src/src/broadcast/fifo.cpp:66-67 | body and number of a FIFO text read back for every body |
| Codec.KeyExample | template_cpp/src/src/broadcast/urb.cpp:62-65 | a key and a relayed text, character by character |
| Codec.LcbExample | template_cpp/src/src/broadcast/lcb.cpp:72-90 | a stamped text with its origin, character by character |
| Codec.FifoExample | template_cpp/src/src/broadcast/fifo.cpp:26 | a numbered text with its origin, character by character |
| Node.DataExample | template_cpp/src/src/perfectlink.cpp:62-66 | a data packet, character by character |
| Batching.BatchExample | template_cpp/src/src/broadcast/broadcast.cpp:84-101 | a batch of three, character by character |
| Text.PaddedLength | template_cpp/src/src/perfectlink.cpp:66 | a padded number is as long as the width, or as its digits if they are more |
| Batching.Broadcast.ConcatMessages | template_cpp/src/src/broadcast/broadcast.cpp:45-109 | the list becomes its batches of fifteen, in order |
| Batching.BroadcastNumbers | template_cpp/src/src/main.cpp:310-340 | the loop of `main` broadcasts exactly the batches of 1..m |
| Output.SplitEntry | template_cpp/src/src/main.cpp:112-128 | the messages of one log entry, or the throw |
| Output.DeconcatMessages | template_cpp/src/src/main.cpp:83-132 | the messages of the whole log in order, or the throw |
| Output.PiecesIff | template_cpp/src/src/main.cpp:112-128 | for every text and number of messages, what is taken off is exactly what the text spells with separators, and it throws if and only if it spells no such messages |
| Output.EntryThrowsIff | template_cpp/src/src/main.cpp:95-105 | reading an entry throws if and only if it is a broadcast or delivery whose count is missing or starts with no digit |
| Output.PiecesOfJoin | template_cpp/src/src/main.cpp:115-128 | taking a batch's text apart returns the messages if and only if they are clean |
| Output.BatchRoundTrip | template_cpp/src/src/main.cpp:87-129 | a logged batch gives its messages, each with the header, if and only if they are clean |
| Output.BatchingRoundTrip | template_cpp/src/src/main.cpp:83-132 | batching, logging and taking apart returns the list if and only if all its batches are clean, for every length |
| Output.PlainIsClean | template_cpp/src/src/broadcast/broadcast.cpp:45-109 | lists of non-empty messages without `s` are clean |
| Output.WriteOutput | template_cpp/src/src/main.cpp:134-171 | the lines of the output file, or the throw |
| Output.OthersSkipped | template_cpp/src/src/main.cpp:107-110 | an entry or message that is neither a broadcast nor a delivery gives nothing |
| Output.LineThrowsIff | template_cpp/src/src/main.cpp:146-150 | writing a message throws if and only if it is a delivery with an identifier that starts with no digit |
| Validator.DigitsIff | tools/validate_fifo.py:33-42 | digits are taken exactly when underscores stand only between digits, and these are dropped |
| Validator.SignedDigits | tools/validate_fifo.py:33-42 | digits are read as the number they denote, and a sign in front changes only its sign |
| Validator.LineReads | tools/validate_fifo.py:29-42 | what a line counts as, and that it raises if and only if it is blank or a number it needs is missing |
| Validator.CheckProcess | tools/validate_fifo.py:22-49 | the validator computes the verdict of the line-by-line check |
| Validator.AcceptedIff | tools/validate_fifo.py:22-49 | a file is accepted if and only if its lines can be read, broadcasts are 1, 2, ... and each sender's deliveries are 1, 2, ... |
| Validator.VerdictIff | tools/validate_fifo.py:22-49 | it raises if and only if the first line not accepted cannot be read, and returns False if and only if that line can be read and is out of order |
| EndToEnd.BatchOfNumbers | template_cpp/src/src/main.cpp:318-340 | batch i of `main` holds the numbers 15i+1 up to 15i+15 or m |
| EndToEnd.LogKeepsAll | template_cpp/src/src/receiver.cpp:46-51 | no event of a run of `main` is dropped from the log as a repetition |
| EndToEnd.FileLines | template_cpp/src/src/main.cpp:134-163 | the file of a log reads as the lines of its events in order |
| EndToEnd.LinesOrdered | template_cpp/src/src/main.cpp:83-163 | events in turn give broadcast lines 1..k and delivery lines 1..k for each sender |
| EndToEnd.FilesAreAccepted | tools/validate_fifo.py:22-49 | at every point of every run of `main` the file is accepted by the validator |
| Node.Receiver.constructor | template_cpp/src/src/receiver.cpp:7-9 | a new receiver has empty lists and may receive |
| Node.Receiver.HasDelivered | template_cpp/src/src/receiver.cpp:33-35 | membership in the delivered list |
| Node.Receiver.AddMessageDelivered | template_cpp/src/src/receiver.cpp:29-31 | appends to the delivered list |
| Node.Receiver.AddMessageLog | template_cpp/src/src/receiver.cpp:46-51 | appends to the log unless the entry is there |
| Node.Receiver.GetMessageLog | template_cpp/src/src/receiver.cpp:53-60 | the log once the process has stopped receiving, nothing before |
| Node.Link.SendNewMessage | template_cpp/src/src/perfectlink.cpp:62-75 | the packet is queued, and sent at once if the link is active |
| Node.Link.SendPass | template_cpp/src/src/perfectlink.cpp:77-97 | a pass sends everything not acknowledged and keeps it queued |
| Node.Link.AckPass | template_cpp/src/src/perfectlink.cpp:172-195 | a pass sends the acknowledgements without repetitions in a row and empties the list |
| Node.Link.AddAck | template_cpp/src/src/perfectlink.cpp:197-201 | appends an acknowledgement |
| Node.Link.SetLinkActive | template_cpp/src/src/perfectlink.cpp:48-53 | the link is active, and nothing else changes |
| Node.Link.RemoveMessage | template_cpp/src/src/perfectlink.cpp:203-206 | removes every copy of a message and nothing else |
| StdList.RemoveBetween | template_cpp/src/src/perfectlink.cpp:203-206 | removing a message joins what precedes it and what follows it, in order |
| StdList.RemoveCounts | template_cpp/src/src/perfectlink.cpp:203-206 | and every other message stays as often as it was there |
| StdList.UniqueKeeps | template_cpp/src/src/perfectlink.cpp:180 | a list without repetitions in a row stays as it is |
| StdList.UniqueDrops | template_cpp/src/src/perfectlink.cpp:180 | a repetition in a row makes no difference |
| StdList.PushAllKeeps | template_cpp/src/src/receiver.cpp:46-51 | logging loses and repeats nothing, and adds exactly what is given |
| StdList.PushAllNew | template_cpp/src/src/receiver.cpp:46-51 | logging new entries appends them in order |
| Node.BestEffortBroadcast.BroadcastMessage | template_cpp/src/src/broadcast/beb.cpp:28-35 | every link but the missing one queues the packet, once, and sends it at once if it is active |
| Node.BestEffortBroadcast.SetBroadcastActive | template_cpp/src/src/broadcast/broadcast.cpp:23-30 | every link is active, and queues, acknowledgements and sent packets stay |
| Node.BestEffortBroadcast.Deliver | template_cpp/src/src/broadcast/beb.cpp:37-51 | a packet is handed to URB the first time only, and is remembered also when URB throws |
| Node.UniformReliableBroadcast.BroadcastMessage | template_cpp/src/src/broadcast/urb.cpp:48-52 | the bare text becomes pending and goes to every link |
| Node.UniformReliableBroadcast.BroadcastMessageId | template_cpp/src/src/broadcast/urb.cpp:54-74 | the same with the identifier in front when asked for |
| Node.UniformReliableBroadcast.SetBroadcastActive | template_cpp/src/src/broadcast/urb.cpp:18-22 | every link is active, and neither the fields nor the queues change |
| Node.UniformReliableBroadcast.Deliver | template_cpp/src/src/broadcast/urb.cpp:76-123 | counts the sender for the key, and on first receipt stores and relays it; the throw for a short relay, which changes nothing |
| Node.UniformReliableBroadcast.DeliverPending | template_cpp/src/src/broadcast/urb.cpp:129-159 | one pass hands over, in order, the pending keys with enough acknowledgements that were not delivered |
| Node.DeliverOnce | template_cpp/src/src/perfectlink.cpp:116-126 | a packet is delivered upwards unless it was received before; after a throw it stays remembered |
| Node.ReceiveData | template_cpp/src/src/perfectlink.cpp:116-143 | a data packet is delivered once and acknowledged each time, on the link to its sender only |
| Node.Acknowledge | template_cpp/src/src/perfectlink.cpp:128-143 | the acknowledgement is queued on the link to the sender, whichever thread read the packet |
| Node.Acknowledged | template_cpp/src/src/perfectlink.cpp:146-164 | the message is removed when the right thread read the acknowledgement, and only then |
| Node.ReceiveMessage | template_cpp/src/src/perfectlink.cpp:108-164 | the whole handler of a received packet, with its throws and the state they leave; packets for others are ignored |
| Causal.LocalizedCausalBroadcast.constructor | template_cpp/src/src/broadcast/lcb.cpp:9-25 | the clock has a zero entry for each process, and nothing waits |
| Causal.LocalizedCausalBroadcast.WriteStamp | template_cpp/src/src/broadcast/lcb.cpp:72-85 | the text of the dependencies' entries and the own number |
| Causal.LocalizedCausalBroadcast.BroadcastMessage | template_cpp/src/src/broadcast/lcb.cpp:70-95 | the stamped text goes to URB, the plain one to the log, and the number grows |
| Causal.LocalizedCausalBroadcast.Deliver | template_cpp/src/src/broadcast/lcb.cpp:97-109 | the text is filed with its clock unless it waits already; a throw leaves it waiting with an empty clock |
| Causal.LocalizedCausalBroadcast.IsInferior | template_cpp/src/src/broadcast/lcb.cpp:190-203 | true if and only if no entry exceeds the process's own clock |
| Causal.FileThrowsIff | template_cpp/src/src/broadcast/lcb.cpp:97-109 | filing throws if and only if the text is not waiting with its clock already, and there is no clock in it or one that cannot be read |
| Causal.ZerosRead | template_cpp/src/src/broadcast/lcb.cpp:20-22 | the first clock has an entry for each of 1..N, all zero |
| Causal.LocalizedCausalBroadcast.DeliverPending | template_cpp/src/src/broadcast/lcb.cpp:111-146 | one pass visits every waiting text once, releases what the scan in that order releases, and appends the new entries to the log, keeping what is there |
| Fifo.NumberWithinIff | template_cpp/src/src/broadcast/fifo.cpp:66-67 | the number read is the number written if and only if the limit covers its digits |
| Fifo.DeliverStep | template_cpp/src/src/broadcast/fifo.cpp:46-97 | a call for a new or repeated message keeps what FIFO promises, when nothing can be overtaken |
| Fifo.AnyArrival | template_cpp/src/src/broadcast/fifo.cpp:46-97 | when nothing can be overtaken, after any calls, in any order and with repetitions, each sender's longest run 1, 2, ... has been delivered, in order, once |
| Fifo.SameDeliveries | template_cpp/src/src/broadcast/fifo.cpp:46-97 | then what is delivered from a sender does not depend on order or repetition of arrivals |
| FifoOrder.OrderIff | template_cpp/src/src/broadcast/fifo.cpp:46-97 | every order of arrival of a set of messages, with or without repetitions, is delivered in order if and only if no message of it can be overtaken by one whose number is read short |
| FifoOrder.FailingRun | template_cpp/src/src/broadcast/fifo.cpp:66-83 | otherwise some order of arrival, without repetitions, breaks the order |
| FifoOrder.TrapSprings | template_cpp/src/src/broadcast/fifo.cpp:66-83 | the numbers up to v but for a short text u, then a longer number that u reads as v, then u: the long number is delivered in v's place |
| FifoOrder.ShortNumbersAreSafe | template_cpp/src/src/broadcast/fifo.cpp:66-67 | with numbers below 100000 nothing can be overtaken |
| FifoOrder.HundredThousandOvertakes | template_cpp/src/src/broadcast/fifo.cpp:66-83 | 2 to 9999, then 100000, then 1: the 100000 is delivered in the place of 10000, which was never sent |
| Fifo.RemoveAllAppend | template_cpp/src/src/broadcast/fifo.cpp:84 | the messages that stay waiting keep their order and their number |
| Fifo.SentKeys | template_cpp/src/src/broadcast/fifo.cpp:19-34 | a started broadcast files its messages under consecutive numbers, in order |
| Fifo.SentPackets | template_cpp/src/src/broadcast/fifo.cpp:19-34 | and queues the numbered texts on every link, in order |
| Fifo.SentLog | template_cpp/src/src/broadcast/fifo.cpp:19-26 | and logs the messages as they were given, without their numbers |
| Fifo.SentComesBack | template_cpp/src/src/broadcast/fifo.cpp:19-26 | with the batches of a clean list, taking the log apart gives the list back, in order |
| Fifo.FifoBroadcast.constructor | template_cpp/src/src/broadcast/fifo.cpp:8-17 | the next number of every sender is 1 |
| Fifo.FifoBroadcast.StartBroadcast | template_cpp/src/src/broadcast/fifo.cpp:19-34 | numbers, logs and broadcasts the waiting messages in order, keeping the log, empties their list and activates the links |
| Fifo.FifoBroadcast.Deliver | template_cpp/src/src/broadcast/fifo.cpp:46-97 | for every message: stores it, delivers the run it completes and logs it; keeps the FIFO promise when nothing received can be overtaken |
| Fifo.FifoBroadcast.FromPending | template_cpp/src/src/broadcast/fifo.cpp:55-71 | the waiting messages of a sender by the number read, the last one winning |
| Fifo.FifoBroadcast.Drain | template_cpp/src/src/broadcast/fifo.cpp:74-96 | removes, logs and counts the consecutive run, and nothing else |
| FifoFiles.DeliveredLines | template_cpp/src/src/broadcast/fifo.cpp:90-107 | a delivered batch becomes one output line for each of its messages, with the sender and the message |
| FifoFiles.DeliveriesApart | template_cpp/src/src/broadcast/fifo.cpp:19-97 | deliveries do not depend on the broadcasts made in between |
| FifoFiles.CallsLog | template_cpp/src/src/broadcast/fifo.cpp:19-97 | after any calls the log holds the broadcasts in order and each sender's deliveries in order, equal entries once |
| FifoFiles.SenderLog | template_cpp/src/src/broadcast/fifo.cpp:74-96 | without equal entries, the log has one for each message delivered from a sender, in order |
| FifoFiles.FifoFilesAreAccepted | tools/validate_fifo.py:22-49 | end to end for FIFO: after any calls the file of the log is accepted by the validator, when nothing can be overtaken |
| Rendering.KeyTextInjective | template_cpp/src/src/broadcast/urb.cpp:48-97 | keys of broadcast messages have different texts, and a bare text is never a key |
| Rendering.ContentTextInjective | template_cpp/src/src/broadcast/urb.cpp:103-121 | contents sent by one process have different texts |
| Rendering.TailInjective | template_cpp/src/src/perfectlink.cpp:114-120 | sender and content are determined by the text the receiver remembers |
| Rendering.UrbKeyIs | template_cpp/src/src/broadcast/urb.cpp:78-97 | the key computed from a packet is the text of the structured key |
| Refinement.StepRefines | template_cpp/src/src/perfectlink.cpp:99-170 | every step of the system is what the handlers do on the texts, without a throw |
| Refinement.RunRefines | template_cpp/src/src/broadcast/urb.cpp:48-159 | in every run the fields of a process are the texts of its structured state |
| Refinement.HandOversRefine | template_cpp/src/src/broadcast/urb.cpp:129-159 | a pass over the pending texts hands over the texts of what the structured pass does |
| Refinement.OutputsRefine | template_cpp/src/src/perfectlink.cpp:77-195 | what a process sends and acknowledges is the text of its structured queues |
| CausalRefinement.ScanRefines | template_cpp/src/src/broadcast/lcb.cpp:116-143 | a scan over texts releases the texts of what the structured scan releases |
| CausalRefinement.DeliverAllRefines | template_cpp/src/src/broadcast/lcb.cpp:122-137 | and leaves the clock and the waiting texts of the structured inbox |
| CausalRefinement.FileRefines | template_cpp/src/src/broadcast/lcb.cpp:97-109 | a text handed over by URB is filed with the clock of its message |
| CausalRefinement.StampRefines | template_cpp/src/src/broadcast/lcb.cpp:70-92 | the stamped text is the text of the stack's new message |
| CausalRefinement.LoggedRefines | template_cpp/src/src/broadcast/lcb.cpp:130-159 | a delivery is logged as `d`, origin, target 000 and the broadcast body |
| StackRefinement.TopRunRefines | template_cpp/src/src/broadcast/lcb.cpp:70-146 | in every run clock, waiting texts and log are those of the structured state, without a throw |
| StackRefinement.ProcessRefines | template_cpp/src/src/broadcast/lcb.cpp:70-146 | the same for all objects of a process together |
| StackRefinement.PassIsMoves | template_cpp/src/src/broadcast/lcb.cpp:111-146 | the fields and the log that a pass leaves are those of the run that releases the same messages one by one |
| StackRefinement.PassContinues | template_cpp/src/src/broadcast/lcb.cpp:111-146 | a pass in any order of the waiting texts is a continuation of the run |
| StackRefinement.WrittenFilesAreAccepted | template_cpp/src/src/main.cpp:134-163 | end to end: in every run of `main` the file written from the collected log is accepted by the validator |
| StackRefinement.PassedFilesAreAccepted | template_cpp/src/src/broadcast/lcb.cpp:111-146 | the same for the log that a pass of `DeliverPending` leaves, whatever order it visits the waiting texts in |

## Left out

- UDP sockets, addresses, signals, command line and hosts files: foreign calls; the network is a set of packets.
- Threads, sleeps and the `active` flags above the links: the steps are atomic and may happen in any order.
- The 512-byte packet buffer and integer widths: texts and numbers are unbounded.
- Interleavings inside one receive handler: the source locks per link, so two handlers of one process could overlap.
- Progress under fairness: a quiescent state is proved to be within reach of every run, not that every fair schedule gets there.
- `Stoi` of texts with blanks or a sign in front: the program writes neither.
- What a throw does to the process: an uncaught exception ends the whole program; the model states the fields at that point.
- The clock entry that reading with `operator[]` leaves behind for an absent identifier: it reads as zero, as an absent entry does here.
- `ReliableBroadcast`, `addMessageRelay`, and the `startBroadcast` of BEB, URB and LCB: not on the path of `main`.
- `Fifo::broadcastMessage`: it sends the text without its number (`template_cpp/src/src/broadcast/fifo.cpp:36-44`), so the FIFO claims belong to `startBroadcast`.
- Logging by BEB and URB: `main` switches it off.
- FIFO over the step system: `Fifo` takes any sequence of hand-overs, with repetitions; it is not joined to `Stack`.
- Fifo.FifoBroadcast.Deliver: works on messages in parts (sender, body, number); `FifoRoundTrip` relates the parts to the texts.
- Causal.LocalizedCausalBroadcast.DeliverPending: visits the waiting texts in an arbitrary order, which it returns; the source goes by the order of the texts.
- Causal.OriginOf: a waiting text that does not start with a number counts for identifier 0, and one with `v` among its first three characters is logged short; the source throws on both. URB hands over no such text in a clean run.
- UrbTheorems.UniformAgreement: assumes C - 1 > N/2, because with C > N/2 >= C - 1 it fails for every N (`BreaksForEveryNumber`).
- UrbSystem.BroadcastGood: a process broadcasts each text once; the number in the stamp makes all texts of a process different (`BroadcastNeverBlocked`), so the stack never does otherwise.
- Fifo.AnyArrival: assumes that nothing received can be overtaken, because otherwise some order of arrival fails (`OrderIff`); the same holds for `DeliverStep` and `SameDeliveries`.
- FifoFiles.FifoFilesAreAccepted: the same assumption as `AnyArrival`.
- Refinement.RunRefines: assumes bodies without `v` and without `r` at the start, which `main` guarantees (`MainIsClean`); other bodies change the logged text or the key (`BodyRoundTrip`, `DirectKeyIff`).
- Refinement.StepRefines: the same assumption as `RunRefines`.
- Refinement.OutputsRefine: the same assumption as `RunRefines`.
- StackRefinement.TopRunRefines: the same assumption as `RunRefines`.
- StackRefinement.ProcessRefines: the same assumption as `RunRefines`.
