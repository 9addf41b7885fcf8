# Verified model of a UDP file transfer and its network simulator

The repository is a small peer-to-peer file transfer over UDP (`peer.c`, `requestor.c`, `responser.c`, `send.c`, with
the digest of `sha.c`) and a packet-level network simulator (`hupsim.pl`). This project models both in Dafny and proves
what they promise. `dafny verify dfyconfig.toml` checks everything.

Each stateful part of the source is a class whose methods follow the code statement by statement. Every method is proved
to compute a function of the old state (`SenderSpec`, `RequestorSpec`, `PoolSpec`, `Traffic`) or to reach a stated
result (`Sha1`, `Router`), and the promises are proved about those functions, for all inputs and all runs. The `...Laws`
modules, and the laws in `PoolSpec` and `Traffic`, say what an event does by the numbers of the source, without the
functions that the handlers compute, so that a step left out of both a handler and its function breaks a proof.

| files | source | what they hold |
|---|---|---|
| `Common.dfy` | `peer.h` | constants, C integer conversions, the clock |
| `SenderSpec.dfy`, `Sender.dfy`, `SenderProofs.dfy`, `SenderRuns.dfy`, `SenderLaws.dfy` | `send.c` | the sliding-window sender, its invariant, its runs, and what each event does to it in numbers |
| `RequestorSpec.dfy`, `Requestor.dfy`, `RequestorProofs.dfy`, `Scheduling.dfy`, `RequestorLaws.dfy` | `requestor.c` | receiver and download scheduler, and what each event does to it in numbers |
| `Transfer.dfy` | `send.c`, `requestor.c` | sender and receiver joined by a network that loses, repeats and reorders |
| `PoolSpec.dfy`, `Responser.dfy` | `responser.c`, `peer.c` | the four upload slots and the dispatch to them |
| `Sha1Spec.dfy`, `Sha1.dfy` | `sha.c` | FIPS 180-4 SHA-1, and the incremental implementation refined against it |
| `Topology.dfy`, `Dijkstra.dfy`, `Traffic.dfy`, `Flows.dfy`, `Router.dfy`, `Simulator.dfy` | `hupsim.pl` | hop distances, routing tables, queues, conservation at each router, the drain loop |

How the model reads the source:

- A clock is any function from reading numbers to times. For the transfer it never goes back; the simulator's may do
  anything. Each sender counts its own readings, which covers every interleaving of one shared clock.
- `int` and `long` are unbounded except where the width shows: the stored ACK number, the clock reading in
  `check_too_near`, the 64-bit length of SHA-1. SHA-1 words are `bv32`.
- Arrays of C structs (`pkt_buf`, `chunks`) are arrays of values: such structs have no identity of their own.
- What leaves the program is a log: packets handed to the network, messages of the requestor, deliveries of the
  simulator. The samples accepted by `update_rtt` and, for each simulated queue, the items that have left it and the
  packets it dropped are logged too. Logs of a sender start afresh in `init_sender`.
- The output file is the map from offsets to the bytes written so far.
- `connection_closed` is a tail call in `send.c`; the handlers return whether they made it and the pool makes it for them.
- `littleEndian` and `unroll` are constants of each `Sha1Context` and parameters of `DigestOfPieces`, so the digest
  theorems cover the run-time-endian build and all allowed values of `SHA1_UNROLL`; `shahash` uses one of the builds.
  `WordOf(x)` is x modulo 2^32, defined by counting.

Where the code does not do what its comments suggest:

- `check_too_near` keeps the clock reading in an `int` (send.c:161). From 2^31 microseconds of uptime on, a third
  duplicate ACK no longer triggers a fast retransmission of a packet sent within the last 2^32 microseconds.
  `TooNearAsIntended` says exactly when the answer is the intended one, and `FastRetransmitFadesExample` follows a new
  connection through three duplicate ACKs on either side of that time.
- An overdue packet other than the first of the window is not resent: the window has just shrunk to one, so `ctl_send`
  only marks it unsent (send.c:242-248). `ResendEffect` states it.
- On a map that is not connected, the walk of `createTable` along the predecessors does not come back to its router
  (`WalkBackEnds` says that it does exactly for the routers it reaches), so the table is never completed.
- A download of no chunks never ends (`EmptyDownloadNeverEnds`); any other ends exactly when it is complete.

## Model

| member | source | states |
|---|---|---|
| Sha1.RoundFunctionsAgree | sha.c:52-55 | in each group of twenty rounds the rewritten function is the Ch, Parity or Maj that FIPS 180-4 section 4.1.1 prescribes there |
| Sha1.RoundConstantsAgree | sha.c:66-69 | the constants are those of section 4.2.1 in every round |
| Sha1.DoRoundRefines | sha.c:57-64 | one expansion of the macro is the iteration of section 6.1.2 step 3 with that number |
| Sha1.LoadSwapped | sha.c:186-189 | on either machine a message word is read most significant byte first |
| Sha1.StoreSwapped | sha.c:545-555 | on either machine the swapped store writes the bytes that the shifting build writes |
| Sha1.StoredLengthIsField | sha.c:84-89 | the eight bytes of BYTESWAP64 in memory are the length, most significant byte first, on either machine |
| Sha1.Absorb | sha.c:501-522 | bytes that do not fill the buffer change nothing else; bytes that fill it add one block to the fold |
| Sha1.Sha1Context.constructor | sha.c:149-163 | the context stands for the empty input, with the initial hash of section 5.3.1 |
| Sha1.Sha1Context.ExpandSchedule | sha.c:184-200 | the four moving pointers fill in the recurrence of W_t for all 80 words |
| Sha1.Sha1Context.DoRounds | sha.c:202-444 | every unroll factor performs the same 80 rounds |
| Sha1.Sha1Context.Guts | sha.c:176-451 | the new hash is the compression function of section 6.1.2 on the old hash and the block |
| Sha1.Sha1Context.FoldDirect | sha.c:484-492 | a block folded straight from the input counts like one that went through the buffer |
| Sha1.Sha1Context.CopyIn | sha.c:509-513 | the buffer holds the unfolded input followed by the copied bytes, and the length counts them |
| Sha1.Sha1Context.Fill | sha.c:502-522 | one turn absorbs what fits and leaves hash, length and buffer those of the longer input |
| Sha1.Sha1Context.Update | sha.c:501-523 | hash, length and live buffer become those of the old input followed by the new |
| Sha1.Sha1Context.UpdateFastCopy | sha.c:461-500 | the same as the plain build: hash, length and live buffer depend on the whole input only |
| Sha1.Sha1Context.AppendPadding | sha.c:530-543 | the absorbed stream becomes the padded message of section 5.1.1, with the length taken before the padding |
| Sha1.Sha1Context.Final | sha.c:529-558 | the output is the FIPS 180-4 digest of everything absorbed |
| Sha1.DigestOfPieces | sha.c:585-602 | however the input is cut, under both builds, on both machines and for every unroll factor, the output is the digest of the concatenation |
| Sha1.ShaHash | chunk.c:33-49 | the digest of the string |
| Sha1Spec.FoldConcat | sha.c:484-492 | folding two runs of blocks one after the other folds their concatenation |
| Sha1Spec.PadFillsBlocks | sha.c:536-543 | padding takes 1 to 64 bytes, then eight for the length, and ends on a block boundary |
| Sha1Spec.PadInjective | sha.c:536-543 | the padded stream determines the message |
| Send.BtSender.InitSender | send.c:7-21 | the whole state of a new connection |
| Send.BtSender.WdLost | send.c:24-60 | the window becomes 1 and the threshold max(w/2, 2), in slow start |
| Send.BtSender.WdAck | send.c:63-103 | the window and the state after a new ACK as a function of the old; `SenderLaws.NewAckLaw` says what that is |
| Send.BtSender.CtlSend | send.c:106-116 | a packet inside the window is sent and stamped, one outside is marked unsent |
| Send.BtSender.CtlUdpSend | send.c:118-133 | the packet is appended, and sent if the window covers it; no packet is refused with -1 |
| Send.BtSender.UpdateRtt | send.c:135-155 | a sample that passes both filters is smoothed in, any other is ignored |
| Send.BtSender.CheckTooNear | send.c:157-168 | the answer of the scan, with the reading cut to an int, and the readings it used |
| Send.BtSender.TakeAck | send.c:170-194 | duplicate, new and old ACKs, up to the point where the head moves |
| Send.BtSender.Release | send.c:199-204 | one acknowledged packet is sampled and freed |
| Send.BtSender.ReleaseAcked | send.c:196-209 | the loop frees exactly the leading packets below the ACK |
| Send.BtSender.FillWindow | send.c:217-225 | the loop sends what the window newly covers |
| Send.BtSender.CtlUdpAck | send.c:170-228 | the whole new state after any ACK, and whether the connection closes: by `NewAckLaw`, `DuplicateAckLaw` and `OtherAckLaw` the growth of the window, the packets sent and their stamps |
| Send.BtSender.Resend | send.c:242-249 | the overdue packet is counted, and given up or resent |
| Send.BtSender.CtlUdpTimeOut | send.c:230-254 | the whole new state after a tick, and whether the connection closes: by `SenderLaws.TickLaw` when a tick acts and on which packet |
| SenderProofs.InitIsSane | send.c:7-21 | a new connection satisfies the invariant |
| SenderProofs.CtlUdpSendKeepsSane | send.c:118-133 | so does one to which the next packet of the chunk was appended |
| SenderProofs.CtlSendKeepsSane | send.c:106-116 | sending any buffered packet keeps the window live and the buffer faithful |
| SenderProofs.WdLostKeepsSane | send.c:24-60 | a loss keeps the invariant: threshold at least 2, congestion avoidance exactly above it |
| SenderProofs.TooNearLooksAtHead | send.c:157-168 | for a duplicate ACK the scan finds exactly the packet at the head and reads the clock once |
| SenderProofs.DuplicateAckCases | send.c:175-187 | a duplicate ACK only counts, or the window collapses and the head is resent |
| SenderProofs.SmoothStaysAmong | send.c:147-153 | a smoothed estimate lies between old estimate and sample, and stays positive |
| SenderProofs.UpdateRttKeepsAmong | send.c:135-155 | the estimate lies within any bounds that hold all accepted samples, and never returns to 0 |
| SenderProofs.ShiftHeadMoves | send.c:196-209 | the head moves to the ACK, at most to the tail, and nothing at or above it changes |
| SenderProofs.SendWindowSends | send.c:217-225 | exactly the packets from i to the end of the window are sent, in order, and then the whole window is live |
| SenderProofs.NewAckEffect | send.c:188-225 | after a new ACK n the head is n, the window grew by at most one, and exactly its new part was sent |
| SenderProofs.DuplicateAckEffect | send.c:175-187 | a duplicate ACK moves no head, fills no window and keeps the connection open |
| SenderProofs.AckKeepsOpen | send.c:170-228 | for every ACK number the invariant stays, and the connection closes exactly on 1024 or more |
| SenderProofs.ResendEffect | send.c:242-249 | a packet resent five times closes; otherwise the window is 1 and the packet goes out again only if it is the head |
| SenderProofs.FiredAtOldest | send.c:239-252 | a tick acts on the first packet older than the timeout, all earlier ones being younger |
| SenderProofs.TickKeepsOpen | send.c:230-254 | a tick keeps the invariant, closes exactly after the fifth resend, and resends at most the head |
| SenderRuns.Run | peer.c:108-115 | over any ACKs and ticks a connection not closed keeps 1 <= window <= last ACK + 1, threshold, state, buffer and live window |
| SenderRuns.Fresh | responser.c:119-138 | a connection filled with a whole chunk satisfies the invariant |
| SenderRuns.EnergyIsPositive | send.c:243-245 | an open connection always has resends left |
| SenderRuns.StepSpends | send.c:188-249 | each new ACK and each fired timeout uses up at least one of them, and nothing restores any |
| SenderRuns.RetriesAreBounded | send.c:188-249 | a connection takes at most 6 * 1024 new ACKs and fired timeouts together |
| SenderRuns.RttOverRun | send.c:135-155 | over any run the estimate stays between the bounds of the accepted samples and, once positive, positive |
| SenderRuns.StepGrowth | send.c:83-97 | in congestion avoidance one event adds at most one to the window, and only a round trip after the last addition |
| SenderRuns.GrowthIsPaced | send.c:83-97 | in an unbroken stretch with estimate at least r, growth times r is at most the time elapsed |
| SenderRuns.TooNearExactly | send.c:157-168 | the answer for any clock: k overflows of the int delay the decision by k * 2^32 microseconds |
| SenderRuns.TooNearAsIntended | send.c:157-168 | the answer is the intended one if and only if the clock fits an int or the delay is decisive either way |
| SenderRuns.FastRetransmitFades | send.c:175-187 | from 2^31 on, no duplicate ACK resends a packet sent within the last 2^32 microseconds |
| SenderRuns.ThirdDuplicate | send.c:175-187 | the third duplicate ACK sends the head again if and only if the delay, extended by 2^32 for each overflow of the int, has passed |
| SenderRuns.FreshState | send.c:118-133 | a filled connection has sent packet 0 only, at the second reading of the clock, and counted no ACK |
| SenderRuns.FastRetransmitFadesExample | send.c:175-187 | a new connection that gets three duplicate ACKs, the third a second after its first packet was sent, sends that packet again if and only if the clock is then below 2^31 microseconds |
| SenderLaws.RttLaw | send.c:135-155 | a sample below a fifth of the estimate, or whose fifth passes it, is ignored; the first is taken as it is; any other counts two tenths, the old estimate eight, rounded down |
| SenderLaws.NewAckLaw | send.c:188-225 | after a new ACK the head is there, everything below is freed and sampled; slow start adds one to the window and ends exactly above the threshold, congestion avoidance adds one exactly when an estimated round trip has passed; exactly the packets newly covered are sent, each stamped with the time it goes out |
| SenderLaws.DuplicateAckLaw | send.c:175-187 | two duplicates are counted; a third too soon after the head was sent changes nothing; any other makes the window 1 and the threshold max(w/2, 2), and sends and stamps the head |
| SenderLaws.OtherAckLaw | send.c:188-215 | an older ACK changes nothing; one for the whole chunk closes the connection and sends nothing |
| SenderLaws.TickLaw | send.c:230-254 | a tick acts if and only if 2 * rtt has passed since the last that did and a packet is overdue; then the oldest such packet, resent five times, closes the connection, or is counted and taken for lost; otherwise nothing is sent and no packet touched |
| SenderLaws.ResendLaw | send.c:242-249 | the sixth timeout of a packet closes; any earlier makes the window 1 and the threshold max(w/2, 2), and sends the packet exactly if it is the head |
| SenderLaws.FreshLaw | responser.c:119-138 | the whole state of a filled connection: window 1, threshold 64, packet 0 sent and stamped, all others waiting |
| Request.BtRequestor.InitRequestor | requestor.c:30-69 | the whole state of a new download |
| Request.BtRequestor.FindNextProvider | requestor.c:72-91 | which provider is chosen, -1 without providers, -2 if all are busy |
| Request.BtRequestor.SendGet | requestor.c:93-115 | both indexes are set and the transfer restarted, unless the peer is busy |
| Request.BtRequestor.RequestNextChunk | requestor.c:118-135 | the whole new state and return value of one search |
| Request.BtRequestor.ExpireChunk | requestor.c:150-158 | one chunk's countdown, and the release of its provider at the end of it: `RequestorLaws.CountdownLaw` |
| Request.BtRequestor.RequstorTimeout | requestor.c:145-166 | the whole new state after a tick; the retry loop ends. By `RequestorLaws.TickLaw` a silent provider loses a tick, or with the last one its chunk |
| Request.BtRequestor.AddToChunk | requestor.c:172-182 | the peer is listed for a chunk with that hash, once |
| Request.BtRequestor.AddProvider | requestor.c:169-186 | the whole new state after an offer |
| Request.BtRequestor.Reject | requestor.c:209-217 | a chunk with a wrong digest is dropped and its provider released |
| Request.BtRequestor.Accept | requestor.c:219-230 | a chunk with the right digest is written to its region and its provider released |
| Request.BtRequestor.FinishChunk | requestor.c:199-236 | the whole new state, decided by the digest of the chunk's buffer |
| Request.BtRequestor.StorePacket | requestor.c:247-253 | the payload is copied to its place, marked and counted once |
| Request.BtRequestor.ReceivePacket | requestor.c:247-263 | and the cumulative acknowledgment advances to the next missing packet |
| Request.BtRequestor.UpdateData | requestor.c:239-269 | the whole new state after a data packet |
| Request.BtRequestor.RequestorPacket | requestor.c:271-291 | any packet amounts to a run of events and keeps the invariant of all runs; IHAVE lists the peer for exactly the chunks whose hash it names, DATA is one data event, anything else changes nothing |
| RequestorSpec.RequestNextAssigns | requestor.c:118-135 | a search that returns 1 leaves fewer waiting chunks; any other leaves chunks and peers alone |
| RequestorProofs.ReceiveKeepsCounted | requestor.c:244-265 | the count is the number of missing packets, the ACK the first missing one and never falling, and nothing is left exactly at 1024 |
| RequestorProofs.InitKeeps | requestor.c:49-67 | a new download satisfies the invariant, whatever memory held |
| RequestorProofs.AssignKeeps | requestor.c:93-103 | a GET keeps peers and chunks paired |
| RequestorProofs.RequestNextKeeps | requestor.c:118-135 | so does a search |
| RequestorProofs.ExpireOneKeeps | requestor.c:150-158 | so does a timeout |
| RequestorProofs.TickKeeps | requestor.c:145-166 | so does a tick with all its retries |
| RequestorProofs.AddProviderKeeps | requestor.c:169-186 | so does an offer, and provider lists stay free of duplicates |
| RequestorProofs.RejectKeeps | requestor.c:209-217 | so does a bad digest |
| RequestorProofs.WriteRegion | requestor.c:219-223 | writing at the offset of a chunk fills that chunk's region and touches no other |
| RequestorProofs.WriteKeeps | requestor.c:219-223 | writing a region of which nothing was there changes no byte of the file |
| RequestorProofs.AcceptKeeps | requestor.c:219-232 | a good digest adds one finished region of which nothing was in the file, changes no byte that was, and ends the download with the last |
| RequestorProofs.UpdateDataKeeps | requestor.c:239-269 | any data packet, stale, junk or repeated, keeps the invariant and takes nothing back |
| RequestorProofs.StepKeeps | requestor.c:271-291 | every event keeps the invariant and is monotone |
| RequestorProofs.RunIsMonotone | requestor.c:199-236 | over every run finished chunks stay finished and no byte of the output file once written is changed |
| RequestorProofs.PeersAndChunksArePaired | requestor.c:93-103 | in every reachable state downloading and cur_provider are inverse, and what they pair is unfinished with 1 to 5 ticks left |
| RequestorProofs.EndsWhenComplete | requestor.c:226-234 | a download of at least one chunk is over if and only if every region has its requested digest |
| RequestorProofs.EmptyDownloadNeverEnds | requestor.c:65-66 | a download of no chunks stays in progress for ever |
| RequestorLaws.SearchLaw | requestor.c:118-135 | a search stops at the first waiting chunk that has a free provider or none at all: it asks a free provider for that chunk, or the network with the WHOHAS of that chunk; if there is none it does nothing |
| RequestorLaws.CountdownLaw | requestor.c:150-158 | the countdown takes one tick from every transfer, releases exactly those that had one left, in both indexes, and changes no other chunk or peer |
| RequestorLaws.TickLaw | requestor.c:145-166 | after a whole tick a transfer with ticks to go is held with one less, and one that had its last is released and at most asked anew |
| RequestorLaws.OfferLaw | requestor.c:169-186 | an offer lists the peer, once, for exactly the chunks whose hash agrees in forty characters, and is followed by one search |
| RequestorLaws.OffersLaw | requestor.c:275-282 | a packet of offers lists the peer for exactly the chunks that it names |
| RequestorLaws.StoreLaw | requestor.c:247-263 | the payload is at its offset and nowhere else, counted once, the countdown is back at five, and the ACK is the first packet missing |
| RequestorLaws.FinishLaw | requestor.c:199-236 | a chunk with the digest asked for is saved at its offset, released and finished, the last one ending the download; any other is released, cleared and waits; unless the download ended, one search follows |
| RequestorLaws.DataLaw | requestor.c:239-269 | a packet is ignored from a peer that serves nothing or below the cumulative ACK; any other is stored and answered with the cumulative ACK, and the last one missing concludes the chunk |
| RequestorLaws.SilentIsHeld | requestor.c:145-158 | over any run without data from its provider a chunk is held, one tick less at each tick, while ticks are left |
| RequestorLaws.SilentIsReleased | requestor.c:145-158 | the tick that uses up the last releases provider and chunk, and if the chunk is in transfer afterwards it was asked anew |
| RequestorLaws.DataRefreshes | requestor.c:247 | any data packet that is taken puts the countdown back to five |
| RequestorLaws.InitLaw | requestor.c:49-67 | at the start no peer serves, no chunk is in transfer or finished, and one WHOHAS was said for each |
| Scheduling.NextFreeIsFirst | requestor.c:79-87 | the scan finds the first free provider in cyclic order, or all are busy |
| Scheduling.PickIsFirstFree | requestor.c:72-91 | the last provider is picked again only if every other one is busy |
| Scheduling.PicksTakeTurns | requestor.c:72-91 | with all providers free, picks go round the list one by one |
| Scheduling.RoundVisitsAll | requestor.c:72-91 | n such picks choose each of n providers exactly once |
| Scheduling.ProvidersFit | requestor.c:174-182 | a provider list never outgrows its array |
| Scheduling.NothingToAssign | requestor.c:118-135 | a search that assigns nothing has no free provider for any waiting chunk before the first one nobody has |
| Scheduling.RetryAllIsMaximal | requestor.c:160-163 | the retry loop ends in a maximal assignment |
| Scheduling.TickIsMaximal | requestor.c:145-166 | so does every tick of a running download |
| Transfer.SpliceOneBlock | requestor.c:248-249 | storing a packet changes its own block and no other |
| Transfer.SendingKeepsPrefix | send.c:217-225 | what was ever sent stays a gapless prefix of the chunk |
| Transfer.FreshSendsFirst | responser.c:119-138 | filling the buffer sends packet 0 and no other |
| Transfer.AckStep | send.c:170-228 | any delivered ACK keeps the invariant between sender and receiver |
| Transfer.TickStep | send.c:230-254 | so does any tick of the sender |
| Transfer.DataStep | requestor.c:239-263 | so does any delivered packet, in any order and any number of times |
| Transfer.TransferIsSafe | send.c:170-228 | over every such network: head = last ACK <= new ACKs <= receiver's ACK <= highest sent + 1 <= tail, every freed packet is held, every received slot is the source block |
| Transfer.ClosedMeansComplete | send.c:211-215 | the last packet's ACK arrives only after the receiver holds the whole chunk, and a complete buffer is the source chunk |
| Transfer.UpdateDataReceives | requestor.c:239-269 | a data packet for the chunk its peer serves is ignored below the cumulative ACK, otherwise stored and answered, and completes the chunk with the last one missing |
| Transfer.CompletedTransferIsWritten | requestor.c:199-269 | when the last missing packet of a faithful transfer arrives, the region of the output file holds the source chunk |
| Transfer.HexInjective | chunk.c:55-61 | equal hexadecimal strings come from equal digests |
| Transfer.MatchesMeansDigest | requestor.c:203-209 | a buffer passes the comparison if and only if it has the requested digest |
| Transfer.HonestTransferMatches | requestor.c:199-209 | a completed transfer of the chunk asked for is never rejected |
| PoolSpec.CloseKeepsAgree | responser.c:47-61 | closing a connection frees exactly its own slot, flag and count |
| PoolSpec.SettleKeeps | send.c:211-215 | a handler of one sender, with the closing it asks for, keeps the pool consistent and the other senders alone |
| PoolSpec.SendChunkKeeps | responser.c:91-140 | a GET succeeds if and only if the peer is not served and both limits allow it, and changes nothing otherwise |
| PoolSpec.CloseLaw | responser.c:47-61 | closing a connection clears its peer's flag, lowers the count and frees its sender, and nothing else |
| PoolSpec.AckReaches | peer.c:108-115 | an ACK changes exactly the sender that serves the peer, as `CtlUdpAck` does, and its slot, flag and count are given back exactly on 1024 or more |
| PoolSpec.TickReaches | peer.c:200-203 | every busy sender takes one tick and is idle exactly if its connection closed; idle senders stay; flags change only for closed connections |
| PoolSpec.GetLaw | responser.c:91-140 | a GET gives the first idle sender the 1024 blocks of that chunk, in order, for that peer, and leaves all other senders; it does so exactly if the peer is not served and both limits allow it |
| PoolSpec.PoolIsBijection | responser.c:47-140 | in every reachable state flagged peers and busy senders match one to one, the counter counts both within both limits, and every busy sender is an open connection |
| Respond.BtResponser.constructor | responser.c:42-43 | nobody is served and all senders are idle |
| Respond.BtResponser.ConnectionClosed | responser.c:47-61 | the whole new state |
| Respond.BtResponser.FindSender | responser.c:79-88 | the first idle sender is initialised, or -1 |
| Respond.BtResponser.Fill | responser.c:119-138 | the sender's buffer is filled with the chunk's packets in order |
| Respond.BtResponser.SendChunk | responser.c:91-140 | 0 if and only if the peer is not served and both limits allow it; then the first idle sender holds the 1024 blocks of that chunk and serves the peer, and all other senders stay; otherwise -1 and nothing changes |
| Respond.BtResponser.HandleAck | peer.c:108-115 | the sender that serves the peer, and no other, takes the ACK; it is idle afterwards exactly on 1024 or more, and only then the peer's flag and the count go down |
| Respond.BtResponser.HandleTick | peer.c:200-203 | every busy sender looks for an overdue packet once and idle ones stay; the flags taken back are those of the peers whose connection closed |
| Topology.DistanceBelowSize | hupsim.pl:73 | a hop distance is less than the number of routers, so 65535 is never one |
| Topology.GraphOfLines | hupsim.pl:366-383 | the map has exactly the routes of its lines, in both directions |
| Topology.OneReachesAll | hupsim.pl:381-382 | if one router reaches all, every router reaches every other |
| Simulator.MapIsConnected | hupsim.pl:381-382 | on a map file one of whose routers reaches all, every router reaches every other |
| Topology.ForwardingIsShortest | hupsim.pl:172-189 | after k hops a packet is k hops closer, whichever router built which table |
| Topology.ForwardingNeverLoops | hupsim.pl:172-189 | a packet arrives after exactly the hop distance and passes no router twice |
| Dijkstra.StartLabelled | hupsim.pl:236-245 | the base state satisfies the loop's invariant |
| Dijkstra.RelaxLabelled | hupsim.pl:267-271 | shortening a distance keeps it, and never touches a finished router |
| Dijkstra.DoneLabelled | hupsim.pl:273 | so does finishing the nearest router |
| Dijkstra.DoneIsShortest | hupsim.pl:247-274 | in the end a distance is the hop count, and 65535 exactly for what cannot be reached |
| Dijkstra.StepBack | hupsim.pl:279-282 | each predecessor read was set in this run and is one hop nearer |
| Dijkstra.FirstHopIsCloser | hupsim.pl:278-286 | the walk ends at a neighbour one hop closer to the destination |
| Dijkstra.WalkBackArrives | hupsim.pl:278-282 | from a router at distance d, exactly d steps along the predecessors lead to the source |
| Dijkstra.WalkBackStaysOut | hupsim.pl:278-282 | from a router that cannot be reached, no number of steps leads to one that can, whatever other runs left behind |
| Dijkstra.WalkBackEnds | hupsim.pl:278-282 | the walk back comes to the source if and only if the source reaches the router |
| Router.NSQueue.EnQ | hupsim.pl:47-69 | a full queue counts a drop; any other takes the packet at its end, due when the link has, after the latency, had time for the bytes waiting before it and its own |
| Router.NSRouter.AddRoute | hupsim.pl:137-148 | one queue is put at the neighbour's number, all others stay |
| Router.NSRouter.Recv | hupsim.pl:150-182 | a packet is ignored, delivered, or queued or dropped at the queue one hop closer, with the departure time of its link; a queue is always found, and the bytes sent grow by the length without header exactly on delivery |
| Router.NSRouter.Depart | hupsim.pl:209-212 | a departing packet is neither lost nor doubled and comes to the router at the end of its link, which is put on the list; it was due, it enters the next queue on time, queues stay in order, and fewer hops are left |
| Router.NSRouter.RunQueue | hupsim.pl:200-222 | packets leave in order, each due at a reading, until the head is not due at the last one; the wait is the head's departure time minus that reading, none if the queue is empty |
| Router.NSRouter.Run | hupsim.pl:191-224 | own queues only lose at the front, others only gain at the end and have their routers listed; packets leave and enter on time and move along the links only; the hops left fall, or nothing changes; the result is the least wait over all own queues |
| Router.NSRouter.ResetLabels | hupsim.pl:236-245 | distances and done marks are reset, predecessors kept |
| Router.NSRouter.SelectNext | hupsim.pl:252-259 | the router found is nearest among those not done |
| Router.NSRouter.RelaxRoutes | hupsim.pl:261-272 | all routes of the selected router are relaxed |
| Router.NSRouter.Label | hupsim.pl:247-274 | the main loop finishes every router |
| Router.NSRouter.FirstHop | hupsim.pl:278-282 | the walk back ends, and at a neighbour one hop closer |
| Router.NSRouter.BuildTable | hupsim.pl:275-287 | every other router gets an entry, and all entries are right |
| Router.NSRouter.CreateTable | hupsim.pl:226-288 | on a map where it reaches all routers: true hop distances, and a right entry for every other router |
| Traffic.EnQEffect | hupsim.pl:47-69 | a packet put in a queue is accounted for once, queued or dropped, and limits and directions stay |
| Traffic.ShiftEffect | hupsim.pl:209-210 | a packet taken out is the one no longer accounted for, and has one hop less to go |
| Traffic.ReceivedEffect | hupsim.pl:150-182 | recv accounts for a packet of known destination once and adds no hops |
| Traffic.HopEffect | hupsim.pl:208-213 | one hop keeps the multiset of packets, first-in first-out order and all other queues of the router, and lowers the hops left |
| Traffic.LeastIsRight | hupsim.pl:215-222 | the least wait is in time for every queue looked at, and exactly the time one of them had left |
| Traffic.TxTimeLaw | hupsim.pl:60-63 | (departure - latency - now) * rate is the number of bytes waiting plus those of the packet |
| Traffic.BurstIsSpaced | hupsim.pl:59-66 | packets that enter a queue at the same time leave in order, each later than the one before by its length over the rate |
| Traffic.ReceivedAdds | hupsim.pl:150-182 | recv adds to no queue but one of its own router, and there the packet with the departure time of that link |
| Traffic.ReceivedIsTimed | hupsim.pl:150-182 | what recv queues at a clock reading is due by the rate of its link from that reading |
| Traffic.TimedJoins | hupsim.pl:200-222 | over stretches joined, whatever entered a queue was due by the link's rate from some reading, behind what waited then, and whatever left was due at one |
| Traffic.DestLaw | hupsim.pl:157-161 | a packet is for the router that the table names for its address and port, 0.0.0.0 standing for 127.0.0.1 |
| Flows.ReceivedFlows | hupsim.pl:150-182 | recv queues, drops or delivers a packet of known destination at its own router, once, and nothing at any other |
| Flows.HopFlows | hupsim.pl:208-213 | a hop keeps the flow at every router: what leaves a queue is disposed of by the router at the end of its link |
| Flows.FlowFromEmpty | hupsim.pl:404-453 | from an empty network on, every router has queued, dropped and delivered each packet exactly as often as it came to it over a link or from outside |
| Simulator.ReadMap | hupsim.pl:366-384 | the routers and routes are exactly those of the map file, and each queue is empty and has the link of its line |
| Simulator.LinkIsLastLine | hupsim.pl:366-384 | the link between two routers is that of the last line that joins them |
| Simulator.CreateTables | hupsim.pl:386-389 | all tables are right, though each router reuses the scratch fields of all |
| Simulator.DrainingGoesOn | hupsim.pl:443-451 | running one router keeps every non-empty queue either listed to be run or covered by the sleeping time found so far |
| Simulator.RightTablesNeverLoop | hupsim.pl:386-389 | tables built one by one forward every packet the shortest way without loops |
| Simulator.SetUp | hupsim.pl:363-389 | from a map one of whose routers reaches all, a network in working order with the links of the map that has seen no packet |
| Simulator.Drain | hupsim.pl:443-451 | the loop ends for any clock, keeps the multiset of packets, first-in first-out order, the links' rates and the flow at every router, and finds a sleeping time that is in time for the head of every queue and exact for some packet |
| Simulator.Turn | hupsim.pl:404-452 | one turn takes in at most one packet, keeps limits, byte counts, order, the links' rates, the multiset of packets and the flow at every router, and sleeps no longer than any queue allows |
| Simulator.Simulate | hupsim.pl:404-453 | over any input: the packets taken in with a known destination are, each as often as it came, exactly those delivered, dropped or still queued; every queue was first in, first out; whatever entered a queue was due by the rate of its link and whatever left was due; at every router what came over its links or from outside is what it queued, dropped or delivered |

## Left out

- Liveness of a transfer: the receiver answers no packet below its cumulative ACK, so lost ACKs can stall it until the timeouts; what is proved is safety and bounded retries.
- Transfers that overlap: DATA and ACK packets carry no transfer number, so `Transfer` covers one GET delivered once with nothing left over from an earlier transfer; the download invariants need no such assumption.
- Request.BtRequestor.UpdateData: requires a packet number below 1024 from a peer that serves a chunk, because the source then writes past the chunk's buffer; from any other peer every number is covered.
- Request.BtRequestor.StorePacket: requires a packet number below 1024, as the arrays it indexes do.
- Request.BtRequestor.ReceivePacket: requires a packet number below 1024, as the arrays it indexes do.
- Request.BtRequestor.RequestorPacket: requires a packet number below 1024 and a peer number below 1024; the source checks neither and indexes with both.
- A negative leftover `last_provider`, with which the source would compute a negative index.
- Sockets, `select`, Spiffy headers, file parsing and reading, logging, command lines, `input_buffer.c`, `make_chunks.c`: no state of interest. The chunk file's contents, the hashes and the map are parameters.
- WHOHAS and the hash lookup before a GET (responser.c:142-165), the `JUNK` build and `TERM_FIN`: simple searches and switches.
- `packet_len`, which grows with every retransmission: only sequence number, ACK number and payload are modelled.
- `free(req->chunks)`: the records stay readable in the model; every entry point returns first once the download is over.
- Router.NSRouter.CreateTable: requires that the router reaches all others, because otherwise the source does not complete the table; `Dijkstra.WalkBackEnds` proves that the condition is exact, and `Dijkstra.DoneIsShortest` covers the distances on every map.
- Simulator.SetUp: requires a map that connects all its routers, for the same reason, and rates of at least 8 bits a second, since the source divides by the rate in whole bytes.
- Send.BtSender.CtlUdpAck: requires, as do the other handlers, a buffer that still holds packets with the last ACK at its head; `PoolSpec.PoolIsBijection` shows that every busy sender has them in every reachable state.
- `nodes.map` entries that name a router absent from the map, for which the source dies.
- The order of departure times within a queue: not monotone for mixed packet sizes, so only first-in first-out order is stated.
- The simulator's statistics on HUP, which reset drop and byte counters.
- Clearing of the stack after hashing, and endianness detection, whose result is the parameter `littleEndian`.
