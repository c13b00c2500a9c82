# ADARA data acquisition: a verified model

ADARA carries neutron-scattering data from the detectors of a beam line to storage and
to live readers. Its stream management service (`sms/`) and packet library (`common/`)
hold several self-contained algorithms with real state. This project models ten of
them in Dafny, in the form the C++ code gives them (classes with the same fields,
methods with the same loops and branches), and proves what they are for.

| part | files | what is proved |
|---|---|---|
| Stream parser | `PacketStream`, `ParserTrace`, `ParserModel` | the frames sent are the packets delivered, however their bytes arrive and whatever the limits and stop requests |
| Pixel map | `PixelTypes`, `PixelMapFile`, `PixelTables`, `AltPixelWire`, `AltPixelSections`, `AltPixelPacket`, `OrigPixelPacket` | expansion of the file, both lookup tables, and lossless encoding in both packet formats |
| Pulse tracker | `PulseAudit`, `PulseList`, `PulseBook`, `PulseTracker` | every call made is the one that the packets ask for: every good pulse gets its events, each gap is marked, and it is completed once, in arrival order, for a reason; which pulses are good; the running maximum |
| Live client | `LiveFiles`, `LiveWorld`, `LiveSending`, `LiveClientModel`, `LiveRun` | files are queued in container order and sent byte for byte, over any run of storage events, and all of them are delivered when the socket is ready often enough |
| Markers | `MarkerMerge`, `MarkerText`, `MarkerTrace`, `MarkerAccounts`, `MarkerModel`, `MarkerRun` | eight queues merged by time, each entry emitted once by the end of its run, one run note a run |
| Rate limiter | `LogHistory`, `RateLimiter` | a pruned vector decides like the full history |
| Device ids | `DeviceTables`, `DeviceIds` | ids stay distinct and survive reconnection until the counter wraps |
| Banked events | `BankedPayload`, `BankedEvents` | the cursor yields exactly the flattened event list |
| Fast metadata | `FastMeta` | single and multiple updates agree, with the exact condition |
| Multiple strings, bank sets | `MultStrings`, `BankSetLayout`, `BankSets` | round trips, disjoint layout, and where 32-bit offsets or a changed bank list break it |

`Words` has the 32-bit words and byte order that all of them share, `Options` an
optional value.

## How it is built

Each C++ class becomes a class whose `Valid` predicate (or, where the account is about
a trace, a predicate on values) is kept by every method. Calls to code outside the part
(`markPartial`, `markComplete`, packets emitted, bytes sent) are recorded in a trace, and
what a careful observer would demand of that trace is a function of its own:
`PulseAudit.Audit`, `MarkerTrace.AuditNotes`, `LiveFiles.Faithful`, `LogHistory.Logs`.
Clocks, PV readings, socket answers and callback answers are parameters, so every
statement is for all of them. Whole runs are methods that take the events of a run as
a sequence: `ParserModel.ReadFrames`, `PulseTracker.RunSource`, `LiveRun.Run`,
`LiveRun.Deliver`, `MarkerRun.Run`, `DeviceIds.Run`, `BankedEvents.ReadAll`.

Where the code falsifies a statement that one would make of it, there is a concrete case
that shows it and, where one exists, the exact condition under which the statement holds;
the next section names them. What is excluded by a precondition instead is listed under
"Left out".

## Where code and comments or expectations part

- The step-overflow branch of `genAltPacket` (sms/PixelMap.cc:564-598) does not look at
  the bank, so an unmapped pixel can be put in the packet. The client skips it
  (`SentUnmapped`, `UnmappedPixelOnTheWire`).
- A map file line marked as a gap overwrites `bank` with a reserved value
  (sms/PixelMap.cc:225-227), so a gap of more than one pixel is rejected (`GapLine`,
  `GapOfTwo`).
- A logical id of 0xffffffff is left out of the maximum (sms/PixelMap.cc:942-944), so the
  bank table does not know it (`TablesAgreeWithMap`, `ReservedLogicalId`).
- `bufferParse` documents a negative result after a stop, but a stop before any packet
  completes gives `-0` (common/ADARAParser.cc:238-239): the contract speaks of the trace.
- Writing to a live client skips pause files without closing the descriptor
  (sms/LiveClient.cc:241-311). If pause data stops being wanted while such a file is open at
  offset 0, the next file is read through the old descriptor (`SkippedFileIsSent`). It
  never happens to a client that chose for itself, nor with a setting that is steady
  (`Steady`).
- `StorageContainer::getFiles` throws for a closed container without files
  (sms/StorageContainer.cc:1725-1737), which stops a client that has to pass it. Storage
  gives every container a file right after announcing it, so a run of the whole service
  does not get there; the client model does not rely on it (`Strands`,
  `FilledNeverThrows`, `EmptyContainerStops`).
- `findPulseSequence` says it hands back the original duplicate count of a pulse it finds,
  but copies that of its argument (sms/DataSource.cc:302-306). Nobody uses it.
- The log limiter stores a logged call as its negated time and marks old ones -1, so a
  call logged in second 1 of the clock counts as old (`FirstSecondMiscounts`).
- The mapped id of a dropped device leaves the active set, so after the counter wraps a
  new device can get the id of a remembered one (sms/MetaDataMgr.cc:287-293;
  `AllocateKeeps`, `WrapForgetsRemembered`).
- `sendUpdate` adds the time of flight in 32 bits, `extractLastValue` in 64: they differ
  when the pulse's nanoseconds are malformed enough to wrap (`SingleAndMultipleAgree`,
  `WrappingPulse`).
- A bank list that changes its length after start-up is written at the old offset
  (sms/DetectorBankSet.cc:714-766). A longer one runs into the next section or past the
  packet, and a shorter one makes a reader look for the sections behind it too early
  (`StartsMove`, `ShorterListMisread`, `LongerListRejected`).
- The scan of a bank-sets packet adds up 32-bit offsets (common/ADARAPackets.cc:1280-1340), so
  a payload with a huge bank count can pass it (`ScanIsInside`, `WrappedSection`).

## Model

| member | source | states |
|---|---|---|
| PacketStream.PacketsOfConcat | common/ADARAParser.cc:112-199 | Parsing the concatenation of well-formed packets gives exactly those packets back, with nothing left over |
| PacketStream.NoWrapPrefix | common/ADARAPackets.h:46 | A prefix of a stream without 32-bit length overflow has none either, so the precondition can be stated once for the whole input |
| PacketStream.FrameIsPacket | common/ADARAPackets.h:15-48 | A frame built from a payload length, a type, a time and a payload is a packet if and only if the payload is whole words |
| PacketStream.PacketIsFrame | common/ADARAPackets.h:15-48 | Every packet below 2^32 bytes is such a frame, byte for byte |
| PacketStream.FramesParse | common/ADARAParser.cc:112-199 | The one-shot parse of any frames and a part of one more gives exactly the whole frames; what is left is malformed exactly when it has the header of a frame that is not whole words |
| ParserModel.Parser.constructor | common/ADARAParser.cc:10-53 | A new parser has an empty buffer of the size asked for, no oversize packet under way and no calls made |
| ParserModel.Parser.AppendBytes | common/ADARAParser.h:76-87 | Filling at most the offered space appends exactly those bytes to what is buffered, and to the stream seen |
| ParserModel.Parser.Reset | common/ADARAParser.cc:60-68 | After a reset nothing is buffered, nothing is under way and every counter is 0 |
| ParserModel.Parser.Grow | common/ADARAParser.cc:140-177 | The new size is the first doubling that holds the packet, clipped to the maximum; pending bytes move to the front unchanged |
| ParserModel.Parser.Settle | common/ADARAParser.cc:213-256 | Consumed bytes are shifted out, the rest is kept in order; the restart offset is 0 unless a stop left data behind |
| ParserModel.Parser.ContinueOversize | common/ADARAParser.cc:90-110 | An oversize packet under way takes exactly the bytes still owed to it, in one chunk at the next contiguous offset |
| ParserModel.Parser.StartOversize | common/ADARAParser.cc:128-138 | A packet longer than the maximum is handed on in chunks, the first from offset 0 |
| ParserModel.Parser.ParsePackets | common/ADARAParser.cc:112-199 | The packet loop keeps the reassembled packets, the oversize remainder and the unread bytes equal to the stream, obeys the limit and the first stop request, and makes progress when unstopped |
| ParserModel.Parser.BufferParse | common/ADARAParser.cc:70-256 | One call: stop requests are obeyed at once; a malformed length throws exactly when the stream demands it; an unstopped call below its limit leaves restart offset 0 and room to fill, any other leaves what is left where it is; the result is the number of packets, negated after a stop |
| ParserModel.PacketLengthIsExact | common/ADARAPackets.h:46 | The 32-bit packet length equals the true one if and only if that is below 2^32; otherwise it is shorter than a header |
| ParserModel.ReadStream | common/ADARAParser.cc:70-256 | For any input without length overflow, any split into appends, any packet limits and any stop requests, exactly the one-shot packets are delivered, in order, oversize ones reassembled from contiguous chunks; the parse is invalid exactly when the input is malformed |
| ParserModel.ReadFrames | common/ADARAParser.cc:70-256 | Any frames and a part of one more, arriving in any pieces under any limits and stops: exactly the whole frames are delivered, byte for byte, and the parser throws exactly at the header of a frame that is not whole words |
| ParserTrace.TracksWhole | common/ADARAParser.cc:179-188 | Delivering the packet at the front of the buffer loses and repeats nothing |
| ParserTrace.TracksFirstChunk | common/ADARAParser.cc:128-138 | Starting an oversize packet keeps delivered, pending and buffered bytes equal to the stream |
| ParserTrace.TracksNextChunk | common/ADARAParser.cc:90-110 | Every further chunk does too, and the last one completes the packet |
| AltPixelPacket.GenAltSections | sms/PixelMap.cc:355-745 | For every map in key order, the section words are canonical, decode to exactly the entries meant to be sent, and give the client exactly the mapped pixels |
| AltPixelPacket.SentMapped | sms/PixelMap.cc:355-745 | The mapped entries that are sent are exactly the mapped entries of the map, in order, and every entry sent is one of the map |
| AltPixelPacket.SentUnmapped | sms/PixelMap.cc:564-598 | No unmapped pixel is sent if and only if no entry meets the guard of the step-overflow branch that omits the bank test |
| AltPixelPacket.SmallGapsNeverLeak | sms/PixelMap.cc:564-598 | Unmapped neighbours at most 32767 apart never reach that branch |
| AltPixelPacket.UnmappedPixelOnTheWire | sms/PixelMap.cc:564-598 | A concrete map of two unmapped pixels 40000 apart puts the first of them in the packet |
| AltPixelPacket.CloseSection | sms/PixelMap.cc:395-530 | Closing a section appends words that decode to exactly its mapped entries, and stay canonical |
| AltPixelPacket.DumpOverflow | sms/PixelMap.cc:557-640 | The overflow dump appends one direct section that decodes to the single open entry, mapped or not |
| AltPixelSections.RecountIsExact | stc/StreamParser.cpp:905-950 | The count a reader recomputes from start, stop and step is the one written, for every step and every wrap of 32 bits |
| AltPixelSections.WalkRun | stc/StreamParser.cpp:968-1000 | Walking from start to stop by the steps visits exactly the run, each entry once |
| AltPixelSections.ShorthandSection | sms/PixelMap.cc:408-448 | A shorthand section decodes to its run: at least two entries, a count of 15 bits, and stop = start + (count - 1) * step |
| AltPixelSections.DirectSection | sms/PixelMap.cc:469-484 | A direct section decodes to its one pixel |
| AltPixelWire.WireAppend | stc/StreamParser.cpp:752-1025 | Sections decode independently: the decoding of a packet is the concatenation of that of its sections |
| AltPixelWire.ClientReadsMapped | stc/StreamParser.cpp:752-1025 | The client enters exactly the entries on the wire that are not of the unmapped bank |
| OrigPixelPacket.InvertPermutes | sms/PixelMap.cc:836-841 | Inverting a one-to-one map to logical order keeps every entry exactly once |
| OrigPixelPacket.CountSections | sms/PixelMap.cc:843-876 | The section counts cut the map into runs, and the payload length computed from them is that of the words then written |
| OrigPixelPacket.AppendSection | sms/PixelMap.cc:890-905 | A section holds a run of consecutive logical ids of one bank and decodes to exactly that run |
| OrigPixelPacket.GenPacket | sms/PixelMap.cc:803-905 | For a one-to-one map, reading the packet gives the inverted map exactly, and the client, which skips sections of the unmapped bank, gets exactly the mapped entries; section counts lie between 1 and 65535 and add up to the size of the map |
| OrigPixelPacket.ReadSections | sms/PixelMap.cc:889-905 | Sections of a well-cut map hold its pixels back to back: read one after the other they give the map in order |
| OrigPixelPacket.ClientReadsMapped | stc/StreamParser.cpp:1176-1218 | The client enters exactly the entries of the packet that are not of the unmapped bank, in order |
| PixelTables.LookupTables.constructor | sms/PixelMap.cc:938-985 | Both tables hold, at every index, what the map says; the bank count is one more than the largest bank |
| PixelTables.LookupTables.MapEvent | sms/PixelMap.h:38-49 | For every 32-bit pixel the lookup is the map entry, or the pixel with its error bit and the unmapped bank |
| PixelTables.LookupTables.MapEventBank | sms/PixelMap.h:51-60 | For every logical id the lookup is the bank of the map entry with it |
| PixelTables.TablesAgreeWithMap | sms/PixelMap.cc:938-985 | For a mapped pixel of a one-to-one map both lookups agree on the bank if and only if its logical id is not 0xffffffff or its bank is the unmapped one |
| PixelTables.ReservedLogicalId | sms/PixelMap.cc:938-985 | A concrete case: a pixel mapped to logical id 0xffffffff has its bank by physical id and none by logical id |
| PixelTables.TablesElsewhere | sms/PixelMap.h:38-60 | Ids in no entry of the map look up as unmapped |
| PixelTables.FillTable | sms/PixelMap.cc:966-985 | Filling the physical table in map order leaves the last entry written for each id, the default elsewhere |
| PixelTables.FillBanks | sms/PixelMap.cc:975-985 | Likewise for the bank table by logical id |
| PixelMapFile.LogicalOneToOne | sms/PixelMap.cc:182-252 | In a one-to-one map the k-th logical id is start + k * step modulo 2^32 |
| PixelMapFile.ShorthandIds | sms/PixelMap.cc:100-121 | `start:stop:step` describes start, start + step and so on up to stop, for either sign of the step, except that steps once around 2^32 describe nothing |
| PixelMapFile.PlainId | sms/PixelMap.cc:123-139 | A plain id describes itself alone |
| PixelMapFile.LogicalStartsOver | sms/PixelMap.cc:240-251 | In a many-to-one map the k-th logical id is number k modulo the length of the logical sequence |
| PixelMapFile.ManyToOneLine | sms/PixelMap.cc:240-276 | With m logical and n physical ids a line of a many-to-one map is whole if and only if m divides n |
| PixelMapFile.OneToOneLine | sms/PixelMap.cc:182-276 | In any other map it is whole if and only if m and n are equal |
| PixelMapFile.RepeatedIds | sms/PixelMap.cc:240-251 | A concrete line of four physical and two logical ids: accepted in a many-to-one map, each logical id used twice in turn, and rejected in any other |
| PixelMapFile.StartOver | sms/PixelMap.cc:240-251 | A used-up logical sequence goes on from its first id while the physical one has not ended |
| PixelMapFile.CheckPassed | sms/PixelMap.cc:186-234 | A pixel passes exactly when its physical id is new and below 2^31, its logical id is new unless it may repeat, and its bank is -1 or below the two reserved ones |
| PixelMapFile.ExpandLine | sms/PixelMap.cc:182-276 | The loop ends for every start, stop and step; the first n pixels of the line each pass their checks and are entered; the line is accepted exactly when both sequences end together after pixels that all pass, else throws what is due at pixel n |
| PixelMapFile.GapLine | sms/PixelMap.cc:186-238 | A gap line is accepted if and only if it describes no pixel, or one that passes its checks |
| PixelMapFile.GapOfTwo | sms/PixelMap.cc:225-238 | A concrete case: a gap of two pixels is rejected, while the same line with a bank is accepted |
| PixelMapFile.NothingIsLost | sms/PixelMap.cc:186-252 | When all pixels pass their checks, no entry overwrites another: the table has as many entries as there are pixels, one for each |
| PixelMapFile.ReadMap | sms/PixelMap.cc:182-276 | A map that is read has one entry for every pixel of every line and no other; otherwise all lines before the last one read were whole and error-free, and the first pixel of that line in error decides with its own error |
| PixelMapFile.ReadMapServesUsers | sms/PixelMap.cc:186-238 | A map that was read meets what the packet writers and tables require: keys in order and below 2^31, and distinct logical ids in one-to-one mode |
| PulseTracker.HWSource.constructor | sms/DataSource.cc:137-230 | A source starts with an empty list, no source sequence and a maximum of at least 1 |
| PulseTracker.HWSource.FindPulseSequence | sms/DataSource.cc:277-339 | Finds the entry with these invariants if there is one; for a new pulse counts the entries with its pulse id |
| PulseTracker.HWSource.Trim | sms/DataSource.cc:415-459 | Eviction keeps as much of the front of the list as its maximum allows, dispatches every evicted pulse still good, oldest first, and keeps the running maximum that of the list |
| PulseTracker.HWSource.GetPulse | sms/DataSource.cc:341-467 | The pulse is in the list afterwards, new ones at the front with their duplicate count, and as many old ones behind it as the maximum allows; distinct invariants, and the last pulse is the maximum id in the list |
| PulseTracker.HWSource.MaxOfFront | sms/DataSource.cc:425-448 | The recomputed maximum is that of the remaining entries |
| PulseTracker.HWSource.EndPulse | sms/DataSource.cc:469-571 | An end of pulse first finishes every older outstanding pulse, from the oldest on, each marked partial, then completes its own; an eviction marks its pulse partial and completes it |
| PulseTracker.HWSource.FinishOlder | sms/DataSource.cc:520-553 | Exactly the older good pulses are marked partial and completed, oldest first |
| PulseTracker.HWSource.NewPulse | sms/DataSource.cc:573-655 | A new pulse is good exactly when its time lies between the facility start and a week from now |
| PulseTracker.HWSource.CheckPulseSeq | sms/DataSource.cc:669-735 | Checks the packet number within its pulse and advances it modulo 2^15, touching nothing else |
| PulseTracker.HWSource.CheckSourceSeq | sms/DataSource.cc:738-780 | The first packet sets the sequence; afterwards a gap is reported and the sequence resynchronised modulo 2^16 |
| PulseTracker.HWSource.Deliver | sms/DataSource.cc:2755-2772 | Events of a good pulse go out once, followed at once by a partial mark exactly when a sequence had a gap; a checked pulse sequence moves on |
| PulseTracker.HWSource.EnterPulse | sms/DataSource.cc:2631-2740 | The pulse of a packet is found, or entered in front and judged once by its time; the calls are those for the pulses evicted and its start; a checked source sequence is compared with the one expected and moves on |
| PulseTracker.HWSource.HandleDataPkt | sms/DataSource.cc:2624-2797 | One packet: its events are delivered, once, if and only if its pulse is good; after its end of pulse neither it nor any older pulse is outstanding; both sequences move on; and the list, the judgement, the duplicate counts and every call made are those of a book that keeps every arrival, with a partial mark right behind the events exactly after a gap |
| PulseTracker.HWSource.Drain | sms/DataSource.cc:1468-1487 | Going down completes every outstanding pulse, oldest first, so that all started pulses are completed |
| PulseTracker.RunSource | sms/DataSource.cc:2624-2797 | Over any run of packets from start to shutdown, the calls made are exactly those that the packets ask for; so events go in order to exactly the packets whose pulse the book judges good, marked partial at once exactly after a gap; every such pulse is completed exactly once and no other ever; and the calls pass the audit |
| PulseTracker.MissesIsGap | sms/DataSource.cc:669-780 | The sequences that the tracker keeps find a gap exactly when the packets so far show one: a checked source sequence that does not follow the last one checked modulo 2^16, or a checked pulse sequence that is not the count of the pulse’s checked packets modulo 2^15 |
| PulseBook.GoodMeans | sms/DataSource.cc:2631-2797 | A packet’s pulse is good exactly when the first packet of that pulse had a plausible time and no end of pulse since then was for it or a later arrival |
| PulseBook.GapIsMarked | sms/DataSource.cc:2763-2771 | Among all calls that the packets ask for, the events of a good packet are followed at once, within its turn, by a partial mark of its pulse if and only if there is a gap before it |
| PulseBook.PacketFollows | sms/DataSource.cc:341-571 | Finding or entering a pulse at the front, evicting at the back and closing from an index on refine the book: known are the last arrivals, open those not ended or evicted; and the calls made on the way are those that the book asks for |
| PulseAudit.CompletedOnce | sms/DataSource.cc:469-571 | In an audited run each pulse on the account of completions has exactly one completion, and no other pulse has any |
| PulseAudit.CompletionsAreOrdered | sms/DataSource.cc:469-571 | In an audited run completions come in strict arrival order, so no pulse is completed twice |
| PulseAudit.NoEventsAfterCompletion | sms/DataSource.cc:2755-2772 | In an audited run no events reach a completed pulse |
| PulseAudit.CompletionsAreJustified | sms/DataSource.cc:469-571 | In an audited run a completed pulse had been started, and was just marked partial or had its own end of pulse |
| PulseList.MaxIdPop | sms/DataSource.cc:415-459 | Popping an entry that does not hold the maximum leaves the maximum as it was |
| LiveFiles.QueueKeepsFaithful | sms/LiveClient.cc:908-951 | Queueing a file owes nothing yet and subscribes to it exactly when it is the first and active |
| LiveFiles.FinishKeepsFaithful | sms/LiveClient.cc:442-503 | Dropping a fully sent inactive file keeps the account and moves the subscription to the next file |
| LiveFiles.SkipKeepsFaithful | sms/LiveClient.cc:241-311 | Skipping a pause file of which nothing was opened keeps the account |
| LiveFiles.SkipWithOpenDescriptor | sms/LiveClient.cc:241-311 | Skipping a pause file whose descriptor is open always breaks the account: the skip does not close it |
| LiveFiles.SkippedFileIsSent | sms/LiveClient.cc:241-399 | A concrete case: the bytes of the file behind a skipped pause file are read from the pause file |
| LiveFiles.WriteKeepsFaithful | sms/LiveClient.cc:361-430 | Sending a chunk through the front file’s descriptor extends what was sent by exactly its next bytes |
| LiveFiles.StorageKeepsFaithful | sms/StorageFile.cc:507-550 | Files appearing, growing and ending never change what is owed for what was sent |
| LiveClientModel.LiveClient.SendFile | sms/LiveClient.cc:361-432 | One call sends the next bytes of the file that is open: at most a chunk, what is left of the front file, what the open file still has, and what the socket takes |
| LiveClientModel.LiveClient.SendFront | sms/LiveClient.cc:399-506 | A file leaves the queue exactly when all of it is sent and no more can come; a broken socket ends the client |
| LiveClientModel.LiveClient.SendRound | sms/LiveClient.cc:235-506 | One round is exactly the step on its sender: a pause file at offset 0 is skipped exactly when pause data is not wanted; otherwise the file is opened and its next bytes go out |
| LiveClientModel.LiveClient.Writable | sms/LiveClient.cc:220-557 | One call is exactly the rounds on its sender, up to the one that finds the socket full, nothing more to send or the connection gone; every round but the last takes one file off the queue; unless an opened pause file gets skipped, exactly the bytes owed are sent |
| LiveClientModel.LiveClient.NeverSkipsOpenFile | sms/LiveClient.cc:241-255 | An open pause file at offset 0 is one that is wanted, so it is not skipped if the client chooses for itself or the setting does not change to unwanted |
| LiveSending.StepKeeps | sms/LiveClient.cc:235-506 | A round keeps the account of bytes owed unless it skips an open file, and closes the file it is done with |
| LiveSending.PumpKeeps | sms/LiveClient.cc:220-557 | So do all rounds of a call, which also leave no open pause file unwanted and keep a smooth connection |
| LiveSending.PumpGetsOn | sms/LiveClient.cc:220-557 | A call whose first round opens its file and finds room in the socket leaves strictly less to send, or nothing to wait for |
| LiveClientModel.LiveClient.HistoricalFile | sms/LiveClient.cc:855-906 | Queues the file from its offset and, unless waiting for the socket, sends from the queue as one call of the loop does |
| LiveClientModel.LiveClient.FileAdded | sms/LiveClient.cc:908-957 | Queues the file from its start and, unless waiting for the socket, sends likewise |
| LiveClientModel.LiveClient.FileUpdated | sms/LiveClient.cc:959-990 | An ended file is unsubscribed; unless waiting for the socket, what is new is sent at once |
| LiveClientModel.LiveClient.NextContainers | sms/LiveClient.cc:683-821 | Every closed container passed is queued whole and dropped, up to the next open one, which is listened to; throws exactly when it meets a closed container without files |
| LiveClientModel.LiveClient.ContainerChange | sms/LiveClient.cc:560-853 | A start or close keeps the client following storage: list in start order, subscribed to the open front container exactly when the list is not empty, files of reached containers queued and, after a close of the front, sent from unless waiting; throws exactly when stuck |
| LiveClientModel.LiveClient.Hello | sms/LiveClient.cc:1085-1205 | After the hello the history is queued, each file in turn sent from unless waiting, and the current container, if any, is followed; exactly the bytes owed are sent if the client chooses on pause data or the setting is steady; the client stays connected on a smooth socket |
| LiveWorld.FollowsStart | sms/LiveClient.cc:566-599 | A container start keeps the client following |
| LiveWorld.FollowsAddFile | sms/LiveClient.cc:908-912 | Only a file added to the container listened to is queued, and that is right |
| LiveWorld.FollowsLaterClose | sms/LiveClient.cc:612-651 | Closing a container that is not in front only marks it |
| LiveWorld.BetweenClosed | sms/LiveClient.cc:800-819 | Passing a closed container queues all its files once |
| LiveWorld.ReachedExactly | sms/LiveClient.cc:703-715 | A file is queued exactly as often as the history and the reached containers hold it |
| LiveWorld.QueuedOnce | sms/LiveClient.cc:703-715 | Since no file has two places in storage, every file of a reached container is queued exactly once |
| LiveWorld.StuckIsStranded | sms/LiveClient.cc:612-821 | A close throws if and only if, in storage, it closes the first open container and a closed one without files follows before the next open one |
| LiveWorld.EmptyContainerStops | sms/StorageContainer.cc:1725-1737 | A concrete case: a container closed before its first file makes the close of the one ahead of it throw |
| LiveRun.Handle | sms/LiveClient.cc:560-990 | Any one event of storage or socket keeps the client standing: following, subscribed and caught up; a ready socket is written to, an added file is queued and sent from, an update is sent; it throws exactly when storage says that the close strands the client, and exactly the bytes owed are sent unless it meets an open pause file to skip, which a steady setting rules out |
| LiveRun.Run | sms/LiveClient.cc:560-990 | Over any run of container starts, closes, file additions, growth and socket readiness, events are handled in order until the connection ends or one throws, which is the first close that strands the client; the queue is the files of the reached containers in start order; the bytes sent are exactly what they owe if the client chooses on pause data or the setting is steady |
| LiveRun.FilledNeverThrows | sms/StorageContainer.cc:1725-1737 | In a run where no container is closed before its first file, no event throws |
| LiveRun.Drain | sms/LiveClient.cc:220-557 | After more ready events that take something than there are bytes and files left, the client waits for nothing |
| LiveRun.NothingLeftBehind | sms/LiveClient.cc:560-990 | When all is closed and sent, every announced file was queued in order, exactly once, and sent or rightly skipped |
| LiveRun.Deliver | sms/LiveClient.cc:220-990 | All is delivered: in a run that storage ends properly, on a smooth socket that is ready often enough, every announced file is queued once and in order and everything it owes is sent |
| MarkerMerge.MergeQueues | sms/Markers.cc:1078-1260 | The merge loop over eight iterators computes the merge of the queues |
| MarkerMerge.MergedKeepsQueues | sms/Markers.cc:1078-1260 | Of each queue the merge holds exactly its entries in their order |
| MarkerMerge.MergedSorted | sms/Markers.cc:1078-1260 | If every queue is sorted by time so is the merge |
| MarkerMerge.MergedIsTheOnlyOne | sms/Markers.cc:1078-1260 | For sorted queues the merge is the only order by time with ties broken by fixed queue priority |
| MarkerTrace.MergedIsHeld | sms/Markers.cc:1078-1260 | The merge takes every waiting entry exactly as often as it waits |
| MarkerTrace.DumpKeepsScanIndex | sms/Markers.cc:1160-1260 | A queued scan marker is dumped with the scan index and text it was queued with |
| MarkerTrace.DumpIsTrue | sms/Markers.cc:1160-1260 | Every packet of a dump says the text of the entry it takes or copies, whole up to 65535 characters and else cut there, at its time and in its queue’s kind; a scan marker with the index it was queued with |
| MarkerTrace.NotesInsideRuns | sms/Markers.cc:984-1049 | In an audited trace run notes are only emitted inside a run that is not paused |
| MarkerTrace.OneNotePerRun | sms/Markers.cc:984-1049 | With updates disabled any two run notes of an audited trace belong to different runs |
| MarkerText.UntagTagged | sms/Markers.cc:1205-1235 | The scan index written in front of a queued comment is read back exactly |
| MarkerAccounts.AccountsDump | sms/Markers.cc:1055-1286 | A dump keeps the account: a captured one takes nothing, any other takes everything |
| MarkerAccounts.AccountsTakeNote | sms/Markers.cc:984-1049 | Taking one run note keeps the account and the note rule |
| MarkerModel.Markers.Emit | sms/Markers.cc:1362-1433 | One packet is added to the trace, with this time, kind and index, and prefix and comment as its text, whole up to 65535 characters and else cut there; nothing else changes |
| MarkerModel.Markers.Enqueue | sms/Markers.cc:630-648 | One entry joins the end of one queue and the account of entries |
| MarkerModel.Markers.AddAnnotationComment | sms/Markers.cc:893-943 | Goes out at once inside an unpaused run, and is queued otherwise |
| MarkerModel.Markers.AddSystemComment | sms/Markers.cc:945-982 | Likewise for system comments |
| MarkerModel.Markers.AddScanComment | sms/Markers.cc:740-808 | Likewise for scan comments, queued with their scan index |
| MarkerModel.Markers.AddNotesComment | sms/Markers.cc:810-891 | A run note is emitted at most once a run while updates are disabled, and kept otherwise |
| MarkerModel.Markers.DumpRunNotesComment | sms/Markers.cc:984-1049 | Takes the first or last waiting note exactly when the run is live and may have one |
| MarkerModel.Markers.DumpQueuedComments | sms/Markers.cc:1055-1286 | Emits the merge of all queues exactly when the state it goes by is a live run, then empties them unless it is a capture |
| MarkerModel.Markers.OnPrologue | sms/Markers.cc:1288-1352 | A prologue of a live run empties the queues, a captured one emits copies and leaves them intact; last it says what scan or pause goes on; nothing else is said |
| MarkerModel.Markers.ChangeRecording | sms/Markers.cc:1288-1352 | Any number of new files make of queues, run note and trace exactly what one after the other makes of them |
| MarkerModel.Markers.PauseRun | sms/Markers.cc:376-429 | The pause marker goes out first, with the right index and phrase, and then exactly what the new files say; the queues stay as they are, but for the entry that joins outside a run; a passed-through pause only notes itself |
| MarkerModel.Markers.ResumeRun | sms/Markers.cc:431-486 | The resume marker goes out last, after exactly what the new files say; the queues stay as they are, but for the entry that joins outside a run or a dump that empties them in one |
| MarkerModel.Markers.StartScan | sms/Markers.cc:493-541 | The scan marker always goes out with its index, and is queued as well exactly when the run is not live |
| MarkerModel.Markers.StopScan | sms/Markers.cc:543-592 | Stops it likewise |
| MarkerModel.Markers.StopHangingScan | sms/Markers.cc:342-356 | A hanging scan is stopped under its own index, and queued as well only before a run |
| MarkerModel.Markers.ResumeHangingPause | sms/Markers.cc:214-245 | A hanging pause is resumed, said behind what the new files say and queued behind what was queued or dumped; without one nothing changes |
| MarkerModel.Markers.ResumeAtStop | sms/Markers.cc:302-334 | A pause that hangs at the stop is resumed after the queues of the run have been dumped; the new files do not mention the scan |
| MarkerModel.Markers.BeforeNewRun | sms/Markers.cc:202-288 | A hanging pause and a hanging scan are ended and queued for the run to say, the run is announced a nanosecond later in the queue, and it begins unpaused without a scan; what was queued before the run still is; and every packet said on the way is given |
| MarkerModel.Markers.RunStop | sms/Markers.cc:290-374 | All that is queued at the end of an active run is emitted, the run note first and the rest by time; outside a run it stays queued; last, a hanging scan is stopped and the stop is said; the run ends unpaused, without a scan and with its note forgotten; every packet said on the way is given |
| MarkerRun.Perform | sms/Markers.cc:202-1352 | Any operation queues exactly what is said of it as a function of the run state, and the end of an active run leaves nothing queued untaken |
| MarkerRun.Run | sms/Markers.cc:202-1352 | Over any history of operations, each entry queued before an active run is stopped has been taken exactly once before the stop is said, by a packet with its time, its kind, its text as far as 65535 characters and, for a scan marker, its index; nothing is taken that was not queued; run notes are in order |
| LogHistory.NeverSilentForLong | common/ADARAUtils.h:478-551 | However hard a message thrashes, fewer than `rate` calls in a row stay unlogged |
| LogHistory.UnloggedIsPlace | common/ADARAUtils.h:478-551 | The number of calls since the last logged one is the place in the thrashing streak modulo the rate |
| LogHistory.CountSinceSorted | common/ADARAUtils.h:434-460 | The calls in the window are the last ones |
| RateLimiter.MarkOld | common/ADARAUtils.h:434-455 | Exactly the leading entries that have left the window are marked, keeping only whether they were logged |
| RateLimiter.CountNew | common/ADARAUtils.h:484-489 | Counts the entries since the last logged one |
| RateLimiter.EraseChunks | common/ADARAUtils.h:512-527 | Marked entries are erased in whole chunks of `log_rate` |
| RateLimiter.EraseOld | common/ADARAUtils.h:557-563 | All leading marked entries are erased |
| RateLimiter.StripChunksTakes | common/ADARAUtils.h:512-527 | What the chunk loop erases is a multiple of `log_rate` and only entries that have left the window |
| RateLimiter.Decides | common/ADARAUtils.h:456-482 | Counting the kept entries in the window decides thrashing exactly like counting all calls ever made |
| RateLimiter.CheckRefinesHistory | common/ADARAUtils.h:395-571 | The pruned vector logs a call exactly when the full history says so, goes on standing for the history, reports the right number of calls in the window and since the last logged one, and announces a reset exactly when it holds enough calls for thrashing and too few of them are recent |
| RateLimiter.RunCheck | common/ADARAUtils.h:395-571 | The imperative check is the function the refinement is about |
| RateLimiter.RateLimitedLogging.CheckLog | common/ADARAUtils.h:395-571 | Per message kind: the decision and commentary are those of the full history of its calls, and a reset is announced when the calls on record are enough for thrashing and the recent ones are not |
| RateLimiter.FirstSecondMiscounts | common/ADARAUtils.h:447-451 | At clock second 1 a logged call cannot be told from an old one: the fourth call at time 1 is logged though it should not be |
| DeviceTables.IdsAreDistinct | sms/MetaDataMgr.cc:110-430 | What consistency says of the tables themselves |
| DeviceTables.ReinstateKeeps | sms/MetaDataMgr.cc:221-258 | A device that comes back keeps the tables consistent |
| DeviceTables.AllocateKeeps | sms/MetaDataMgr.cc:284-297 | A new device keeps them consistent if and only if its id is in use by no live or remembered device |
| DeviceTables.WrapForgetsRemembered | sms/MetaDataMgr.cc:287-291 | Once the counter has wrapped, an id that is not active may belong to a remembered device: a concrete case |
| DeviceTables.DropKeeps | sms/MetaDataMgr.cc:131-205 | Dropping a source keeps them consistent and forgets no described device |
| DeviceTables.ReturnsAsItWas | sms/MetaDataMgr.cc:110-258 | A described device whose source drops is no longer active, and comes back with the same id and descriptor |
| DeviceTables.UpdateIs | sms/MetaDataMgr.cc:311-430 | What a descriptor changes: its device keeps its id, no other device is touched, and the stream gets exactly what a reader has not seen |
| DeviceTables.IdLasts | sms/MetaDataMgr.cc:311-430 | A device described at one operation of a run has the same id at every later one until it is undefined |
| DeviceIds.MetaDataMgr.LookupMappedDeviceId | sms/MetaDataMgr.cc:207-217 | The id of a live device, 0 for none |
| DeviceIds.MetaDataMgr.LookupOldMappedDeviceId | sms/MetaDataMgr.cc:221-258 | Reinstates a remembered device under its old id, or changes nothing |
| DeviceIds.MetaDataMgr.NextId | sms/MetaDataMgr.cc:284-293 | The least id from the counter on that no live device has; the counter starts over at 1 from the reserved range |
| DeviceIds.MetaDataMgr.AllocDev | sms/MetaDataMgr.cc:260-309 | A known device gets the id it was given; until the counter wraps all ids stay distinct |
| DeviceIds.MetaDataMgr.UpdateDescriptor | sms/MetaDataMgr.cc:311-430 | Unchanged, changed, emptied, new and returning descriptors, each with its effect on tables and stream |
| DeviceIds.MetaDataMgr.DropSourceTag | sms/MetaDataMgr.cc:110-205 | Both loops together drop exactly the source’s devices and ids |
| DeviceIds.Run | sms/MetaDataMgr.cc:110-430 | Over any run of allocations, descriptors and drops until the counter wraps, tables, counter and stream are those that the operations make one after the other; consistency holds; and a device described before or during the run keeps its id unless undefined |
| BankedEvents.BankedEventPkt.FirstEvent | common/ADARAPackets.cc:320-330 | On any well-formed payload: the first event of the flattened list with its bank and flag, or none |
| BankedEvents.BankedEventPkt.NextEvent | common/ADARAPackets.cc:332-368 | Moves on by exactly one event of the flattened list; past the last one there is none, ever |
| BankedEvents.BankedEventPkt.FirstEventInSource | common/ADARAPackets.cc:376-405 | Entering a source keeps the events still to be read |
| BankedEvents.BankedEventPkt.FirstEventInBank | common/ADARAPackets.cc:412-425 | Entering a bank does too |
| BankedEvents.ReadAll | common/ADARAPackets.cc:320-425 | Iterating yields exactly all events of all banks of all sources in order, empty ones included, each with its bank and with its source’s correction flag, which shares a word with the time offset; then null forever |
| FastMeta.SendUpdate | sms/FastMeta.cc:514-579 | The packet of a single update, with the time carried in 32 bits |
| FastMeta.SendMultUpdate | sms/FastMeta.cc:581-655 | The packet of a multiple update: one pair an event |
| FastMeta.ReadMultiple | common/ADARAPackets.cc:1861-1947 | The reader’s times and values are the packet’s pairs |
| FastMeta.ExtractLastValue | sms/MetaDataMgr.cc:854-910 | A single update for the last pair, with total time preserved and nanoseconds normalised |
| FastMeta.SingleAndMultipleAgree | sms/MetaDataMgr.cc:854-910 | Extracting the last value of a multiple update gives the packet of the single update of the last event if and only if the pulse nanoseconds and the flight time fit in 32 bits; both packets are stated |
| FastMeta.WrappingPulse | sms/FastMeta.cc:514-580 | A concrete case: a pulse of 2^32 - 1 nanoseconds gives different times for the single and the extracted update |
| MultStrings.Decode | common/ADARAPackets.cc:2138-2205 | The loop computes the parse; the remaining-byte counter stays a non-negative multiple of 4 |
| MultStrings.PairsNeedRoom | common/ADARAPackets.cc:2090-2118 | The check of the whole size rejects nothing that the pair checks would accept |
| MultStrings.PaddingFits | common/ADARAPackets.cc:2199-2204 | A string that fits in whole words has room for its padding |
| MultStrings.RoundTrip | common/ADARAPackets.cc:2138-2205 | Decoding the padded encoding of any list of (time, string) pairs returns that list, whatever follows |
| MultStrings.SendAndDecode | common/ADARAPackets.cc:2138-2205 | So for the decoder itself |
| BankSetLayout.NameSurvives | common/ADARAPackets.h:738-750 | A name read back is the name cut to sixteen characters |
| BankSetLayout.StartGrows | sms/DetectorBankSet.cc:986-988 | Sections are disjoint and in order |
| BankSetLayout.PayloadAt | sms/DetectorBankSet.cc:714-766 | Each section lies where its offset says |
| BankSetLayout.SectionsLength | sms/DetectorBankSet.cc:986-993 | The sections exactly fill the payload |
| BankSetLayout.SectionsWithChange | sms/DetectorBankSet.cc:714-766 | With a bank list of the same length only the set’s own section changes |
| BankSetLayout.StartsMove | sms/DetectorBankSet.cc:986-988 | A reader looks for the sections behind a changed one where they lie if and only if the length of its bank list is the same |
| BankSetLayout.ShorterListMisread | sms/DetectorBankSet.cc:714-766 | A concrete case: when the first of two sets loses its one bank the packet is still accepted, but the second set is read one word early and wrongly |
| BankSetLayout.LongerListRejected | sms/DetectorBankSet.cc:714-766 | A concrete case: when the first of two sets gets a bank the reader rejects the packet |
| BankSetLayout.ScanIsInside | common/ADARAPackets.cc:1280-1340 | For any payload whose scan succeeds, all sections lie inside it if and only if no section ends, as a sum, at 2^32 or beyond; then each lies behind the one before |
| BankSetLayout.WrappedSection | common/ADARAPackets.cc:1280-1340 | A concrete payload that is accepted although the 32-bit offset behind its bank list is 0xfffffff8 |
| BankSetLayout.ScanFindsSets | common/ADARAPackets.cc:1280-1340 | For a written payload that fits 32 bits the scan finds every section, whatever follows |
| BankSetLayout.ReadFindsSet | common/ADARAPackets.h:738-827 | The accessors return every set’s fields, with name and suffix cut to size |
| BankSetLayout.PayloadReadsBack | common/ADARAPackets.h:726-827 | A reader of a written payload gets all sets back in order, whatever follows it |
| BankSets.UpdatePacket | sms/DetectorBankSet.cc:714-766 | Writes exactly the set’s section and leaves the rest of the packet alone |
| BankSets.DetectorBankSet.constructor | sms/DetectorBankSet.cc:863-1016 | Offsets and size as computed; the packet is the sets’ payload behind its header |
| BankSets.DetectorBankSet.ChangeSet | sms/DetectorBankSet.cc:714-766 | A set is rewritten at the offset it was laid out for; the packet is then that of all sets if and only if the bank list keeps its length, and a reader gets them all back also if the last list has become shorter; writing beyond the packet is an outcome |
| BankSets.ReadOffsets | common/ADARAPackets.cc:1235-1364 | The scan loop on 32-bit offsets: too short, a bank count outside the payload, or the section and after-banks offsets as they wrap, which stay inside exactly when no sum wraps |
| BankSets.AnnounceAndRead | common/ADARAPackets.h:728-827 | Whatever sets are announced in a packet whose length fits its header, a reader gets them all back in order |

## Left out

- ParserModel.ReadStream: streams whose length fields reach 2^32 - 16 are excluded, where the 32-bit packet length is wrong (`PacketLengthIsExact`), and so are maxima above 2^31, where doubling the buffer would wrap.
- Intermittent sources: `setIntermittent` during `markComplete` re-enters the pulse list; packets of a source that is not intermittent are modelled.
- Pixel-data packets of the pulse tracker: counting, bandwidth statistics and the mapping of each event are not modelled, only which packets are delivered.
- Virtual callbacks of the parser: their default handlers and discard statistics are not modelled; a callback is an entry of the trace and its answer a parameter.
- Packet header words of the pixel map packets: only the payload of each is modelled.
- AltPixelWire.Walk: carries a step count so that its recursion ends; `RecountIsExact` shows the count to be the exact number of steps for every section written.
- The client’s checks of a malformed shorthand section (stc/StreamParser.cpp:887-950): sections that the service writes never meet them.
- Parsing of map file text: lines arrive as parsed fields, a plain id or `start:stop:step`.
- The eight marker queues are one indexed field, in the order of their fixed priority.
- Run note updates: `getRunNotesUpdatesEnabled` is a constant of the model.
- Time stamps of markers are counts of nanoseconds, without the wall-clock and EPICS forms of the same time.
- LiveRun.Run: file growth and its notification are one event, while storage may bundle several writes into one notification. For a pause-data setting that is not steady it is said event by event (`LiveRun.Handle`) whether an open file gets skipped.
- Files set inactive without a notification, as storage does for prologue header files it copies, are not modelled.
- Bandwidth, PV updates, logging text and rate-limited logging inside other classes.
- Live clients deleted on a failed socket: a client that is no longer alive promises nothing.
- RateLimiter.RateLimitedLogging.CheckLog: each message kind keeps the window, threshold and rate of its first call, as every caller in the repository does.
- RateLimiter.CheckRefinesHistory: the clock is taken to be past its first second; `FirstSecondMiscounts` is what happens before.
- Text of the commentary that the log limiter prepends. Its `reset` remark depends on the vector that is kept and not on the history alone.
- Variable values of devices and the packets that mark them disconnected; the device table keeps descriptors only.
- Fast metadata devices in the device tables: they carry device id -1 and source tag 0, which is never dropped.
- DeviceIds.MetaDataMgr.NextId: the counter is unbounded; it could pass 2^32 within one call only with 2^31 active devices.
- Field and word indices of the banked-event cursor are unbounded: payload lengths fit in 32 bits, so the indices of a well-formed packet do not wrap.
- BankSets.DetectorBankSet.ChangeSet: the source writes a section that does not fit beyond its packet; the model says when (`overran`) and nothing of the packet afterwards. The time that a change puts in the packet header is not modelled.
- BankSets.ReadOffsets: a bank count read outside the payload is an outcome of its own, as nothing is known of the words there.
- BankSets.AnnounceAndRead: payloads of 2^30 words and more are excluded, whose length in bytes does not fit the packet header.
- `getSourceTOFOffset` of banked events, which receives a boolean (common/ADARAPackets.cc:384-385).
- Decoding of multiple values whose count wraps the 32-bit size check: payloads are taken to hold the pairs they announce.
- FastMeta.SendUpdate: the default entry that a lookup of an unknown key would insert is excluded, as callers check the key first.
- Multiple updates of doubles, strings and arrays, which extract their last value the same way.
- Doubles in packets are two opaque words.
- Beam monitor cursors, run information, geometry and other small packet layouts would only add easy members.
- Combus messages, EPICS access, AutoSave and connection states depend on foreign libraries or system calls.
- Concurrency: the service is one event loop, and each model method is one callback of it.
