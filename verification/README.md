# MB_Gateway: request dispatch, register cache and discovery

MB_Gateway answers Modbus TCP requests for slaves that live on an I2C bus. Each slave has a table of
registers; handlers copy ranges of it from and to the device memory, a scanner decides which slaves
are listed, and a summary slave shows the list as input registers. This project models these parts in
Dafny and proves what they guarantee, for every request, every transfer failure and every run.

| part | files |
|---|---|
| words, big-endian registers, converters | `Words.dfy`, `Converters.dfy` |
| bus, register tables, handlers | `I2CComm.dfy`, `Mapping.dfy`, `MultiByteHandler.dfy`, `MultiRegisterHandler.dfy` |
| handler tables, lookup, plan of a request | `Dispatch.dfy`, `VirtualSlave.dfy` |
| `handleQuery`, the two-phase write, the cache over runs | `Connection.dfy`, `Serving.dfy`, `CacheRuns.dfy` |
| slaves | `GenericSlave.dfy`, `SummarySlave.dfy`, `IOBoard.dfy`, `FunctionPage.dfy` |
| the data of an IO board: locks, overruns, concrete inputs | `BoardData.dfy`, `Overruns.dfy`, `BoardExamples.dfy` |
| a board by register position | `BoardPositions.dfy` |
| replies to writes against what the device holds | `WriteReplies.dfy` |
| discovery | `SlaveList.dfy`, `Scanner.dfy` |
| server rounds, memory dump, port words | `Server.dfy`, `Dump.dfy`, `PinWords.dfy` |

## Main results

| what | members |
|---|---|
| one pass over a request, in each of three modes | `HandleQuery` |
| one request and every run of requests: replies, tables, device, cache | `Serve`, `ServeAll`, `WriteThenRead` |
| what reads fetch and writes store | `AcceptedReadFetchesRange`, `FinishedWriteReachesDevice` |
| when a request goes past its end, and what it then overwrites | `UnclippedIsExact`, `ClippedIsOverrun`, `UnclippedWriteIsConfined`, `ClippedWriteOverruns` |
| when an answered write has reached the device | `FinishedWhen`, `RefusedHarmlessWhen`, `BoardWriteFinishesWhen`, `UnclippedStoredReachesDevice` |
| what a board answers at every register position | `ReadRegister`, `WriteRegister`, `ReadPosition` |
| when data of a board can be read, over every run | `BoundsOverRun`, `DataReadAfter`, `PermDataLocks` |
| when requests from elsewhere reach permanent data | `TouchesWhen`, `OneCallTouches`, `WriteSparesPermanentData`, `WriteHitsPermanentData` |
| which requests the generic and the summary slave answer | `GenericReadAccepted`, `GenericWriteAccepted`, `ReadSummary` |
| discovery, from the bus to the client | `ListedIffSeen`, `Discover` |
| server rounds, memory dump, port words | `Run`, `Starve`, `FormI2CDump`, `PortWords` |

## How the main results are put together

`PlanFrom` is the sequence of segments (handler, position, count handed over, registers done) that the
lookups of a request determine by themselves. `HandleQuery` is the loop of the source, with its 16-bit
`cur_address` and `register_done`; its contract `Outcome` says that in each of the three modes the
finished segments are a prefix of that plan, and all of a complete plan exactly when it returns true.
So the write pass revisits the segments the check pass visited. The loop terminates for all 16-bit
positions and counts, and `cur_address` never wraps, because handlers sit only where a table of at most
0x8000 registers has registers.

`Serve` is one request; its state is a `Snapshot` of both tables, the device and the handler bounds. The
ghost field `clean` holds the registers known to equal their device bytes. `Serve` keeps that invariant
whatever transfers fail (a failed write may have stored any number of leading bytes), and `ServeAll`
keeps it over every run. Its history is a chain of states: each step does to tables, device and bounds
what `Served` says, and its reply is the one `Replied` says.

A check pass makes the same calls whatever the state is (`CheckedIsLog`), so `Locks` says of a request
alone which data handlers its check gives the bounds of the RAM data. Over every run the bounds of a data
handler have changed exactly when some write of the run locks it (`BoundsOverRun`).

Polymorphic handlers are a datatype over two handler classes; the overrides of the derived classes are
the `Kind` of a `MultiByteHandler`.

## What the code does not do

Each of these is stated as a lemma or contract below.

- A count that does not fit its block is clipped to `end - count + 1` (src/base/Connection.cpp:224), not to
  the end of the block; the two agree exactly when the remaining count equals the position
  (`ClipReachesBlockEnd`). A request without a badly clipped position is served exactly (`UnclippedIsExact`)
  and its write touches payload bytes only (`UnclippedWriteIsConfined`); with its first position badly
  clipped it goes past its end (`ClippedIsOverrun`, `ClippedWriteOverruns`). `ClippedRequestOverruns` is a
  request for 4 registers that reaches 148, and `ClippedWriteOverwrites` what that write does to the device.
- The check pass of a data handler compares with the RAM data, also for permanent data. No write that starts
  in the permanent data is accepted, and an aligned one makes the permanent data unreadable for requests
  that start there: `PermWriteRejected`, `PermDataLocks`. `DataReadAfter` says exactly when a read of
  RAM or permanent data is answered after any run; the same lock shrinks the RAM data (`RamDataShrinks`).
- Requests that start in front of the permanent data and run into it are bound by none of this, for the
  handlers in front of it do not know where it is. `PassTouches`, `TouchesWhen` and `OneCallTouches` say exactly
  when a request has registers of it, the lemmas after them what that does to table and device, and
  `LockedYetServed` is a run that writes and reads permanent registers after they were locked.
- The check pass does not look at the table size, so oversized writes pass it: `OversizedWriteHarmless`.
- Register 127 of a generic slave cannot be read on its own: `GenericReadAccepted`.
- `MultiRegisterHandler` copies half of the registers it reports: `CopyBytesIsCompleteWhen`.
- A round without data leaves the connections waiting, and waiting connections are not watched: `Starve`.
- The function page caches a shifted code: `SelectedAgreesWhen`.
- The summary loop stops before address 255: `SummaryPass`.
- The reply to a write is sent before the write pass and does not depend on it. `StoredAndLost` is a write that
  is acknowledged and never reaches the device, `RefusedAndDone` one that is answered by an exception and
  carried out with old table registers. `FinishedWhen` and `RefusedHarmlessWhen` say exactly when that happens
  on any slave, `BoardWriteFinishesWhen` and `HoldingWriteFinishesWhen` on a board; an acknowledged write does
  reach the device on a board when no position of it is badly clipped (`UnclippedStoredReachesDevice`), and
  always on a generic slave (`GenericStoredReachesDevice`), as long as no transfer fails.

## Assumptions about code that is not part of this model

`MBBlockInt` bounds are inclusive. `checkRange` demands that all registers of a call lie within the bounds.
The `enable*` flags are true unless a constructor clears them. `Read_I2C_Bytes` returns data from index 0 of
its buffer; `Write_I2C_Bytes` takes address bytes and then data. `Convert` is big-endian. `modbus_reply`
keeps the limits of the protocol, 125 registers of a read and 123 of a write; it stores an in-range write
payload of the announced length and otherwise answers by an exception and leaves the table alone. A connection
is created open. `MAX_I2C_SLAVE_ADR` is at most 255. The board constants and the pin function codes are
parameters; layout hypotheses are the predicates
`PrefetchFits`, `BoardFits` and `PlainLayout`, which `ExampleLayoutFits` and `ExampleIsPlain` show to hold of one layout. The host is little-endian.
The device memory changes only by the gateway's writes.

## Model

| member | source | states |
|---|---|---|
| Words.BytesRoundTrip | src/base/Connection.cpp:88-115 | bytes to registers to bytes gives the bytes back, followed by one zero exactly when their number is odd |
| Words.RegistersRoundTrip | src/base/Connection.cpp:88-115 | registers to bytes to registers is the identity |
| Words.RegistersRoundTrip16 | src/base/Connection.cpp:88-106 | through the 16-bit byte count the identity holds exactly up to 32767 registers; beyond, the first `n % 0x8000` registers come back |
| Converters.WriteBeByteToMBReg | src/base/Connection.cpp:88-102 | the destination range becomes the packed bytes, nothing else changes |
| Converters.WriteMBRegToBeByte | src/base/Connection.cpp:104-115 | the destination range becomes the unpacked registers, nothing else changes |
| I2C.I2CComm.ReadBytes | src/I2C/Handler/MultiByteHandler.cpp:99-119 | a successful transfer fetches the memory at the address formed from the leading buffer bytes |
| I2C.I2CComm.WriteBytes | src/I2C/Handler/MultiByteHandler.cpp:207-264 | a successful transfer stores all data bytes; a failed one stores any leading part of them and nothing else |
| ByteHandlers.MultiByteHandler.PutAddress | src/I2C/Handler/MultiByteHandler.cpp:99-115 | the buffer then addresses byte `2 * address` modulo 65536, unless 8-bit mode cannot |
| ByteHandlers.MultiByteHandler.HandleRead | src/I2C/Handler/MultiByteHandler.cpp:25-163 | the guard of the handler class decides; a success fetches exactly the reported registers of the one table of the function code from the device, a failure changes no register |
| ByteHandlers.MultiByteHandler.HandleWrite | src/I2C/Handler/MultiByteHandler.cpp:165-267 | a success stores the registers of the range big-endian in the device, a failure may store a leading part, a refused call nothing |
| ByteHandlers.MultiByteHandler.CheckWrite | src/I2C/IOBoardSlave.cpp:103-123 | what the check reports, and that an aligned check of a data handler always leaves the RAM bounds behind |
| ByteHandlers.VersionReadsExactly | src/I2C/IOBoardSlave.cpp:52-73 | the version handler lets exactly the one request for the whole version through |
| ByteHandlers.ReadsWhen | src/I2C/IOBoardSlave.cpp:52-101 | by number, which reads each handler class lets through: inside the table of the function, the version as a whole, data in aligned pairs within the bounds |
| RegisterHandlers.MemCopy | src/base/handler/MultiRegisterHandler.cpp:80-88 | a byte-wise copy, also when source and destination are the same table |
| RegisterHandlers.CopyBytesIsCompleteWhen | src/base/handler/MultiRegisterHandler.cpp:80-88 | copying as many bytes as registers are reported transfers the range exactly when the unreached half agrees already |
| RegisterHandlers.MultiRegisterHandler.HandleRead | src/base/handler/MultiRegisterHandler.cpp:21-98 | guard, reported count and the exact new contents of both tables |
| RegisterHandlers.MultiRegisterHandler.HandleWrite | src/base/handler/MultiRegisterHandler.cpp:100-149 | guard, reported count (none for function 6) and the exact new contents of the store |
| RegisterHandlers.CheckThenWrite | src/base/handler/MultiRegisterHandler.cpp:100-165 | the check accepts what the write then refuses exactly for function 6 and for a range past the table; a refused write leaves the store alone |
| Dispatch.ScanIsFirstMatch | src/base/Connection.cpp:208-231 | on disjoint blocks the last-match scan is a first-match scan |
| Dispatch.LastMatchDecides | src/base/Connection.cpp:208-231 | on any blocks, overlapping or not: one that clips the count to zero refuses, otherwise the last covering block decides |
| Dispatch.ScanIgnoresOrder | src/I2C/IOBoardSlave.cpp:280-330 | on disjoint blocks the order of the block list does not matter |
| Dispatch.ClipStaysInBlock | src/base/Connection.cpp:217-228 | the handler stays in its block exactly when the rest fits or lies between position and block end |
| Dispatch.ClipOvershoots | src/base/Connection.cpp:221-228 | exactly when the registers done with the clipped count are more than remain |
| Dispatch.PlanIsConsecutive | src/base/Connection.cpp:180-250 | every segment starts where the previous ended, below the bound, is not empty, and is the lookup at its position |
| Dispatch.PlanCompleteWhenCovered | src/base/Connection.cpp:180-299 | the plan is complete exactly when its segments reach the bound |
| Dispatch.BeyondRangeIncomplete | src/base/Connection.cpp:180 | a range past position 65535 is never completed |
| Dispatch.MapOnlyIsExact | src/base/Connection.cpp:189-198 | without blocks a plan is complete exactly when it covers the request exactly |
| Dispatch.ExactUnlessBadClip | src/base/Connection.cpp:180-299 | over disjoint blocks a complete plan goes past the request exactly when its last lookup was badly clipped |
| Dispatch.UnclippedIsExact | src/base/Connection.cpp:217-250 | a request of which no position would be badly clipped is covered exactly by a complete plan |
| Dispatch.ClippedIsOverrun | src/base/Connection.cpp:217-250 | with its first position badly clipped, a complete plan is one segment and goes past the request |
| Connections.Find | src/base/Connection.cpp:182-233 | the search loop finds what the lookup specification says |
| Connections.Call | src/base/Connection.cpp:235-291 | one handler call in any mode: what it reports, when, and what it leaves behind |
| Connections.HandleQuery | src/base/Connection.cpp:118-300 | in every mode the finished segments are a prefix of the plan, all of a complete plan exactly on success; the segment it stopped at was refused, unless a transfer failed; effects on tables, device and bounds |
| Serving.CheckedIsLog | src/base/Connection.cpp:258-271 | the calls of a check pass, and so the handlers it locks, are a function of the request alone |
| Serving.OutcomeDecides | src/base/Connection.cpp:235-299 | a pass succeeds exactly when all segments of a complete plan are let through, unless a transfer fails |
| Serving.Serve | src/base/Connection.cpp:350-402 | one request: reply, acceptance, new tables, device and clean set; a write that the check refuses changes neither table nor device; the cache invariant is kept |
| Serving.OtherFunctions | src/base/Connection.cpp:386-395 | exactly the functions other than 3, 4, 6 and 16 are answered as unsupported, and change nothing |
| CacheRuns.PlanOccupies | src/base/Connection.cpp:180-299 | the segments of a holding plan occupy exactly the registers from its position on, without gap |
| CacheRuns.AcceptedReadFetchesRange | src/base/Connection.cpp:242-250 | an accepted read over any number of segments makes the whole range equal to the device and touches nothing outside its segments |
| CacheRuns.FinishedWriteReachesDevice | src/base/Connection.cpp:375-379 | after a completely finished write, table and device hold the payload |
| CacheRuns.FinishedWriteConfinedWhen | src/base/Connection.cpp:221-228 | a finished write leaves device bytes outside the payload alone exactly when the registers behind it that a bad clip adds agreed before |
| CacheRuns.ExactWriteIsConfined | src/base/Connection.cpp:375-379 | a write with an exact plan touches only payload bytes, finished or not |
| CacheRuns.UnclippedWriteIsConfined | src/base/Connection.cpp:367-384 | a write without a badly clipped position touches only payload bytes, accepted or not, finished or not |
| CacheRuns.ClippedWriteOverruns | src/base/Connection.cpp:217-228 | a finished write whose first position is badly clipped stores old table registers behind the payload |
| CacheRuns.ServeAll | src/base/Connection.cpp:301-403 | over every run the clean registers equal their device bytes, the clean set is the one that the history determines, and each step starts where the one before it ended, changes what `Served` and answers what `Replied` says |
| CacheRuns.BoundsOverRun | src/I2C/IOBoardSlave.cpp:103-123 | over every run a data handler has new bounds exactly when some write of the run locks it |
| CacheRuns.StaysClean | src/base/Connection.cpp:350-384 | a clean register stays clean over every continuation that sends it no payload |
| CacheRuns.WriteThenRead | src/base/Connection.cpp:350-384 | what was stored and finished is what the next accepted read returns |
| WriteReplies.FinishedWhen | src/base/Connection.cpp:375-379 | on a working bus a write that the check accepts is finished, whatever it is answered, exactly when the write pass lets all of it through |
| WriteReplies.RefusedHarmlessWhen | src/base/Connection.cpp:375-379 | a finished write that is answered by an exception leaves the device alone exactly when all its registers agreed before |
| WriteReplies.GenericStoredWhen | src/base/Connection.cpp:367-384 | the reply to every write at a generic slave: acknowledged exactly for 1 to 123 registers of the announced number at a position up to 126 inside the table |
| WriteReplies.GenericStoredReachesDevice | src/base/Connection.cpp:375-379 | on a generic slave with a working bus an acknowledged write has reached the device |
| WriteReplies.BoardWriteFinishesWhen | src/I2C/Handler/MultiByteHandler.cpp:165-267 | on a board with a working bus an accepted write is finished exactly when its calls end inside the table |
| WriteReplies.UnclippedStoredReachesDevice | src/base/Connection.cpp:375-379 | on a board with a working bus an acknowledged write without a badly clipped position has reached the device |
| WriteReplies.HoldingWriteFinishesWhen | src/base/Connection.cpp:221-228 | a write to functions, names or shared data that its first call takes is accepted, and finished exactly when position plus clipped count stay in the table |
| GenericSlaves.NewI2CSlave | src/I2C/I2CSlave.cpp:16-50 | the constructed slave has the handler tables of the model |
| GenericSlaves.GenericPlan | src/I2C/I2CSlave.cpp:42-47 | the plan of any request, also where the doubled count loses its top bit |
| GenericSlaves.GenericReadAccepted | src/I2C/I2CSlave.cpp:24-47 | function 3 is let through exactly for count 0, or a position up to 126 and a range up to 128 |
| GenericSlaves.GenericInputRejected | src/I2C/I2CSlave.cpp:24-47 | function 4 with registers in it is never let through |
| GenericSlaves.GenericWriteAccepted | src/I2C/Handler/MultiByteHandler.cpp:227-283 | what check pass and write pass let through, for all positions and counts |
| GenericSlaves.OversizedWriteHarmless | src/I2C/Handler/MultiByteHandler.cpp:269-283 | an accepted write past the table changes neither table nor device |
| GenericSlaves.ReadGeneric | src/base/Connection.cpp:352-366 | the reply to every read on a working bus: there are values exactly for up to 125 registers at a position up to 126 inside the table, and they are those of the device |
| SlaveLists.SlaveList.AddSlave | src/base/SlaveList.cpp:37-62 | a slave is entered only where none is listed, under its own address |
| SlaveLists.SlaveList.RemoveSlave | src/base/SlaveList.cpp:64-74 | exactly the given address is removed, and its slave returned |
| Scanners.ListedIffSeen | src/I2C/I2CScanner.cpp:83-110 | after every trace an address is listed exactly when found in one of the last 7 scans; its counter then counts the scans since; counters never exceed 7 |
| Scanners.ListedForSix | src/I2C/I2CScanner.cpp:99-107 | an address found once and then missed is listed for six scans and not after seven |
| Scanners.TypeSinceListed | src/I2C/I2CScanner.cpp:131-159 | a listed type is the board's number exactly when the scan that listed the address was answered as a board, and 0x10 otherwise (both when the numbers are equal); it has been listed ever since |
| Scanners.Scanner.Step | src/I2C/I2CScanner.cpp:83-110 | one scan advances every scanned address by its automaton and leaves other listed slaves alone |
| Scanners.Scanner.ScanAll | src/I2C/I2CScanner.cpp:67-127 | the window and the counter bound for the list itself, over every run |
| SummarySlaves.NewSummarySlave | src/base/SummerySlave.cpp:126-172 | the constructed slave has the handler table of the model |
| SummarySlaves.SummaryPlan | src/base/SummerySlave.cpp:156-168 | one register at a time below 256, then the rest in one call; complete and in range exactly up to position 260 and 266 registers |
| SummarySlaves.SummaryReadAccepted | src/base/handler/MultiRegisterHandler.cpp:39-59 | function 4 is let through exactly for count 0, or a position up to 260 and a range up to 266 |
| SummarySlaves.SummaryPass | src/base/SummerySlave.cpp:86-111 | after one pass registers 0 to 254 hold the listed types or 0, 256 to 260 the five pool figures modulo 65536 in order or what was there without a pool, 255 and 261 to 265 what was there |
| SummarySlaves.ReadSummary | src/base/handler/MultiRegisterHandler.cpp:21-98 | a read at the summary slave has values exactly for up to 125 registers at a position up to 260 inside the table, and which |
| SummarySlaves.ScannedIsSummarized | src/base/SummerySlave.cpp:89-98 | a summary value is non-zero exactly for an address in the window, and is its type |
| SummarySlaves.Discover | src/base/SummerySlave.cpp:85-111 | from any scanner trace through one summary pass to the values of every read of up to 125 registers: per address zero or the type found by the scan that listed it, then the five figures, index by index |
| IOBoards.InitBoard | src/I2C/IOBoardSlave.cpp:143-336 | pin count, handlers with their bounds, and the handler table |
| IOBoards.GetSlaveInfo | src/I2C/IOBoardSlave.cpp:338-468 | every transfer is attempted, in order; whatever fails, the registers of those that succeed equal the device and are clean, and all others are unchanged |
| IOBoards.TransfersAre | src/I2C/IOBoardSlave.cpp:359-467 | the transfers one by one: slave, byte address and length of ID, version, pin count, functions and each name |
| IOBoards.PrefetchShows | src/I2C/IOBoardSlave.cpp:359-467 | after a prefetch without failures, which registers equal the device, by register number |
| IOBoards.GotAllIsPrefetched | src/I2C/IOBoardSlave.cpp:359-467 | when all transfers succeed these are the registers of ID, version, pin count, functions and all names |
| IOBoards.NewIOBoard | src/I2C/IOBoardSlave.cpp:125-138 | without the pin count the slave has no handlers; with it, on a fitting layout, it is a board with the transferred registers clean |
| BoardData.IOBoardIsBoard | src/I2C/IOBoardSlave.cpp:264-330 | an initialized board has what the results on boards rest on |
| BoardPositions.PositionHandler | src/I2C/IOBoardSlave.cpp:269-291 | which handler sits at each of the seven positions of the map |
| BoardPositions.PositionReadAccepted | src/I2C/IOBoardSlave.cpp:269-291 | a read from one of the seven positions is let through exactly inside the table, the version only as a whole |
| BoardPositions.PositionWriteChecked | src/I2C/IOBoardSlave.cpp:269-291 | a write from one of the seven positions is accepted exactly at the two ports and the bus address, and finished exactly inside the table |
| BoardPositions.ReadPosition | src/base/Connection.cpp:352-366 | the reply to a read of any length from one of the seven positions, with the values of the device |
| BoardPositions.ReadRegister | src/I2C/IOBoardSlave.cpp:264-330 | the reply to a read of a single register, for all 65536 positions: which are answered, with the register of the device |
| BoardPositions.WriteRegister | src/I2C/IOBoardSlave.cpp:264-330 | the reply to a write of a single register, for all 65536 positions: which are stored, what the device then holds, and that nothing else changes |
| BoardData.HoldingBlockAccepted | src/I2C/IOBoardSlave.cpp:293-330 | a request in functions, names or shared data whose first call takes all of it is one segment, of the clipped count; the check lets it through, read and write exactly inside the table |
| BoardData.DataReadAccepted | src/I2C/IOBoardSlave.cpp:75-101 | a read inside RAM or permanent data is let through exactly when aligned and within the current bounds |
| BoardData.DataWriteChecked | src/I2C/IOBoardSlave.cpp:103-123 | a write inside a data block is let through exactly when aligned and within the RAM bounds, and locks its handler exactly when aligned |
| BoardData.DataReadLeaves | src/base/Connection.cpp:217-250 | a read that starts in a data block, whatever its length, is let through exactly when its calls in the block are aligned, within the bounds and in the table, and what they leave is let through as a request of its own |
| BoardData.PermWriteRejected | src/I2C/IOBoardSlave.cpp:114-118 | no write that starts in the permanent data is accepted; it locks the permanent data exactly when aligned after the clip |
| BoardData.DataReadAfter | src/I2C/IOBoardSlave.cpp:75-123 | after any run, exactly when a read that starts in RAM or permanent data is answered, inside the block or past it: the RAM bounds hold if a write of the run locked the handler, else the bounds before the run; readable permanent data stays readable exactly as long as no write locks it |
| BoardData.PermDataLocks | src/I2C/IOBoardSlave.cpp:75-123 | after one aligned write attempt no read that starts in the permanent data is answered, whatever transfers fail and whatever is served in between |
| Overruns.PassTouches | src/base/Connection.cpp:182-250 | any pass has registers of the permanent data exactly when one of its calls starts there or, by position, remaining count and block, crosses into it |
| Overruns.TouchesWhen | src/base/Connection.cpp:258-271 | an accepted write, or a read let through while the permanent data is locked, has registers of it exactly when one of its calls crosses into it |
| Overruns.OneCallTouches | src/base/Connection.cpp:217-228 | a request from outside that its first call completes has permanent registers exactly when that call crosses |
| Overruns.WriteSparesPermanentData | src/base/Connection.cpp:367-384 | a write of which no position crosses leaves the permanent data alone in table and device, whatever transfers fail |
| Overruns.WriteHitsPermanentData | src/base/Connection.cpp:367-384 | a finished write that runs into the permanent data stores the table there: payload, and old registers behind it |
| Overruns.LockedReadSparesPermanentData | src/base/Connection.cpp:352-366 | while it is locked, a read of which no position crosses does not fetch permanent data, and is not accepted if it asks for it |
| Overruns.ReadHitsPermanentData | src/base/Connection.cpp:352-366 | an accepted read that runs into the permanent data fetches it, locked or not |
| BoardExamples.ClippedRequestOverruns | src/I2C/IOBoardSlave.cpp:293-300 | on the example board a request for 4 registers at 150 is one segment of 148, and all three passes let it through |
| BoardExamples.ClippedWriteOverwrites | src/base/Connection.cpp:367-384 | that write leaves the payload in bytes 300 to 307, old table registers in bytes 308 to 595, and all other bytes as they were |
| BoardExamples.SecondCallCrosses | src/I2C/IOBoardSlave.cpp:303-311 | a request for 200 registers at 160 crosses into the permanent data with its second call, not its first |
| BoardExamples.LockedYetServed | src/I2C/IOBoardSlave.cpp:303-321 | after the permanent data was locked, a write of 100 registers at 200 is stored in permanent registers, and read back |
| BoardExamples.RamDataShrinks | src/I2C/IOBoardSlave.cpp:114-118 | after a stored write at 16, registers 24 and 25 can no longer be read |
| BoardExamples.StoredAndLost | src/base/Connection.cpp:375-379 | a write of 8 registers at 380 is acknowledged, leaves the device as it was, and the next read returns the old values |
| BoardExamples.RefusedAndDone | src/base/Connection.cpp:375-379 | a write of 100 registers at 200 with a payload of another length is answered by an exception and stores old table registers in 200 to 387 |
| FunctionPages.SelectFunction | src/webinterface/pages/I2C_IO_Board.ecpp:415-443 | what device and table hold afterwards, and that the cache invariant is kept |
| FunctionPages.SelectedAgreesWhen | src/webinterface/pages/I2C_IO_Board.ecpp:429-435 | the cached function register agrees with the device exactly for code 0 |
| Servers.SurvivorsAre | src/base/Server.cpp:199-205 | a connection survives the first loop exactly when it is not closed |
| Servers.SurvivorsInOrder | src/base/Server.cpp:199-205 | the surviving connections keep their order |
| Servers.Server.Prepare | src/base/Server.cpp:188-206 | closed connections are erased in place, the rest keep their order; open ones are watched and wait |
| Servers.Server.Dispatch | src/base/Server.cpp:228-256 | connections with data end open or closed, waiting ones are open again |
| Servers.Server.Round | src/base/Server.cpp:175-257 | who is dropped, watched and served in a round, and every status after it; none is busy between rounds |
| Servers.Server.Run | src/base/Server.cpp:175-258 | over every run of rounds, each list is what was not closed of the one before it, in order, followed by the newly accepted open connections; no connection leaves unless it was closed at the start of a round; none is busy at a round boundary; the statuses after a round with and without data |
| Servers.StaysUntilClosed | src/base/Server.cpp:199-205 | a connection in the list at the start of a round is in the last list unless it was closed at the start of that or a later round |
| Servers.Server.Starve | src/base/Server.cpp:193-223 | the connections watched or served in any number of rounds that start with all of them waiting are none |
| Dumps.FormI2CDump | src/webinterface/pages/I2C.ecpp:305-454 | for every start and stop the cells are the device bytes in order, each once, in consecutive row transfers; all of them unless a transfer fails |
| PinWords.PortWords | src/webinterface/pages/I2C_IO_Board.ecpp:617-675 | value and mask bit of every pin: requested with a code that acts, or configured as a switch |
| PinWords.PortBits | src/webinterface/pages/I2C_IO_Board.ecpp:627-670 | value and mask bit of each pin, by the codes switch, toggle and pulse and the two bytes of an entry |
| PinWords.ValueWithinMask | src/webinterface/pages/I2C_IO_Board.ecpp:617-675 | the value byte of a port word is contained in its mask byte |
| PinWords.ActionBytes | src/webinterface/pages/I2C_IO_Board.ecpp:682-687 | the data bytes are the port words, value byte first |

## Left out

- HandleQuery: register handlers are modelled in input tables only and input tables are only read, as in the shipped slaves; a register handler in a holding table could make `cur_address` wrap.
- Call: the same holds of single handler calls.
- HandleRead: an odd fixed byte count is excluded by `Valid`; the shipped handlers use -1 and 2. Its size test would not count the odd byte, which then lands past the table.
- HandleReadBase: the same holds of the base class.
- Units: the same restriction.
- HandleWrite: the same restriction, for an odd count would fill one byte more than `sendbuffer` holds; and a single-register write past the table, where the source reads past it.
- MultiRegisterHandler: its `enable*` flags are taken to be true, since no class clears them.
- GetSlaveInfo: more than 17 pins do not fit the buffer of the source, and after a failed read of the pin count the source goes on with an undefined one; the model stops there.
- NewIOBoard: the same restriction to 17 pins.
- InitBoard: the reuse of handlers over slaves through the global handler list, which shares handlers on the same bus.
- IsExample: the constants of `BoardExamples` are those of a layout that meets the hypotheses, not of the header that is not part of this model.
- SelectFunction: a pin whose register lies past the table, where the page writes past it.
- Select: which connections have data is any subset of the watched ones.
- Step: a bus that does not open or a scan that returns nothing changes nothing and is not a step.
- Serve: requests for unlisted slaves, rejected in one branch.
- ActionBytes: the transfer that follows; its length argument counts two bytes more than the buffer holds data.
- Sockets, accept and libmodbus framing: requests are records.
- Threads, mutexes, condition variables and the thread pool: each locked round, scan, pass or request is one step.
- Coil and discrete-input functions: rejected in one branch.
- Null handlers, null parameters and null I2C masters: each is rejected in one branch.
- HTML, sessions and authentication of the web pages: only the dump, the function page and the port words are modelled.
- Logging, command line, build files, scripts, monitoring modules and the test client: no state that matters here.
