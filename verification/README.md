# Verified model of the CEDA emulator core

The project models the parts of `ceda-cemu` whose behaviour depends on unbounded histories: the
floppy disk controller with its disk images, the ring buffers and the keyboard-to-CPU path they
carry, the interrupt latch, the memory map and the command line tokenizer. `dafny verify
dfyconfig.toml` checks all of it.

## How it is organised

Every component has a *value level* (datatypes and functions: one function per access, taking the
whole state to the next one) and a *program level* (a class with the program's variables and arrays,
or a method with the program's loop) whose methods are proved to compute exactly those functions.
What the program promises is then proved about the functions, over any number of accesses.

| files | content |
|---|---|
| `Bytes` | bytes, bit masks, small shared definitions |
| `Floppy`, `FloppyUnits` | image files: geometry, tiling, reading and overwriting in place |
| `FdcModel` | the controller as a state machine over port accesses |
| `FdcController` | the controller with its registers and buffers updated in place |
| `FdcInvariant`, `FdcTermination` | what holds in every reachable state; how long a command lasts |
| `FdcAdvance` | closed form of the ID register |
| `FdcProtocol` | whole command and result phases |
| `FdcReadStream`, `FdcWriteStream`, `FdcRoundTrip` | transfers as streams, and their round trip |
| `FdcSectors` | transfers in terms of the bytes of the image file and the argument bytes |
| `FdcZeroLength` | transfers with N = 0 and DTL = 0 |
| `FdcInsert`, `FdcSwap` | inserting a disk while a command waits; changing disks during a transfer |
| `FdcFormat`, `FdcSeek` | FORMAT; SEEK and SENSE |
| `FdcStrayRead` | reads, writes, status reads and terminal counts where the protocol does not expect them |
| `Fifo`, `FifoConcurrent` | the ring buffer, alone and shared by a producer and a consumer |
| `Interrupts`, `Serial`, `SerialDevices` | interrupt latch; keyboard and SIO/2 |
| `Bus` | memory map |
| `Tokenizer` | word splitter |

## Modelling decisions

- A failed assertion, an access outside a buffer and a call through a missing callback end the
  emulator. They are modelled by a `fault` that no later access changes, so that no statement needs
  a precondition against them; `FdcInvariant.StepKeepsInvariant` says exactly when they happen.
  Assertions are taken to be compiled in. The class methods are called only before a fault, as the
  program does not run after one.
- The host may do anything at any time: read the data register in the command phase, skip argument
  bytes, write during a read, change disks in the middle of a transfer. Only the theorems about a
  particular sequence of accesses fix that sequence.
- Image files may have any length. `fread` returns fewer bytes at the end of a file; `fwrite` beyond
  the end extends the file with zeros. The host's disk is never full.
- The raw unit/head byte is kept in the ID register, as the program keeps it. Records, cylinders and
  counters wrap as `uint8_t` where the program's do.
- `Cap`, `Room` and `Payload` follow the rule for N = 0: at most DTL bytes of a sector are
  transferred. `Sized` excludes N = 0 with DTL = 0, which `FdcZeroLength` treats.
- The statements through the ports name command bytes, argument bytes, ID bytes and image offsets
  themselves (`FdcProtocol.Commands`, `FdcSectors`, `FdcFormat.IdFields`), not through the functions
  of the model that decode them.
- Where `hide` statements occur in proofs they only keep definitions out of the solver's way.

## Where the code does less than one may expect

Each of these is proved for the whole family of inputs, with the condition under which the expected
property does hold.

- A transfer from record 0 (R = 0 as an argument; READ TRACK excepted) ends the emulator at its
  last argument, and nothing else but a leftover terminal count before FORMAT does so there
  (`FdcInvariant.LastArgument`). Once a READ or WRITE executes, nothing ends the emulator any more:
  an accepted record is at most 16, so its successor does not overflow even with EOT = 255
  (`FdcInvariant.TransfersSurvive`).
- Reading the data register in the command phase starts the last command over: one with arguments
  expects them again, so that the host's next command byte becomes the first of them; SENSE
  INTERRUPT takes one more drive, and ends the emulator if none is pending; an invalid command
  answers again. The controller stays in the command phase if and only if no command is selected,
  as after power-on or a restart (`FdcStrayRead.StrayRead`). The read does not check the command
  sequence as the command byte would (`FdcStrayRead.ReadRepeatsCommand`).
- Inserting a disk while a command waits is the same as inserting it first if and only if the first
  sector is accepted, or the file is too short to hold any of it and no access was made in between
  (`FdcInsert.InsertCommutes`). After a rejection the late order needs one more access to reach its
  result, and with a short file the interrupt line is up (`FdcInsert.InsertDiffers`).
- Loading an image into any drive, also one that is not in use, discards the rest of the sector that
  READ DATA is serving and the part of a sector that WRITE DATA has received
  (`FdcSwap.LoadSkipsSector`, `FdcSwap.LoadAbandonsSector`); the other transfer commands and FORMAT
  go on (`FdcSwap.OthersGoOn`).
- Unloading one drive disconnects all of them: until the next image is loaded, transfers wait as if
  every drive were empty (`FdcSwap.OtherDrivesGone`).
- A FORMAT with an ID field that names no sector leaves the terminal count pending
  (`FdcFormat.FormatEffect`, `FdcFormat.FormatRefused`). The next transfer then ends before its
  first byte, although its result names the sector after the first (`FdcFormat.FormatThenTransfer`,
  `FdcFormat.RefusedThenTransfer`). If the next command is another FORMAT, it takes no ID byte and
  at its last argument fills the sectors named by the bytes left in the buffer
  (`FdcFormat.StaleFormat`), after a failed FORMAT those sent for it (`FdcFormat.FormatThenFormat`).
- With N = 0 and DTL = 0 a READ returns the first byte of every sector but the first, and a WRITE
  claims a sector per byte and never writes one (`FdcZeroLength.ZeroLengthReads`,
  `FdcZeroLength.ZeroLengthNeverWrites`, `FdcZeroLength.ZeroLengthClaims`).
- FORMAT with no callbacks, as after unloading, waits silently, and terminal count then ends the
  emulator if it was to format any sector (`FdcFormat.FormatUnheard`).
- FORMAT stores ID bytes without a bound: more than 1024 end the emulator, however many sectors
  were announced (`FdcFormat.FormatOverflow`).
- `int_init` does not reset its counter (`Interrupts.InitRight`). That would take a second call with
  requests pending; the only caller, `src/ceda.c:69`, runs once, when the counter is still 0.
- The transmit buffer bit of the SIO/2 is never cleared, also while the queue is full and drops what
  is written (`Serial.RoomAlwaysShown`).
- A word buffer of one character never makes progress (`Tokenizer.NoProgress`), one of two or more
  always does (`Tokenizer.Progress`). No caller passes 1: the command line passes 128
  (`src/cli.c:36`), the configuration 8 (`src/conf.c:21`).
- The comment at `src/floppy.c:31-32` promises 0 on success; the functions return the sector length,
  and the model follows them.

## Model

| member | source | states |
|---|---|---|
| FdcInvariant.StepKeepsInvariant | src/fdc.c:646-705 | every access keeps the controller invariant (phase bits tell the phase, counters stay inside the buffer of their phase, a transfer never waits for record 0), and ends the emulator if and only if it is one of the listed faults |
| FdcInvariant.RunKeepsInvariant | src/fdc.c:947-1086 | the invariant holds after any sequence of data, status, terminal count, disk change and restart events |
| FdcInvariant.RunEnds | src/fdc.c:947-1086 | any sequence of events ends the emulator if and only if one of them is a listed fault when it is made |
| FdcInvariant.TransfersSurvive | src/fdc.c:741-787 | from power-on, after any events, no event ends the emulator while a READ or WRITE executes, nor does a disk change in any phase, because the next record is never 0 |
| FdcInvariant.LastArgument | src/fdc.c:741-742 | an argument byte ends the emulator if and only if it is the last one of a transfer from record 0 (READ TRACK excepted), or of a FORMAT that a leftover terminal count stops without a callback |
| FdcInvariant.StatusTells | src/fdc_registers.h:37-50 | the status byte has RQM set, DIO exactly in RESULT or in EXEC of a read, EXM exactly in EXEC, CB exactly outside CMD, and the busy drives in its low nibble |
| FdcAdvance.ClosedForm | src/fdc.c:781-806 | the ID after k sectors for every start record and EOT below 255, MT option and k: wraps and record by division by EOT, cylinder modulo 256, side and logical head alternating with MT |
| FdcProtocol.Issue | src/fdc.c:991-1051 | a command byte of the table and its arguments, written one by one, start that operation with exactly those arguments |
| FdcProtocol.Dispatch | src/fdc.c:97-190 | the low five bits of a byte select 02 READ TRACK, 03 SPECIFY, 05 WRITE DATA, 06 READ DATA, 07 RECALIBRATE, 08 SENSE INTERRUPT, 09 and 0C the deleted-data commands, 0D FORMAT, 0F SEEK; any other, or one out of sequence, is invalid |
| FdcProtocol.Drain | src/fdc.c:974-977 | reading the result phase returns the result bytes in order and ends the command |
| FdcStrayRead.StrayRead | src/fdc.c:957-962 | a read in the command phase returns ST0 and stays there if and only if no command is selected; otherwise it expects the last command's arguments again, senses one more drive, answers an invalid command again, or (SENSE without a drive) ends the emulator |
| FdcStrayRead.NextByteIsArgument | src/fdc.c:646-661 | the byte written next is stored as the first argument of the old command, and RECALIBRATE even starts |
| FdcStrayRead.ReadRepeatsCommand | src/fdc.c:623-644 | the read equals writing the old command byte again if and only if that is in sequence; out of sequence the byte would be refused |
| FdcStrayRead.SenseByRead | src/fdc.c:468-490 | after SENSE INTERRUPT one stray read and two result bytes report the next pending drive |
| FdcStrayRead.ReadSkipsArgument | src/fdc.c:963-966 | a read where an argument is expected returns 0 and counts as the byte left there before |
| FdcStrayRead.WriteSkipsResult | src/fdc.c:991-1051 | a write where a result is to be read counts as reading it |
| FdcStrayRead.StrayTerminalCount | src/fdc.c:1055-1063 | terminal count outside EXEC has no effect, now or later |
| FdcStrayRead.StatusPolls | src/fdc.c:947-953 | reading the status register lowers INT, and no later data access can tell it from not reading it |
| FdcReadStream.ReadStream | src/fdc.c:393-415 | n reads return the next n bytes of the concatenation of the sectors at start, advance(start), ...; after k whole sectors the ID register names the last of them |
| FdcReadStream.ReadRejected | src/fdc.c:673-684 | the access that meets a rejected sector returns 0, ends EXEC itself, and the result carries the error bits and the last sector served |
| FdcReadStream.ReadStopped | src/fdc.c:417-447 | terminal count reports the next sector without error bits and changes no disk |
| FdcWriteStream.WriteStream | src/fdc.c:278-326 | after any number of data writes the disk is the initial one with exactly the complete sectors replaced in advance order; the tail, whose length is the access counter, is only at the front of the buffer |
| FdcWriteStream.WriteRejected | src/fdc.c:830-914 | the byte after the last accepted sector is refused, changes no disk and reports the last sector written |
| FdcWriteStream.WriteStopped | src/fdc.c:328-360 | terminal count never writes the tail; the result names the sector after the last one claimed |
| FdcZeroLength.ZeroLengthReads | src/fdc.c:773-776 | a whole READ with N = 0 and DTL = 0: read i returns the first byte of the (i + 1)-th sector after the start, for any number of accepted sectors; the result names the sector after the last one |
| FdcZeroLength.ZeroLengthNeverWrites | src/fdc.c:865-868 | a whole WRITE with N = 0 and DTL = 0: while the command executes no data byte changes any disk, whatever the data, the disk and the callbacks |
| FdcZeroLength.ZeroLengthClaims | src/fdc.c:865-902 | in it every byte claims one more sector, and the byte that meets a missing one ends the command and reports the last one claimed |
| FdcRoundTrip.RoundTrip | src/fdc.c:278-447 | for any k accepted sectors, WRITE with data, terminal count and drained result, then READ with the same arguments, returns exactly the data; both results name the sector after the last |
| FdcRoundTrip.RoundTripFrame | src/floppy.c:153-210 | a WRITE through the ports changes no byte outside the sectors it fills, no other drive, and not the length of a file that holds a whole image |
| FdcRoundTrip.WriteThroughPorts | src/fdc.c:250-360 | a whole WRITE changes the disk by the write stream alone and leaves the controller idle |
| FdcRoundTrip.ReadThroughPorts | src/fdc.c:363-447 | a whole READ of k accepted sectors returns exactly their bytes and changes no disk |
| FdcRoundTrip.ReadResultClosedForm | src/fdc.c:426-435 | the result bytes of a READ of k accepted sectors are those of the closed form, for every R and EOT (EOT = 255 counts as 254) |
| FdcRoundTrip.ReadPastEnd | src/fdc.c:810-820 | a READ past the last accepted sector returns all bytes, then 0, and reports the last sector with the error bits |
| FdcRoundTrip.WritePastEnd | src/fdc.c:278-326 | a WRITE of k whole sectors and one byte more leaves all k on the disk, refuses the byte, reports the last sector with the error bits and is idle after the result |
| FdcRoundTrip.RejectedAtOnce | src/fdc.c:663-684 | a command whose first sector is rejected goes straight to its result, naming the start sector |
| FdcRoundTrip.StartReadTrack | src/fdc.c:227-237 | READ TRACK starts at record 1 whatever record it is given |
| FdcRoundTrip.InOrder | src/floppy.c:108-140 | two consecutive accepted sectors of a transfer lie in ascending order in the image |
| FdcRoundTrip.OneSideAccepted | src/floppy.c:108-128 | without MT, from side 1, or up to EOT, k sectors are accepted if and only if they lie within EOT and the side, on the current track with matching heads |
| FdcRoundTrip.TwoSidesAccepted | src/fdc.c:794-801 | with MT a run from side 0 beyond EOT is accepted if and only if its first part ends at EOT on side 0 and the rest, from record 1, lies on side 1 |
| FdcSectors.ReadWhole | src/fdc.c:729-821 | a READ of k whole sectors (N != 0, or DTL at least a sector) of one side returns exactly the bytes of the file from the start of sector R on, and the result bytes are given for every EOT and MT option |
| FdcSectors.ReadShort | src/fdc.c:773-776 | with N = 0 and a DTL less than a sector: the first DTL bytes of each sector |
| FdcSectors.ReadParts | src/fdc.c:393-415 | both cases, also if the file ends within the last sector |
| FdcSectors.ReadBothSides | src/fdc.c:788-801 | with MT a READ goes on behind EOT of side 0 with sector 1 of side 1 of the same cylinder |
| FdcSectors.WriteWhole | src/fdc.c:278-326 | a WRITE of exactly k whole sectors of one side puts the data at the start of sector R of the file, changes no other byte and no other drive |
| FdcSectors.WriteShort | src/fdc.c:865-868 | with N = 0 and a DTL less than a sector: DTL bytes of the data at the start of each sector |
| FdcSectors.RoundTripOnOneSide | src/fdc.c:278-447 | the round trip in these terms |
| FdcInsert.InsertCommutes | src/fdc.c:1074-1086 | command, any accesses, insert equals insert, command for READ DATA and WRITE DATA if and only if the first sector is accepted, or the file is too short for it and there was no access |
| FdcInsert.InsertDiffers | src/fdc.c:673-684 | otherwise: after a rejection one more access of any kind, or terminal count, makes them equal; with a short file they differ exactly in the interrupt line |
| FdcSwap.LoadSkipsSector | src/fdc.c:1079-1081 | loading an image into any drive while READ DATA serves a sector discards the rest of it; the next byte is the first one of the next sector |
| FdcSwap.OtherDriveSkips | src/fdc.c:1079-1081 | in another drive than the one being read this needs only that the next sector exists |
| FdcSwap.LoadAbandonsSector | src/fdc.c:1083-1085 | while WRITE DATA fills a sector it makes that sector's bytes never reach the disk; the next sector is filled from its start |
| FdcSwap.OthersGoOn | src/fdc.c:1079-1085 | the other commands in EXEC notice nothing but the new image and callbacks |
| FdcSwap.UnloadDisconnects | src/floppy.c:70-84 | unloading a drive, or loading a file that cannot be opened, empties it and, if it held an image, removes the callbacks for all drives |
| FdcSwap.OtherDrivesGone | src/floppy.c:70-84 | then READ DATA and WRITE DATA wait in every drive, whatever the accesses, although other drives hold images |
| FdcFormat.FieldLayout | src/fdc.c:561-567 | an ID field (cylinder, head, record, size) names a sector if and only if its cylinder is the head's track, its head byte the side and its record a sector of it; the disk is asked for that sector |
| FdcFormat.FormatEffect | src/fdc.c:493-601 | after FORMAT every byte of every sector named by the bytes sent is the filler, every other byte and the length of a whole image are unchanged, and error bits and a pending terminal count appear exactly when a field names no sector |
| FdcFormat.StaleFormat | src/fdc.c:673-684 | a FORMAT issued with a terminal count pending has the same effect at its last argument, for the ID fields left in the buffer |
| FdcFormat.FormatThenFormat | src/fdc.c:585-588 | FORMAT with a field that names no sector, its result, and a second FORMAT: the second formats at its last argument with the ID bytes sent for the first |
| FdcFormat.FormatWholeSide | src/fdc.c:559-576 | if the bytes sent name all sectors of the side in any order, the whole side is filler |
| FdcFormat.FormatRefused | src/fdc.c:528-541 | FORMAT without a disk or beyond track 79 changes no disk and reports the error at its last argument |
| FdcFormat.FormatUnheard | src/fdc.c:524-527 | FORMAT without callbacks waits without an interrupt, and terminal count then ends the emulator if and only if it was to format any sector |
| FdcFormat.FormatThenTransfer | src/fdc.c:585-588 | FORMAT, its seven result bytes and the next transfer: the controller is idle in between if and only if every ID field named a sector; otherwise that transfer goes from its last argument to its result, no byte transferred |
| FdcFormat.RefusedThenTransfer | src/fdc.c:528-541 | the same after a refused FORMAT, exactly if it was to format any sector |
| FdcFormat.PendingTerminalCount | src/fdc.c:673-684 | a pending terminal count ends any transfer before its first byte; the result names the second sector if the first was accepted, and the first otherwise |
| FdcFormat.FormatOverflow | src/fdc.c:546-550 | FORMAT ends the emulator if and only if it is sent more than 1024 ID bytes |
| FdcSeek.HistoryTells | src/fdc.c:451-490 | after any history of SEEK, RECALIBRATE and SENSE the busy bits and tracks are those of the abstract drive state after the same moves |
| FdcSeek.LastMoveShows | src/fdc.c:451-466 | by position in the history: a drive is on the cylinder of the last command that moved it, and busy if nothing was sensed since |
| FdcSeek.UnmovedStays | src/fdc.c:451-490 | a drive that no command moved is where it was, and busy only if it was |
| FdcSeek.SenseDrains | src/fdc.c:468-490 | sensing as often as drives are pending reports their tracks in ascending order and leaves none; one more sense is invalid |
| FdcSeek.InvalidAnswer | src/fdc.c:623-644 | an unknown or out-of-sequence command is answered by one byte with bit 7 set and no drive bits, and moves no head, busy bit or disk byte |
| FdcSeek.PlayMoves | src/fdc.c:604-619 | each head command through the ports does exactly what the abstract drive state says |
| FdcSeek.SeekThenSense | src/fdc.c:486-489 | a seek raises INT; sensed at once it reports seek end, the drive and its cylinder |
| FdcSeek.Senses | src/fdc.c:468-490 | a sense takes the lowest pending drive, and INT is up again if and only if another drive is pending |
| FdcSeek.SpecifyIsQuiet | src/fdc.c:241-247 | SPECIFY with any two arguments moves no head, marks no drive, changes no disk and raises no interrupt |
| FdcTermination.AccessCounts | src/fdc.c:646-693 | outside EXEC each access settles exactly one owed access, in EXEC none; phases never go back; nothing is owed exactly in CMD |
| FdcTermination.CommandOwes | src/fdc.c:97-187 | after its command byte, in any reachable command phase, a command owes its args_len arguments and result_len results |
| FdcTermination.ShortCommand | src/fdc.c:97-187 | in any reachable command phase, busy drives or not, any byte that selects a command without execution phase is followed by exactly args_len + result_len accesses, reads or writes, before the next command |
| FdcTermination.DataCommandEnds | src/fdc.c:1055-1063 | terminal count leads to RESULT, and exactly seven further accesses end the command |
| FdcTermination.ArgumentsEnd | src/fdc.c:663-684 | the last argument of a data command leads to EXEC or, after an error, to RESULT |
| FdcTermination.InterruptLine | src/fdc.c:409-413 | INT is down while arguments and results are exchanged, up after each read access, and up after a write access unless it was ignored for want of a disk |
| FdcTermination.ResetRecovers | src/fdc.c:916-935 | after a restart in any history no drive is busy, all heads are on track 0, INT is down, the disks stay and exactly the commands with arguments are taken |
| FdcController.Controller.PrepareRead | src/fdc.c:729-821 | the program's routine computes the specified outcome, buffer and registers |
| FdcController.Controller.CommitWrite | src/fdc.c:830-914 | likewise for claiming the next sector of a write |
| FdcController.Controller.ExecRead | src/fdc.c:393-415 | one byte served, the next sector loaded when needed, as specified |
| FdcController.Controller.ExecWrite | src/fdc.c:278-326 | one byte buffered, full sectors flushed, as specified |
| FdcController.Controller.PostExecFormat | src/fdc.c:552-601 | the loop over ID fields computes the specified disk and result |
| FdcController.Controller.PostExecSense | src/fdc.c:468-490 | the scan finds the lowest busy drive and clears it |
| FdcController.Controller.ComputeNextStatus | src/fdc.c:646-705 | one call crosses exactly the specified phases |
| FdcController.Controller.Out | src/fdc.c:991-1051 | a data write takes the whole state where the specification says |
| FdcController.Controller.In | src/fdc.c:947-989 | a data read returns the specified byte and state |
| FdcController.Controller.TcOut | src/fdc.c:1055-1063 | terminal count as specified |
| FdcController.Controller.KickDiskImage | src/fdc.c:1074-1086 | changing the callbacks retries a waiting READ DATA or WRITE DATA as specified |
| FdcController.Controller.LoadImage | src/floppy.c:51-68 | loading an image unloads the old one, stores the new one and kicks the controller |
| FdcController.Controller.UnloadImage | src/floppy.c:70-84 | unloading empties the drive and removes the callbacks |
| FdcController.Controller.Reset | src/fdc.c:916-935 | restart as specified |
| Floppy.Tiling | src/floppy.c:119-140 | byte i of an image lies in a sector exactly when that is the sector given by the inverse map, which is total: the sectors partition the image |
| Floppy.RegionsDisjoint | src/floppy.c:119-140 | two different sectors never share a byte |
| Floppy.Linear | src/floppy.c:86-93 | the dump is ordered by sector, head and track: each sector starts where its predecessor ends, from 0 to the whole size |
| Floppy.SectorReadsLastWrite | src/floppy.c:94-210 | after any series of sector writes a sector reads as its last write, or as at first |
| FloppyUnits.Units.Seek | src/floppy.c:108-140 | the stepwise unsigned offset never wraps and equals the closed formula; bad geometry is refused |
| FloppyUnits.Units.ReadBuffer | src/floppy.c:94-151 | returns the sector length or the bytes present in the file, copied to the front of the buffer |
| FloppyUnits.Units.WriteBuffer | src/floppy.c:153-210 | probes, or overwrites exactly the sector |
| Fifo.PushAppends | src/fifo.h:82-89 | inserting appends if and only if the ring is not full; on a full ring it empties it |
| Fifo.PopTakes | src/fifo.h:101-125 | extracting takes the oldest element if and only if there is one; peeking shows it |
| Fifo.Sizes | src/fifo.h:51-68 | the empty and full tests, COUNT and FREE measure the abstract queue for every size |
| Fifo.BothTestsNeeded | src/fifo.h:66-68 | for every size each disjunct of the full test is the only one to recognise some full ring |
| Fifo.RunRefines | src/fifo.h:41-160 | over any run a ring of N slots behaves as a queue bounded by N - 1 |
| Fifo.Buffer.Push | src/fifo.h:82-89 | the in-place insertion appends to the contents |
| Fifo.Buffer.Pop | src/fifo.h:101-111 | the in-place extraction returns and removes the oldest element |
| FifoConcurrent.ConsumedIsPrefix | src/fifo.h:43-111 | under every interleaving of one producer and one consumer, with separate reads of head and either order of slot read and head advance, what is consumed is a prefix of what is produced |
| FifoConcurrent.FullTestIsSafe | src/fifo.h:53-68 | the two reads of head by the full test never grant a slot that is not free |
| FifoConcurrent.ConsumerKeeps | src/fifo.h:101-111 | the slot just freed is still intact when it is read |
| FifoConcurrent.ProducerInserts | src/fifo.h:66-89 | the four steps of a producer alone are the insertion of the ring, or nothing on a full one |
| FifoConcurrent.ConsumerExtracts | src/fifo.h:101-111 | the three steps of a consumer alone are the extraction of the ring, or nothing on an empty one |
| Interrupts.PendingCounts | src/int.c:27-79 | in every reachable state the counter is the number of asserted requests |
| Interrupts.EventTells | src/int.c:27-79 | what a post, a withdrawal, a poll and an acknowledge do to every line; a poll raises the CPU line if and only if something is pending |
| Interrupts.PopDrains | src/int.c:55-79 | acknowledging until nothing is pending returns the posted bytes in strict priority order |
| Interrupts.LastPosted | src/int.c:27-36 | after any history an asserted request carries the last byte posted at its priority |
| Interrupts.LineDrops | src/int.c:73-75 | the CPU line drops exactly on the acknowledge that empties the latch |
| Interrupts.InitRight | src/int.c:81-85 | initialisation makes the counter right if and only if it was 0 |
| Interrupts.Controller.Acknowledge | src/int.c:55-79 | the priority scan in place |
| Serial.Conservation | src/sio2.c:350-393 | bytes read by the CPU, receive queue and keyboard queue together are four NULs and the pairs of the keys pressed while at most five bytes were queued, in order, if and only if no byte was dropped |
| Serial.CarefulLosesNothing | src/sio2.c:370-372 | nothing is dropped if the receiver is enabled at every poll and channel B is not reset |
| Serial.RunConserves | src/keyboard.c:199-251 | from any state, bytes move on in order and no pair is split while nothing is dropped |
| Serial.ControlShowsAvailable | src/sio2.c:106-121 | after any events the control port of channel B shows "character available" exactly when the receive queue is not empty |
| Serial.PollInterrupts | src/sio2.c:381-393 | a poll requests the SIO interrupt with the vector exactly if a channel with receive interrupts enabled has a character |
| Serial.KeyTells | src/keyboard.c:212-226 | a mapped key pressed is queued as (code, modifiers) if at most five bytes are queued, its release is ignored; a modifier flips exactly its bit |
| Serial.ModifiersTell | src/keyboard.c:47-64 | after any history a modifier bit tells the parity of its key's events |
| Serial.ModifiersSinceStart | src/keyboard.c:45-45 | since the start the two highest modifier bits are set and the others tell their keys |
| Serial.RegisterTells | src/sio2.c:197-292 | selecting a register and filling it sets exactly the receive interrupt, the vector, the receiver or the transmitter |
| Serial.CommandTells | src/sio2.c:148-195 | a byte to register 0 selects a register, takes the interrupt back or resets the channel |
| Serial.ReadTells | src/sio2.c:106-121 | a data read takes the oldest byte, or returns 0x55 and changes nothing |
| Serial.TransmitConserves | src/sio2.c:395-418 | of either channel, bytes taken by the peripheral and bytes waiting are those that waited and those the CPU added, in order, unless it was reset |
| Serial.RoomAlwaysShown | src/sio2.c:123-132 | the transmit buffer bit stays set in every state since the start |
| SerialDevices.KeyboardDevice.HandleEvent | src/keyboard.c:199-243 | the table scan queues a pair if both bytes fit, ignores releases and toggles modifiers |
| SerialDevices.KeyboardDevice.constructor | src/keyboard.c:189-197 | four NULs are queued at the start |
| SerialDevices.SioDevice.Poll | src/sio2.c:350-419 | the three loops over the channels receive, signal and transmit as specified |
| SerialDevices.SioDevice.WriteControl | src/sio2.c:280-292 | the register selected before is filled, with its effect on channel, vector and latch |
| SerialDevices.ChannelDevice.ReadData | src/sio2.c:106-121 | the oldest byte, or 0x55 from an empty queue |
| SerialDevices.ChannelDevice.WriteData | src/sio2.c:123-132 | a byte is queued unless the transmit queue is full |
| Bus.ReadsLastWrite | src/bus.c:68-119 | after any history of writes, switches, bank changes and restarts a read returns the last value written to an address that was then an alias of the one read now, else the first contents |
| Bus.ReadsSincePowerOn | src/bus.c:68-119 | after any history since power-on the CPU reads ROM byte a mod 0x1000 under the override, ROM byte a - C000 at C000-CFFF while not switched, else the last value written to an alias, or 0 |
| Bus.ReadsRom | src/bus.c:69-70 | the same from any memory contents |
| Bus.SwitchesTell | src/bus.c:121-163 | memory switch, bank and override are what the last event on each said |
| Bus.VideoWrites | src/video.c:476-482 | a write to the video window lands in character or attribute memory as selected last |
| Bus.LastIsShown | src/bus.c:68-119 | the same by position in the history: that value is the one of the write that no later write under the flags of its moment aliases |
| Bus.NoOtherAliases | src/bus.c:34-40 | a write under any flags and a read under any other flags meet in a cell if and only if the explicit address condition holds: same window modulo 0x800 and same bank, or the same dynamic address, also under the ROM |
| Bus.Mirrors | src/ram/auxram.c:10-16 | the halves of those windows are the same cells, for reads and writes |
| Bus.UnderRom | src/bus.c:105-118 | a write at C000-CFFF goes to dynamic RAM, invisible until the memory is switched |
| Bus.RomIsConstant | src/bus.c:37-37 | no history changes the ROM |
| Bus.BootDropsWrites | src/bus.c:102-103 | while the boot override holds every write is dropped |
| Bus.BootStaysGone | src/bus.c:121-163 | only a restart brings the override back |
| Bus.Memory.Read | src/bus.c:68-89 | the slot scan reads the cell that the address map names |
| Bus.Memory.Write | src/bus.c:99-119 | the slot scan writes exactly the cell that the address map names, or none |
| Bus.Memory.VideoBank | src/video.c:476-482 | the bank pointer selects character or attribute memory |
| Tokenizer.NextWord | src/tokenizer.c:20-47 | the loop stores the first word, NUL-terminated, inside the buffer and returns what follows it; no word from the empty string |
| Tokenizer.WordsConserve | src/tokenizer.c:28-43 | the words together are the string without its spaces |
| Tokenizer.WordsFit | src/tokenizer.c:30-30 | every word fits the buffer and holds no space |
| Tokenizer.OnlyLastEmpty | src/tokenizer.c:40-46 | only the last word can be empty, exactly when the string ends with a space |
| Tokenizer.JoinRoundTrip | src/tokenizer.c:20-47 | tokenizing the single-space join of proper words gives back those words |
| Tokenizer.Progress | src/tokenizer.c:28-46 | with a buffer of at least two characters every call gets nearer to the end |
| Tokenizer.NoProgress | src/tokenizer.c:30-30 | with a buffer of one character no call ever does |

## Left out

- Sockets, SDL, audio, ROM loading, rendering and the command line itself (`src/cli.c`, `src/serial.c`, `src/gui.c`, `src/speaker.c`, `src/video.c` apart from its memory): input and output. The serial peripheral is a parameter of each poll, the key table a parameter of each key event.
- The Z80 core and `src/cpu.c`: the emulator library is not part of this model.
- `tokenizer_next_hex` and `tokenizer_next_int`: they depend on `strtol` and `errno`.
- Status register 3 of the controller, which is only ever cleared, and the MF and SK option bits, which are only logged.
- FdcSeek.PlayMoves: claims bit 5 of the first sense byte and the whole second byte; with several drives pending the program reports the last drive sought in the first byte, not the one sensed.
- FdcSeek.InvalidAnswer: claims bit 7 and the drive bits of the answer only; the program keeps older error bits in it.
- FloppyUnits.Units.ReadBuffer: `fseek` failures and files that cannot be closed are not modelled.
- The contents of the image files are a field holding sequences, not arrays: the program reaches them only through `fread` and `fwrite`.
- FifoConcurrent.ConsumedIsPrefix: memory is sequentially consistent and pointers are read and written atomically, as the header asks.
- Serial.Conservation: attaching and detaching peripherals other than by the restart is not modelled; channel A accepts any input.
- Dispatch of I/O ports to devices in `src/bus.c`, apart from its effect on the boot override.
- FIFO_LEN, which no caller uses, and the timing functions of every module.
