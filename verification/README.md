# Verified model of a Z80 supervisor's storage, ports and decoders

The firmware gives a real Z80 running CP/M four flash disks, an HTTP port, a chat and a
weather client and a request/response service, from a two-core microcontroller. Core 0
serves the Z80's port accesses in an I/O trap; core 1 owns flash and the network. This
project models the parts whose correctness spans many steps and proves what they promise.

**The crash-safe disk stack.** `Flash` is NOR flash: 1024 sectors, erase sets bits, program
clears them, and a power cut may leave anything in what the cut operation touches. `Journal`
is the eight-pair redo journal and its boot replay, `Recovery` and `PowerCut` prove what a
cut at any point, of a write or of any number of replays, leaves behind. `FlashBackend` is
the backend as an object with a one-sector write-back cache. `EnvStore` is the second durable
store: two slots and wrapping sequence numbers. `DiskSystem` is the disk device as both cores
run it, down to one word copied at a time, with the mailbox, the read-ahead seqlock and the
supervisor's stop handshake; `DiskInvariant` is the invariant every step keeps,
`DiskTheorems` what follows in every interleaving, `DiskService` what core 1 and the
supervisor get done, `DiskStop` a liveness defect. `DiskPort` is the disk as the Z80 sees it,
told from its port accesses alone: every interleaving shows it exactly that. `FlashLayout`
proves that the two stores, which share one flash, never touch each other.

**Ports and incremental decoders.** `HttpStream` decodes HTTP/1.1 responses byte by byte under
back-pressure; `HttpRoundTrip` proves the framing of sections 6.3 and 7.1 of RFC 9112 decodes
to its body. `HttpLanguage` says exactly which wires it accepts, as readings of a response, and
`HttpGrammar` states tokens, fields, numbers and status lines by their characters. `HttpIo`,
`HttpDelivery` and `HttpRing` are the two-core HTTP port on top of that decoder, `HttpPort` the
dialogue the Z80 has with it. `Json`, `JsonText`, `JsonLookup`, `JsonSound` and `JsonReader` are the chat client's
JSON reader, proved to accept exactly the texts of RFC 8259 within its limits (and NUL as white
space, which no line can hold) and to keep exactly `choices[0].delta.content`; `ChatStream` is
the stream around it, `ChatTranscript` proves a whole chat response end to end and
`ChatLanguage` says exactly which wires are accepted and that nothing but the text of events is
ever shown. `Transport` and `TransportSafety` are the request/response service, `TransportPort`
its protocol as the Z80 sees it. `Weather` and `WeatherRoundTrip` are
the decoder that moves chunks together inside one buffer.

**Code transformation and arithmetic.** `Disassembler`, `Discovery` and `Relaxation` are the
8080 decoder, the control-flow worklist and the JR selection rule; `Clock` is the divider
search.

Conventions. A checksum is an arbitrary function, so every theorem holds for every checksum;
that a torn page never forges a header is part of what a torn operation may do. Interleavings
are sequentially consistent, and each step makes at most one access to memory the other core
may be writing. Fields marked as history record what happened and are never read by a step.
Every trace theorem starts from a boot state and quantifies over all steps, in any order.

Where the code and what is written about it differ, the model follows the code:

- A stop command given while an earlier stop is resuming can leave both cores waiting for ever
  (`DiskStop.WedgeReachable`, `DiskStop.WedgedNeverHolds`); `DiskStop.WedgedIff` says exactly
  which steps do it. The boot timeout asks for a stop as the `x` command does and counts as one.
- The first save to a blank environment store writes an empty baseline so that a cut cannot
  lose data; a cut inside the baseline itself leaves a store that reads as damaged and that no
  save will repair (`EnvStore.TornBaselineIsUnreadable`). A save is atomic exactly if the store
  already holds a valid slot (`EnvStore.SaveIsAtomicIff`).
- The 8080 decoder fetches two operand bytes for every opcode it looks up in its table, so a
  complete one-byte instruction in the last two bytes of an image is refused as truncated
  (`Disassembler.RefusesFinalReturn`; `Disassembler.DecodeTotal` says exactly when).
- A chunk request for a session opened after core 1 loaded the session number is answered with
  an empty chunk and an idle status (`HttpDelivery.EmptyAnswerReachable`; by
  `HttpDelivery.EmptyAnswerIff` that is exactly when): the Z80 has to ask again, and loses
  nothing (`HttpPort.Delivery`).
- The last check of the discovery (a target that is not an instruction boundary) and the
  decoder's unsupported-opcode error can never fire (`Discovery.Discover`).

## Model

| member | source | states |
|---|---|---|
| `Flash.ProgramErased` | src/common/flash_backend.c:176-209 | programming erased bytes, where bits can only be cleared, stores exactly the data |
| `Journal.Newest` | src/common/flash_backend.c:225-274 | the pair whose data a complete replay leaves in a sector: live, for that sector, and of the highest sequence |
| `Journal.LiveTargetIsDisk` | src/common/flash_backend.c:147-153 | a header that validates names a sector of the disk area |
| `Journal.RedoOfCleanJournal` | src/common/flash_backend.c:225-274 | with no live header the redo image is the disk itself |
| `Recovery.RestorePrefix` | src/common/flash_backend.c:211-223 | what flash holds after each step of restoring one pair |
| `Recovery.RestoreCut` | src/common/flash_backend.c:211-223 | a restore of the oldest pair, cut anywhere, keeps the redo image, the sequences and the data checksums |
| `Recovery.ReplayIsRedo` | src/common/flash_backend.c:225-274 | for any live headers with distinct sequences and matching data, replay succeeds, clears every header and leaves the disk as applying them in increasing sequence order would |
| `Recovery.ReplayCutKeepsRedo` | src/common/flash_backend.c:211-274 | a replay cut at any operation, torn or not, stands for the same redo image |
| `Recovery.RepeatedCutsAreHarmless` | src/common/flash_backend.c:211-274 | any number of cut replays followed by one that finishes gives the same disk as one uncut replay |
| `PowerCut.HeaderRoundTrip` | src/common/flash_backend.c:367-408 | the header page a flush builds spells its magic, version, target, sequence and checksums at their offsets, validates and reads back its sequence, target and data checksum |
| `PowerCut.WritePrefix` | src/common/flash_backend.c:176-209 | what flash holds after each of the seven operations of a journalled write |
| `PowerCut.WriteCut` | src/common/flash_backend.c:176-209 | a write cut at step k stands for the old disk before the header page is complete, for the new one after, with at most one live header whose data matches |
| `PowerCut.PowerCutAtomicity` | src/common/flash_backend.c:176-274 | a cut write followed by any number of cut boots: the first boot to finish finds the target wholly old or wholly new, new once the header was complete, and every other disk sector unchanged |
| `PowerCut.StepRefines` | src/common/flash_backend.c:367-408 | every boot, flush, cut and power-off keeps the journal invariant and is atomic on the disk; a boot never refuses to start |
| `PowerCut.RunIsDurable` | src/common/flash_backend.c:225-408 | over every run of boots, flushes and cuts at most one header is live with matching data, every boot succeeds, and the disk is the surviving flushes in order |
| `FlashBackend.Backend.WriteCallback` | src/common/flash_backend.c:176-209 | issues exactly the seven operations, and commits |
| `FlashBackend.Backend.RestoreCallback` | src/common/flash_backend.c:211-223 | issues exactly the restore operations of a pair |
| `FlashBackend.Backend.ReadJournal` | src/common/flash_backend.c:230-241 | the headers and validity flags of all eight pairs |
| `FlashBackend.SelectOldest` | src/common/flash_backend.c:245-251 | the valid header of the lowest sequence, or -1 |
| `FlashBackend.Backend.RecoverJournal` | src/common/flash_backend.c:225-274 | flash and the verdict are those of the replay plan whose redo property is proved |
| `FlashBackend.RecordUpdate` | src/common/flash_backend.c:475-513 | a record reads back as written, and every other record as before |
| `FlashBackend.Backend.FlushDiskCache` | src/common/flash_backend.c:367-408 | the logical disk is unchanged; on success flash equals it and the cache is clean; with the bus granted and released it succeeds; a flush that has the bus takes the next journal pair and sequence |
| `FlashBackend.Backend.SelectDiskCache` | src/common/flash_backend.c:448-466 | on success the cache holds the wanted sector and the logical disk is unchanged |
| `FlashBackend.Backend.ReadRecord` | src/common/flash_backend.c:475-493 | the record of the logical disk, from the dirty cache or from flash |
| `FlashBackend.Backend.WriteRecord` | src/common/flash_backend.c:495-513 | bad arguments change nothing; otherwise the logical disk changes in that record only, and a directory write leaves it all in flash |
| `FlashBackend.Backend.Init` | src/common/flash_backend.c:531-553 | after power cuts alone the backend starts and shows the redo image |
| `EnvStore.Store.FindCurrent` | src/common/environment_store.c:53-69 | the slot to load: the valid one, the newer of two, -1 for a blank store, -2 for a damaged one |
| `EnvStore.WrapPicksNewer` | src/common/environment_store.c:64-66 | for sequences one apart modulo 2^32 the wrapping comparison picks the newer, across the wrap too |
| `EnvStore.BuiltRoundTrip` | src/common/environment_store.c:84-116 | a built sector spells its magic, version, length, sequence and checksums at their offsets, validates and holds the snapshot and its sequence |
| `EnvStore.SaveCut` | src/common/flash_backend.c:416-431 | from a readable store, a save cut at any step loads as exactly the old or the new snapshot, and two valid slots are again one apart |
| `EnvStore.SaveThenLoad` | src/common/environment_store.c:71-116 | after an uncut save, from a blank or a readable store, load returns what was saved |
| `EnvStore.StoreRun` | src/common/environment_store.c:71-116 | over every run of saves and cuts the store stays readable and load returns the last save that took effect |
| `EnvStore.SaveIsAtomicIff` | src/common/environment_store.c:84-116 | for a store that is blank or readable, every cut of a save loads as the old or the new snapshot if and only if the store was readable |
| `EnvStore.TornBaselineIsUnreadable` | src/common/environment_store.c:94-102 | a first save cut after one byte of the baseline's header page is programmed leaves a store that loads as damaged and that every later save refuses |
| `EnvStore.Store.EnvWrite` | src/common/flash_backend.c:433-446 | the slot is erased, its payload written, then its header; refused without the bus |
| `EnvStore.Store.LoadSnapshot` | src/common/environment_store.c:71-82 | status and data of the current snapshot, with the damaged and too-small cases |
| `EnvStore.Store.Save` | src/common/environment_store.c:84-116 | issues the save's operations, none when nothing changed, with every refusal |
| `EnvStore.Store.Baseline` | src/common/environment_store.c:94-102 | with the bus granted and released a blank store becomes a readable one that loads as empty |
| `FlashLayout.SaveLeavesDisk` | src/common/include/z80sbc/flash_layout.h:9-20 | a save of the environment, cut anywhere, changes only its own two sectors: the disk and its redo image are as before |
| `FlashLayout.WriteLeavesEnvironment` | src/common/include/z80sbc/flash_layout.h:9-20 | a journalled write, cut anywhere, changes only the journal and its target: the environment loads as before |
| `FlashLayout.ReplayLeavesEnvironment` | src/common/include/z80sbc/flash_layout.h:9-20 | a boot replay, cut anywhere, changes only the journal and the disk area: the environment loads as before |
| `DiskSystem.KeyWordExact` | src/common/disk_device.c:74-76 | comparing packed keys compares drive and record, 0 stands for no key only, and a hint unpacks to them |
| `DiskSystem.LastWriteWins` | src/common/disk_device.c:231-267 | the disk after writes holds at each address its last write, or the boot image |
| `DiskInvariant.TrapTakeRecheck` | src/common/disk_device.c:78-89 | a recheck that passes leaves the invariant: the copied record is the disk's |
| `DiskInvariant.ReaderSlot` | src/common/disk_device.c:91-107 | a publish or an invalidation under a READ can only make its recheck fail |
| `DiskInvariant.OtherScribble` | src/common/flash_backend.c:176-209 | a flush may leave anything in the sector it rewrites: what core 0 reads is not affected |
| `DiskInvariant.LedgerAdvances` | src/common/disk_device.c:231-251 | completing a write advances the ledger by exactly that one write |
| `DiskTheorems.StepKeeps` | src/common/disk_device.c:78-313 | every step of either core, the Z80 and the supervisor keeps the invariant |
| `DiskTheorems.TraceInv` | src/common/disk_device.c:78-313 | the invariant holds in every state of every run |
| `DiskPort.DataIsCurrent` | src/common/disk_device.c:143-191 | whenever data is offered every accepted write has completed and the record is the current one at drive * 4096 + low + 256 * high, from the last values the Z80 put on ports 0x11, 0x12 and 0x13 before its READ |
| `DiskPort.ReadCoherence` | src/common/disk_device.c:193-206 | each byte answered on the data port is the next byte of the last write accepted for the record so addressed, or of the boot image |
| `DiskTheorems.SeqlockSound` | src/common/disk_device.c:78-107 | a take that succeeds copied all 32 words of one single publish of exactly that key, and that publish is still current |
| `DiskService.ReadAhead` | src/common/disk_device.c:109-136 | when core 1 has served a hint, each of the next eight records of that drive that exists has its slot, whatever core 0 did meanwhile |
| `DiskService.FlushAsked` | src/stage09_flash_storage/main.c:939-996 | each attempt to stop asks core 1 for one flush, at the first turn of the supervisor, and no other turn asks for any |
| `DiskTheorems.MailboxOwnership` | src/common/disk_device.c:138-267 | a posted command implies BUSY, the data index is below 128 whenever data is offered or wanted, and each posted write is applied exactly once, in order |
| `DiskTheorems.CoreZeroLeavesRecord` | src/common/disk_device.c:208-229 | while core 1 owns the record nothing else changes it, its address or its command |
| `DiskPort.PortsRefine` | src/common/disk_device.c:193-229 | in every run and between accesses the status is that of the port reference, and the writes accepted are its full transfers: each the 128 values put on port 0x14 since the write command, in order, for the record the address ports named when that command came |
| `DiskPort.StatusAnswered` | src/common/disk_device.c:193-206 | a read of the status port answers the bits of the reference status, busy and error while the gate is off; any other read but one of offered data answers 0 |
| `DiskPort.AgreeStep` | src/common/disk_device.c:118-267 | every step of either core keeps the device and the port reference, which knows only the port accesses and their answers, in agreement |
| `DiskPort.CompletedFlushIsDurable` | src/common/disk_device.c:231-251 | when core 1 completes a flush command or a directory write, the cache is clean and flash is the boot image with every accepted write |
| `DiskPort.CleanStop` | src/stage09_flash_storage/main.c:939-997 | when the stop path holds the CPU, core 1 is outside the flash service, every completed port access was served, nothing is pending or dirty and flash is the boot image with every accepted write |
| `DiskStop.WedgedNeverHolds` | src/stage09_flash_storage/main.c:939-948 | once wedged, no continuation ever holds the CPU |
| `DiskStop.WedgeStepIff` | src/stage09_flash_storage/main.c:939-948 | a step wedges the board exactly if it is a stop command while resuming from a pause core 1 has not left, or core 1 pausing while such a command is outstanding |
| `DiskStop.WedgedIff` | src/stage09_flash_storage/main.c:939-997 | in every run the board is wedged exactly if some earlier step was one of those |
| `DiskStop.WedgeReachable` | src/stage09_flash_storage/main.c:205-230 | from every boot state two stop commands and one flush command can wedge the board |
| `HttpStream.Number` | src/common/http_stream.c:75-88 | accepts exactly nonempty digit strings of the base whose value fits 32 bits, and returns that value |
| `HttpStream.OverflowTest` | src/common/http_stream.c:84-84 | the overflow test refuses exactly the values that do not fit |
| `HttpStream.FeedDecodes` | src/common/http_stream.c:155-194 | a call decodes exactly the bytes it consumed and stops short only at the end or at a refused body byte |
| `HttpStream.CallsDecode` | src/common/http_stream.c:155-194 | any calls, however split and refused, decode what they consumed as one call would |
| `HttpStream.SplitIndependence` | src/common/http_stream.c:155-194 | calls that finish the wire or the response emit the same bytes and leave the same state as one call that is never refused |
| `HttpLanguage.Language` | src/common/http_stream.c:75-201 | a wire read to its end is accepted exactly if it is a legal reading (interim sections, a final one with at most one length or chunked coding, and the body it frames, within the limits); it is done exactly if that reading is complete, a close ends it well exactly if it is or runs to the close, and what was emitted is the body of the reading |
| `HttpLanguage.LegalIsTaken` | src/common/http_stream.c:90-194 | every legal reading, complete or not, is taken and leaves the state it says |
| `HttpLanguage.TakenIsLegal` | src/common/http_stream.c:90-194 | whatever is taken without an error is a legal reading |
| `HttpLanguage.FieldStep` | src/common/http_stream.c:125-152 | one more header line is taken exactly if the section stays one: duplicates, bad values, compression and long locations are refused |
| `HttpGrammar.TokenExact` | src/common/http_stream.c:127-134 | a name character is a tchar of section 5.6.2 of RFC 9110 |
| `HttpGrammar.NameExact` | src/common/http_stream.c:137-149 | names are compared without regard to letter case and to nothing else |
| `HttpGrammar.FieldExact` | src/common/http_stream.c:125-138 | a token, a colon and a value in blanks is a field of that name and value |
| `HttpGrammar.FieldSplits` | src/common/http_stream.c:125-138 | whatever is taken for a field has that form |
| `HttpGrammar.NumberExact` | src/common/http_stream.c:75-88 | a numeral of the base, a size with any extension, is a number exactly if its place value is below 2^32, and has that value |
| `HttpGrammar.StatusExact` | src/common/http_stream.c:93-101 | a status line is HTTP/1.0 or 1.1, three digits from 100 to 599 and a reason after a space, and its code is their value |
| `HttpStream.Decoder.TakeSize` | src/common/http_stream.c:102-104 | a chunk size line, good or bad |
| `HttpRoundTrip.UnframedResponse` | src/common/http_stream.c:105-123 | how a response without a framing field ends, by its status: a redirect is done with its Location and an error without one, 204 is done, 200 has every byte up to the close as its body, any other status is an error; nothing but that body is emitted |
| `HttpRoundTrip.BothFramingsRefused` | src/common/http_stream.c:107-107 | a response with both a length and a transfer coding, in either order, is refused at the end of its header section and emits nothing |
| `HttpStream.Decoder.TakeField` | src/common/http_stream.c:140-151 | the fields that decide framing, encoding and redirection |
| `HttpStream.Decoder.Take` | src/common/http_stream.c:155-194 | the byte loop refines the decoding function, consumed count and emitted bytes included |
| `HttpRoundTrip.CloseResponse` | src/common/http_stream.c:196-201 | a close-delimited 200 response emits every byte up to the close, through any calls, and the close ends it without error |
| `HttpRoundTrip.StepSound` | src/common/http_stream.c:155-194 | every byte keeps lines, location and counters within their buffers, lines free of NUL, and a counted body phase with bytes left |
| `HttpRoundTrip.ChunkedRoundTrip` | src/common/http_stream.c:159-186 | any body in any nonempty chunks, sizes in any case with leading zeros and extensions, with any trailers, is emitted exactly and ends done without error |
| `HttpRoundTrip.InterimSkipped` | src/common/http_stream.c:108-114 | a 1xx response other than 101, with any fields beside framing, leaves the decoder before a status line as if it had not been |
| `HttpRoundTrip.ChunkedResponse` | src/common/http_stream.c:90-194 | a whole chunked 200 response, after any interim ones and with any fields beside the framing (a compressed Content-Encoding and a second Location are errors), is emitted exactly and ends done, through any calls and refusals |
| `HttpRoundTrip.TruncationNoticed` | src/common/http_stream.c:196-201 | such a response closed before its last byte, at any byte of it, ends in an error |
| `HttpRoundTrip.LengthResponse` | src/common/http_stream.c:90-194 | a Content-Length response emits its body and nothing that follows it |
| `HttpRing.Ring.Emit` | src/common/http_io.c:138-144 | appends a byte, or refuses when 1024 are held |
| `HttpRing.Ring.Take` | src/common/http_io.c:244-248 | moves the oldest n bytes to the slot, in order |
| `HttpDelivery.RedirectHasNoBody` | src/common/http_io.c:201-212 | a redirect response has emitted nothing, so following it loses nothing |
| `HttpDelivery.StreamReceived` | src/common/http_io.c:146-151 | receiving keeps the body equal to the decoding of the bytes consumed |
| `HttpDelivery.FillKeeps` | src/common/http_io.c:241-250 | a chunk handed over is the next part of the body, short only at its end, with EOF |
| `HttpDelivery.EmptyAnswerIff` | src/common/http_io.c:214-252 | in every run a posted request is answered with an empty, idle chunk exactly if it was posted for another session than the one core 1 loaded for that service |
| `HttpDelivery.EmptyAnswerReachable` | src/common/http_io.c:189-217 | from every boot state the Z80 can open a session, ask for a chunk and read back an idle status with nothing to fetch and no request started |
| `HttpDelivery.StepKeeps` | src/common/http_io.c:51-253 | every step of either core and of the network keeps mailbox ownership and the flow of bytes |
| `HttpPort.NameAsked` | src/common/http_io.c:51-104 | in every interleaving a request posted for the current session names exactly the bytes the Z80 put on the data port since it opened the session, in order and up to the NUL, 1 to 767 of them |
| `HttpPort.Delivery` | src/common/http_io.c:51-253 | in every interleaving the bytes answered to the Z80 in a session are a prefix of that session's decoded body, end of file means all of it and a complete response, and a chunk short of 256 bytes is the last |
| `HttpPort.DataAnswered` | src/common/http_io.c:105-117 | a read of the data port answers a chunk's length byte, 0 for 256, then each next byte of the session's body, and 0 when there is none |
| `HttpPort.StatusAnswered` | src/common/http_io.c:105-117 | a status read answers 1 exactly if a chunk byte can be fetched, 3 exactly if a chunk is asked for, 255 after misuse, and 2 only when the whole body was read |
| `HttpPort.ReceiveTakes` | src/common/http_io.c:138-151 | a delivery is consumed in order, and wholly unless the ring is full or the response is over |
| `HttpPort.AgreeStep` | src/common/http_io.c:51-253 | every step of either core and of the network keeps the port and the dialogue, which knows only the accesses, their answers and the chunks, in agreement |
| `JsonText.ReadUnit` | src/common/chat_stream.c:38-107 | every spelling of a character, raw UTF-8 as in RFC 3629, one of the eight short escapes, \u with four hex digits of either case and a surrogate pair, reads as its code point |
| `JsonText.ReadPrinted` | src/common/chat_stream.c:115-215 | any tree printed with any white space and spelling is accepted exactly when it evaluates, keeps what the tree keeps and stops at its end |
| `JsonLookup.NameExact` | src/common/chat_stream.c:133-139 | comparing mapped keys compares code points |
| `JsonLookup.MappedShows` | src/common/chat_stream.c:17-25 | a mapped text shows its code points: printable ASCII, tab, LF and CR as they are, typographic quotes, dashes and the no-break space as their ASCII counterparts, everything else as ? |
| `JsonLookup.ShownIsPlain` | src/common/chat_stream.c:17-25 | every byte shown is tab, LF, CR or printable ASCII, and a text of those alone is shown unchanged |
| `JsonLookup.EvalIsLookup` | src/common/chat_stream.c:113-215 | the outcome is that of a lookup of choices[0].delta.content: at most one string, at most 4095 characters, at most 16 levels deep |
| `JsonSound.CharWitness` | src/common/chat_stream.c:52-107 | whatever character is accepted is one of those spellings |
| `JsonSound.ValueWitness` | src/common/chat_stream.c:115-215 | whatever is accepted is the text of some tree, kept as that tree evaluates, in skipped values too |
| `JsonReader.Reader.Whitespace` | src/common/chat_stream.c:33-36 | the cursor moves past white space and no further |
| `JsonReader.Reader.String` | src/common/chat_stream.c:48-111 | accepts the same strings, counts every character and fills the buffer with those that fit |
| `JsonReader.Reader.Value` | src/common/chat_stream.c:115-215 | the recursive cursor reader refines the reading function |
| `JsonReader.Reader.Members` | src/common/chat_stream.c:121-150 | the member loop does, keys compared in a 32-byte buffer |
| `JsonReader.Reader.Elements` | src/common/chat_stream.c:151-167 | the element loop does, element 0 of choices alone chosen |
| `ChatStream.EventCapture` | src/common/chat_stream.c:217-238 | an event whose data spells an object shows exactly choices[0].delta.content, a plain text unchanged and any other as its ASCII counterparts, or fails exactly when the lookup does |
| `ChatStream.EventAccepted` | src/common/chat_stream.c:217-238 | an event accepted without error is such a spelling |
| `ChatStream.FeedDecodes` | src/common/chat_stream.c:327-380 | a call decodes the bytes it consumed, what its consumer refused is still pending |
| `ChatStream.SplitIndependence` | src/common/chat_stream.c:327-380 | calls however split and refused emit the same text and leave the same state as one call that is never refused |
| `ChatStream.Decoder.TakeDocument` | src/common/chat_stream.c:226-237 | the event's JSON read in place gives the specified outcome |
| `ChatStream.Decoder.Show` | src/common/chat_stream.c:331-335 | pending text is shown in order until it ends or is refused, and never after an error |
| `ChatStream.Decoder.Take` | src/common/chat_stream.c:327-380 | the byte loop refines the feeding function |
| `ChatTranscript.LineIsBlind` | src/common/chat_stream.c:284-321 | what a line does to the stream does not depend on the framing around it |
| `ChatTranscript.ChunksAreTransparent` | src/common/chat_stream.c:349-376 | chunks of any sizes, cut anywhere in the text, with extensions, decode as the text itself |
| `ChatTranscript.StreamShows` | src/common/chat_stream.c:284-321 | a stream of event lines and lines without data shows exactly the contents, in order, and ends done at [DONE] |
| `ChatTranscript.FeedHead` | src/common/chat_stream.c:250-312 | a 200 status line and any fields with an event-stream type and one chunked coding lead to the first chunk |
| `ChatTranscript.Transcript` | src/common/chat_stream.c:217-380 | end to end from the status line: any such stream, chunked anywhere, through any calls and refusals, shows the code points of the contents in order, as the terminal has them, and ends done |
| `ChatLanguage.Language` | src/common/chat_stream.c:240-380 | a wire read to its end is accepted exactly if it is a legal reading (a 200 status line, fields with an event-stream type and at most one framing field, and plain, counted or chunked data whose events are all good, within the limits); it is done exactly if the last line is [DONE], and what was shown is the text of the events of the reading |
| `ChatLanguage.LegalIsTaken` | src/common/chat_stream.c:240-380 | every legal reading, complete or not, is taken and leaves the state it says |
| `ChatLanguage.TakenIsLegal` | src/common/chat_stream.c:240-380 | whatever is taken without an error is a legal reading |
| `ChatLanguage.OnlyEventsShown` | src/common/chat_stream.c:327-380 | whatever the server sends, all that reaches the terminal is the text of the events of a legal reading of the first bytes sent |
| `ChatLanguage.StatusExact` | src/common/chat_stream.c:292-308 | a status line is taken exactly if it is HTTP/1.0 or 1.1, one white space character, 200, and a reason after a space |
| `ChatLanguage.StatusTold` | src/common/chat_stream.c:292-308 | which status is reported as what: 401 and 403 as rejected, 429 as a rate limit, any other but 200 as a failure |
| `ChatLanguage.FieldTaken` | src/common/chat_stream.c:250-282 | one more header line is taken exactly if the fields stay a header section: one framing field at most, no compression, the last content type counts |
| `TransportSafety.CommandKeeps` | src/common/io_ports.c:206-253 | every command in every state keeps the invariant |
| `TransportSafety.RequestKeeps` | src/common/io_ports.c:255-285 | request bytes arrive in order within the buffer, and a bad length fails at once |
| `TransportSafety.ResponseKeeps` | src/common/io_ports.c:318-335 | response bytes leave in order within the buffer |
| `TransportSafety.PolledKeeps` | src/common/io_ports.c:177-196 | a late result is discarded, the current one becomes the response in place |
| `TransportSafety.StepKeeps` | src/common/io_ports.c:177-339 | every step of either core keeps the invariant, so all indices stay in bounds |
| `TransportPort.ResponseIsAnswer` | src/common/io_ports.c:318-335 | in every trace a response of core 1's that the Z80 may read is a result published for exactly the command and the bytes it wrote, and the answers to its reads so far are a prefix of two little-endian length bytes and that result |
| `TransportPort.ResponseAnswered` | src/common/io_ports.c:318-335 | a read of the response port answers the next length or data byte of the response, or 0 when there is none |
| `TransportPort.StatusAnswered` | src/common/io_ports.c:177-204 | a status read answers the code of the protocol's status once a finished job has been taken |
| `TransportPort.RequestPosted` | src/common/io_ports.c:255-316 | a job the Z80 waits for is the command and the bytes it wrote, as many as the first two announced |
| `TransportPort.AgreeStep` | src/common/io_ports.c:177-339 | every step of either core keeps the transport and the protocol, which knows only the accesses, their answers and core 1's results, in agreement |
| `TransportSafety.BuffersNotShared` | src/common/io_service.c:31-52 | core 1 never writes a result being read, and core 0 writes a request only while no job is posted |
| `Weather.ScanNumber` | src/common/weather_http.c:81-94 | accepts exactly nonempty digit strings of at most 8192 and returns their value |
| `Weather.Search` | src/common/weather_http.c:78-78 | the first CRLF from a position of the NUL-terminated buffer |
| `Weather.MoveDown` | src/common/weather_http.c:117-117 | overlapping bytes arrive intact at a lower address |
| `Weather.NextChunk` | src/common/weather_http.c:77-120 | one turn of the chunk loop keeps what is moved and unread equal to the whole |
| `Weather.Compact` | src/common/weather_http.c:76-121 | compaction in place equals decoding the chunks, and touches nothing outside |
| `Weather.DecodeInPlace` | src/common/weather_http.c:21-125 | status and NUL-terminated body of the decoding function, in the same buffer |
| `WeatherRoundTrip.InPlaceRoundTrip` | src/common/weather_http.c:21-125 | every chunked response with a NUL-free body within 2048 header bytes, 64 per size line and 8192 of body decodes to that body |
| `WeatherRoundTrip.LengthInPlace` | src/common/weather_http.c:67-72 | a Content-Length response decodes to its body, and is refused when any other number of bytes follows |
| `WeatherRoundTrip.DecodersAgree` | src/common/weather_http.c:21-125 | on such responses both decoders return the same body |
| `Disassembler.DecodeTotal` | src/cpm/disassemble_cpm64.py:65-160 | every opcode decodes to its 8080 length, flow and target; decoding fails exactly past the image or, unless decided early, in its last two bytes |
| `Disassembler.RefusesFinalReturn` | src/cpm/disassemble_cpm64.py:94-109 | a final one-byte return is refused as truncated |
| `Disassembler.TableTargets` | src/cpm/disassemble_cpm64.py:163-168 | the little-endian words of a table, or an index error exactly when it does not fit |
| `Disassembler.Roots` | src/cpm/disassemble_cpm64.py:171-185 | exactly the fixed entries and the table targets |
| `Discovery.Occupy` | src/cpm/disassemble_cpm64.py:211-216 | marks an instruction's bytes if none was taken and all lie in the image |
| `Discovery.OneInstruction` | src/cpm/disassemble_cpm64.py:197-224 | one turn of the inner loop keeps the invariant and uses up an address |
| `Discovery.Discover` | src/cpm/disassemble_cpm64.py:188-229 | terminates; a returned listing is the set reached from the roots through successors read off the image's bytes (the target word of a jump or call, and the next address unless the opcode is 0x76, 0xC3, 0xC9 or 0xE9), closed under them, decoded and without overlap; it returns one exactly if the tables fit, every reached address holds a whole official instruction and no two of those overlap |
| `Discovery.LeadsIsSucc` | src/cpm/disassemble_cpm64.py:197-224 | the addresses the discovery follows from an instruction are exactly those successors |
| `Relaxation.RelaxationSound` | src/cpm/disassemble_cpm64.py:609-617 | if no item grows, every jump made JR from its original displacement is still in range after the whole section is compacted |
| `Relaxation.GrowthBreaks` | src/cpm/disassemble_cpm64.py:609-617 | one growing item can break it |
| `Relaxation.ShortenedExactly` | src/cpm/disassemble_cpm64.py:609-617 | a jump is made JR exactly if its opcode is 0xC3, 0xC2, 0xCA, 0xD2 or 0xDA and its target is in its section and in range |
| `Clock.LeastCount` | src/common/clock.c:57-61 | the count computed for a divider is the least even one that is not too fast |
| `Clock.Pwm.Search` | src/common/clock.c:53-73 | finds a setting exactly when one is admissible, with the least divider * count of all 255 dividers and even counts to 65536, ties to the larger count |
| `Clock.Pwm.SetHz` | src/common/clock.c:46-86 | succeeds exactly in range with an admissible setting; then the true and reported clocks are at most the request, the duty is exactly half and the setting is optimal |

## Left out

- The two-core machines (`DiskSystem`, `HttpIo`, `Transport`) are step relations over values, because a class cannot interleave with another core; the one-core forms of the backend, ring, decoders and readers are classes and methods that update in place.
- Checksum collisions and chips that fail silently: a cut operation is assumed not to forge a valid header or slot, and an uncut one to succeed; the read-back checks then always pass.
- Weak memory order and wrap of the 32-bit seqlock, session and generation counters: interleavings are sequentially consistent and these counters unbounded. The environment sequence and the journal counters do wrap.
- DiskTheorems.TraceInv: covers runs without a fatal flash error; the error path, which holds the CPU, is not modelled.
- That every run which is not wedged does reach the hold: it needs a fairness assumption about both cores' loops.
- The reboot request of the utility service, which flushes from inside core 1's port service, and the bus-request timeouts of the stop path.
- load_boot_image: reading and checking the boot package; its outcome is a parameter of `FlashBackend.Backend.Init`.
- Which of its messages a decoder reports for a wire it refuses: only that it refuses, and exactly when, but for the statuses of a chat response.
- After a failed event the chat text buffer is of no consequence and the model clears it; an escape followed by NUL, which the line decoder never lets through, is refused.
- URL parsing, redirect resolution and the target of a request in http_io.c: whether a request starts is a parameter of a step. lwIP and TLS clients are arbitrary byte delivery, close and error events.
- The timer and stopwatch ports of io_ports.c, and the services behind io_service.c: their answers are arbitrary results; clock readings are parameters.
- Mnemonics, operands and the address-specific rewrites of the disassembler: only opcodes, sizes, targets and flow, and the general rule that emitted items do not grow.
- GPIO, PIO and bus timing, the terminal queue and the chat ring: hardware effects, or plain rings that would add only easier members.
