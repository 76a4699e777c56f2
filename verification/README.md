# Stagefright: index tables, transport streams, reference counts, queues

A Dafny model of the parts of this media library that are hard to get right, and proofs of what they
promise. Methods that update fields or buffers are classes and methods with loops here as well; each is
proved against a specification function or predicate, and the properties are lemmas about those. Threads
are interleavings of atomic steps: each lock-protected section is one step, and so is each `__sync_*`
operation.

- **MP4 recording and reading** (`TrackTables`, `TrackChunks`, `ChunkWriter`, `TableEntries`; `SampleTables`,
  `SampleIterator`, `SampleTable`). Track threads run-length-encode sample times and group samples into
  chunks while a writer thread interleaves the tracks. Reading goes through cursors that are kept from one
  query to the next. The main results: for every schedule, every chunk is written once and in order, and
  seeking to sample i, after any other seeks, and reading hands on exactly accepted sample i, behind a start
  code for AVC, at its rounded time; searches by time and for sync samples return what their flags say.
  ISO/IEC 14496-12, sections 8.6.1 and 8.7.3 to 8.7.5.
- **Boxes** (`BoxWriter`, `BoxParser`, `BoxOffsets`, `MovieBoxes`). The moov box comes out the same whether it
  stays in memory, spills or goes to the file, and is parsed to its end; a container is accepted if and only
  if its boxes tile it, as long as no box visited reaches 2^63.
- **MPEG-2 transport streams** (`TsFormat`, `TsWriter`, `TsParser`, `TsDemux`, `TsRoundTrip`, `Crc`, over
  `BitReader` and `Bits`). What the multiplexer writes for any interleaving of access units, the
  demultiplexer hands on exactly; and whatever packets it is fed, it hands on nothing that spans a gap.
  ISO/IEC 13818-1, sections 2.4.3.2 to 2.4.3.7 and Annex A.
- **Reference counting** (`RefBase`). Any number of threads; the one race that breaks the protocol is a
  predicate on steps, and is shown to be reachable and to break it. Nothing is used after it is gone, nothing
  leaks, and a promotion of a live object succeeds.
- **Message queue** (`Looper`). A timed queue over whole runs, against the history of postings.
- **Containers and codecs** (`VectorImpl`, `StableSort`, `SortedVector`, `NalUnits`, `Unicode`, `PacketSource`).

`Sequences` and `Bits` hold facts about sequences and big-endian numbers.

## Where the code does not do what is expected of it

- `findSampleTime` multiplies a run's count by its duration in 32 bits, so times are too small once a run
  reaches 2^32 ticks (`TruncatedTimeExact`, `ReaderTime`). `buildSampleEntriesTable` adds composition offsets
  as unsigned numbers, `SampleIterator` as signed ones, so the two disagree exactly when an offset is
  negative or a run overflows (`EntryTimeIsTime`).
- stts entries are unsigned, so a decode time that goes back, which the writer lets pass, spoils the table
  (`SttsDecodes` is an if-and-only-if).
- `parseChunk` adds a 64-bit size to a 64-bit offset without a check. The offsets it computes are exact if and
  only if no box that it visits reaches 2^63 (`ExactIffFit`, `AcceptedIffBelow`); `ParseChunk` is proved under
  that condition. Without it the walk over the boxes of a 40-byte container never ends (`WalkCanRevisit`), and
  another container is accepted that its boxes do not tile (`UntiledIsAccepted`).
- `getNextNALUnit` drops the last unit when it has a single byte and others come before it, and strips
  trailing zeros (`SplitAnnexB` is an if-and-only-if).
- A promotion's fix-up can take out the sentinel that a first `incStrong` has seen and will take out again
  (`RaceBreaksTheCount`).
- `AnotherPacketSource::read` removes a discontinuity but leaves the count of queued ones as it was: the count
  stays in step if and only if it returns no discontinuity (`Read`). The two-argument `queueDiscontinuity`
  never opens a segment (`TwoArgumentsBreak`).
- Queue times are compared with -1, which stands for none, so negative times are miscounted
  (`NegativeTimeIsLost`).
- A start packet whose flush fails is dropped although the stream goes on collecting behind it
  (`FailedFlushLosesStart`), so the next PES packet handed on may lack its first payload.
- `putBits` takes whole bytes back into the buffer; if part of such a byte was read already, the count of bits
  left wraps around and comes back, and some of the bits pushed are lost (`PutBits` is an if-and-only-if,
  `PutCanFail` such a call).
- `utf16_to_utf8_length` and `utf16_to_utf8` look at different values when a high surrogate has no low one behind
  it (`LengthForetold` is an if-and-only-if, `LengthMissed` such a string).
- `mNumTSPacketsWritten` never advances, so the tables are written once, before the first unit (`WriteTS`).
- With a non-zero pointer field `isCRCOkay` checks fewer bytes than the section has. A correct section is then
  accepted if and only if its last bytes drive the loop from zero to zero (`CorrectAcceptedIff`);
  `CorrectButRefused` is one for which they do not.
- Merging two sorted vectors that meet in a key at their ends puts that key in twice (`MergeSorted`,
  `MergeDuplicates`).
- `insertArrayAt` reports that memory ran out if and only if nothing was to be inserted at the very end of the
  storage (`InsertArrayAt`; `InsertNothing` is such a call).

## Model

| member | source | states |
|---|---|---|
| TrackTables.AddToStts | libstagefright/MPEG4Writer.cpp:2385-2406 | Whatever was added before, the closed runs and the pending one together stand for the rounded durations seen so far, also across the forced single-sample first run. |
| TrackTables.FinishStts | libstagefright/MPEG4Writer.cpp:2486-2503 | The finished stts counts every sample once and gives sample i the 32-bit distance to its successor (the last sample repeats its predecessor's); with no sample at all it still counts two. |
| TrackTables.SttsDecodes | libstagefright/MPEG4Writer.cpp:2385-2503 | The decode times of the table are the rounded distances to the first sample if and only if no gap is negative or needs more than 32 bits. |
| TrackTables.NoDrift | libstagefright/MPEG4Writer.cpp:2380-2387 | Rounded time differences never drift: they stay within one tick of the true difference, however many samples lie between. |
| TrackTables.DecodedTimes | libstagefright/MPEG4Writer.cpp:2385-2503 | For non-decreasing times the written table counts all samples and places each within a tick of where it was recorded, relative to the first. |
| TrackTables.ReaderTime | libstagefright/SampleIterator.cpp:295-320 | Writer and reader together: the iterator's composition time for sample i is its rounded decode time plus its own offset if and only if no completed run has a product of 2^32 or more. |
| TrackTables.AddToCtts | libstagefright/MPEG4Writer.cpp:2332-2351 | The closed ctts runs and the pending one stand for the composition offsets so far, zero-count runs included. |
| TrackTables.FinishCtts | libstagefright/MPEG4Writer.cpp:2505-2511 | The finished ctts gives each sample its own composition offset. |
| TrackTables.SyncNumbersList | libstagefright/MPEG4Writer.cpp:2419-2421 | stss is strictly increasing and lists exactly the one-based numbers of the sync samples. |
| TrackTables.Track.AddSample | libstagefright/MPEG4Writer.cpp:2316-2421 | One round of the track loop appends one sample to sizes, times, offsets and sync flags and keeps all run-length builders in step with them. |
| TrackTables.Track.Finish | libstagefright/MPEG4Writer.cpp:2486-2511 | The finished stts and ctts decode to the durations and offsets of all samples added. |
| TrackChunks.AddKeepsGrouped | libstagefright/MPEG4Writer.cpp:2445-2468 | Accepting a sample loses or reorders nothing: chunks and pending samples are the accepted samples in order, and stsc describes the chunks, also when equal chunk sizes share an entry. |
| TrackChunks.LastKeepsGrouped | libstagefright/MPEG4Writer.cpp:2478-2484 | The last chunk takes all pending samples; afterwards the chunks alone are the accepted samples and stsc describes them all. |
| TrackChunks.FirstSampleIsSum | libstagefright/MPEG4Writer.cpp:1419-1425 | The reader's definition of a chunk's first sample, from stsc, is the number of samples in the chunks before it. |
| TrackChunks.ChunksInTime | libstagefright/MPEG4Writer.cpp:2445-2468 | Over every sequence of samples and times: a chunk is completed by the first sample that comes later than the interleave duration after the chunk's reference time, and takes its time stamp. |
| ChunkWriter.StepKeepsInv | libstagefright/MPEG4Writer.cpp:1561-1694 | Every atomic step of every track thread and of the writer thread, which takes a chunk in one step and writes it in another, keeps: file and log agree; per track the written chunks are a prefix of the buffered ones, are in the file at their recorded offsets, and the held chunk and the queue are the rest. |
| ChunkWriter.RunKeepsInv | libstagefright/MPEG4Writer.cpp:1663-1694 | The same over every run of any length and schedule, those of real-time recording included, where track threads come in between taking a chunk and writing it. |
| ChunkWriter.AllChunksWritten | libstagefright/MPEG4Writer.cpp:1603-1616 | When recording is over, every buffered chunk of every track has been written exactly once and in order, and the file is those chunks and nothing else. |
| ChunkWriter.EarliestIsLeast | libstagefright/MPEG4Writer.cpp:1618-1661 | The chunk chosen has the least time stamp of all first chunks, the earliest track on a tie; none is found only if no first chunk lies below the largest time. |
| ChunkWriter.NothingToWrite | libstagefright/MPEG4Writer.cpp:1618-1645 | Given the invariant, none is found if and only if every queue is empty. |
| ChunkWriter.TablesWellFormed | libstagefright/MPEG4Writer.cpp:1419-1458 | The stsc, stco, stsz and stts written for a finished track satisfy everything the reader's iterator relies on. |
| ChunkWriter.TablesSelectSample | libstagefright/SampleIterator.cpp:54-153 | Offset and size by the reader's definitions select exactly the bytes stored for sample i, length prefix included for AVC. |
| ChunkWriter.EveryTrackReadsBack | libstagefright/MPEG4Writer.cpp:1561-1694 | For every schedule, once recording is over each non-empty track has exactly the samples it was given, is complete, and its tables are well formed. |
| ChunkWriter.EveryChunkInTime | libstagefright/MPEG4Writer.cpp:2445-2484 | For every schedule, each chunk of each track ends with the first sample later than the interleave duration, except a last one with what was pending at the end. |
| ChunkWriter.SamplesKept | libstagefright/MPEG4Writer.cpp:2430-2468 | For every schedule, a track keeps exactly the samples it was given, in order. |
| ChunkWriter.ReadSample | libstagefright/SampleIterator.cpp:54-153 | End to end: seeking the iterator to sample i, in any order of seeks, and reading offset and size from the file returns the bytes of accepted sample i, behind their number in 2 or 4 bytes for AVC, and its truncated time plus offset. |
| ChunkWriter.ReadUnit | libstagefright/MPEG4Extractor.cpp:3300-3357 | What is handed on for sample i: for AVC a start code and exactly the sample, otherwise the sample itself. |
| ChunkWriter.ReadRecorded | libstagefright/MPEG4Extractor.cpp:3300-3357 | Bytes and time of one sample together: sample i comes back as recorded, behind a start code for AVC, and at its rounded time from the first sample plus its own offset if and only if no completed run of the stts has a product of 2^32 or more. |
| ChunkWriter.StoredHolds | libstagefright/MPEG4Writer.cpp:1027-1084 | An AVC sample that fits its length prefix is stored as a prefix whose big-endian number is the number of bytes that follow, and those bytes are the sample; any other sample is stored as it is. |
| ChunkWriter.MPEG4Writer.AddSample | libstagefright/MPEG4Writer.cpp:1027-1084 | Appends bytes that hold the sample in this sense, and returns where they went. |
| ChunkWriter.MPEG4Writer.WriteChunkToFile | libstagefright/MPEG4Writer.cpp:1579-1601 | Appends all samples of a chunk in order and records the offset of the first one, and only of that. |
| ChunkWriter.MPEG4Writer.FindChunkToWrite | libstagefright/MPEG4Writer.cpp:1618-1661 | Takes the earliest first chunk off its queue and changes no other track. |
| ChunkWriter.MPEG4Writer.TakeChunk | libstagefright/MPEG4Writer.cpp:1671-1677 | The first half of a round of the writer thread is the take step of the state machine. |
| ChunkWriter.MPEG4Writer.PutChunk | libstagefright/MPEG4Writer.cpp:1683-1691 | The second half, without the lock, is the write step. |
| ChunkWriter.MPEG4Writer.WriterRound | libstagefright/MPEG4Writer.cpp:1663-1694 | A round of the writer thread that nobody interrupts takes and writes the earliest chunk, if there is one. |
| ChunkWriter.MPEG4Writer.WriteAllChunks | libstagefright/MPEG4Writer.cpp:1603-1616 | Repeats the write step until nothing is left to write. |
| ChunkWriter.MPEG4Writer.AcceptSample | libstagefright/MPEG4Writer.cpp:2445-2468 | The chunk part of one round of a track loop is the accept step of the state machine; empty samples change nothing. |
| ChunkWriter.MPEG4Writer.EndOfTrack | libstagefright/MPEG4Writer.cpp:2478-2484 | The end of a track loop is the end step of the state machine. |
| TableEntries.FlatAt | libstagefright/MPEG4Writer.cpp:120-133 | Value k of a table kept in blocks is found by dividing k by the block size. |
| TableEntries.PlaceOf | libstagefright/MPEG4Writer.cpp:159-181 | The place computed from the two counters is the next free one of the last block, and a new block is due exactly when it is full. |
| TableEntries.ListTableEntries.Add | libstagefright/MPEG4Writer.cpp:159-181 | Appends one value to the table. |
| TableEntries.ListTableEntries.Set | libstagefright/MPEG4Writer.cpp:116-133 | Replaces one value and no other. |
| TableEntries.ListTableEntries.Get | libstagefright/MPEG4Writer.cpp:139-157 | Returns the value at a position if and only if its entry is complete. |
| TableEntries.ListTableEntries.Write | libstagefright/MPEG4Writer.cpp:183-198 | Writes the entry count and all values in the order they were added. |
| SampleTables.TruncatedTimeExact | libstagefright/SampleIterator.cpp:301-317 | The 32-bit run products give the true decode time of sample i if and only if no completed run overflows; otherwise the result is too small. |
| SampleTables.ChunkIsUnique | libstagefright/SampleIterator.cpp:155-187 | In a well-formed stsc a sample lies in one chunk only. |
| SampleTables.ChunkByDivision | libstagefright/SampleIterator.cpp:87-104 | Dividing by the samples per chunk inside a run finds the chunk the sample lies in, and that chunk's first and next-first sample. |
| SampleIterator.CompositionDeltaLookup.GetCompositionTimeOffset | libstagefright/SampleTable.cpp:81-105 | Whatever was asked before, the cached cursor returns what a fresh run-length lookup returns. |
| SampleIterator.SampleIterator.SeekTo | libstagefright/SampleIterator.cpp:54-153 | After any sequence of seeks in any order, offset, size and time are those of the cursor-free definitions; the error is end of stream exactly past the last sample, and malformed exactly when tables are missing. |
| SampleIterator.SampleIterator.FindChunkRange | libstagefright/SampleIterator.cpp:155-187 | Advances to the stsc entry covering the sample, computing boundaries incrementally without overflow; fails exactly for the reserved largest index. |
| SampleIterator.SampleIterator.FindRun | libstagefright/SampleIterator.cpp:301-313 | Advances to the stts run covering the sample, or fails exactly when no run does. |
| SampleIterator.SampleIterator.FindSampleTime | libstagefright/SampleIterator.cpp:295-320 | The time is the truncated decode time plus the signed composition offset, from wherever the cursor stood. |
| SampleTable.EntryTimeIsTime | libstagefright/SampleTable.cpp:482-521 | The one-sweep time of sample i equals the iterator's if and only if no completed run overflows 32 bits and the composition offset is not negative as a signed word. |
| SampleTable.BuildSampleEntriesTable | libstagefright/SampleTable.cpp:482-521 | The table has every sample once, with its sweep time, sorted by time. |
| SampleTable.FindSampleAtTime | libstagefright/SampleTable.cpp:523-602 | Before: a latest sample not after the time, or an earliest one if there is none. After: an earliest not before it, failing exactly if there is none. Closest: a sample at the least distance of all. |
| SampleTable.AnswerInTable | libstagefright/SampleTable.cpp:523-602 | An answer about the sorted entries is an answer about the samples themselves. |
| SampleTable.QSort | libstagefright/SampleTable.cpp:469-521 | The entries come out sorted by time and are a permutation of those that went in. |
| SampleTable.SampleTable.FindSyncSampleNear | libstagefright/SampleTable.cpp:604-736 | On an increasing table that starts at or before the sample: Before gives the greatest sync sample at or before it, After the least at or after it (out of range exactly if none), Closest the nearer neighbour in composition time, the earlier on a tie; every other error is that of a failed seek. |
| SampleTable.SampleTable.GetMetaDataForSample | libstagefright/SampleTable.cpp:787-835 | Whatever was asked before, the cached scan calls a sample a sync sample exactly when there is no sync table or it is in it. |
| SampleTable.FoundAt | libstagefright/SampleTable.cpp:817-828 | On a sorted table a scan from any safe starting point finds the sample if and only if it is there. |
| BoxWriter.BoxWritten | libstagefright/MPEG4Writer.cpp:1124-1149 | Begin, contents, end adds exactly one box: a size field, the type, the contents. |
| BoxWriter.SizeFieldIsExtent | libstagefright/MPEG4Writer.cpp:1134-1149 | The size field holds the extent of the box, header included, for boxes below 4 GB. |
| BoxWriter.SpaceFilled | libstagefright/MPEG4Writer.cpp:907-922 | The moov box and the free box behind it fill the reserved space exactly, the free box's size field says so, and no byte outside the space changes. |
| BoxWriter.MPEG4Writer.Write | libstagefright/MPEG4Writer.cpp:1086-1122 | Adds the same bytes to the stream of the moov box whether they stay in memory, spill to the file with everything before them, or go to the file. |
| BoxWriter.MPEG4Writer.BeginBox | libstagefright/MPEG4Writer.cpp:1124-1132 | Opens a box at the current end of the stream, in memory or in the file. |
| BoxWriter.MPEG4Writer.EndBox | libstagefright/MPEG4Writer.cpp:1134-1149 | Patches the size of the innermost open box, wherever its bytes are by then, and nothing else. |
| BoxWriter.MPEG4Writer.WriteContent | libstagefright/MPEG4Writer.cpp:1086-1149 | A tree of boxes written by any such calls adds exactly its bytes, and depends on the calls only. |
| BoxWriter.MPEG4Writer.WriteMoov | libstagefright/MPEG4Writer.cpp:891-936 | If the moov box fits with room for a free box it replaces the reserved space and the rest of the file is untouched; in every other case the file is what it was, with the moov box appended. |
| BoxParser.MPEG4Extractor.ParseChunk | libstagefright/MPEG4Extractor.cpp:748-1813 | If no box that is visited reaches 2^63, the method ends with the outcome of the unbounded walk; on OK, and on the stop after a moov box, the offset has moved by exactly the size of the box. |
| BoxParser.MPEG4Extractor.ParseBoxes | libstagefright/MPEG4Extractor.cpp:873-884 | Under the same condition, parses boxes up to a boundary; on OK it ends exactly there. |
| BoxParser.MPEG4Extractor.ParseEntries | libstagefright/MPEG4Extractor.cpp:1226-1238 | Under the same condition, parses as many sample descriptions as the box says; on OK they end exactly at the end of the box. |
| BoxParser.WalkIffTiled | libstagefright/MPEG4Extractor.cpp:873-884 | The contents of a container are accepted if and only if accepted boxes tile them exactly. |
| BoxParser.AdvanceIsForward | libstagefright/MPEG4Extractor.cpp:873-884 | In 64-bit arithmetic stepping over a box moves forward if and only if the end of the box stays below 2^63. |
| BoxParser.HeaderRead | libstagefright/MPEG4Extractor.cpp:751-772 | A box header of 8 bytes with any 32-bit size, or of 16 with any 64-bit size, is read as written; sizes below that of the header are malformed, and a header past the end is an error. |
| BoxParser.WrittenBoxesWalk | libstagefright/MPEG4Extractor.cpp:873-884 | Boxes that the writer made are walked back to the same boundaries. |
| BoxParser.WrittenMoovIsParsed | libstagefright/MPEG4Extractor.cpp:748-920 | The moov box the writer made is accepted to its last byte, wherever it ended up in the file. |
| MovieBoxes.MovieShaped | libstagefright/MPEG4Writer.cpp:972-984 | In the moov box that the writer makes, for any tracks, boxes are found exactly where the extractor looks for them, behind the 8 bytes of stsd and the 28 or 78 bytes of a sample entry. |
| MovieBoxes.MovieIsParsed | libstagefright/MPEG4Extractor.cpp:748-1238 | That moov box is walked to its last byte, if the contents of the boxes without boxes and the tracks are accepted. |
| BoxOffsets.ExactIffFit | libstagefright/MPEG4Extractor.cpp:748-1813 | The walk on wrapped 64-bit offsets gives the outcome of the unbounded walk, visits the same boxes and leaves every offset exact if and only if no box visited reaches 2^63. |
| BoxOffsets.AcceptedIffBelow | libstagefright/MPEG4Extractor.cpp:748-1813 | A box whose contents tile it is accepted on wrapped offsets, with the offset left behind it, if and only if its own end is below 2^63. |
| BoxOffsets.WalkCanRevisit | libstagefright/MPEG4Extractor.cpp:873-884 | In a 40-byte container whose second box has a 64-bit size the walk goes round for any number of rounds, where the unbounded walk finds it malformed. |
| BoxOffsets.UntiledIsAccepted | libstagefright/MPEG4Extractor.cpp:873-884 | Another 40-byte container is accepted after a step back, although no boxes tile it. |
| TsFormat.PacketIsBits | libstagefright/MPEG2TSWriter.cpp:908-935 | The bytes written for a packet header and adaptation field are the bit fields that the reader takes apart. |
| TsFormat.PesIsBits | libstagefright/MPEG2TSWriter.cpp:936-957 | The same for a PES header with its time stamp. |
| TsFormat.PtsLoss | libstagefright/MPEG2TSWriter.cpp:895 | Converting to the 90 kHz clock and back loses at most 11 microseconds. |
| TsFormat.PcrRoundTrip | libstagefright/MPEG2TSWriter.cpp:924-932 | A clock reference is read back from the six bytes written for it, up to the 33 bits of its base. |
| TsWriter.UnitWiresCarry | libstagefright/MPEG2TSWriter.cpp:835-1009 | The packets of an access unit are 188 bytes each, on its PID, with consecutive counters; put together their payloads are the PES packet, and only the first starts one. |
| TsWriter.MPEG2TSWriter.WriteAccessUnit | libstagefright/MPEG2TSWriter.cpp:835-1009 | Appends exactly those packets, with the clock reference in the first, padded by adaptation fields, and advances the counter once per packet. |
| TsWriter.MPEG2TSWriter.WriteTS | libstagefright/MPEG2TSWriter.cpp:1011-1018 | Writes both tables if they are due and nothing otherwise; since the packet counter never advances they are due only once. |
| TsParser.ParsePES | libstagefright/mpeg2ts/ATSParser.cpp:1006-1176 | A PES packet with any header, that is any flags, with or without PTS, DTS, ESCR and ES rate, and any stuffing, is handed on once with its time stamps and as much data as its length leaves, or all of it without a length; with less data than that it is malformed. Other kinds of streams are skipped. |
| TsParser.ReadOptionalHeader | libstagefright/mpeg2ts/ATSParser.cpp:1065-1133 | Whatever optional fields a header has, both time stamps are read and exactly the header is gone. |
| TsParser.WrittenHead | libstagefright/MPEG2TSWriter.cpp:936-957 | A PES packet as the multiplexer makes it is one of these, and carries all of its data. |
| TsDemux.ParseAdaptationField | libstagefright/mpeg2ts/ATSParser.cpp:1674-1724 | Whatever an adaptation field holds, it is skipped to its last byte, and its clock reference is found if it has one. |
| TsDemux.ParseStream | libstagefright/mpeg2ts/ATSParser.cpp:682-759 | Has the stream hear the packet, and hands on only what it flushes when a new PES packet starts. |
| TsDemux.BufferIsRun | libstagefright/mpeg2ts/ATSParser.cpp:682-759 | Over every sequence of packets with any counters and starts: a stream is collecting exactly when some packet started a PES packet and none since has left a gap or started another, and its buffer is the payloads from there on; otherwise it is empty. |
| TsDemux.FlushedIsRun | libstagefright/mpeg2ts/ATSParser.cpp:715-731 | What a new start flushes was received without a gap, up to the packet just before, from a start on. |
| TsDemux.GapDropsAll | libstagefright/mpeg2ts/ATSParser.cpp:690-711 | After a gap nothing is buffered, and so nothing flushed, until a packet starts. |
| TsDemux.FailedFlushLosesStart | libstagefright/mpeg2ts/ATSParser.cpp:715-735 | A start whose flush fails loses its own payload, yet what follows is collected. |
| TsDemux.ReadPat | libstagefright/mpeg2ts/ATSParser.cpp:1425-1493 | Reads back the entries of an association section. |
| TsDemux.ReadPmt | libstagefright/mpeg2ts/ATSParser.cpp:306-402 | Reads back the streams of a map section, whatever descriptors the program and the streams have. |
| TsDemux.SkipDescriptors | libstagefright/mpeg2ts/ATSParser.cpp:374-389 | Any descriptors that fill the given length are skipped; whenever it succeeds, exactly that many bytes are gone. |
| TsDemux.ATSParser.UpdatePrograms | libstagefright/mpeg2ts/ATSParser.cpp:1455-1489 | Adds or updates one program per non-zero entry and gives each map PID a section. |
| TsDemux.ProgramsAdded | libstagefright/mpeg2ts/ATSParser.cpp:1455-1489 | An association section keeps every program in place with its number and streams, adds one for each new number and no other, and puts each map on the PID it is listed with last; numbers stay unique. |
| TsDemux.SectionsAdded | libstagefright/mpeg2ts/ATSParser.cpp:1485-1487 | Every map PID that is listed has a section afterwards, an empty one if it had none. |
| TsDemux.ATSParser.UpdateStreams | libstagefright/mpeg2ts/ATSParser.cpp:403-487 | Adds the streams that are new; a changed type is refused unless two streams traded PIDs, and then the streams end up under each other's PID. |
| TsDemux.StreamsAdded | libstagefright/mpeg2ts/ATSParser.cpp:473-484 | Streams that are there stay as they are; each PID listed besides gets one stream, of the type it is listed with first, that waits for its first start. |
| TsDemux.TradedAgrees | libstagefright/mpeg2ts/ATSParser.cpp:416-470 | When two streams traded PIDs no stream is lost, none loses what it has buffered, and each is on the PID that the section lists its type with. |
| TsDemux.ATSParser.ParseTable | libstagefright/mpeg2ts/ATSParser.cpp:1618-1649 | A complete section updates the programs (PID 0) or the streams of its program, and is cleared. |
| TsDemux.ATSParser.ParsePID | libstagefright/mpeg2ts/ATSParser.cpp:1578-1672 | A payload goes to the section of its PID if there is one, otherwise the first program with a stream on it has that stream hear it, also when a flush fails. |
| TsDemux.ATSParser.FeedTSPacket | libstagefright/mpeg2ts/ATSParser.cpp:1769-1821 | One packet, from its sync byte on, has exactly the effect its payload has on its PID. |
| TsDemux.ATSParser.SignalEOS | libstagefright/mpeg2ts/ATSParser.cpp:1417-1423 | Every stream of every program hands on what it still holds, in order of programs and PIDs, and is empty afterwards. |
| TsRoundTrip.PatHolds | libstagefright/MPEG2TSWriter.cpp:707-757 | The association section written is read back as program 1 with its map PID. |
| TsRoundTrip.PmtHolds | libstagefright/MPEG2TSWriter.cpp:759-833 | The map section written is read back as the streams of all sources. |
| TsRoundTrip.TablesPassCrc | libstagefright/MPEG2TSWriter.cpp:707-833 | Both tables, as the multiplexer writes them, pass the demultiplexer's CRC test. |
| TsRoundTrip.AddedStreams | libstagefright/mpeg2ts/ATSParser.cpp:473-484 | The parser ends up with exactly one stream per source, of the right type. |
| TsRoundTrip.FeedUnit | libstagefright/mpeg2ts/ATSParser.cpp:682-759 | Feeding the packets of a unit, no gap is ever seen; afterwards the stream holds exactly its PES packet, and the unit before it has been delivered. |
| TsRoundTrip.RemuxUnit | libstagefright/MPEG2TSWriter.cpp:835-1009 | Muxing and demuxing one more unit of any source keeps every source in step with its stream. |
| TsRoundTrip.ClockComesThrough | libstagefright/mpeg2ts/ATSParser.cpp:1674-1724 | The demultiplexer finds the clock of a unit in its first packet and none in the others. |
| TsRoundTrip.Remux | libstagefright/MPEG2TSWriter.cpp:654-705 | For any interleaving of access units over the sources, each source's units come out exactly, in order, with their bytes and time stamps. |
| Crc.TableStepIsBitSerial | libstagefright/MPEG2TSWriter.cpp:1036-1045 | One table step equals eight bit-serial polynomial steps, for every state and byte. |
| Crc.ZeroIffOwnCrc | libstagefright/mpeg2ts/ATSParser.cpp:2022-2047 | Four more bytes drive the loop to zero if and only if they are the big-endian CRC of what came before. |
| Crc.WrittenCrcIsOkay | libstagefright/MPEG2TSWriter.cpp:753-754 | A section with the CRC the multiplexer appends is correct, and isCRCOkay accepts it. |
| Crc.OkayIffOwnCrc | libstagefright/mpeg2ts/ATSParser.cpp:2022-2047 | A section is accepted if and only if the last four of the covered bytes are the CRC of those before them. |
| Crc.PointerZeroIsExact | libstagefright/mpeg2ts/ATSParser.cpp:2022-2047 | With pointer field 0 a section is accepted if and only if it ends in its own CRC. |
| Crc.CorrectAcceptedIff | libstagefright/mpeg2ts/ATSParser.cpp:2022-2047 | With pointer field k a correct section is accepted if and only if its last k bytes drive the loop from zero to zero; for k up to four, if and only if they are all zero. |
| Crc.CorrectButRefused | libstagefright/mpeg2ts/ATSParser.cpp:2022-2047 | For every polynomial with a constant term, a correct section that is refused with pointer field 1. |
| Crc.InitCrcTable | libstagefright/MPEG2TSWriter.cpp:1020-1034 | Entry b of the table is b run through eight bit-serial steps. |
| Crc.Crc32 | libstagefright/MPEG2TSWriter.cpp:1036-1045 | The table-driven loop computes the CRC of the bit-serial definition. |
| Crc.IsCrcOkay | libstagefright/mpeg2ts/ATSParser.cpp:2022-2047 | The test accepts exactly the complete sections that have no syntax bit or whose covered bytes, as many as the unsigned count comes to, drive the loop to zero. |
| RefBase.StepKeepsInv | libutils/RefBase.cpp:211-415 | Every atomic step of any of unboundedly many threads, other than the race, keeps the counting invariant. |
| RefBase.EveryRunIsSafe | libutils/RefBase.cpp:211-415 | Over every race-free run: the object is destroyed at most once and never while a strong reference or the creator's raw pointer exists, the block is freed at most once and only after it, nothing is used after it is gone, and both counters are exact up to the sentinel. |
| RefBase.QuiescentRunReclaims | libutils/RefBase.cpp:229-316 | When no call is in progress and no reference is left, the object has been destroyed and the block freed, each exactly once. |
| RefBase.StrongZeroIsFinal | libutils/RefBase.cpp:318-377 | Once the strong count is 0 it stays 0 and no promotion, under way or yet to come, succeeds. |
| RefBase.GivesUpOnlyAtZero | libutils/RefBase.cpp:326-377 | A promotion gives up only in a state where the strong count is 0 or below and nobody owns a strong reference. |
| RefBase.PromotionSucceeds | libutils/RefBase.cpp:318-415 | From every good state with a positive strong count, short of the race, a promotion that is left alone ends with one more strong reference, owned by the thread that made it, and nothing else changed. |
| RefBase.IncStrongEnds | libutils/RefBase.cpp:211-227 | Left alone, incStrong ends with one strong reference more; the first one replaces the sentinel. |
| RefBase.DecStrongEnds | libutils/RefBase.cpp:229-245 | Left alone, decStrong ends with one strong reference less; the last one destroys the object, and with the last reference of all the block is freed. |
| RefBase.DecWeakEnds | libutils/RefBase.cpp:285-316 | Left alone, decWeak ends with one weak reference less; the last reference of all frees the block and destroys an object that never had a strong one. |
| RefBase.RaceBreaksTheCount | libutils/RefBase.cpp:399-412 | The excluded step, a fix-up while a first incStrong is still before line 225, always can make the strong count negative while two references are owned, after which a promotion fails on a live object. |
| RefBase.RaceIsReachable | libutils/RefBase.cpp:211-227 | A race-free run of two threads that leads up to that step. |
| Looper.StepKeepsInv | foundation/ALooper.cpp:165-225 | Taken messages followed by queued ones stay the stable sort by due time of all posted ones; none is taken early; a sleeping thread has an empty queue or a deadline at the head's due time. |
| Looper.EveryRunInOrder | foundation/ALooper.cpp:165-225 | The same over every run with a clock that does not go back. |
| Looper.TakenWhenDue | foundation/ALooper.cpp:165-225 | Over every run: messages are taken in the order of posting time plus delay, a delay that is not positive counting 0, equal ones in posting order; none is taken before that time, and none is lost or duplicated. |
| Looper.LoopTakesDue | foundation/ALooper.cpp:191-225 | A running loop takes the posting that is due first of those not taken yet if its time has come, and otherwise sleeps and takes nothing. |
| Looper.NoOversleep | foundation/ALooper.cpp:191-225 | A sleeping thread's deadline is the least posting time plus delay of all messages not taken yet; without a deadline all were taken. |
| Looper.ALooper.PostMessage | foundation/ALooper.cpp:165-189 | Inserts behind all messages due no later, and wakes the thread when the message is the new head. |
| Looper.ALooper.LoopStep | foundation/ALooper.cpp:191-225 | Takes the head if it is due, waits for it otherwise, and asks not to be called again exactly when the looper was stopped. |
| Looper.ALooper.StopLooper | foundation/ALooper.cpp:134-163 | Stops the loop and wakes it. |
| VectorImpl.Vector.Grow | libutils/VectorImpl.cpp:374-422 | Makes room at any place in storage that is then this vector's alone; the items around the gap stay, and no vector sharing the old buffer changes. |
| VectorImpl.Vector.Shrink | libutils/VectorImpl.cpp:424-473 | Removes items at any place; no vector sharing the buffer changes. |
| VectorImpl.Vector.EditArray | libutils/VectorImpl.cpp:90-104 | Contents stay and the storage becomes this vector's alone. |
| VectorImpl.Vector.MoveTo | libutils/VectorImpl.cpp:363-372 | Releasing one buffer for another keeps every reference count equal to the number of vectors on it. |
| VectorImpl.Vector.Finish | libutils/VectorImpl.cpp:291-296 | An emptied vector gives its reference up, and sharers keep theirs. |
| VectorImpl.Vector.Assign | libutils/VectorImpl.cpp:72-88 | Both vectors stand for the same sequence in one buffer, and all others keep theirs. |
| VectorImpl.Copy | libutils/VectorImpl.cpp:54-61 | A copy shares the buffer and counts as one more reference. |
| VectorImpl.SoleOwner | libutils/SharedBuffer.cpp:102-116 | With a count of one no other vector points at the buffer. |
| VectorImpl.Vector.InsertArrayAt | libutils/VectorImpl.cpp:124-133 | Sequence insertion; bad index exactly past the end; a lack of memory is reported if and only if nothing was to be inserted and the index is the capacity. |
| VectorImpl.InsertNothing | libutils/VectorImpl.cpp:124-133 | Inserting an empty array into a vector without storage reports a lack of memory. |
| VectorImpl.Vector.RemoveItemsAt | libutils/VectorImpl.cpp:279-289 | Sequence removal, or bad index and no change. |
| VectorImpl.Vector.ReplaceAt | libutils/VectorImpl.cpp:254-277 | Replaces one item of this vector only. |
| VectorImpl.Vector.SortItems | libutils/VectorImpl.cpp:170-221 | The in-place insertion sort leaves the stable sort of the items, and no sharing vector changes. |
| SortedVector.MapOfBoth | libutils/VectorImpl.cpp:585-600 | Of two lists one after the other, the map is the union of their maps, the later list winning. |
| SortedVector.IndexOrderOf | libutils/VectorImpl.cpp:547-571 | The binary search finds an item with the key if there is one, also in a vector with repeated keys, and otherwise the one place where the key belongs. |
| SortedVector.Add | libutils/VectorImpl.cpp:573-583 | Adding updates the map at one key, whether the item is inserted or replaces another, and the vector stays strictly increasing. |
| SortedVector.Remove | libutils/VectorImpl.cpp:620-627 | Removing takes one key out of the map, and says whether it was there. |
| SortedVector.Merge | libutils/VectorImpl.cpp:585-600 | Merging any vector, itself included, item by item is the union of maps, the merged items winning; no sharing vector changes. |
| SortedVector.MergeSorted | libutils/VectorImpl.cpp:602-618 | The shortcut for vectors that are sorted together keeps one item to a key if and only if the two do not meet in a key at their ends; then the result is the union of maps. |
| SortedVector.MergeDuplicates | libutils/VectorImpl.cpp:602-618 | Whenever the two meet in a key at their ends, the merged vector has that key twice. |
| SortedVector.MergeCanDuplicate | libutils/VectorImpl.cpp:606-611 | Two strictly increasing vectors whose merge, whatever it is, has a key twice. |
| StableSort.SortIsSorted | libutils/VectorImpl.cpp:170-221 | The result is sorted. |
| StableSort.SortIsPermutation | libutils/VectorImpl.cpp:170-221 | It has the same items. |
| StableSort.SortIsStable | libutils/VectorImpl.cpp:170-221 | Items that compare equal keep their order. |
| NalUnits.SplitAnnexB | libstagefright/avc_utils.cpp:180-253 | Units written behind start codes and split again come back the same if and only if each is clean and, of several, the last has two bytes. |
| NalUnits.RoundTrip | libstagefright/MPEG4Extractor.cpp:3300-3357 | The same from length-prefixed units of any prefix width 1 to 4. |
| NalUnits.FirstUnit | libstagefright/avc_utils.cpp:205-252 | The first unit is returned whole if and only if it is clean, and the rest begins at its successor's start code. |
| NalUnits.GetNextNALUnit | libstagefright/avc_utils.cpp:180-253 | Every input: try again, malformed, or the unit up to the next start code without trailing zeros, and what is left. |
| NalUnits.ParsePrefixed | libstagefright/MPEG4Extractor.cpp:3304-3312 | Length prefixes are read as they are written. |
| NalUnits.ToStartCodes | libstagefright/MPEG4Extractor.cpp:3300-3357 | The loop fails exactly when the prefixes do not lead to the end of the sample, and otherwise puts a start code before every non-empty unit. |
| NalUnits.ParseNALSize | libstagefright/MPEG4Extractor.cpp:3059-3076 | The big-endian number in the first 1 to 4 bytes. |
| BitReader.ABitReader.GetBits | foundation/ABitReader.cpp:46-68 | The next n bits of the stream as a big-endian number, across any number of refills; the rest of the stream is unchanged. |
| BitReader.ABitReader.SkipBits | foundation/ABitReader.cpp:70-79 | Drops exactly n bits. |
| BitReader.ABitReader.PutBits | foundation/ABitReader.cpp:81-92 | Puts the low n bits in front of the stream, taking whole bytes back if the reservoir is too full; the rest of the stream is kept if and only if the bits that leave the reservoir are those of these bytes. |
| BitReader.ABitReader.FillReservoir | foundation/ABitReader.cpp:30-44 | Refilling changes nothing about the bits still to be read. |
| BitReader.ABitReader.NumBitsLeft | foundation/ABitReader.cpp:94-96 | The number of bits still to be read. |
| BitReader.ABitReader.Data | foundation/ABitReader.cpp:98-100 | The byte that holds the next unread bit. |
| BitReader.PutThenGet | foundation/ABitReader.cpp:46-92 | Pushing bits back and reading them again restores value and stream if and only if those bits are the same. |
| BitReader.PutCanFail | foundation/ABitReader.cpp:81-92 | Bits pushed back after part of a byte was read that are not the ones taken back. |
| BitReader.ParseUE | libstagefright/avc_utils.cpp:33-42 | Reads one ue(v) value and exactly its bits. |
| BitReader.UEDecodesItsCode | libstagefright/avc_utils.cpp:33-42 | parseUE inverts the ue(v) code of every value below 2^32 - 1, whatever follows. |
| BitReader.UEAcceptsOnlyCodes | libstagefright/avc_utils.cpp:33-42 | Whatever parseUE accepts is the code of the value it returns. |
| Unicode.EncodedReads | libutils/Unicode.cpp:79-131 | Every code point is read back from its UTF-8 bytes, and the first byte tells how many they are. |
| Unicode.RoundTrip | libutils/Unicode.cpp:333-574 | A UTF-16 string comes back from UTF-8 if and only if it is well formed; otherwise it is not longer, and the bytes can be decoded all the same. |
| Unicode.PairValues | libutils/Unicode.cpp:344-348 | The 32-bit word computed from a high surrogate and the unit behind it is the code point of the pair if that is a low one, another of two units above the low ones, and a single unit below them. |
| Unicode.LengthForetold | libutils/Unicode.cpp:333-425 | The length of the encoding is foretold if and only if stray high surrogates add as many bytes as they take away; without them it always is. |
| Unicode.LengthMissed | libutils/Unicode.cpp:333-425 | A string of two units whose encoding has one byte more than foretold. |
| Unicode.Utf16ToUtf8 | libutils/Unicode.cpp:333-357 | The pointer loop computes the encoding, that of stray surrogates included. |
| Unicode.Utf16ToUtf8Length | libutils/Unicode.cpp:406-425 | The length of the encoding, or -1 for the empty string. |
| Unicode.Utf8ToUtf16 | libutils/Unicode.cpp:545-569 | The pointer loop computes the decoding. |
| Unicode.Utf8ToUtf16Length | libutils/Unicode.cpp:519-543 | The length of the decoding, or -1 exactly when the last code point is cut short. |
| PacketSource.SegmentCount | libstagefright/mpeg2ts/AnotherPacketSource.cpp:229-349 | There is one segment more than there are discontinuities queued, so the segment list is never empty. |
| PacketSource.AppendUnit | libstagefright/mpeg2ts/AnotherPacketSource.cpp:259-266 | A queued unit is one more in the history of the last segment, and of no other. |
| PacketSource.AppendDiscontinuity | libstagefright/mpeg2ts/AnotherPacketSource.cpp:240-251 | Queueing a discontinuity opens a segment without history. |
| PacketSource.DiscardUnits | libstagefright/mpeg2ts/AnotherPacketSource.cpp:307-331 | After discarding, the queue goes with as many segments as before, all without history. |
| PacketSource.DiscardsByParts | libstagefright/mpeg2ts/AnotherPacketSource.cpp:307-324 | Discarding keeps every discontinuity, in its place among the others, and drops every unit. |
| PacketSource.QueueingTracks | libstagefright/mpeg2ts/AnotherPacketSource.cpp:259-266 | A segment's enqueued time stays the greatest time queued in it, and its dequeued time the greater of the first one queued and all dequeued, when a unit is queued. |
| PacketSource.DequeueingTracks | libstagefright/mpeg2ts/AnotherPacketSource.cpp:141-148 | They stay so when a unit is dequeued. |
| PacketSource.SegmentSpan | libstagefright/mpeg2ts/AnotherPacketSource.cpp:407-425 | The difference of the two is how far what was queued reaches beyond the first time and what was dequeued: 0 for a segment that is new or drained. |
| PacketSource.DurationNotNegative | libstagefright/mpeg2ts/AnotherPacketSource.cpp:407-425 | Buffered duration is never negative, and 0 when everything queued was dequeued. |
| PacketSource.NegativeTimeIsLost | libstagefright/mpeg2ts/AnotherPacketSource.cpp:259-266 | With a negative time the count can be off: after -1 and 5 nothing seems to be buffered. |
| PacketSource.TwoArgumentsBreak | libstagefright/mpeg2ts/AnotherPacketSource.cpp:351-381 | After the two-argument call no history of that many segments goes with the queue. |
| PacketSource.AnotherPacketSource.QueueAccessUnit | libstagefright/mpeg2ts/AnotherPacketSource.cpp:229-284 | Appends the unit, to the queue and to the history of the last segment, unless it is damaged; a discontinuity that comes this way opens a segment and clears the end-of-stream result. |
| PacketSource.AnotherPacketSource.DequeueAccessUnit | libstagefright/mpeg2ts/AnotherPacketSource.cpp:115-159 | Returns the head of the queue, or the end-of-stream result, which is kept, or blocks; a unit counts as dequeued from the first segment, a discontinuity closes it, and the count of queued discontinuities stays in step. |
| PacketSource.AnotherPacketSource.Read | libstagefright/mpeg2ts/AnotherPacketSource.cpp:161-214 | The same, except that the count of queued discontinuities is kept: it stays in step with the queue if and only if what is read is not a discontinuity. |
| PacketSource.AnotherPacketSource.QueueDiscontinuity | libstagefright/mpeg2ts/AnotherPacketSource.cpp:301-349 | Drops the queued units and all history if asked, keeps queued discontinuities, and queues one of its own unless the type is none. |
| PacketSource.AnotherPacketSource.QueueDiscontinuityWithoutSegment | libstagefright/mpeg2ts/AnotherPacketSource.cpp:351-381 | Drops the units and queues a discontinuity; no history fits the segments any more. |
| PacketSource.AnotherPacketSource.Clear | libstagefright/mpeg2ts/AnotherPacketSource.cpp:286-299 | Empties the queue and leaves one segment without history. |
| PacketSource.AnotherPacketSource.SignalEOS | libstagefright/mpeg2ts/AnotherPacketSource.cpp:383-389 | Sets the end-of-stream result and nothing else. |
| PacketSource.AnotherPacketSource.GetBufferedDurationUs | libstagefright/mpeg2ts/AnotherPacketSource.cpp:407-425 | Unless a time was negative, the sum over the segments of how far what was queued reaches beyond the start and what was dequeued; 0 for an empty queue. |

## Left out

- BitReader.ABitReader.GetBits: a shift of a 32-bit word by 32 is taken to give 0. Sizes have 64 bits throughout.
- BitReader.ABitReader.PutBits: no byte in front of the buffer is taken back, which the code does not check.
- BitReader.ParseUE: at most 31 leading zeros; with more, `getBits` and the shift are undefined.
- RefBase.EveryRunIsSafe: standard lifetime only; fewer than 2^28 references; a raw pointer is not counted, so while the creator still has it no thread drops its only strong reference and nobody the last weak one. Extended lifetimes, `forceIncStrong` and reference tracking are not modelled.
- SampleIterator.SampleIterator.SeekTo: seeks that fail half way and leave the cursor half updated; sizes, offsets and runs are sequences rather than reads from the file of 4, 8, 16 or 32 bits each; boundaries of stsc entries and the sum of stts counts must be below 2^32.
- SampleTable.FindSampleAtTime: needs at most 2^31 samples, because the binary search adds its two bounds in 32 bits; the empty table is excluded except for After, where the code reads no entry.
- SampleTable.EntryTimeIsTime: decode times that come within 2^32 of 2^64 are excluded.
- SampleTable.SampleTable.FindSyncSampleNear: the result on a table that is not increasing or starts after the sample is not described, only that the iterator stays valid.
- SampleTable.QSort: `qsort` itself is only a sorted permutation.
- First-entry start offset patched in by `writeSttsBox` and `writeCttsBox`, pause and resume times, drift correction, size and duration limits, moov size estimation: adjusted time stamps are inputs.
- ChunkWriter.EveryTrackReadsBack: chunk times are below the largest 64-bit number and AVC samples fit their length prefix; recording stops after all track threads have ended; frames of length 0 are skipped as in the code; with 32-bit offsets the file must stay below 4 GB for reading back.
- ChunkWriter.ReadUnit: reading one NAL fragment at a time, and the conversion of the time from ticks to microseconds.
- BoxParser.MPEG4Extractor.ParseChunk: what leaf boxes do (their fields, sample descriptions, track verification) is a parameter that says whether they succeed; movie fragments, DRM, metadata and the outer loop of `readMetaData` are not modelled.
- MovieBoxes.MovieIsParsed: the contents of boxes without boxes are arbitrary bytes, and it is assumed that the extractor's handlers accept them.
- RefBase.PromotionSucceeds: for a call that no other thread interrupts; with others in between a compare-and-swap may be repeated.
- TsWriter.MPEG2TSWriter.WriteAccessUnit: the number that the clock reference stands for is a parameter, since it comes from single-precision arithmetic; codec-specific data and ADTS headers are put in by code that is not modelled.
- TsRoundTrip.Remux: time stamps are those of the first 2^32 ticks, as the writer stores 32 of the 33 bits; audio units fit a 16-bit length; at most 33 sources, so that the map fits one packet. `ElementaryStreamQueue` is not part of this model, so the result is what `onPayloadData` is given. The call of `isCRCOkay` is commented out in `parsePID`; the CRC result stands beside the round trip.
- `TsDemux`: overloads without a sync event, what `updatePCR` does with the clocks found, scrambling and time stamp conversion against a recovered clock.
- `Vector`: items are values, so constructor and destructor calls are not modelled; the comparison of `sort` is that of an integer key; an array to be inserted is not the vector's own storage; growing in place keeps the buffer object.
- SortedVector.MergeSorted: merging a non-empty vector into an empty one is excluded, since the code compares with an item that is not there; so is merging a sorted vector into itself, where the items inserted are in the storage that grows. Keys are integers.
- Crc.IsCrcOkay: a pointer field for which the unsigned count runs past the end of the buffer. The literal `CRC_TABLE` of the demultiplexer is taken to be the table of the polynomial.
- `Looper`: delivery through the roster, starting and joining the thread; spurious wake-ups are allowed.
- NalUnits.ToStartCodes: the size check on the destination buffer.
- Unicode.Utf16ToUtf8: strings whose last unit is a high surrogate that starts a pair, where the code reads the unit behind the end.
- Unicode.Utf8ToUtf16: needs a string whose last code point is whole; `utf8_to_utf16_length` says whether it is.
- PacketSource.AnotherPacketSource.GetBufferedDurationUs: what it returns when a time was negative.
- `AnotherPacketSource`: formats and metadata, `enable`, estimated durations; waiting is the result `Blocked`.
- Message formatting, MIME tables, `base64`, `ESDS`, strings, file descriptors and logging: easy or plumbing.
