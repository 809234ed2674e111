# Whispercast: a verified model of its index, its live tag path and its registries

Dafny models of the parts of the streaming server where several pieces of code have
to agree, and proofs that they do. `dafny verify dfyconfig.toml` checks everything.

**Where a frame's bytes live.** An F4V file names its frames in compressed sample
tables (STSZ, STSC, STCO, STTS, CTTS, STSS of ISO/IEC 14496-12, sections 8.6.1.2,
8.6.1.3, 8.6.2, 8.7.3 to 8.7.5). `Muxer` builds them from a list of frames,
`SampleTable` walks them back into frame headers, `Demuxer` merges the two tracks and
cuts the MDAT body into frames, with filler where the index leaves gaps. The central
theorem, `RoundTrip.MuxDemuxIdentityIff`, says for every frame list exactly when these undo
one another; `Serializer`, `Joiner` and `FileReading` carry it down to the bytes, and
`Relocate` shows what moving the MOOV does to it. Seeking, the cue table and the
reorder buffer are tied to the same list of frames.

**Live tags.** `TagSplitter` batches tags, `Bootstrapper` remembers what a late client
must be told, `TagDistributor` tells it, `FlowControl` drops what a slow client cannot
take, and `Handoff` models the queue between the media and the network thread as a
state machine over the steps that can interleave. The theorems are about every run.

**Registries.** `ExportSlots` counts clients over any interleaving of many exporters,
`Aliases` shows when resolving a media alias ends.

Classes and loops follow the source: methods change fields in place and are proved
against a function that says what the result means; the modules named `...Facts`, and
`BootstrapperHistory`, prove what the source promises about those functions, in terms of
the bytes, fields and events that went in. Where a promise fails, a lemma names an
input, and another gives the exact condition.

What the proofs found:

- A format's own reader may report the end of file while a batch of tags is open
  (`flv_tag_splitter.cc:74`); that batch is never returned
  (`TagSplitterFacts.OwnEofStrandsOpenBatchIff`).
- A frame without data comes back from the index only if more frames follow it, and an
  audio frame only if the next one is an audio frame too (`RoundTrip.MuxDemuxIdentityIff`);
  the joiner can make such frames, of an AAC tag that is nothing but its header.
- The joiner's first pass skips media before the metadata tag, its second pass writes it,
  which moves every frame away from its index (`Joiner.PassesAgreeIff`).
- `FixFileStructure` with `always_fix` damages a file that was in order
  (`Relocate.ForcedFixMovesOnlyOffsets`).
- A new alias may name itself, and looking it up recurses for ever
  (`Aliases.SelfAliasAccepted`); the test that is missing is in `Aliases.SetKeepsEndingIff`.
- A seek to a frame outside MDAT succeeds and then trips a check on the next read; the one
  exception is a frame right at its end (`DemuxerFacts.SeekSafeIff`).
- Chunk offsets wrap at 4 GB both when they are built and when they are moved
  (`MuxerFacts.MuxedOffsetsIff`, `Relocate.OffsetShiftsIff`).
- A tag that does not match the serializer's index is written all the same and moves
  every later frame (`Serializer.FramesInPlaceIff`); and a media tag behind the last
  indexed frame makes it read behind the end of its list (`f4v_encoder.cc:142`,
  `Serializer.SerializeRun`).
- The reorder buffer and the demuxer expect frames in different orders as soon as an audio
  and a video frame share an offset (`ReorderFacts.OrdersAgreeIff`). Whatever the order, the
  buffer waits for every frame of the index, while the demuxer skips frames that overlap or
  lie out of range and turns one that does not fit into a raw frame: what is expected behind
  such a frame is held back for ever (`ReorderFacts.DemuxedThroughBuffer`).

## Model

| member | source | states |
|---|---|---|
| `SampleTable.NextRun` | whisperstreamlib/f4v/f4v_util.cc:239-254 | the STTS/CTTS cursor with its decremented record yields the next element of the run-length expansion, 0 past the end, and stands one sample further on |
| `SampleTable.ExtractSample` | whisperstreamlib/f4v/f4v_util.cc:239-288 | one turn of the sample loop appends exactly the header that the tables mean for that sample and advances every cursor by one |
| `SampleTable.ExtractChunk` | whisperstreamlib/f4v/f4v_util.cc:233-295 | one chunk appends the headers of the chunk's samples, stopping where STSZ ends |
| `SampleTable.ExtractFrames` | whisperstreamlib/f4v/f4v_util.cc:78-319 | the whole walk returns the declarative meaning of the tables, and nothing when STSC is empty, longer than STCO, illegal on the way, or the timescale is 0 |
| `SampleTable.MarkKeyframes` | whisperstreamlib/f4v/f4v_util.cc:298-313 | exactly the frames whose 1-based number STSS lists become keyframes; numbers out of range are ignored |
| `SampleTable.ChunkOfUnique` | whisperstreamlib/f4v/f4v_util.cc:202-296 | a sample lies in one chunk only: the one whose sample range contains it |
| `SampleTableFacts.RecordForIsLastStarted` | whisperstreamlib/f4v/f4v_util.cc:206-231 | in a well-formed STSC the record used for a chunk is the last one whose first chunk is not behind it |
| `SampleTableFacts.AcceptedIff` | whisperstreamlib/f4v/f4v_util.cc:214-230 | the walk accepts an STSC table if and only if first chunks increase strictly for as far as the walk gets |
| `SampleTableFacts.WellFormedAccepted` | whisperstreamlib/f4v/f4v_util.cc:214-230 | a table that starts at chunk 1 and increases strictly is always accepted |
| `SampleTableFacts.OffsetsInChunk` | whisperstreamlib/f4v/f4v_util.cc:233-288 | a chunk starts where STCO says and each frame in it begins where the one before ends |
| `SampleTableFacts.RunAtIsExpansion` | whisperstreamlib/f4v/f4v_util.cc:239-273 | the k-th run-length element is the k-th entry of the table written out, 0 past the end |
| `SampleTableFacts.HeaderMeans` | whisperstreamlib/f4v/f4v_util.cc:239-288 | for every accepted track and every k, from the tables written out: size, kind and keyframe flag; decoding time, duration and composition offset in milliseconds, each rounded toward zero once; and the sample index in clock ticks |
| `SampleTableFacts.HeaderPlace` | whisperstreamlib/f4v/f4v_util.cc:233-288 | header k lies at its chunk's STCO entry plus the sizes of the samples of that chunk before it |
| `SampleTableFacts.HeaderCount` | whisperstreamlib/f4v/f4v_util.cc:200-295 | there are as many headers as sizes, as far as the chunks have samples |
| `SampleTableFacts.OffsetInMilliseconds` | whisperstreamlib/f4v/f4v_util.cc:278 | a CTTS entry of 3003 on a 90000 Hz clock becomes 33 |
| `SampleTableFacts.TimestampsDoNotDrift` | whisperstreamlib/f4v/f4v_util.cc:275-288 | frame k bears the exact clock rounded once, never decreasing, and the k earlier rounded durations sum to within k milliseconds below it |
| `Muxer.IndexBuilder.AddFrame` | whisperstreamlib/base/media_info_util.cc:863-908 | the running state is at every step the index of the frames added so far, the offset their total size |
| `Muxer.BuildChunkTables` | whisperstreamlib/base/media_info_util.cc:920-944 | STSC numbers the chunks from 1 with their counts; STCO holds each start plus the base, in 32 bits |
| `Muxer.ComposeMoov` | whisperstreamlib/base/media_info_util.cc:863-950 | both tracks are the tables of the index of the frame list, and the body size is the total of all sizes |
| `MuxerFacts.IndexIsFaithful` | whisperstreamlib/base/media_info_util.cc:863-932 | the chunk lists partition each track's frames into runs and give every frame its true position; STSS lists exactly the video keyframes |
| `MuxerFacts.MuxedTrackAccepted` | whisperstreamlib/base/media_info_util.cc:920-932 | the tables built are accepted by the table walk and hold as many frames as the track has |
| `MuxerFacts.MuxedOffset` | whisperstreamlib/base/media_info_util.cc:923-944 | the offset read back for a frame is base plus the sizes of all frames before it, less what its chunk start loses in 32 bits |
| `MuxerFacts.MuxedOffsetsIff` | whisperstreamlib/base/media_info_util.cc:938-944 | every offset read back is the true one if and only if every chunk start fits in 32 bits |
| `MuxerFacts.ChunkStartWraps` | whisperstreamlib/base/media_info_util.cc:938-944 | two frames of one byte in a body that begins one byte below 4 GB: the second one is stored at offset 0 |
| `MuxerFacts.SmallFileFits` | whisperstreamlib/base/media_info_util.cc:934-944 | a file that ends below 4 GB always meets that condition |
| `MuxerFacts.MuxedClockTotal` | whisperstreamlib/base/media_info_util.cc:910-918 | the single STTS record makes the track last less than one clock tick a sample below the announced duration |
| `Demuxer.MergeTracks` | whisperstreamlib/f4v/f4v_decoder.cc:754-767 | the two-cursor loop produces the merge by offset, video first at equal offsets |
| `Demuxer.Decoder.BuildFrames` | whisperstreamlib/f4v/f4v_decoder.cc:730-781 | the frame list becomes the merge of the headers that the two tracks mean |
| `Demuxer.Decoder.SelectHeader` | whisperstreamlib/f4v/f4v_decoder.cc:556-689 | the skipping loop settles on the filler, truncated or regular header specified, and no internal check fires |
| `Demuxer.Decoder.IOReadFrame` | whisperstreamlib/f4v/f4v_decoder.cc:530-729 | a read returns the next of the remaining frames with its bytes, or reports missing data with nothing consumed |
| `Demuxer.Decoder.ReadFrame` | whisperstreamlib/f4v/f4v_decoder.cc:500-529 | both modes return the next remaining piece; at the end the frame state is cleared |
| `Demuxer.Decoder.SeekToFrame` | whisperstreamlib/f4v/f4v_decoder.cc:194-231 | fails exactly outside frame reading or out of range; else stands at the frame, or at the last keyframe up to it, with the previous frame forgotten |
| `Demuxer.Decoder.SeekToTime` | whisperstreamlib/f4v/f4v_decoder.cc:232-255 | seeks to the frame before the first one later than the time; with no frames it succeeds for time 0 only |
| `DemuxerFacts.FrameSought` | whisperstreamlib/f4v/f4v_decoder.cc:240-252 | for any list and time: the frame sought is the one before the first that is later, the last one if none is, the first if that is later |
| `Demuxer.Decoder.GenerateCuePoints` | whisperstreamlib/f4v/f4v_decoder.cc:257-277 | one cue a keyframe in list order, with its timestamp and offset |
| `Demuxer.GetCueForTime` | whisperstreamlib/base/tag.h:286-300 | -1 for an empty table, 0 for a negative time, else an index whose cue is not later (unless it is the first) and whose successor is |
| `Demuxer.SafeIff` | whisperstreamlib/f4v/f4v_decoder.cc:602-606 | the check on the previous frame can fire if and only if no frame was read and a header in range lies behind the position |
| `DemuxerFacts.RemainingTiles` | whisperstreamlib/f4v/f4v_decoder.cc:530-729 | for any header list, sorted or not, the frames read tile the rest of the MDAT body without gap or overlap |
| `DemuxerFacts.RemainingBounded` | whisperstreamlib/f4v/f4v_decoder.cc:556-689 | n headers give at most 2n+1 frames |
| `DemuxerFacts.RawPiecesTile` | whisperstreamlib/f4v/f4v_decoder.cc:503-521 | raw splitting tiles the body with pieces of 10000 bytes, the last one smaller or equal, without times |
| `DemuxerFacts.HeadersRead` | whisperstreamlib/f4v/f4v_decoder.cc:556-689 | every header read is one of the index, or a filler with the time of the one read before it, or one of the index cut off at the end of the body, raw, with its own times |
| `DemuxerFacts.CutOffEndsBody` | whisperstreamlib/f4v/f4v_decoder.cc:662-676 | a header that is due and does not fit is read cut off, and nothing after it |
| `DemuxerFacts.RemainingIsGreedy` | whisperstreamlib/f4v/f4v_decoder.cc:582-688 | leaving the filler out, what is read is the greedy choice: every header in range that does not begin before the last one taken ends |
| `DemuxerFacts.LaidFramesAllRead` | whisperstreamlib/f4v/f4v_decoder.cc:652-688 | disjoint ordered frames that cover the body come out unchanged and without filler |
| `DemuxerFacts.SeekSafeIff` | whisperstreamlib/f4v/f4v_decoder.cc:213-226 | reading after a seek trips no check if and only if the target starts inside MDAT, or right at its end with no header in range behind it |
| `DemuxerFacts.SeekBehindEnd` | whisperstreamlib/f4v/f4v_decoder.cc:213-226 | a seek to a frame behind the end of the body succeeds and leaves a state in which the next read trips a check |
| `DemuxerFacts.SeekCommutesWithReading` | whisperstreamlib/f4v/f4v_decoder.cc:194-231 | with ordered disjoint frames, what is read after a seek to frame j is the tail, starting with frame j, of what is read without it |
| `DemuxerFacts.SeekTargetIsLastKeyframe` | whisperstreamlib/f4v/f4v_decoder.cc:206-211 | a keyframe seek goes to the last keyframe not behind the frame asked for, or to frame 0 |
| `DemuxerFacts.CuePointsAreKeyframes` | whisperstreamlib/f4v/f4v_decoder.cc:266-274 | the cue table has each keyframe once, in order, and nothing else |
| `DemuxerFacts.CueAgreesWithSeekIff` | whisperstreamlib/base/tag.h:286-300 | with non-decreasing times such a cue and the keyframe seek give the same offset if and only if a keyframe exists at or before the time, or the first keyframe has the offset of frame 0 |
| `DemuxerFacts.CueForTime` | whisperstreamlib/base/tag.h:286-300 | searching the cue table of a file finds the last cue in time (or the first cue), none exactly without keyframes, and names the keyframe seek's offset under that condition |
| `FileReading.FileReader.ReadNext` | whisperstreamlib/f4v/f4v_file_reader.cc:80-105 | however the file is cut into pieces, the frames returned are the same: those cut from the pieces joined together |
| `FileReading.CutOfBody` | whisperstreamlib/f4v/f4v_decoder.cc:695-719 | with the whole body at hand every frame of a tiling comes out holding exactly the bytes at its offset |
| `RoundTrip.MergeFollowsList` | whisperstreamlib/f4v/f4v_decoder.cc:754-767 | merging the described tracks by offset restores the order of the frame list, unless an audio frame of size 0 stands before a video frame |
| `RoundTrip.MuxThenDemux` | whisperstreamlib/base/media_info_util.cc:863-944 | for every list with both kinds and fitting chunk starts whose frames of size 0 neither end it nor are audio before video: build the tables, walk them, merge, cut the body, and the same frames come back in order with place, size, kind and keyframe flag, without filler |
| `RoundTrip.MuxedTimes` | whisperstreamlib/base/media_info_util.cc:910-918 | what is read back of times: n frames share the announced duration evenly in whole clock ticks, and none is composed later than it is decoded |
| `RoundTrip.MuxDemuxIdentityIff` | whisperstreamlib/base/media_info_util.cc:863-944 | for every list with both kinds: what a reader sees of the frames read back is the list of frames muxed if and only if every chunk start fits in 32 bits and no frame of size 0 ends the list or is an audio frame right before a video frame |
| `RoundTrip.EmptyAudioFrameIsLost` | whisperstreamlib/f4v/f4v_decoder.cc:754-767 | the smallest list that fails: an audio frame without data before a video frame does not come back |
| `Serializer.FramesSize` | whisperstreamlib/f4v/f4v_encoder.cc:161-168 | the loop returns the total of the sizes |
| `Serializer.Serializer.SerializeFrame` | whisperstreamlib/f4v/f4v_encoder.cc:126-158 | fails exactly without an index; a tag matches if and only if it has the kind, size and timestamp of the entry due, and then advances the index; a mismatched one is written all the same; with all indexed frames written the entry behind the last one would be read |
| `Serializer.SerializeRun` | whisperstreamlib/f4v/f4v_encoder.cc:126-158 | any series of tags is written in order under the declared size, unless one comes that the index has no entry for, and exactly then the run stops |
| `Serializer.SecondTagIsPastIndex` | whisperstreamlib/f4v/f4v_encoder.cc:142 | an index of one frame and two tags that match it: the second finds no entry |
| `Serializer.FramesInPlaceIff` | whisperstreamlib/f4v/f4v_encoder.cc:142-156 | for any series of tags, every matched frame is written where the index has it if and only if no data were passed through for a mismatched tag ahead of a matched one |
| `Serializer.MismatchMovesFrame` | whisperstreamlib/f4v/f4v_encoder.cc:142-150 | one video tag where an audio frame is due moves that frame away from its place |
| `Serializer.SerializeAll` | whisperstreamlib/f4v/f4v_encoder.cc:126-158 | with matching tags the body is their data in order and has the size announced in the MDAT header |
| `Serializer.BodyAt` | whisperstreamlib/f4v/f4v_encoder.cc:155-156 | frame i of the body stands at the sum of the sizes before it |
| `Serializer.SerializeThenDemux` | whisperstreamlib/f4v/f4v_encoder.cc:127-158 | serialized and demuxed along the index, every frame comes back with its own data, frames of size 0 standing only where the round trip allows them |
| `Reorder.StableSortFacts` | whisperstreamlib/f4v/f4v_tag_reorder.cc:36-38 | the order expected is sorted, a permutation, and stable |
| `Reorder.ExpectedOrder` | whisperstreamlib/f4v/f4v_tag_reorder.cc:34-38 | the frames of both tracks, none lost, in the order of their decoding times or of their offsets, as asked |
| `Reorder.TagReorder.Push` | whisperstreamlib/f4v/f4v_tag_reorder.cc:26-61 | a MOOV resets and sets the expected order; other atoms and raw frames pass; a frame is cached and the ready ones go out |
| `Reorder.TagReorder.PopCache` | whisperstreamlib/f4v/f4v_tag_reorder.cc:73-97 | sends out cached frames in expected order until one is missing |
| `Reorder.TagReorder.EmitsLongestReadyPrefix` | whisperstreamlib/f4v/f4v_tag_reorder.cc:73-97 | for any index, with no offset pushed twice: what is out is the longest prefix of the expected frames that can be served, tag for tag, an offset serving one expected frame only, and all the rest of what was pushed is held back |
| `ReorderFacts.OrdersAgreeIff` | whisperstreamlib/f4v/f4v_tag_reorder.cc:34-38 | for any two tracks in file order the reorder buffer expects the frames in the demuxer's order if and only if no audio frame shares its offset with a video frame |
| `ReorderFacts.SharedOffsetDiffers` | whisperstreamlib/f4v/f4v_decoder.cc:760-762 | any offset that both tracks have makes the two orders differ |
| `ReorderFacts.EqualOffsetsDiffer` | whisperstreamlib/f4v/f4v_decoder.cc:760-762 | the smallest such input, two tracks of one frame at one offset: audio first here, video first there |
| `ReorderFacts.NothingHeldBackIff` | whisperstreamlib/f4v/f4v_tag_reorder.cc:73-97 | for any expected list and any offsets of it: nothing that is there is held back if and only if no frame that cannot be served is expected before one that can |
| `ReorderFacts.AllFramesServedIff` | whisperstreamlib/f4v/f4v_decoder.cc:582-688 | for any expected order of the frames of an index: what the demuxer reads serves all of them if and only if the index has them in file order, without overlap, each inside the body |
| `ReorderFacts.DemuxedThroughBuffer` | whisperstreamlib/f4v/f4v_tag_reorder.cc:26-97 | the demuxer's frames pushed into the buffer of the same MOOV: all that is expected comes out if and only if the merged index is laid out so, and the cache ends up empty if and only if no frame that was skipped or cut short is expected before one that was read |
| `ReorderFacts.ReadOnce` | whisperstreamlib/f4v/f4v_decoder.cc:582-688 | with frames of positive size the demuxer never reads two at one offset, so the duplicate check of the buffer never fires |
| `ReorderFacts.SharedOffsetHoldsBack` | whisperstreamlib/f4v/f4v_tag_reorder.cc:73-97 | three frames, the first audio and the first video frame at one place: the demuxer reads both video frames and the buffer holds back the second |
| `Relocate.CutReassembles` | whisperstreamlib/f4v/f4v_decoder.cc:503-521 | the raw pieces of a body, joined, are the body |
| `Relocate.ShiftOffsets` | whisperstreamlib/f4v/f4v_util.cc:660-676 | every STCO entry is increased by the MOOV size, in 32 bits |
| `Relocate.Examine` | whisperstreamlib/f4v/f4v_util.cc:592-653 | done, already in order, or error, exactly as the atoms' number and order demand |
| `Relocate.ResultMeans` | whisperstreamlib/f4v/f4v_util.cc:592-653 | left alone: if a fix is not forced and one FTYP and no MDAT (but one at the very start) stand before the first MOOV; fixed: if otherwise there is exactly one FTYP, one MOOV and one MDAT behind the start; refused in every other case |
| `Relocate.Rewrite` | whisperstreamlib/f4v/f4v_util.cc:678-716 | the output is the input's atoms in order, the MOOV taken out and put, shifted, behind FTYP |
| `Relocate.FixFileStructure` | whisperstreamlib/f4v/f4v_util.cc:577-719 | the two passes together: the result as above; and a fixed file is the encoding of the input's atoms with the MOOV taken out and put right behind the FTYP, its own size added in 32 bits to every chunk offset in it and nothing else changed, and every other atom as it was, in order |
| `Relocate.RewrittenIsMoved` | whisperstreamlib/f4v/f4v_util.cc:678-716 | what the second pass writes, atom by atom, is that list, wherever FTYP and MOOV stand |
| `Relocate.EncodedValue` | whisperstreamlib/f4v/f4v_util.cc:660-676 | the four bytes of a chunk offset, most significant first, have its value |
| `Relocate.MdatMovesByDeltaIff` | whisperstreamlib/f4v/f4v_util.cc:657-660 | an MDAT moves by exactly the MOOV size if and only if FTYP stands before it and MOOV behind it |
| `Relocate.OffsetShiftsIff` | whisperstreamlib/f4v/f4v_util.cc:664-672 | an offset moves by the MOOV size if and only if the result fits in 32 bits |
| `Relocate.RelocationPreservesFrames` | whisperstreamlib/f4v/f4v_util.cc:655-716 | every byte range inside the MDAT is found again, unchanged, as much further on as the offsets were moved |
| `Relocate.RewrittenWhenNeeded` | whisperstreamlib/f4v/f4v_util.cc:618-630 | a file that starts with FTYP and had to be fixed has its MOOV behind its MDAT |
| `Relocate.EveryFrameKept` | whisperstreamlib/f4v/f4v_util.cc:655-716 | for the output as above: whatever track the old MOOV has, and the MOOV in the output with its own chunk offsets, every frame that the old one places in the MDAT has, where the new one places it in the output, the bytes that the old offsets gave in the input; the moved offsets must fit in 32 bits |
| `Relocate.ForcedFixMovesOnlyOffsets` | whisperstreamlib/f4v/f4v_util.cc:624-630 | with `always_fix` a file already in order is damaged: its offsets move while its MDAT does not |
| `Joiner.Strip` | whisperstreamlib/f4v/f4v_joiner.cc:700-795 | what is kept of a tag: nothing of a codec configuration, the data behind the codec header otherwise |
| `JoinerFacts.PayloadMeans` | whisperstreamlib/f4v/f4v_joiner.cc:700-795 | for every tag and any codecs announced, byte by byte: nothing is kept of a configuration (0xaf 0, or 0x17 and four zeros), everything behind a frame header (0xaf 1; 0x17 or 0x27, 1 and three zeros), all of any other media tag |
| `JoinerFacts.KeptBytes` | whisperstreamlib/f4v/f4v_joiner.cc:722-760 | the five cases with both codecs announced |
| `Joiner.Indexer.AddTag` | whisperstreamlib/f4v/f4v_joiner.cc:354-797 | the first pass holds at every tag the index of the stripped frames behind the metadata, and has seen the configurations that came there |
| `Joiner.IndexFiles` | whisperstreamlib/f4v/f4v_joiner.cc:306-804 | over any number of files the first pass indexes their tags as one run |
| `Joiner.WriteFrames` | whisperstreamlib/f4v/f4v_joiner.cc:887-982 | the second pass writes the stripped data of every media tag, those before the metadata included |
| `Joiner.JoinFilesIntoF4v` | whisperstreamlib/f4v/f4v_joiner.cc:306-984 | fails exactly without metadata or an announced codec configuration; else yields the two tracks, the declared size and the body |
| `JoinerFacts.ConfiguredIff` | whisperstreamlib/f4v/f4v_joiner.cc:712-757 | joining succeeds only if behind the first metadata every codec that it announces has a configuration, for AVC one that can be decoded |
| `Joiner.WrittenSplits` | whisperstreamlib/f4v/f4v_joiner.cc:890-982 | the body is what stood before the metadata followed by the indexed frames |
| `Joiner.PassesAgreeIff` | whisperstreamlib/f4v/f4v_joiner.cc:695-698 | every frame is written where the index places it, moved by the bytes before the metadata; the declared size is right if and only if there are none |
| `Joiner.EarlyTagIsWritten` | whisperstreamlib/f4v/f4v_joiner.cc:695-698 | one audio tag before the metadata: the body begins with its bytes, which no indexed frame has |
| `Joiner.JoinThenDemux` | whisperstreamlib/f4v/f4v_joiner.cc:306-984 | with the metadata first, and frames of size 0 only where the round trip allows them, demuxing the joined body along the joined index gives each stripped frame with its own bytes, in input order |
| `JoinerFacts.JoinedPlaysBack` | whisperstreamlib/f4v/f4v_joiner.cc:306-984 | frame i read back from the joined file holds exactly the bytes behind the codec header of the i-th media tag behind the metadata, and is audio, video or a keyframe as that tag is |
| `JoinerFacts.MediaPositionsAre` | whisperstreamlib/f4v/f4v_joiner.cc:695-760 | those tags are all the media tags behind the metadata, in order |
| `TagSplitter.TotalDuration` | whisperstreamlib/base/tag.h:631-637 | the duration of a composed tag is the sum over its members |
| `TagSplitter.TagSplitter.GetNextTag` | whisperstreamlib/base/tag_splitter.cc:36-115 | each call answers and changes state as the batching machine does; the type check of composed tags never fires for a reader of one tag type |
| `TagSplitterFacts.GoodBatchMeans` | whisperstreamlib/base/tag.h:551-583 | a correct batch has 1 to 16 members, each audio or video that cannot resync, and stayed within the time limit before its last one |
| `TagSplitterFacts.GroupedMeans` | whisperstreamlib/base/tag_splitter.cc:82-110 | a correct grouping, group by group: such batches, each ended only by its size, its duration or a tag that does not compose; alone only what does not compose, or all without a limit |
| `TagSplitterFacts.DurationAdds` | whisperstreamlib/base/tag.h:631-637 | the total duration of a batch is the sum over any two parts of it |
| `TagSplitterFacts.RenderMeans` | whisperstreamlib/base/tag.h:551-583 | a composed tag holds its members' tags in order under the timestamp of the first |
| `TagSplitterFacts.StatusMeans` | whisperstreamlib/base/tag_splitter.cc:40-70 | a call without a tag passes on what the reader said, missing data being the end once the stream has been received entirely |
| `TagSplitterFacts.NextProgress` | whisperstreamlib/base/tag_splitter.cc:36-115 | every call whose flag tells the truth keeps the account: returned, pending and coming tags add up, in order, to what the reader produces, correctly grouped |
| `TagSplitterFacts.EveryRunIsGreedy` | whisperstreamlib/base/tag_splitter.cc:36-115 | for every schedule of calls, data running short at any point before the end is flagged: the outputs are the first groups of a correct grouping of the tags read, all but at most the last; the one hypothesis is that a call says "received entirely" only when that is so |
| `TagSplitterFacts.NextConserves` | whisperstreamlib/base/tag_splitter.cc:36-115 | whatever its flag says, a call conserves the tags: those returned, held and still to come are, in order, those held and to come before |
| `TagSplitterFacts.EveryRunConserves` | whisperstreamlib/base/tag_splitter.cc:36-115 | so does every series of calls, with no hypothesis at all |
| `TagSplitterFacts.EveryRunPacksRightly` | whisperstreamlib/base/tag_splitter.cc:82-110 | in every run: a composed tag has 1 to 16 members, all audio or video that cannot resync, so a video keyframe and a tag of neither kind is returned by itself; and with a positive limit nothing else is |
| `TagSplitterFacts.GroupingIsUnique` | whisperstreamlib/base/tag_splitter.cc:82-110 | the tags determine their grouping, so two schedules that both get all the tags out get them out in the same groups, however often data ran short |
| `TagSplitterFacts.EofOfNoDataDelivers` | whisperstreamlib/base/tag_splitter.cc:57-63 | an end of file that stands for missing data leaves nothing pending |
| `TagSplitterFacts.OwnEofStrandsOpenBatchIff` | whisperstreamlib/base/tag_splitter.cc:65-68 | after any series of unflagged calls, whatever the reader answered meanwhile, reading on to an Eof of the reader's own delivers everything if and only if the tags leave no batch open; an open batch is never returned |
| `TagSplitterFacts.OwnEofLosesATag` | whisperstreamlib/flv/flv_tag_splitter.cc:73-75 | one audio tag and such an end: the tag is lost |
| `Bootstrapper.Bootstrapper.ProcessTag` | whisperstreamlib/base/bootstrapper.cc:192-288 | the state after a tag: source stack, header registers and media list |
| `Bootstrapper.Bootstrapper.PlayAtBegin` | whisperstreamlib/base/bootstrapper.cc:83-112 | plays markers around sources, headers and media, in that order |
| `Bootstrapper.Bootstrapper.PlayAtEnd` | whisperstreamlib/base/bootstrapper.cc:114-131 | ends the open sources of the flavour, innermost first |
| `Bootstrapper.Bootstrapper.GetBootstrapTags` | whisperstreamlib/base/bootstrapper.cc:166-190 | the sources and headers, without media |
| `Bootstrapper.Bootstrapper.ClearBootstrap` | whisperstreamlib/base/bootstrapper.cc:155-164 | forgets sources and headers and keeps the media list |
| `Bootstrapper.Bootstrapper.SetKeepMedia` | whisperstreamlib/base/bootstrapper.h:59-64 | turning media off empties the list |
| `BootstrapperFacts.EveryRunIsSound` | whisperstreamlib/base/bootstrapper.cc:192-288 | in every reachable state the media list is kept on demand only and starts with its only video keyframe, and each register holds a tag of its kind |
| `BootstrapperHistory.EveryRegisterIsLast` | whisperstreamlib/base/bootstrapper.cc:192-288 | in every run a register holds the last tag of its kind, unless a source has ended or the bootstrapper was cleared since; then, and before the first, nothing |
| `BootstrapperHistory.EveryListFollowsKeyframe` | whisperstreamlib/base/bootstrapper.cc:192-288 | in every run the media list is the plain tags from the last kept video keyframe on, unless a source has ended, the list was cleared or media turned off since; else it is empty |
| `BootstrapperHistory.EverySourceIsUnmatched` | whisperstreamlib/base/bootstrapper.cc:192-230 | in every run the open sources are the starts that no end and no clear has matched, in order |
| `BootstrapperFacts.SnapshotFaithfulIff` | whisperstreamlib/base/bootstrapper.cc:83-112 | a fresh bootstrapper fed the snapshot reaches the same state if and only if no MOOV was picked up |
| `BootstrapperFacts.EverySnapshotIsFaithful` | whisperstreamlib/base/tag_distributor.h:234-238 | the same for every run, with the markers dropped on the way as a distributor does |
| `BootstrapperFacts.LateClientKeepsUp` | whisperstreamlib/base/bootstrapper.cc:83-112 | a client told the snapshot at any point, and every tag after it, knows at every later point what the bootstrapper knows |
| `TagDistributor.ClosingRestoresIff` | whisperstreamlib/base/bootstrapper.cc:114-131 | the ends played close exactly what the sources opened if and only if all sources are of the flavour played |
| `TagDistributor.StepKeptIff` | whisperstreamlib/base/tag_distributor.h:231-262 | a tag keeps a client's brackets in step with the bootstrapper if and only if it does not end a source other than the innermost known |
| `TagDistributor.TagDistributor.AddCallback` | whisperstreamlib/base/tag_distributor.h:94-110 | a new client waits with an empty log |
| `TagDistributor.TagDistributor.RemoveCallback` | whisperstreamlib/base/tag_distributor.h:111-117 | the client is gone and the others are as before |
| `TagDistributor.TagDistributor.Switch` | whisperstreamlib/base/tag_distributor.h:122-132 | running clients get the ends of all open sources, stay running and keep the distributor's own source open |
| `TagDistributor.TagDistributor.Reset` | whisperstreamlib/base/tag_distributor.h:136-163 | running clients get the ends of all sources, the own one last, and wait again with none open |
| `TagDistributor.TagDistributor.CloseCallback` | whisperstreamlib/base/tag_distributor.h:166-196 | the client's end-of-stream comes with no source open; the others are untouched |
| `TagDistributor.TagDistributor.CloseAllCallbacks` | whisperstreamlib/base/tag_distributor.h:198-228 | every client's end-of-stream comes with no source open |
| `TagDistributor.TagDistributor.BootstrapWaiting` | whisperstreamlib/base/tag_distributor.h:242-257 | every waiting client gets the own source and the snapshot and runs |
| `TagDistributor.TagDistributor.DistributeTag` | whisperstreamlib/base/tag_distributor.h:231-263 | waiting clients are bootstrapped first and all get the tag, whatever it is; as long as upstream brackets match, each open-source stack stays the own source followed by the bootstrapper's; markers are dropped |
| `TagDistributor.DistributedMeans` | whisperstreamlib/base/tag_distributor.h:231-263 | client by client: one that was waiting gets the distributor's own start and, between the markers, sources, headers and media; then every client gets the tag |
| `FlowControl.Exporter.HandleTag` | whisperstreamlib/base/exporter.h:442-512 | a tag is dropped exactly when it is droppable and the client is too far behind, or it is an inter-frame and a resync point is awaited |
| `FlowControl.Exporter.ProcessTag` | whisperstreamlib/base/exporter.h:300-411 | a started source or a performed seek marks a break first; ignored tags change nothing |
| `FlowControl.DroppingIff` | whisperstreamlib/base/exporter.h:468-487 | frames pass if and only if a keyframe was forwarded since the last break or nothing was ever broken |
| `FlowControl.PictureGroupsIntact` | whisperstreamlib/base/exporter.h:456-487 | for every history of tags and loads: after a break a forwarded droppable inter-frame follows a forwarded droppable keyframe with no drop and no new start in between |
| `FlowControl.OnlyDroppablesDropped` | whisperstreamlib/base/exporter.h:456-476 | a tag that is not droppable is never dropped |
| `FlowControl.DroppedIff` | whisperstreamlib/base/exporter.h:442-512 | exactly which tags are dropped, by their own fields: only droppable ones; video and audio above the total limit, video also above the video limit, and video without resync while a break has not been followed by a droppable keyframe |
| `FlowControl.UnprotectedStart` | whisperstreamlib/base/exporter.h:456-476 | before the first break an inter-frame is forwarded, keyframe or not, exactly when the client is not too far behind |
| `Handoff.StepKeeps` | whisperstreamlib/base/exporter.h:515-574 | each step of either thread keeps the order and number of tags and never leaves a filled queue without a drain due |
| `Handoff.EveryRunKeeps` | whisperstreamlib/base/exporter.h:515-574 | in every interleaving sent, in flight and queued are what was scheduled, in order, and no wakeup is lost |
| `Handoff.EveryRunFromStart` | whisperstreamlib/base/exporter.h:515-574 | the same from the start of a connection: what was scheduled, and nothing else, is sent, in flight or queued |
| `Handoff.AtRestIff` | whispercast/stream_request.cc:248-269 | only with nothing posted, armed or running can no draining step be taken |
| `Handoff.DrainSendsAll` | whisperstreamlib/base/exporter.h:554-574 | without new tags and with room in the connection, draining is bounded and ends with everything sent, in order |
| `ExportSlots.Exporters.AddExportClient` | whisperstreamlib/elements/factory_based_mapper.cc:490-499 | the count of the key grows by one and is returned |
| `ExportSlots.Exporters.RemoveExportClient` | whisperstreamlib/elements/factory_based_mapper.cc:500-511 | the count shrinks by one; an unknown key changes nothing; the positive-count check holds |
| `ExportSlots.Exporters.CloseRequest` | whisperstreamlib/base/exporter.h:159-183 | the exporter's slot is given back, if it has one, and every count still equals the number of its holders |
| `ExportSlots.Exporters.AuthorizeCompleted` | whisperstreamlib/base/exporter.h:231-291 | the exporter ends up registered exactly when it was allowed, its request could be added and played, and a slot was free |
| `ExportSlots.AddedConserves` | whisperstreamlib/base/exporter.h:259-261 | registering keeps every count equal to the number of exporters registered under it |
| `ExportSlots.RemovedConserves` | whisperstreamlib/base/exporter.h:176-179 | a registered exporter's count is positive, and unregistering keeps all counts exact |
| `ExportSlots.Run` | whisperstreamlib/base/exporter.h:231-291 | any series of authorizations and closings over many exporters keeps the counts exact |
| `ExportSlots.LimitHolds` | whisperstreamlib/base/exporter.h:262-274 | a path with a fixed limit never has more exporters registered than that, after any step |
| `ExportSlots.RegisteredIff` | whisperstreamlib/base/exporter.h:262-330 | after any series of operations an exporter is registered under a path if and only if it was authorized for it with the connection open, the request added and playing, and a slot free then, and has not been closed since |
| `Aliases.SplitString` | whisperlib/common/base/strutil.cc:350-373 | the pieces are the non-empty ones between slashes |
| `Aliases.Mapper.SetMediaAlias` | whisperstreamlib/elements/factory_based_mapper.cc:400-439 | an empty value deletes; else the alias is set exactly when its name is free and valid and no component of the value is an alias |
| `Aliases.MaySetIff` | whisperstreamlib/elements/factory_based_mapper.cc:412-432 | spelled out: the name is no element, is made of letters, digits and underscores, does not begin with an underscore, and no component of the value is an alias |
| `Aliases.SetKeepsRank` | whisperstreamlib/elements/factory_based_mapper.cc:424-438 | aliases stay ranked by when they were last set, growing along every reference from one to another |
| `Aliases.RedirectedLead` | whisperstreamlib/elements/factory_based_mapper.cc:599-605 | the first component of the media redirected to depends on the alias alone, in both ways of joining |
| `Aliases.RedirectReplacesAlias` | whisperstreamlib/elements/factory_based_mapper.cc:599-605 | a redirection replaces the first component of the media by the components of the alias's value and keeps all the others, in both ways of joining |
| `Aliases.HitMeans` | whisperstreamlib/elements/factory_based_mapper.cc:748-767 | a lookup runs into an alias if the media is its name, alone or with more behind a slash; adding a request forgives one slash in front |
| `Aliases.HitsFormChain` | whisperstreamlib/elements/factory_based_mapper.cc:748-767 | the aliases a lookup runs into form the chain of what each leads to |
| `Aliases.LookupEndsIff` | whisperstreamlib/elements/factory_based_mapper.cc:748-767 | with any table so built, a lookup ends if and only if it does not run into an alias that leads to itself |
| `Aliases.AllLookupsEndIff` | whisperstreamlib/elements/factory_based_mapper.cc:748-767 | with any table so built, every lookup ends if and only if no alias leads to itself |
| `Aliases.SetKeepsEndingIff` | whisperstreamlib/elements/factory_based_mapper.cc:424-438 | with a table built by SetMediaAlias calls in which every lookup ends: after one more accepted call every lookup ends if and only if the value does not lead to the alias itself |
| `Aliases.SelfAliasAccepted` | whisperstreamlib/elements/factory_based_mapper.cc:424-432 | a new alias may be set to its own name in any such table, and its lookup then never ends |

## Left out

- Atom encoding and decoding and the sizes of headers: where the MDAT body starts is a parameter, atoms are byte sequences with their STCO entries spelled out.
- Tracks that only one of the kinds fills: `ComposeMoov` and the joiner divide by each track's frame count, so both must have frames; the branches that skip frames of a kind the media info denies are not modelled.
- `CompareFramesByTimestamp` and `CompareFramesByOffset`: their definition is not part of this model; by their names and `FrameHeader::timestamp()` the first compares decoding times.
- What is inside a codec configuration: the joiner copies it into the MOOV; the model says when one is needed and that it is kept out of the body.
- Two frames at one offset pushed into the reorder buffer: its duplicate check may fire then; the results about the buffer assume that no offset is pushed twice, which positive sizes guarantee.
- Uniform-size STSZ, CO64 and 64-bit overflow: the table walk does not handle the first two, and offsets and clocks are unbounded integers except for the 32-bit STCO fields.
- `UpdateFramesOffset`, and the copy of the MOOV stored in the media info: they add nothing to the offset shift shown for `Relocate`.
- A MOOV without an STCO: `FixFileStructure` reads its record count in a log line (`f4v_util.cc:667`); the model leaves logging out.
- File I/O errors, trailing bytes that are no atom, and what `FileReader::Rewind` leaves in its buffer: files are sequences of whole atoms, and the second pass starts on them afresh.
- The joiner's timestamps and its choice of track headers from metadata: the headers are parameters and the frames carry no time.
- The splitter's statistics, and changing the composition limit during a stream: the limit is fixed.
- Timestamps of bootstrap and distribution: the logs hold tags in order, not their times, and the order of clients within one distribution is not fixed.
- Clients that were told the end: they are still sent tags until removed, as in the source, and nothing is claimed about those tags.
- A second media info in the middle of a serialized stream, and what the source does with the value it reads behind its list: the index is set once, and the model stops there.
- BootstrapperFacts.SnapshotFaithfulIff: says nothing about what a replayed MOOV makes of the state beyond that the state differs.
- Replacing a mapper's lookups by a master or fallback mapper, and `HasMedia`: one mapper and its own table are modelled.
- Aliases.Mapper.SetMediaAlias: failures of the persistent store are not modelled.
- Pausing and resuming the source, closing the connection, and a media and network thread that are one: the handoff is between two threads with the connection open.
- `StreamTimeCalculator`, media statistics and the updates of media info and cue-point tags before scheduling: they do not decide what is sent.
- The protocol servers, RPC, AAC and MP3 splitting, loading of element libraries: not part of this model.
