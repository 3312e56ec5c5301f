# RNCVideoEditor (Android) in Dafny

A model of the Android half of the React Native video-editor module
`RNCVideoEditor`. It exposes three operations:

- **separateAudioVideo** copies the first audio track of a video, sample by
  sample, into a new `_extracted.m4a` file.
- **mergeAudioWithVideo** copies the first video track of one container,
  then the first audio track of another, into a new `_merged.mp4` file. It
  sets the video's rotation as the muxer's orientation hint.
- **convertMp3ToM4a** decodes an MP3 and re-encodes it as AAC-LC
  (the input's sample rate and channel count, 128 kbps). The work happens in
  a polling loop that feeds the decoder from the extractor. It hands decoded
  PCM chunks to the encoder one input buffer at a time, and writes the
  encoder's output to an MPEG-4 muxer, which starts on the first encoder
  output.

The platform services become small classes with scripted behaviour.

- **MediaExtractor** (`Extraction.Extractor`) is a container's tracks plus
  the selected track and a read cursor over its samples.
- **MediaMuxer** (`Muxing.Muxer`) records every call the module makes in an
  event log. The flows state the whole sequence of calls outright.
- **MediaCodec** (`Codecs.Codec`) is a FIFO stage.
  - Queued input chunks are in `history`, polled outputs in `emitted`.
  - The engine turns each input chunk into one output chunk through an
    abstract byte transform. Timestamp and flags are carried over.
  - Whether a `dequeueInputBuffer` times out, and whether an output is
    ready, is decided by two scripted answer sequences. There is also a
    bound on queued inputs. A property proved for every script therefore
    holds for every schedule of timeouts.
- **The device** (`Platform.Device`) says which paths open as containers,
  which output paths can be created, what the metadata retriever reports
  and which codecs can be created and configured.

The source is one class with three operations. `DirectCopy`, `Merge`,
`Fragments`, `Transcode` and `Convert` follow those operations and the
loops inside them. `Media`, `Extraction`, `Muxing`, `Codecs` and `Platform`
model the platform services and the values shared between them.

| module | contents |
|---|---|
| `Media` | shared values |
| `Paths` | output paths |
| `Locator` | the MIME scans |
| `Extraction`, `Muxing`, `Codecs` | the platform service classes |
| `Platform` | the device, reason codes and promise outcome |
| `DirectCopy` | the copy loop and separateAudioVideo |
| `Merge` | the merge flow |
| `Fragments` | the chunk-safe split: what the encoder receives |
| `Transcode` | the `while (!encEOS)` loop |
| `Convert` | convertMp3ToM4a's set-up, loop and clean-up |

The model follows the code, including these behaviours a reader may not
expect:

- Only convertMp3ToM4a releases resources when it fails. separateAudioVideo
  and mergeAudioWithVideo release nothing on a rejection, including the
  "Tracks not found" path, where tracks have already been added to the
  muxer.
- The rotation fallback can fail the merge. When the metadata retriever
  throws or its value does not parse, mergeAudioWithVideo is rejected. An
  orientation hint other than 0, 90, 180 or 270 also rejects it.
- convertMp3ToM4a rejects every failure with `CONVERT_ERROR`, not with
  codes that tell the failures apart.
- End-of-stream does not always reach the encoder. The decoder's
  end-of-stream output for the empty end-of-stream input may have no bytes.
  Since `pcm.hasRemaining()` is then false, no encoder buffer is queued for
  it, so the encoder never flags the end. The model proves that the loop
  only finishes when the decoder's transform of the empty input is
  non-empty (`Transcode.EndOfStreamChain`).
- Outputs are named deterministically from the input path, with no unique
  suffix. There is no format-changed step: the muxer track is added on the
  first encoder output, with the encoder's output format.

## Model

| member | source | states |
|---|---|---|
| Paths.ReplaceAll | android/RNCVideoEditorModule.kt:162 | Kotlin's `replace`: every occurrence of the pattern, found left to right without overlap, is replaced (its properties are the Paths lemmas below) |
| Paths.TranscodeInputPath | android/RNCVideoEditorModule.kt:161 | the input path is the caller's path without one leading "file://", and unchanged when it has none |
| Paths.TranscodeOutputPath | android/RNCVideoEditorModule.kt:162 | the output path is the input path with every ".mp3" replaced by "_aac.m4a", so no ".mp3" is left in it |
| Paths.RemovePrefix | android/RNCVideoEditorModule.kt:161 | the result is the input with the prefix taken off once when the input starts with it, otherwise the unchanged input |
| Paths.TranscodeResultUri | android/RNCVideoEditorModule.kt:283 | the resolved URI is "file://" followed by the output path |
| Paths.ExtractOutputPath | android/RNCVideoEditorModule.kt:18 | the extract output extends the video path by exactly the length of "_extracted.m4a" |
| Paths.MergeOutputPath | android/RNCVideoEditorModule.kt:70 | the merge output extends the video path by exactly the length of "_merged.mp4" |
| Paths.DerivedOutputsAreFresh | android/RNCVideoEditorModule.kt:18 | neither derived output equals the video path, and the extract and merge outputs differ |
| Paths.ResultUriRoundTrip | android/RNCVideoEditorModule.kt:283 | stripping "file://" from the resolved URI gives back the path the muxer wrote |
| Paths.ReplaceAllWithoutOccurrence | android/RNCVideoEditorModule.kt:162 | replace leaves a path with no ".mp3" unchanged |
| Paths.ReplacedPrefix | android/RNCVideoEditorModule.kt:162 | a replaced path starts with a '_'-free string only if the original did |
| Paths.NoMp3AcrossReplacement | android/RNCVideoEditorModule.kt:162 | no ".mp3" can begin inside an inserted "_aac.m4a" |
| Paths.ReplaceRemovesMp3 | android/RNCVideoEditorModule.kt:162 | after replace no ".mp3" is left anywhere in the path, since every occurrence is replaced |
| Paths.ReplaceTrailingMp3 | android/RNCVideoEditorModule.kt:162 | a path whose only ".mp3" is the trailing extension gets exactly that extension rewritten to "_aac.m4a" |
| Locator.FirstMatchFrom | android/RNCVideoEditorModule.kt:23-30 | the lenient scan from track k returns -1 or an index at or after k |
| Locator.FirstMatch | android/RNCVideoEditorModule.kt:23-30 | the lenient scan returns -1 or a track index |
| Locator.StrictScanFrom | android/RNCVideoEditorModule.kt:167-170 | a found or missing-MIME index is a track at or after k |
| Locator.StrictScan | android/RNCVideoEditorModule.kt:167-170 | a found or missing-MIME index is a track of the container |
| Locator.FirstMatchFromIsFirst | android/RNCVideoEditorModule.kt:23-30 | when no earlier track matched, the scan from k gives the lowest matching index, or -1 exactly when no track matches |
| Locator.FirstMatchIsFirst | android/RNCVideoEditorModule.kt:22-30 | FirstMatch is the lowest index whose MIME starts with the prefix; -1 exactly when there is none |
| Locator.StrictScanFromSound | android/RNCVideoEditorModule.kt:167-170 | the strict scan from k reports the first match, or the first missing MIME before any match, or NotFound |
| Locator.StrictScanCharacterized | android/RNCVideoEditorModule.kt:167-170 | a result fits that description exactly when it is the strict scan's result (both directions) |
| Locator.FindTrack | android/RNCVideoEditorModule.kt:22-30 | the `for`/`break` loop returns the lowest matching index, skipping tracks without a MIME, and -1 exactly when no track matches |
| Locator.FindTrackStrict | android/RNCVideoEditorModule.kt:167-170 | `first { getString(KEY_MIME)!!.startsWith(..) }` finds the first match, throws on a missing MIME met first, and throws when nothing matches |
| Locator.StrictAgreesWithLenient | android/RNCVideoEditorModule.kt:82-108 | when every track declares a MIME, the strict scans of the merge loops find exactly the track the lenient scan finds, and never throw |
| Extraction.Extractor.constructor | android/RNCVideoEditorModule.kt:19-20 | setDataSource opens the container with no track selected and the cursor at the start |
| Extraction.Extractor.Remaining | android/RNCVideoEditorModule.kt:48 | the samples already read followed by the remaining ones are the whole track |
| Extraction.Extractor.ReadSampleData | android/RNCVideoEditorModule.kt:48-49 | end of track exactly at the last cursor position; otherwise the current sample's bytes when they fit the buffer, and a too-large outcome when they do not |
| Extraction.Extractor.SelectTrack | android/RNCVideoEditorModule.kt:37 | the given track is selected |
| Extraction.Extractor.SeekToStart | android/RNCVideoEditorModule.kt:44 | the next read is the track's first sample |
| Extraction.Extractor.Advance | android/RNCVideoEditorModule.kt:53 | the cursor moves one sample forward, and stays put at the end |
| Extraction.Extractor.Release | android/RNCVideoEditorModule.kt:58 | the extractor is released |
| Muxing.Muxer.constructor | android/RNCVideoEditorModule.kt:38 | a new muxer on the path, with no tracks, not started, and an empty log |
| Muxing.Muxer.AddTrack | android/RNCVideoEditorModule.kt:39 | only before start: the track gets the next index and is logged |
| Muxing.Muxer.SetOrientationHint | android/RNCVideoEditorModule.kt:114 | only before start: a hint of 0/90/180/270 is accepted and logged; any other degrees are refused, and nothing is logged |
| Muxing.Muxer.Start | android/RNCVideoEditorModule.kt:40 | only with at least one track, only once: the muxer is started and that is logged |
| Muxing.Muxer.WriteSampleData | android/RNCVideoEditorModule.kt:52 | only between start and stop, to an existing track: the sample is logged as written |
| Muxing.Muxer.Stop | android/RNCVideoEditorModule.kt:56 | only after start, only once: stopped and logged |
| Muxing.Muxer.Release | android/RNCVideoEditorModule.kt:57 | released and logged |
| Muxing.WritesOf | android/RNCVideoEditorModule.kt:52 | writing samples verbatim logs one write per sample, in order, with the sample unchanged |
| Muxing.WritesOfAppend | android/RNCVideoEditorModule.kt:132 | the writes of two copies one after the other are the writes of the first followed by those of the second |
| Codecs.Codec.constructor | android/RNCVideoEditorModule.kt:179-182 | a started codec with the set-up's buffer size, slot count, transform and output format, and nothing queued, polled or leased |
| Codecs.Codec.DequeueInputBuffer | android/RNCVideoEditorModule.kt:214-215 | a slot is granted exactly when fewer than `slots` inputs are pending and the request does not time out; the grant leases the slot |
| Codecs.Codec.QueueInputBuffer | android/RNCVideoEditorModule.kt:219-227 | only into a leased slot, at most the buffer's size: the chunk joins the input history and the slot returns |
| Codecs.Codec.DequeueOutputBuffer | android/RNCVideoEditorModule.kt:234 | an output is ready exactly when an input is pending and the engine is ready; it is the oldest pending input, processed, and stays leased |
| Codecs.Codec.ReleaseOutputBuffer | android/RNCVideoEditorModule.kt:255 | the leased output is returned and counted as released |
| Codecs.Codec.Stop | android/RNCVideoEditorModule.kt:278 | the codec is no longer running |
| Codecs.Codec.Release | android/RNCVideoEditorModule.kt:278 | the codec is released |
| DirectCopy.CopySample | android/RNCVideoEditorModule.kt:50-53 | one turn writes the current sample with its time and flags and moves to the next |
| DirectCopy.CopyTrack | android/RNCVideoEditorModule.kt:46-54 | the muxer receives, in order and unchanged, every sample from the cursor on up to where the copy stops, and every one of them fitted the buffer; it completes exactly when all remaining samples fit, and otherwise stops at the first one that does not |
| DirectCopy.WriteExtractedFile | android/RNCVideoEditorModule.kt:37-58 | on success the muxer log is addTrack(source format), start, every sample verbatim, stop, release, and the extractor is released; on a too-large sample the muxer is left started and unreleased |
| DirectCopy.ExtractTrack | android/RNCVideoEditorModule.kt:37-63 | resolves with the output path exactly when it can be created and every sample fits 1 MiB, and otherwise rejects with SEPARATE_ERROR; no muxer exists exactly when the output cannot be created |
| DirectCopy.SeparateAudioVideo | android/RNCVideoEditorModule.kt:16-65 | an unreadable path rejects with SEPARATE_ERROR; no audio track rejects with NO_AUDIO_TRACK and "No audio track found" before any muxer exists; otherwise the first audio track is copied verbatim, or the flow rejects with SEPARATE_ERROR |
| Merge.OrientationHint | android/RNCVideoEditorModule.kt:86-96 | the rotation fallback; its properties are stated by OrientationHintRule |
| Merge.OrientationHintRule | android/RNCVideoEditorModule.kt:86-96 | the hint is KEY_ROTATION when present, else the retriever's value, else 0; it is unknown (the merge throws) exactly when the retriever fails |
| Merge.MergeTracksOutcome | android/RNCVideoEditorModule.kt:80-139 | a resolved merge found both tracks and a hint, and resolves with the output path |
| Merge.MergeResolvedCharacterized | android/RNCVideoEditorModule.kt:109-135 | the merge resolves exactly when both tracks are found, the hint is known and accepted, and every sample of both tracks fits the 1 MiB buffer; all else rejects with MERGE_ERROR |
| Merge.MergeOutcome | android/RNCVideoEditorModule.kt:68-77 | a container that does not open, or an output that cannot be created, rejects with MERGE_ERROR; success resolves with "_merged.mp4" |
| Merge.TracksNotFoundReported | android/RNCVideoEditorModule.kt:109-111 | "Tracks not found" is reported exactly when neither loop throws and one finds nothing; it is the only message of the module's own |
| Merge.AddVideoTrack | android/RNCVideoEditorModule.kt:80-99 | the loop's result is the strict video scan; on a match that track alone is added to the muxer and selected, and the orientation hint is looked up |
| Merge.AddAudioTrack | android/RNCVideoEditorModule.kt:102-108 | the loop's result is the strict audio scan; on a match the track is added after the video track and selected |
| Merge.CopyBoth | android/RNCVideoEditorModule.kt:132 | every video sample is written before any audio sample, each track verbatim; it succeeds exactly when both tracks fit the buffer |
| Merge.WriteMerged | android/RNCVideoEditorModule.kt:114-135 | the hint is set once, before start; then both copies, stop and release; it succeeds exactly when the hint is supported and every sample fits |
| Merge.MergeTracks | android/RNCVideoEditorModule.kt:80-139 | the outcome is MergeTracksOutcome; on success the muxer log is both addTracks, the hint, start, all video, all audio, stop, release; a rejection releases nothing; "Tracks not found" leaves the found track added and the muxer not started |
| Merge.MergeAudioWithVideo | android/RNCVideoEditorModule.kt:68-140 | the outcome is MergeOutcome; the extractors and muxer exist exactly as far as their paths open; the log on success is as in MergeTracks |
| Fragments.Split | android/RNCVideoEditorModule.kt:239-254 | the fragments the `while (pcm.hasRemaining())` loop produces when no slot is refused; its properties are the Split lemmas below |
| Fragments.SplitOf | android/RNCVideoEditorModule.kt:237-254 | the fragments of one decoder output, flagged by its end-of-stream bit |
| Fragments.SplitConcat | android/RNCVideoEditorModule.kt:239-247 | the fragments of a chunk concatenate to the chunk's bytes |
| Fragments.SplitShape | android/RNCVideoEditorModule.kt:245 | every fragment is non-empty, at most one buffer, and carries the chunk's timestamp; all but the last fill the buffer; an empty chunk has no fragment |
| Fragments.SplitFlags | android/RNCVideoEditorModule.kt:249-253 | a fragment is flagged end-of-stream exactly when it is the last fragment of an end-of-stream chunk; all others have flags 0 |
| Fragments.SplitEos | android/RNCVideoEditorModule.kt:239 | some fragment carries end-of-stream exactly when the chunk is flagged end-of-stream and has at least one byte |
| Fragments.ForwardedComplete | android/RNCVideoEditorModule.kt:239-255 | when no slot request fails mid-chunk, the encoder receives exactly the decoded bytes, in order |
| Fragments.ForwardedEos | android/RNCVideoEditorModule.kt:237-256 | the encoder receives an end-of-stream fragment exactly when some decoder output was a non-empty end-of-stream chunk that was handed over completely |
| Fragments.EosLast | android/RNCVideoEditorModule.kt:249-253 | one more hand-over adds an end-of-stream fragment exactly when it delivers a complete non-empty end-of-stream chunk |
| Fragments.ForwardedSnoc | android/RNCVideoEditorModule.kt:239-254 | one more decoder output adds exactly its first `k` fragments to what the encoder received |
| Fragments.ForwardedFits | android/RNCVideoEditorModule.kt:245 | every fragment the encoder receives is non-empty and fits its input buffer |
| Transcode.Feed | android/RNCVideoEditorModule.kt:225-227 | the decoder input for a sample: its bytes and time, with flags 0 |
| Transcode.Muxed | android/RNCVideoEditorModule.kt:269 | the muxer write for an encoder output: its bytes, time and flags |
| Transcode.MuxWritesAreWrites | android/RNCVideoEditorModule.kt:262-270 | after the header every muxer event is a write of a non-empty buffer to track 0 |
| Transcode.MuxWritesCount | android/RNCVideoEditorModule.kt:267-270 | at most one write per encoder output, and exactly one each when every output has bytes |
| Transcode.SendFragment | android/RNCVideoEditorModule.kt:242-253 | a granted slot receives the next fragment of the chunk, min(buffer, remaining) bytes, and the position moves past it |
| Transcode.ForwardChunk | android/RNCVideoEditorModule.kt:239-254 | the encoder receives the chunk's first fragments, in order; all of them, concatenating to the chunk, when no slot request failed; otherwise the request that ended the loop was refused |
| Transcode.DecoderTurn | android/RNCVideoEditorModule.kt:234-257 | a ready decoder output is handed to the encoder and released; the encoder's history stays the Forwarded view of the decoder outputs |
| Transcode.DrainDecoder | android/RNCVideoEditorModule.kt:234-258 | every ready decoder output is handed over and released, the input history is untouched, and `decEOS` is set exactly when a new output is flagged end-of-stream |
| Transcode.MuxOutput | android/RNCVideoEditorModule.kt:263-270 | the first output adds the encoder's format as track 0 and starts the muxer, once; an output with bytes is written to that track |
| Transcode.EncoderTurn | android/RNCVideoEditorModule.kt:261-274 | a ready encoder output goes to the muxer and is released, keeping the muxer in step with the outputs |
| Transcode.DrainEncoder | android/RNCVideoEditorModule.kt:261-275 | every ready encoder output goes to the muxer, whose log stays addTrack, start and the non-empty outputs; `encEOS` is set exactly when a new output is flagged end-of-stream |
| Transcode.FeedDecoder | android/RNCVideoEditorModule.kt:213-231 | once inEOS holds nothing more is queued; a granted slot gets the next sample with its time and flags 0, or the empty end-of-stream buffer at the end of the track; a too-large sample keeps the slot leased |
| Transcode.ReadIntoSlot | android/RNCVideoEditorModule.kt:216-229 | the read fills the granted slot with the sample or the end-of-stream buffer, and leaves it leased when the sample does not fit |
| Transcode.EndOfStreamChain | android/RNCVideoEditorModule.kt:210-276 | the encoder flags the end only after the extractor is exhausted, the decoder has flagged the end, and the decoder turned the empty end-of-stream input into bytes |
| Transcode.FedEverything | android/RNCVideoEditorModule.kt:213-229 | once the extractor reports the end, the decoder has had every sample in order, then the end-of-stream buffer |
| Transcode.DriveTurn | android/RNCVideoEditorModule.kt:212-275 | one turn keeps the loop state; the AnyEos status of the outputs grows exactly by what the drains saw; a too-large sample ends the turn before any drain, with both codecs' outputs and the muxer log unchanged |
| Transcode.Exchange | android/RNCVideoEditorModule.kt:233-275 | both drains keep the loop state and report the end-of-stream outputs they saw |
| Transcode.Drive | android/RNCVideoEditorModule.kt:210-276 | the loop ends normally exactly when an encoder output is flagged end-of-stream, and then every sample has been fed and the decoder flagged the end; a throw is a sample too large for the decoder buffer |
| Convert.AacConfig | android/RNCVideoEditorModule.kt:185-193 | the encoder format is AAC with the input's sample rate and channel count, profile AAC-LC and 128000 bit/s |
| Convert.SetUp | android/RNCVideoEditorModule.kt:161-200 | the set-up stops at the first step that throws, and each stopping result names its cause: missing container, strict audio scan without a match, missing rate or channels, no decoder, no encoder, unwritable output; it is Ready exactly when every step succeeds |
| Convert.Abandon | android/RNCVideoEditorModule.kt:285-290 | the catch block releases the extractor, stops and releases each codec that exists, and releases the muxer without stopping it |
| Convert.Finish | android/RNCVideoEditorModule.kt:278-281 | success clean-up: both codecs stopped and released; the muxer is stopped only when started, then released; the extractor is released |
| Convert.RunAndSettle | android/RNCVideoEditorModule.kt:210-290 | both codecs stay consistent (each output is its transform of the matching input); resolves only after the encoder's end, with the muxer log addTrack, start, the non-empty outputs, stop, release; a too-large sample rejects with CONVERT_ERROR after the catch block |
| Convert.Settle | android/RNCVideoEditorModule.kt:278-290 | the outcome follows how the loop ended, with the matching clean-up |
| Convert.ConvertMp3ToM4a | android/RNCVideoEditorModule.kt:154-293 | each set-up failure rejects with CONVERT_ERROR after releasing what exists; success resolves with "file://" + the output path, after the decoder was fed every sample and the end-of-stream buffer; the muxer log holds the non-empty encoder outputs, each the encoder's transform of a fragment of a decoder output, each the decoder's transform of a fed sample |

## Left out

- The iOS module is not part of this model. It delegates to AVFoundation's asynchronous export session, and its shared exporter handle is driven by concurrency.
- The worker thread, the React promise bridging and `@ReactMethod` registration are left out. An operation's result is the `Outcome` datatype.
- The decoding and encoding themselves are left out. A codec's engine is an abstract per-chunk byte transform, so sample durations and bit rates are not modelled.
- MediaExtractor, MediaMuxer and MediaMetadataRetriever internals are left out: container parsing, interleaving and the MP4 written to disk. Only the calls the module makes are modelled.
- The 10 ms `TIMEOUT` is modelled only as scripted answers. A timed-out request and a request that is never answered look the same.
- Convert.ConvertMp3ToM4a: the `while (!encEOS)` loop need not terminate, for example when the decoder's last output is empty. The model bounds it with `fuel` turns, and `Stalled` stands for a loop still running when the fuel is used up.
- An exception's own message is not modelled. Rejections caused by an exception carry no message.
- Several calls never throw in the model: the muxer's `addTrack`, `start` and `writeSampleData`; MediaCodec's queue, dequeue and release calls; and the `!!` on `getInputBuffer`/`getOutputBuffer`. In the source each of these would enter its operation's catch block and reject the promise. The model has no outcome for such a failure midway through a copy or transcode loop.
- The catch block's swallowed exceptions are not modelled. `stop()` and `release()` there never throw, and each release attempt succeeds.
- Codecs.Codec.Stop: stopping a codec does not flush or drop pending buffers. The model only marks the codec as no longer running.
- Muxing.Muxer.Stop: MediaMuxer's stop() throws when no sample was written. The model stops in that case as well, so a conversion whose encoder outputs were all empty still resolves.
- Extraction.Extractor.SeekToStart: `seekTo(0, SEEK_TO_CLOSEST_SYNC)` is modelled as a return to the first sample. Sync-sample positioning is not modelled.
- `MediaFormat.getInteger` throwing for a missing key is modelled as an absent value in `Format`. A present value of the wrong type is not modelled.
- `readSampleData` into a buffer that is too small is modelled as a distinct `TooLarge` outcome, which the flows treat as the exception it raises.
- `decEOS` is set by the decoder drain but never read. The model tracks it as a local of the loop with its meaning as an invariant, and nothing depends on it.
- Output-file deletion and collisions with existing files are I/O and are not modelled.
