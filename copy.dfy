/** The direct-copy flows: separateAudioVideo (audio track of a video into
    its own MPEG-4 file) and mergeAudioWithVideo (video track of one file
    and audio track of another into one MPEG-4 file), both built on the
    read-until-negative-size copy loop. */
module DirectCopy {
  import opened Media
  import opened Locator
  import opened Paths
  import opened Extraction
  import opened Muxing
  import opened Platform

  /** Both flows copy through a 1 MiB array (`1024 * 1024`, `1 shl 20`). */
  const COPY_BUFFER_SIZE: nat := 1048576

  /** Every sample fits a read buffer of `size` bytes. */
  predicate AllFit(samples: seq<Sample>, size: nat) {
    forall i :: 0 <= i < |samples| ==> |samples[i].payload| <= size
  }

  lemma WritesOfStep(track: nat, all: seq<Sample>, start: nat, k: nat)
    requires start <= k < |all|
    ensures WritesOf(track, all[start..k + 1]) == WritesOf(track, all[start..k]) + [SampleWritten(track, all[k])]
  {
    assert all[start..k + 1][..k - start] == all[start..k];
  }

  /** One pass of the copy loop for a sample that fits the buffer: write its
      payload with its presentation time and flags, then advance. */
  method CopySample(ex: Extractor, mux: Muxer, track: nat, payload: Bytes,
                    ghost all: seq<Sample>, ghost start: nat, ghost log0: seq<MuxEvent>)
    requires ex.Valid() && all == ex.Samples() && start <= ex.cursor < |all|
    requires payload == all[ex.cursor].payload
    requires mux.Valid() && mux.started && !mux.stopped && !mux.released && track < |mux.tracks|
    requires mux.log == log0 + WritesOf(track, all[start..ex.cursor])
    modifies ex`cursor, mux`log
    ensures ex.Valid() && ex.cursor == old(ex.cursor) + 1
    ensures mux.log == log0 + WritesOf(track, all[start..ex.cursor])
  {
    var sample := Sample(payload, ex.SampleTime(), ex.SampleFlags());
    assert sample == all[ex.cursor];
    mux.WriteSampleData(track, sample);
    WritesOfStep(track, all, start, ex.cursor);
    ex.Advance();
  }

  /** The copy loop: read the current sample, stop at a negative size, write
      payload, presentation time and flags unchanged to `track`, advance.
      `copied` is false when a sample does not fit the buffer (readSampleData
      throws); the samples before it have been written by then. */
  method CopyTrack(ex: Extractor, mux: Muxer, track: nat, bufferSize: nat) returns (copied: bool)
    requires ex.Valid() && mux.Valid()
    requires mux.started && !mux.stopped && !mux.released && track < |mux.tracks|
    modifies ex`cursor, mux`log
    ensures ex.Valid() && old(ex.cursor) <= ex.cursor <= |ex.Samples()|
    ensures mux.log == old(mux.log) + WritesOf(track, ex.Samples()[old(ex.cursor)..ex.cursor])
    ensures forall i :: old(ex.cursor) <= i < ex.cursor ==> |ex.Samples()[i].payload| <= bufferSize
    ensures copied <==> AllFit(old(ex.Remaining()), bufferSize)
    ensures copied ==> ex.cursor == |ex.Samples()|
    ensures !copied ==> ex.cursor < |ex.Samples()| && |ex.Samples()[ex.cursor].payload| > bufferSize
  {
    ghost var start := ex.cursor;
    ghost var all := ex.Samples();
    while true
      invariant ex.Valid() && ex.selected == old(ex.selected) && start <= ex.cursor <= |all|
      invariant mux.log == old(mux.log) + WritesOf(track, all[start..ex.cursor])
      invariant forall i :: start <= i < ex.cursor ==> |all[i].payload| <= bufferSize
      decreases |all| - ex.cursor
    {
      var read := ex.ReadSampleData(bufferSize);
      if read == EndOfStream {
        break;
      }
      if read == TooLarge {
        assert old(ex.Remaining())[ex.cursor - start] == all[ex.cursor];
        return false;
      }
      CopySample(ex, mux, track, read.payload, all, start, old(mux.log));
    }
    assert AllFit(old(ex.Remaining()), bufferSize) by {
      forall i | 0 <= i < |old(ex.Remaining())| ensures |old(ex.Remaining())[i].payload| <= bufferSize {
        assert old(ex.Remaining())[i] == all[start + i];
      }
    }
    copied := true;
  }

  /** separateAudioVideo once the audio track is selected and the output can
      be created: new muxer, addTrack with the source format, start, seek to
      the first sample, copy, then stop and release both. */
  method WriteExtractedFile(ex: Extractor, outPath: string) returns (copied: bool, mux: Muxer)
    requires ex.Valid() && ex.selected.Some?
    modifies ex`cursor, ex`released
    ensures ex.Valid() && fresh(mux) && mux.path == outPath
    ensures copied == AllFit(ex.Samples(), COPY_BUFFER_SIZE)
    ensures copied ==> ex.released
    ensures copied ==>
      mux.log == [TrackAdded(ex.tracks[ex.selected.value].format), Started] + WritesOf(0, ex.Samples()) + [Stopped, Released]
    ensures !copied ==> mux.started && !mux.stopped && !mux.released
    ensures !copied ==> |mux.log| >= 2 && mux.log[..2] == [TrackAdded(ex.tracks[ex.selected.value].format), Started]
  {
    var format := ex.tracks[ex.selected.value].format;
    mux := new Muxer(outPath);
    var newTrackIndex := mux.AddTrack(format);
    mux.Start();
    ghost var header := mux.log;
    assert header == [TrackAdded(format), Started];
    ex.SeekToStart();
    assert ex.Remaining() == ex.Samples();
    copied := CopyTrack(ex, mux, newTrackIndex, COPY_BUFFER_SIZE);
    ghost var written := WritesOf(0, ex.Samples()[0..ex.cursor]);
    assert mux.log == header + written;
    if copied {
      assert ex.Samples()[0..ex.cursor] == ex.Samples();
      mux.Stop();
      mux.Release();
      assert header + written + [Stopped] + [Released] == header + written + [Stopped, Released];
      ex.Release();
    } else {
      assert (header + written)[..2] == header;
    }
  }

  /** separateAudioVideo after the scan: select the audio track, then write
      the output file unless the muxer cannot be created there. */
  method ExtractTrack(ex: Extractor, index: nat, outPath: string, writable: set<string>)
    returns (outcome: Outcome, mux: Muxer?)
    requires ex.Valid() && ex.selected == None && ex.cursor == 0 && index < |ex.tracks|
    modifies ex
    ensures ex.Valid() && ex.selected == Some(index)
    ensures outcome == (if outPath in writable && AllFit(ex.tracks[index].samples, COPY_BUFFER_SIZE)
                        then Resolved(outPath) else Rejected(SEPARATE_ERROR, None))
    ensures outPath !in writable <==> mux == null
    ensures mux != null ==> fresh(mux) && mux.path == outPath
    ensures outcome.Resolved? ==>
      && mux != null && ex.released
      && mux.log == [TrackAdded(ex.tracks[index].format), Started] + WritesOf(0, ex.tracks[index].samples) + [Stopped, Released]
    ensures outcome.Rejected? && mux != null ==>
      && mux.started && !mux.stopped && !mux.released
      && |mux.log| >= 2 && mux.log[..2] == [TrackAdded(ex.tracks[index].format), Started]
  {
    ex.SelectTrack(index);
    if outPath !in writable {
      return Rejected(SEPARATE_ERROR, None), null;
    }
    var copied;
    copied, mux := WriteExtractedFile(ex, outPath);
    outcome := if copied then Resolved(outPath) else Rejected(SEPARATE_ERROR, None);
  }

  /** separateAudioVideo. */
  method SeparateAudioVideo(device: Device, videoPath: string)
    returns (outcome: Outcome, ex: Extractor?, mux: Muxer?)
    ensures videoPath !in device.containers ==>
      outcome == Rejected(SEPARATE_ERROR, None) && ex == null && mux == null
    ensures videoPath in device.containers ==>
      ex != null && fresh(ex) && ex.tracks == device.containers[videoPath]
    ensures videoPath in device.containers && FirstMatch(Formats(device.containers[videoPath]), AUDIO_PREFIX) == -1 ==>
      outcome == Rejected(NO_AUDIO_TRACK, Some(NO_AUDIO_TRACK_MESSAGE)) && mux == null
    ensures videoPath in device.containers && FirstMatch(Formats(device.containers[videoPath]), AUDIO_PREFIX) >= 0 ==>
      var audio := device.containers[videoPath][FirstMatch(Formats(device.containers[videoPath]), AUDIO_PREFIX)];
      var out := ExtractOutputPath(videoPath);
      && ex != null && ex.selected == Some(FirstMatch(Formats(device.containers[videoPath]), AUDIO_PREFIX))
      && outcome == (if out in device.writable && AllFit(audio.samples, COPY_BUFFER_SIZE)
                     then Resolved(out) else Rejected(SEPARATE_ERROR, None))
      && (mux != null ==> fresh(mux) && mux.path == out)
      && (outcome.Resolved? ==>
            && mux != null && ex.released
            && mux.log == [TrackAdded(audio.format), Started] + WritesOf(0, audio.samples) + [Stopped, Released])
      && (outcome.Rejected? && mux != null ==>
            && mux.started && !mux.stopped && !mux.released
            && |mux.log| >= 2 && mux.log[..2] == [TrackAdded(audio.format), Started])
  {
    var audioOutputPath := ExtractOutputPath(videoPath);
    if videoPath !in device.containers {
      return Rejected(SEPARATE_ERROR, None), null, null;
    }
    ex := new Extractor(device.containers[videoPath]);
    var audioTrackIndex := FindTrack(Formats(ex.tracks), AUDIO_PREFIX);
    if audioTrackIndex == -1 {
      return Rejected(NO_AUDIO_TRACK, Some(NO_AUDIO_TRACK_MESSAGE)), ex, null;
    }
    outcome, mux := ExtractTrack(ex, audioTrackIndex, audioOutputPath, device.writable);
  }
}
