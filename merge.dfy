/** mergeAudioWithVideo: the first video track of one container and the first
    audio track of another, copied sample by sample into one new MPEG-4 file
    whose orientation hint is the video's rotation. */
module Merge {
  import opened Media
  import opened Locator
  import opened Paths
  import opened Extraction
  import opened Muxing
  import opened Platform
  import opened DirectCopy

  /** The rotation the video loop settles on for the matched track: its own
      KEY_ROTATION when present, otherwise the retriever's
      METADATA_KEY_VIDEO_ROTATION parsed as an integer, 0 when the retriever
      has no value; None when the retriever throws. */
  function OrientationHint(f: Format, lookup: RotationLookup): Option<int>
  {
    if f.rotation.Some? then f.rotation
    else match lookup
      case Absent => Some(0)
      case Degrees(d) => Some(d)
      case LookupFails => None
  }

  lemma OrientationHintRule(f: Format, lookup: RotationLookup)
    ensures f.rotation.Some? ==> OrientationHint(f, lookup) == f.rotation
    ensures f.rotation.None? && lookup == Absent ==> OrientationHint(f, lookup) == Some(0)
    ensures f.rotation.None? && lookup.Degrees? ==> OrientationHint(f, lookup) == Some(lookup.degrees)
    ensures OrientationHint(f, lookup).None? <==> f.rotation.None? && lookup == LookupFails
  {
  }

  /** The scans over the two containers' tracks. */
  function VideoScan(vTracks: seq<Track>): ScanResult { StrictScan(Formats(vTracks), VIDEO_PREFIX) }
  function AudioScan(aTracks: seq<Track>): ScanResult { StrictScan(Formats(aTracks), AUDIO_PREFIX) }

  /** The hint the video loop settles on; Some(0) when it finds no video track. */
  function Hint(vTracks: seq<Track>, lookup: RotationLookup): Option<int>
  {
    var vScan := VideoScan(vTracks);
    if vScan.Found? then OrientationHint(vTracks[vScan.index].format, lookup) else Some(0)
  }

  /** How mergeAudioWithVideo settles its promise once both containers are
      open and the output is created: the video loop (a missing MIME throws,
      as does the retriever), then the audio loop (likewise); only then are
      missing tracks reported, with their own message; then the orientation
      hint and the two copies, each of which can throw. */
  function MergeTracksOutcome(vTracks: seq<Track>, aTracks: seq<Track>, lookup: RotationLookup, out: string): (r: Outcome)
    ensures r.Resolved? ==>
      r.path == out && VideoScan(vTracks).Found? && AudioScan(aTracks).Found? && Hint(vTracks, lookup).Some?
  {
    var vScan := VideoScan(vTracks);
    var hint := Hint(vTracks, lookup);
    if vScan.NullMime? || hint.None? then
      Rejected(MERGE_ERROR, None)
    else
      var aScan := AudioScan(aTracks);
      if aScan.NullMime? then
        Rejected(MERGE_ERROR, None)
      else if vScan.NotFound? || aScan.NotFound? then
        Rejected(MERGE_ERROR, Some(TRACKS_NOT_FOUND_MESSAGE))
      else if !SupportedRotation(hint.value) then
        Rejected(MERGE_ERROR, None)
      else if !AllFit(vTracks[vScan.index].samples, COPY_BUFFER_SIZE) || !AllFit(aTracks[aScan.index].samples, COPY_BUFFER_SIZE) then
        Rejected(MERGE_ERROR, None)
      else
        Resolved(out)
  }

  /** The merge resolves exactly when both tracks are found, the hint is
      known and accepted, and every sample of both tracks fits the copy
      buffer; every other run is rejected with MERGE_ERROR. */
  lemma MergeResolvedCharacterized(vTracks: seq<Track>, aTracks: seq<Track>, lookup: RotationLookup, out: string)
    ensures var r := MergeTracksOutcome(vTracks, aTracks, lookup, out);
      && (r.Resolved? <==>
            && VideoScan(vTracks).Found? && AudioScan(aTracks).Found?
            && Hint(vTracks, lookup).Some? && SupportedRotation(Hint(vTracks, lookup).value)
            && AllFit(vTracks[VideoScan(vTracks).index].samples, COPY_BUFFER_SIZE)
            && AllFit(aTracks[AudioScan(aTracks).index].samples, COPY_BUFFER_SIZE))
      && (!r.Resolved? ==> r.Rejected? && r.code == MERGE_ERROR)
  {
  }

  /** mergeAudioWithVideo's promise: opening either container or creating
      the output throws first, with the exception's message. */
  function MergeOutcome(device: Device, videoPath: string, audioPath: string): (r: Outcome)
    ensures videoPath !in device.containers || audioPath !in device.containers || MergeOutputPath(videoPath) !in device.writable
      ==> r == Rejected(MERGE_ERROR, None)
    ensures r.Resolved? ==> r.path == MergeOutputPath(videoPath)
  {
    var out := MergeOutputPath(videoPath);
    if videoPath !in device.containers || audioPath !in device.containers || out !in device.writable then
      Rejected(MERGE_ERROR, None)
    else
      MergeTracksOutcome(device.containers[videoPath], device.containers[audioPath], device.rotationMetadata(videoPath), out)
  }

  /** "Tracks not found" is reported exactly when neither loop throws and one
      of them finds nothing; it is the only rejection with a message of the
      module's own. */
  lemma TracksNotFoundReported(vTracks: seq<Track>, aTracks: seq<Track>, lookup: RotationLookup, out: string)
    ensures MergeTracksOutcome(vTracks, aTracks, lookup, out) == Rejected(MERGE_ERROR, Some(TRACKS_NOT_FOUND_MESSAGE)) <==>
      && !VideoScan(vTracks).NullMime? && !AudioScan(aTracks).NullMime? && Hint(vTracks, lookup).Some?
      && (VideoScan(vTracks).NotFound? || AudioScan(aTracks).NotFound?)
    ensures MergeTracksOutcome(vTracks, aTracks, lookup, out).Rejected? ==>
      MergeTracksOutcome(vTracks, aTracks, lookup, out).message in {None, Some(TRACKS_NOT_FOUND_MESSAGE)}
  {
  }

  /** The muxer's whole history when the merge succeeds: both tracks added,
      video first; the orientation hint; start; every video sample verbatim
      on track 0, then every audio sample verbatim on track 1; stop; release. */
  function MergedLog(vTracks: seq<Track>, aTracks: seq<Track>, lookup: RotationLookup): seq<MuxEvent>
    requires VideoScan(vTracks).Found? && AudioScan(aTracks).Found? && Hint(vTracks, lookup).Some?
  {
    var v := vTracks[VideoScan(vTracks).index];
    var a := aTracks[AudioScan(aTracks).index];
    [TrackAdded(v.format), TrackAdded(a.format), OrientationSet(Hint(vTracks, lookup).value), Started]
      + WritesOf(0, v.samples) + WritesOf(1, a.samples) + [Stopped, Released]
  }

  /** What the muxer holds when "Tracks not found" is reported: the track
      one of the loops did find has already been added. */
  function AddedBeforeCheck(vTracks: seq<Track>, aTracks: seq<Track>): seq<MuxEvent>
  {
    var vScan := VideoScan(vTracks);
    var aScan := AudioScan(aTracks);
    (if vScan.Found? then [TrackAdded(vTracks[vScan.index].format)] else [])
      + (if aScan.Found? then [TrackAdded(aTracks[aScan.index].format)] else [])
  }

  /** The video loop: the first track whose MIME starts with "video/" is
      added to the muxer and selected, and its orientation hint looked up;
      a missing MIME met first throws. */
  method AddVideoTrack(vEx: Extractor, mux: Muxer, lookup: RotationLookup)
    returns (scan: ScanResult, trackIx: int, rotation: Option<int>)
    requires vEx.Valid() && vEx.selected == None && vEx.cursor == 0
    requires mux.Valid() && !mux.started && !mux.released && mux.tracks == [] && mux.log == []
    modifies vEx`selected, mux`tracks, mux`log
    ensures vEx.Valid() && mux.Valid() && vEx.cursor == 0
    ensures scan == StrictScan(Formats(vEx.tracks), VIDEO_PREFIX)
    ensures scan.Found? ==>
      && vEx.selected == Some(scan.index) && trackIx == 0
      && mux.tracks == [vEx.tracks[scan.index].format] && mux.log == [TrackAdded(vEx.tracks[scan.index].format)]
      && rotation == OrientationHint(vEx.tracks[scan.index].format, lookup)
    ensures !scan.Found? ==>
      vEx.selected == None && mux.tracks == [] && mux.log == [] && trackIx == -1 && rotation == Some(0)
  {
    ghost var formats := Formats(vEx.tracks);
    StrictScanCharacterized(formats, VIDEO_PREFIX, StrictScan(formats, VIDEO_PREFIX));
    trackIx, rotation := -1, Some(0);
    var i := 0;
    while i < |vEx.tracks|
      invariant 0 <= i <= |vEx.tracks| && SkippedBefore(formats, VIDEO_PREFIX, i)
      invariant vEx.selected == None && mux.tracks == [] && mux.log == []
    {
      var fmt := vEx.tracks[i].format;
      if fmt.mime.None? {
        scan := NullMime(i);
        StrictScanCharacterized(formats, VIDEO_PREFIX, scan);
        return;
      }
      if StartsWith(fmt.mime.value, VIDEO_PREFIX) {
        trackIx := mux.AddTrack(fmt);
        vEx.SelectTrack(i);
        if fmt.rotation.Some? {
          rotation := fmt.rotation;
        } else {
          match lookup
          case Absent => rotation := Some(0);
          case Degrees(d) => rotation := Some(d);
          case LookupFails => rotation := None;
        }
        scan := Found(i);
        StrictScanCharacterized(formats, VIDEO_PREFIX, scan);
        return;
      }
      i := i + 1;
    }
    scan := NotFound;
    StrictScanCharacterized(formats, VIDEO_PREFIX, scan);
  }

  /** The audio loop: the first track whose MIME starts with "audio/" is
      added to the muxer after whatever the video loop added, and selected. */
  method AddAudioTrack(aEx: Extractor, mux: Muxer) returns (scan: ScanResult, trackIx: int)
    requires aEx.Valid() && aEx.selected == None && aEx.cursor == 0
    requires mux.Valid() && !mux.started && !mux.released
    modifies aEx`selected, mux`tracks, mux`log
    ensures aEx.Valid() && mux.Valid() && aEx.cursor == 0
    ensures scan == StrictScan(Formats(aEx.tracks), AUDIO_PREFIX)
    ensures scan.Found? ==>
      && aEx.selected == Some(scan.index) && trackIx == |old(mux.tracks)|
      && mux.tracks == old(mux.tracks) + [aEx.tracks[scan.index].format]
      && mux.log == old(mux.log) + [TrackAdded(aEx.tracks[scan.index].format)]
    ensures !scan.Found? ==>
      aEx.selected == None && mux.tracks == old(mux.tracks) && mux.log == old(mux.log) && trackIx == -1
  {
    ghost var formats := Formats(aEx.tracks);
    StrictScanCharacterized(formats, AUDIO_PREFIX, StrictScan(formats, AUDIO_PREFIX));
    trackIx := -1;
    var i := 0;
    while i < |aEx.tracks|
      invariant 0 <= i <= |aEx.tracks| && SkippedBefore(formats, AUDIO_PREFIX, i)
      invariant aEx.selected == None && mux.tracks == old(mux.tracks) && mux.log == old(mux.log)
    {
      var fmt := aEx.tracks[i].format;
      if fmt.mime.None? {
        scan := NullMime(i);
        StrictScanCharacterized(formats, AUDIO_PREFIX, scan);
        return;
      }
      if StartsWith(fmt.mime.value, AUDIO_PREFIX) {
        trackIx := mux.AddTrack(fmt);
        aEx.SelectTrack(i);
        scan := Found(i);
        StrictScanCharacterized(formats, AUDIO_PREFIX, scan);
        return;
      }
      i := i + 1;
    }
    scan := NotFound;
    StrictScanCharacterized(formats, AUDIO_PREFIX, scan);
  }

  /** `copy(vEx, vTrackIx); copy(aEx, aTrackIx)`: the whole video track,
      then the whole audio track; a sample that does not fit throws and
      ends the merge. */
  method CopyBoth(vEx: Extractor, aEx: Extractor, mux: Muxer, vTrackIx: nat, aTrackIx: nat) returns (ok: bool)
    requires vEx.Valid() && vEx.selected.Some? && vEx.cursor == 0
    requires aEx.Valid() && aEx.selected.Some? && aEx.cursor == 0 && aEx != vEx
    requires mux.Valid() && mux.started && !mux.stopped && !mux.released
    requires vTrackIx < |mux.tracks| && aTrackIx < |mux.tracks|
    modifies vEx`cursor, aEx`cursor, mux`log
    ensures vEx.Valid() && aEx.Valid()
    ensures ok == (AllFit(vEx.Samples(), COPY_BUFFER_SIZE) && AllFit(aEx.Samples(), COPY_BUFFER_SIZE))
    ensures ok ==> mux.log == old(mux.log) + WritesOf(vTrackIx, vEx.Samples()) + WritesOf(aTrackIx, aEx.Samples())
  {
    assert vEx.Remaining() == vEx.Samples();
    ok := CopyTrack(vEx, mux, vTrackIx, COPY_BUFFER_SIZE);
    if !ok {
      return;
    }
    assert vEx.Samples()[0..vEx.cursor] == vEx.Samples();
    assert aEx.Remaining() == aEx.Samples();
    ok := CopyTrack(aEx, mux, aTrackIx, COPY_BUFFER_SIZE);
    if ok {
      assert aEx.Samples()[0..aEx.cursor] == aEx.Samples();
    }
  }

  /** After both tracks are added: the orientation hint, start, the two
      copies, then stop and release the muxer and both extractors. */
  method WriteMerged(vEx: Extractor, aEx: Extractor, mux: Muxer, vTrackIx: nat, aTrackIx: nat, degrees: int) returns (ok: bool)
    requires vEx.Valid() && vEx.selected.Some? && vEx.cursor == 0
    requires aEx.Valid() && aEx.selected.Some? && aEx.cursor == 0 && aEx != vEx
    requires mux.Valid() && !mux.started && !mux.released && vTrackIx < |mux.tracks| && aTrackIx < |mux.tracks|
    modifies vEx`cursor, vEx`released, aEx`cursor, aEx`released,
      mux`started, mux`stopped, mux`released, mux`log
    ensures vEx.Valid() && aEx.Valid()
    ensures ok == (SupportedRotation(degrees) && AllFit(vEx.Samples(), COPY_BUFFER_SIZE) && AllFit(aEx.Samples(), COPY_BUFFER_SIZE))
    ensures ok ==>
      mux.log == old(mux.log) + [OrientationSet(degrees), Started] + WritesOf(vTrackIx, vEx.Samples()) + WritesOf(aTrackIx, aEx.Samples()) + [Stopped, Released]
    ensures ok ==> mux.released && vEx.released && aEx.released
    ensures !ok ==> !mux.released && vEx.released == old(vEx.released) && aEx.released == old(aEx.released)
  {
    var accepted := mux.SetOrientationHint(degrees);
    if !accepted {
      return false;
    }
    mux.Start();
    assert old(mux.log) + [OrientationSet(degrees)] + [Started] == old(mux.log) + [OrientationSet(degrees), Started];
    ok := CopyBoth(vEx, aEx, mux, vTrackIx, aTrackIx);
    if ok {
      ghost var body := mux.log;
      mux.Stop();
      mux.Release();
      assert body + [Stopped] + [Released] == body + [Stopped, Released];
      vEx.Release();
      aEx.Release();
    }
  }

  /** mergeAudioWithVideo once both extractors are open and the muxer is
      created: the two loops, the missing-track check, then the write.
      Every rejection leaves the muxer and both extractors unreleased: the
      source releases only on the success path. */
  method MergeTracks(vEx: Extractor, aEx: Extractor, mux: Muxer, lookup: RotationLookup)
    returns (outcome: Outcome)
    requires vEx.Valid() && vEx.selected == None && vEx.cursor == 0 && !vEx.released
    requires aEx.Valid() && aEx.selected == None && aEx.cursor == 0 && !aEx.released && aEx != vEx
    requires mux.Valid() && !mux.started && !mux.released && !mux.stopped && mux.tracks == [] && mux.log == []
    modifies vEx, aEx, mux
    ensures outcome == MergeTracksOutcome(vEx.tracks, aEx.tracks, lookup, mux.path)
    ensures outcome.Resolved? ==>
      && vEx.released && aEx.released && mux.released
      && mux.log == MergedLog(vEx.tracks, aEx.tracks, lookup)
    ensures outcome.Rejected? ==> !vEx.released && !aEx.released && !mux.released
    ensures outcome == Rejected(MERGE_ERROR, Some(TRACKS_NOT_FOUND_MESSAGE)) ==>
      !mux.started && mux.log == AddedBeforeCheck(vEx.tracks, aEx.tracks)
  {
    var vScan, vTrackIx, rotation := AddVideoTrack(vEx, mux, lookup);
    if vScan.NullMime? || rotation.None? {
      return Rejected(MERGE_ERROR, None);
    }
    var aScan, aTrackIx := AddAudioTrack(aEx, mux);
    if aScan.NullMime? {
      return Rejected(MERGE_ERROR, None);
    }
    if vTrackIx == -1 || aTrackIx == -1 {
      return Rejected(MERGE_ERROR, Some(TRACKS_NOT_FOUND_MESSAGE));
    }
    ghost var added := mux.log;
    var ok := WriteMerged(vEx, aEx, mux, vTrackIx, aTrackIx, rotation.value);
    if ok {
      assert added + [OrientationSet(rotation.value), Started] == [added[0], added[1], OrientationSet(rotation.value), Started];
    }
    outcome := if ok then Resolved(mux.path) else Rejected(MERGE_ERROR, None);
  }

  /** mergeAudioWithVideo. */
  method MergeAudioWithVideo(device: Device, videoPath: string, audioPath: string)
    returns (outcome: Outcome, vEx: Extractor?, aEx: Extractor?, mux: Muxer?)
    ensures outcome == MergeOutcome(device, videoPath, audioPath)
    ensures vEx != null <==> videoPath in device.containers
    ensures aEx != null <==> videoPath in device.containers && audioPath in device.containers
    ensures mux != null <==>
      videoPath in device.containers && audioPath in device.containers && MergeOutputPath(videoPath) in device.writable
    ensures vEx != null ==> fresh(vEx) && vEx.tracks == device.containers[videoPath]
    ensures aEx != null ==> fresh(aEx) && aEx.tracks == device.containers[audioPath] && aEx != vEx
    ensures mux != null ==> fresh(mux) && mux.path == MergeOutputPath(videoPath)
    ensures outcome.Resolved? ==>
      && vEx != null && aEx != null && mux != null
      && vEx.released && aEx.released && mux.released
      && mux.log == MergedLog(vEx.tracks, aEx.tracks, device.rotationMetadata(videoPath))
    ensures outcome.Rejected? ==>
      && (vEx != null ==> !vEx.released)
      && (aEx != null ==> !aEx.released)
      && (mux != null ==> !mux.released)
    ensures outcome == Rejected(MERGE_ERROR, Some(TRACKS_NOT_FOUND_MESSAGE)) ==>
      && vEx != null && aEx != null && mux != null && !mux.started
      && mux.log == AddedBeforeCheck(vEx.tracks, aEx.tracks)
  {
    var outputPath := MergeOutputPath(videoPath);
    if videoPath !in device.containers {
      return Rejected(MERGE_ERROR, None), null, null, null;
    }
    vEx := new Extractor(device.containers[videoPath]);
    if audioPath !in device.containers {
      return Rejected(MERGE_ERROR, None), vEx, null, null;
    }
    aEx := new Extractor(device.containers[audioPath]);
    if outputPath !in device.writable {
      return Rejected(MERGE_ERROR, None), vEx, aEx, null;
    }
    mux := new Muxer(outputPath);
    outcome := MergeTracks(vEx, aEx, mux, device.rotationMetadata(videoPath));
  }
}
