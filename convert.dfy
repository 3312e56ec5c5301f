/** convertMp3ToM4a: open the MP3, find its first audio track, set up an MP3
    decoder and an AAC-LC encoder (the input's sample rate and channel
    count, 128 kbps), run the transcode loop into an MPEG-4 muxer, and
    release everything, whether the flow succeeds or throws. */
module Convert {
  import opened Media
  import opened Locator
  import opened Paths
  import opened Extraction
  import opened Codecs
  import opened Muxing
  import opened Platform
  import opened Fragments
  import opened Transcode

  /** How far the set-up before the loop gets: the step that throws, or the
      codecs the loop runs with. */
  datatype Setup =
    | NoSource                                                   // setDataSource throws
    | NoAudioTrack(scan: ScanResult)                              // `first` or `!!` throws
    | NoPcmParameters(trackIx: nat)                               // getInteger throws
    | NoDecoder(trackIx: nat)                                     // createDecoderByType / configure throws
    | NoEncoder(trackIx: nat, decoder: CodecSetup)                // createEncoderByType / configure throws
    | NoOutput(trackIx: nat, decoder: CodecSetup, encoder: CodecSetup)  // new MediaMuxer throws
    | Ready(trackIx: nat, decoder: CodecSetup, encoder: CodecSetup)

  /** The AAC format the encoder is configured with: the input track's sample
      rate and channel count, profile AAC-LC, 128 kbps. */
  function AacConfig(f: Format): (c: EncoderConfig)
    requires f.sampleRate.Some? && f.channelCount.Some?
    ensures c.mime == MIMETYPE_AUDIO_AAC && c.aacProfile == AAC_OBJECT_LC && c.bitRate == AAC_BIT_RATE
    ensures c.sampleRate == f.sampleRate.value && c.channelCount == f.channelCount.value
  {
    EncoderConfig(MIMETYPE_AUDIO_AAC, f.sampleRate.value, f.channelCount.value, AAC_OBJECT_LC, AAC_BIT_RATE)
  }

  /** The set-up steps before the loop, in the source's order. */
  function SetUp(device: Device, mp3Path: string): (r: Setup)
    ensures r.NoSource? <==> TranscodeInputPath(mp3Path) !in device.containers
    ensures r.NoAudioTrack? ==>
      && !r.scan.Found?
      && IsStrictScan(Formats(device.containers[TranscodeInputPath(mp3Path)]), AUDIO_PREFIX, r.scan)
    ensures r.NoPcmParameters? || r.NoDecoder? || r.NoEncoder? || r.NoOutput? || r.Ready? ==>
      IsStrictScan(Formats(device.containers[TranscodeInputPath(mp3Path)]), AUDIO_PREFIX, Found(r.trackIx))
    ensures r.NoOutput? || r.Ready? ==>
      var f := device.containers[TranscodeInputPath(mp3Path)][r.trackIx].format;
      && f.sampleRate.Some? && f.channelCount.Some?
      && device.decoderFor(f) == Some(r.decoder)
      && device.aacEncoderFor(AacConfig(f)) == Some(r.encoder)
    ensures r.NoPcmParameters? ==>
      var f := device.containers[TranscodeInputPath(mp3Path)][r.trackIx].format;
      f.sampleRate.None? || f.channelCount.None?
    ensures r.NoDecoder? ==>
      var f := device.containers[TranscodeInputPath(mp3Path)][r.trackIx].format;
      f.sampleRate.Some? && f.channelCount.Some? && device.decoderFor(f).None?
    ensures r.NoEncoder? ==>
      var f := device.containers[TranscodeInputPath(mp3Path)][r.trackIx].format;
      && f.sampleRate.Some? && f.channelCount.Some?
      && device.decoderFor(f) == Some(r.decoder) && device.aacEncoderFor(AacConfig(f)).None?
    ensures r.NoOutput? ==> TranscodeOutputPath(mp3Path) !in device.writable
    ensures
      var inPath := TranscodeInputPath(mp3Path);
      var scan := if inPath in device.containers then StrictScan(Formats(device.containers[inPath]), AUDIO_PREFIX) else NotFound;
      var f := if scan.Found? then device.containers[inPath][scan.index].format else Format(None, None, None, None);
      (&& inPath in device.containers && scan.Found?
       && f.sampleRate.Some? && f.channelCount.Some?
       && device.decoderFor(f).Some? && device.aacEncoderFor(AacConfig(f)).Some?
       && TranscodeOutputPath(mp3Path) in device.writable)
      <==> r.Ready?
    ensures r.Ready? ==> TranscodeOutputPath(mp3Path) in device.writable
  {
    var inPath := TranscodeInputPath(mp3Path);
    if inPath !in device.containers then NoSource
    else
      var tracks := device.containers[inPath];
      var scan := StrictScan(Formats(tracks), AUDIO_PREFIX);
      StrictScanCharacterized(Formats(tracks), AUDIO_PREFIX, scan);
      if !scan.Found? then NoAudioTrack(scan)
      else
        var f := tracks[scan.index].format;
        if f.sampleRate.None? || f.channelCount.None? then NoPcmParameters(scan.index)
        else if device.decoderFor(f).None? then NoDecoder(scan.index)
        else if device.aacEncoderFor(AacConfig(f)).None? then NoEncoder(scan.index, device.decoderFor(f).value)
        else if TranscodeOutputPath(mp3Path) !in device.writable then
          NoOutput(scan.index, device.decoderFor(f).value, device.aacEncoderFor(AacConfig(f)).value)
        else Ready(scan.index, device.decoderFor(f).value, device.aacEncoderFor(AacConfig(f)).value)
  }

  /** The catch block: extractor?.release(), decoder?.stop() and release(),
      encoder?.stop() and release(), muxer?.release(); the muxer is not
      stopped. */
  method Abandon(ex: Extractor, dec: Codec?, enc: Codec?, mux: Muxer?)
    requires dec != enc || dec == null
    modifies ex`released, dec, enc, mux
    ensures ex.released
    ensures dec != null ==>
      && !dec.running && dec.released
      && dec.history == old(dec.history) && dec.emitted == old(dec.emitted) && dec.inputLeased == old(dec.inputLeased)
    ensures enc != null ==>
      && !enc.running && enc.released
      && enc.history == old(enc.history) && enc.emitted == old(enc.emitted) && enc.inputLeased == old(enc.inputLeased)
    ensures mux != null ==> mux.released && mux.stopped == old(mux.stopped) && mux.log == old(mux.log) + [Released]
  {
    ex.Release();
    if dec != null {
      dec.Stop();
      dec.Release();
    }
    if enc != null {
      enc.Stop();
      enc.Release();
    }
    if mux != null {
      mux.Release();
    }
  }

  /** After the loop: stop and release both codecs, stop the muxer if it was
      started, release it and the extractor. */
  method Finish(ex: Extractor, dec: Codec, enc: Codec, mux: Muxer, muxStarted: bool)
    requires dec != enc && mux.started == muxStarted && !mux.stopped && !mux.released && (muxStarted ==> |mux.tracks| > 0)
    modifies ex`released, dec`running, dec`released, enc`running, enc`released, mux`stopped, mux`released, mux`log
    ensures ex.released && !dec.running && dec.released && !enc.running && enc.released && mux.released
    ensures mux.stopped == muxStarted
    ensures mux.log == old(mux.log) + (if muxStarted then [Stopped, Released] else [Released])
  {
    dec.Stop();
    dec.Release();
    enc.Stop();
    enc.Release();
    if muxStarted {
      mux.Stop();
    }
    mux.Release();
    if muxStarted {
      assert old(mux.log) + [Stopped] + [Released] == old(mux.log) + [Stopped, Released];
    }
    ex.Release();
  }

  /** The muxer log of a successful conversion: the AAC track, start, the
      non-empty encoder outputs in order, stop, release. */
  function ConvertedLog(format: Format, outs: seq<Chunk>): seq<MuxEvent>
  {
    [TrackAdded(format), Started] + MuxWrites(outs) + [Stopped, Released]
  }

  /** What the loop moved: the decoder was fed the samples before the cursor
      (and the end-of-stream buffer once `inEos`), the encoder the decoder
      outputs cut after `cuts`. */
  ghost predicate Transcoded(ex: Extractor, dec: Codec, enc: Codec, inEos: bool, cuts: seq<nat>)
    reads ex`selected, ex`cursor, dec, enc
  {
    && ex.Valid() && dec.Valid() && enc.Valid()
    && dec.history == DecoderInput(ex.Samples(), ex.cursor, inEos) && (inEos ==> ex.cursor == |ex.Samples()|)
    && |cuts| == |dec.emitted| && enc.history == Forwarded(dec.emitted, cuts, enc.capacity)
  }

  /** The extractor is released, both codecs stopped and released. */
  ghost predicate ShutDown(ex: Extractor, dec: Codec, enc: Codec)
    reads ex`released, dec`running, dec`released, enc`running, enc`released
  {
    ex.released && !dec.running && dec.released && !enc.running && enc.released
  }

  /** The `while (!encEOS)` loop and what follows it: on the encoder's end,
      the success clean-up and the resolved URI; when readSampleData throws,
      the catch block; out of fuel, nothing is settled. */
  method RunAndSettle(ex: Extractor, dec: Codec, enc: Codec, mux: Muxer, fuel: nat, uri: string)
    returns (outcome: Outcome, ghost inEos: bool, ghost cuts: seq<nat>)
    requires dec != enc && ex.Valid() && dec.Valid() && enc.Valid() && ex.cursor == 0
    requires dec.history == [] && dec.emitted == [] && !dec.inputLeased && dec.outputLeased == None && dec.releasedOutputs == 0
    requires enc.history == [] && enc.emitted == [] && !enc.inputLeased && enc.outputLeased == None && enc.releasedOutputs == 0
    requires !ex.released && !dec.released && !enc.released
    requires InStep(mux, enc.outputFormat, [], false, -1)
    modifies ex`cursor, ex`released, dec, enc, mux
    ensures outcome == Resolved(uri) || outcome == Rejected(CONVERT_ERROR, None) || outcome == Stalled
    ensures Transcoded(ex, dec, enc, inEos, cuts) && ex.selected == old(ex.selected)
    ensures outcome.Resolved? ==>
      && inEos && AnyEos(dec.emitted) && AnyEos(enc.emitted) && dec.transform([]) != []
      && ShutDown(ex, dec, enc) && mux.stopped && mux.released && mux.log == ConvertedLog(enc.outputFormat, enc.emitted)
    ensures outcome.Rejected? ==>
      && ex.cursor < |ex.Samples()| && |ex.Samples()[ex.cursor].payload| > dec.capacity
      && ShutDown(ex, dec, enc) && mux.released && !mux.stopped && mux.log == MuxHistory(enc.outputFormat, enc.emitted) + [Released]
    ensures outcome == Stalled ==>
      && !AnyEos(enc.emitted) && !ex.released && !dec.released && !enc.released && !mux.released
      && mux.log == MuxHistory(enc.outputFormat, enc.emitted)
  {
    var end, muxStarted;
    end, muxStarted, inEos, cuts := Drive(ex, dec, enc, mux, fuel);
    outcome := Settle(ex, dec, enc, mux, end, muxStarted, uri, inEos, cuts);
  }

  /** What follows the loop, by how it ended. */
  method Settle(ex: Extractor, dec: Codec, enc: Codec, mux: Muxer, end: DriveEnd, muxStarted: bool, uri: string,
      ghost inEos: bool, ghost cuts: seq<nat>)
    returns (outcome: Outcome)
    requires dec != enc && Transcoded(ex, dec, enc, inEos, cuts)
    requires !ex.released && !dec.released && !enc.released
    requires InStep(mux, enc.outputFormat, enc.emitted, muxStarted, if muxStarted then 0 else -1)
    requires end == Finished <==> AnyEos(enc.emitted)
    requires end == Finished ==> inEos && AnyEos(dec.emitted) && dec.transform([]) != []
    requires end == ReadTooLarge ==> ex.cursor < |ex.Samples()| && |ex.Samples()[ex.cursor].payload| > dec.capacity
    modifies ex`released, dec, enc, mux
    ensures outcome == match end
      case Finished => Resolved(uri)
      case ReadTooLarge => Rejected(CONVERT_ERROR, None)
      case OutOfFuel => Stalled
    ensures Transcoded(ex, dec, enc, inEos, cuts) && ex.selected == old(ex.selected)
    ensures dec.emitted == old(dec.emitted) && enc.emitted == old(enc.emitted)
    ensures outcome.Resolved? ==> inEos && AnyEos(dec.emitted) && AnyEos(enc.emitted) && dec.transform([]) != []
    ensures outcome.Rejected? ==> ex.cursor < |ex.Samples()| && |ex.Samples()[ex.cursor].payload| > dec.capacity
    ensures outcome.Resolved? ==>
      ShutDown(ex, dec, enc) && mux.stopped && mux.released && mux.log == ConvertedLog(enc.outputFormat, enc.emitted)
    ensures outcome.Rejected? ==>
      ShutDown(ex, dec, enc) && mux.released && !mux.stopped && mux.log == MuxHistory(enc.outputFormat, enc.emitted) + [Released]
    ensures outcome == Stalled ==>
      && !ex.released && !dec.released && !enc.released && !mux.released
      && mux.log == MuxHistory(enc.outputFormat, enc.emitted)
  {
    match end {
      case Finished =>
        assert enc.emitted != [];
        Finish(ex, dec, enc, mux, muxStarted);
        outcome := Resolved(uri);
      case ReadTooLarge =>
        Abandon(ex, dec, enc, mux);
        outcome := Rejected(CONVERT_ERROR, None);
      case OutOfFuel =>
        outcome := Stalled;
    }
  }

  /** convertMp3ToM4a, with the loop allowed `fuel` turns. Every set-up step
      that throws rejects with CONVERT_ERROR after releasing what exists by
      then; once the loop runs, the flow resolves with the output's URI, is
      rejected when a sample does not fit the decoder's input buffer, or is
      still running when the fuel is used up. */
  method ConvertMp3ToM4a(device: Device, mp3Path: string, fuel: nat)
    returns (outcome: Outcome, ex: Extractor?, dec: Codec?, enc: Codec?, mux: Muxer?, ghost inEos: bool, ghost cuts: seq<nat>)
    ensures var s := SetUp(device, mp3Path);
      && (ex != null <==> !s.NoSource?)
      && (dec != null <==> s.NoEncoder? || s.NoOutput? || s.Ready?)
      && (enc != null <==> s.NoOutput? || s.Ready?)
      && (mux != null <==> s.Ready?)
      && (!s.Ready? ==> outcome == Rejected(CONVERT_ERROR, None))
      && (s.Ready? ==>
            outcome == Resolved(TranscodeResultUri(mp3Path)) || outcome == Rejected(CONVERT_ERROR, None) || outcome == Stalled)
    ensures ex != null ==> fresh(ex) && ex.tracks == device.containers[TranscodeInputPath(mp3Path)]
    ensures dec != null ==> fresh(dec) && dec != enc
    ensures enc != null ==> fresh(enc)
    ensures mux != null ==> fresh(mux) && mux.path == TranscodeOutputPath(mp3Path)
    ensures outcome.Rejected? ==>
      && (ex != null ==> ex.released)
      && (dec != null ==> !dec.running && dec.released)
      && (enc != null ==> !enc.running && enc.released)
      && (mux != null ==> mux.released && !mux.stopped)
    ensures outcome.Resolved? ==>
      && ex != null && dec != null && enc != null && mux != null
      && ex.selected == Some(SetUp(device, mp3Path).trackIx) && Transcoded(ex, dec, enc, inEos, cuts)
      && inEos && AnyEos(dec.emitted) && AnyEos(enc.emitted) && dec.transform([]) != []
      && dec.history == Feeds(ex.Samples()) + [EOS_INPUT]
      && ShutDown(ex, dec, enc) && mux.stopped && mux.released && mux.log == ConvertedLog(enc.outputFormat, enc.emitted)
    ensures SetUp(device, mp3Path).Ready? && outcome.Rejected? ==>
      && ex != null && dec != null && ex.Valid()
      && ex.cursor < |ex.Samples()| && |ex.Samples()[ex.cursor].payload| > dec.capacity
    ensures outcome == Stalled ==>
      && ex != null && dec != null && enc != null && mux != null
      && !ex.released && !dec.released && !enc.released && !mux.released
  {
    inEos, cuts := false, [];
    var inPath := TranscodeInputPath(mp3Path);
    var outPath := TranscodeOutputPath(mp3Path);
    if inPath !in device.containers {
      return Rejected(CONVERT_ERROR, None), null, null, null, null, inEos, cuts;
    }
    ex := new Extractor(device.containers[inPath]);
    var scan := FindTrackStrict(Formats(ex.tracks), AUDIO_PREFIX);
    if !scan.Found? {
      Abandon(ex, null, null, null);
      return Rejected(CONVERT_ERROR, None), ex, null, null, null, inEos, cuts;
    }
    var trackIx := scan.index;
    ex.SelectTrack(trackIx);
    var inFmt := ex.tracks[trackIx].format;
    if inFmt.sampleRate.None? || inFmt.channelCount.None? {
      Abandon(ex, null, null, null);
      return Rejected(CONVERT_ERROR, None), ex, null, null, null, inEos, cuts;
    }
    var decoderSetup := device.decoderFor(inFmt);
    if decoderSetup.None? {
      Abandon(ex, null, null, null);
      return Rejected(CONVERT_ERROR, None), ex, null, null, null, inEos, cuts;
    }
    dec := new Codec(decoderSetup.value);
    var encoderSetup := device.aacEncoderFor(AacConfig(inFmt));
    if encoderSetup.None? {
      Abandon(ex, dec, null, null);
      return Rejected(CONVERT_ERROR, None), ex, dec, null, null, inEos, cuts;
    }
    enc := new Codec(encoderSetup.value);
    if outPath !in device.writable {
      Abandon(ex, dec, enc, null);
      return Rejected(CONVERT_ERROR, None), ex, dec, enc, null, inEos, cuts;
    }
    mux := new Muxer(outPath);
    outcome, inEos, cuts := RunAndSettle(ex, dec, enc, mux, fuel, FILE_SCHEME + outPath);
    FedEverything(ex.Samples());
  }
}
