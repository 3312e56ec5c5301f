/** The transcode driver of convertMp3ToM4a: the `while (!encEOS)` loop
    that feeds the decoder from the extractor, hands decoded PCM to the
    encoder fragment by fragment, and writes the encoder's output to the
    muxer, starting the muxer on the first encoder output. */
module Transcode {
  import opened Media
  import opened Extraction
  import opened Codecs
  import opened Muxing
  import opened Fragments

  /** queueInputBuffer(inIdx, 0, 0, 0, BUFFER_FLAG_END_OF_STREAM). */
  const EOS_INPUT: Chunk := Chunk([], 0, BUFFER_FLAG_END_OF_STREAM)

  /** queueInputBuffer(inIdx, 0, sz, sampleTime, 0): the sample's bytes and
      time; its own flags are not passed on. */
  function Feed(s: Sample): Chunk
  {
    Chunk(s.payload, s.timeUs, 0)
  }

  function Feeds(samples: seq<Sample>): (cs: seq<Chunk>)
    ensures |cs| == |samples|
    ensures forall i :: 0 <= i < |samples| ==> cs[i] == Feed(samples[i])
  {
    seq(|samples|, i requires 0 <= i < |samples| => Feed(samples[i]))
  }

  /** The decoder input after `k` samples, and the end-of-stream buffer once
      the extractor has reported the end. */
  function DecoderInput(samples: seq<Sample>, k: nat, inEos: bool): seq<Chunk>
    requires k <= |samples|
  {
    Feeds(samples[..k]) + (if inEos then [EOS_INPUT] else [])
  }

  /** writeSampleData(aacTrack, aBuf, info) for one encoder output. */
  function Muxed(c: Chunk): Sample
  {
    Sample(c.data, c.timeUs, c.flags)
  }

  /** The writes the encoder outputs `outs` produce: the non-empty ones, in
      order, on track 0. */
  function MuxWrites(outs: seq<Chunk>): seq<MuxEvent>
  {
    if outs == [] then []
    else
      var last := outs[|outs| - 1];
      MuxWrites(outs[..|outs| - 1]) + (if |last.data| > 0 then [SampleWritten(0, Muxed(last))] else [])
  }

  /** The muxer's history while the loop runs: nothing before the first
      encoder output; then addTrack(outputFormat), start, and the writes. */
  function MuxHistory(format: Format, outs: seq<Chunk>): seq<MuxEvent>
  {
    if outs == [] then [] else [TrackAdded(format), Started] + MuxWrites(outs)
  }

  /** Every event after the header is a write of a non-empty buffer to
      track 0: addTrack and start happen once, before any write. */
  lemma {:induction false} MuxWritesAreWrites(outs: seq<Chunk>)
    ensures forall e :: e in MuxWrites(outs) ==> e.SampleWritten? && e.track == 0 && |e.sample.payload| > 0
    decreases |outs|
  {
    if outs != [] {
      MuxWritesAreWrites(outs[..|outs| - 1]);
    }
  }

  /** Each encoder output is written exactly when it is non-empty. */
  lemma {:induction false} MuxWritesCount(outs: seq<Chunk>, k: nat)
    requires k <= |outs|
    ensures |MuxWrites(outs[..k])| <= k
    ensures (forall i :: 0 <= i < k ==> |outs[i].data| > 0) ==> |MuxWrites(outs[..k])| == k
    decreases k
  {
    if k > 0 {
      assert outs[..k][..k - 1] == outs[..k - 1];
      MuxWritesCount(outs, k - 1);
    }
  }

  lemma MuxWritesStep(outs: seq<Chunk>, c: Chunk)
    ensures MuxWrites(outs + [c]) == MuxWrites(outs) + (if |c.data| > 0 then [SampleWritten(0, Muxed(c))] else [])
  {
    assert (outs + [c])[..|outs|] == outs;
  }

  /** One turn of the inner loop takes the next fragment off the chunk. */
  lemma SplitStep(frags: seq<Chunk>, sent: nat, data: Bytes, pos: nat, cap: Pos, timeUs: int, eos: bool)
    requires pos < |data| && sent <= |frags| && frags[sent..] == Split(data[pos..], cap, timeUs, eos)
    ensures var n := if cap < |data| - pos then cap else |data| - pos;
      && sent < |frags|
      && frags[sent] == Chunk(data[pos..pos + n], timeUs, if pos + n == |data| && eos then BUFFER_FLAG_END_OF_STREAM else 0)
      && frags[sent + 1..] == Split(data[pos + n..], cap, timeUs, eos)
      && frags[..sent + 1] == frags[..sent] + [frags[sent]]
  {
    var n := if cap < |data| - pos then cap else |data| - pos;
    assert data[pos..][..n] == data[pos..pos + n] && data[pos..][n..] == data[pos + n..];
    assert frags[sent + 1..] == frags[sent..][1..];
  }

  /** One turn of the inner loop once a slot is granted: copy
      min(capacity, remaining) bytes of `pcm` from `pos` into it and queue
      them with the chunk's time, flagged end-of-stream when they empty an
      end-of-stream chunk. */
  method SendFragment(enc: Codec, pcm: Chunk, pos: nat, ghost frags: seq<Chunk>, ghost sent: nat) returns (next: nat)
    requires enc.Valid() && enc.inputLeased && pos < |pcm.data|
    requires sent <= |frags| && frags[sent..] == Split(pcm.data[pos..], enc.capacity, pcm.timeUs, IsEos(pcm.flags))
    modifies enc`history, enc`inputLeased
    ensures enc.Valid() && !enc.inputLeased && pos < next <= |pcm.data|
    ensures sent < |frags| && frags[sent + 1..] == Split(pcm.data[next..], enc.capacity, pcm.timeUs, IsEos(pcm.flags))
    ensures enc.history == old(enc.history) + [frags[sent]]
  {
    var n := if enc.capacity < |pcm.data| - pos then enc.capacity else |pcm.data| - pos;
    var fragment := pcm.data[pos..pos + n];
    var flags: bv32 := if pos + n == |pcm.data| && IsEos(pcm.flags) then BUFFER_FLAG_END_OF_STREAM else 0;
    SplitStep(frags, sent, pcm.data, pos, enc.capacity, pcm.timeUs, IsEos(pcm.flags));
    enc.QueueInputBuffer(Chunk(fragment, pcm.timeUs, flags));
    next := pos + n;
  }

  /** The chunk-safe inner loop: split the decoded chunk `pcm` across encoder
      input buffers, each fragment min(buffer, remaining) bytes with the
      chunk's timestamp, the end-of-stream flag only on the fragment that
      empties an end-of-stream chunk. A refused slot ends the loop: the
      fragments not sent yet are dropped. */
  method ForwardChunk(enc: Codec, pcm: Chunk) returns (sent: nat)
    requires enc.Valid() && !enc.inputLeased
    modifies enc`inputGrants, enc`inputLeased, enc`history
    ensures enc.Valid() && !enc.inputLeased
    ensures sent <= |SplitOf(pcm, enc.capacity)|
    ensures enc.history == old(enc.history) + SplitOf(pcm, enc.capacity)[..sent]
    ensures sent == |SplitOf(pcm, enc.capacity)| ==>
      enc.inputGrants == Drop(old(enc.inputGrants), sent) && Concat(enc.history[|old(enc.history)|..]) == pcm.data
    ensures sent < |SplitOf(pcm, enc.capacity)| ==>
      && enc.inputGrants == Drop(old(enc.inputGrants), sent + 1)
      && !(|enc.history| - |enc.emitted| < enc.slots && Next(Drop(old(enc.inputGrants), sent)))
  {
    ghost var frags := SplitOf(pcm, enc.capacity);
    var pos := 0;
    sent := 0;
    while pos < |pcm.data|
      invariant 0 <= pos <= |pcm.data| && enc.Valid() && !enc.inputLeased
      invariant sent <= |frags| && frags[sent..] == Split(pcm.data[pos..], enc.capacity, pcm.timeUs, IsEos(pcm.flags))
      invariant enc.history == old(enc.history) + frags[..sent]
      invariant enc.inputGrants == Drop(old(enc.inputGrants), sent)
      decreases |pcm.data| - pos
    {
      var granted := enc.DequeueInputBuffer();
      if !granted {
        assert frags[sent..] != [];
        return;
      }
      assert old(enc.history) + frags[..sent] + [frags[sent]] == old(enc.history) + (frags[..sent] + [frags[sent]]);
      assert frags[..sent + 1] == frags[..sent] + [frags[sent]];
      pos := SendFragment(enc, pcm, pos, frags, sent);
      sent := sent + 1;
    }
    assert frags[..sent] == frags;
    SplitConcat(pcm.data, enc.capacity, pcm.timeUs, IsEos(pcm.flags));
    assert enc.history[|old(enc.history)|..] == frags;
  }

  /** After one more output: the outputs since `m` gain it at the end. */
  lemma OutputsStep(outs: seq<Chunk>, c: Chunk, m: nat)
    requires m <= |outs|
    ensures (outs + [c])[..m] == outs[..m]
    ensures (outs + [c])[m..] == outs[m..] + [c]
    ensures AnyEos((outs + [c])[m..]) <==> AnyEos(outs[m..]) || IsEos(c.flags)
  {
    assert (outs + [c])[m..] == outs[m..] + [c];
    AnyEosAppend(outs[m..], [c]);
    assert [c][0] == c;
  }

  /** One turn of the decoder-drain loop: poll the decoder; when an output
      is ready, hand it to the encoder and release it. `endFlag` is that
      output's end-of-stream flag. */
  method DecoderTurn(dec: Codec, enc: Codec, ghost cuts: seq<nat>) returns (ready: bool, endFlag: bool, ghost pcm: Chunk, ghost cuts': seq<nat>)
    requires dec != enc && dec.Valid() && enc.Valid()
    requires dec.outputLeased == None && !enc.inputLeased
    requires |cuts| == |dec.emitted| && enc.history == Forwarded(dec.emitted, cuts, enc.capacity)
    requires dec.releasedOutputs == |dec.emitted|
    modifies dec`outputReady, dec`emitted, dec`outputLeased, dec`releasedOutputs,
      enc`inputGrants, enc`inputLeased, enc`history
    ensures dec.Valid() && enc.Valid() && dec.outputLeased == None && !enc.inputLeased
    ensures |cuts'| == |dec.emitted| && enc.history == Forwarded(dec.emitted, cuts', enc.capacity)
    ensures dec.releasedOutputs == |dec.emitted| && dec.history == old(dec.history) && cuts <= cuts'
    ensures !ready ==> dec.emitted == old(dec.emitted)
    ensures ready ==> dec.emitted == old(dec.emitted) + [pcm] && endFlag == IsEos(pcm.flags)
  {
    var decOut := dec.DequeueOutputBuffer();
    if decOut.None? {
      return false, false, EOS_INPUT, cuts;
    }
    ready := true;
    pcm := decOut.value;
    endFlag := IsEos(decOut.value.flags);
    var sent := ForwardChunk(enc, decOut.value);
    dec.ReleaseOutputBuffer();
    ForwardedSnoc(old(dec.emitted), cuts, pcm, sent, enc.capacity);
    assert Take(SplitOf(pcm, enc.capacity), sent) == SplitOf(pcm, enc.capacity)[..sent];
    cuts' := cuts + [sent];
  }

  /** `while (decOut >= 0)`: every decoder output that is ready is handed to
      the encoder, then released; `eosSeen` records an end-of-stream output
      (decEOS). */
  method DrainDecoder(dec: Codec, enc: Codec, ghost cuts0: seq<nat>) returns (eosSeen: bool, ghost cuts: seq<nat>)
    requires dec != enc && dec.Valid() && enc.Valid()
    requires dec.outputLeased == None && !enc.inputLeased
    requires |cuts0| == |dec.emitted| && enc.history == Forwarded(dec.emitted, cuts0, enc.capacity)
    requires dec.releasedOutputs == |dec.emitted|
    modifies dec`outputReady, dec`emitted, dec`outputLeased, dec`releasedOutputs,
      enc`inputGrants, enc`inputLeased, enc`history
    ensures dec.Valid() && enc.Valid() && dec.outputLeased == None && !enc.inputLeased
    ensures |cuts| == |dec.emitted| && enc.history == Forwarded(dec.emitted, cuts, enc.capacity)
    ensures old(dec.emitted) <= dec.emitted && cuts0 <= cuts
    ensures dec.releasedOutputs == |dec.emitted| && dec.history == old(dec.history)
    ensures eosSeen <==> AnyEos(dec.emitted[|old(dec.emitted)|..])
  {
    ghost var m := |dec.emitted|;
    cuts := cuts0;
    eosSeen := false;
    while true
      invariant dec.Valid() && enc.Valid() && dec.outputLeased == None && !enc.inputLeased
      invariant |cuts| == |dec.emitted| && enc.history == Forwarded(dec.emitted, cuts, enc.capacity)
      invariant old(dec.emitted) <= dec.emitted && cuts0 <= cuts
      invariant dec.releasedOutputs == |dec.emitted| && dec.history == old(dec.history)
      invariant eosSeen <==> AnyEos(dec.emitted[m..])
      decreases |dec.history| - |dec.emitted|
    {
      ghost var before := dec.emitted;
      var ready, endFlag;
      ghost var pcm;
      ready, endFlag, pcm, cuts := DecoderTurn(dec, enc, cuts);
      if !ready {
        break;
      }
      OutputsStep(before, pcm, m);
      if endFlag {
        eosSeen := true;
      }
    }
  }

  /** The muxer is in step with the encoder outputs `outs` polled so far:
      started, with the AAC track at index 0, exactly when there was an
      output (aacTrack stays -1 until then); its log holds addTrack, start
      and the writes of the non-empty outputs. */
  ghost predicate InStep(mux: Muxer, format: Format, outs: seq<Chunk>, muxStarted: bool, aacTrack: int)
    reads mux`tracks, mux`started, mux`stopped, mux`released, mux`log
  {
    && !mux.stopped && !mux.released
    && mux.started == muxStarted && (muxStarted <==> outs != [])
    && mux.tracks == (if muxStarted then [format] else [])
    && aacTrack == (if muxStarted then 0 else -1)
    && mux.log == MuxHistory(format, outs)
  }

  /** The body of the encoder-drain loop for one ready output `out`: on the
      first output add the track and start the muxer; write the output when
      it has bytes. */
  method MuxOutput(mux: Muxer, format: Format, out: Chunk, ghost outs: seq<Chunk>, muxStarted: bool, aacTrack: int)
    returns (muxStarted': bool, aacTrack': int)
    requires InStep(mux, format, outs, muxStarted, aacTrack)
    modifies mux`tracks, mux`started, mux`log
    ensures InStep(mux, format, outs + [out], muxStarted', aacTrack')
  {
    muxStarted', aacTrack' := muxStarted, aacTrack;
    if !muxStarted' {
      var ix := mux.AddTrack(format);
      mux.Start();
      aacTrack', muxStarted' := ix, true;
      assert outs + [out] == [out];
    }
    if |out.data| > 0 {
      mux.WriteSampleData(aacTrack', Muxed(out));
    }
    MuxWritesStep(outs, out);
  }

  /** One turn of the encoder-drain loop: poll the encoder; when an output is
      ready, pass it to the muxer and release it. `eEnd` is that output's
      end-of-stream flag. */
  method EncoderTurn(enc: Codec, mux: Muxer, muxStarted: bool, aacTrack: int)
    returns (ready: bool, eEnd: bool, muxStarted': bool, aacTrack': int, ghost out: Chunk)
    requires enc.Valid() && enc.outputLeased == None && enc.releasedOutputs == |enc.emitted|
    requires InStep(mux, enc.outputFormat, enc.emitted, muxStarted, aacTrack)
    modifies enc`outputReady, enc`emitted, enc`outputLeased, enc`releasedOutputs, mux`tracks, mux`started, mux`log
    ensures enc.Valid() && enc.outputLeased == None && enc.releasedOutputs == |enc.emitted|
    ensures InStep(mux, enc.outputFormat, enc.emitted, muxStarted', aacTrack')
    ensures !ready ==> enc.emitted == old(enc.emitted)
    ensures ready ==> enc.emitted == old(enc.emitted) + [out] && eEnd == IsEos(out.flags)
  {
    var encOut := enc.DequeueOutputBuffer();
    if encOut.None? {
      return false, false, muxStarted, aacTrack, EOS_INPUT;
    }
    ready, out := true, encOut.value;
    muxStarted', aacTrack' := MuxOutput(mux, enc.outputFormat, encOut.value, old(enc.emitted), muxStarted, aacTrack);
    eEnd := IsEos(encOut.value.flags);
    enc.ReleaseOutputBuffer();
  }

  /** `while (encOut >= 0)`: every encoder output that is ready goes to the
      muxer and is released; `eosSeen` records an end-of-stream output
      (encEOS). */
  method DrainEncoder(enc: Codec, mux: Muxer, muxStarted: bool, aacTrack: int)
    returns (muxStarted': bool, aacTrack': int, eosSeen: bool)
    requires enc.Valid() && enc.outputLeased == None && enc.releasedOutputs == |enc.emitted|
    requires InStep(mux, enc.outputFormat, enc.emitted, muxStarted, aacTrack)
    modifies enc`outputReady, enc`emitted, enc`outputLeased, enc`releasedOutputs, mux`tracks, mux`started, mux`log
    ensures enc.Valid() && enc.outputLeased == None && enc.releasedOutputs == |enc.emitted|
    ensures InStep(mux, enc.outputFormat, enc.emitted, muxStarted', aacTrack')
    ensures old(enc.emitted) <= enc.emitted
    ensures eosSeen <==> AnyEos(enc.emitted[|old(enc.emitted)|..])
  {
    ghost var m := |enc.emitted|;
    muxStarted', aacTrack' := muxStarted, aacTrack;
    eosSeen := false;
    while true
      invariant enc.Valid() && enc.outputLeased == None && enc.releasedOutputs == |enc.emitted|
      invariant InStep(mux, enc.outputFormat, enc.emitted, muxStarted', aacTrack')
      invariant old(enc.emitted) <= enc.emitted && enc.history == old(enc.history)
      invariant eosSeen <==> AnyEos(enc.emitted[m..])
      decreases |enc.history| - |enc.emitted|
    {
      ghost var before := enc.emitted;
      var ready, eEnd;
      ghost var out;
      ready, eEnd, muxStarted', aacTrack', out := EncoderTurn(enc, mux, muxStarted', aacTrack');
      if !ready {
        break;
      }
      OutputsStep(before, out, m);
      if eEnd {
        eosSeen := true;
      }
    }
  }

  lemma DecoderInputStep(samples: seq<Sample>, k: nat)
    requires k < |samples|
    ensures DecoderInput(samples, k + 1, false) == DecoderInput(samples, k, false) + [Feed(samples[k])]
  {
    assert DecoderInput(samples, k + 1, false) == Feeds(samples[..k + 1]);
    assert DecoderInput(samples, k, false) == Feeds(samples[..k]);
  }

  /** The `if (!inEOS)` block: request a decoder input slot; when granted,
      read the next sample into it (capacity: the decoder's input buffer).
      At the end of the track queue an empty end-of-stream buffer; else queue
      the sample with its time and advance. A sample larger than the buffer
      makes readSampleData throw (`tooLarge`), with the slot still leased. */
  method FeedDecoder(ex: Extractor, dec: Codec, inEos: bool) returns (inEos': bool, tooLarge: bool)
    requires ex.Valid() && dec.Valid() && !dec.inputLeased
    requires dec.history == DecoderInput(ex.Samples(), ex.cursor, inEos)
    requires inEos ==> ex.cursor == |ex.Samples()|
    modifies ex`cursor, dec`inputGrants, dec`inputLeased, dec`history
    ensures ex.Valid() && dec.Valid() && (inEos ==> inEos')
    ensures dec.inputLeased == tooLarge
    ensures dec.history == DecoderInput(ex.Samples(), ex.cursor, inEos')
    ensures tooLarge ==> !inEos' && ex.cursor < |ex.Samples()| && |ex.Samples()[ex.cursor].payload| > dec.capacity
    ensures inEos' ==> ex.cursor == |ex.Samples()|
    ensures var granted := !inEos && |old(dec.history)| - |dec.emitted| < dec.slots && Next(old(dec.inputGrants));
      && dec.inputGrants == (if inEos then old(dec.inputGrants) else Tail(old(dec.inputGrants)))
      && (!granted ==> ex.cursor == old(ex.cursor) && dec.history == old(dec.history) && inEos' == inEos && !tooLarge)
      && (granted && old(ex.ReadSampleData(dec.capacity)) == EndOfStream ==>
            inEos' && !tooLarge && dec.history == old(dec.history) + [EOS_INPUT])
      && (granted && old(ex.ReadSampleData(dec.capacity)).Got? ==>
            && !inEos' && !tooLarge && ex.cursor == old(ex.cursor) + 1
            && dec.history == old(dec.history) + [Feed(ex.Samples()[old(ex.cursor)])])
      && (granted && old(ex.ReadSampleData(dec.capacity)) == TooLarge ==>
            tooLarge && ex.cursor == old(ex.cursor) && dec.history == old(dec.history))
  {
    inEos', tooLarge := inEos, false;
    if inEos {
      return;
    }
    var granted := dec.DequeueInputBuffer();
    if !granted {
      return;
    }
    inEos', tooLarge := ReadIntoSlot(ex, dec);
  }

  /** The granted-slot branch of the `if (!inEOS)` block: readSampleData,
      then queue the end-of-stream buffer or the sample. */
  method ReadIntoSlot(ex: Extractor, dec: Codec) returns (inEos: bool, tooLarge: bool)
    requires ex.Valid() && dec.Valid() && dec.inputLeased
    requires dec.history == DecoderInput(ex.Samples(), ex.cursor, false)
    modifies ex`cursor, dec`inputLeased, dec`history
    ensures ex.Valid() && dec.Valid() && dec.inputLeased == tooLarge
    ensures dec.history == DecoderInput(ex.Samples(), ex.cursor, inEos)
    ensures inEos ==> ex.cursor == |ex.Samples()|
    ensures tooLarge ==> !inEos && ex.cursor < |ex.Samples()| && |ex.Samples()[ex.cursor].payload| > dec.capacity
    ensures old(ex.ReadSampleData(dec.capacity)) == EndOfStream ==>
      inEos && !tooLarge && dec.history == old(dec.history) + [EOS_INPUT]
    ensures old(ex.ReadSampleData(dec.capacity)).Got? ==>
      && !inEos && !tooLarge && ex.cursor == old(ex.cursor) + 1
      && dec.history == old(dec.history) + [Feed(ex.Samples()[old(ex.cursor)])]
    ensures old(ex.ReadSampleData(dec.capacity)) == TooLarge ==>
      tooLarge && ex.cursor == old(ex.cursor) && dec.history == old(dec.history)
  {
    inEos, tooLarge := false, false;
    var read := ex.ReadSampleData(dec.capacity);
    match read {
      case EndOfStream =>
        dec.QueueInputBuffer(EOS_INPUT);
        inEos := true;
      case TooLarge =>
        tooLarge := true;
      case Got(payload) =>
        DecoderInputStep(ex.Samples(), ex.cursor);
        dec.QueueInputBuffer(Feed(Sample(payload, ex.SampleTime(), 0)));
        ex.Advance();
    }
  }

  lemma AnyEosExtend(a: seq<Chunk>, b: seq<Chunk>)
    requires a <= b
    ensures AnyEos(b) <==> AnyEos(a) || AnyEos(b[|a|..])
  {
    assert b == a + b[|a|..];
    AnyEosAppend(a, b[|a|..]);
  }

  /** The end-of-stream chain. The encoder can only flag an output
      end-of-stream if one of its inputs was flagged, which only a complete
      hand-over of a non-empty end-of-stream decoder output does; the
      decoder only flags an output end-of-stream for its empty end-of-stream
      input, since fed samples carry flags 0. So the encoder reports the end
      only once the extractor is exhausted, the decoder has reported the end,
      and the decoder made bytes out of its empty end-of-stream input: a
      decoder whose final output is empty leaves the loop without an end. */
  lemma EndOfStreamChain(samples: seq<Sample>, k: nat, inEos: bool, dTransform: Bytes -> Bytes,
      dOut: seq<Chunk>, cuts: seq<nat>, cap: Pos, eTransform: Bytes -> Bytes, eOut: seq<Chunk>)
    requires k <= |samples| && |cuts| == |dOut|
    requires |dOut| <= |DecoderInput(samples, k, inEos)|
    requires dOut == Processed(DecoderInput(samples, k, inEos)[..|dOut|], dTransform)
    requires |eOut| <= |Forwarded(dOut, cuts, cap)|
    requires eOut == Processed(Forwarded(dOut, cuts, cap)[..|eOut|], eTransform)
    requires AnyEos(eOut)
    ensures inEos && AnyEos(dOut) && dTransform([]) != []
  {
    var j :| 0 <= j < |eOut| && IsEos(eOut[j].flags);
    var fwd := Forwarded(dOut, cuts, cap);
    assert eOut[j] == Process(fwd[j], eTransform);
    assert AnyEos(fwd);
    ForwardedEos(dOut, cuts, cap);
    var i :| 0 <= i < |dOut| && DeliversEos(dOut, cuts, cap, i);
    var input := DecoderInput(samples, k, inEos);
    assert dOut[i] == Process(input[i], dTransform);
    assert input[i] == EOS_INPUT;
  }

  /** Once the extractor reports the end, the decoder has been fed every
      sample of the track, in order, then the end-of-stream buffer. */
  lemma FedEverything(samples: seq<Sample>)
    ensures DecoderInput(samples, |samples|, true) == Feeds(samples) + [EOS_INPUT]
  {
    assert samples[..|samples|] == samples;
  }

  /** How the `while (!encEOS)` loop ended: the encoder flagged the end,
      readSampleData threw, or the turns allowed ran out. */
  datatype DriveEnd = Finished | ReadTooLarge | OutOfFuel

  /** The loop's state between turns: the decoder has been fed the samples
      before the cursor (and the end-of-stream buffer once inEOS), the
      encoder has been handed the decoder outputs cut after `cuts`, no buffer
      is leased but, when `leased`, the decoder input slot readSampleData
      threw on, every output polled is released, and the muxer is in step
      with the encoder outputs. */
  ghost predicate Running(ex: Extractor, dec: Codec, enc: Codec, mux: Muxer, inEos: bool, cuts: seq<nat>, muxStarted: bool, aacTrack: int, leased: bool)
    reads ex`selected, ex`cursor, dec, enc, mux`tracks, mux`started, mux`stopped, mux`released, mux`log
  {
    && ex.Valid() && dec.Valid() && enc.Valid()
    && dec.history == DecoderInput(ex.Samples(), ex.cursor, inEos) && (inEos ==> ex.cursor == |ex.Samples()|)
    && |cuts| == |dec.emitted| && enc.history == Forwarded(dec.emitted, cuts, enc.capacity)
    && dec.inputLeased == leased && dec.outputLeased == None && dec.releasedOutputs == |dec.emitted|
    && !enc.inputLeased && enc.outputLeased == None && enc.releasedOutputs == |enc.emitted|
    && InStep(mux, enc.outputFormat, enc.emitted, muxStarted, aacTrack)
  }

  /** One turn of the `while (!encEOS)` loop: feed the decoder, drain it
      into the encoder, drain the encoder into the muxer. */
  method DriveTurn(ex: Extractor, dec: Codec, enc: Codec, mux: Muxer, inEos: bool, ghost cuts: seq<nat>, muxStarted: bool, aacTrack: int)
    returns (tooLarge: bool, inEos': bool, decSaw: bool, encSaw: bool, ghost cuts': seq<nat>, muxStarted': bool, aacTrack': int)
    requires dec != enc && Running(ex, dec, enc, mux, inEos, cuts, muxStarted, aacTrack, false)
    modifies ex`cursor, dec`inputGrants, dec`inputLeased, dec`history, dec`outputReady, dec`emitted,
      dec`outputLeased, dec`releasedOutputs, enc`inputGrants, enc`inputLeased, enc`history, enc`outputReady,
      enc`emitted, enc`outputLeased, enc`releasedOutputs, mux`tracks, mux`started, mux`log
    ensures Running(ex, dec, enc, mux, inEos', cuts', muxStarted', aacTrack', tooLarge)
    ensures AnyEos(dec.emitted) <==> AnyEos(old(dec.emitted)) || decSaw
    ensures AnyEos(enc.emitted) <==> AnyEos(old(enc.emitted)) || encSaw
    ensures tooLarge ==> !decSaw && !encSaw
    ensures tooLarge ==> dec.emitted == old(dec.emitted) && enc.emitted == old(enc.emitted) && mux.log == old(mux.log)
    ensures tooLarge ==> ex.cursor < |ex.Samples()| && |ex.Samples()[ex.cursor].payload| > dec.capacity
  {
    cuts', muxStarted', aacTrack', decSaw, encSaw := cuts, muxStarted, aacTrack, false, false;
    inEos', tooLarge := FeedDecoder(ex, dec, inEos);
    assert dec.emitted == old(dec.emitted) && enc.emitted == old(enc.emitted);
    if tooLarge {
      return;
    }
    decSaw, encSaw, cuts', muxStarted', aacTrack' := Exchange(ex, dec, enc, mux, inEos', cuts, muxStarted, aacTrack);
  }

  /** The two drain loops of one turn: decoder into encoder, encoder into
      muxer. */
  method Exchange(ex: Extractor, dec: Codec, enc: Codec, mux: Muxer, inEos: bool, ghost cuts: seq<nat>, muxStarted: bool, aacTrack: int)
    returns (decSaw: bool, encSaw: bool, ghost cuts': seq<nat>, muxStarted': bool, aacTrack': int)
    requires dec != enc && Running(ex, dec, enc, mux, inEos, cuts, muxStarted, aacTrack, false)
    modifies dec`outputReady, dec`emitted, dec`outputLeased, dec`releasedOutputs, enc`inputGrants,
      enc`inputLeased, enc`history, enc`outputReady, enc`emitted, enc`outputLeased, enc`releasedOutputs,
      mux`tracks, mux`started, mux`log
    ensures Running(ex, dec, enc, mux, inEos, cuts', muxStarted', aacTrack', false)
    ensures AnyEos(dec.emitted) <==> AnyEos(old(dec.emitted)) || decSaw
    ensures AnyEos(enc.emitted) <==> AnyEos(old(enc.emitted)) || encSaw
  {
    decSaw, cuts' := DrainDecoder(dec, enc, cuts);
    AnyEosExtend(old(dec.emitted), dec.emitted);
    muxStarted', aacTrack', encSaw := DrainEncoder(enc, mux, muxStarted, aacTrack);
    AnyEosExtend(old(enc.emitted), enc.emitted);
  }

  /** The `while (!encEOS)` loop, at most `fuel` turns. */
  method Drive(ex: Extractor, dec: Codec, enc: Codec, mux: Muxer, fuel: nat)
    returns (end: DriveEnd, muxStarted: bool, ghost inEos: bool, ghost cuts: seq<nat>)
    requires dec != enc && ex.Valid() && dec.Valid() && enc.Valid() && ex.cursor == 0
    requires dec.history == [] && dec.emitted == [] && !dec.inputLeased && dec.outputLeased == None && dec.releasedOutputs == 0
    requires enc.history == [] && enc.emitted == [] && !enc.inputLeased && enc.outputLeased == None && enc.releasedOutputs == 0
    requires InStep(mux, enc.outputFormat, [], false, -1)
    modifies ex`cursor, dec`inputGrants, dec`inputLeased, dec`history, dec`outputReady, dec`emitted,
      dec`outputLeased, dec`releasedOutputs, enc`inputGrants, enc`inputLeased, enc`history, enc`outputReady,
      enc`emitted, enc`outputLeased, enc`releasedOutputs, mux`tracks, mux`started, mux`log
    ensures Running(ex, dec, enc, mux, inEos, cuts, muxStarted, if muxStarted then 0 else -1, end == ReadTooLarge)
    ensures end == Finished <==> AnyEos(enc.emitted)
    ensures end == Finished ==> inEos && ex.cursor == |ex.Samples()| && AnyEos(dec.emitted) && dec.transform([]) != []
    ensures end == ReadTooLarge ==> ex.cursor < |ex.Samples()| && |ex.Samples()[ex.cursor].payload| > dec.capacity
  {
    muxStarted := false;
    var aacTrack := -1;
    var inEOS, decEOS, encEOS := false, false, false;
    cuts := [];
    var turns := 0;
    while !encEOS
      invariant turns <= fuel
      invariant Running(ex, dec, enc, mux, inEOS, cuts, muxStarted, aacTrack, false)
      invariant decEOS <==> AnyEos(dec.emitted)
      invariant encEOS <==> AnyEos(enc.emitted)
      decreases fuel - turns
    {
      if turns == fuel {
        return OutOfFuel, muxStarted, inEOS, cuts;
      }
      turns := turns + 1;
      var tooLarge, decSaw, encSaw;
      tooLarge, inEOS, decSaw, encSaw, cuts, muxStarted, aacTrack := DriveTurn(ex, dec, enc, mux, inEOS, cuts, muxStarted, aacTrack);
      if tooLarge {
        return ReadTooLarge, muxStarted, inEOS, cuts;
      }
      if decSaw {
        decEOS := true;
      }
      if encSaw {
        encEOS := true;
      }
    }
    EndOfStreamChain(ex.Samples(), ex.cursor, inEOS, dec.transform, dec.emitted, cuts, enc.capacity, enc.transform, enc.emitted);
    end, inEos := Finished, inEOS;
  }
}
