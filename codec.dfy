/** MediaCodec as the transcoder drives it, abstracted to a FIFO stage.
    The engine itself is a per-chunk transform; what the driver sees is the
    buffer-exchange protocol: input slots it must request (a request may
    time out, and at most `slots` queued inputs wait for the engine), input
    it queues into a granted slot, and output buffers it polls for and must
    release. When a request times out or an output is ready is decided by
    two scripted sequences of answers, so a property proved for every script
    holds for every schedule; once a script is used up, requests succeed as
    soon as the FIFO allows. */
module Codecs {
  import opened Media

  /** What the codec engine makes of one input chunk: its bytes are
      transformed; timestamp and flags are carried over. */
  function Process(c: Chunk, transform: Bytes -> Bytes): Chunk
  {
    Chunk(transform(c.data), c.timeUs, c.flags)
  }

  function Processed(cs: seq<Chunk>, transform: Bytes -> Bytes): (out: seq<Chunk>)
    ensures |out| == |cs|
    ensures forall i :: 0 <= i < |cs| ==> out[i] == Process(cs[i], transform)
  {
    seq(|cs|, i requires 0 <= i < |cs| => Process(cs[i], transform))
  }

  type Pos = n: nat | n > 0 witness 1

  /** How the platform behaves for one codec instance. */
  datatype CodecSetup = CodecSetup(
    capacity: Pos,               // bytes in one input buffer
    slots: nat,                  // input buffers the codec owns
    transform: Bytes -> Bytes,   // the decoding or encoding itself
    inputGrants: seq<bool>,      // answers of dequeueInputBuffer(TIMEOUT): false is a timeout
    outputReady: seq<bool>,      // answers of dequeueOutputBuffer: false is "try again later"
    outputFormat: Format)        // the negotiated getOutputFormat()

  function Tail(s: seq<bool>): seq<bool> {
    if s == [] then [] else s[1..]
  }

  /** The next scripted answer; true once the script is used up. */
  function Next(s: seq<bool>): bool {
    s == [] || s[0]
  }

  /** The script after `n` answers. */
  function Drop(s: seq<bool>, n: nat): seq<bool>
  {
    if n <= |s| then s[n..] else []
  }

  class Codec {
    const capacity: Pos
    const slots: nat
    const transform: Bytes -> Bytes
    const outputFormat: Format
    var inputGrants: seq<bool>
    var outputReady: seq<bool>
    /** Every input chunk queued so far, in order. */
    var history: seq<Chunk>
    /** Every output buffer handed to the caller so far, in order. */
    var emitted: seq<Chunk>
    var inputLeased: bool
    var outputLeased: Option<Chunk>
    var releasedOutputs: nat
    var running: bool
    var released: bool

    ghost predicate Valid()
      reads this
    {
      && |emitted| <= |history|
      && |history| - |emitted| <= slots
      && emitted == Processed(history[..|emitted|], transform)
      && (inputLeased ==> |history| - |emitted| < slots)
    }

    /** Queued inputs the engine has not turned into output yet. */
    function Pending(): seq<Chunk>
      reads this
      requires Valid()
    {
      history[|emitted|..]
    }

    /** createDecoderByType / createEncoderByType, configure and start. */
    constructor (setup: CodecSetup)
      ensures Valid() && running && !released
      ensures capacity == setup.capacity && slots == setup.slots && transform == setup.transform
      ensures outputFormat == setup.outputFormat
      ensures inputGrants == setup.inputGrants && outputReady == setup.outputReady
      ensures history == [] && emitted == [] && !inputLeased && outputLeased == None && releasedOutputs == 0
    {
      capacity, slots, transform, outputFormat := setup.capacity, setup.slots, setup.transform, setup.outputFormat;
      inputGrants, outputReady := setup.inputGrants, setup.outputReady;
      history, emitted := [], [];
      inputLeased, outputLeased, releasedOutputs := false, None, 0;
      running, released := true, false;
    }

    /** dequeueInputBuffer: a slot is granted when one is free and the
        request does not time out. */
    method DequeueInputBuffer() returns (granted: bool)
      requires Valid() && !inputLeased
      modifies this`inputGrants, this`inputLeased
      ensures Valid()
      ensures granted == (|history| - |emitted| < slots && Next(old(inputGrants)))
      ensures inputGrants == Tail(old(inputGrants)) && inputLeased == granted
    {
      granted := |history| - |emitted| < slots && Next(inputGrants);
      inputGrants := Tail(inputGrants);
      inputLeased := granted;
    }

    /** queueInputBuffer on the granted slot. */
    method QueueInputBuffer(c: Chunk)
      requires Valid() && inputLeased && |c.data| <= capacity
      modifies this`history, this`inputLeased
      ensures Valid() && !inputLeased
      ensures history == old(history) + [c]
    {
      assert (history + [c])[..|emitted|] == history[..|emitted|];
      history := history + [c];
      inputLeased := false;
    }

    /** dequeueOutputBuffer: the oldest pending input, processed, when the
        engine is ready with it; the buffer stays leased until released. */
    method DequeueOutputBuffer() returns (out: Option<Chunk>)
      requires Valid() && outputLeased.None?
      modifies this`outputReady, this`emitted, this`outputLeased
      ensures Valid()
      ensures outputReady == Tail(old(outputReady)) && outputLeased == out
      ensures out.Some? <==> |old(history)| > |old(emitted)| && Next(old(outputReady))
      ensures out.Some? ==> out.value == Process(history[|old(emitted)|], transform)
      ensures emitted == if out.Some? then old(emitted) + [out.value] else old(emitted)
    {
      if |history| > |emitted| && Next(outputReady) {
        var c := Process(history[|emitted|], transform);
        assert history[..|emitted| + 1] == history[..|emitted|] + [history[|emitted|]];
        emitted := emitted + [c];
        out := Some(c);
      } else {
        out := None;
      }
      outputReady := Tail(outputReady);
      outputLeased := out;
    }

    /** releaseOutputBuffer(index, false). */
    method ReleaseOutputBuffer()
      requires outputLeased.Some?
      modifies this`outputLeased, this`releasedOutputs
      ensures outputLeased == None && releasedOutputs == old(releasedOutputs) + 1
    {
      outputLeased := None;
      releasedOutputs := releasedOutputs + 1;
    }

    method Stop()
      modifies this`running
      ensures !running
    {
      running := false;
    }

    method Release()
      modifies this`released
      ensures released
    {
      released := true;
    }
  }
}
