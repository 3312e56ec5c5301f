/** Value types shared by the extraction, merge and transcode flows of the
    Android video-editor module: media formats, tracks, compressed samples
    and the chunks exchanged with codecs. */
module Media {

  datatype Option<T> = None | Some(value: T)

  type Bytes = seq<bv8>

  /** MediaCodec.BUFFER_FLAG_END_OF_STREAM. */
  const BUFFER_FLAG_END_OF_STREAM: bv32 := 4

  /** `flags and BUFFER_FLAG_END_OF_STREAM != 0`. */
  predicate IsEos(flags: bv32) {
    flags & BUFFER_FLAG_END_OF_STREAM != 0
  }

  /** MediaFormat.MIMETYPE_AUDIO_AAC. */
  const MIMETYPE_AUDIO_AAC: string := "audio/mp4a-latm"
  /** MediaCodecInfo.CodecProfileLevel.AACObjectLC. */
  const AAC_OBJECT_LC: int := 2
  /** The encoder bit rate the transcoder configures (KEY_BIT_RATE). */
  const AAC_BIT_RATE: int := 128000

  /** The keys of a MediaFormat that the module reads; a missing key is None. */
  datatype Format = Format(
    mime: Option<string>,          // KEY_MIME
    rotation: Option<int>,         // KEY_ROTATION
    sampleRate: Option<int>,       // KEY_SAMPLE_RATE
    channelCount: Option<int>)     // KEY_CHANNEL_COUNT

  /** The format the transcoder hands to the AAC encoder's configure call. */
  datatype EncoderConfig = EncoderConfig(
    mime: string, sampleRate: int, channelCount: int, aacProfile: int, bitRate: int)

  /** One compressed access unit as the extractor reports it. */
  datatype Sample = Sample(payload: Bytes, timeUs: int, flags: bv32)

  /** One track of a readable container: its format and its samples in read order. */
  datatype Track = Track(format: Format, samples: seq<Sample>)

  /** A buffer exchanged with a codec: bytes, presentationTimeUs and flags. */
  datatype Chunk = Chunk(data: Bytes, timeUs: int, flags: bv32)

  predicate StartsWith(s: string, prefix: string) {
    |prefix| <= |s| && s[..|prefix|] == prefix
  }

  function Formats(tracks: seq<Track>): (fs: seq<Format>)
    ensures |fs| == |tracks|
    ensures forall i :: 0 <= i < |tracks| ==> fs[i] == tracks[i].format
  {
    seq(|tracks|, i requires 0 <= i < |tracks| => tracks[i].format)
  }

  /** True when some chunk of `cs` carries the end-of-stream flag. */
  predicate AnyEos(cs: seq<Chunk>)
  {
    exists i :: 0 <= i < |cs| && IsEos(cs[i].flags)
  }
}
