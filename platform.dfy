/** What the flows get from the device: which paths open as containers,
    which output paths can be created, the rotation metadata lookup and the
    codecs; and how a flow ends (the promise it settles). */
module Platform {
  import opened Media
  import opened Codecs

  const NO_AUDIO_TRACK: string := "NO_AUDIO_TRACK"
  const SEPARATE_ERROR: string := "SEPARATE_ERROR"
  const MERGE_ERROR: string := "MERGE_ERROR"
  const CONVERT_ERROR: string := "CONVERT_ERROR"

  const NO_AUDIO_TRACK_MESSAGE: string := "No audio track found"
  const TRACKS_NOT_FOUND_MESSAGE: string := "Tracks not found"

  /** A settled promise. An exception's own message is the platform's, so a
      rejection caused by an exception carries no message here. `Stalled` is
      the model's own: the transcode loop ran out of fuel before the encoder
      reported end-of-stream, and nothing was settled. */
  datatype Outcome =
    | Resolved(path: string)
    | Rejected(code: string, message: Option<string>)
    | Stalled

  /** MediaMetadataRetriever's METADATA_KEY_VIDEO_ROTATION, parsed with toInt():
      no value, a number, or an exception (setDataSource or toInt throws). */
  datatype RotationLookup = Absent | Degrees(degrees: int) | LookupFails

  datatype Device = Device(
    containers: map<string, seq<Track>>,       // paths MediaExtractor.setDataSource opens
    writable: set<string>,                     // paths new MediaMuxer(...) can create
    rotationMetadata: string -> RotationLookup,
    decoderFor: Format -> Option<CodecSetup>,         // createDecoderByType(mime) + configure(format), None when either throws
    aacEncoderFor: EncoderConfig -> Option<CodecSetup>) // createEncoderByType(AAC) + configure(config), likewise
}
