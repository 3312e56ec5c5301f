/** Track locator: the index-order scans over a container's track formats
    that pick the first track whose MIME type starts with "audio/" or "video/". */
module Locator {
  import opened Media

  const AUDIO_PREFIX: string := "audio/"
  const VIDEO_PREFIX: string := "video/"

  /** The track's KEY_MIME is present and starts with `prefix`. */
  predicate MimeMatches(f: Format, prefix: string) {
    f.mime.Some? && StartsWith(f.mime.value, prefix)
  }

  /** Outcome of a scan that dereferences KEY_MIME with `!!`: a missing MIME
      met before any match throws a NullPointerException. */
  datatype ScanResult = Found(index: nat) | NotFound | NullMime(index: nat)

  /** Every track before `k` has a MIME type and it does not match. */
  predicate SkippedBefore(formats: seq<Format>, prefix: string, k: nat)
    requires k <= |formats|
  {
    forall j :: 0 <= j < k ==> formats[j].mime.Some? && !MimeMatches(formats[j], prefix)
  }

  /** What a strict scan must report: the first match, the first missing
      MIME, or that every track has a non-matching MIME. */
  predicate IsStrictScan(formats: seq<Format>, prefix: string, r: ScanResult)
  {
    match r
    case Found(i) => i < |formats| && MimeMatches(formats[i], prefix) && SkippedBefore(formats, prefix, i)
    case NullMime(i) => i < |formats| && formats[i].mime.None? && SkippedBefore(formats, prefix, i)
    case NotFound => SkippedBefore(formats, prefix, |formats|)
  }

  /** Reference definition of the lenient scan, from track `k` on. */
  function FirstMatchFrom(formats: seq<Format>, prefix: string, k: nat): (r: int)
    requires k <= |formats|
    ensures r == -1 || k <= r < |formats|
    decreases |formats| - k
  {
    if k == |formats| then -1
    else if MimeMatches(formats[k], prefix) then k
    else FirstMatchFrom(formats, prefix, k + 1)
  }

  /** The lowest index whose MIME type starts with `prefix`, or -1. */
  function FirstMatch(formats: seq<Format>, prefix: string): (r: int)
    ensures -1 <= r < |formats|
  {
    FirstMatchFrom(formats, prefix, 0)
  }

  /** Reference definition of the strict scan, from track `k` on. */
  function StrictScanFrom(formats: seq<Format>, prefix: string, k: nat): (r: ScanResult)
    requires k <= |formats|
    ensures r.Found? ==> k <= r.index < |formats|
    ensures r.NullMime? ==> k <= r.index < |formats|
    decreases |formats| - k
  {
    if k == |formats| then NotFound
    else if formats[k].mime.None? then NullMime(k)
    else if StartsWith(formats[k].mime.value, prefix) then Found(k)
    else StrictScanFrom(formats, prefix, k + 1)
  }

  function StrictScan(formats: seq<Format>, prefix: string): (r: ScanResult)
    ensures r.Found? ==> r.index < |formats|
    ensures r.NullMime? ==> r.index < |formats|
  {
    StrictScanFrom(formats, prefix, 0)
  }

  lemma {:induction false} FirstMatchFromIsFirst(formats: seq<Format>, prefix: string, k: nat)
    requires k <= |formats|
    requires forall j :: 0 <= j < k ==> !MimeMatches(formats[j], prefix)
    ensures var r := FirstMatchFrom(formats, prefix, k);
      && -1 <= r < |formats|
      && (r == -1 <==> forall i :: 0 <= i < |formats| ==> !MimeMatches(formats[i], prefix))
      && (r >= 0 ==> MimeMatches(formats[r], prefix) && forall j :: 0 <= j < r ==> !MimeMatches(formats[j], prefix))
    decreases |formats| - k
  {
    if k < |formats| && !MimeMatches(formats[k], prefix) {
      FirstMatchFromIsFirst(formats, prefix, k + 1);
    }
  }

  /** FirstMatch is the lowest matching index, and -1 exactly when no track matches. */
  lemma FirstMatchIsFirst(formats: seq<Format>, prefix: string)
    ensures var r := FirstMatch(formats, prefix);
      && -1 <= r < |formats|
      && (r == -1 <==> forall i :: 0 <= i < |formats| ==> !MimeMatches(formats[i], prefix))
      && (r >= 0 ==> MimeMatches(formats[r], prefix) && forall j :: 0 <= j < r ==> !MimeMatches(formats[j], prefix))
  {
    FirstMatchFromIsFirst(formats, prefix, 0);
  }

  lemma {:induction false} StrictScanFromSound(formats: seq<Format>, prefix: string, k: nat)
    requires k <= |formats| && SkippedBefore(formats, prefix, k)
    ensures IsStrictScan(formats, prefix, StrictScanFrom(formats, prefix, k))
    decreases |formats| - k
  {
    if k < |formats| && formats[k].mime.Some? && !StartsWith(formats[k].mime.value, prefix) {
      StrictScanFromSound(formats, prefix, k + 1);
    }
  }

  /** StrictScan reports the first match, or the first missing MIME met before
      any match, or NotFound; and no other result fits that description. */
  lemma StrictScanCharacterized(formats: seq<Format>, prefix: string, r: ScanResult)
    ensures IsStrictScan(formats, prefix, r) <==> r == StrictScan(formats, prefix)
  {
    StrictScanFromSound(formats, prefix, 0);
  }

  /** separateAudioVideo's loop (`mime?.startsWith(prefix) == true`, then
      `break`): a track without a MIME is skipped; -1 when nothing matches. */
  method FindTrack(formats: seq<Format>, prefix: string) returns (index: int)
    ensures -1 <= index < |formats|
    ensures index == -1 <==> forall i :: 0 <= i < |formats| ==> !MimeMatches(formats[i], prefix)
    ensures index >= 0 ==> MimeMatches(formats[index], prefix)
    ensures index >= 0 ==> forall j :: 0 <= j < index ==> !MimeMatches(formats[j], prefix)
    ensures index == FirstMatch(formats, prefix)
  {
    FirstMatchIsFirst(formats, prefix);
    index := -1;
    for i := 0 to |formats|
      invariant index == -1
      invariant forall j :: 0 <= j < i ==> !MimeMatches(formats[j], prefix)
    {
      var mime := formats[i].mime;
      if mime.Some? && StartsWith(mime.value, prefix) {
        index := i;
        break;
      }
    }
  }

  /** convertMp3ToM4a's `(0 until trackCount).first { getString(KEY_MIME)!!.startsWith(prefix) }`:
      `first` throws when nothing matches and `!!` throws on a missing MIME. */
  method FindTrackStrict(formats: seq<Format>, prefix: string) returns (r: ScanResult)
    ensures IsStrictScan(formats, prefix, r)
    ensures r == StrictScan(formats, prefix)
  {
    var i := 0;
    while i < |formats|
      invariant 0 <= i <= |formats|
      invariant SkippedBefore(formats, prefix, i)
    {
      var mime := formats[i].mime;
      if mime.None? {
        r := NullMime(i);
        StrictScanCharacterized(formats, prefix, r);
        return;
      }
      if StartsWith(mime.value, prefix) {
        r := Found(i);
        StrictScanCharacterized(formats, prefix, r);
        return;
      }
      i := i + 1;
    }
    StrictScanCharacterized(formats, prefix, NotFound);
    r := NotFound;
  }

  /** When every track declares a MIME type, the strict and the lenient scans
      agree: Found(i) exactly when the lenient scan returns i, NotFound exactly when it returns -1. */
  lemma StrictAgreesWithLenient(formats: seq<Format>, prefix: string, r: ScanResult, index: int)
    requires forall i :: 0 <= i < |formats| ==> formats[i].mime.Some?
    requires IsStrictScan(formats, prefix, r)
    requires -1 <= index < |formats|
    requires index == -1 <==> forall i :: 0 <= i < |formats| ==> !MimeMatches(formats[i], prefix)
    requires index >= 0 ==> MimeMatches(formats[index], prefix)
    requires index >= 0 ==> forall j :: 0 <= j < index ==> !MimeMatches(formats[j], prefix)
    ensures r.Found? <==> index >= 0
    ensures r.Found? ==> r.index == index
    ensures !r.NullMime?
  {
  }
}
