/** MediaMuxer as the module uses it: tracks are added before start(),
    samples are written only between start() and stop(). Every call the
    module makes is recorded in an event log so that the flows can state
    the order of calls outright. */
module Muxing {
  import opened Media

  datatype MuxEvent =
    | TrackAdded(format: Format)
    | OrientationSet(degrees: int)
    | Started
    | SampleWritten(track: nat, sample: Sample)
    | Stopped
    | Released

  /** The orientation hints setOrientationHint accepts; any other value throws. */
  predicate SupportedRotation(degrees: int) {
    degrees == 0 || degrees == 90 || degrees == 180 || degrees == 270
  }

  class Muxer {
    const path: string
    var tracks: seq<Format>
    var started: bool
    var stopped: bool
    var released: bool
    var log: seq<MuxEvent>

    ghost predicate Valid()
      reads this
    {
      (started ==> |tracks| > 0) && (stopped ==> started)
    }

    /** new MediaMuxer(path, MUXER_OUTPUT_MPEG_4). */
    constructor (path: string)
      ensures Valid() && this.path == path
      ensures tracks == [] && !started && !stopped && !released && log == []
    {
      this.path := path;
      tracks := [];
      started, stopped, released := false, false, false;
      log := [];
    }

    method AddTrack(format: Format) returns (index: nat)
      requires Valid() && !started && !released
      modifies this`tracks, this`log
      ensures Valid()
      ensures index == |old(tracks)| && tracks == old(tracks) + [format]
      ensures log == old(log) + [TrackAdded(format)]
    {
      index := |tracks|;
      tracks := tracks + [format];
      log := log + [TrackAdded(format)];
    }

    method SetOrientationHint(degrees: int) returns (accepted: bool)
      requires Valid() && !started && !released
      modifies this`log
      ensures accepted == SupportedRotation(degrees)
      ensures log == if accepted then old(log) + [OrientationSet(degrees)] else old(log)
    {
      accepted := SupportedRotation(degrees);
      if accepted {
        log := log + [OrientationSet(degrees)];
      }
    }

    method Start()
      requires Valid() && !started && |tracks| > 0 && !released
      modifies this`started, this`log
      ensures Valid() && started
      ensures log == old(log) + [Started]
    {
      started := true;
      log := log + [Started];
    }

    method WriteSampleData(track: nat, sample: Sample)
      requires Valid() && started && !stopped && !released && track < |tracks|
      modifies this`log
      ensures log == old(log) + [SampleWritten(track, sample)]
    {
      log := log + [SampleWritten(track, sample)];
    }

    method Stop()
      requires Valid() && started && !stopped && !released
      modifies this`stopped, this`log
      ensures Valid() && stopped
      ensures log == old(log) + [Stopped]
    {
      stopped := true;
      log := log + [Stopped];
    }

    method Release()
      modifies this`released, this`log
      ensures released
      ensures log == old(log) + [Released]
    {
      released := true;
      log := log + [Released];
    }
  }

  /** The Write events that copying `samples` verbatim to `track` produces. */
  function WritesOf(track: nat, samples: seq<Sample>): (events: seq<MuxEvent>)
    ensures |events| == |samples|
    ensures forall i :: 0 <= i < |samples| ==> events[i] == SampleWritten(track, samples[i])
  {
    seq(|samples|, i requires 0 <= i < |samples| => SampleWritten(track, samples[i]))
  }

  lemma WritesOfAppend(track: nat, a: seq<Sample>, b: seq<Sample>)
    ensures WritesOf(track, a + b) == WritesOf(track, a) + WritesOf(track, b)
  {
  }
}
