/** MediaExtractor as the module uses it: a readable container whose
    selected track is read forward, one sample at a time, through a cursor. */
module Extraction {
  import opened Media

  /** readSampleData's outcome: a negative size at the end of the track, an
      IllegalArgumentException when the sample does not fit the caller's
      buffer, otherwise the sample's bytes. */
  datatype ReadResult = EndOfStream | TooLarge | Got(payload: Bytes)

  class Extractor {
    const tracks: seq<Track>
    var selected: Option<nat>
    var cursor: nat
    var released: bool

    ghost predicate Valid()
      reads this`selected, this`cursor
    {
      && (selected.Some? ==> selected.value < |tracks|)
      && cursor <= (if selected.Some? then |tracks[selected.value].samples| else 0)
    }

    /** setDataSource on a container holding `tracks`. */
    constructor (tracks: seq<Track>)
      ensures Valid()
      ensures this.tracks == tracks && selected == None && cursor == 0 && !released
    {
      this.tracks := tracks;
      selected := None;
      cursor := 0;
      released := false;
    }

    /** The samples of the selected track; nothing when no track is selected. */
    function Samples(): seq<Sample>
      reads this`selected
    {
      if selected.Some? && selected.value < |tracks| then tracks[selected.value].samples else []
    }

    /** The samples not read yet. */
    function Remaining(): (rest: seq<Sample>)
      reads this`selected, this`cursor
      requires Valid()
      ensures Samples() == Samples()[..cursor] + rest
    {
      Samples()[cursor..]
    }

    /** readSampleData into a buffer of `capacity` bytes at offset 0. */
    function ReadSampleData(capacity: nat): (r: ReadResult)
      reads this`selected, this`cursor
      requires Valid()
      ensures r == EndOfStream <==> cursor == |Samples()|
      ensures r.Got? ==> r.payload == Samples()[cursor].payload && |r.payload| <= capacity
      ensures r == TooLarge ==> |Samples()[cursor].payload| > capacity
    {
      if cursor == |Samples()| then EndOfStream
      else if |Samples()[cursor].payload| <= capacity then Got(Samples()[cursor].payload)
      else TooLarge
    }

    /** getSampleTime of the current sample. */
    function SampleTime(): int
      reads this`selected, this`cursor
      requires Valid() && cursor < |Samples()|
    {
      Samples()[cursor].timeUs
    }

    /** getSampleFlags of the current sample. */
    function SampleFlags(): bv32
      reads this`selected, this`cursor
      requires Valid() && cursor < |Samples()|
    {
      Samples()[cursor].flags
    }

    method SelectTrack(index: nat)
      requires Valid() && index < |tracks| && cursor == 0
      modifies this`selected
      ensures Valid() && selected == Some(index)
    {
      selected := Some(index);
    }

    /** seekTo(0, SEEK_TO_CLOSEST_SYNC): back to the first sample of the track. */
    method SeekToStart()
      requires Valid()
      modifies this`cursor
      ensures Valid() && cursor == 0
    {
      cursor := 0;
    }

    method Advance()
      requires Valid()
      modifies this`cursor
      ensures Valid()
      ensures cursor == if old(cursor) < |Samples()| then old(cursor) + 1 else old(cursor)
    {
      if cursor < |Samples()| {
        cursor := cursor + 1;
      }
    }

    method Release()
      modifies this`released
      ensures released
    {
      released := true;
    }
  }
}
