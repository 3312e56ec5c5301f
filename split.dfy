/** The chunk-safe hand-over from decoder to encoder: one decoded PCM chunk
    is copied into as many encoder input buffers as it needs, each fragment
    as large as the buffer allows, all with the chunk's timestamp, and only
    the last one of an end-of-stream chunk flagged end-of-stream. */
module Fragments {
  import opened Media
  import opened Codecs

  /** The fragments of a chunk whose bytes are `data`, cut for input buffers
      of `cap` bytes. A chunk without bytes has no fragment. */
  function Split(data: Bytes, cap: Pos, timeUs: int, eos: bool): seq<Chunk>
    decreases |data|
  {
    if |data| == 0 then []
    else
      var n := if cap < |data| then cap else |data|;
      [Chunk(data[..n], timeUs, if n == |data| && eos then BUFFER_FLAG_END_OF_STREAM else 0)]
        + Split(data[n..], cap, timeUs, eos)
  }

  /** The fragments of a decoder output chunk. */
  function SplitOf(c: Chunk, cap: Pos): seq<Chunk>
  {
    Split(c.data, cap, c.timeUs, IsEos(c.flags))
  }

  /** The bytes of `cs`, one chunk after the other. */
  function Concat(cs: seq<Chunk>): Bytes
  {
    if cs == [] then [] else cs[0].data + Concat(cs[1..])
  }

  /** The fragments concatenate to the chunk. */
  lemma {:induction false} SplitConcat(data: Bytes, cap: Pos, timeUs: int, eos: bool)
    ensures Concat(Split(data, cap, timeUs, eos)) == data
    decreases |data|
  {
    if |data| > 0 {
      var n := if cap < |data| then cap else |data|;
      SplitConcat(data[n..], cap, timeUs, eos);
      assert data[..n] + data[n..] == data;
    }
  }

  /** Every fragment is non-empty, no larger than the buffer, carries the
      chunk's timestamp, and every fragment but the last fills the buffer. */
  lemma {:induction false} SplitShape(data: Bytes, cap: Pos, timeUs: int, eos: bool)
    ensures var frags := Split(data, cap, timeUs, eos);
      && (|frags| == 0 <==> |data| == 0)
      && (forall i :: 0 <= i < |frags| ==> 0 < |frags[i].data| <= cap && frags[i].timeUs == timeUs)
      && (forall i :: 0 <= i < |frags| - 1 ==> |frags[i].data| == cap)
    decreases |data|
  {
    if |data| > 0 {
      var n := if cap < |data| then cap else |data|;
      SplitShape(data[n..], cap, timeUs, eos);
      var frags := Split(data, cap, timeUs, eos);
      var rest := Split(data[n..], cap, timeUs, eos);
      assert frags == [frags[0]] + rest;
      forall i | 0 < i < |frags| - 1 ensures |frags[i].data| == cap {
        assert frags[i] == rest[i - 1];
      }
      if |frags| > 1 {
        assert |data[n..]| > 0;
      }
    }
  }

  /** A fragment is flagged end-of-stream exactly when it is the last one of
      an end-of-stream chunk; every other fragment has flags 0. */
  lemma {:induction false} SplitFlags(data: Bytes, cap: Pos, timeUs: int, eos: bool)
    ensures var frags := Split(data, cap, timeUs, eos);
      forall i :: 0 <= i < |frags| ==>
        frags[i].flags == if eos && i == |frags| - 1 then BUFFER_FLAG_END_OF_STREAM else 0
    decreases |data|
  {
    if |data| > 0 {
      var n := if cap < |data| then cap else |data|;
      SplitFlags(data[n..], cap, timeUs, eos);
      var frags := Split(data, cap, timeUs, eos);
      var rest := Split(data[n..], cap, timeUs, eos);
      assert frags == [frags[0]] + rest;
      SplitShape(data[n..], cap, timeUs, eos);
      assert |rest| == 0 <==> n == |data|;
      forall i | 0 < i < |frags|
        ensures frags[i].flags == if eos && i == |frags| - 1 then BUFFER_FLAG_END_OF_STREAM else 0
      {
        assert frags[i] == rest[i - 1];
        assert rest[i - 1].flags == if eos && i - 1 == |rest| - 1 then BUFFER_FLAG_END_OF_STREAM else 0;
      }
    }
  }

  /** Some fragment is flagged end-of-stream exactly when the chunk is an
      end-of-stream chunk with at least one byte: an empty end-of-stream
      chunk forwards nothing, so its flag is lost. */
  lemma SplitEos(data: Bytes, cap: Pos, timeUs: int, eos: bool)
    ensures AnyEos(Split(data, cap, timeUs, eos)) <==> eos && |data| > 0
  {
    SplitShape(data, cap, timeUs, eos);
    SplitFlags(data, cap, timeUs, eos);
    var frags := Split(data, cap, timeUs, eos);
    if eos && |data| > 0 {
      assert IsEos(frags[|frags| - 1].flags);
    }
  }

  /** A sequence cut at `k`, or whole when it is shorter than `k`. */
  function Take(s: seq<Chunk>, k: nat): seq<Chunk>
  {
    if k <= |s| then s[..k] else s
  }

  /** What the encoder receives from the decoder outputs `ds` when the
      hand-over of `ds[i]` stops after `cuts[i]` fragments (a refused input
      slot); the rest of that chunk is dropped. */
  function Forwarded(ds: seq<Chunk>, cuts: seq<nat>, cap: Pos): seq<Chunk>
    requires |cuts| == |ds|
  {
    if ds == [] then []
    else Forwarded(ds[..|ds| - 1], cuts[..|ds| - 1], cap) + Take(SplitOf(ds[|ds| - 1], cap), cuts[|ds| - 1])
  }

  /** The hand-over of `ds[i]` was complete. */
  predicate Complete(ds: seq<Chunk>, cuts: seq<nat>, cap: Pos, i: nat)
    requires |cuts| == |ds| && i < |ds|
  {
    cuts[i] >= |SplitOf(ds[i], cap)|
  }

  /** When every hand-over was complete, the encoder received exactly the
      decoded bytes, in order. */
  lemma {:induction false} ForwardedComplete(ds: seq<Chunk>, cuts: seq<nat>, cap: Pos)
    requires |cuts| == |ds|
    requires forall i :: 0 <= i < |ds| ==> Complete(ds, cuts, cap, i)
    ensures Concat(Forwarded(ds, cuts, cap)) == Concat(ds)
    decreases |ds|
  {
    if ds != [] {
      var n := |ds| - 1;
      forall i | 0 <= i < n ensures Complete(ds[..n], cuts[..n], cap, i) {
        assert Complete(ds, cuts, cap, i);
      }
      ForwardedComplete(ds[..n], cuts[..n], cap);
      assert Complete(ds, cuts, cap, n);
      CompleteLast(ds, cuts, cap);
    }
  }

  /** The last hand-over, complete, contributes the last output's bytes. */
  lemma CompleteLast(ds: seq<Chunk>, cuts: seq<nat>, cap: Pos)
    requires |cuts| == |ds| && ds != [] && Complete(ds, cuts, cap, |ds| - 1)
    ensures Concat(Forwarded(ds, cuts, cap))
      == Concat(Forwarded(ds[..|ds| - 1], cuts[..|ds| - 1], cap)) + ds[|ds| - 1].data
    ensures Concat(ds) == Concat(ds[..|ds| - 1]) + ds[|ds| - 1].data
  {
    var n := |ds| - 1;
    assert Forwarded(ds, cuts, cap) == Forwarded(ds[..n], cuts[..n], cap) + SplitOf(ds[n], cap);
    SplitConcat(ds[n].data, cap, ds[n].timeUs, IsEos(ds[n].flags));
    ConcatAppend(Forwarded(ds[..n], cuts[..n], cap), SplitOf(ds[n], cap));
    SnocLast(ds);
    ConcatAppend(ds[..n], [ds[n]]);
    assert Concat([ds[n]]) == ds[n].data + Concat([]);
  }

  lemma SnocLast<T>(s: seq<T>)
    requires s != []
    ensures s[..|s| - 1] + [s[|s| - 1]] == s
  {
  }

  lemma {:induction false} ConcatAppend(a: seq<Chunk>, b: seq<Chunk>)
    ensures Concat(a + b) == Concat(a) + Concat(b)
    decreases |a|
  {
    if a != [] {
      assert (a + b)[1..] == a[1..] + b;
      ConcatAppend(a[1..], b);
    } else {
      assert a + b == b;
    }
  }

  lemma AnyEosAppend(a: seq<Chunk>, b: seq<Chunk>)
    ensures AnyEos(a + b) <==> AnyEos(a) || AnyEos(b)
  {
    if AnyEos(a + b) {
      var i :| 0 <= i < |a + b| && IsEos((a + b)[i].flags);
      if i >= |a| { assert b[i - |a|] == (a + b)[i]; }
    }
    if AnyEos(a) {
      var i :| 0 <= i < |a| && IsEos(a[i].flags);
      assert (a + b)[i] == a[i];
    }
    if AnyEos(b) {
      var i :| 0 <= i < |b| && IsEos(b[i].flags);
      assert (a + b)[|a| + i] == b[i];
    }
  }

  /** The hand-over of `ds[i]` forwarded an end-of-stream fragment: a
      non-empty end-of-stream chunk, handed over completely. */
  predicate DeliversEos(ds: seq<Chunk>, cuts: seq<nat>, cap: Pos, i: nat)
    requires |cuts| == |ds| && i < |ds|
  {
    IsEos(ds[i].flags) && |ds[i].data| > 0 && Complete(ds, cuts, cap, i)
  }

  lemma TakeEos(frags: seq<Chunk>, k: nat, eos: bool)
    requires forall i :: 0 <= i < |frags| ==> frags[i].flags == if eos && i == |frags| - 1 then BUFFER_FLAG_END_OF_STREAM else 0
    ensures AnyEos(Take(frags, k)) <==> eos && |frags| > 0 && k >= |frags|
  {
    if AnyEos(Take(frags, k)) {
      var j :| 0 <= j < |Take(frags, k)| && IsEos(Take(frags, k)[j].flags);
      assert Take(frags, k)[j] == frags[j];
    }
    if eos && |frags| > 0 && k >= |frags| {
      assert Take(frags, k)[|frags| - 1] == frags[|frags| - 1];
    }
  }

  /** The encoder receives an end-of-stream fragment exactly when some
      decoder output was a non-empty end-of-stream chunk handed over
      completely. */
  lemma {:induction false} ForwardedEos(ds: seq<Chunk>, cuts: seq<nat>, cap: Pos)
    requires |cuts| == |ds|
    ensures AnyEos(Forwarded(ds, cuts, cap)) <==> exists i :: 0 <= i < |ds| && DeliversEos(ds, cuts, cap, i)
    decreases |ds|
  {
    if ds != [] {
      var n := |ds| - 1;
      var front, frontCuts := ds[..n], cuts[..n];
      ForwardedEos(front, frontCuts, cap);
      EosLast(ds, cuts, cap);
      if AnyEos(Forwarded(front, frontCuts, cap)) {
        var i :| 0 <= i < n && DeliversEos(front, frontCuts, cap, i);
        assert front[i] == ds[i] && frontCuts[i] == cuts[i];
        assert DeliversEos(ds, cuts, cap, i);
      }
      if exists i :: 0 <= i < |ds| && DeliversEos(ds, cuts, cap, i) {
        var i :| 0 <= i < |ds| && DeliversEos(ds, cuts, cap, i);
        if i < n {
          assert front[i] == ds[i] && frontCuts[i] == cuts[i];
          assert DeliversEos(front, frontCuts, cap, i);
        }
      }
    }
  }

  /** The last hand-over adds an end-of-stream fragment exactly when it
      delivers one. */
  lemma EosLast(ds: seq<Chunk>, cuts: seq<nat>, cap: Pos)
    requires |cuts| == |ds| && ds != []
    ensures AnyEos(Forwarded(ds, cuts, cap))
      <==> AnyEos(Forwarded(ds[..|ds| - 1], cuts[..|ds| - 1], cap)) || DeliversEos(ds, cuts, cap, |ds| - 1)
  {
    var n := |ds| - 1;
    var d := ds[n];
    var last := Take(SplitOf(d, cap), cuts[n]);
    assert Forwarded(ds, cuts, cap) == Forwarded(ds[..n], cuts[..n], cap) + last;
    AnyEosAppend(Forwarded(ds[..n], cuts[..n], cap), last);
    SplitShape(d.data, cap, d.timeUs, IsEos(d.flags));
    SplitFlags(d.data, cap, d.timeUs, IsEos(d.flags));
    TakeEos(SplitOf(d, cap), cuts[n], IsEos(d.flags));
  }

  /** One more decoder output handed over, `k` of its fragments sent. */
  lemma ForwardedSnoc(ds: seq<Chunk>, cuts: seq<nat>, d: Chunk, k: nat, cap: Pos)
    requires |cuts| == |ds|
    ensures Forwarded(ds + [d], cuts + [k], cap) == Forwarded(ds, cuts, cap) + Take(SplitOf(d, cap), k)
  {
    assert (ds + [d])[..|ds|] == ds && (cuts + [k])[..|ds|] == cuts;
  }

  /** Every fragment the encoder receives is non-empty and fits its input
      buffer. */
  lemma {:induction false} ForwardedFits(ds: seq<Chunk>, cuts: seq<nat>, cap: Pos)
    requires |cuts| == |ds|
    ensures forall c :: c in Forwarded(ds, cuts, cap) ==> 0 < |c.data| <= cap
    decreases |ds|
  {
    if ds != [] {
      var n := |ds| - 1;
      ForwardedFits(ds[..n], cuts[..n], cap);
      var frags := SplitOf(ds[n], cap);
      SplitShape(ds[n].data, cap, ds[n].timeUs, IsEos(ds[n].flags));
      forall c | c in Take(frags, cuts[n]) ensures 0 < |c.data| <= cap {
        var j :| 0 <= j < |Take(frags, cuts[n])| && Take(frags, cuts[n])[j] == c;
        assert c == frags[j];
      }
    }
  }
}
