/** Output-path derivation of the three operations: plain string work on
    the caller's path (Kotlin's removePrefix, replace and string templates). */
module Paths {
  import opened Media

  const FILE_SCHEME: string := "file://"
  const MP3_EXTENSION: string := ".mp3"
  const AAC_SUFFIX: string := "_aac.m4a"
  const EXTRACTED_SUFFIX: string := "_extracted.m4a"
  const MERGED_SUFFIX: string := "_merged.mp4"

  /** Kotlin's String.removePrefix: drops `prefix` once when `s` starts with it. */
  function RemovePrefix(s: string, prefix: string): (r: string)
    ensures StartsWith(s, prefix) ==> s == prefix + r
    ensures !StartsWith(s, prefix) ==> r == s
  {
    if StartsWith(s, prefix) then s[|prefix|..] else s
  }

  /** True when `pattern` occurs somewhere in `s`. */
  predicate Contains(s: string, pattern: string)
  {
    StartsWith(s, pattern) || (s != [] && Contains(s[1..], pattern))
  }

  /** Kotlin's String.replace(oldValue, newValue): every occurrence of the
      non-empty `pattern`, found left to right without overlap, is replaced. */
  function ReplaceAll(s: string, pattern: string, replacement: string): string
    requires pattern != []
    decreases |s|
  {
    if s == [] then []
    else if StartsWith(s, pattern) then replacement + ReplaceAll(s[|pattern|..], pattern, replacement)
    else [s[0]] + ReplaceAll(s[1..], pattern, replacement)
  }

  /** convertMp3ToM4a's input path: the caller's path without a leading "file://". */
  function TranscodeInputPath(mp3Path: string): (inPath: string)
    ensures StartsWith(mp3Path, FILE_SCHEME) ==> mp3Path == FILE_SCHEME + inPath
    ensures !StartsWith(mp3Path, FILE_SCHEME) ==> inPath == mp3Path
  {
    RemovePrefix(mp3Path, FILE_SCHEME)
  }

  /** convertMp3ToM4a's output file: every ".mp3" of the input path becomes "_aac.m4a". */
  function TranscodeOutputPath(mp3Path: string): (outPath: string)
    ensures !Contains(outPath, MP3_EXTENSION)
  {
    ReplaceRemovesMp3(TranscodeInputPath(mp3Path));
    ReplaceAll(TranscodeInputPath(mp3Path), MP3_EXTENSION, AAC_SUFFIX)
  }

  /** What convertMp3ToM4a resolves with: the output file as a "file://" URI. */
  function TranscodeResultUri(mp3Path: string): (uri: string)
    ensures StartsWith(uri, FILE_SCHEME)
    ensures uri[|FILE_SCHEME|..] == TranscodeOutputPath(mp3Path)
  {
    FILE_SCHEME + TranscodeOutputPath(mp3Path)
  }

  /** separateAudioVideo's output file. */
  function ExtractOutputPath(videoPath: string): (out: string)
    ensures StartsWith(out, videoPath) && |out| == |videoPath| + |EXTRACTED_SUFFIX|
  {
    videoPath + EXTRACTED_SUFFIX
  }

  /** mergeAudioWithVideo's output file. */
  function MergeOutputPath(videoPath: string): (out: string)
    ensures StartsWith(out, videoPath) && |out| == |videoPath| + |MERGED_SUFFIX|
  {
    videoPath + MERGED_SUFFIX
  }

  // ---------------------------------------------------------------- lemmas

  /** Neither derived output overwrites the video it was derived from, and
      the two never coincide. */
  lemma DerivedOutputsAreFresh(videoPath: string)
    ensures ExtractOutputPath(videoPath) != videoPath
    ensures MergeOutputPath(videoPath) != videoPath
    ensures ExtractOutputPath(videoPath) != MergeOutputPath(videoPath)
  {
  }

  /** Stripping the scheme from the resolved URI gives back the file that was written. */
  lemma ResultUriRoundTrip(mp3Path: string)
    ensures RemovePrefix(TranscodeResultUri(mp3Path), FILE_SCHEME) == TranscodeOutputPath(mp3Path)
  {
  }

  /** Replacing leaves a string with no occurrence of the pattern unchanged. */
  lemma {:induction false} ReplaceAllWithoutOccurrence(s: string, pattern: string, replacement: string)
    requires pattern != []
    requires !Contains(s, pattern)
    ensures ReplaceAll(s, pattern, replacement) == s
    decreases |s|
  {
    if s != [] {
      ReplaceAllWithoutOccurrence(s[1..], pattern, replacement);
      assert [s[0]] + s[1..] == s;
    }
  }

  lemma ContainsCons(c: char, t: string, pattern: string)
    ensures Contains([c] + t, pattern) <==> StartsWith([c] + t, pattern) || Contains(t, pattern)
  {
    assert ([c] + t)[1..] == t;
  }

  /** A replaced string starts with `q` only if the original did, as long as
      `q` cannot begin inside the replacement "_aac.m4a" (it holds no '_'). */
  lemma {:induction false} ReplacedPrefix(u: string, q: string)
    requires forall k :: 0 <= k < |q| ==> q[k] != '_'
    requires StartsWith(ReplaceAll(u, MP3_EXTENSION, AAC_SUFFIX), q)
    ensures StartsWith(u, q)
    decreases |u|
  {
    if q != [] {
      var r := ReplaceAll(u, MP3_EXTENSION, AAC_SUFFIX);
      assert r[0] == q[0] != '_';
      if u == [] {
      } else if StartsWith(u, MP3_EXTENSION) {
        // r starts with '_', which q cannot
      } else {
        var rest := ReplaceAll(u[1..], MP3_EXTENSION, AAC_SUFFIX);
        assert r == [u[0]] + rest;
        assert q[0] == u[0];
        assert StartsWith(rest, q[1..]) by {
          assert rest[..|q| - 1] == r[1..|q|];
          assert q[1..] == q[..|q|][1..];
        }
        ReplacedPrefix(u[1..], q[1..]);
        assert u[..|q|] == [u[0]] + u[1..][..|q| - 1];
        assert q == [q[0]] + q[1..];
      }
    }
  }

  /** No ".mp3" can start inside the replacement "_aac.m4a" and run into what follows. */
  lemma NoMp3AcrossReplacement(t: string)
    requires !Contains(t, MP3_EXTENSION)
    ensures !Contains(AAC_SUFFIX + t, MP3_EXTENSION)
  {
    var a := AAC_SUFFIX;
    var P := MP3_EXTENSION;
    var k := |a|;
    assert a[k..] + t == t;
    while k > 0
      invariant 0 <= k <= |a|
      invariant !Contains(a[k..] + t, P)
    {
      k := k - 1;
      ContainsCons(a[k], a[k + 1..] + t, P);
      assert [a[k]] + (a[k + 1..] + t) == a[k..] + t;
      if k == 4 {
        assert (a[k..] + t)[1] == 'm' && (a[k..] + t)[2] == '4';
      } else {
        assert (a[k..] + t)[0] == a[k] != '.';
      }
    }
  }

  /** After the transcoder's replace, no ".mp3" is left anywhere in the path. */
  lemma {:induction false} ReplaceRemovesMp3(s: string)
    ensures !Contains(ReplaceAll(s, MP3_EXTENSION, AAC_SUFFIX), MP3_EXTENSION)
    decreases |s|
  {
    var P := MP3_EXTENSION;
    if s == [] {
    } else if StartsWith(s, P) {
      ReplaceRemovesMp3(s[|P|..]);
      NoMp3AcrossReplacement(ReplaceAll(s[|P|..], P, AAC_SUFFIX));
    } else {
      var rest := ReplaceAll(s[1..], P, AAC_SUFFIX);
      ReplaceRemovesMp3(s[1..]);
      ContainsCons(s[0], rest, P);
      if StartsWith([s[0]] + rest, P) {
        assert StartsWith(rest, "mp3") by {
          assert rest[..3] == ([s[0]] + rest)[1..4];
        }
        ReplacedPrefix(s[1..], "mp3");
        assert false;
      }
    }
  }

  /** The usual case: a path ending in ".mp3" with no other ".mp3" in it
      gets the extension rewritten and nothing else. */
  lemma {:induction false} ReplaceTrailingMp3(base: string)
    requires !Contains(base + ".mp", MP3_EXTENSION)
    ensures ReplaceAll(base + MP3_EXTENSION, MP3_EXTENSION, AAC_SUFFIX) == base + AAC_SUFFIX
    decreases |base|
  {
    var P := MP3_EXTENSION;
    if base == [] {
      assert P[|P|..] == [];
    } else {
      assert !StartsWith(base + P, P);
      assert (base + P)[1..] == base[1..] + P;
      assert (base + ".mp")[1..] == base[1..] + ".mp";
      ContainsCons(base[0], base[1..] + ".mp", P);
      assert [base[0]] + (base[1..] + ".mp") == base + ".mp";
      ReplaceTrailingMp3(base[1..]);
      assert [base[0]] + (base[1..] + AAC_SUFFIX) == base + AAC_SUFFIX;
    }
  }
}
