/** The video pipeline, `process_video` (flask/app.py:50-89). */
module Video {
  import opened Wrappers
  import opened Strings
  import opened Detector

  /** `width if width % 2 == 0 else width - 1` (flask/app.py:63-64). Python's
      `%` by 2 is never negative, as Dafny's is. */
  function EvenClamp(n: int): (r: int)
    ensures r % 2 == 0
    ensures n - 1 <= r <= n
    ensures n % 2 == 0 ==> r == n
  {
    if n % 2 == 0 then n else n - 1
  }

  lemma EvenClampIdempotent(n: int)
    ensures EvenClamp(EvenClamp(n)) == EvenClamp(n)
  {
  }

  /** The clamp rounds down to the nearest even value: no even number between
      it and the input is skipped. */
  lemma EvenClampIsLargestEvenBelow(n: int, m: int)
    requires m % 2 == 0 && m <= n
    ensures m <= EvenClamp(n)
  {
  }

  /** The frames that `cap.read()` delivers before the first failed read. */
  function StreamFrames(readResults: seq<Option<Frame>>): (frames: seq<Frame>)
    ensures |frames| <= |readResults|
    ensures forall j :: 0 <= j < |frames| ==> readResults[j] == Some(frames[j])
    ensures |frames| < |readResults| ==> readResults[|frames|] == None
  {
    if readResults == [] || readResults[0].None? then [] else [readResults[0].value] + StreamFrames(readResults[1..])
  }

  /** The annotated copies of `frames`, in order, up to the first frame whose
      annotation raises. */
  function AnnotatePrefix(frames: seq<Frame>, annotate: Frame -> Option<Frame>): (out: seq<Frame>)
    ensures |out| <= |frames|
    ensures forall j :: 0 <= j < |out| ==> annotate(frames[j]) == Some(out[j])
    ensures |out| < |frames| ==> annotate(frames[|out|]) == None
  {
    if frames == [] then []
    else match annotate(frames[0])
      case None => []
      case Some(g) => [g] + AnnotatePrefix(frames[1..], annotate)
  }

  /** Once a read fails, nothing the capture would deliver afterwards is used. */
  lemma {:induction false} ReadsAfterEndIgnored(prefix: seq<Option<Frame>>, tail: seq<Option<Frame>>)
    ensures StreamFrames(prefix + [None] + tail) == StreamFrames(prefix)
  {
    if prefix != [] {
      assert (prefix + [None] + tail)[1..] == prefix[1..] + [None] + tail;
      ReadsAfterEndIgnored(prefix[1..], tail);
    }
  }

  /** The output is determined by the three facts the annotation contract
      states: any sequence satisfying them is `AnnotatePrefix`. */
  lemma {:induction false} AnnotatePrefixUnique(frames: seq<Frame>, annotate: Frame -> Option<Frame>, out: seq<Frame>)
    requires |out| <= |frames|
    requires forall j :: 0 <= j < |out| ==> annotate(frames[j]) == Some(out[j])
    requires |out| < |frames| ==> annotate(frames[|out|]) == None
    ensures out == AnnotatePrefix(frames, annotate)
  {
    if frames != [] && out != [] {
      assert annotate(frames[0]) == Some(out[0]);
      assert forall j :: 0 <= j < |out[1..]| ==> annotate(frames[1..][j]) == Some(out[1..][j]) by {
        forall j | 0 <= j < |out[1..]| ensures annotate(frames[1..][j]) == Some(out[1..][j]) {
          assert annotate(frames[j + 1]) == Some(out[j + 1]);
        }
      }
      AnnotatePrefixUnique(frames[1..], annotate, out[1..]);
      assert out == [out[0]] + out[1..];
    }
  }

  /** When every frame annotates, the output is exactly one annotated frame
      per frame read, in order. */
  lemma AllAnnotated(frames: seq<Frame>, annotate: Frame -> Option<Frame>)
    requires forall j :: 0 <= j < |frames| ==> annotate(frames[j]).Some?
    ensures |AnnotatePrefix(frames, annotate)| == |frames|
    ensures forall j :: 0 <= j < |frames| ==> AnnotatePrefix(frames, annotate)[j] == annotate(frames[j]).value
  {
  }

  /** The dictionary `process_video` returns on success. */
  datatype VideoStats = VideoStats(resolution: string, fps: real)

  /** `process_video(input_path, output_path)`: `stats` is the returned
      dictionary, or `None` for the `False` it returns after catching an
      exception; `written` is what was appended to the output file;
      `consumed` is the number of `cap.read()` calls made. */
  method ProcessVideo(cap: Capture, annotate: Frame -> Option<Frame>)
    returns (stats: Option<VideoStats>, written: seq<Frame>, consumed: nat)
    ensures written == AnnotatePrefix(StreamFrames(cap.readResults), annotate)
    ensures stats.Some? <==> |written| == |StreamFrames(cap.readResults)|
    ensures stats.Some? ==>
      stats.value == VideoStats(Resolution(EvenClamp(cap.width), EvenClamp(cap.height)), cap.fps)
    ensures consumed == |written| + 1
  {
    var fps := cap.fps;
    var width := EvenClamp(cap.width);
    var height := EvenClamp(cap.height);
    ghost var frames := StreamFrames(cap.readResults);
    written := [];
    consumed := 0;
    while true
      invariant consumed == |written| <= |frames|
      invariant forall j :: 0 <= j < consumed ==> annotate(frames[j]) == Some(written[j])
      decreases |cap.readResults| - consumed
    {
      var next := if consumed < |cap.readResults| then cap.readResults[consumed] else None;
      consumed := consumed + 1;
      if next.None? {
        break;
      }
      var annotated := annotate(next.value);
      if annotated.None? {
        AnnotatePrefixUnique(frames, annotate, written);
        stats := None;
        return;
      }
      written := written + [annotated.value];
    }
    AnnotatePrefixUnique(frames, annotate, written);
    stats := Some(VideoStats(Resolution(width, height), fps));
  }
}
