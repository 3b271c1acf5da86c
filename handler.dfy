/** The request handler `upload_file` (flask/app.py:95-173): validation,
    storage of the upload, dispatch to the image or video pipeline, and the
    cleanup of the result file when processing fails. */
module Handler {
  import opened Wrappers
  import opened Strings
  import opened Validation
  import opened Naming
  import opened Detector
  import opened Video
  import opened Image

  /** What a file on disk holds, as far as the handler is concerned. */
  datatype Content = Uploaded | AnnotatedImage(image: Frame) | AnnotatedVideo(frames: seq<Frame>)

  /** The files that exist, by path. */
  type Disk = map<string, Content>

  /** The `stats` object of a successful response. */
  datatype Stats =
    | ImageStats(inferenceTime: real, resolution: string, detectedObjects: set<string>)
    | VideoStatsReport(resolution: string, fps: real, detectedObjects: set<string>)

  /** The JSON responses of `upload_file`. */
  datatype Response =
    | Success(kind: string, original: string, result: string, stats: Stats)
    | ClientError(error: string)
    | ProcessingError(error: string, details: string)
    | InternalError(error: string)

  /** The HTTP status sent with each response. */
  function Status(r: Response): (code: int)
    ensures code == 400 <==> r.ClientError?
    ensures code == 200 <==> r.Success?
    ensures code == 200 || code == 400 || code == 500
  {
    match r
    case Success(_, _, _, _) => 200
    case ClientError(_) => 400
    case ProcessingError(_, _) => 500
    case InternalError(_) => 500
  }

  const ErrorProcessingFile: string := "Error processing file"
  const InternalServerError: string := "Internal server error"

  /** `str(e)` for the TypeError raised by `video_stats['resolution']` when
      `process_video` returned `False`. */
  const NotSubscriptable: string := "'bool' object is not subscriptable"

  /** `str(e)` for the KeyError raised by `names[key]`: the key's `repr`. */
  function KeyErrorText(key: int): (text: string)
    ensures IsIntLiteral(text) && ParseInt(text) == key
  {
    IntToDecimalRoundTrip(key);
    IntToDecimal(key)
  }

  /** The image branch of the inner `try` (flask/app.py:121-143) for the
      stored name `stored`. `Err(m)` is an exception with `str(e) == m`. */
  method ImageBranch(backend: Backend, stored: string, disk: Disk)
    returns (outcome: Result<Response, string>, disk': Disk)
    ensures forall p :: p != ResultPath(stored) ==> (p in disk' <==> p in disk) && (p in disk ==> disk'[p] == disk[p])
    ensures var det := backend.detectImage(UploadPath(stored));
      && (det.Err? ==> outcome == Err(det.error) && disk' == disk)
      && (det.Ok? ==> disk' == disk[ResultPath(stored) := AnnotatedImage(det.value.plot)])
      && (outcome.Ok? <==>
            det.Ok? && forall i :: 0 <= i < |det.value.boxClasses| ==> det.value.boxClasses[i] in det.value.names)
      && (outcome.Ok? ==>
            outcome.value == Success("image", OriginalUrl(stored), ResultUrl(stored),
                                     ImageStats(det.value.inferenceTime,
                                                Resolution(det.value.origShape.1, det.value.origShape.0),
                                                DetectedNames(det.value.boxClasses, det.value.names))))
      && (det.Ok? && outcome.Err? ==>
            exists i :: 0 <= i < |det.value.boxClasses| && det.value.boxClasses[i] !in det.value.names &&
                        (forall j :: 0 <= j < i ==> det.value.boxClasses[j] in det.value.names) &&
                        outcome.error == KeyErrorText(det.value.boxClasses[i]))
  {
    var results := backend.detectImage(UploadPath(stored));
    if results.Err? {
      return Err(results.error), disk;
    }
    var det := results.value;
    disk' := disk[ResultPath(stored) := AnnotatedImage(det.plot)];
    var detected := CollectDetectedObjects(det.boxClasses, det.names);
    if detected.Err? {
      return Err(KeyErrorText(detected.error)), disk';
    }
    outcome := Ok(Success("image", OriginalUrl(stored), ResultUrl(stored),
                          ImageStats(det.inferenceTime, Resolution(det.origShape.1, det.origShape.0), detected.value)));
  }

  /** The video branch of the inner `try` (flask/app.py:144-157). The `False`
      of a failed `process_video` is subscripted, which raises a TypeError. */
  method VideoBranch(backend: Backend, stored: string, disk: Disk)
    returns (outcome: Result<Response, string>, disk': Disk)
    ensures forall p :: p != ResultPath(stored) ==> (p in disk' <==> p in disk) && (p in disk ==> disk'[p] == disk[p])
    ensures var cap := backend.openVideo(UploadPath(stored));
      var out := AnnotatePrefix(StreamFrames(cap.readResults), backend.annotateFrame);
      && disk' == disk[ResultPath(stored) := AnnotatedVideo(out)]
      && (outcome.Ok? <==> |out| == |StreamFrames(cap.readResults)|)
      && (outcome.Ok? ==>
            outcome.value == Success("video", OriginalUrl(stored), ResultUrl(stored),
                                     VideoStatsReport(Resolution(EvenClamp(cap.width), EvenClamp(cap.height)), cap.fps, {})))
      && (outcome.Err? ==> outcome.error == NotSubscriptable)
  {
    var cap := backend.openVideo(UploadPath(stored));
    // Opening the writer creates the result file; frames are appended to it.
    disk' := disk[ResultPath(stored) := AnnotatedVideo([])];
    var videoStats, written, _ := ProcessVideo(cap, backend.annotateFrame);
    disk' := disk'[ResultPath(stored) := AnnotatedVideo(written)];
    if videoStats.None? {
      return Err(NotSubscriptable), disk';
    }
    outcome := Ok(Success("video", OriginalUrl(stored), ResultUrl(stored),
                          VideoStatsReport(videoStats.value.resolution, videoStats.value.fps, {})));
  }

  /** The `except` block of the inner `try` (flask/app.py:160-166): a raised
      exception removes the result file, if one was written, and becomes a
      500 with its text as `details`; a normal outcome passes through. */
  method CatchProcessingError(outcome: Result<Response, string>, resultPath: string, disk: Disk)
    returns (resp: Response, disk': Disk)
    ensures outcome.Ok? ==> resp == outcome.value && disk' == disk
    ensures outcome.Err? ==> resp == ProcessingError(ErrorProcessingFile, outcome.error)
    ensures outcome.Err? ==> resultPath !in disk' && forall p :: p != resultPath ==>
      (p in disk' <==> p in disk) && (p in disk ==> disk'[p] == disk[p])
  {
    if outcome.Ok? {
      return outcome.value, disk;
    }
    disk' := disk;
    if resultPath in disk' {
      disk' := disk' - {resultPath};
    }
    resp := ProcessingError(ErrorProcessingFile, outcome.error);
  }

  /** What the part of `upload_file` after validation (flask/app.py:110-169)
      does with an upload accepted in `mode` with extension `ext`: `resp` and
      `disk'` are its answer and the files after it. */
  ghost predicate Processed(mode: string, ext: string, id: string, backend: Backend, disk: Disk,
                            resp: Response, disk': Disk)
  {
    var stored := StoredName(id, ext);
    // The upload is stored; only its upload and result paths change.
    && UploadPath(stored) in disk' && disk'[UploadPath(stored)] == Uploaded
    && (forall p :: p != UploadPath(stored) && p != ResultPath(stored) ==>
          (p in disk' <==> p in disk) && (p in disk ==> disk'[p] == disk[p]))
    // A success carries both URLs and the result file; a failure leaves none.
    && (resp.Success? || resp.ProcessingError?)
    && (resp.ProcessingError? ==> resp.error == ErrorProcessingFile && ResultPath(stored) !in disk')
    && (resp.Success? ==>
          && resp.kind == (if mode == "image" then "image" else "video")
          && resp.original == OriginalUrl(stored)
          && resp.result == ResultUrl(stored)
          && ResultPath(stored) in disk')
    // The image pipeline.
    && (mode == "image" ==>
          var det := backend.detectImage(UploadPath(stored));
          && (resp.Success? <==>
                det.Ok? && forall i :: 0 <= i < |det.value.boxClasses| ==> det.value.boxClasses[i] in det.value.names)
          && (resp.Success? ==>
                && disk'[ResultPath(stored)] == AnnotatedImage(det.value.plot)
                && resp.stats == ImageStats(det.value.inferenceTime,
                                            Resolution(det.value.origShape.1, det.value.origShape.0),
                                            DetectedNames(det.value.boxClasses, det.value.names)))
          && (det.Err? ==> resp == ProcessingError(ErrorProcessingFile, det.error))
          && (det.Ok? && resp.ProcessingError? ==>
                exists i :: 0 <= i < |det.value.boxClasses| && det.value.boxClasses[i] !in det.value.names &&
                            (forall j :: 0 <= j < i ==> det.value.boxClasses[j] in det.value.names) &&
                            resp.details == KeyErrorText(det.value.boxClasses[i])))
    // The video pipeline.
    && (mode != "image" ==>
          var cap := backend.openVideo(UploadPath(stored));
          var out := AnnotatePrefix(StreamFrames(cap.readResults), backend.annotateFrame);
          && (resp.Success? <==> |out| == |StreamFrames(cap.readResults)|)
          && (resp.Success? ==>
                && disk'[ResultPath(stored)] == AnnotatedVideo(out)
                && resp.stats == VideoStatsReport(Resolution(EvenClamp(cap.width), EvenClamp(cap.height)), cap.fps, {}))
          && (resp.ProcessingError? ==> resp.details == NotSubscriptable))
  }

  /** The part of `upload_file` after validation, as `Processed` states it. */
  method StoreAndProcess(mode: string, ext: string, id: string, backend: Backend, disk: Disk)
    returns (resp: Response, disk': Disk)
    ensures Processed(mode, ext, id, backend, disk, resp, disk')
  {
    var filename := StoredName(id, ext);
    var uploadPath := UploadPath(filename);
    disk' := disk[uploadPath := Uploaded];
    var resultPath := ResultPath(filename);
    UploadAndResultPathsDiffer(filename, filename);

    var outcome: Result<Response, string>;
    if mode == "image" {
      outcome, disk' := ImageBranch(backend, filename, disk');
    } else {
      outcome, disk' := VideoBranch(backend, filename, disk');
    }

    resp, disk' := CatchProcessingError(outcome, resultPath, disk');
  }

  /** A video with a frame that fails to annotate is never a success: it is
      the 500 carrying the `TypeError` of subscripting `False`. */
  lemma FailedFrameFailsVideo(ext: string, id: string, backend: Backend, disk: Disk,
                              resp: Response, disk': Disk, i: nat)
    requires Processed("video", ext, id, backend, disk, resp, disk')
    requires var frames := StreamFrames(backend.openVideo(UploadPath(StoredName(id, ext))).readResults);
      i < |frames| && backend.annotateFrame(frames[i]).None?
    ensures resp == ProcessingError(ErrorProcessingFile, NotSubscriptable)
  {
    var frames := StreamFrames(backend.openVideo(UploadPath(StoredName(id, ext))).readResults);
    var out := AnnotatePrefix(frames, backend.annotateFrame);
    assert |out| < |frames|;
  }

  /** `upload_file()`: `u` is the request, `id` the value of
      `str(uuid.uuid4())`, `backend` the model and capture, and `disk` the
      files before the request; `disk'` is the files after it. */
  method UploadFile(u: Upload, id: string, backend: Backend, disk: Disk)
    returns (resp: Response, disk': Disk)
    ensures match Validate(u)
      // Client faults: the three guards, in order; nothing is stored.
      case Rejected(message) => resp == ClientError(message) && disk' == disk
      // An unknown mode with a dotted name raises inside `allowed_file`.
      case Raised => resp == InternalError(InternalServerError) && disk' == disk
      // An accepted upload is stored under its uuid and processed in its mode.
      case Accepted(mode, ext) =>
        && Processed(mode, ext, id, backend, disk, resp, disk')
        && (resp.Success? ==> resp.kind == mode)
  {
    var verdict := Validate(u);
    match verdict {
      case Rejected(message) =>
        return ClientError(message), disk;
      case Raised =>
        return InternalError(InternalServerError), disk;
      case Accepted(mode, ext) =>
        assert mode == "image" || mode == "video";
        resp, disk' := StoreAndProcess(mode, ext, id, backend, disk);
    }
  }
}
