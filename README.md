# Upload-and-detect request flow, modelled in Dafny

This project models the decision logic of a small Flask service. The service
takes an uploaded image or video, runs a YOLO detector over it, and answers
with an annotated result and summary statistics. The detector, OpenCV's
capture and writer, and the HTTP framework are the system's external
collaborators. Here they are parameters: function values in
`Detector.Backend`. What is left is modelled and proved:

- **Upload validation** (`Validation`). `allowed_file` is modelled with
  Python's short-circuiting `and`. A dot-less name is refused without
  consulting the allow-list. A dotted name with an unknown mode raises
  `KeyError`. Next come the three guards of `upload_file`, each with its
  exact 400 message, and the default mode `image`.
- **Naming** (`Naming`). The stored name is `<uuid>.<ext>` and the result
  name is `result_<uuid>.<ext>`. Both live in their folders, joined by a
  model of `os.path.join`, and the response carries their URLs.
- **Video pipeline** (`Video`). This covers the even clamp of width and
  height, the `while True` frame loop as a method, and the `False` that
  `process_video` returns when an exception is caught.
- **Image pipeline** (`Image`). This is the loop that adds class names to a
  set, including the `KeyError` raised for a class missing from `names`.
- **Request handler** (`Handler`). `upload_file` is modelled over a *disk*:
  a map from path to content, passed in and returned. A failed processing
  step, including the `TypeError` raised by subscripting `False`, gives a 500
  with `Error processing file`. The result file is then absent.
- `Strings` holds the Python string built-ins these rely on: ASCII
  `lower()`, `rsplit('.', 1)`, `str(int)` and the `"WxH"` resolution text,
  each with its partner (parse-back or a characterising lemma).

Two behaviours of `upload_file` are worth stating outright:
- An unknown mode with a dotted file name raises `KeyError` inside
  `allowed_file`. The outer handler turns it into a 500
  `Internal server error`, not a 400.
- When `process_video` fails it returns `False`, and `upload_file`
  subscripts it. The inner handler reports the resulting `TypeError` as
  `details` of a 500 `Error processing file`.

## Model

| member | source | states |
|---|---|---|
| `Strings.LowerChar` | flask/app.py:48 | an ASCII upper-case letter becomes the letter 32 code points later (its lower-case form); every other character is unchanged; the result is never upper case and is '.' exactly when the input is |
| `Strings.Lower` | flask/app.py:48 | `s.lower()` contains no upper-case ASCII letter, returns lower-case text unchanged, and has the length of `s` with the lower-cased character at each index |
| `Strings.LowerKeepsDots` | flask/app.py:48 | two names with the same lower-cased text have the same length and '.' at the same positions |
| `Strings.LowerAfterLastDot` | flask/app.py:48 | two names with the same lower-cased text both contain '.' or both do not, and their last suffixes lower-case alike |
| `Strings.LowerIdempotent` | flask/app.py:48 | lower-casing twice equals lower-casing once |
| `Strings.LastDot` | flask/app.py:48 | the index found holds a '.', no '.' follows it, and -1 means there is no '.' |
| `Strings.AfterLastDot` | flask/app.py:48 | `rsplit('.', 1)[1]` contains no '.'; the name is the text before it, then '.', then it |
| `Strings.AfterLastDotOfJoin` | flask/app.py:111-112 | for any prefix `p` and dot-free `e`, `(p + "." + e).rsplit('.', 1)[1] == e` |
| `Strings.NatToDecimal` | flask/app.py:78 | `str(n)` is a non-empty string of digits with no leading zero: it starts with '0' only when it is exactly `"0"` for zero |
| `Strings.IntToDecimal` | flask/app.py:78 | `str(i)` is an integer literal whose first character is '-' exactly when `i` is negative |
| `Strings.IntToDecimalRoundTrip` | flask/app.py:78 | parsing `str(i)` gives back `i`, negative values included |
| `Strings.ResolutionRoundTrip` | flask/app.py:78-140 | the text `f"{w}x{h}"` built by `Resolution`, for a video's clamped size and for an image's `orig_shape[1]`, `orig_shape[0]`, parses back to exactly `(w, h)` |
| `Strings.ResolutionInjective` | flask/app.py:140 | equal resolution texts come from equal width and height |
| `Validation.AllowedFile` | flask/app.py:47-48 | `allowed_file` raises `KeyError` exactly when the name has a '.' and the mode has no allow-list; a name it allows has a '.' and a known mode |
| `Validation.InvalidFileType` | flask/app.py:108 | the type message differs from the other two 400 messages and is `Invalid file type for `, the mode, then ` mode` |
| `Validation.AllowedFileIff` | flask/app.py:47-48 | a name is allowed iff the mode has an allow-list and some '.' with no '.' after it has a lower-cased tail in that list (both directions) |
| `Validation.AllowedFileCaseInsensitive` | flask/app.py:47-48 | two names that lower-case to the same text get the same verdict, error included, in every mode |
| `Validation.NoDotRejected` | flask/app.py:48 | a dot-less name is refused in every mode, even an unknown one, without raising |
| `Validation.TrailingDotRejected` | flask/app.py:48 | a name ending in '.' (empty extension) is never allowed |
| `Validation.DottedNameUnknownModeRaises` | flask/app.py:48 | a dotted name with a mode that has no allow-list raises `KeyError` |
| `Validation.VideoUpperCaseAccepted` | flask/app.py:15-18 | every name ending in `.MP4` is allowed in video mode |
| `Validation.ImageGifRejected` | flask/app.py:15-18 | every name ending in `.GIF` is refused in image mode |
| `Validation.Validate` | flask/app.py:98-111 | in order: no file part gives `No file part`, then an empty name gives `No selected file`, then a refused type gives `Invalid file type for {mode} mode`; the KeyError case is exactly a dotted name with an unknown mode; an accepted upload has the lower-cased last suffix, dot-free and in the mode's list |
| `Validation.ModeOf` | flask/app.py:102 | the mode is the `mode` field when the form sends one and `image` otherwise |
| `Validation.DefaultModeIsImage` | flask/app.py:102 | every request without `mode`, with or without a file part and whatever its file name, is judged as image mode |
| `Validation.UnknownModeOutcomes` | flask/app.py:104-108 | for one unknown mode, a dot-less name is a 400 with the mode in the message, and the same stem with a dot raises |
| `Naming.AllowListEntries` | flask/app.py:15-18 | every allow-list entry is lower case and dot-free |
| `Naming.StoredName` | flask/app.py:111-112 | `<id>.<ext>` starts with the id, has one more character than id and extension together, contains '.', and its last suffix is `ext` when `ext` is dot-free |
| `Naming.ResultName` | flask/app.py:117 | `result_<name>` is relative and is the name after a seven-character prefix |
| `Naming.Join` | flask/app.py:113 | `os.path.join(folder, name)` is `name` for an absolute name, and otherwise the folder, a '/', then the name |
| `Naming.UploadPath` | flask/app.py:113 | a relative stored name is saved at `static/uploads/<name>` |
| `Naming.ResultPath` | flask/app.py:118 | the result is written at `static/results/result_<name>` |
| `Naming.OriginalUrl` | flask/app.py:136 | the `original` URL is '/' then the upload path of a relative stored name |
| `Naming.ResultUrl` | flask/app.py:137 | the `result` URL is '/' then the result path |
| `Naming.StoredNameAllowed` | flask/app.py:111-112 | the stored name of an accepted extension passes `allowed_file` in the same mode |
| `Naming.StoredNameInjective` | flask/app.py:112 | a stored name determines its id and its extension |
| `Naming.ResultNameInjective` | flask/app.py:117 | `result_` + name determines the name |
| `Naming.JoinInjective` | flask/app.py:113 | joining relative names onto one folder is injective |
| `Naming.DistinctIdsDistinctFiles` | flask/app.py:111-118 | two distinct ids, of any form, never share an upload path or a result path, whatever the dot-free extensions |
| `Naming.UploadAndResultPathsDiffer` | flask/app.py:113-118 | no upload path, for any stored name, is ever a result path |
| `Video.EvenClamp` | flask/app.py:63-64 | the clamped value is even, lies between the input minus one and the input, and equals an even input |
| `Video.EvenClampIdempotent` | flask/app.py:63-64 | clamping twice is clamping once |
| `Video.EvenClampIsLargestEvenBelow` | flask/app.py:63-64 | no even number at most the input exceeds the clamped value |
| `Video.StreamFrames` | flask/app.py:68-71 | the frames read are the successful reads in order, ending at the first failed read or the end |
| `Video.AnnotatePrefix` | flask/app.py:73-75 | the output holds the annotation of each frame in order, up to the first frame whose annotation raises |
| `Video.ReadsAfterEndIgnored` | flask/app.py:68-71 | what the capture would give after a failed read never affects the frames used |
| `Video.AnnotatePrefixUnique` | flask/app.py:68-75 | any output meeting the three annotation facts is `AnnotatePrefix` |
| `Video.AllAnnotated` | flask/app.py:68-75 | when every frame annotates, there is one output frame per frame read, each its annotation |
| `Video.ProcessVideo` | flask/app.py:50-83 | the writer receives exactly `AnnotatePrefix(StreamFrames(reads))`; stats are returned iff every frame annotated, with resolution `Resolution(EvenClamp(w), EvenClamp(h))` and the capture's fps; one read more than the frames written is made |
| `Image.DetectedNames` | flask/app.py:130-132 | a name is detected iff some box's class maps to it in `names` |
| `Image.DetectedNamesBound` | flask/app.py:130-132 | there are never more detected names than boxes |
| `Image.CollectDetectedObjects` | flask/app.py:130-132 | success iff every box class is in `names`; then the set holds each box's name and only box names, and is no larger than the box count; otherwise the raised key is the first missing class |
| `Handler.Status` | flask/app.py:99-173 | the status is 400 exactly for client errors, 200 exactly for success, and 500 otherwise |
| `Handler.KeyErrorText` | flask/app.py:166 | `str(KeyError(k))` is an integer literal that parses back to the class `k` |
| `Handler.ImageBranch` | flask/app.py:121-143 | no path but the result path changes; a detector error propagates with the disk unchanged; otherwise the annotated image is written at the result path; the branch succeeds iff every box class is in `names`, with both URLs, the inference time, `WxH` from `orig_shape` and the detected names; otherwise the raised text is that of the first missing class |
| `Handler.VideoBranch` | flask/app.py:144-157 | no path but the result path changes; the result file holds exactly the annotated prefix of the frames read; the branch succeeds iff every frame annotated, with both URLs, the clamped resolution, the fps and no objects; otherwise the error is the `TypeError` of subscripting `False` |
| `Handler.StoreAndProcess` | flask/app.py:110-169 | it ensures `Processed`: the upload is stored as `<id>.<ext>`; no path other than its upload and result paths changes; the answer is a success or a 500 `Error processing file` that leaves no result file; success carries the mode's kind, both URLs and the result file; in image mode success happens iff the detector answers and every class is named, a detector error is its `details`, and a missing class gives the text of the first one; in video mode success happens iff every frame annotated and a failure's `details` is the `TypeError` text |
| `Handler.CatchProcessingError` | flask/app.py:160-166 | a normal outcome passes through with the disk unchanged; a raised exception becomes a 500 `Error processing file` with its text as `details`, the result file is gone and no other path changes |
| `Handler.FailedFrameFailsVideo` | flask/app.py:146-166 | when some frame read from an accepted video fails to annotate, the answer is the 500 `Error processing file` whose `details` is the `TypeError` text of subscripting `False` |
| `Handler.UploadFile` | flask/app.py:96-173 | a validation rejection is a 400 with its message and the disk unchanged; the KeyError case is a 500 `Internal server error` with the disk unchanged; an accepted upload meets `Processed` for its mode, extension, id, backend and disk, with all of its storage, success, stats and `details` clauses, and a success reports the request's mode as its kind |

## Left out

- Flask routing, the landing page, `serve_static`, CORS, `jsonify` and the 50 MB upload limit: these are framework behaviour. Responses are a datatype, not JSON.
- YOLO inference and `plot()` are opaque functions in `Detector.Backend`. An `Err`/`None` result stands for the exception they raise.
- OpenCV handles: releasing them and `destroyAllWindows` change nothing the handler observes. Opening the writer is taken to create the result file.
- The video writer and the capture are taken never to raise. Only the per-frame annotation can fail inside `process_video`.
- Detector.Capture: `int(cap.get(...))` is taken as already done; width and height are integers.
- The two context managers at flask/app.py:27-45 are never used.
- `uuid.uuid4()` randomness: the id is a parameter. The distinctness lemma holds for any two distinct ids, so the textual form of a uuid is not modelled.
- `fps` and `inference_time` are floats, passed through as `real` values that nothing computes with.
- Logging and traceback formatting have no effect on responses.
- `str.lower()` is modelled on ASCII letters only, not full Unicode case mapping.
- The `not file` test at flask/app.py:107 is not modelled: a file part's truthiness is its non-empty filename, already checked at line 104. A missing (`None`) filename is not modelled.
- Handler.UploadFile: `file.save` is taken to succeed, so the outer handler's 500 is reached only through the `KeyError` of `allowed_file`. The upload's bytes are not modelled (the disk records `Uploaded`).
- Image.CollectDetectedObjects: `list(detected_objects)` has no defined order in Python, so the response carries the set.
- Loading the model at startup and creating the folders are process-level I/O.
