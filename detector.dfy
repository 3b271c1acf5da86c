/** The black boxes the handler calls: the YOLO model with its `plot()`
    rendering, and OpenCV's video capture. They are parameters of the model;
    an `Err` or `None` from one of them stands for the exception it raises. */
module Detector {
  import opened Wrappers

  /** A decoded picture: an uploaded image, a video frame, or an annotated
      copy of one. */
  type Frame(==)

  /** `results[0]` of `model(upload_path)` as the image path reads it: the
      rendering `plot()`, the class index `int(box.cls)` of each box in order,
      the `names` table, `speed['inference']` and `orig_shape` (height, width). */
  datatype ImageDetection = ImageDetection(
    plot: Frame,
    boxClasses: seq<int>,
    names: map<int, string>,
    inferenceTime: real,
    origShape: (int, int))

  /** `cv2.VideoCapture(upload_path)`: its FPS property, its frame width and
      height (already passed through `int(...)`), and what successive
      `cap.read()` calls return; past the end of `readResults` every read fails. */
  datatype Capture = Capture(fps: real, width: int, height: int, readResults: seq<Option<Frame>>)

  /** The external collaborators of one request. `detectImage` is
      `model(path)` followed by `plot()`, failing with `str(e)`;
      `annotateFrame` is `model(frame)[0].plot()` on one video frame. */
  datatype Backend = Backend(
    detectImage: string -> Result<ImageDetection, string>,
    openVideo: string -> Capture,
    annotateFrame: Frame -> Option<Frame>)
}
