/** The upload validator: `allowed_file` (flask/app.py:47-48) and the three
    guards at the top of `upload_file` (flask/app.py:98-108). */
module Validation {
  import opened Wrappers
  import opened Strings

  /** `app.config['ALLOWED_EXTENSIONS']`: the fixed allow-list of each mode. */
  const AllowedExtensions: map<string, set<string>> :=
    map["image" := {"png", "jpg", "jpeg"}, "video" := {"mp4", "mov", "avi", "webm"}]

  /** `request.form.get('mode', 'image')`. */
  const DefaultMode: string := "image"

  const NoFilePart: string := "No file part"
  const NoSelectedFile: string := "No selected file"

  /** `f'Invalid file type for {mode} mode'`. */
  function InvalidFileType(mode: string): (message: string)
    ensures message != NoFilePart && message != NoSelectedFile
    ensures |message| == |mode| + 27 && message[22..|message| - 5] == mode
    ensures message[..22] == "Invalid file type for " && message[|message| - 5..] == " mode"
  {
    "Invalid file type for " + mode + " mode"
  }

  /** What a call of `allowed_file` ends in: a boolean, or the KeyError that
      `ALLOWED_EXTENSIONS[mode]` raises for a mode that has no allow-list. */
  datatype Check = Answer(allowed: bool) | UnknownModeKeyError

  /** `'.' in filename and filename.rsplit('.', 1)[1].lower() in ALLOWED_EXTENSIONS[mode]`.
      The `and` short-circuits: the allow-list is only looked up for a name with a dot. */
  function AllowedFile(filename: string, mode: string): (r: Check)
    ensures r == UnknownModeKeyError <==> '.' in filename && mode !in AllowedExtensions
    ensures r == Answer(true) ==> '.' in filename && mode in AllowedExtensions
  {
    if '.' !in filename then Answer(false)
    else if mode !in AllowedExtensions then UnknownModeKeyError
    else Answer(Lower(AfterLastDot(filename)) in AllowedExtensions[mode])
  }

  /** Independent reading of `allowed_file`: a name is accepted exactly when it
      has a '.' with no '.' after it whose lower-cased tail is in the mode's list. */
  lemma AllowedFileIff(filename: string, mode: string)
    ensures AllowedFile(filename, mode) == Answer(true) <==>
      mode in AllowedExtensions &&
      exists i :: 0 <= i < |filename| && filename[i] == '.' && '.' !in filename[i + 1..] &&
                  Lower(filename[i + 1..]) in AllowedExtensions[mode]
  {
    if '.' in filename {
      var i := LastDot(filename);
      assert filename[i + 1..] == AfterLastDot(filename);
      forall k | 0 <= k < |filename| && filename[k] == '.' && '.' !in filename[k + 1..]
        ensures k == i
      {
        assert k <= i;
      }
    }
  }

  /** The check ignores case: names that lower-case alike are judged alike. */
  lemma AllowedFileCaseInsensitive(f1: string, f2: string, mode: string)
    requires Lower(f1) == Lower(f2)
    ensures AllowedFile(f1, mode) == AllowedFile(f2, mode)
  {
    LowerAfterLastDot(f1, f2);
  }

  /** A name without a '.' is refused in every mode, known or not: the
      allow-list is never looked up, so nothing is raised. */
  lemma NoDotRejected(filename: string, mode: string)
    requires '.' !in filename
    ensures AllowedFile(filename, mode) == Answer(false)
  {
  }

  /** A name ending in '.' has an empty extension, which no mode allows. */
  lemma TrailingDotRejected(filename: string, mode: string)
    requires |filename| > 0 && filename[|filename| - 1] == '.'
    ensures AllowedFile(filename, mode) != Answer(true)
  {
    assert filename[|filename| - 1] in filename;
    assert AfterLastDot(filename) == [];
  }

  /** With a '.' in the name an unknown mode does reach the allow-list lookup
      and raises. */
  lemma DottedNameUnknownModeRaises(filename: string, mode: string)
    requires '.' in filename && mode !in AllowedExtensions
    ensures AllowedFile(filename, mode) == UnknownModeKeyError
  {
  }

  /** An upper-case video extension is accepted, whatever precedes it. */
  lemma VideoUpperCaseAccepted(stem: string)
    ensures AllowedFile(stem + ".MP4", "video") == Answer(true)
  {
    var name := stem + ".MP4";
    assert '.' in name && AfterLastDot(name) == "MP4" by {
      assert name == stem + "." + "MP4" && name[|stem|] == '.';
      AfterLastDotOfJoin(stem, "MP4");
    }
    assert Lower("MP4") in AllowedExtensions["video"] by {
      var r := Lower("MP4");
      assert r[0] == 'm' && r[1] == 'p' && r[2] == '4';
      assert r == "mp4";
    }
  }

  /** `GIF` is not an image extension, in any letter case. */
  lemma ImageGifRejected(stem: string)
    ensures AllowedFile(stem + ".GIF", "image") == Answer(false)
  {
    var name := stem + ".GIF";
    assert '.' in name && AfterLastDot(name) == "GIF" by {
      assert name == stem + "." + "GIF" && name[|stem|] == '.';
      AfterLastDotOfJoin(stem, "GIF");
    }
    assert Lower("GIF") !in AllowedExtensions["image"] by {
      var r := Lower("GIF");
      assert r[0] == 'g' && r[1] == 'i' && r[2] == 'f';
      assert r == "gif";
    }
  }

  /** The multipart request as far as the validator sees it: whether a `file`
      part is present, its filename, and the `mode` form field if sent. */
  datatype Upload = Upload(hasFilePart: bool, filename: string, formMode: Option<string>)

  /** The outcome of the guards: a 400 with its message, the KeyError that the
      outer handler turns into a 500, or acceptance with the mode and extension. */
  datatype Verdict = Rejected(message: string) | Raised | Accepted(mode: string, ext: string)

  /** `request.form.get('mode', 'image')`: the field when sent, else the default. */
  function ModeOf(formMode: Option<string>): (mode: string)
    ensures formMode.Some? ==> mode == formMode.value
    ensures formMode.None? ==> mode == DefaultMode
  {
    match formMode
    case None => DefaultMode
    case Some(m) => m
  }

  /** The guards of `upload_file` in their order, followed by the extension
      computation at flask/app.py:111. */
  function Validate(u: Upload): (v: Verdict)
    ensures !u.hasFilePart ==> v == Rejected(NoFilePart)
    ensures u.hasFilePart && u.filename == "" ==> v == Rejected(NoSelectedFile)
    ensures u.hasFilePart && u.filename != "" ==>
      (v == Rejected(InvalidFileType(ModeOf(u.formMode))) <==> AllowedFile(u.filename, ModeOf(u.formMode)) == Answer(false))
    ensures v.Raised? <==>
      u.hasFilePart && u.filename != "" && '.' in u.filename && ModeOf(u.formMode) !in AllowedExtensions
    ensures v.Accepted? ==>
      && v.mode == ModeOf(u.formMode)
      && v.mode in AllowedExtensions
      && v.ext in AllowedExtensions[v.mode]
      && '.' !in v.ext && IsLower(v.ext)
      && '.' in u.filename && v.ext == Lower(AfterLastDot(u.filename))
    ensures v.Accepted? <==> u.hasFilePart && u.filename != "" && AllowedFile(u.filename, ModeOf(u.formMode)) == Answer(true)
  {
    var mode := ModeOf(u.formMode);
    if !u.hasFilePart then Rejected(NoFilePart)
    else if u.filename == "" then Rejected(NoSelectedFile)
    else match AllowedFile(u.filename, mode)
      case UnknownModeKeyError => Raised
      case Answer(ok) =>
        if !ok then Rejected(InvalidFileType(mode))
        else Accepted(mode, Lower(AfterLastDot(u.filename)))
  }

  /** A missing `mode` field means image mode. */
  lemma DefaultModeIsImage(hasFilePart: bool, filename: string)
    ensures Validate(Upload(hasFilePart, filename, None)) == Validate(Upload(hasFilePart, filename, Some("image")))
  {
  }

  /** An unknown mode gives a 400 for a dot-less name but raises for a dotted one. */
  lemma UnknownModeOutcomes(stem: string, ext: string, mode: string)
    requires stem != "" && '.' !in stem && mode !in AllowedExtensions
    ensures Validate(Upload(true, stem, Some(mode))) == Rejected(InvalidFileType(mode))
    ensures Validate(Upload(true, stem + "." + ext, Some(mode))) == Raised
  {
    assert (stem + "." + ext)[|stem|] == '.';
  }
}
