/** Names and paths given to an accepted upload (flask/app.py:111-118,
    136-137, 150-151): `<uuid>.<ext>` in the uploads folder and
    `result_<uuid>.<ext>` in the results folder. */
module Naming {
  import opened Strings
  import opened Validation

  const UploadFolder: string := "static/uploads"
  const ResultFolder: string := "static/results"

  /** `f"{uuid}.{ext}"`. Its last suffix is the extension it was built with. */
  function StoredName(id: string, ext: string): (name: string)
    ensures |name| == |id| + 1 + |ext| && name[..|id|] == id
    ensures '.' in name
    ensures '.' !in ext ==> AfterLastDot(name) == ext
  {
    assert (id + "." + ext)[|id|] == '.';
    if '.' !in ext then AfterLastDotOfJoin(id, ext); id + "." + ext
    else id + "." + ext
  }

  /** `f"result_{filename}"`: a relative name from which the stored name is
      recovered by dropping the prefix. */
  function ResultName(stored: string): (name: string)
    ensures |name| == |stored| + 7 && name[0] != '/'
    ensures name[7..] == stored
  {
    "result_" + stored
  }

  /** `os.path.join(folder, name)` for a folder not ending in '/': an absolute
      `name` replaces the folder, a relative one is kept after it. */
  function Join(folder: string, name: string): (path: string)
    ensures |name| > 0 && name[0] == '/' ==> path == name
    ensures !(|name| > 0 && name[0] == '/') ==> |path| == |folder| + 1 + |name| && path[|folder| + 1..] == name
    ensures !(|name| > 0 && name[0] == '/') ==> path[..|folder| + 1] == folder + "/"
  {
    if |name| > 0 && name[0] == '/' then name else folder + "/" + name
  }

  /** The stored file's path; a stored name starting with a uuid stays in the uploads folder. */
  function UploadPath(stored: string): (path: string)
    ensures |stored| > 0 && stored[0] != '/' ==> path == UploadFolder + "/" + stored
  {
    Join(UploadFolder, stored)
  }

  /** The result file's path, always inside the results folder. */
  function ResultPath(stored: string): (path: string)
    ensures path == ResultFolder + "/" + ResultName(stored)
  {
    Join(ResultFolder, ResultName(stored))
  }

  /** `f'/static/uploads/{filename}'`, the `original` field of the response:
      the stored file's path as served under '/'. */
  function OriginalUrl(stored: string): (url: string)
    ensures |stored| > 0 && stored[0] != '/' ==> url == "/" + UploadPath(stored)
  {
    "/static/uploads/" + stored
  }

  /** `f'/static/results/{result_filename}'`, the `result` field of the
      response: the result file's path as served under '/'. */
  function ResultUrl(stored: string): (url: string)
    ensures url == "/" + ResultPath(stored)
  {
    "/static/results/" + ResultName(stored)
  }

  /** Every entry of an allow-list is already lower case and has no '.'. */
  lemma AllowListEntries(mode: string, ext: string)
    requires mode in AllowedExtensions && ext in AllowedExtensions[mode]
    ensures IsLower(ext) && '.' !in ext
  {
    if mode == "image" {
      assert ext == "png" || ext == "jpg" || ext == "jpeg";
    } else {
      assert ext == "mp4" || ext == "mov" || ext == "avi" || ext == "webm";
    }
  }

  /** The stored name of an accepted upload passes `allowed_file` in the same
      mode: it keeps exactly the extension that was checked. */
  lemma StoredNameAllowed(id: string, mode: string, ext: string)
    requires mode in AllowedExtensions && ext in AllowedExtensions[mode]
    ensures AllowedFile(StoredName(id, ext), mode) == Answer(true)
  {
    AllowListEntries(mode, ext);
    assert Lower(ext) == ext;
  }

  /** The stored name determines both the identifier and the extension. */
  lemma StoredNameInjective(id1: string, ext1: string, id2: string, ext2: string)
    requires '.' !in ext1 && '.' !in ext2
    requires StoredName(id1, ext1) == StoredName(id2, ext2)
    ensures id1 == id2 && ext1 == ext2
  {
    assert |id1| == |id2|;
    assert id1 == StoredName(id1, ext1)[..|id1|];
  }

  lemma ResultNameInjective(s1: string, s2: string)
    requires ResultName(s1) == ResultName(s2)
    ensures s1 == s2
  {
    assert s1 == ResultName(s1)[7..];
  }

  lemma JoinInjective(folder: string, n1: string, n2: string)
    requires |n1| > 0 && n1[0] != '/' && |n2| > 0 && n2[0] != '/'
    requires Join(folder, n1) == Join(folder, n2)
    ensures n1 == n2
  {
    assert n1 == Join(folder, n1)[|folder| + 1..];
  }

  /** Two uploads with distinct identifiers never share a stored file or a
      result file, whatever their extensions. */
  lemma DistinctIdsDistinctFiles(id1: string, ext1: string, id2: string, ext2: string)
    requires id1 != id2
    requires '.' !in ext1 && '.' !in ext2
    ensures UploadPath(StoredName(id1, ext1)) != UploadPath(StoredName(id2, ext2))
    ensures ResultPath(StoredName(id1, ext1)) != ResultPath(StoredName(id2, ext2))
  {
    var s1, s2 := StoredName(id1, ext1), StoredName(id2, ext2);
    if s1 == s2 {
      StoredNameInjective(id1, ext1, id2, ext2);
    }
    // The upload paths: an absolute stored name is its own path, a relative
    // one is joined onto the uploads folder.
    var abs1, abs2 := s1[0] == '/', s2[0] == '/';
    if abs1 && abs2 {
      assert UploadPath(s1) == s1 && UploadPath(s2) == s2;
    } else if !abs1 && !abs2 {
      if UploadPath(s1) == UploadPath(s2) {
        JoinInjective(UploadFolder, s1, s2);
      }
    } else {
      assert UploadPath(s1)[0] != UploadPath(s2)[0];
    }
    // The result paths are always joined onto the results folder.
    if ResultPath(s1) == ResultPath(s2) {
      JoinInjective(ResultFolder, ResultName(s1), ResultName(s2));
      ResultNameInjective(s1, s2);
    }
  }

  /** An upload path is never a result path: a relative stored name lands in
      the other folder, and an absolute one starts with '/'. */
  lemma UploadAndResultPathsDiffer(s1: string, s2: string)
    ensures UploadPath(s1) != ResultPath(s2)
  {
    var r := ResultName(s2);
    assert r[0] == 'r';
    assert ResultPath(s2) == ResultFolder + "/" + r;
    if |s1| > 0 && s1[0] == '/' {
      assert UploadPath(s1)[0] == '/' && ResultPath(s2)[0] == 's';
    } else {
      assert UploadPath(s1) == UploadFolder + "/" + s1;
      assert UploadPath(s1)[7] == 'u' && ResultPath(s2)[7] == 'r';
    }
  }
}
