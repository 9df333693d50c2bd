/**
 * The upload path of a recipe image (recipe_image_file_path in core/models.py).
 *
 * The uploaded file keeps only its extension, the piece after the last '.',
 * which Python obtains as `filename.rsplit('.')[-1]`. Without a maximum split
 * count `rsplit` cuts at every '.', so the pieces are those of `Split` below.
 * The random `uuid.uuid4()` value is a parameter here, already formatted as
 * text.
 */
module RecipeImage {

  import opened Wrappers

  /** Directory every recipe image is stored under. */
  const UploadDir: string := "uploads/recipe/"

  /** The pieces joined back together, with '.' between neighbours. */
  function Join(parts: seq<string>): string
    decreases |parts|
  {
    if |parts| == 0 then ""
    else if |parts| == 1 then parts[0]
    else parts[0] + "." + Join(parts[1..])
  }

  /** `s.rsplit('.')`: the maximal dot-free pieces of `s`, in order. */
  function Split(s: string): (parts: seq<string>)
    ensures |parts| >= 1
    ensures forall i :: 0 <= i < |parts| ==> '.' !in parts[i]
    ensures Join(parts) == s
    decreases |s|
  {
    if s == [] then [""]
    else
      var rest := Split(s[1..]);
      if s[0] == '.' then
        [""] + rest
      else
        var parts := [[s[0]] + rest[0]] + rest[1..];
        assert Join(parts) == s by {
          if |rest| > 1 {
            assert Join(rest) == rest[0] + "." + Join(rest[1..]);
            assert Join(parts) == [s[0]] + rest[0] + "." + Join(rest[1..]);
          }
          assert s == [s[0]] + s[1..];
        }
        parts
  }

  /** `filename.rsplit('.')[-1]`: the last piece, a dot-free suffix of the name. */
  function Extension(filename: string): (ext: string)
    ensures '.' !in ext
    ensures |ext| <= |filename| && filename[|filename| - |ext|..] == ext
  {
    var parts := Split(filename);
    var last := parts[|parts| - 1];
    if |parts| == 1 then last
    else
      JoinLast(parts);
      assert filename == Join(parts[..|parts| - 1]) + "." + last;
      last
  }

  /**
   * recipe_image_file_path(instance, filename): the new name is the uuid and
   * the old extension. The one-argument `os.path.join` returns its argument
   * unchanged, so it does not appear. `instance` is never read.
   */
  function RecipeImageFilePath<I>(instance: I, filename: string, uuid: string): (path: string)
    ensures |path| > |UploadDir + uuid| && path[..|UploadDir + uuid|] == UploadDir + uuid
    ensures Extension(path) == Extension(filename)
  {
    var ext := Extension(filename);
    ExtensionOfStemAndExt(UploadDir + uuid, ext);
    UploadDir + uuid + "." + ext
  }

  // ---------------------------------------------------------------------
  // Split, as a reference definition

  /** A string without '.' is a single piece. */
  lemma {:induction false} SplitWithoutDot(s: string)
    requires '.' !in s
    ensures Split(s) == [s]
    decreases |s|
  {
    if s != [] {
      SplitWithoutDot(s[1..]);
      assert [s[0]] + s[1..] == s;
    }
  }

  /** Cutting at one '.' splits the pieces into those of each side. */
  lemma {:induction false} SplitAtDot(a: string, b: string)
    ensures Split(a + "." + b) == Split(a) + Split(b)
    decreases |a|
  {
    if a == [] {
      assert a + "." + b == ['.'] + b;
      assert (a + "." + b)[1..] == b;
    } else {
      assert (a + "." + b)[1..] == a[1..] + "." + b;
      SplitAtDot(a[1..], b);
    }
  }

  /** Any dot-free pieces that join to `s` are exactly `Split(s)`. */
  lemma {:induction false} SplitUnique(parts: seq<string>, s: string)
    requires |parts| >= 1
    requires forall i :: 0 <= i < |parts| ==> '.' !in parts[i]
    requires Join(parts) == s
    ensures Split(s) == parts
    decreases |parts|
  {
    if |parts| == 1 {
      SplitWithoutDot(s);
    } else {
      var tail := parts[1..];
      assert forall i :: 0 <= i < |tail| ==> '.' !in tail[i] by {
        forall i | 0 <= i < |tail| ensures '.' !in tail[i] { assert tail[i] == parts[i + 1]; }
      }
      SplitUnique(tail, Join(tail));
      SplitAtDot(parts[0], Join(tail));
      SplitWithoutDot(parts[0]);
      assert parts == [parts[0]] + tail;
    }
  }

  /** Joining splits off the last piece after the last '.'. */
  lemma {:induction false} JoinLast(parts: seq<string>)
    requires |parts| > 1
    ensures Join(parts) == Join(parts[..|parts| - 1]) + "." + parts[|parts| - 1]
    decreases |parts|
  {
    if |parts| > 2 {
      JoinLast(parts[1..]);
      assert parts[1..][..|parts| - 2] == parts[..|parts| - 1][1..];
    }
  }

  // ---------------------------------------------------------------------
  // Extension

  /**
   * The extension is the part of the filename after its last '.': a dot-free
   * suffix that is either the whole name (no '.' at all) or follows a '.'.
   */
  lemma ExtensionIsAfterLastDot(filename: string)
    ensures var ext := Extension(filename);
      && |ext| <= |filename|
      && filename[|filename| - |ext|..] == ext
      && '.' !in ext
      && (|ext| == |filename| <==> '.' !in filename)
      && (|ext| < |filename| ==> filename[|filename| - |ext| - 1] == '.')
  {
    var parts := Split(filename);
    var ext := parts[|parts| - 1];
    if |parts| > 1 {
      JoinLast(parts);
      var stem := Join(parts[..|parts| - 1]);
      assert filename == stem + "." + ext;
      assert filename[|stem|] == '.';
      assert filename[|filename| - |ext|..] == ext;
    }
  }

  /** A filename without '.' is its own extension. */
  lemma ExtensionWithoutDot(filename: string)
    requires '.' !in filename
    ensures Extension(filename) == filename
  {
    SplitWithoutDot(filename);
  }

  /** The stem never matters: whatever precedes the last '.' is dropped. */
  lemma ExtensionOfStemAndExt(stem: string, ext: string)
    requires '.' !in ext
    ensures Extension(stem + "." + ext) == ext
  {
    SplitAtDot(stem, ext);
    SplitWithoutDot(ext);
  }

  // ---------------------------------------------------------------------
  // The upload path

  /**
   * The path is `uploads/recipe/<uuid>.<ext>` with the filename's stem gone,
   * whatever the instance.
   */
  lemma PathOfStemAndExt<I>(instance: I, stem: string, ext: string, uuid: string)
    requires '.' !in ext
    ensures RecipeImageFilePath(instance, stem + "." + ext, uuid) == "uploads/recipe/" + uuid + "." + ext
  {
    ExtensionOfStemAndExt(stem, ext);
  }

  /**
   * For one uuid, two filenames give the same path exactly when they have
   * the same extension; the instances play no part.
   */
  lemma SamePathIffSameExtension<I>(i1: I, i2: I, f1: string, f2: string, uuid: string)
    ensures RecipeImageFilePath(i1, f1, uuid) == RecipeImageFilePath(i2, f2, uuid)
        <==> Extension(f1) == Extension(f2)
  {
    var n := |UploadDir + uuid + "."|;
    var p1, p2 := RecipeImageFilePath(i1, f1, uuid), RecipeImageFilePath(i2, f2, uuid);
    assert p1[n..] == Extension(f1);
    assert p2[n..] == Extension(f2);
  }

  /** The upload of `myimage.jpg` with uuid `test-uuid`, and no instance. */
  lemma MyImageJpgPath()
    ensures Extension("myimage.jpg") == "jpg"
    ensures RecipeImageFilePath(Option<int>.None, "myimage.jpg", "test-uuid") == "uploads/recipe/test-uuid.jpg"
  {
    var stem, ext := "myimage", "jpg";
    assert '.' !in ext;
    ExtensionOfStemAndExt(stem, ext);
    assert stem + "." + ext == "myimage.jpg";
    var path := UploadDir + "test-uuid" + "." + ext;
    assert path == "uploads/recipe/test-uuid.jpg";
  }
}
