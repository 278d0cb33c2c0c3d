/** Where image and label files live: saving uploads, listing images, the label
    file that belongs to an image, and deleting an image with its label file. */
module FileUtils {
  import opened Config
  import opened Storage
  import Text

  /** The last path component that is neither empty nor ".", as pathlib's
      `name` finds it after dropping empty and "." components. */
  function LastPart(parts: seq<string>): (r: string)
    ensures r == [] || (r != "." && r in parts)
  {
    if parts == [] then []
    else
      var last := parts[|parts| - 1];
      if last == [] || last == "." then LastPart(parts[..|parts| - 1]) else last
  }

  /** pathlib's `name`: the final component of a '/'-separated path, or the
      empty string when there is none. */
  function Name(path: string): (r: string)
    ensures '/' !in r && r != "."
  {
    LastPart(Text.SplitOn(path, '/'))
  }

  /** Position of the last `c`, or -1 when there is none (str.rfind). */
  function RFind(s: string, c: char): (r: int)
    ensures -1 <= r < |s|
    ensures 0 <= r ==> s[r] == c
    ensures forall j :: r < j < |s| ==> s[j] != c
  {
    if s == [] then -1
    else if s[|s| - 1] == c then |s| - 1
    else RFind(s[..|s| - 1], c)
  }

  /** pathlib's `stem`: the name without its last suffix, where a suffix starts at
      the last '.' unless that dot is the first or the last character of the name. */
  function Stem(path: string): (r: string)
    ensures '/' !in r
    ensures r == [] <==> Name(path) == []
  {
    var name := Name(path);
    var i := RFind(name, '.');
    if 0 < i < |name| - 1 then name[..i] else name
  }

  /** The label file of an image: `<annotations dir>/<stem>.txt`. */
  function AnnotationPath(imagePath: string): (r: string)
    ensures |r| == |AnnotationsDir| + |Stem(imagePath)| + 5
  {
    AnnotationsDir + "/" + Stem(imagePath) + ".txt"
  }

  /** A component appended after a '/' is the name of the longer path. */
  lemma NameOfChild(dir: string, x: string)
    requires x != [] && x != "." && '/' !in x
    ensures Name(dir + "/" + x) == x
  {
    Text.SplitOnLast(dir, '/', x);
  }

  /** Appending ".txt" to a non-empty stem adds a suffix the stem rule cuts again. */
  lemma StemOfText(stem: string)
    requires stem != [] && '/' !in stem
    ensures Stem(AnnotationsDir + "/" + stem + ".txt") == stem
  {
    var name := stem + ".txt";
    assert AnnotationsDir + "/" + stem + ".txt" == AnnotationsDir + "/" + name;
    NameOfChild(AnnotationsDir, name);
    assert name[|stem|] == '.';
    assert RFind(name, '.') == |stem|;
    assert name[..|stem|] == stem;
  }

  /** A name with no dot after its first character is its own stem: ".txt" is. */
  lemma StemOfDotText()
    ensures Stem(AnnotationsDir + "/.txt") == ".txt"
  {
    assert AnnotationsDir + "/.txt" == AnnotationsDir + "/" + ".txt";
    NameOfChild(AnnotationsDir, ".txt");
    assert ".txt"[0] == '.';
    assert RFind(".txt", '.') == 0;
  }

  /** Two images share a label file exactly when their stems agree, whatever
      their directories and extensions. */
  lemma AnnotationPathByStem(p: string, q: string)
    ensures AnnotationPath(p) == AnnotationPath(q) <==> Stem(p) == Stem(q)
  {
    var n := |AnnotationsDir| + 1;
    if AnnotationPath(p) == AnnotationPath(q) {
      assert AnnotationPath(p)[n..|AnnotationPath(p)| - 4] == Stem(p);
      assert AnnotationPath(q)[n..|AnnotationPath(q)| - 4] == Stem(q);
    }
  }

  /** Deriving a label path from a label path gives it back, except for an image
      path without a name, whose label file ".txt" has no suffix to cut. */
  lemma AnnotationPathIdempotent(p: string)
    ensures AnnotationPath(AnnotationPath(p)) == AnnotationPath(p) <==> Name(p) != []
  {
    if Name(p) != [] {
      StemOfText(Stem(p));
    } else {
      assert AnnotationPath(p) == AnnotationsDir + "/.txt";
      StemOfDotText();
      assert |AnnotationPath(AnnotationPath(p))| != |AnnotationPath(p)|;
    }
  }

  /** The stem of a child path is its name cut at the name's last dot, when
      that dot is neither the first nor the last character. */
  lemma StemAtDot(dir: string, name: string, i: nat)
    requires '/' !in name && 0 < i < |name| - 1 && name[i] == '.'
    requires forall j :: i < j < |name| ==> name[j] != '.'
    ensures Stem(dir + "/" + name) == name[..i]
  {
    assert name != ".";
    NameOfChild(dir, name);
  }

  /** The label file of `dir/stem.ext` is `<annotations dir>/stem.txt` for an
      extension that is one dot and at least one further character. */
  lemma AnnotationPathOfImage(dir: string, stem: string, ext: string)
    requires stem != [] && '/' !in stem
    requires |ext| >= 2 && ext[0] == '.' && '/' !in ext && '.' !in ext[1..]
    ensures AnnotationPath(dir + "/" + (stem + ext)) == AnnotationsDir + "/" + stem + ".txt"
  {
    var name := stem + ext;
    forall j | |stem| < j < |name|
      ensures name[j] != '.'
    {
      assert name[j] == ext[1..][j - |stem| - 1];
    }
    StemAtDot(dir, name, |stem|);
    assert name[..|stem|] == stem;
  }

  /** Images in different directories, with different extensions, but one stem
      share one label file. */
  lemma SharedStem(dir1: string, dir2: string, stem: string, ext1: string, ext2: string)
    requires stem != [] && '/' !in stem
    requires |ext1| >= 2 && ext1[0] == '.' && '/' !in ext1 && '.' !in ext1[1..]
    requires |ext2| >= 2 && ext2[0] == '.' && '/' !in ext2 && '.' !in ext2[1..]
    ensures AnnotationPath(dir1 + "/" + (stem + ext1)) == AnnotationPath(dir2 + "/" + (stem + ext2))
  {
    AnnotationPathOfImage(dir1, stem, ext1);
    AnnotationPathOfImage(dir2, stem, ext2);
  }

  /** delete_image_and_annotation: removes the image file if present and the
      label file derived from the image's stem if present. */
  method DeleteImageAndAnnotation(disk: Disk, imagePath: string)
    modifies disk
    ensures disk.images == old(disk.images) - {imagePath}
    ensures disk.texts == old(disk.texts) - {AnnotationPath(imagePath)}
  {
    if imagePath in disk.images {
      disk.images := disk.images - {imagePath};
    }
    var annotationPath := AnnotationsDir + "/" + Stem(imagePath) + ".txt";
    if annotationPath in disk.texts {
      disk.texts := disk.texts - {annotationPath};
    }
  }

  /** One uploaded file: its name and its bytes. */
  datatype Upload = Upload(name: string, data: seq<byte>)

  /** Where an upload is saved: `<uploads dir>/<name>`. */
  function UploadPath(name: string): string {
    UploadsDir + "/" + name
  }

  /** The image files after saving `uploads` in order; a later upload with the
      same name overwrites an earlier one. */
  function Stored(images: map<string, seq<byte>>, uploads: seq<Upload>): map<string, seq<byte>> {
    if uploads == [] then images
    else
      var last := uploads[|uploads| - 1];
      Stored(images, uploads[..|uploads| - 1])[UploadPath(last.name) := last.data]
  }

  /** Saving adds exactly the upload paths, keeps every other file, and leaves
      each upload path holding the last upload of that name. */
  lemma {:induction false} StoredContents(images: map<string, seq<byte>>, uploads: seq<Upload>)
    ensures forall p :: p in Stored(images, uploads) <==>
      p in images || exists k :: 0 <= k < |uploads| && p == UploadPath(uploads[k].name)
    ensures forall p :: (p in images && (forall k :: 0 <= k < |uploads| ==> p != UploadPath(uploads[k].name))
      ==> Stored(images, uploads)[p] == images[p])
    ensures forall k :: (0 <= k < |uploads| && (forall j :: k < j < |uploads| ==> uploads[j].name != uploads[k].name)
      ==> Stored(images, uploads)[UploadPath(uploads[k].name)] == uploads[k].data)
  {
    if uploads != [] {
      var front := uploads[..|uploads| - 1];
      StoredContents(images, front);
      var last := uploads[|uploads| - 1];
      forall k | 0 <= k < |uploads| - 1 && uploads[k].name != last.name
        ensures UploadPath(uploads[k].name) != UploadPath(last.name)
      {
        assert UploadPath(uploads[k].name)[|UploadsDir| + 1..] == uploads[k].name;
        assert UploadPath(last.name)[|UploadsDir| + 1..] == last.name;
      }
      assert forall k :: 0 <= k < |front| ==> front[k] == uploads[k];
    }
  }

  /** save_uploaded_files: writes each upload to the uploads directory in order
      and returns how many it saved and where. */
  method SaveUploadedFiles(disk: Disk, uploads: seq<Upload>) returns (count: nat, savedPaths: seq<string>)
    modifies disk
    ensures count == |savedPaths| == |uploads|
    ensures forall k :: 0 <= k < |uploads| ==> savedPaths[k] == UploadPath(uploads[k].name)
    ensures disk.images == Stored(old(disk.images), uploads)
    ensures disk.texts == old(disk.texts)
  {
    savedPaths := [];
    for i := 0 to |uploads|
      invariant |savedPaths| == i
      invariant forall k :: 0 <= k < i ==> savedPaths[k] == UploadPath(uploads[k].name)
      invariant disk.images == Stored(old(disk.images), uploads[..i])
      invariant disk.texts == old(disk.texts)
    {
      var filePath := UploadPath(uploads[i].name);
      disk.images := disk.images[filePath := uploads[i].data];
      savedPaths := savedPaths + [filePath];
      assert uploads[..i + 1][..i] == uploads[..i];
    }
    assert uploads[..|uploads|] == uploads;
    count := |savedPaths|;
  }

  predicate EndsWith(s: string, suffix: string) {
    |suffix| <= |s| && s[|s| - |suffix|..] == suffix
  }

  /** A file directly inside the uploads directory. */
  predicate InUploads(p: string) {
    |p| > |UploadsDir| + 1 && p[..|UploadsDir| + 1] == UploadsDir + "/" && '/' !in p[|UploadsDir| + 1..]
  }

  /** What the glob patterns `*<ext>` over the uploads directory match, for the
      listed extensions (case-sensitive, as on POSIX). */
  predicate IsListedImage(p: string) {
    InUploads(p) && exists k :: 0 <= k < |ImageExtensions| && EndsWith(p, ImageExtensions[k])
  }

  /** The order Python's sorted() puts strings in: code point by code point,
      a proper prefix first. */
  predicate StrLess(a: string, b: string) {
    if a == [] then b != []
    else if b == [] then false
    else if a[0] != b[0] then a[0] < b[0]
    else StrLess(a[1..], b[1..])
  }

  lemma {:induction false} StrLessIrreflexive(a: string)
    ensures !StrLess(a, a)
  {
    if a != [] {
      StrLessIrreflexive(a[1..]);
    }
  }

  lemma {:induction false} StrLessTransitive(a: string, b: string, c: string)
    requires StrLess(a, b) && StrLess(b, c)
    ensures StrLess(a, c)
  {
    if a != [] && b != [] && c != [] && a[0] == b[0] == c[0] {
      StrLessTransitive(a[1..], b[1..], c[1..]);
    }
  }

  lemma {:induction false} StrLessTotal(a: string, b: string)
    requires a != b
    ensures StrLess(a, b) || StrLess(b, a)
  {
    if a != [] && b != [] && a[0] == b[0] {
      assert a == [a[0]] + a[1..] && b == [b[0]] + b[1..];
      StrLessTotal(a[1..], b[1..]);
    }
  }

  predicate StrictlySorted(s: seq<string>) {
    forall i, j :: 0 <= i < j < |s| ==> StrLess(s[i], s[j])
  }

  /** Places `x` in a strictly sorted list; a string already present stays once. */
  function Insert(s: seq<string>, x: string): (r: seq<string>)
    requires StrictlySorted(s)
    ensures StrictlySorted(r)
    ensures forall p :: p in r <==> p in s || p == x
  {
    if s == [] then [x]
    else if x == s[0] then s
    else if StrLess(x, s[0]) then
      forall j | 0 <= j < |s|
        ensures StrLess(x, s[j])
      {
        if j > 0 {
          StrLessTransitive(x, s[0], s[j]);
        }
      }
      [x] + s
    else
      StrLessTotal(x, s[0]);
      var rest := Insert(s[1..], x);
      assert forall p :: p in rest ==> StrLess(s[0], p);
      [s[0]] + rest
  }

  /** get_image_paths: every file directly in the uploads directory whose name ends
      with a listed extension, collected extension by extension, then sorted. */
  method GetImagePaths(disk: Disk) returns (imagePaths: seq<string>)
    ensures StrictlySorted(imagePaths)
    ensures forall p :: p in imagePaths <==> p in disk.images && IsListedImage(p)
  {
    var found: seq<string> := [];
    for e := 0 to |ImageExtensions|
      invariant forall p :: p in found <==>
        p in disk.images && InUploads(p) && exists k :: 0 <= k < e && EndsWith(p, ImageExtensions[k])
    {
      var ext := ImageExtensions[e];
      var matches := set p | p in disk.images && InUploads(p) && EndsWith(p, ext);
      var before := found;
      while matches != {}
        invariant forall p :: p in found <==> p in before || (p in disk.images && InUploads(p) && EndsWith(p, ext) && p !in matches)
        invariant forall p :: p in matches ==> p in disk.images && InUploads(p) && EndsWith(p, ext)
        decreases |matches|
      {
        var p :| p in matches;
        found := found + [p];
        matches := matches - {p};
      }
    }
    imagePaths := [];
    for i := 0 to |found|
      invariant StrictlySorted(imagePaths)
      invariant forall p :: p in imagePaths <==> p in found[..i]
    {
      imagePaths := Insert(imagePaths, found[i]);
      assert found[..i + 1] == found[..i] + [found[i]];
    }
    assert found[..|found|] == found;
  }
}
