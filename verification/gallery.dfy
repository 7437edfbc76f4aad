/**
 The gallery script's file handling: scanning the image directory, which
 fails when nothing in it is supported, and naming the annotated copy of
 an image.
 */
module Gallery {
  import opened Strings
  import opened ImageFiles

  datatype Scan = Found(paths: seq<string>) | NoImages

  /**
   The images of the input directory, or `NoImages` (the script raises
   `FileNotFoundError`) when no entry has a supported extension.
   */
  function ScanImages(dir: string, entries: seq<string>): (r: Scan)
    ensures r.NoImages? <==> forall e :: e in entries ==> !Supported(e)
    ensures r.Found? ==> |r.paths| > 0 && r.paths == ImagePaths(dir, entries)
  {
    var paths := ImagePaths(dir, entries);
    if |paths| == 0 then NoImages
    else
      assert SupportedNames(entries)[0] in entries;
      Found(paths)
  }

  const AnnotatedPrefix: string := "annotated_"
  const AnnotatedSuffix: string := ".png"

  /** What follows the stem: `_`, the timestamp, `.png`. */
  function AnnotatedTail(timestamp: string): string {
    "_" + timestamp + AnnotatedSuffix
  }

  /**
   `f"annotated_{os.path.basename(path).split('.')[0]}_{timestamp}.png"`;
   the timestamp is the caller's formatted clock reading.
   */
  function AnnotatedName(path: string, timestamp: string): string {
    AnnotatedPrefix + BeforeFirstDot(Basename(path)) + AnnotatedTail(timestamp)
  }

  /**
   Reading an annotated name back: whatever sits between `annotated_` and
   the final `_` + timestamp + `.png` is the image's basename cut at its
   first dot, a stem with no `.` and no `/`.
   */
  lemma AnnotatedNameParts(path: string, timestamp: string, stem: string)
    requires AnnotatedName(path, timestamp) == AnnotatedPrefix + stem + AnnotatedTail(timestamp)
    ensures StartsWith(Basename(path), stem)
    ensures Lacks(stem, '.') && Lacks(stem, '/')
    ensures stem == Basename(path) || Basename(path)[|stem|] == '.'
  {
    var base := Basename(path);
    SameMiddle(AnnotatedPrefix, BeforeFirstDot(base), stem, AnnotatedTail(timestamp));
    BeforeFirstDotIsDotFreePrefix(base);
    assert forall i :: 0 <= i < |stem| ==> stem[i] == base[..|stem|][i];
  }
}
