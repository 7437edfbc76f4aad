/**
 The supported-extension filter both scripts apply to a directory listing:
 keep `f` when `f.lower().endswith((".jpg", ".jpeg", ".png", ".webp"))`,
 and join the kept names onto the directory.
 */
module ImageFiles {
  import opened Strings

  /** `supported_formats`, matched against the lower-cased file name. */
  const Formats: seq<string> := [".jpg", ".jpeg", ".png", ".webp"]

  predicate Supported(name: string) {
    exists i :: 0 <= i < |Formats| && EndsWith(Lower(name), Formats[i])
  }

  /** The supported entries of a listing, in listing order. */
  function SupportedNames(entries: seq<string>): (names: seq<string>)
    ensures |names| <= |entries|
    ensures forall x :: x in names <==> x in entries && Supported(x)
    decreases |entries|
  {
    if |entries| == 0 then []
    else
      var rest := SupportedNames(entries[1..]);
      assert forall x :: x in entries <==> x == entries[0] || x in entries[1..] by {
        assert entries == [entries[0]] + entries[1..];
      }
      if Supported(entries[0]) then [entries[0]] + rest else rest
  }

  /** Filtering a listing in two parts is filtering each part: the order of the listing is kept. */
  lemma {:induction false} SupportedNamesAppend(a: seq<string>, b: seq<string>)
    ensures SupportedNames(a + b) == SupportedNames(a) + SupportedNames(b)
    decreases |a|
  {
    if |a| > 0 {
      assert (a + b)[0] == a[0];
      assert (a + b)[1..] == a[1..] + b;
      SupportedNamesAppend(a[1..], b);
    } else {
      assert a + b == b;
    }
  }

  /** The test ignores case: a name passes exactly when its lower-cased form does. */
  lemma SupportedIgnoresCase(name: string)
    ensures Supported(name) <==> Supported(Lower(name))
  {
    assert Lower(Lower(name)) == Lower(name);
  }

  /** `[os.path.join(dir, f) for f in os.listdir(dir) if supported(f)]` */
  function ImagePaths(dir: string, entries: seq<string>): seq<string> {
    var names := SupportedNames(entries);
    seq(|names|, i requires 0 <= i < |names| => Join(dir, names[i]))
  }

  /**
   Directory entries hold no `/`, so the basename of every image path is the
   supported entry it was built from, in listing order.
   */
  lemma ImagePathNames(dir: string, entries: seq<string>)
    requires forall e :: e in entries ==> Lacks(e, '/')
    ensures |ImagePaths(dir, entries)| == |SupportedNames(entries)|
    ensures forall i :: 0 <= i < |ImagePaths(dir, entries)| ==>
              Basename(ImagePaths(dir, entries)[i]) == SupportedNames(entries)[i]
  {
    var names := SupportedNames(entries);
    forall i | 0 <= i < |names|
      ensures Basename(Join(dir, names[i])) == names[i]
    {
      assert names[i] in entries;
      BasenameOfJoin(dir, names[i]);
    }
  }
}
