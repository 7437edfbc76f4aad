/**
 Label bookkeeping of the gallery script: for each image's detections, the
 image-to-labels map and the running `label_counts` dict, and the treemap
 built from the counts.
 */
module Labels {
  import opened Seqs

  /** One image's object-detection outcome: its path and its labels, in detection order. */
  datatype Detection = Detection(path: string, labels: seq<string>)

  /** One entry of `label_counts`, which keeps insertion order. */
  datatype LabelCount = LabelCount(key: string, count: nat)

  datatype Leaf = Leaf(name: string, value: nat)
  datatype Treemap = Treemap(name: string, children: seq<Leaf>)

  function Names(counts: seq<LabelCount>): (ns: seq<string>)
    ensures |ns| == |counts|
    ensures forall i :: 0 <= i < |counts| ==> ns[i] == counts[i].key
  {
    seq(|counts|, i requires 0 <= i < |counts| => counts[i].key)
  }

  /** `label_counts.get(label, 0)` */
  function CountOf(counts: seq<LabelCount>, key: string): nat
    decreases |counts|
  {
    if |counts| == 0 then 0
    else if counts[0].key == key then counts[0].count
    else CountOf(counts[1..], key)
  }

  function Total(counts: seq<LabelCount>): nat
    decreases |counts|
  {
    if |counts| == 0 then 0 else counts[0].count + Total(counts[1..])
  }

  /** `label_counts[label] = label_counts.get(label, 0) + 1` */
  function Bump(counts: seq<LabelCount>, key: string): seq<LabelCount>
    decreases |counts|
  {
    if |counts| == 0 then [LabelCount(key, 1)]
    else if counts[0].key == key then [LabelCount(key, counts[0].count + 1)] + counts[1..]
    else [counts[0]] + Bump(counts[1..], key)
  }

  /** The counts after bumping every label of `labels`, in order, from an empty dict. */
  function Tally(labels: seq<string>): seq<LabelCount>
    decreases |labels|
  {
    if |labels| == 0 then []
    else Bump(Tally(labels[..|labels| - 1]), labels[|labels| - 1])
  }

  /** Every label of every image, image by image. */
  function AllLabels(ds: seq<Detection>): seq<string> {
    Flatten(seq(|ds|, i requires 0 <= i < |ds| => ds[i].labels))
  }

  /** `label_counts` once every image has been processed. */
  function LabelCounts(ds: seq<Detection>): seq<LabelCount> {
    Tally(AllLabels(ds))
  }

  /** `{"name": "Root", "children": [{"name": l, "value": c} for l, c in label_counts.items()]}` */
  function BuildTreemap(counts: seq<LabelCount>): Treemap {
    Treemap("Root", seq(|counts|, i requires 0 <= i < |counts| => Leaf(counts[i].key, counts[i].count)))
  }

  function Paths(ds: seq<Detection>): (ps: seq<string>)
    ensures |ps| == |ds|
    ensures forall i :: 0 <= i < |ds| ==> ps[i] == ds[i].path
  {
    seq(|ds|, i requires 0 <= i < |ds| => ds[i].path)
  }

  /** `image_labels_map[path] = labels` for each image in turn. */
  function LabelIndex(ds: seq<Detection>): map<string, seq<string>>
    decreases |ds|
  {
    if |ds| == 0 then map[]
    else LabelIndex(ds[..|ds| - 1])[ds[|ds| - 1].path := ds[|ds| - 1].labels]
  }

  /**
   The image-to-labels map holds exactly the processed paths, and each path
   maps to the labels of its last detection.
   */
  lemma {:induction false} LabelIndexLast(ds: seq<Detection>)
    ensures forall p :: p in LabelIndex(ds) <==> p in Paths(ds)
    ensures forall i :: 0 <= i < |ds| && ds[i].path !in Paths(ds[i + 1..]) ==>
              LabelIndex(ds)[ds[i].path] == ds[i].labels
    decreases |ds|
  {
    if |ds| > 0 {
      var n := |ds| - 1;
      var front := ds[..n];
      LabelIndexLast(front);
      assert Paths(ds) == Paths(front) + [ds[n].path];
      forall i | 0 <= i < n && ds[i].path !in Paths(ds[i + 1..])
        ensures LabelIndex(ds)[ds[i].path] == ds[i].labels
      {
        LastInFront(ds, i);
      }
    }
  }

  /** A detection that is the last for its path stays so without the final detection, which is for another path. */
  lemma LastInFront(ds: seq<Detection>, i: int)
    requires 0 <= i < |ds| - 1 && ds[i].path !in Paths(ds[i + 1..])
    ensures ds[i].path != ds[|ds| - 1].path
    ensures ds[..|ds| - 1][i] == ds[i]
    ensures ds[i].path !in Paths(ds[..|ds| - 1][i + 1..])
  {
    var n := |ds| - 1;
    assert ds[n] == ds[i + 1..][n - i - 1];
    assert Paths(ds[..n][i + 1..]) == Paths(ds[i + 1..])[..n - i - 1];
  }

  /**
   Bumping a label adds one to its count and to the total, appends it when
   new, and keeps every other entry where it was.
   */
  lemma BumpCounts(counts: seq<LabelCount>, key: string)
    ensures forall l :: CountOf(Bump(counts, key), l) == CountOf(counts, l) + (if l == key then 1 else 0)
    ensures Total(Bump(counts, key)) == Total(counts) + 1
    ensures Names(Bump(counts, key)) == if key in Names(counts) then Names(counts) else Names(counts) + [key]
    ensures (forall i :: 0 <= i < |counts| ==> counts[i].count >= 1) ==>
              forall i :: 0 <= i < |Bump(counts, key)| ==> Bump(counts, key)[i].count >= 1
  {
    forall l
      ensures CountOf(Bump(counts, key), l) == CountOf(counts, l) + (if l == key then 1 else 0)
    {
      BumpCountOf(counts, key, l);
    }
    BumpTotal(counts, key);
    BumpNames(counts, key);
    BumpPositive(counts, key);
  }

  lemma {:induction false} BumpCountOf(counts: seq<LabelCount>, key: string, l: string)
    ensures CountOf(Bump(counts, key), l) == CountOf(counts, l) + (if l == key then 1 else 0)
    decreases |counts|
  {
    if |counts| > 0 && counts[0].key != key {
      assert Bump(counts, key)[1..] == Bump(counts[1..], key);
      BumpCountOf(counts[1..], key, l);
    }
  }

  lemma {:induction false} BumpTotal(counts: seq<LabelCount>, key: string)
    ensures Total(Bump(counts, key)) == Total(counts) + 1
    decreases |counts|
  {
    if |counts| > 0 {
      if counts[0].key == key {
        assert Bump(counts, key)[1..] == counts[1..];
      } else {
        assert Bump(counts, key)[1..] == Bump(counts[1..], key);
        BumpTotal(counts[1..], key);
      }
    }
  }

  lemma {:induction false} BumpNames(counts: seq<LabelCount>, key: string)
    ensures Names(Bump(counts, key)) == if key in Names(counts) then Names(counts) else Names(counts) + [key]
    decreases |counts|
  {
    if |counts| > 0 {
      var tail := counts[1..];
      var head := counts[0].key;
      assert counts == [counts[0]] + tail;
      NamesCons(counts[0], tail);
      if head == key {
        NamesCons(LabelCount(key, counts[0].count + 1), tail);
      } else {
        BumpNames(tail, key);
        NamesCons(counts[0], Bump(tail, key));
        assert key in Names(counts) <==> key in Names(tail);
        if key !in Names(tail) {
          assert [head] + (Names(tail) + [key]) == ([head] + Names(tail)) + [key];
        }
      }
    }
  }

  lemma NamesCons(c: LabelCount, cs: seq<LabelCount>)
    ensures Names([c] + cs) == [c.key] + Names(cs)
  {
    var a := Names([c] + cs);
    var b := [c.key] + Names(cs);
    forall i | 0 <= i < |a|
      ensures a[i] == b[i]
    {
      if i > 0 {
        assert ([c] + cs)[i] == cs[i - 1];
      }
    }
  }

  lemma {:induction false} BumpPositive(counts: seq<LabelCount>, key: string)
    ensures (forall i :: 0 <= i < |counts| ==> counts[i].count >= 1) ==>
              forall i :: 0 <= i < |Bump(counts, key)| ==> Bump(counts, key)[i].count >= 1
    decreases |counts|
  {
    if |counts| > 0 && counts[0].key != key {
      assert Bump(counts, key)[1..] == Bump(counts[1..], key);
      BumpPositive(counts[1..], key);
      assert forall i :: 0 <= i < |counts[1..]| ==> counts[1..][i] == counts[i + 1];
    }
  }

  /**
   The tally of a label sequence: one entry per distinct label, in order of
   first occurrence, each carrying that label's number of occurrences (so
   at least 1), and the counts add up to the number of labels.
   */
  lemma {:induction false} TallyCounts(labels: seq<string>)
    ensures Names(Tally(labels)) == Dedup(labels)
    ensures Distinct(Names(Tally(labels)))
    ensures forall l :: CountOf(Tally(labels), l) == multiset(labels)[l]
    ensures forall i :: 0 <= i < |Tally(labels)| ==> Tally(labels)[i].count >= 1
    ensures Total(Tally(labels)) == |labels|
    decreases |labels|
  {
    if |labels| > 0 {
      var front := labels[..|labels| - 1];
      var last := labels[|labels| - 1];
      TallyCounts(front);
      BumpCounts(Tally(front), last);
      LastLabel(labels);
    }
  }

  /** Splitting off the last label, for the multiset and for `Dedup`. */
  lemma LastLabel(labels: seq<string>)
    requires |labels| > 0
    ensures var front, last := labels[..|labels| - 1], labels[|labels| - 1];
      && multiset(labels) == multiset(front) + multiset{last}
      && Dedup(labels) == if last in Dedup(front) then Dedup(front) else Dedup(front) + [last]
  {
    assert labels == labels[..|labels| - 1] + [labels[|labels| - 1]];
  }

  /** With distinct labels, the first entry for a label is its own. */
  lemma {:induction false} CountOfEntry(counts: seq<LabelCount>, i: nat)
    requires Distinct(Names(counts)) && i < |counts|
    ensures CountOf(counts, counts[i].key) == counts[i].count
    decreases i
  {
    if i > 0 {
      assert Names(counts[1..]) == Names(counts)[1..];
      assert Names(counts)[0] != Names(counts)[i];
      CountOfEntry(counts[1..], i - 1);
    }
  }

  /**
   The treemap has one child per distinct detected label, and each child's
   value is that label's number of occurrences across all images; the
   values add up to the total number of labels.
   */
  lemma TreemapCounts(ds: seq<Detection>)
    ensures var t := BuildTreemap(LabelCounts(ds));
      && t.name == "Root"
      && (forall i, j :: 0 <= i < j < |t.children| ==> t.children[i].name != t.children[j].name)
      && (forall l :: (exists i :: 0 <= i < |t.children| && t.children[i].name == l) <==> l in AllLabels(ds))
      && (forall i :: 0 <= i < |t.children| ==> t.children[i].value == multiset(AllLabels(ds))[t.children[i].name])
      && Total(LabelCounts(ds)) == |AllLabels(ds)|
  {
    var counts := LabelCounts(ds);
    var t := BuildTreemap(counts);
    TallyCounts(AllLabels(ds));
    forall i | 0 <= i < |t.children|
      ensures t.children[i].value == multiset(AllLabels(ds))[t.children[i].name]
    {
      CountOfEntry(counts, i);
    }
    forall l
      ensures (exists i :: 0 <= i < |t.children| && t.children[i].name == l) <==> l in AllLabels(ds)
    {
      assert l in Names(counts) <==> l in AllLabels(ds);
      if l in Names(counts) {
        var i :| 0 <= i < |counts| && Names(counts)[i] == l;
        assert t.children[i].name == l;
      }
    }
  }
}
