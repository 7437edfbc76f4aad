/**
 `clean_keys`: rewrite the task markers in every dict key of a parsed
 result into readable names, throughout a JSON tree.
 */
module CleanKeys {
  import opened Strings
  import opened Seqs
  import opened Json

  const CaptionTag: string := "<CAPTION>"
  const CaptionName: string := "Caption"
  const DetailedTag: string := "<DETAILED_CAPTION>"
  const DetailedName: string := "Detailed Caption"
  const DetectionTag: string := "<OD>"
  const DetectionName: string := "Object Detection"

  /** The three `str.replace` calls, in the order the script chains them. */
  function CleanKey(k: string): string {
    Replace(Replace(Replace(k, CaptionTag, CaptionName), DetailedTag, DetailedName), DetectionTag, DetectionName)
  }

  predicate HasMarker(k: string) {
    Contains(k, CaptionTag) || Contains(k, DetailedTag) || Contains(k, DetectionTag)
  }

  /**
   The facts about the constants the replacement proofs need: each tag is
   a marker, each name is free of angle brackets and holds a lower-case
   letter that no tag has, so no name can occur inside a tag.
   */
  lemma TagsAndNames()
    ensures Marker(CaptionTag) && Marker(DetailedTag) && Marker(DetectionTag)
    ensures Plain(CaptionName) && Plain(DetailedName) && Plain(DetectionName)
    ensures forall q :: q in [CaptionTag, DetailedTag, DetectionTag] ==>
              !Contains(q, CaptionName) && !Contains(q, DetailedName) && !Contains(q, DetectionName)
  {
    var tags := [CaptionTag, DetailedTag, DetectionTag];
    forall q | q in tags
      ensures !Contains(q, CaptionName) && !Contains(q, DetailedName) && !Contains(q, DetectionName)
    {
      assert Lacks(q, 'a') && Lacks(q, 'e') && Lacks(q, 'b');
      NotContainedByChar(q, CaptionName, 1);
      NotContainedByChar(q, DetailedName, 1);
      NotContainedByChar(q, DetectionName, 1);
    }
  }

  /** After cleaning, a key holds none of the three markers. */
  lemma CleanKeyRemovesMarkers(k: string)
    ensures !HasMarker(CleanKey(k))
  {
    TagsAndNames();
    var k1 := Replace(k, CaptionTag, CaptionName);
    var k2 := Replace(k1, DetailedTag, DetailedName);
    ReplaceLeavesNoMarker(k, CaptionTag, CaptionName, CaptionTag);
    ReplaceLeavesNoMarker(k1, DetailedTag, DetailedName, CaptionTag);
    ReplaceLeavesNoMarker(k1, DetailedTag, DetailedName, DetailedTag);
    ReplaceLeavesNoMarker(k2, DetectionTag, DetectionName, CaptionTag);
    ReplaceLeavesNoMarker(k2, DetectionTag, DetectionName, DetailedTag);
    ReplaceLeavesNoMarker(k2, DetectionTag, DetectionName, DetectionTag);
  }

  /** Cleaning leaves a key unchanged exactly when it holds none of the markers. */
  lemma CleanKeyUnchangedIff(k: string)
    ensures CleanKey(k) == k <==> !HasMarker(k)
  {
    CleanKeyRemovesMarkers(k);
    if !HasMarker(k) {
      ReplaceAbsent(k, CaptionTag, CaptionName);
      ReplaceAbsent(k, DetailedTag, DetailedName);
      ReplaceAbsent(k, DetectionTag, DetectionName);
    }
  }

  /** A cleaned key is clean: none of the names contains `<`, so a second pass finds nothing. */
  lemma CleanKeyIdempotent(k: string)
    ensures CleanKey(CleanKey(k)) == CleanKey(k)
  {
    CleanKeyRemovesMarkers(k);
    CleanKeyUnchangedIff(CleanKey(k));
  }

  /** Dicts: keys rewritten, values cleaned; lists: cleaned element-wise; anything else as is. */
  function CleanKeys(j: Json): (r: Json)
    ensures !j.Object? && !j.Array? ==> r == j
    ensures j.Array? ==> r.Array? && |r.items| == |j.items|
    ensures j.Array? ==> forall i :: 0 <= i < |j.items| ==> r.items[i] == CleanKeys(j.items[i])
    ensures j.Object? ==> r.Object?
    decreases j
  {
    match j
    case Object(fs) => Object(Collect(CleanFields(fs)))
    case Array(items) => Array(seq(|items|, i requires 0 <= i < |items| => CleanKeys(items[i])))
    case _ => j
  }

  /** Each field with its key rewritten and its value cleaned, before the dict is rebuilt. */
  function CleanFields(fs: seq<Field>): (gs: seq<Field>)
    ensures |gs| == |fs|
    decreases fs
  {
    seq(|fs|, i requires 0 <= i < |fs| => Field(CleanKey(fs[i].key), CleanKeys(fs[i].value)))
  }

  /** Every dict in the tree has distinct keys, none holding a marker. */
  predicate Clean(j: Json)
    decreases j
  {
    match j
    case Object(fs) =>
      && Distinct(Keys(fs))
      && forall i :: 0 <= i < |fs| ==> !HasMarker(fs[i].key) && Clean(fs[i].value)
    case Array(items) => forall i :: 0 <= i < |items| ==> Clean(items[i])
    case _ => true
  }

  /**
   On a dict, the result is the dict `{clean(k): clean_keys(v)}` built in
   field order: its keys are the rewritten keys, distinct, in order of
   first appearance, and each is bound to the cleaned value of the last
   field whose key rewrites to it.
   */
  lemma CleanKeysDict(fs: seq<Field>)
    ensures var r := CleanKeys(Object(fs)).fields;
      && Distinct(Keys(r))
      && Keys(r) == Dedup(seq(|fs|, i requires 0 <= i < |fs| => CleanKey(fs[i].key)))
      && forall k :: Lookup(r, k) == Lookup(CleanFields(fs), k)
  {
    assert CleanKeys(Object(fs)).fields == Collect(CleanFields(fs));
    CollectIsDict(CleanFields(fs));
    CleanFieldsKeys(fs);
  }

  lemma CleanFieldsKeys(fs: seq<Field>)
    ensures Keys(CleanFields(fs)) == seq(|fs|, i requires 0 <= i < |fs| => CleanKey(fs[i].key))
  {
  }

  /** Whatever the input, the output is clean. */
  lemma {:induction false} CleanKeysIsClean(j: Json)
    ensures Clean(CleanKeys(j))
    decreases j
  {
    match j
    case Object(fs) =>
      var gs := CleanFields(fs);
      var c := Collect(gs);
      CollectIsDict(gs);
      forall i | 0 <= i < |c|
        ensures !HasMarker(c[i].key) && Clean(c[i].value)
      {
        assert c[i] in gs;
        var m :| 0 <= m < |gs| && gs[m] == c[i];
        CleanKeyRemovesMarkers(fs[m].key);
        CleanKeysIsClean(fs[m].value);
      }
    case Array(items) =>
      forall i | 0 <= i < |items|
        ensures Clean(CleanKeys(items[i]))
      {
        CleanKeysIsClean(items[i]);
      }
    case _ =>
  }

  /** A clean tree is left exactly as it is. */
  lemma {:induction false} CleanKeysKeepsClean(j: Json)
    requires Clean(j)
    ensures CleanKeys(j) == j
    decreases j
  {
    match j
    case Object(fs) =>
      forall i | 0 <= i < |fs|
        ensures CleanFields(fs)[i] == fs[i]
      {
        CleanKeyUnchangedIff(fs[i].key);
        CleanKeysKeepsClean(fs[i].value);
      }
      assert CleanFields(fs) == fs;
      CollectDistinct(fs);
    case Array(items) =>
      forall i | 0 <= i < |items|
        ensures CleanKeys(items[i]) == items[i]
      {
        CleanKeysKeepsClean(items[i]);
      }
      assert CleanKeys(j).items == items;
    case _ =>
  }

  /**
   Cleaning changes nothing exactly when every dict already has distinct,
   marker-free keys (as `json.loads` output with no marker keys does).
   */
  lemma CleanKeysUnchangedIff(j: Json)
    ensures CleanKeys(j) == j <==> Clean(j)
  {
    CleanKeysIsClean(j);
    if Clean(j) {
      CleanKeysKeepsClean(j);
    }
  }

  /** A second pass changes nothing. */
  lemma CleanKeysIdempotent(j: Json)
    ensures CleanKeys(CleanKeys(j)) == CleanKeys(j)
  {
    CleanKeysIsClean(j);
    CleanKeysKeepsClean(CleanKeys(j));
  }
}
