/**
 JSON-like values as `json.loads` returns them: scalars, lists, and dicts
 whose string keys keep insertion order. A dict is a sequence of fields;
 building one from a sequence of assignments follows Python's dict rules.
 */
module Json {
  import opened Seqs

  datatype Option<T> = None | Some(value: T)

  datatype Json =
    | Null
    | Bool(b: bool)
    | Number(n: real)
    | Str(s: string)
    | Array(items: seq<Json>)
    | Object(fields: seq<Field>)

  datatype Field = Field(key: string, value: Json)

  function Keys(fs: seq<Field>): (ks: seq<string>)
    ensures |ks| == |fs|
    ensures forall i :: 0 <= i < |fs| ==> ks[i] == fs[i].key
  {
    seq(|fs|, i requires 0 <= i < |fs| => fs[i].key)
  }

  /** The value `k` is bound to after the assignments `fs`, performed in order: the last one wins. */
  function Lookup(fs: seq<Field>, k: string): Option<Json>
    decreases |fs|
  {
    if |fs| == 0 then None
    else if fs[|fs| - 1].key == k then Some(fs[|fs| - 1].value)
    else Lookup(fs[..|fs| - 1], k)
  }

  /** `d[k] = v`: an existing key keeps its position and takes the new value; a new key goes last. */
  function Put(fs: seq<Field>, k: string, v: Json): seq<Field>
    decreases |fs|
  {
    if |fs| == 0 then [Field(k, v)]
    else if fs[0].key == k then [Field(k, v)] + fs[1..]
    else [fs[0]] + Put(fs[1..], k, v)
  }

  /** `{k: v for k, v in fs}`: the dict built by assigning each field in turn. */
  function Collect(fs: seq<Field>): seq<Field>
    decreases |fs|
  {
    if |fs| == 0 then []
    else Put(Collect(fs[..|fs| - 1]), fs[|fs| - 1].key, fs[|fs| - 1].value)
  }

  lemma {:induction false} PutKeys(fs: seq<Field>, k: string, v: Json)
    ensures Keys(Put(fs, k, v)) == if k in Keys(fs) then Keys(fs) else Keys(fs) + [k]
    ensures forall f :: f in Put(fs, k, v) ==> f in fs || f == Field(k, v)
    decreases |fs|
  {
    if |fs| > 0 && fs[0].key != k {
      PutKeys(fs[1..], k, v);
      assert Keys(fs) == [fs[0].key] + Keys(fs[1..]);
      assert forall f :: f in fs[1..] ==> f in fs;
    } else if |fs| > 0 {
      assert Keys(Put(fs, k, v)) == [k] + Keys(fs[1..]);
      assert Keys(fs) == [fs[0].key] + Keys(fs[1..]);
      assert forall f :: f in fs[1..] ==> f in fs;
    }
  }

  lemma {:induction false} LookupCons(f: Field, fs: seq<Field>, k: string)
    requires k !in Keys(fs) || f.key != k
    ensures Lookup([f] + fs, k) == if k in Keys(fs) then Lookup(fs, k) else if f.key == k then Some(f.value) else None
    decreases |fs|
  {
    if |fs| > 0 {
      var front := fs[..|fs| - 1];
      assert ([f] + fs)[..|fs|] == [f] + front;
      assert Keys(fs) == Keys(front) + [fs[|fs| - 1].key];
      if fs[|fs| - 1].key != k {
        LookupCons(f, front, k);
      }
    }
  }

  lemma {:induction false} LookupAbsent(fs: seq<Field>, k: string)
    requires k !in Keys(fs)
    ensures Lookup(fs, k) == None
    decreases |fs|
  {
    if |fs| > 0 {
      assert Keys(fs[..|fs| - 1]) == Keys(fs)[..|fs| - 1];
      LookupAbsent(fs[..|fs| - 1], k);
    }
  }

  /** With distinct keys, assigning `k` rebinds `k` and nothing else. */
  lemma {:induction false} PutLookup(fs: seq<Field>, k: string, v: Json, k': string)
    requires Distinct(Keys(fs))
    ensures Lookup(Put(fs, k, v), k') == if k' == k then Some(v) else Lookup(fs, k')
    decreases |fs|
  {
    if |fs| > 0 {
      DistinctHead(fs);
      if fs[0].key == k {
        PutLookupAtHead(fs, k, v, k');
      } else {
        PutLookup(fs[1..], k, v, k');
        PutLookupPastHead(fs, k, v, k');
      }
    }
  }

  lemma DistinctHead(fs: seq<Field>)
    requires |fs| > 0 && Distinct(Keys(fs))
    ensures Distinct(Keys(fs[1..]))
    ensures fs[0].key !in Keys(fs[1..])
  {
    var tail := fs[1..];
    assert Keys(tail) == Keys(fs)[1..];
    forall i | 0 <= i < |tail|
      ensures tail[i].key != fs[0].key
    {
      assert Keys(fs)[i + 1] == tail[i].key;
    }
  }

  lemma PutLookupAtHead(fs: seq<Field>, k: string, v: Json, k': string)
    requires |fs| > 0 && fs[0].key == k && k !in Keys(fs[1..])
    ensures Lookup(Put(fs, k, v), k') == if k' == k then Some(v) else Lookup(fs, k')
  {
    var tail := fs[1..];
    assert fs == [fs[0]] + tail;
    assert Put(fs, k, v) == [Field(k, v)] + tail;
    LookupCons(Field(k, v), tail, k');
    LookupCons(fs[0], tail, k');
    if k' == k {
      LookupAbsent(tail, k);
    }
  }

  lemma PutLookupPastHead(fs: seq<Field>, k: string, v: Json, k': string)
    requires |fs| > 0 && fs[0].key != k && fs[0].key !in Keys(fs[1..])
    requires Lookup(Put(fs[1..], k, v), k') == if k' == k then Some(v) else Lookup(fs[1..], k')
    ensures Lookup(Put(fs, k, v), k') == if k' == k then Some(v) else Lookup(fs, k')
  {
    var tail := fs[1..];
    assert fs == [fs[0]] + tail;
    assert Put(fs, k, v) == [fs[0]] + Put(tail, k, v);
    PutKeys(tail, k, v);
    LookupCons(fs[0], Put(tail, k, v), k');
    LookupCons(fs[0], tail, k');
    if k' == fs[0].key {
      LookupAbsent(tail, k');
      LookupAbsent(Put(tail, k, v), k');
    }
  }

  lemma {:induction false} PutDistinct(fs: seq<Field>, k: string, v: Json)
    requires Distinct(Keys(fs))
    ensures Distinct(Keys(Put(fs, k, v)))
  {
    PutKeys(fs, k, v);
  }

  /**
   The dict built from a sequence of assignments: keys are distinct and in
   order of first assignment, every key maps to the value of its last
   assignment, and every entry is one of the assignments.
   */
  lemma {:induction false} CollectIsDict(fs: seq<Field>)
    ensures Distinct(Keys(Collect(fs)))
    ensures Keys(Collect(fs)) == Dedup(Keys(fs))
    ensures forall k :: Lookup(Collect(fs), k) == Lookup(fs, k)
    ensures forall f :: f in Collect(fs) ==> f in fs
    decreases |fs|
  {
    if |fs| > 0 {
      var front := fs[..|fs| - 1];
      var last := fs[|fs| - 1];
      CollectIsDict(front);
      var c := Collect(front);
      PutKeys(c, last.key, last.value);
      PutDistinct(c, last.key, last.value);
      assert Keys(front) == Keys(fs)[..|fs| - 1];
      assert last.key in Keys(c) <==> last.key in Keys(front);
      forall k
        ensures Lookup(Collect(fs), k) == Lookup(fs, k)
      {
        PutLookup(c, last.key, last.value, k);
      }
      assert forall f :: f in front ==> f in fs;
    }
  }

  /** A sequence of fields with distinct keys already is a dict: building one from it changes nothing. */
  lemma {:induction false} CollectDistinct(fs: seq<Field>)
    requires Distinct(Keys(fs))
    ensures Collect(fs) == fs
    decreases |fs|
  {
    if |fs| > 0 {
      var front := fs[..|fs| - 1];
      var last := fs[|fs| - 1];
      assert Keys(front) == Keys(fs)[..|fs| - 1];
      CollectDistinct(front);
      assert last.key !in Keys(front) by {
        forall i | 0 <= i < |front|
          ensures front[i].key != last.key
        {
          assert Keys(fs)[i] == front[i].key;
        }
      }
      PutAbsent(front, last.key, last.value);
      assert fs == front + [last];
    }
  }

  lemma {:induction false} PutAbsent(fs: seq<Field>, k: string, v: Json)
    requires k !in Keys(fs)
    ensures Put(fs, k, v) == fs + [Field(k, v)]
    decreases |fs|
  {
    if |fs| > 0 {
      assert Keys(fs[1..]) == Keys(fs)[1..];
      PutAbsent(fs[1..], k, v);
      assert fs == [fs[0]] + fs[1..];
    }
  }
}
