/**
 The benchmark's dispatch loop: for each model, for each resolution folder
 with supported images, size batches once from the free GPU memory, slice
 the images into batches, time each batch on the predictor and record one
 row per image.

 The free-memory reading and the predictor's elapsed time are parameters:
 `freeMemory(model, folder)` is what the device reports when that folder is
 sized for that model, and `dispatch(model, batch)` is the wall-clock time
 of predicting every image of the batch.
 */
module Benchmark {
  import opened Strings
  import opened Seqs
  import opened ImageFiles
  import BatchSizing
  import Batching

  /** The Florence-2 variants benchmarked, in order. */
  const Models: seq<string> := [
    "microsoft/Florence-2-large-ft",
    "microsoft/Florence-2-large",
    "microsoft/Florence-2-base-ft",
    "microsoft/Florence-2-base"
  ]

  /** A resolution folder of the corpus: its path and its `os.listdir` entries. */
  datatype Folder = Folder(path: string, entries: seq<string>)

  /** Elapsed wall-clock seconds. */
  type Duration = t: real | t >= 0.0

  /** One result row: which model, which resolution folder, which image, and its share of the batch time. */
  datatype Row = Row(model: string, resolution: string, image: string, seconds: real)

  /** The images of a folder, as paths. */
  function Images(f: Folder): seq<string> {
    ImagePaths(f.path, f.entries)
  }

  /** The rows of one timed batch: each image is charged an equal share of the batch's time. */
  function BatchRows(model: string, resolution: string, batch: seq<string>, elapsed: Duration): seq<Row>
    requires |batch| > 0
  {
    seq(|batch|, i requires 0 <= i < |batch| =>
      Row(model, resolution, Basename(batch[i]), elapsed / (|batch| as real)))
  }

  /** Dispatch the batches in order, extending the rows with each batch's rows. */
  function DispatchRows(model: string, resolution: string, batches: seq<seq<string>>,
                        dispatch: (string, seq<string>) -> Duration): seq<Row>
    requires forall i :: 0 <= i < |batches| ==> |batches[i]| > 0
    decreases |batches|
  {
    if |batches| == 0 then []
    else
      BatchRows(model, resolution, batches[0], dispatch(model, batches[0]))
        + DispatchRows(model, resolution, batches[1..], dispatch)
  }

  /**
   The batches of one folder for one model: none when the folder has no
   supported image; otherwise the batch size is computed once, from the
   free memory read before the first batch, and the images are sliced with it.
   */
  function FolderBatches(model: string, f: Folder, freeMemory: (string, string) -> nat): (bs: seq<seq<string>>)
    ensures Flatten(bs) == Images(f)
    ensures forall i :: 0 <= i < |bs| ==> |bs[i]| > 0
  {
    var images := Images(f);
    if |images| == 0 then []
    else
      var size := BatchSizing.BatchSize(freeMemory(model, f.path), Basename(f.path), BatchSizing.DefaultFraction);
      Batching.Batches(images, size)
  }

  /** One folder for one model: its batches dispatched in order. */
  function FolderRows(model: string, f: Folder, freeMemory: (string, string) -> nat,
                      dispatch: (string, seq<string>) -> Duration): seq<Row>
  {
    DispatchRows(model, Basename(f.path), FolderBatches(model, f, freeMemory), dispatch)
  }

  function ModelRows(model: string, folders: seq<Folder>, freeMemory: (string, string) -> nat,
                     dispatch: (string, seq<string>) -> Duration): seq<Row>
    decreases |folders|
  {
    if |folders| == 0 then []
    else FolderRows(model, folders[0], freeMemory, dispatch) + ModelRows(model, folders[1..], freeMemory, dispatch)
  }

  /** The whole run, model-major: every folder for the first model, then every folder for the next. */
  function Run(models: seq<string>, folders: seq<Folder>, freeMemory: (string, string) -> nat,
               dispatch: (string, seq<string>) -> Duration): seq<Row>
  {
    ConcatMap(models, model => ModelRows(model, folders, freeMemory, dispatch))
  }

  /** `total_steps`: models times the number of entries of every folder whose listing is non-empty. */
  function TotalSteps(models: seq<string>, folders: seq<Folder>): nat {
    |models| * ListedCount(folders)
  }

  function ListedCount(folders: seq<Folder>): nat
    decreases |folders|
  {
    if |folders| == 0 then 0
    else (if |folders[0].entries| > 0 then |folders[0].entries| else 0) + ListedCount(folders[1..])
  }

  /** The number of supported images over all folders. */
  function ImageCount(folders: seq<Folder>): nat
    decreases |folders|
  {
    if |folders| == 0 then 0 else |Images(folders[0])| + ImageCount(folders[1..])
  }

  // ----- The plan the rows follow, independent of batching and timing -----

  datatype Key = Key(model: string, resolution: string, image: string)

  function KeysOf(rows: seq<Row>): (ks: seq<Key>)
    ensures |ks| == |rows|
  {
    seq(|rows|, i requires 0 <= i < |rows| => Key(rows[i].model, rows[i].resolution, rows[i].image))
  }

  function ImageKeys(model: string, resolution: string, images: seq<string>): (ks: seq<Key>)
    ensures |ks| == |images|
  {
    seq(|images|, i requires 0 <= i < |images| => Key(model, resolution, Basename(images[i])))
  }

  /** For each model, for each folder, for each supported image: the nested loop without batches. */
  function Plan(models: seq<string>, folders: seq<Folder>): seq<Key>
    decreases |models|
  {
    if |models| == 0 then [] else ModelPlan(models[0], folders) + Plan(models[1..], folders)
  }

  function ModelPlan(model: string, folders: seq<Folder>): seq<Key>
    decreases |folders|
  {
    if |folders| == 0 then []
    else ImageKeys(model, Basename(folders[0].path), Images(folders[0])) + ModelPlan(model, folders[1..])
  }

  lemma KeysOfAppend(a: seq<Row>, b: seq<Row>)
    ensures KeysOf(a + b) == KeysOf(a) + KeysOf(b)
  {
  }

  lemma ImageKeysAppend(model: string, resolution: string, a: seq<string>, b: seq<string>)
    ensures ImageKeys(model, resolution, a + b) == ImageKeys(model, resolution, a) + ImageKeys(model, resolution, b)
  {
  }

  /** Dispatching batches yields exactly one row per image of the concatenated batches, in order. */
  lemma {:induction false} DispatchRowsKeys(model: string, resolution: string, batches: seq<seq<string>>,
                                            dispatch: (string, seq<string>) -> Duration)
    requires forall i :: 0 <= i < |batches| ==> |batches[i]| > 0
    ensures KeysOf(DispatchRows(model, resolution, batches, dispatch)) == ImageKeys(model, resolution, Flatten(batches))
    decreases |batches|
  {
    if |batches| > 0 {
      var b := batches[0];
      DispatchRowsKeys(model, resolution, batches[1..], dispatch);
      KeysOfAppend(BatchRows(model, resolution, b, dispatch(model, b)), DispatchRows(model, resolution, batches[1..], dispatch));
      ImageKeysAppend(model, resolution, b, Flatten(batches[1..]));
    }
  }

  lemma {:induction false} ModelRowsKeys(model: string, folders: seq<Folder>, freeMemory: (string, string) -> nat,
                                         dispatch: (string, seq<string>) -> Duration)
    ensures KeysOf(ModelRows(model, folders, freeMemory, dispatch)) == ModelPlan(model, folders)
    decreases |folders|
  {
    if |folders| > 0 {
      var f := folders[0];
      ModelRowsKeys(model, folders[1..], freeMemory, dispatch);
      KeysOfAppend(FolderRows(model, f, freeMemory, dispatch), ModelRows(model, folders[1..], freeMemory, dispatch));
      DispatchRowsKeys(model, Basename(f.path), FolderBatches(model, f, freeMemory), dispatch);
    }
  }

  /**
   The rows of a run follow the plan exactly: one row per (model, folder,
   supported image), model-major, then folder order, then listing order,
   whatever the batch sizes and timings were.
   */
  lemma {:induction false} RunFollowsPlan(models: seq<string>, folders: seq<Folder>,
                                          freeMemory: (string, string) -> nat,
                                          dispatch: (string, seq<string>) -> Duration)
    ensures KeysOf(Run(models, folders, freeMemory, dispatch)) == Plan(models, folders)
    decreases |models|
  {
    if |models| > 0 {
      ModelRowsKeys(models[0], folders, freeMemory, dispatch);
      RunFollowsPlan(models[1..], folders, freeMemory, dispatch);
      KeysOfAppend(ModelRows(models[0], folders, freeMemory, dispatch), Run(models[1..], folders, freeMemory, dispatch));
    }
  }

  lemma {:induction false} ModelPlanLength(model: string, folders: seq<Folder>)
    ensures |ModelPlan(model, folders)| == ImageCount(folders)
    decreases |folders|
  {
    if |folders| > 0 {
      ModelPlanLength(model, folders[1..]);
    }
  }

  lemma {:induction false} PlanLength(models: seq<string>, folders: seq<Folder>)
    ensures |Plan(models, folders)| == |models| * ImageCount(folders)
    decreases |models|
  {
    if |models| > 0 {
      ModelPlanLength(models[0], folders);
      PlanLength(models[1..], folders);
      PlanStep(models, folders, ImageCount(folders));
    }
  }

  lemma PlanStep(models: seq<string>, folders: seq<Folder>, c: nat)
    requires |models| > 0
    requires |ModelPlan(models[0], folders)| == c
    requires |Plan(models[1..], folders)| == |models[1..]| * c
    ensures |Plan(models, folders)| == |models| * c
  {
    PlanCons(models, folders);
    CountOnce(|models|, c, |ModelPlan(models[0], folders)|, |Plan(models[1..], folders)|);
  }

  /** `n` lots of `c`: one lot plus `n - 1` more. */
  lemma CountOnce(n: nat, c: nat, head: nat, tail: nat)
    requires n > 0 && head == c && tail == (n - 1) * c
    ensures head + tail == n * c
  {
    Batching.CountStep(n - 1, c);
  }

  lemma PlanCons(models: seq<string>, folders: seq<Folder>)
    requires |models| > 0
    ensures |Plan(models, folders)| == |ModelPlan(models[0], folders)| + |Plan(models[1..], folders)|
  {
  }

  /** Every model gets one row per supported image of every folder. */
  lemma RunRowCount(models: seq<string>, folders: seq<Folder>, freeMemory: (string, string) -> nat,
                    dispatch: (string, seq<string>) -> Duration)
    ensures |Run(models, folders, freeMemory, dispatch)| == |models| * ImageCount(folders)
  {
    RunFollowsPlan(models, folders, freeMemory, dispatch);
    PlanLength(models, folders);
  }

  /** With at least one model and one supported image, a run records something. */
  lemma RunNotEmpty(models: seq<string>, folders: seq<Folder>, freeMemory: (string, string) -> nat,
                    dispatch: (string, seq<string>) -> Duration)
    requires |models| > 0 && ImageCount(folders) > 0
    ensures |Run(models, folders, freeMemory, dispatch)| > 0
  {
    RunRowCount(models, folders, freeMemory, dispatch);
    BatchSizing.MulAtLeastOnce(|models|, ImageCount(folders));
  }

  lemma {:induction false} ImagesWithinListing(folders: seq<Folder>)
    ensures ImageCount(folders) <= ListedCount(folders)
    decreases |folders|
  {
    if |folders| > 0 {
      ImagesWithinListing(folders[1..]);
    }
  }

  /**
   The progress total counts every directory entry while rows are only made
   for supported images, so a run never produces more rows than `total_steps`.
   */
  lemma RunWithinTotalSteps(models: seq<string>, folders: seq<Folder>, freeMemory: (string, string) -> nat,
                            dispatch: (string, seq<string>) -> Duration)
    ensures |Run(models, folders, freeMemory, dispatch)| <= TotalSteps(models, folders)
  {
    RunRowCount(models, folders, freeMemory, dispatch);
    ImagesWithinListing(folders);
    ScaleMono(|models|, ImageCount(folders), ListedCount(folders));
  }

  lemma ScaleMono(k: nat, a: nat, b: nat)
    requires a <= b
    ensures k * a <= k * b
  {
    assert k * b - k * a == k * (b - a);
  }

  /**
   The benchmark proper: each of the four models times every supported
   image once, within the progress total of four steps per listed entry.
   */
  lemma FlorenceRun(folders: seq<Folder>, freeMemory: (string, string) -> nat,
                    dispatch: (string, seq<string>) -> Duration)
    ensures |Run(Models, folders, freeMemory, dispatch)| == 4 * ImageCount(folders)
    ensures |Run(Models, folders, freeMemory, dispatch)| <= TotalSteps(Models, folders) == 4 * ListedCount(folders)
  {
    RunRowCount(Models, folders, freeMemory, dispatch);
    RunWithinTotalSteps(Models, folders, freeMemory, dispatch);
  }

  /** Model-major order: the rows of earlier models all come before those of later ones. */
  lemma RunModelMajor(first: seq<string>, later: seq<string>, folders: seq<Folder>,
                      freeMemory: (string, string) -> nat,
                      dispatch: (string, seq<string>) -> Duration)
    ensures Run(first + later, folders, freeMemory, dispatch)
            == Run(first, folders, freeMemory, dispatch) + Run(later, folders, freeMemory, dispatch)
  {
    ConcatMapAppend(first, later, model => ModelRows(model, folders, freeMemory, dispatch));
  }

  function Seconds(rows: seq<Row>): (ts: seq<real>)
    ensures |ts| == |rows|
    ensures forall i :: 0 <= i < |rows| ==> ts[i] == rows[i].seconds
  {
    seq(|rows|, i requires 0 <= i < |rows| => rows[i].seconds)
  }

  /** `n` equal shares. */
  function Shares(n: nat, share: real): (s: seq<real>)
    ensures |s| == n
    ensures forall i :: 0 <= i < n ==> s[i] == share
  {
    seq(n, i requires 0 <= i < n => share)
  }

  lemma {:induction false} SumOfShares(n: nat, share: real)
    ensures Sum(Shares(n, share)) == (n as real) * share
    decreases n
  {
    if n > 0 {
      assert Shares(n, share)[1..] == Shares(n - 1, share);
      SumOfShares(n - 1, share);
      assert Sum(Shares(n, share)) == share + ((n - 1) as real) * share;
    }
  }

  /**
   A batch's rows split its time evenly: every image gets the same
   non-negative share, and the shares add up to the batch's time.
   */
  lemma BatchTimeSplit(model: string, resolution: string, batch: seq<string>, elapsed: Duration)
    requires |batch| > 0
    ensures var rows := BatchRows(model, resolution, batch, elapsed);
      && |rows| == |batch|
      && (forall i :: 0 <= i < |rows| ==> rows[i].seconds >= 0.0 && rows[i].seconds == rows[0].seconds)
      && Sum(Seconds(rows)) == elapsed
  {
    BatchRowsEqual(model, resolution, batch, elapsed);
    BatchRowsSum(model, resolution, batch, elapsed);
  }

  lemma BatchRowsEqual(model: string, resolution: string, batch: seq<string>, elapsed: Duration)
    requires |batch| > 0
    ensures var rows := BatchRows(model, resolution, batch, elapsed);
      && |rows| == |batch|
      && (forall i :: 0 <= i < |rows| ==> rows[i].seconds >= 0.0 && rows[i].seconds == rows[0].seconds)
  {
    var share := elapsed / (|batch| as real);
    assert share >= 0.0;
  }

  lemma BatchRowsSum(model: string, resolution: string, batch: seq<string>, elapsed: Duration)
    requires |batch| > 0
    ensures Sum(Seconds(BatchRows(model, resolution, batch, elapsed))) == elapsed
  {
    BatchRowsSeconds(model, resolution, batch, elapsed);
    SharesAddUp(|batch|, elapsed);
  }

  /** `n` equal shares of `total` add up to `total`. */
  lemma SharesAddUp(n: nat, total: real)
    requires n > 0
    ensures Sum(Shares(n, total / (n as real))) == total
  {
    SumOfShares(n, total / (n as real));
    ShareTimesCount(total, n);
  }

  lemma BatchRowsSeconds(model: string, resolution: string, batch: seq<string>, elapsed: Duration)
    requires |batch| > 0
    ensures Seconds(BatchRows(model, resolution, batch, elapsed)) == Shares(|batch|, elapsed / (|batch| as real))
  {
  }

  lemma ShareTimesCount(elapsed: real, n: nat)
    requires n > 0
    ensures (n as real) * (elapsed / (n as real)) == elapsed
  {
  }

  // ----- The timed batch calls a run makes, and the time they take -----

  /** One timed call of `process_images_with_model`: the model and the batch of image paths. */
  datatype Call = Call(model: string, batch: seq<string>)

  function BatchCalls(model: string, batches: seq<seq<string>>): (cs: seq<Call>)
    ensures |cs| == |batches|
    ensures forall i :: 0 <= i < |batches| ==> cs[i] == Call(model, batches[i])
  {
    seq(|batches|, i requires 0 <= i < |batches| => Call(model, batches[i]))
  }

  function ModelCalls(model: string, folders: seq<Folder>, freeMemory: (string, string) -> nat): seq<Call>
    decreases |folders|
  {
    if |folders| == 0 then []
    else BatchCalls(model, FolderBatches(model, folders[0], freeMemory)) + ModelCalls(model, folders[1..], freeMemory)
  }

  /** Every call of the run, in the order the loop makes them. */
  function Calls(models: seq<string>, folders: seq<Folder>, freeMemory: (string, string) -> nat): seq<Call> {
    ConcatMap(models, model => ModelCalls(model, folders, freeMemory))
  }

  /** The elapsed time of each call. */
  function Elapsed(calls: seq<Call>, dispatch: (string, seq<string>) -> Duration): (ts: seq<real>)
    ensures |ts| == |calls|
  {
    seq(|calls|, i requires 0 <= i < |calls| => dispatch(calls[i].model, calls[i].batch) as real)
  }

  lemma SecondsAppend(a: seq<Row>, b: seq<Row>)
    ensures Seconds(a + b) == Seconds(a) + Seconds(b)
  {
  }

  lemma ElapsedAppend(a: seq<Call>, b: seq<Call>, dispatch: (string, seq<string>) -> Duration)
    ensures Elapsed(a + b, dispatch) == Elapsed(a, dispatch) + Elapsed(b, dispatch)
  {
  }

  /** The rows of dispatched batches carry, in total, exactly the time of those calls. */
  lemma {:induction false} DispatchRowsTime(model: string, resolution: string, batches: seq<seq<string>>,
                                            dispatch: (string, seq<string>) -> Duration)
    requires forall i :: 0 <= i < |batches| ==> |batches[i]| > 0
    ensures Sum(Seconds(DispatchRows(model, resolution, batches, dispatch)))
            == Sum(Elapsed(BatchCalls(model, batches), dispatch))
    decreases |batches|
  {
    if |batches| > 0 {
      var b := batches[0];
      var head := BatchRows(model, resolution, b, dispatch(model, b));
      var rest := DispatchRows(model, resolution, batches[1..], dispatch);
      SecondsAppend(head, rest);
      SumAppend(Seconds(head), Seconds(rest));
      BatchTimeSplit(model, resolution, b, dispatch(model, b));
      DispatchRowsTime(model, resolution, batches[1..], dispatch);
      assert BatchCalls(model, batches) == [Call(model, b)] + BatchCalls(model, batches[1..]);
      ElapsedAppend([Call(model, b)], BatchCalls(model, batches[1..]), dispatch);
      SumAppend(Elapsed([Call(model, b)], dispatch), Elapsed(BatchCalls(model, batches[1..]), dispatch));
    }
  }

  lemma {:induction false} ModelRowsTime(model: string, folders: seq<Folder>, freeMemory: (string, string) -> nat,
                                         dispatch: (string, seq<string>) -> Duration)
    ensures Sum(Seconds(ModelRows(model, folders, freeMemory, dispatch)))
            == Sum(Elapsed(ModelCalls(model, folders, freeMemory), dispatch))
    decreases |folders|
  {
    if |folders| > 0 {
      var f := folders[0];
      var head := FolderRows(model, f, freeMemory, dispatch);
      var rest := ModelRows(model, folders[1..], freeMemory, dispatch);
      var calls := BatchCalls(model, FolderBatches(model, f, freeMemory));
      DispatchRowsTime(model, Basename(f.path), FolderBatches(model, f, freeMemory), dispatch);
      ModelRowsTime(model, folders[1..], freeMemory, dispatch);
      SecondsAppend(head, rest);
      SumAppend(Seconds(head), Seconds(rest));
      ElapsedAppend(calls, ModelCalls(model, folders[1..], freeMemory), dispatch);
      SumAppend(Elapsed(calls, dispatch), Elapsed(ModelCalls(model, folders[1..], freeMemory), dispatch));
    }
  }

  /**
   The per-image times of a run add up to the total elapsed time of the
   timed batch calls it made: splitting a batch's time over its images loses
   and invents nothing.
   */
  lemma {:induction false} RunTime(models: seq<string>, folders: seq<Folder>, freeMemory: (string, string) -> nat,
                                   dispatch: (string, seq<string>) -> Duration)
    ensures Sum(Seconds(Run(models, folders, freeMemory, dispatch)))
            == Sum(Elapsed(Calls(models, folders, freeMemory), dispatch))
    decreases |models|
  {
    if |models| > 0 {
      var head := ModelRows(models[0], folders, freeMemory, dispatch);
      var rest := Run(models[1..], folders, freeMemory, dispatch);
      var calls := ModelCalls(models[0], folders, freeMemory);
      assert Run(models, folders, freeMemory, dispatch) == head + rest;
      assert Calls(models, folders, freeMemory) == calls + Calls(models[1..], folders, freeMemory);
      ModelRowsTime(models[0], folders, freeMemory, dispatch);
      RunTime(models[1..], folders, freeMemory, dispatch);
      SecondsAppend(head, rest);
      SumAppend(Seconds(head), Seconds(rest));
      ElapsedAppend(calls, Calls(models[1..], folders, freeMemory), dispatch);
      SumAppend(Elapsed(calls, dispatch), Elapsed(Calls(models[1..], folders, freeMemory), dispatch));
    }
  }
}

