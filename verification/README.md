# Needle in a Haystack — a Dafny model of its core

Needle in a Haystack runs Florence-2 vision models over folders of images.
The models sit behind a predictor endpoint at `http://127.0.0.1:7860/`,
reached through `gradio_client`. This project models the logic of its
two driver scripts. The endpoint, the GPU, the clock and the file system
become parameters of the model.

- **The benchmark** (`haystack/benchmark.py`). It loops over models and
  resolution folders and sizes each folder's batches from free GPU memory.
  It slices the folder's supported images into batches and times each batch
  on the predictor. Every image gets one row holding an equal share of its
  batch's time. At the end the rows are grouped by (model, resolution). The
  group means are averaged per model and per resolution, and the least
  average of each is reported as the best. An empty result set reports
  that there is nothing to show.
- **The gallery builder** (`haystack/start.py`). It filters the image
  directory by extension and fails when nothing is left. It rewrites the
  model's task markers in result keys with `clean_keys`. It counts detected
  labels into `label_counts`, maps each image to its labels, builds the
  label treemap and names each annotated copy.

Modules, one per file:

| module | file | what it holds |
|---|---|---|
| `Strings` | strings.dfy | `str.replace`, `str.lower`, `endswith`, `split('.')[0]`, POSIX `os.path.join` / `basename` |
| `Seqs` | seqs.dfy | flatten, distinct, first-occurrence dedup, sum and mean, group-by over parallel key and value lists |
| `BatchSizing` | batch_sizing.dfy | `get_optimal_batch_size` and its memory table |
| `Batching` | batching.dfy | `images[i : i + batch_size]` over `range(0, len, batch_size)` |
| `ImageFiles` | image_files.dfy | the supported-extension filter both scripts use |
| `Benchmark` | benchmark.dfy | the dispatch loop, the rows, `total_steps` |
| `Summary` | summary.dfy | grouping, per-model and per-resolution averages, best selection |
| `Gallery` | gallery.dfy | image scan with its error case, annotated file name |
| `Json` | json.dfy | `json.loads` values and Python dict-building rules |
| `CleanKeys` | clean_keys.dfy | `clean_keys` |
| `Labels` | labels.dfy | `label_counts`, `image_labels_map`, the treemap |

The model's parameters:
- Free GPU memory is `freeMemory(model, folder)`.
- A batch's elapsed wall-clock time is `dispatch(model, batch)`, a non-negative real. It stands for the difference of two `time.time()` readings around the predictor calls.
- A folder is its path together with its `os.listdir` entries.
- The annotation timestamp is a string argument.

`Benchmark.FolderRows` reads the free memory and computes the batch size
once per folder, before the first batch. Every batch of the folder is then
sliced with that one size.

Times and the memory fraction are exact rationals: the default fraction 0.8
is `Fraction(4, 5)`. The source computes `free * 0.8 / per_image` in
floating point and truncates it with `int`. The model computes the same
quotient exactly and rounds it down.

The run's timed calls are listed by `Benchmark.Calls`: one call of
`process_images_with_model` per batch, in loop order. Their elapsed times
are what the per-image rows share out.

## Model

| member | source | states |
|---|---|---|
| `BatchSizing.BatchSize` | haystack/benchmark.py:155-172 | The batch size is at least 1. When it is more than 1, that many per-image estimates fit in the free memory times the fraction. One image more never fits. |
| `BatchSizing.BytesPerImageTable` | haystack/benchmark.py:156-162 | The per-image estimates are 50, 100, 200 and 400 MiB for 720p, 1080p, 1440p and 4k. Any other folder name costs 100 MiB, like 1080p. |
| `BatchSizing.BatchSizeOneWhenShort` | haystack/benchmark.py:167-172 | When the usable memory is below one image's estimate, the `max(1, …)` floor gives a batch of 1. |
| `BatchSizing.BatchSizeIsFloor` | haystack/benchmark.py:167-172 | Otherwise the batch size is exactly the usable memory divided by the per-image estimate, rounded down. |
| `BatchSizing.BatchSizeMonotone` | haystack/benchmark.py:155-172 | For one resolution, more free memory never gives a smaller batch. |
| `BatchSizing.SizingExample720p` | haystack/benchmark.py:155-172 | 200 MiB free for a 720p folder gives 160 MiB usable at the default fraction, which is a batch of 3. |
| `Batching.BatchesFrom` | haystack/benchmark.py:213-214 | The slices from an offset concatenate back to the rest of the list. Each slice holds 1 to `size` images and all but the last hold exactly `size`. There are none exactly when the offset is at the end. |
| `Batching.Batches` | haystack/benchmark.py:213-214 | The batches concatenate back to the whole image list. Each has 1 to `size` images and all but the last have exactly `size`. There are ceil(n / size) of them, so none for an empty list. |
| `Strings.ReplaceAbsent` | haystack/start.py:53-55 | `replace` of a pattern that does not occur returns the string unchanged. |
| `Strings.ReplaceLeavesNoMarker` | haystack/start.py:53-55 | Replacing a `<…>` marker by bracket-free text leaves no occurrence of that marker. It also creates no occurrence of another marker that was absent. |
| `Strings.Basename` | haystack/benchmark.py:202 | The basename holds no `/`, is a suffix of the path, and follows the path's last `/`. |
| `Strings.BasenameOfJoin` | haystack/benchmark.py:224 | The basename of `join(dir, name)` is `name` for a name without `/`. |
| `Strings.BeforeFirstDotIsDotFreePrefix` | haystack/start.py:115 | `split('.')[0]` is the longest prefix without a `.`: a prefix, dot-free, and either the whole string or followed by a `.`. |
| `ImageFiles.SupportedNames` | haystack/start.py:36-40 | The kept entries are exactly the listed entries whose lower-cased name ends in one of the four extensions. |
| `ImageFiles.SupportedNamesAppend` | haystack/benchmark.py:203-207 | Filtering keeps the listing's order: filtering two parts of a listing is filtering each part. |
| `ImageFiles.SupportedIgnoresCase` | haystack/start.py:33-39 | A name passes the filter exactly when its lower-cased form does. |
| `ImageFiles.ImagePathNames` | haystack/benchmark.py:203-207 | Each image path's basename is the directory entry it was built from, in listing order. |
| `Gallery.ScanImages` | haystack/start.py:36-43 | The scan fails, raising `FileNotFoundError`, exactly when no entry has a supported extension. Otherwise it yields the non-empty joined paths of the supported entries. |
| `Gallery.AnnotatedNameParts` | haystack/start.py:114-115 | The stem of `annotated_<stem>_<timestamp>.png` is the image's basename cut at its first dot. It holds no `.` or `/`. |
| `Json.PutLookup` | haystack/start.py:51-58 | After `d[k] = v` on a dict with distinct keys, `k` maps to `v` and every other key keeps its value. |
| `Json.CollectIsDict` | haystack/start.py:51-58 | A dict comprehension has distinct keys in order of first occurrence. Each key holds the value of its last assignment, and every stored field is one of the assignments. |
| `Json.CollectDistinct` | haystack/start.py:51-58 | Assignments with distinct keys build exactly the same field sequence. |
| `CleanKeys.TagsAndNames` | haystack/start.py:53-55 | The three task tags are `<…>` markers. Their readable names hold no angle brackets and occur in no tag. |
| `CleanKeys.CleanKeyRemovesMarkers` | haystack/start.py:53-55 | A rewritten key holds none of `<CAPTION>`, `<DETAILED_CAPTION>` or `<OD>`. |
| `CleanKeys.CleanKeyUnchangedIff` | haystack/start.py:53-55 | The key rewrite changes a key exactly when the key holds one of the three tags. |
| `CleanKeys.CleanKeyIdempotent` | haystack/start.py:53-55 | Rewriting a key twice gives the same key as rewriting it once. |
| `CleanKeys.CleanKeys` | haystack/start.py:49-62 | Scalars are returned as they are. A list stays a list of the same length whose i-th element is the cleaned i-th element. A dict stays a dict. |
| `CleanKeys.CleanKeysDict` | haystack/start.py:50-58 | A cleaned dict has distinct keys: the rewritten keys in order of first occurrence. Each key holds the cleaned value of the last field whose key rewrites to it. |
| `CleanKeys.CleanKeysIsClean` | haystack/start.py:49-62 | At every depth of the output, dict keys are distinct and free of the three tags. |
| `CleanKeys.CleanKeysKeepsClean` | haystack/start.py:49-62 | A tree that is already clean comes back unchanged. |
| `CleanKeys.CleanKeysUnchangedIff` | haystack/start.py:49-62 | `clean_keys` returns its input unchanged exactly when the input is clean. |
| `CleanKeys.CleanKeysIdempotent` | haystack/start.py:49-62 | Cleaning twice gives the same tree as cleaning once. |
| `Labels.BumpCounts` | haystack/start.py:103-104 | `label_counts[l] = get(l, 0) + 1` adds 1 to `l`'s count and changes no other count. A new label is appended and existing ones keep their positions. |
| `Labels.TallyCounts` | haystack/start.py:103-104 | After counting a label sequence there is one entry per distinct label, in first-occurrence order. Each entry holds that label's number of occurrences, and the counts add up to the number of labels. |
| `Labels.LabelIndexLast` | haystack/start.py:102 | The image-to-labels map holds exactly the processed paths. Each path maps to its last detection's labels. |
| `Labels.TreemapCounts` | haystack/start.py:157-162 | The treemap is named "Root" and has one child per distinct detected label. Each child's value is that label's occurrence count over all images. |
| `Benchmark.DispatchRowsKeys` | haystack/benchmark.py:213-229 | Dispatching the batches yields one row per image, in batch order, whatever the timings. |
| `Benchmark.ModelRowsKeys` | haystack/benchmark.py:201-229 | For one model, the rows follow the folders in order. A folder without images yields nothing, whatever its batch size. |
| `Benchmark.RunFollowsPlan` | haystack/benchmark.py:200-229 | The run's (model, resolution, image) rows are exactly the model-major plan. Batch sizes, free memory and timings do not change them. |
| `Benchmark.RunRowCount` | haystack/benchmark.py:200-229 | A completed run has exactly one row per model per supported image. |
| `Benchmark.ImagesWithinListing` | haystack/benchmark.py:194-196 | The supported images never outnumber the entries counted for `total_steps`. |
| `Benchmark.RunWithinTotalSteps` | haystack/benchmark.py:194-230 | The progress bar never advances past `total_steps`. |
| `Benchmark.RunModelMajor` | haystack/benchmark.py:200-201 | Running two model lists in turn gives the rows of the first list followed by the rows of the second. |
| `Benchmark.FolderBatches` | haystack/benchmark.py:203-214 | A folder's batches concatenate back to its supported images, and none is empty. |
| `Benchmark.BatchTimeSplit` | haystack/benchmark.py:219-228 | A batch's images all get the same non-negative share of its time, and the shares add up to the batch's time. |
| `Benchmark.DispatchRowsTime` | haystack/benchmark.py:213-228 | The rows of a folder's batches carry, in total, exactly the elapsed time of the timed calls made for those batches. |
| `Benchmark.ModelRowsTime` | haystack/benchmark.py:201-228 | For one model, the rows' times add up to the elapsed time of all its calls, folder by folder. |
| `Benchmark.RunTime` | haystack/benchmark.py:200-228 | The per-image times of a whole run add up to the elapsed time of every timed batch call the run made. |
| `Benchmark.FlorenceRun` | haystack/benchmark.py:29-34 | With the four Florence-2 models, a run has four rows per supported image, within `total_steps` of four per listed entry. |
| `Summary.GroupTimes` | haystack/benchmark.py:243-245 | A (model, resolution) group holds one time per row carrying that pair, so it has times exactly when some row carries the pair. A time is in the group exactly when some row with that pair has that time. Each time occurs in the group as often as (pair, time) occurs among the rows. |
| `Summary.GroupStatsFixed` | haystack/benchmark.py:243-245 | Any list of times with those multiplicities has the group's mean and sum, so the grouped table's `mean` and `sum` do not depend on the order of the rows. |
| `Summary.GroupsPartition` | haystack/benchmark.py:243-245 | Every row lands in exactly one line of the grouped table. Concatenating the groups' times in table order gives back the rows' times, each once. |
| `Summary.MeansFor` | haystack/benchmark.py:249 | The means averaged for a model or resolution are one per group carrying it. A mean is among them exactly when some group with that label has that mean. Each mean occurs as often as (label, mean) occurs among the groups. |
| `Summary.AverageFixed` | haystack/benchmark.py:249-253 | Any list of means with those multiplicities has the same average, so the per-model and per-resolution averages are fixed by the groups. |
| `Summary.AveragesPartition` | haystack/benchmark.py:249-255 | Every group's mean feeds exactly one per-model average and exactly one per-resolution average. |
| `Summary.ArgMin` | haystack/benchmark.py:250-251 | The chosen entry is one of the averages, and no average is lower. |
| `Summary.Summarize` | haystack/benchmark.py:240-263 | There are no results exactly when there are no rows. Otherwise the best model and the best resolution are among the averages, and no average beats them. |
| `Summary.GroupsArePairs` | haystack/benchmark.py:243-245 | The grouped table has exactly one line per (model, resolution) pair present in the rows. |
| `Summary.GroupTotalsPartition` | haystack/benchmark.py:243-245 | The groups partition the rows: the group sums add up to the total of all per-image times. |
| `Summary.AveragesCoverRows` | haystack/benchmark.py:249-255 | The per-model and per-resolution averages name each model or resolution occurring in the rows exactly once, and nothing else. |
| `Summary.RunHasReport` | haystack/benchmark.py:240-245 | A run with at least one model and one image has a report. Its group sums add up to the elapsed time of every timed batch call the run made. |

## Left out

- GPU queries are not modelled: NVML device handles, the statistics thread and `get_system_stats`. These are device I/O. Free memory is a parameter, and the per-row hardware statistics are not carried in `Row`.
- The predictor call (`client.predict` through `gradio_client`) is not modelled. It is a network call: its elapsed time is the `dispatch` parameter, and its results are discarded by the benchmark. Interruption with SIGINT or `KeyboardInterrupt`, `nvmlShutdown` and `sys.exit` are not modelled either.
- Failures of the NVML memory query are not modelled. `get_optimal_batch_size` does not catch them, so such an error ends the run. `freeMemory` is a total function.
- A failing predictor call is not modelled. `process_images_with_model` does not catch it, so the exception ends the run with no row for that batch. `dispatch` is a total function.
- Startup discovery and its errors are not modelled (haystack/benchmark.py:41-52). The model takes the resolution folders as its input.
- `BatchSizing.BatchSize`: the quotient is exact, not a float. The source multiplies by 0.8, divides and truncates in floating point. The two agree except when the float result lies within rounding error of a whole number.
- `Benchmark.BatchTimeSplit`: elapsed times are non-negative by type (`Duration`). The source subtracts two `time.time()` readings, which is negative if the wall clock is set back during a batch. The model assumes the clock does not step back.
- `Benchmark.BatchTimeSplit`, `Benchmark.DispatchRowsTime`, `Benchmark.ModelRowsTime`, `Benchmark.RunTime` and `Summary.RunHasReport`: each row's time is the exact share. The source rounds it with `round(…, 2)` as a float (haystack/benchmark.py:225). Each row's rounding can move the total by up to 0.005 s, so the rows' times add up to the elapsed time only up to that error per row. For example, a 1.0 s batch of 3 images gives rows of 0.33 s, which add up to 0.99 s.
- `Summary.Summarize`: the report's groups and averages are in first-appearance order. pandas sorts the group keys, and `idxmin` on a tie picks the first key in that sorted order. The model proves only that the best entry is a least average. On a tie it may name a different entry than pandas.
- The printing of the results is not modelled: the grouped table printed by pandas (`print(grouped)`, haystack/benchmark.py:246) and the best-model and best-resolution lines with their `.2f` formatting (haystack/benchmark.py:257-261). The `PrettyTable` live statistics display (haystack/benchmark.py:136-146) belongs to the statistics thread, left out above.
- `Benchmark.RunWithinTotalSteps` and `Benchmark.RunFollowsPlan`: the model reads each folder as one listing. The source calls `os.listdir` twice per folder to compute `total_steps` (haystack/benchmark.py:194-196) and once more per model when it collects the images (haystack/benchmark.py:205-209). The model assumes the directory does not change during the run and is listed in the same order each time. A file added after `total_steps` is computed could push the progress bar past it, and a change between models would give the models different images.
- `Strings.Basename` and `Strings.Join` follow POSIX `os.path` rules: `/` is the only separator. The scripts target Windows: start.py launches the server with `start cmd /k` (haystack/start.py:538), and benchmark.py clears the screen with `cls` there (haystack/benchmark.py:138). On Windows `ntpath` joins with `\` and splits on both `\` and `/`. `basename(join(d, f)) == f` holds under both rules for a file name without a separator, so no result of the model changes.
- `Strings.Lower`: lower-casing covers ASCII letters only. Python's `str.lower` also folds other Unicode letters. File extensions are ASCII, so the filter is unaffected.
- `Strings.Replace` requires a non-empty pattern. The three patterns `clean_keys` uses are non-empty.
- `json.loads` with its quote substitution is not modelled, nor its `JSONDecodeError` fallback. `Json` is the parsed value.
- Clearing the annotated directory is not modelled. Neither are PIL drawing, writing the JSON and HTML files, the HTML template, `reformat_result`, `subprocess` or `modal_title`. All are file I/O or presentation.
- The current time is not read. The timestamp is an argument of `Gallery.AnnotatedName`.
- The per-image prompt loop of `start.py` is not modelled (lines 71-91). It is I/O against the predictor, and its outcome enters the model as `Labels.Detection` values.
- `haystack/server.py` is not part of this model. It is a static `http.server` on port 8000 that opens `viewer.html` in a browser. `setup.py` is not part of this model either.
