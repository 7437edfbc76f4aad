/**
 The results summary: group the rows by (model, resolution) with the mean
 and sum of per-image time, average the group means per model and per
 resolution, and pick the model and the resolution with the least average;
 an empty result set reports that there is nothing to show.
 */
module Summary {
  import opened Seqs
  import opened Benchmark

  /** One line of the grouped table. */
  datatype Group = Group(model: string, resolution: string, mean: real, total: real)

  /** A model's or a resolution's mean of group means. */
  datatype Average = Average(name: string, mean: real)

  datatype Report =
    | NoResults
    | Results(groups: seq<Group>, byModel: seq<Average>, byResolution: seq<Average>,
              bestModel: Average, bestResolution: Average)

  datatype Pair = Pair(model: string, resolution: string)

  function PairsOf(rows: seq<Row>): (ps: seq<Pair>)
    ensures |ps| == |rows|
    ensures forall i :: 0 <= i < |rows| ==> ps[i] == Pair(rows[i].model, rows[i].resolution)
  {
    seq(|rows|, i requires 0 <= i < |rows| => Pair(rows[i].model, rows[i].resolution))
  }

  /** The times of the rows of one pair, in row order: the pair's group. */
  function GroupTimes(rows: seq<Row>, p: Pair): (ts: seq<real>)
    ensures |ts| == Count(PairsOf(rows), p)
    ensures |ts| > 0 <==> p in PairsOf(rows)
    ensures forall t :: t in ts <==> exists i :: 0 <= i < |rows| && PairsOf(rows)[i] == p && rows[i].seconds == t
    ensures forall t :: multiset(ts)[t] == multiset(Zip(PairsOf(rows), Seconds(rows)))[(p, t)]
  {
    SelectMembers(PairsOf(rows), Seconds(rows), p);
    SelectMultiplicity(PairsOf(rows), Seconds(rows), p);
    Select(PairsOf(rows), Seconds(rows), p)
  }

  /**
   The group's multiplicities fix its mean and its sum: any sequence
   holding each time as often as the pair's rows do has the group's mean
   and total.
   */
  lemma GroupStatsFixed(rows: seq<Row>, p: Pair, ts: seq<real>)
    requires p in PairsOf(rows)
    requires forall t :: multiset(ts)[t] == multiset(Zip(PairsOf(rows), Seconds(rows)))[(p, t)]
    ensures |ts| > 0
    ensures Mean(ts) == Mean(GroupTimes(rows, p)) && Sum(ts) == Sum(GroupTimes(rows, p))
  {
    SameCountsSameStats(GroupTimes(rows, p), ts, multiset(Zip(PairsOf(rows), Seconds(rows))), p);
  }

  /** One group per pair of `ps`, in that order. */
  function GroupsOver(rows: seq<Row>, ps: seq<Pair>): (gs: seq<Group>)
    requires forall i :: 0 <= i < |ps| ==> ps[i] in PairsOf(rows)
    ensures |gs| == |ps|
    ensures forall i :: 0 <= i < |ps| ==> gs[i].model == ps[i].model && gs[i].resolution == ps[i].resolution
    ensures forall i :: 0 <= i < |ps| ==>
              gs[i].mean == Mean(GroupTimes(rows, ps[i])) && gs[i].total == Sum(GroupTimes(rows, ps[i]))
    decreases |ps|
  {
    if |ps| == 0 then []
    else
      var ts := GroupTimes(rows, ps[0]);
      [Group(ps[0].model, ps[0].resolution, Mean(ts), Sum(ts))] + GroupsOver(rows, ps[1..])
  }

  /** `groupby(["Model", "Resolution"]).agg({"Time (s)": ["mean", "sum"]})` */
  function Groups(rows: seq<Row>): seq<Group> {
    var ps := Dedup(PairsOf(rows));
    GroupsOver(rows, ps)
  }

  /** Which column a second-level average groups by. */
  datatype Dim = ByModel | ByResolution

  function LabelOf(g: Group, d: Dim): string {
    match d
    case ByModel => g.model
    case ByResolution => g.resolution
  }

  function LabelsOf(groups: seq<Group>, d: Dim): (ls: seq<string>)
    ensures |ls| == |groups|
    ensures forall i :: 0 <= i < |groups| ==> ls[i] == LabelOf(groups[i], d)
  {
    seq(|groups|, i requires 0 <= i < |groups| => LabelOf(groups[i], d))
  }

  function Means(groups: seq<Group>): (ms: seq<real>)
    ensures |ms| == |groups|
    ensures forall i :: 0 <= i < |groups| ==> ms[i] == groups[i].mean
  {
    seq(|groups|, i requires 0 <= i < |groups| => groups[i].mean)
  }

  /** The means of the groups carrying `name` in column `d`, in table order. */
  function MeansFor(groups: seq<Group>, d: Dim, name: string): (ms: seq<real>)
    ensures |ms| == Count(LabelsOf(groups, d), name)
    ensures |ms| > 0 <==> name in LabelsOf(groups, d)
    ensures forall m :: m in ms <==>
              exists j :: 0 <= j < |groups| && LabelOf(groups[j], d) == name && groups[j].mean == m
    ensures forall m :: multiset(ms)[m] == multiset(Zip(LabelsOf(groups, d), Means(groups)))[(name, m)]
  {
    SelectMembers(LabelsOf(groups, d), Means(groups), name);
    SelectMultiplicity(LabelsOf(groups, d), Means(groups), name);
    Select(LabelsOf(groups, d), Means(groups), name)
  }

  /** Likewise, the multiplicities of the means behind an average fix that average. */
  lemma AverageFixed(groups: seq<Group>, d: Dim, name: string, ms: seq<real>)
    requires name in LabelsOf(groups, d)
    requires forall m :: multiset(ms)[m] == multiset(Zip(LabelsOf(groups, d), Means(groups)))[(name, m)]
    ensures |ms| > 0
    ensures Mean(ms) == Mean(MeansFor(groups, d, name))
  {
    SameCountsSameStats(MeansFor(groups, d, name), ms, multiset(Zip(LabelsOf(groups, d), Means(groups))), name);
  }

  /** `grouped["Time (s)"]["mean"].groupby(column).mean()` */
  function Averages(groups: seq<Group>, d: Dim): seq<Average> {
    var names := Dedup(LabelsOf(groups, d));
    seq(|names|, i requires 0 <= i < |names| => Average(names[i], Mean(MeansFor(groups, d, names[i]))))
  }

  /** `idxmin` and `min`: the first entry with the least mean. */
  function ArgMin(avgs: seq<Average>): (best: Average)
    requires |avgs| > 0
    ensures best in avgs
    ensures forall i :: 0 <= i < |avgs| ==> best.mean <= avgs[i].mean
    decreases |avgs|
  {
    if |avgs| == 1 then avgs[0]
    else
      var rest := ArgMin(avgs[1..]);
      assert forall i :: 1 <= i < |avgs| ==> avgs[i] == avgs[1..][i - 1];
      if avgs[0].mean <= rest.mean then avgs[0] else rest
  }

  /**
   The report: nothing to show exactly when there are no rows; otherwise
   the best model and the best resolution are among the averages and no
   average is lower than theirs.
   */
  function Summarize(rows: seq<Row>): (r: Report)
    ensures r.NoResults? <==> |rows| == 0
    ensures r.Results? ==>
      && r.bestModel in r.byModel
      && (forall a :: a in r.byModel ==> r.bestModel.mean <= a.mean)
      && r.bestResolution in r.byResolution
      && (forall a :: a in r.byResolution ==> r.bestResolution.mean <= a.mean)
  {
    if |rows| == 0 then NoResults
    else
      var groups := Groups(rows);
      assert PairsOf(rows)[0] in Dedup(PairsOf(rows));
      var byModel := Averages(groups, ByModel);
      var byResolution := Averages(groups, ByResolution);
      assert LabelsOf(groups, ByModel)[0] in Dedup(LabelsOf(groups, ByModel));
      assert LabelsOf(groups, ByResolution)[0] in Dedup(LabelsOf(groups, ByResolution));
      Results(groups, byModel, byResolution, ArgMin(byModel), ArgMin(byResolution))
  }

  /** The (model, resolution) key of each group, in table order. */
  function GroupPairs(groups: seq<Group>): (ps: seq<Pair>)
    ensures |ps| == |groups|
    ensures forall i :: 0 <= i < |groups| ==> ps[i] == Pair(groups[i].model, groups[i].resolution)
  {
    seq(|groups|, i requires 0 <= i < |groups| => Pair(groups[i].model, groups[i].resolution))
  }

  /** The grouped table has one line per (model, resolution) pair present in the rows, and no other. */
  lemma GroupsArePairs(rows: seq<Row>)
    ensures Distinct(GroupPairs(Groups(rows)))
    ensures forall p :: p in GroupPairs(Groups(rows)) <==> p in PairsOf(rows)
  {
    var ps := Dedup(PairsOf(rows));
    assert GroupPairs(Groups(rows)) == ps;
  }

  function Totals(groups: seq<Group>): (ts: seq<real>)
    ensures |ts| == |groups|
  {
    seq(|groups|, i requires 0 <= i < |groups| => groups[i].total)
  }

  lemma {:induction false} TotalsOver(rows: seq<Row>, ps: seq<Pair>)
    requires forall i :: 0 <= i < |ps| ==> ps[i] in PairsOf(rows)
    ensures Sum(Totals(GroupsOver(rows, ps))) == Sum(SelectAll(PairsOf(rows), Seconds(rows), ps))
    decreases |ps|
  {
    if |ps| > 0 {
      var gs := GroupsOver(rows, ps);
      assert Totals(gs)[1..] == Totals(GroupsOver(rows, ps[1..]));
      TotalsOver(rows, ps[1..]);
      SumAppend(GroupTimes(rows, ps[0]), SelectAll(PairsOf(rows), Seconds(rows), ps[1..]));
    }
  }

  /**
   Every row lands in exactly one line of the grouped table: concatenating
   the groups' times in table order gives back the rows' times, each once.
   */
  lemma GroupsPartition(rows: seq<Row>)
    ensures multiset(SelectAll(PairsOf(rows), Seconds(rows), GroupPairs(Groups(rows)))) == multiset(Seconds(rows))
    ensures |SelectAll(PairsOf(rows), Seconds(rows), GroupPairs(Groups(rows)))| == |rows|
  {
    var ps := Dedup(PairsOf(rows));
    assert GroupPairs(Groups(rows)) == ps;
    SelectAllCovers(PairsOf(rows), Seconds(rows), ps);
    assert |multiset(Seconds(rows))| == |rows|;
  }

  /**
   The groups partition the rows: the group sums add up to the total of all
   per-image times.
   */
  lemma GroupTotalsPartition(rows: seq<Row>)
    ensures Sum(Totals(Groups(rows))) == Sum(Seconds(rows))
  {
    var ps := Dedup(PairsOf(rows));
    TotalsOver(rows, ps);
    SelectAllCovers(PairsOf(rows), Seconds(rows), ps);
    SumPermutation(SelectAll(PairsOf(rows), Seconds(rows), ps), Seconds(rows));
  }

  function AverageNames(avgs: seq<Average>): (ns: seq<string>)
    ensures |ns| == |avgs|
    ensures forall i :: 0 <= i < |avgs| ==> ns[i] == avgs[i].name
  {
    seq(|avgs|, i requires 0 <= i < |avgs| => avgs[i].name)
  }

  /** A row's value in column `d`. */
  function RowLabel(r: Row, d: Dim): string {
    match d
    case ByModel => r.model
    case ByResolution => r.resolution
  }

  /**
   The per-model (per-resolution) averages name each model (resolution)
   that occurs in the rows exactly once, and nothing else.
   */
  lemma AveragesCoverRows(rows: seq<Row>, d: Dim)
    ensures Distinct(AverageNames(Averages(Groups(rows), d)))
    ensures forall n :: n in AverageNames(Averages(Groups(rows), d))
                        <==> exists i :: 0 <= i < |rows| && RowLabel(rows[i], d) == n
  {
    var gs := Groups(rows);
    var names := Dedup(LabelsOf(gs, d));
    assert AverageNames(Averages(gs, d)) == names;
    GroupsArePairs(rows);
    forall n
      ensures n in names <==> exists i :: 0 <= i < |rows| && RowLabel(rows[i], d) == n
    {
      if n in names {
        LabelFromRow(rows, d, n);
      }
      if exists i :: 0 <= i < |rows| && RowLabel(rows[i], d) == n {
        var i :| 0 <= i < |rows| && RowLabel(rows[i], d) == n;
        LabelOfRow(rows, d, i);
      }
    }
  }

  lemma LabelFromRow(rows: seq<Row>, d: Dim, n: string)
    requires forall p :: p in GroupPairs(Groups(rows)) <==> p in PairsOf(rows)
    requires n in LabelsOf(Groups(rows), d)
    ensures exists i :: 0 <= i < |rows| && RowLabel(rows[i], d) == n
  {
    var gs := Groups(rows);
    var j :| 0 <= j < |gs| && LabelOf(gs[j], d) == n;
    var p := GroupPairs(gs)[j];
    assert p in GroupPairs(gs);
    var i :| 0 <= i < |rows| && PairsOf(rows)[i] == p;
    assert RowLabel(rows[i], d) == n;
  }

  lemma LabelOfRow(rows: seq<Row>, d: Dim, i: int)
    requires forall p :: p in GroupPairs(Groups(rows)) <==> p in PairsOf(rows)
    requires 0 <= i < |rows|
    ensures RowLabel(rows[i], d) in LabelsOf(Groups(rows), d)
  {
    var gs := Groups(rows);
    var p := PairsOf(rows)[i];
    assert p in PairsOf(rows);
    var j :| 0 <= j < |gs| && GroupPairs(gs)[j] == p;
    assert LabelsOf(gs, d)[j] == RowLabel(rows[i], d);
  }

  /**
   Every group's mean feeds exactly one per-model (per-resolution) average:
   concatenating the means behind each average, in order, gives back the
   groups' means, each once.
   */
  lemma AveragesPartition(groups: seq<Group>, d: Dim)
    ensures multiset(SelectAll(LabelsOf(groups, d), Means(groups), AverageNames(Averages(groups, d))))
            == multiset(Means(groups))
  {
    var names := Dedup(LabelsOf(groups, d));
    assert AverageNames(Averages(groups, d)) == names;
    SelectAllCovers(LabelsOf(groups, d), Means(groups), names);
  }

  /** Non-empty rows always give a report whose groups account for all of their time. */
  lemma ReportOf(rows: seq<Row>)
    requires |rows| > 0
    ensures Summarize(rows).Results?
    ensures Sum(Totals(Summarize(rows).groups)) == Sum(Seconds(rows))
  {
    GroupTotalsPartition(rows);
  }

  /**
   A finished run with at least one model and one image has a report, and
   its groups' totals add up to the elapsed time of every timed batch
   call the run made.
   */
  lemma RunHasReport(models: seq<string>, folders: seq<Folder>, freeMemory: (string, string) -> nat,
                     dispatch: (string, seq<string>) -> Duration)
    requires |models| > 0 && ImageCount(folders) > 0
    ensures Summarize(Run(models, folders, freeMemory, dispatch)).Results?
    ensures Sum(Totals(Summarize(Run(models, folders, freeMemory, dispatch)).groups))
            == Sum(Elapsed(Calls(models, folders, freeMemory), dispatch))
  {
    RunNotEmpty(models, folders, freeMemory, dispatch);
    ReportOf(Run(models, folders, freeMemory, dispatch));
    RunTime(models, folders, freeMemory, dispatch);
  }
}
