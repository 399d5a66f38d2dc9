/**
 The analysed datasets as the driver scripts see them: an ordered
 dictionary from dataset name to the final stage counters of that
 dataset's analyzer, and the sums of one stage's counter over the
 datasets whose names pass a filter.
 */
module Datasets {
  import opened Selection

  /** Name of the collision-data dataset and of the ttbar signal simulation. */
  const DataName: string := "Data"
  const SignalName: string := "TTbar"

  /** One entry of the analyzer dictionary. */
  datatype Entry = Entry(name: string, counts: StageCounts)

  function Names(ds: seq<Entry>): (ns: seq<string>)
    ensures |ns| == |ds|
    ensures forall i :: 0 <= i < |ds| ==> ns[i] == ds[i].name
  {
    if ds == [] then [] else [ds[0].name] + Names(ds[1..])
  }

  /** Dictionary keys are unique. */
  predicate DistinctNames(ds: seq<Entry>)
  {
    forall i, j :: 0 <= i < j < |ds| ==> ds[i].name != ds[j].name
  }

  /** `analyzers[name]`: the counters stored under a key the dictionary holds. */
  function Lookup(ds: seq<Entry>, name: string): (c: StageCounts)
    requires name in Names(ds)
    ensures exists i :: 0 <= i < |ds| && ds[i].name == name && ds[i].counts == c
  {
    if ds[0].name == name then ds[0].counts else Lookup(ds[1..], name)
  }

  /** Sum of the stage-`s` counter over the entries whose name passes `keep`. */
  function SumWhere(ds: seq<Entry>, s: Stage, keep: string -> bool): real
  {
    if ds == [] then 0.0
    else (if keep(ds[0].name) then ds[0].counts.Get(s) else 0.0) + SumWhere(ds[1..], s, keep)
  }

  // The name filters of the scripts.

  predicate IsData(name: string) { name == DataName }
  predicate IsSignal(name: string) { name == SignalName }
  /** Background in the sense of "neither data nor ttbar". */
  predicate IsBackground(name: string) { name != DataName && name != SignalName }
  /** Simulation: every dataset except data. */
  predicate IsMonteCarlo(name: string) { name != DataName }
  predicate AnyDataset(name: string) { true }

  /**
   Summing over a filter that is the disjoint union of two others on the
   names present gives the sum of the two partial sums.
   */
  lemma {:induction false} SumSplit(ds: seq<Entry>, s: Stage, keep: string -> bool, p: string -> bool, q: string -> bool)
    requires forall i :: 0 <= i < |ds| ==> (keep(ds[i].name) <==> p(ds[i].name) || q(ds[i].name))
    requires forall i :: 0 <= i < |ds| ==> !(p(ds[i].name) && q(ds[i].name))
    ensures SumWhere(ds, s, keep) == SumWhere(ds, s, p) + SumWhere(ds, s, q)
  {
    if ds != [] {
      assert forall i :: 1 <= i < |ds| ==> ds[1..][i - 1] == ds[i];
      SumSplit(ds[1..], s, keep, p, q);
    }
  }

  /** A filter no entry passes sums to zero. */
  lemma {:induction false} SumOfNone(ds: seq<Entry>, s: Stage, keep: string -> bool)
    requires forall i :: 0 <= i < |ds| ==> !keep(ds[i].name)
    ensures SumWhere(ds, s, keep) == 0.0
  {
    if ds != [] {
      assert forall i :: 1 <= i < |ds| ==> ds[1..][i - 1] == ds[i];
      SumOfNone(ds[1..], s, keep);
    }
  }

  /**
   With unique keys, summing over the single key `name` gives the counter
   stored under it: `analyzers[name].n_X`.
   */
  lemma {:induction false} SumOfOneName(ds: seq<Entry>, s: Stage, keep: string -> bool, name: string)
    requires DistinctNames(ds) && name in Names(ds)
    requires forall i :: 0 <= i < |ds| ==> (keep(ds[i].name) <==> ds[i].name == name)
    ensures SumWhere(ds, s, keep) == Lookup(ds, name).Get(s)
  {
    assert forall i :: 1 <= i < |ds| ==> ds[1..][i - 1] == ds[i];
    if ds[0].name == name {
      assert forall i :: 1 <= i < |ds| ==> ds[i].name != name;
      SumOfNone(ds[1..], s, keep);
    } else {
      SumOfOneName(ds[1..], s, keep, name);
    }
  }

  /** Counters that are non-negative in every entry the filter keeps have non-negative sums. */
  lemma {:induction false} SumNonNeg(ds: seq<Entry>, s: Stage, keep: string -> bool)
    requires forall i :: 0 <= i < |ds| && keep(ds[i].name) ==> ds[i].counts.Get(s) >= 0.0
    ensures SumWhere(ds, s, keep) >= 0.0
  {
    if ds != [] {
      assert forall i :: 1 <= i < |ds| ==> ds[1..][i - 1] == ds[i];
      SumNonNeg(ds[1..], s, keep);
    }
  }

  /**
   When every analyzer's counters decrease down the cascade, so do the
   sums over any filter: a later stage never sums to more than an earlier one.
   */
  lemma {:induction false} SumDecreasesDownCascade(ds: seq<Entry>, s: Stage, t: Stage, keep: string -> bool)
    requires forall i :: 0 <= i < |ds| ==> Monotone(ds[i].counts)
    requires s.Index() <= t.Index()
    ensures SumWhere(ds, t, keep) <= SumWhere(ds, s, keep)
  {
    if ds != [] {
      assert forall i :: 1 <= i < |ds| ==> ds[1..][i - 1] == ds[i];
      SumDecreasesDownCascade(ds[1..], s, t, keep);
    }
  }

  /** A larger filter sums to at least as much when the counters are non-negative. */
  lemma {:induction false} SumGrowsWithFilter(ds: seq<Entry>, s: Stage, small: string -> bool, large: string -> bool)
    requires forall i :: 0 <= i < |ds| ==> ds[i].counts.Get(s) >= 0.0
    requires forall i :: 0 <= i < |ds| ==> small(ds[i].name) ==> large(ds[i].name)
    ensures SumWhere(ds, s, small) <= SumWhere(ds, s, large)
  {
    if ds != [] {
      assert forall i :: 1 <= i < |ds| ==> ds[1..][i - 1] == ds[i];
      SumGrowsWithFilter(ds[1..], s, small, large);
    }
  }
}
