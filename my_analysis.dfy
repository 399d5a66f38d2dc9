/**
 The cross-section measurement of the first analysis script: background
 summed over an explicit list of processes, simulation over every key but
 data, the consistency check of the dataset sums, the efficiency and
 purity after every stage, and the cross section with its uncertainty.
 */
module MyAnalysis {
  import opened Selection
  import opened Estimator
  import opened Datasets
  import MyAnalysis2

  /** The background processes this script sums over, by dictionary key. */
  const BkgProcesses: seq<string> := ["QCD", "Diboson", "DY+jets", "single top", "W+jets"]

  predicate IsListedBackground(name: string) { name in BkgProcesses }

  /** A key that is neither data, nor ttbar, nor a listed background. */
  predicate IsUnlisted(name: string) { IsBackground(name) && !IsListedBackground(name) }

  /** Every key of the dictionary is data, ttbar or a listed background. */
  predicate KeysCovered(ds: seq<Entry>)
  {
    forall i :: 0 <= i < |ds| ==> IsData(ds[i].name) || IsSignal(ds[i].name) || IsListedBackground(ds[i].name)
  }

  /** No listed background is named like the data or the ttbar sample. */
  lemma ListedBackgroundIsBackground(name: string)
    requires IsListedBackground(name)
    ensures IsBackground(name)
  {
    assert name == BkgProcesses[0] || name == BkgProcesses[1] || name == BkgProcesses[2]
      || name == BkgProcesses[3] || name == BkgProcesses[4];
    assert DataName[0] == 'D' && SignalName[0] == 'T';
    assert DataName[1] == 'a' && SignalName[1] == 'T';
  }

  // ---------------------------------------------------------------------
  // Cross section
  // ---------------------------------------------------------------------

  /**
   Cross section with its uncertainty, both squared; `relDelXsSq` is the
   square of the relative uncertainty as a plain fraction.
   */
  datatype CrossSectionResult = CrossSectionResult(xs: real, delXsSq: real, relDelXsSq: real)

  /**
   The cross section measured from selected data and background, given
   the selected and generated signal: efficiency from the signal counts,
   then data minus background over luminosity times efficiency.
   */
  function CalculateXs(nData: real, nBkg: real, nSigSel: real, nSigTot: real, lumi: real, delLumi: real): (r: CrossSectionResult)
    requires nSigTot != 0.0 && nSigSel != 0.0 && lumi != 0.0
    requires nData != nBkg
    ensures r.xs * (lumi * Fraction(nSigSel, nSigTot)) == nData - nBkg && r.xs != 0.0
    ensures Pow2(r.xs) > 0.0 && r.relDelXsSq == r.delXsSq / Pow2(r.xs)
  {
    var e := Fraction(nSigSel, nSigTot);
    var delESq := RatioUncertaintySq(nSigSel, nSigTot);
    var xs := CrossSection(nData, nBkg, lumi, e);
    var delXsSq := CrossSectionUncertaintySq(nData, nBkg, lumi, delLumi, e, delESq);
    Pow2Positive(xs);
    CrossSectionResult(xs, delXsSq, delXsSq / Pow2(xs))
  }

  /** Scaling the dividend scales the quotient. */
  lemma QuotientScales(k: real, a: real, b: real)
    requires b != 0.0
    ensures a * k / b == k * (a / b)
  {
    var q := a / b;
    assert q * b == a;
    assert (k * q) * b == k * a;
  }

  /**
   Both scripts measure the same cross section with the same uncertainty
   from the same counts; the second reports the relative uncertainty in
   percent, hence a factor of 100 (10000 on the squares).
   */
  lemma CalculateXsAgreesWithEffPurXs(nData: real, nBkg: real, nSigSel: real, nSigTot: real, nMCSel: real, lumi: real, delLumi: real)
    requires nSigTot != 0.0 && nSigSel != 0.0 && nMCSel != 0.0 && lumi != 0.0
    requires nData != nBkg
    ensures var a := CalculateXs(nData, nBkg, nSigSel, nSigTot, lumi, delLumi);
      var b := MyAnalysis2.EffPurXs(nData, nBkg, nSigSel, nSigTot, nMCSel, lumi, delLumi);
      && a.xs == b.xs && a.delXsSq == b.delXsSq
      && b.relDelXsSq == 10000.0 * a.relDelXsSq
  {
    var a := CalculateXs(nData, nBkg, nSigSel, nSigTot, lumi, delLumi);
    var b := MyAnalysis2.EffPurXs(nData, nBkg, nSigSel, nSigTot, nMCSel, lumi, delLumi);
    assert a.xs == b.xs && a.delXsSq == b.delXsSq;
    Pow2Positive(a.xs);
    QuotientScales(10000.0, a.delXsSq, Pow2(a.xs));
  }

  /**
   The squared uncertainty is the counting term of data and background
   plus the squared cross section times the squared relative
   uncertainties of efficiency and luminosity.
   */
  lemma CalculateXsUncertaintyDecomposes(nData: real, nBkg: real, nSigSel: real, nSigTot: real, lumi: real, delLumi: real)
    requires nSigTot != 0.0 && nSigSel != 0.0 && lumi != 0.0
    requires nData != nBkg
    ensures var r := CalculateXs(nData, nBkg, nSigSel, nSigTot, lumi, delLumi);
      var e := Fraction(nSigSel, nSigTot);
      var delESq := RatioUncertaintySq(nSigSel, nSigTot);
      && Pow2(e * lumi) > 0.0 && Pow2(e) > 0.0 && Pow2(lumi) > 0.0
      && r.delXsSq == (nData + nBkg) / Pow2(e * lumi) + Pow2(r.xs) * (delESq / Pow2(e) + Pow2(delLumi) / Pow2(lumi))
  {
    var e := Fraction(nSigSel, nSigTot);
    var delESq := RatioUncertaintySq(nSigSel, nSigTot);
    CrossSectionUncertaintyDecomposes(nData, nBkg, lumi, delLumi, e, delESq);
    Pow2Positive(e * lumi);
    Pow2Positive(e);
    Pow2Positive(lumi);
  }

  /** With non-negative counts the squared uncertainties are non-negative. */
  lemma CalculateXsUncertaintyNonNeg(nData: real, nBkg: real, nSigSel: real, nSigTot: real, lumi: real, delLumi: real)
    requires nSigTot > 0.0 && nSigSel > 0.0 && lumi != 0.0
    requires nData >= 0.0 && nBkg >= 0.0 && nData != nBkg
    ensures var r := CalculateXs(nData, nBkg, nSigSel, nSigTot, lumi, delLumi);
      r.delXsSq >= 0.0 && r.relDelXsSq >= 0.0
  {
    var r := CalculateXs(nData, nBkg, nSigSel, nSigTot, lumi, delLumi);
    var e := Fraction(nSigSel, nSigTot);
    var delESq := RatioUncertaintySq(nSigSel, nSigTot);
    RatioUncertaintySqNonNeg(nSigSel, nSigTot);
    CrossSectionUncertaintySqNonNeg(nData, nBkg, lumi, delLumi, e, delESq);
    QuotientNonNeg(r.delXsSq, Pow2(r.xs));
  }

  // ---------------------------------------------------------------------
  // Per-stage sums and the consistency check
  // ---------------------------------------------------------------------

  /**
   One stage's sums as this script forms them: ttbar and data looked up
   by key, background over the listed processes, simulation over every
   key but data, and the selected total over every key.
   */
  function ListedSumsAt(ds: seq<Entry>, s: Stage): (n: MyAnalysis2.StageSums)
    requires DistinctNames(ds) && SignalName in Names(ds) && DataName in Names(ds)
    ensures n.ttbar == Lookup(ds, SignalName).Get(s) && n.data == Lookup(ds, DataName).Get(s)
    ensures n.all == n.mc + n.data
    ensures n.mc == n.ttbar + n.bkg + SumWhere(ds, s, IsUnlisted)
  {
    var n := MyAnalysis2.StageSums(
      Lookup(ds, SignalName).Get(s),
      Lookup(ds, DataName).Get(s),
      SumWhere(ds, s, IsListedBackground),
      SumWhere(ds, s, IsMonteCarlo),
      SumWhere(ds, s, AnyDataset));
    SumSplit(ds, s, AnyDataset, IsMonteCarlo, IsData);
    SumOfOneName(ds, s, IsData, DataName);
    SumSplit(ds, s, IsMonteCarlo, IsBackground, IsSignal);
    SumOfOneName(ds, s, IsSignal, SignalName);
    assert forall i :: 0 <= i < |ds| && IsListedBackground(ds[i].name) ==> IsBackground(ds[i].name) by {
      forall i | 0 <= i < |ds| && IsListedBackground(ds[i].name) {
        ListedBackgroundIsBackground(ds[i].name);
      }
    }
    SumSplit(ds, s, IsBackground, IsListedBackground, IsUnlisted);
    n
  }

  /**
   "Background" in the sense of the listed processes and in the sense of
   "neither data nor ttbar" agree when every key is covered.
   */
  lemma BackgroundDefinitionsAgree(ds: seq<Entry>, s: Stage)
    requires KeysCovered(ds)
    ensures SumWhere(ds, s, IsListedBackground) == SumWhere(ds, s, IsBackground)
  {
    forall i | 0 <= i < |ds| && IsListedBackground(ds[i].name) {
      ListedBackgroundIsBackground(ds[i].name);
    }
    SumSplit(ds, s, IsBackground, IsListedBackground, IsUnlisted);
    SumOfNone(ds, s, IsUnlisted);
  }

  /**
   The consistency check: the sum over all datasets equals data plus
   ttbar plus listed background, at every stage, exactly when the keys
   outside the three groups contribute nothing; in particular whenever
   every key is covered.
   */
  lemma ConsistencyCheckHolds(ds: seq<Entry>, s: Stage)
    requires DistinctNames(ds) && SignalName in Names(ds) && DataName in Names(ds)
    ensures var n := ListedSumsAt(ds, s);
      && (n.all == n.data + n.ttbar + n.bkg <==> SumWhere(ds, s, IsUnlisted) == 0.0)
      && (KeysCovered(ds) ==> n.all == n.data + n.ttbar + n.bkg)
  {
    if KeysCovered(ds) {
      SumOfNone(ds, s, IsUnlisted);
    }
  }

  /** The selected total is at least data plus ttbar plus listed background when no counter is negative. */
  lemma ConsistencyCheckBound(ds: seq<Entry>, s: Stage)
    requires DistinctNames(ds) && SignalName in Names(ds) && DataName in Names(ds)
    requires forall i :: 0 <= i < |ds| ==> ds[i].counts.Get(s) >= 0.0
    ensures var n := ListedSumsAt(ds, s); n.all >= n.data + n.ttbar + n.bkg
  {
    SumNonNeg(ds, s, IsUnlisted);
  }

  // ---------------------------------------------------------------------
  // Efficiency and purity after each stage
  // ---------------------------------------------------------------------

  /** Selected ttbar events of stage `s` over all generated ttbar events. */
  function StageEfficiency(ds: seq<Entry>, s: Stage): (e: real)
    requires SignalName in Names(ds) && Lookup(ds, SignalName).total != 0.0
    ensures e * Lookup(ds, SignalName).total == Lookup(ds, SignalName).Get(s)
  {
    var c := Lookup(ds, SignalName);
    Fraction(c.Get(s), c.total)
  }

  /** Selected ttbar events of stage `s` over all selected simulation. */
  function StagePurity(ds: seq<Entry>, s: Stage): (p: real)
    requires SignalName in Names(ds) && SumWhere(ds, s, IsMonteCarlo) != 0.0
    ensures p * SumWhere(ds, s, IsMonteCarlo) == Lookup(ds, SignalName).Get(s)
  {
    Fraction(Lookup(ds, SignalName).Get(s), SumWhere(ds, s, IsMonteCarlo))
  }

  /** Before any cut every generated ttbar event is selected: the efficiency is 1. */
  lemma EfficiencyAtNoSelectionIsOne(ds: seq<Entry>)
    requires SignalName in Names(ds) && Lookup(ds, SignalName).total != 0.0
    ensures StageEfficiency(ds, NoCuts) == 1.0
  {
    var c := Lookup(ds, SignalName);
    RatioOfWhole(c.total);
  }

  /**
   With the ttbar counters ordered down the cascade and non-negative, the
   efficiency after every stage lies in [0, 1] and never grows from one
   stage to a later one.
   */
  lemma StageEfficiencyBounded(ds: seq<Entry>, s: Stage, t: Stage)
    requires SignalName in Names(ds) && Lookup(ds, SignalName).total != 0.0
    requires Monotone(Lookup(ds, SignalName)) && Lookup(ds, SignalName).met >= 0.0
    requires s.Index() <= t.Index()
    ensures 0.0 <= StageEfficiency(ds, s) <= 1.0
    ensures StageEfficiency(ds, t) <= StageEfficiency(ds, s)
  {
    var c := Lookup(ds, SignalName);
    MonotoneAcrossStages(c, s, t);
    FractionOrdered(c.Get(t), c.Get(s), c.total);
    FractionOrdered(c.Get(s), c.total, c.total);
    FractionOrdered(0.0, c.Get(s), c.total);
    RatioOfWhole(c.total);
    RatioOfNothing(c.total);
  }

  /**
   Simulation includes ttbar, so with non-negative simulated counters the
   purity after every stage lies in [0, 1].
   */
  lemma StagePurityBounded(ds: seq<Entry>, s: Stage)
    requires DistinctNames(ds) && SignalName in Names(ds) && SumWhere(ds, s, IsMonteCarlo) != 0.0
    requires forall i :: 0 <= i < |ds| && IsMonteCarlo(ds[i].name) ==> ds[i].counts.Get(s) >= 0.0
    ensures 0.0 <= StagePurity(ds, s) <= 1.0
  {
    SumSplit(ds, s, IsMonteCarlo, IsBackground, IsSignal);
    SumOfOneName(ds, s, IsSignal, SignalName);
    SumNonNeg(ds, s, IsBackground);
    var k :| 0 <= k < |ds| && ds[k].name == SignalName && ds[k].counts == Lookup(ds, SignalName);
    assert IsMonteCarlo(ds[k].name);
  }

  // ---------------------------------------------------------------------
  // The per-stage cross sections
  // ---------------------------------------------------------------------

  /** The datasets for which stage `s`'s cross section can be computed. */
  predicate Computable(ds: seq<Entry>, s: Stage)
  {
    && DistinctNames(ds) && SignalName in Names(ds) && DataName in Names(ds)
    && Lookup(ds, SignalName).total != 0.0
    && ListedSumsAt(ds, s).ttbar != 0.0
    && ListedSumsAt(ds, s).data != ListedSumsAt(ds, s).bkg
  }

  /** The cross section after stage `s`, with the script's luminosity and its uncertainty. */
  function StageCrossSection(ds: seq<Entry>, s: Stage): CrossSectionResult
    requires Computable(ds, s)
  {
    var n := ListedSumsAt(ds, s);
    CalculateXs(n.data, n.bkg, n.ttbar, Lookup(ds, SignalName).total, Luminosity, LuminosityUncertainty)
  }

  /**
   When every key is data, ttbar or a listed background, both scripts
   measure the same cross section with the same uncertainty after every
   stage.
   */
  lemma ScriptsAgreeOnCoveredKeys(ds: seq<Entry>, s: Stage)
    requires KeysCovered(ds)
    requires MyAnalysis2.Measurable(ds, s)
    ensures Computable(ds, s)
    ensures StageCrossSection(ds, s).xs == MyAnalysis2.StageResult(ds, s).xs
    ensures StageCrossSection(ds, s).delXsSq == MyAnalysis2.StageResult(ds, s).delXsSq
  {
    var n := ListedSumsAt(ds, s);
    var m := MyAnalysis2.SumsAt(ds, s);
    BackgroundDefinitionsAgree(ds, s);
    assert n.bkg == m.bkg;
    CalculateXsAgreesWithEffPurXs(m.data, m.bkg, m.ttbar, Lookup(ds, SignalName).total, m.mc, Luminosity, LuminosityUncertainty);
  }
}
