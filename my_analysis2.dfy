/**
 The cross-section measurement of the second analysis script: per-stage
 sums over the analyzer dictionary, efficiency, purity and cross section
 with their uncertainties at every stage of the cascade, and the
 comparison with the literature value.
 */
module MyAnalysis2 {
  import opened Selection
  import opened Estimator
  import opened Datasets

  /**
   Efficiency, purity and cross section with their uncertainties, all
   uncertainties squared; `relDelXsSq` is the square of the relative
   cross-section uncertainty in percent.
   */
  datatype SelectionResult = SelectionResult(
    e: real, delESq: real,
    p: real, delPSq: real,
    xs: real, delXsSq: real,
    relDelXsSq: real)

  /**
   Efficiency and purity of a selection and the cross section it measures.
   Every division of the formulas is guarded by what the arguments must
   avoid: no signal generated or selected, no simulation selected, no
   luminosity, or a vanishing cross section.
   */
  function EffPurXs(nDataSel: real, nBkgMC: real, nSigSel: real, nSigTot: real, nMCSel: real, lumi: real, delLumi: real): (r: SelectionResult)
    requires nSigTot != 0.0 && nSigSel != 0.0 && nMCSel != 0.0 && lumi != 0.0
    requires nDataSel != nBkgMC
    ensures r.e * nSigTot == nSigSel && r.p * nMCSel == nSigSel
    ensures 0.0 < nSigTot && 0.0 <= nSigSel <= nSigTot ==> 0.0 <= r.e <= 1.0
    ensures r.delESq * nSigTot == r.e * (1.0 + r.e)
    ensures r.delPSq * nMCSel == r.p * (1.0 + r.p)
    ensures r.xs * (lumi * r.e) == nDataSel - nBkgMC && r.xs != 0.0
    ensures lumi * r.e > 0.0 ==> (r.xs > 0.0 <==> nDataSel > nBkgMC)
    ensures r.relDelXsSq * Pow2(r.xs) == 10000.0 * r.delXsSq
  {
    var e := Fraction(nSigSel, nSigTot);
    var delESq := RatioUncertaintySq(nSigSel, nSigTot);
    RatioUncertaintySqIsBinomial(nSigSel, nSigTot);

    var p := Fraction(nSigSel, nMCSel);
    var delPSq := RatioUncertaintySq(nSigSel, nMCSel);
    RatioUncertaintySqIsBinomial(nSigSel, nMCSel);

    var xs := CrossSection(nDataSel, nBkgMC, lumi, e);
    var delXsSq := CrossSectionUncertaintySq(nDataSel, nBkgMC, lumi, delLumi, e, delESq);
    CrossSectionUncertaintyDecomposes(nDataSel, nBkgMC, lumi, delLumi, e, delESq);
    Pow2Positive(xs);
    var relDelXsSq := delXsSq * 10000.0 / Pow2(xs);
    SelectionResult(e, delESq, p, delPSq, xs, delXsSq, relDelXsSq)
  }

  /**
   The cross-section uncertainty is the counting term of data and
   background plus the squared cross section times the squared relative
   uncertainties of efficiency and luminosity.
   */
  lemma EffPurXsUncertaintyDecomposes(nDataSel: real, nBkgMC: real, nSigSel: real, nSigTot: real, nMCSel: real, lumi: real, delLumi: real)
    requires nSigTot != 0.0 && nSigSel != 0.0 && nMCSel != 0.0 && lumi != 0.0
    requires nDataSel != nBkgMC
    ensures var r := EffPurXs(nDataSel, nBkgMC, nSigSel, nSigTot, nMCSel, lumi, delLumi);
      && Pow2(r.e * lumi) > 0.0 && Pow2(r.e) > 0.0 && Pow2(lumi) > 0.0
      && r.delXsSq == (nDataSel + nBkgMC) / Pow2(r.e * lumi) + Pow2(r.xs) * (r.delESq / Pow2(r.e) + Pow2(delLumi) / Pow2(lumi))
  {
    var e := Fraction(nSigSel, nSigTot);
    CrossSectionUncertaintyDecomposes(nDataSel, nBkgMC, lumi, delLumi, e, RatioUncertaintySq(nSigSel, nSigTot));
    Pow2Positive(e * lumi);
    Pow2Positive(e);
    Pow2Positive(lumi);
  }

  /** With non-negative counts every squared uncertainty is non-negative. */
  lemma EffPurXsUncertaintyNonNeg(nDataSel: real, nBkgMC: real, nSigSel: real, nSigTot: real, nMCSel: real, lumi: real, delLumi: real)
    requires nSigTot > 0.0 && nSigSel > 0.0 && nMCSel > 0.0 && lumi != 0.0
    requires nDataSel >= 0.0 && nBkgMC >= 0.0 && nDataSel != nBkgMC
    ensures var r := EffPurXs(nDataSel, nBkgMC, nSigSel, nSigTot, nMCSel, lumi, delLumi);
      r.delESq >= 0.0 && r.delPSq >= 0.0 && r.delXsSq >= 0.0 && r.relDelXsSq >= 0.0
  {
    var r := EffPurXs(nDataSel, nBkgMC, nSigSel, nSigTot, nMCSel, lumi, delLumi);
    var e := Fraction(nSigSel, nSigTot);
    RatioUncertaintySqNonNeg(nSigSel, nSigTot);
    RatioUncertaintySqNonNeg(nSigSel, nMCSel);
    CrossSectionUncertaintySqNonNeg(nDataSel, nBkgMC, lumi, delLumi, e, RatioUncertaintySq(nSigSel, nSigTot));
    ProductNonNeg(r.delXsSq, 10000.0);
    Pow2Positive(r.xs);
    QuotientNonNeg(r.delXsSq * 10000.0, Pow2(r.xs));
  }

  /** The per-stage event counts the script sums up. */
  datatype StageSums = StageSums(ttbar: real, data: real, bkg: real, mc: real, all: real)

  /**
   One stage's sums: the ttbar and data counters are looked up by key;
   background sums every key other than data and ttbar, simulation every
   key other than data, and the total every key.
   */
  function SumsAt(ds: seq<Entry>, s: Stage): (n: StageSums)
    requires DistinctNames(ds) && SignalName in Names(ds) && DataName in Names(ds)
    ensures n.mc == n.bkg + n.ttbar
    ensures n.all == n.mc + n.data
    ensures n.ttbar == Lookup(ds, SignalName).Get(s) && n.data == Lookup(ds, DataName).Get(s)
  {
    var n := StageSums(
      Lookup(ds, SignalName).Get(s),
      Lookup(ds, DataName).Get(s),
      SumWhere(ds, s, IsBackground),
      SumWhere(ds, s, IsMonteCarlo),
      SumWhere(ds, s, AnyDataset));
    SumSplit(ds, s, IsMonteCarlo, IsBackground, IsSignal);
    SumOfOneName(ds, s, IsSignal, SignalName);
    SumSplit(ds, s, AnyDataset, IsMonteCarlo, IsData);
    SumOfOneName(ds, s, IsData, DataName);
    n
  }

  /** The datasets and counters for which a stage's measurement can be computed. */
  predicate Measurable(ds: seq<Entry>, s: Stage)
  {
    && DistinctNames(ds) && SignalName in Names(ds) && DataName in Names(ds)
    && Lookup(ds, SignalName).total != 0.0
    && SumsAt(ds, s).ttbar != 0.0
    && SumsAt(ds, s).mc != 0.0
    && SumsAt(ds, s).data != SumsAt(ds, s).bkg
  }

  /**
   The measurement after stage `s`: the stage's ttbar count over all
   generated ttbar events is the efficiency, over all selected simulation
   the purity; data minus background gives the cross section.
   */
  function StageResult(ds: seq<Entry>, s: Stage): SelectionResult
    requires Measurable(ds, s)
  {
    var n := SumsAt(ds, s);
    EffPurXs(n.data, n.bkg, n.ttbar, Lookup(ds, SignalName).total, n.mc, Luminosity, LuminosityUncertainty)
  }

  /**
   Before any cut the selected signal is all the generated signal: the
   efficiency is exactly 1 and its squared uncertainty is 2 over the
   number of ttbar events.
   */
  lemma TotalStageEfficiencyIsOne(ds: seq<Entry>)
    requires Measurable(ds, NoCuts)
    ensures StageResult(ds, NoCuts).e == 1.0
    ensures StageResult(ds, NoCuts).delESq == 2.0 / Lookup(ds, SignalName).total
  {
    var n := SumsAt(ds, NoCuts);
    var total := Lookup(ds, SignalName).total;
    assert n.ttbar == total;
    RatioOfWhole(total);
  }

  /**
   With non-negative counters that decrease down the cascade in every
   dataset, each stage's efficiency and purity lie between 0 and 1.
   */
  lemma StageEfficiencyAndPurityBounded(ds: seq<Entry>, s: Stage)
    requires Measurable(ds, s)
    requires forall i :: 0 <= i < |ds| ==> Monotone(ds[i].counts) && ds[i].counts.met >= 0.0
    ensures 0.0 <= StageResult(ds, s).e <= 1.0
    ensures 0.0 <= StageResult(ds, s).p <= 1.0
  {
    var n := SumsAt(ds, s);
    var total := Lookup(ds, SignalName).total;
    var k :| 0 <= k < |ds| && ds[k].name == SignalName && ds[k].counts == Lookup(ds, SignalName);
    assert Monotone(ds[k].counts);
    assert forall i :: 0 <= i < |ds| ==> ds[i].counts.Get(s) >= 0.0;
    SumNonNeg(ds, s, IsBackground);
    assert 0.0 <= n.ttbar <= total;
    assert 0.0 <= n.ttbar <= n.mc;
  }

  /**
   Stage sums never grow down the cascade when every analyzer's counters
   are ordered, for every dataset group.
   */
  lemma StageSumsDecrease(ds: seq<Entry>, s: Stage, t: Stage)
    requires DistinctNames(ds) && SignalName in Names(ds) && DataName in Names(ds)
    requires forall i :: 0 <= i < |ds| ==> Monotone(ds[i].counts)
    requires s.Index() <= t.Index()
    ensures var a, b := SumsAt(ds, s), SumsAt(ds, t);
      b.ttbar <= a.ttbar && b.data <= a.data && b.bkg <= a.bkg && b.mc <= a.mc && b.all <= a.all
  {
    SumDecreasesDownCascade(ds, s, t, IsBackground);
    SumDecreasesDownCascade(ds, s, t, IsMonteCarlo);
    SumDecreasesDownCascade(ds, s, t, AnyDataset);
    SumDecreasesDownCascade(ds, s, t, IsSignal);
    SumDecreasesDownCascade(ds, s, t, IsData);
    SumOfOneName(ds, s, IsSignal, SignalName);
    SumOfOneName(ds, t, IsSignal, SignalName);
    SumOfOneName(ds, s, IsData, DataName);
    SumOfOneName(ds, t, IsData, DataName);
  }

  /** Difference from the literature value and its significance. */
  datatype Deviation = Deviation(dif: real, sigma: real)

  /**
   The deviation of a measured cross section from the literature value in
   units of the measurement's uncertainty `delXs`, made non-negative.
   */
  function DifToLit(xs: real, delXs: real): (d: Deviation)
    requires delXs != 0.0
    ensures d.dif == xs - LiteratureCrossSection
    ensures d.sigma >= 0.0
    ensures d.sigma * Abs(delXs) == Abs(d.dif)
    ensures d.sigma == 0.0 <==> xs == LiteratureCrossSection
  {
    var dif := xs - LiteratureCrossSection;
    var sigma := dif / delXs;
    assert sigma * delXs == dif;
    var sigma' := if sigma < 0.0 then -sigma else sigma;
    assert sigma' * Abs(delXs) == Abs(dif) by {
      if delXs < 0.0 {
        assert sigma * (-delXs) == -dif;
      }
      if sigma < 0.0 {
        assert (-sigma) * Abs(delXs) == -(sigma * Abs(delXs));
      }
      SignOfQuotient(sigma, delXs, dif);
    }
    Deviation(dif, sigma')
  }

  /** The sign of a quotient: its absolute value times the divisor's is the dividend's. */
  lemma SignOfQuotient(q: real, d: real, n: real)
    requires d != 0.0 && q * d == n
    ensures Abs(q) * Abs(d) == Abs(n)
  {
    if q < 0.0 && d > 0.0 {
      assert q * d < 0.0;
    } else if q > 0.0 && d < 0.0 {
      assert q * d < 0.0;
    } else if q < 0.0 && d < 0.0 {
      assert q * d > 0.0;
    } else if q > 0.0 && d > 0.0 {
      assert q * d > 0.0;
    }
  }

  /**
   The significance squared is the squared deviation over the squared
   uncertainty, which is how it follows from `SelectionResult.delXsSq`.
   */
  lemma SignificanceFromSquaredUncertainty(xs: real, delXs: real, delXsSq: real)
    requires delXs != 0.0 && Pow2(delXs) == delXsSq
    ensures delXsSq > 0.0
    ensures Pow2(DifToLit(xs, delXs).sigma) == Pow2(xs - LiteratureCrossSection) / delXsSq
  {
    var d := DifToLit(xs, delXs);
    Pow2Positive(delXs);
    Pow2OfProduct(d.sigma, Abs(delXs));
    assert Pow2(Abs(delXs)) == Pow2(delXs);
    assert Pow2(Abs(d.dif)) == Pow2(d.dif);
    assert Pow2(d.sigma) * delXsSq == Pow2(d.dif);
  }
}
