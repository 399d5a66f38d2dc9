/**
 The cut cascade of the ttbar selection as pure functions: the five cuts,
 how far an event gets through them, the weighted stage counters and what
 one event adds to them.
 */
module Selection {
  import opened PhysicsObjects

  /** The trigger every selected event must have fired. */
  const TriggerName: string := "IsoMu24"

  /** Cut thresholds of the cascade (inclusive bounds). */
  const MinJets: nat := 3
  const MaxJets: nat := 8
  const MinMuons: nat := 1
  const MaxMuons: nat := 2
  const MinBJets: nat := 1
  const MaxBJets: nat := 3
  const MetThreshold: real := 25.0

  /** The number of cuts in the cascade. */
  const CutCount: nat := 5

  /** The selection stages, in cascade order; `NoCuts` is reached by every event. */
  datatype Stage = NoCuts | TriggerCut | JetCut | MuonCut | BJetCut | MetCut
  {
    /** Position in the cascade: stage k is reached after k passed cuts. */
    function Index(): nat
    {
      match this
      case NoCuts => 0
      case TriggerCut => 1
      case JetCut => 2
      case MuonCut => 3
      case BJetCut => 4
      case MetCut => 5
    }

    /** The name of the histogram set filled when the stage is reached. */
    function HistogramName(): string
    {
      match this
      case NoCuts => "no_cuts"
      case TriggerCut => "trigger"
      case JetCut => "n_jets"
      case MuonCut => "n_muon"
      case BJetCut => "n_b_jets"
      case MetCut => "met"
    }
  }

  /** A histogram set of the analyzer: one per stage, and the top-mass histogram. */
  datatype Histogram = StageHistogram(stage: Stage) | TopMassHistogram
  {
    function Name(): string
    {
      match this
      case StageHistogram(s) => s.HistogramName()
      case TopMassHistogram => "top_mass"
    }
  }

  /** Weighted number of events that reached each stage. */
  datatype StageCounts = StageCounts(total: real, trigger: real, nJets: real, nMuon: real, nBJets: real, met: real)
  {
    function Get(s: Stage): real
    {
      match s
      case NoCuts => total
      case TriggerCut => trigger
      case JetCut => nJets
      case MuonCut => nMuon
      case BJetCut => nBJets
      case MetCut => met
    }
  }

  const Zero: StageCounts := StageCounts(0.0, 0.0, 0.0, 0.0, 0.0, 0.0)

  /** Counters never grow down the cascade. */
  predicate Monotone(c: StageCounts)
  {
    c.total >= c.trigger >= c.nJets >= c.nMuon >= c.nBJets >= c.met
  }

  /** Ordered counters: a later stage never counts more than an earlier one, and none is below the last. */
  lemma MonotoneAcrossStages(c: StageCounts, s: Stage, t: Stage)
    requires Monotone(c) && s.Index() <= t.Index()
    ensures c.met <= c.Get(t) <= c.Get(s) <= c.total
  {
  }

  /** Jet multiplicity cut: the event is dropped with fewer than 3 or more than 8 jets. */
  predicate PassesJetCut(n: nat)
  {
    !(n < MinJets || n > MaxJets)
  }

  /** Muon multiplicity cut: one or two muons. */
  predicate PassesMuonCut(n: nat)
  {
    !(n < MinMuons || n > MaxMuons)
  }

  /** b-tagged jet multiplicity cut: one to three b jets. */
  predicate PassesBJetCut(n: nat)
  {
    !(n < MinBJets || n > MaxBJets)
  }

  /** Missing-transverse-momentum cut: dropped only below the threshold. */
  predicate PassesMetCut(metPt: real)
  {
    !(metPt < MetThreshold)
  }

  /**
   How many cuts, taken in cascade order, the event passes before the
   first one it fails (5 when it passes all of them).
   */
  function CutsPassed(trigger: bool, nJets: nat, nMuons: nat, nBJets: nat, metPt: real): (k: nat)
    ensures k <= CutCount
    ensures k >= 1 <==> trigger
    ensures k >= 2 <==> trigger && 3 <= nJets <= 8
    ensures k >= 3 <==> trigger && 3 <= nJets <= 8 && 1 <= nMuons <= 2
    ensures k >= 4 <==> trigger && 3 <= nJets <= 8 && 1 <= nMuons <= 2 && 1 <= nBJets <= 3
    ensures k == 5 <==> trigger && 3 <= nJets <= 8 && 1 <= nMuons <= 2 && 1 <= nBJets <= 3 && metPt >= 25.0
  {
    if !trigger then 0
    else if !PassesJetCut(nJets) then 1
    else if !PassesMuonCut(nMuons) then 2
    else if !PassesBJetCut(nBJets) then 3
    else if !PassesMetCut(metPt) then 4
    else 5
  }

  /** The cuts an event passes; the trigger decision is looked up by name. */
  function StagesReached(ev: EventContent): (k: nat)
    requires TriggerName in ev.trigger
    ensures k <= CutCount
    ensures k >= 3 ==> |ev.muons| >= 1
  {
    CutsPassed(ev.trigger[TriggerName], |ev.jets|, |ev.muons|, |ev.bJets|, ev.met.pt)
  }

  /** The counters after one event of weight `w` that reached stage `k`. */
  function Record(c: StageCounts, w: real, k: nat): StageCounts
    requires k <= CutCount
  {
    StageCounts(
      c.total + w,
      if k >= 1 then c.trigger + w else c.trigger,
      if k >= 2 then c.nJets + w else c.nJets,
      if k >= 3 then c.nMuon + w else c.nMuon,
      if k >= 4 then c.nBJets + w else c.nBJets,
      if k >= 5 then c.met + w else c.met)
  }

  /** Recording an event adds its weight to exactly the counters of the stages it reached. */
  lemma RecordAddsWeight(c: StageCounts, w: real, k: nat, s: Stage)
    requires k <= CutCount
    ensures Record(c, w, k).Get(s) == c.Get(s) + (if s.Index() <= k then w else 0.0)
  {
  }

  /** With a non-negative weight, recording an event keeps the counters ordered. */
  lemma RecordKeepsMonotone(c: StageCounts, w: real, k: nat)
    requires k <= CutCount
    requires Monotone(c) && w >= 0.0
    ensures Monotone(Record(c, w, k))
  {
  }

  /**
   The histogram log after an event that reached stage `k` has been
   processed: one fill per reached stage in cascade order, then the
   top-mass fill when a mass was stored.
   */
  function LogAfter(log: seq<Histogram>, k: nat, massStored: bool): seq<Histogram>
  {
    var l0 := log + [StageHistogram(NoCuts)];
    var l1 := if k >= 1 then l0 + [StageHistogram(TriggerCut)] else l0;
    var l2 := if k >= 2 then l1 + [StageHistogram(JetCut)] else l1;
    var l3 := if k >= 3 then l2 + [StageHistogram(MuonCut)] else l2;
    var l4 := if k >= 4 then l3 + [StageHistogram(BJetCut)] else l3;
    var l5 := if k >= 5 then l4 + [StageHistogram(MetCut)] else l4;
    if massStored then l5 + [TopMassHistogram] else l5
  }

  /** The histogram sets one event fills, in order. */
  function HistogramsFilled(k: nat, massStored: bool): seq<Histogram>
  {
    LogAfter([], k, massStored)
  }

  /** Processing an event appends its fills to the log and changes nothing before them. */
  lemma LogAfterAppends(log: seq<Histogram>, k: nat, massStored: bool)
    ensures LogAfter(log, k, massStored) == log + HistogramsFilled(k, massStored)
  {
  }

  /**
   A stage's histogram set is filled exactly when its counter is
   incremented: when the event reached that stage, and then at the
   stage's position in the cascade, under the stage's set name. The
   top-mass histogram ("top_mass") is filled only when a mass was stored,
   and then last.
   */
  lemma FillsMatchCounters(c: StageCounts, w: real, k: nat, massStored: bool, s: Stage)
    requires k <= CutCount
    ensures var fills := HistogramsFilled(k, massStored);
      && (StageHistogram(s) in fills <==> s.Index() <= k)
      && (s.Index() <= k ==> fills[s.Index()] == StageHistogram(s) && fills[s.Index()].Name() == s.HistogramName())
      && (TopMassHistogram in fills <==> massStored)
      && (massStored ==> fills[|fills| - 1] == TopMassHistogram && fills[|fills| - 1].Name() == "top_mass")
      && Record(c, w, k).Get(s) == c.Get(s) + (if StageHistogram(s) in fills then w else 0.0)
  {
    RecordAddsWeight(c, w, k, s);
  }

  /** Every event of `evs` records the trigger the cascade looks up. */
  predicate TriggerRecorded(evs: seq<EventContent>)
  {
    forall i :: 0 <= i < |evs| ==> TriggerName in evs[i].trigger
  }

  /** The counters after processing `evs` one after the other, starting from `c`. */
  function Run(c: StageCounts, evs: seq<EventContent>): StageCounts
    requires TriggerRecorded(evs)
    decreases |evs|
  {
    if evs == [] then c
    else Run(Record(c, evs[0].weight, StagesReached(evs[0])), evs[1..])
  }

  /** Total weight of the events of `evs` that reach stage `s`. */
  function WeightReaching(evs: seq<EventContent>, s: Stage): real
    requires TriggerRecorded(evs)
    decreases |evs|
  {
    if evs == [] then 0.0
    else (if s.Index() <= StagesReached(evs[0]) then evs[0].weight else 0.0) + WeightReaching(evs[1..], s)
  }

  /** Each counter is its start value plus the weight of the events that reached its stage. */
  lemma {:induction false} RunCountsReachingWeight(c: StageCounts, evs: seq<EventContent>, s: Stage)
    requires TriggerRecorded(evs)
    ensures Run(c, evs).Get(s) == c.Get(s) + WeightReaching(evs, s)
    decreases |evs|
  {
    if evs != [] {
      var c' := Record(c, evs[0].weight, StagesReached(evs[0]));
      RunCountsReachingWeight(c', evs[1..], s);
    }
  }

  /** A run over events of non-negative weight keeps the counters ordered. */
  lemma {:induction false} RunKeepsMonotone(c: StageCounts, evs: seq<EventContent>)
    requires TriggerRecorded(evs)
    requires Monotone(c)
    requires forall i :: 0 <= i < |evs| ==> evs[i].weight >= 0.0
    ensures Monotone(Run(c, evs))
    decreases |evs|
  {
    if evs != [] {
      var c' := Record(c, evs[0].weight, StagesReached(evs[0]));
      RecordKeepsMonotone(c, evs[0].weight, StagesReached(evs[0]));
      RunKeepsMonotone(c', evs[1..]);
    }
  }
}
