/**
 The per-dataset analyzer: weighted stage counters updated in place by
 the cut cascade, and the top-mass reconstruction run on events that pass
 every cut.
 */
module TTbarAnalysis {
  import opened PhysicsObjects
  import opened Selection

  /**
   Configuration of the top-quark reconstruction together with the
   reconstruction itself, whose algorithm is not part of this model: it is
   any function from (jets, missing momentum, muon) to a mass, a
   non-positive value meaning "not reconstructed".
   */
  datatype TopReco = TopReco(
    maxMassDifference: real,
    minJets: nat,
    maxJets: nat,
    reconstruct: (seq<Jet>, Met, Muon) -> real)
  {
    function CalculateTopMass(jets: seq<Jet>, met: Met, muon: Muon): real
    {
      reconstruct(jets, met, muon)
    }
  }

  /** The physics content of a sequence of events, in order. */
  function Contents(evs: seq<Event>): (cs: seq<EventContent>)
    ensures |cs| == |evs|
    ensures forall i :: 0 <= i < |evs| ==> cs[i] == evs[i].content
  {
    if evs == [] then [] else [evs[0].content] + Contents(evs[1..])
  }

  class TTbarAnalyzer {
    const datasetName: string
    const topReconstruction: TopReco

    // weighted number of events reaching each stage
    var nTotal: real
    var nTrigger: real
    var nNMuon: real
    var nNJets: real
    var nNBJets: real
    var nMet: real
    var nMuonPhi: real

    // declared alongside, never updated by the selection
    var nDataTotal: real
    var nDataTrigger: real
    var nDataNMuon: real
    var nDataNJets: real
    var nDataNBJets: real
    var nDataMet: real
    var nDataMuonPhi: real

    /** Names of the histogram sets filled so far, in order. */
    ghost var histogramFills: seq<Histogram>

    /** The stage counters as one value. */
    function Counts(): StageCounts
      reads this
    {
      StageCounts(nTotal, nTrigger, nNJets, nNMuon, nNBJets, nMet)
    }

    /** The counters that the selection never touches. */
    function UnusedCounters(): seq<real>
      reads this
    {
      [nMuonPhi, nDataTotal, nDataTrigger, nDataNMuon, nDataNJets, nDataNBJets, nDataMet, nDataMuonPhi]
    }

    /** The mass the reconstruction returns for an event with at least one muon. */
    function ReconstructedMass(ev: EventContent): real
      requires |ev.muons| >= 1
    {
      topReconstruction.CalculateTopMass(ev.jets, ev.met, ev.muons[0])
    }

    /** The event passes every cut and its reconstructed mass is positive, so the mass is stored. */
    predicate Stored(ev: EventContent)
      requires TriggerName in ev.trigger
    {
      StagesReached(ev) == CutCount && ReconstructedMass(ev) > 0.0
    }

    /** The histogram log after the events `cs` have been processed one after the other, starting from `log`. */
    function RunLog(log: seq<Histogram>, cs: seq<EventContent>): seq<Histogram>
      requires TriggerRecorded(cs)
      decreases |cs|
    {
      if cs == [] then log
      else RunLog(LogAfter(log, StagesReached(cs[0]), Stored(cs[0])), cs[1..])
    }

    constructor (datasetName: string, reconstruct: (seq<Jet>, Met, Muon) -> real)
      ensures this.datasetName == datasetName
      ensures topReconstruction == TopReco(10.0, 2, 4, reconstruct)
      ensures Counts() == Zero && Monotone(Counts())
      ensures forall i :: 0 <= i < |UnusedCounters()| ==> UnusedCounters()[i] == 0.0
      ensures histogramFills == []
    {
      this.datasetName := datasetName;
      topReconstruction := TopReco(10.0, 2, 4, reconstruct);
      nTotal, nTrigger, nNMuon, nNJets, nNBJets, nMet, nMuonPhi := 0.0, 0.0, 0.0, 0.0, 0.0, 0.0, 0.0;
      nDataTotal, nDataTrigger, nDataNMuon, nDataNJets := 0.0, 0.0, 0.0, 0.0;
      nDataNBJets, nDataMet, nDataMuonPhi := 0.0, 0.0, 0.0;
      histogramFills := [];
    }

    /**
     Runs one event through the cascade: counts it, then applies the cuts
     in order and stops at the first failed one; an event passing all cuts
     gets its top mass reconstructed, stored when positive.
     */
    method Process(ev: Event)
      requires TriggerName in ev.content.trigger
      modifies this`nTotal, this`nTrigger, this`nNJets, this`nNMuon, this`nNBJets, this`nMet
      modifies this`histogramFills, ev`topMass
      ensures var k := StagesReached(ev.content); var w := ev.content.weight;
        && nTotal == old(nTotal) + w
        && nTrigger == old(nTrigger) + (if k >= 1 then w else 0.0)
        && nNJets == old(nNJets) + (if k >= 2 then w else 0.0)
        && nNMuon == old(nNMuon) + (if k >= 3 then w else 0.0)
        && nNBJets == old(nNBJets) + (if k >= 4 then w else 0.0)
        && nMet == old(nMet) + (if k >= 5 then w else 0.0)
      ensures ev.topMass == (if Stored(ev.content) then ReconstructedMass(ev.content) else old(ev.topMass))
      ensures histogramFills == LogAfter(old(histogramFills), StagesReached(ev.content), Stored(ev.content))
      ensures Counts() == Record(old(Counts()), ev.content.weight, StagesReached(ev.content))
      ensures ev.content.weight >= 0.0 && old(Monotone(Counts())) ==> Monotone(Counts())
    {
      var c := ev.content;

      nTotal := nTotal + c.weight;
      FillHistograms(StageHistogram(NoCuts));

      if !c.trigger[TriggerName] {
        return;
      }
      FillHistograms(StageHistogram(TriggerCut));
      nTrigger := nTrigger + c.weight;

      if |c.jets| < MinJets || |c.jets| > MaxJets {
        return;
      }
      FillHistograms(StageHistogram(JetCut));
      nNJets := nNJets + c.weight;

      if |c.muons| < MinMuons || |c.muons| > MaxMuons {
        return;
      }
      FillHistograms(StageHistogram(MuonCut));
      nNMuon := nNMuon + c.weight;

      if |c.bJets| < MinBJets || |c.bJets| > MaxBJets {
        return;
      }
      FillHistograms(StageHistogram(BJetCut));
      nNBJets := nNBJets + c.weight;

      if c.met.pt < MetThreshold {
        return;
      }
      FillHistograms(StageHistogram(MetCut));
      nMet := nMet + c.weight;

      var mass := topReconstruction.CalculateTopMass(c.jets, c.met, c.muons[0]);
      if mass > 0.0 {
        ev.topMass := mass;
        FillHistograms(TopMassHistogram);
      }
    }

    /** The counters after the events `cs[j..]`, processed one after the other, starting from `c`. */
    function RunFrom(c: StageCounts, cs: seq<EventContent>, j: nat): StageCounts
      requires TriggerRecorded(cs) && j <= |cs|
      decreases |cs| - j
    {
      if j == |cs| then c else RunFrom(Record(c, cs[j].weight, StagesReached(cs[j])), cs, j + 1)
    }

    /** The histogram log after the events `cs[j..]`, processed one after the other, starting from `log`. */
    function RunLogFrom(log: seq<Histogram>, cs: seq<EventContent>, j: nat): seq<Histogram>
      requires TriggerRecorded(cs) && j <= |cs|
      decreases |cs| - j
    {
      if j == |cs| then log else RunLogFrom(LogAfter(log, StagesReached(cs[j]), Stored(cs[j])), cs, j + 1)
    }

    /** Folding from position `j` is folding over the suffix `cs[j..]`. */
    lemma {:induction false} RunFromIsRun(c: StageCounts, cs: seq<EventContent>, j: nat)
      requires TriggerRecorded(cs) && j <= |cs|
      ensures RunFrom(c, cs, j) == Run(c, cs[j..])
      decreases |cs| - j
    {
      if j < |cs| {
        assert cs[j..][1..] == cs[j + 1..];
        RunFromIsRun(Record(c, cs[j].weight, StagesReached(cs[j])), cs, j + 1);
      }
    }

    /** Logging from position `j` is logging over the suffix `cs[j..]`. */
    lemma {:induction false} RunLogFromIsRunLog(log: seq<Histogram>, cs: seq<EventContent>, j: nat)
      requires TriggerRecorded(cs) && j <= |cs|
      ensures RunLogFrom(log, cs, j) == RunLog(log, cs[j..])
      decreases |cs| - j
    {
      if j < |cs| {
        assert cs[j..][1..] == cs[j + 1..];
        RunLogFromIsRunLog(LogAfter(log, StagesReached(cs[j]), Stored(cs[j])), cs, j + 1);
      }
    }

    /**
     Runs every event of `evs` through the cascade, in order: the counters
     end as the fold of one event's effect over the sequence, and stay
     ordered when no weight is negative; the histogram log grows by each
     event's fills in order. Each event's stored top mass is stated per
     call, by `Process`.
     */
    method ProcessAll(evs: seq<Event>)
      requires TriggerRecorded(Contents(evs))
      modifies this`nTotal, this`nTrigger, this`nNJets, this`nNMuon, this`nNBJets, this`nMet
      modifies this`histogramFills, (set e | e in evs)`topMass
      ensures Counts() == Run(old(Counts()), Contents(evs))
      ensures (forall i :: 0 <= i < |evs| ==> evs[i].content.weight >= 0.0) && old(Monotone(Counts())) ==> Monotone(Counts())
      ensures histogramFills == RunLog(old(histogramFills), Contents(evs))
    {
      ghost var cs := Contents(evs);
      ghost var counts, log := RunFrom(Counts(), cs, 0), RunLogFrom(histogramFills, cs, 0);
      var j := 0;
      while j < |evs|
        invariant j <= |evs|
        invariant RunFrom(Counts(), cs, j) == counts
        invariant RunLogFrom(histogramFills, cs, j) == log
      {
        assert evs[j] in set e | e in evs;
        Process(evs[j]);
        j := j + 1;
      }
      RunFromIsRun(old(Counts()), cs, 0);
      RunLogFromIsRunLog(old(histogramFills), cs, 0);
      assert cs[0..] == cs;
      if (forall i :: 0 <= i < |evs| ==> evs[i].content.weight >= 0.0) && old(Monotone(Counts())) {
        RunKeepsMonotone(old(Counts()), cs);
      }
    }

    /** Records one fill of the histogram set `h`. */
    ghost method FillHistograms(h: Histogram)
      modifies this`histogramFills
      ensures histogramFills == old(histogramFills) + [h]
    {
      histogramFills := histogramFills + [h];
    }
  }
}
