# ttbar cross-section analysis, modelled in Dafny

This project models the core of a student analysis that measures the top-quark
pair (ttbar) production cross section from simulated and recorded collision
events.

- **`TTbarAnalyzer`** (one per dataset) runs every event through a cut cascade:
  the `IsoMu24` trigger, 3 to 8 jets, 1 or 2 muons, 1 to 3 b-tagged jets, and
  missing transverse momentum of at least 25.
  - At each stage it adds the event weight to a counter and fills that stage's
    histogram set.
  - An event that passes every cut gets its top mass reconstructed, and the
    mass is stored when it is positive.
- **The two driver scripts** sum the per-dataset counters after each stage:
  - ttbar;
  - data;
  - background, defined by exclusion in one script and by an explicit process
    list in the other;
  - all simulation;
  - everything.

  From these sums they compute the efficiency, the purity and the cross section
  with uncertainties added in quadrature. The second script also compares each
  cross section with the literature value of 173 pb.

Modules:

- `PhysicsObjects` (`physics_objects.dfy`): the event content, and an `Event`
  class whose top mass the analyzer writes.
- `Selection` (`selection.dfy`):
  - the cuts and how many of them an event passes;
  - the weighted stage counters and what one event adds to them;
  - the order in which histograms are filled;
  - a run over a sequence of events.
- `TTbarAnalysis` (`ttbar_analyzer.dfy`): the `TTbarAnalyzer` class. Its
  mutable counters are fields, and `Process` updates them in place.
- `Estimator` (`estimator.dfy`): the closed-form statistics both scripts use.
  - ratios and their uncertainty;
  - the cross section and its uncertainty;
  - the luminosity (50 pb^-1, 5 % uncertainty) and the literature value.
- `Datasets` (`datasets.dfy`): the ordered analyzer dictionary as a sequence of
  entries with distinct keys, and sums of one stage's counter over the keys a
  filter keeps.
- `MyAnalysis2` (`my_analysis2.dfy`): `eff_pur_xs`, the per-stage sums and
  results, and `dif_to_lit`.
- `MyAnalysis` (`my_analysis.dfy`):
  - `calculate_xs`;
  - the listed-background sums and the consistency check;
  - the efficiency and purity after each stage;
  - the agreement of the two scripts.

Uncertainties are carried squared. Inside `eff_pur_xs` and `calculate_xs` every
uncertainty enters the formulas only as its square, so the squares lose
nothing there. A field named `...Sq` holds the square of the quantity the
source returns. The relative uncertainty (`del_xs / xs`) and the significance
(`dif / del_xs`) use the root and its sign, and "## Left out" says what is lost
for them.

## Model

| member | source | states |
|---|---|---|
| Selection.CutsPassed | TTbarAnalyzer.py:72-106 | the event passes the first k cuts exactly when the trigger fired, it has 3 to 8 jets, 1 to 2 muons, 1 to 3 b jets and missing momentum of at least 25, each condition added in cascade order; k is at most 5 |
| Selection.StagesReached | TTbarAnalyzer.py:72-106 | an event that gets past the muon cut has at least one muon, so the reconstruction's `muons[0]` is defined |
| Selection.MonotoneAcrossStages | TTbarAnalyzer.py:62-106 | ordered counters: a later stage never counts more than an earlier one |
| Selection.Record | TTbarAnalyzer.py:62-106 | the counters after one event of weight w that passed k cuts: w is added to the total and to each of the first k stage counters |
| Selection.RecordAddsWeight | TTbarAnalyzer.py:62-106 | one event adds its weight to exactly the counters of the stages it reached and leaves the others unchanged |
| Selection.RecordKeepsMonotone | TTbarAnalyzer.py:62-106 | with a non-negative weight the counters stay ordered down the cascade |
| Selection.LogAfter | TTbarAnalyzer.py:64-130 | the histogram log after one event: `no_cuts`, then one fill per passed cut in cascade order, then `top_mass` when a mass was stored |
| Selection.LogAfterAppends | TTbarAnalyzer.py:64-130 | processing an event only appends histogram fills, never changes earlier ones |
| Selection.FillsMatchCounters | TTbarAnalyzer.py:62-130 | a stage's histogram set is filled exactly when its counter is incremented, at its cascade position and under its name (`no_cuts`, `trigger`, `n_jets`, `n_muon`, `n_b_jets`, `met`); `top_mass` only when a mass was stored, and last |
| Selection.Run | TTbarAnalyzer.py:55-106 | the counters after a sequence of events, folding the counter effect of one event (`Record`) over the sequence |
| Selection.RunCountsReachingWeight | TTbarAnalyzer.py:55-106 | after a run, every counter is its initial value plus the total weight of the events that reached its stage |
| Selection.RunKeepsMonotone | TTbarAnalyzer.py:55-106 | a run over events with non-negative weights keeps the counters ordered |
| TTbarAnalysis.TTbarAnalyzer.constructor | TTbarAnalyzer.py:31-53 | the reconstruction is configured with (10.0, 2, 4); all fourteen counters start at 0; no histogram is filled yet |
| TTbarAnalysis.TTbarAnalyzer.Process | TTbarAnalyzer.py:55-130 | each stage counter grows by the weight exactly when the event reached the stage, and the unused counters are not touched; the top mass is stored exactly when the event passes every cut and the reconstructed mass is positive; the fills follow the cascade; when the event's weight is non-negative, ordered counters stay ordered |
| TTbarAnalysis.TTbarAnalyzer.ProcessAll | TTbarAnalyzer.py:55-130 | processing a sequence of events one after the other leaves the counters at `Run` of their old values over the events' contents, and the histogram log at `RunLog` of its old value, each event's fills appended in order; with non-negative weights, ordered counters stay ordered |
| TTbarAnalysis.TTbarAnalyzer.Stored | TTbarAnalyzer.py:126-130 | an event's top mass is stored exactly when it passes all five cuts and the reconstruction returns a positive mass |
| TTbarAnalysis.TTbarAnalyzer.RunLog | TTbarAnalyzer.py:64-130 | the histogram log after a sequence of events, appending each event's fills (`LogAfter`) in order |
| TTbarAnalysis.TTbarAnalyzer.RunFromIsRun | TTbarAnalyzer.py:55-106 | folding one event's counter effect over the events from position j on, as the event loop does, is `Run` over the remaining events |
| TTbarAnalysis.TTbarAnalyzer.RunLogFromIsRunLog | TTbarAnalyzer.py:64-130 | appending each event's fills from position j on, as the event loop does, is `RunLog` over the remaining events |
| TTbarAnalysis.TTbarAnalyzer.FillHistograms | TTbarAnalyzer.py:64 | one `fill_histograms` call appends its histogram set to the log and changes nothing else |
| TTbarAnalysis.TopReco.CalculateTopMass | TTbarAnalyzer.py:126 | the top mass the configured reconstruction returns for the jets, missing momentum and leading muon; its algorithm is a parameter |
| Estimator.Fraction | my_analysis2.py:74-77 | the efficiency or purity times its denominator gives the numerator; it lies in [0, 1] when the numerator is between 0 and a positive denominator; a count over itself is 1 |
| Estimator.RatioUncertaintySqIsBinomial | my_analysis2.py:75 | the squared ratio uncertainty n/d^2 + n^2/d^3 equals f(1 + f)/d, where f = n/d |
| Estimator.RatioUncertaintySq | my_analysis2.py:75-78 | the squared uncertainty n/d^2 + n^2/d^3 of a ratio n/d, the radicand of `del_e` and `del_p` (and of `del_e` at my_analysis.py:108); its meaning is stated by `RatioUncertaintySqIsBinomial` and `RatioUncertaintySqNonNeg` |
| Estimator.RatioOfWhole | my_analysis2.py:74-75 | a count over itself, as in the "Total" call of my_analysis2.py:126-134 and at my_analysis.py:135, has ratio 1 and squared uncertainty 2/d |
| Estimator.FractionOrdered | my_analysis.py:135-140 | over a positive denominator, a smaller count gives a smaller ratio |
| Estimator.RatioUncertaintySqNonNeg | my_analysis2.py:75 | a non-negative count over a positive denominator has a non-negative squared uncertainty |
| Estimator.CrossSection | my_analysis2.py:80 | the cross section times luminosity times efficiency is data minus background; it is zero exactly when they are equal, and, for a positive denominator, positive exactly when data exceeds background |
| Estimator.CrossSectionUncertaintySq | my_analysis2.py:81-84 | the four-term radicand of `del_xs` (also my_analysis.py:111-114): data and background Poisson terms, the efficiency term and the luminosity term; its meaning is stated by `CrossSectionUncertaintyDecomposes` |
| Estimator.CrossSectionUncertaintyDecomposes | my_analysis2.py:81-84 | the four-term quadrature sum is the counting variance (nData + nBkg)/(eL)^2 plus xs^2 times the squared relative uncertainties of efficiency and luminosity |
| Estimator.CrossSectionUncertaintySqNonNeg | my_analysis2.py:81-84 | with non-negative counts and efficiency variance, the squared uncertainty is non-negative |
| Estimator.EfficiencyTermIsRelative | my_analysis2.py:83 | the efficiency term ((nBkg - nData) del_e/(L e^2))^2 is xs^2 (del_e/e)^2 |
| Estimator.LuminosityTermIsRelative | my_analysis2.py:84 | the luminosity term ((nBkg - nData) del_L/(L^2 e))^2 is xs^2 (del_L/L)^2 |
| Datasets.Lookup | my_analysis2.py:91-103 | `analyzers[key]` returns the counters stored under that key |
| Datasets.SumWhere | my_analysis2.py:105-124 | the sum of one stage's counter over the dictionary entries whose key a filter keeps (also my_analysis.py:73-88); its meaning is stated by the `Sum...` lemmas below |
| Datasets.SumSplit | my_analysis2.py:105-124 | a sum over a filter that splits into two disjoint filters is the sum of the two partial sums |
| Datasets.SumOfNone | my_analysis2.py:105-124 | a filter that keeps no key sums to 0 |
| Datasets.SumOfOneName | my_analysis2.py:91-117 | with unique keys, summing over the single key `name` gives `analyzers[name]`'s counter |
| Datasets.SumNonNeg | my_analysis2.py:105-124 | counters that are non-negative in every kept entry sum to a non-negative value |
| Datasets.SumDecreasesDownCascade | my_analysis2.py:105-124 | when every analyzer's counters are ordered, every filtered sum is ordered down the cascade |
| Datasets.SumGrowsWithFilter | my_analysis2.py:105-124 | with non-negative counters, a filter that keeps more keys sums to at least as much |
| MyAnalysis2.EffPurXs | my_analysis2.py:60-88 | efficiency times total signal and purity times selected simulation give the selected signal; the efficiency lies in [0, 1] for sane counts; the squared uncertainties of e and p are the binomial-like e(1+e)/n_sigtot and p(1+p)/n_MCsel; xs L e = data - background, with xs nonzero and, when L e > 0, its sign that of data minus background; the relative uncertainty is in percent |
| MyAnalysis2.EffPurXsUncertaintyDecomposes | my_analysis2.py:81-84 | the returned cross-section uncertainty is the counting term plus xs^2 times the squared relative uncertainties of efficiency and luminosity |
| MyAnalysis2.EffPurXsUncertaintyNonNeg | my_analysis2.py:75-86 | with non-negative counts every returned squared uncertainty is non-negative |
| MyAnalysis2.SumsAt | my_analysis2.py:91-124 | at each stage, simulation = background + ttbar and all = simulation + data, with ttbar and data the looked-up counters |
| MyAnalysis2.StageResult | my_analysis2.py:126-184 | the `eff_pur_xs` call of one stage: that stage's data, background, ttbar and simulation sums with the generated ttbar count, L = 50 and del_L = 2.5 |
| MyAnalysis2.TotalStageEfficiencyIsOne | my_analysis2.py:126-134 | before any cut the efficiency is exactly 1 and its squared uncertainty is 2 over the generated ttbar count |
| MyAnalysis2.StageEfficiencyAndPurityBounded | my_analysis2.py:126-200 | with ordered non-negative counters, every stage's efficiency and purity lie in [0, 1] |
| MyAnalysis2.StageSumsDecrease | my_analysis2.py:91-124 | with ordered counters, every stage sum (ttbar, data, background, simulation, all) never grows down the cascade |
| MyAnalysis2.DifToLit | my_analysis2.py:235-240 | the difference is xs - 173, and the significance is non-negative, equals the absolute difference over the absolute uncertainty, and is zero exactly when xs equals the literature value |
| MyAnalysis2.SignificanceFromSquaredUncertainty | my_analysis2.py:235-240 | the squared significance is the squared difference over the squared uncertainty |
| MyAnalysis.ListedBackgroundIsBackground | my_analysis.py:71 | no listed background process is named like the data or the ttbar dataset |
| MyAnalysis.CalculateXs | my_analysis.py:94-118 | xs L e = data - background with xs nonzero; the relative uncertainty is a plain fraction, del_xs/xs |
| MyAnalysis.CalculateXsAgreesWithEffPurXs | my_analysis.py:94-118 | both scripts compute the same cross section and uncertainty from the same counts; the other script's relative uncertainty is 100 times this one |
| MyAnalysis.CalculateXsUncertaintyDecomposes | my_analysis.py:111-114 | the four-term quadrature sum is the counting term plus xs^2 times the squared relative uncertainties of efficiency and luminosity |
| MyAnalysis.CalculateXsUncertaintyNonNeg | my_analysis.py:106-116 | with non-negative counts the squared uncertainty and squared relative uncertainty are non-negative |
| MyAnalysis.ListedSumsAt | my_analysis.py:57-88 | all = simulation + data, and simulation = ttbar + listed background + the keys in no group |
| MyAnalysis.BackgroundDefinitionsAgree | my_analysis.py:55-77 | when every key is data, ttbar or a listed process, the listed-background sum equals the "neither data nor ttbar" sum |
| MyAnalysis.ConsistencyCheckHolds | my_analysis.py:87-133 | the total over all datasets equals data + ttbar + listed background exactly when the unlisted keys sum to 0, in particular whenever every key is covered (in exact arithmetic the printed check is then blank; the script's float sums, taken in different orders, can still differ by rounding) |
| MyAnalysis.ConsistencyCheckBound | my_analysis.py:87-133 | with non-negative counters the total is at least data + ttbar + listed background |
| MyAnalysis.StageEfficiency | my_analysis.py:135-140 | the efficiency times the generated ttbar count is the stage's ttbar count |
| MyAnalysis.StagePurity | my_analysis.py:144-149 | the purity times the stage's simulation sum is the stage's ttbar count |
| MyAnalysis.EfficiencyAtNoSelectionIsOne | my_analysis.py:135 | the efficiency after no selection is 1 |
| MyAnalysis.StageEfficiencyBounded | my_analysis.py:135-140 | with ordered non-negative ttbar counters, every efficiency lies in [0, 1] and never grows down the cascade |
| MyAnalysis.StagePurityBounded | my_analysis.py:144-149 | simulation includes ttbar, so with non-negative simulated counters every purity lies in [0, 1] |
| MyAnalysis.StageCrossSection | my_analysis.py:153-158 | the `calculate_xs` call of one stage: that stage's data, listed-background and ttbar sums with the generated ttbar count, L = 50 and del_L = 2.5 |
| MyAnalysis.ScriptsAgreeOnCoveredKeys | my_analysis.py:153-158 | when every key is covered, this script's per-stage cross section and uncertainty equal the other script's |

## Left out

- The top-quark reconstruction algorithm (`TopReco.calculateTopMass`): its source is not part of this model. It is a function-valued parameter of the analyzer, and a non-positive result means "not reconstructed".
- Histograms are ROOT objects. The model records only which histogram set is filled and in what order, as a ghost log.
- `MET.pt()` in `uhhObjects.py` refers to unbound names. The model takes the missing transverse momentum as a field of the event.
- The event loop of the analyzer base class is not part of this model, nor are file reading, the dataset-to-file maps, plotting, the mass fit and console output. `TTbarAnalysis.TTbarAnalyzer.ProcessAll` stands in for the loop by calling `Process` on each event in order. `Selection.Run` folds only the counter effect of one event (`Record`) and carries no histogram log and no top mass.
- Floating-point rounding: counts and weights are exact reals.
- Square roots: every uncertainty is returned squared. `(n**0.5)**2` is taken as `n` for every `n`, including negative counts, where Python goes through a complex number.
- MyAnalysis2.EffPurXs: returns squared uncertainties, so the sign of the relative cross-section uncertainty is lost. Its uncertainty decomposition and non-negativity are stated in separate lemmas.
- MyAnalysis.CalculateXs: returns the squared uncertainties, so the sign of `rel_del_xs` is lost.
- MyAnalysis2.DifToLit: takes the root uncertainty `del_xs` as given. It is tied to the squared uncertainty by `SignificanceFromSquaredUncertainty`.
- Division by zero and missing dictionary keys make the scripts raise. Such inputs are excluded by preconditions: zero generated or selected signal, zero selected simulation, data equal to background, and a missing `Data`, `TTbar` or `IsoMu24` key.
- The consistency check is printed for the `met` and `n_b_jets` stages only. `MyAnalysis.ConsistencyCheckHolds` states it for every stage.
- TTbarAnalysis.TTbarAnalyzer.ProcessAll: states the counters and the histogram log after the run, but not each event's stored top mass. `Process` states that for one event (the reconstructed mass when stored, the old value otherwise). Over a sequence in which the same event object may occur more than once, that proof is beyond the prover budget of this model.
- The `muon_phi` and `n_data_*` counters are declared and never updated. `TTbarAnalysis.TTbarAnalyzer.Process` leaves them alone through its `modifies` frame.
