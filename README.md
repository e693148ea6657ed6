# CARPREG II risk index

A Dafny model of the scoring core of a cardiac-risk calculator for pregnant
patients with heart disease. The CARPREG II index gives each of ten clinical
predictors an integer weight (1 to 3). A patient's score is the sum of the
weights of the predictors they present. The score, clamped into 0..5, selects
an empirically derived probability of cardiac complication.

Everything lives in module `RiskScore` (`riskscore.dfy`):

- `Predictors` and `RiskPct` are the two constant tables; probabilities are
  exact reals (`0.05`, `0.41`, ...) rather than binary floating point.
- `MinScore`/`MaxScore` are `min(risk_pct)`/`max(risk_pct)`; `RiskTableShape`
  proves they are the least and greatest keys of the table.
- `CalculateRiskScore` takes the factors as a `seq<string>`. A lone name,
  which the source wraps with `always_iterable`, is the one-element sequence.
  Python's `sum` over the generator is a left-to-right fold (`ScoreFrom`)
  that stops at the first name not in the catalogue. The exception
  `UnknownRiskFactor` is the `Failure` arm of a `Result`, carrying that name.
- `TotalWeight` is an independent, structural definition of the sum of
  weights; `ScoreIsTotalWeight` ties the fold to it.
- `CalculateRiskPercentage` clamps with the source's nested `min`/`max` and
  looks the result up.

Duplicates: the source iterates a list, so a name given twice is counted
twice (`ScoreCountsRepeats`). Set semantics (ignoring repeats) would be a
natural alternative; the model follows the code.

## Model

| member | source | states |
|---|---|---|
| RiskScore.PredictorWeights | riskscore.py:7-18 | the catalogue has ten distinct names, each weighing between 1 and 3 |
| RiskScore.Weight | riskscore.py:7-18 | looking up a registered name gives a weight between 1 and 3 |
| RiskScore.RiskTableShape | riskscore.py:20 | the table's keys are exactly MinScore..MaxScore (0..5), so these are its min and max keys, and probabilities never decrease as the score grows |
| RiskScore.ScoreFrom | riskscore.py:28-33 | the fold from position i succeeds exactly when every later name is registered, adds between 1 and 3 per remaining name, and otherwise fails naming the first unregistered name from i on |
| RiskScore.CalculateRiskScore | riskscore.py:27-34 | succeeds iff every name is registered; a successful score lies between the number of factors and three times it; a failure names the first unregistered name in iteration order |
| RiskScore.ScoreIsTotalWeight | riskscore.py:29 | on registered names the score equals the sum of the weights of every element, one term per occurrence |
| RiskScore.ScoreOfNothing | riskscore.py:29 | no factors give score 0 |
| RiskScore.ScoreOfSingleName | riskscore.py:29-33 | a lone name scores its own weight, or fails with UnknownRiskFactor carrying that name |
| RiskScore.ScoreCountsRepeats | riskscore.py:29 | a registered name given twice contributes twice its weight |
| RiskScore.ScoreAppend | riskscore.py:28-33 | scoring a concatenation: a failure in the first part wins, then one in the second, otherwise the two scores add up |
| RiskScore.TotalWeightAppend | riskscore.py:29 | the total weight of a concatenation is the sum of the two totals |
| RiskScore.ScoreOrderIndependent | riskscore.py:29 | permuting the factors changes neither whether scoring succeeds nor the score |
| RiskScore.ScoreOfUnknownName | riskscore.py:30-33 | an unregistered name fails with UnknownRiskFactor naming it, and no score is returned |
| RiskScore.CalculateRiskPercentage | riskscore.py:37-39 | total; the result is always a table entry; scores at or below 0 give 0, at or above 5 give 0.41, and scores 0..5 give exactly their table entry |
| RiskScore.RiskPercentageMonotone | riskscore.py:37-39 | a higher score never yields a lower probability |
| RiskScore.RiskPercentageClamps | riskscore.py:38-39 | every score yields the probability of its clamp into [0, 5]; -5 behaves as 0 and 999 as 5 |
| RiskScore.RiskPercentageTable | riskscore.py:20 | scores 0..5 yield 0, 0.05, 0.1, 0.15, 0.22 and 0.41 |
| RiskScore.MechanicalValveWithPulmonaryHypertension | riskscore.py:7-39 | a mechanical valve with pulmonary hypertension scores 3 + 2 = 5, probability 0.41 |
| RiskScore.LatePregnancyAssessmentOnly | riskscore.py:7-39 | late pregnancy assessment alone scores 1, probability 0.05 |
| RiskScore.NoFactors | riskscore.py:27-39 | no factors score 0, probability 0 |

## Left out

- The web front end in `mvp.py` (layout, dropdown, charts, server start-up): presentation over a UI framework, with no logic of its own.
- `predictors_figure`, which `mvp.py` reads from the scoring module: chart rendering, and not defined in `riskscore.py`.
- The internals of `more_itertools.always_iterable`: a foreign library; only its effect (a lone name becomes a one-element sequence) is modelled, by taking a sequence.
- Other argument types that Python would accept (for example `None`, which `always_iterable` turns into no factors): the annotated type is a string or a list of strings.
- Floating-point representation of the probabilities: they are exact reals here, so `0.1` is one tenth exactly.
- The text of the exception message: only the offending name it carries is modelled.
