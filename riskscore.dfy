/** The CARPREG II risk index: a catalogue of weighted predictors, the sum of
    the weights of the predictors a patient presents, and the table that maps
    the (clamped) score to a probability of cardiac complication. */
module RiskScore {

  /** Predictor name -> integer weight (riskscore.py:7-18). */
  const Predictors: map<string, int> := map[
    "Prior cardiac events or arrhythmias" := 3,
    "Baseline NYHA III-IV or cyanosis" := 3,
    "Mechanical valve" := 3,
    "Ventricular dysfunction" := 2,
    "High risk left-sided valve disease/left ventricular outflow tract obstruction" := 2,
    "Pulmonary hypertension" := 2,
    "Coronary artery disease" := 2,
    "High risk aortopath" := 2,
    "No prior cardiac intervention" := 1,
    "Late pregnancy assessment" := 1
  ]

  /** Score -> probability of complication, as exact reals (riskscore.py:20). */
  const RiskPct: map<int, real> := map[0 := 0.0, 1 := 0.05, 2 := 0.1, 3 := 0.15, 4 := 0.22, 5 := 0.41]

  /** The exception raised for a name that is not in the catalogue; it carries that name. */
  datatype UnknownRiskFactor = UnknownRiskFactor(factor: string)

  datatype Result<T> = Success(value: T) | Failure(error: UnknownRiskFactor)

  // ---------------------------------------------------------------------------
  // The tables
  // ---------------------------------------------------------------------------

  /** The catalogue has ten entries, each weighing 1, 2 or 3. */
  lemma PredictorWeights()
    ensures |Predictors| == 10
    ensures forall name :: name in Predictors ==> 1 <= Predictors[name] <= 3
  {
  }

  /** `min(risk_pct)` and `max(risk_pct)`: the least and the greatest score in the table. */
  const MinScore := 0
  const MaxScore := 5

  /** The risk table covers exactly the scores MinScore..MaxScore, so those are its least
      and greatest keys, and it is non-decreasing. */
  lemma RiskTableShape()
    ensures forall s :: s in RiskPct <==> MinScore <= s <= MaxScore
    ensures forall s, t :: s in RiskPct && t in RiskPct && s <= t ==> RiskPct[s] <= RiskPct[t]
  {
  }

  // ---------------------------------------------------------------------------
  // calculate_risk_score (riskscore.py:27-34)
  // ---------------------------------------------------------------------------

  /** The name is a key of the catalogue. */
  predicate IsRegistered(name: string) {
    name in Predictors
  }

  /** The weight of a registered name: 1, 2 or 3. */
  function Weight(name: string): (w: int)
    requires IsRegistered(name)
    ensures 1 <= w <= 3
  {
    PredictorWeights();
    Predictors[name]
  }

  /** Every name in the sequence is a key of the catalogue. */
  predicate Registered(factors: seq<string>) {
    forall i :: 0 <= i < |factors| ==> IsRegistered(factors[i])
  }

  /** Position k holds the first name at or after position `from`, in iteration
      order, that is not in the catalogue. */
  predicate IsFirstUnregistered(factors: seq<string>, from: nat, k: int) {
    from <= k < |factors| && !IsRegistered(factors[k]) &&
    forall j :: from <= j < k ==> IsRegistered(factors[j])
  }

  /** Reference definition of the score: the weight of the head plus the score of the rest. */
  function TotalWeight(factors: seq<string>): int
    requires Registered(factors)
  {
    if factors == [] then 0 else Weight(factors[0]) + TotalWeight(factors[1..])
  }

  /** `sum` over the generator, from position i on, with running total `total`:
      the first name missing from the catalogue raises, and nothing after it is
      looked up. */
  function ScoreFrom(factors: seq<string>, i: nat, total: int): (r: Result<int>)
    requires i <= |factors|
    ensures r.Success? <==> forall j :: i <= j < |factors| ==> IsRegistered(factors[j])
    ensures r.Success? ==> total + (|factors| - i) <= r.value <= total + 3 * (|factors| - i)
    ensures r.Failure? ==> exists k :: IsFirstUnregistered(factors, i, k) && r.error.factor == factors[k]
    decreases |factors| - i
  {
    if i == |factors| then Success(total)
    else if !IsRegistered(factors[i]) then
      assert IsFirstUnregistered(factors, i, i);
      Failure(UnknownRiskFactor(factors[i]))
    else
      var r := ScoreFrom(factors, i + 1, total + Weight(factors[i]));
      assert r.Failure? ==> exists k :: IsFirstUnregistered(factors, i, k) && r.error.factor == factors[k] by {
        if r.Failure? {
          var k :| IsFirstUnregistered(factors, i + 1, k) && r.error.factor == factors[k];
          assert IsFirstUnregistered(factors, i, k);
        }
      }
      r
  }

  /** The CARPREG II score of the given factors; a lone name is the one-element sequence. */
  function CalculateRiskScore(factors: seq<string>): (r: Result<int>)
    ensures r.Success? <==> Registered(factors)
    ensures r.Success? ==> |factors| <= r.value <= 3 * |factors|
    ensures r.Failure? ==> exists k :: IsFirstUnregistered(factors, 0, k) && r.error.factor == factors[k]
  {
    ScoreFrom(factors, 0, 0)
  }

  /** Adds t to a successful score, passes a failure through. */
  function AddTo(r: Result<int>, t: int): Result<int> {
    match r
    case Success(x) => Success(t + x)
    case Failure(e) => Failure(e)
  }

  /** The running total only offsets a successful result. */
  lemma {:induction false} ScoreFromShift(factors: seq<string>, i: nat, total: int)
    requires i <= |factors|
    ensures ScoreFrom(factors, i, total) == AddTo(ScoreFrom(factors, i, 0), total)
    decreases |factors| - i
  {
    if i < |factors| && IsRegistered(factors[i]) {
      var w := Weight(factors[i]);
      ScoreFromShift(factors, i + 1, total + w);
      ScoreFromShift(factors, i + 1, w);
    }
  }

  lemma {:induction false} ScoreFromSuffix(a: seq<string>, b: seq<string>, j: nat, total: int)
    requires j <= |b|
    ensures ScoreFrom(a + b, |a| + j, total) == ScoreFrom(b, j, total)
    decreases |b| - j
  {
    if j < |b| {
      assert (a + b)[|a| + j] == b[j];
      if IsRegistered(b[j]) {
        ScoreFromSuffix(a, b, j + 1, total + Weight(b[j]));
      }
    }
  }

  lemma {:induction false} ScoreFromPrefix(a: seq<string>, b: seq<string>, i: nat, total: int)
    requires i <= |a|
    ensures ScoreFrom(a + b, i, total) ==
      match ScoreFrom(a, i, total)
      case Success(x) => ScoreFrom(b, 0, x)
      case Failure(e) => Failure(e)
    decreases |a| - i
  {
    if i == |a| {
      ScoreFromSuffix(a, b, 0, total);
    } else {
      assert (a + b)[i] == a[i];
      if IsRegistered(a[i]) {
        ScoreFromPrefix(a, b, i + 1, total + Weight(a[i]));
      }
    }
  }

  /** Scoring a concatenation: the first part's failure wins, then the second
      part's, and otherwise the scores add up. */
  lemma ScoreAppend(a: seq<string>, b: seq<string>)
    ensures CalculateRiskScore(a + b) ==
      match CalculateRiskScore(a)
      case Failure(e) => Failure(e)
      case Success(x) => AddTo(CalculateRiskScore(b), x)
  {
    ScoreFromPrefix(a, b, 0, 0);
    if CalculateRiskScore(a).Success? {
      ScoreFromShift(b, 0, CalculateRiskScore(a).value);
    }
  }

  lemma {:induction false} ScoreFromTotalWeight(factors: seq<string>, i: nat, total: int)
    requires i <= |factors|
    requires forall j :: i <= j < |factors| ==> IsRegistered(factors[j])
    ensures Registered(factors[i..])
    ensures ScoreFrom(factors, i, total) == Success(total + TotalWeight(factors[i..]))
    decreases |factors| - i
  {
    if i < |factors| {
      ScoreFromTotalWeight(factors, i + 1, total + Weight(factors[i]));
      assert factors[i..][1..] == factors[i + 1..];
    }
  }

  /** On registered names the score is the sum of their weights, one per occurrence. */
  lemma ScoreIsTotalWeight(factors: seq<string>)
    requires Registered(factors)
    ensures CalculateRiskScore(factors) == Success(TotalWeight(factors))
  {
    ScoreFromTotalWeight(factors, 0, 0);
    assert factors[0..] == factors;
  }

  /** No factors, score 0. */
  lemma ScoreOfNothing()
    ensures CalculateRiskScore([]) == Success(0)
  {
  }

  /** A lone name, as `always_iterable` wraps it, scores its own weight or fails naming itself. */
  lemma ScoreOfSingleName(name: string)
    ensures CalculateRiskScore([name]) ==
      if IsRegistered(name) then Success(Weight(name)) else Failure(UnknownRiskFactor(name))
  {
  }

  /** A name given twice is counted twice. */
  lemma ScoreCountsRepeats(name: string)
    requires IsRegistered(name)
    ensures CalculateRiskScore([name, name]) == Success(2 * Weight(name))
  {
    ScoreOfSingleName(name);
    ScoreAppend([name], [name]);
    assert [name] + [name] == [name, name];
  }

  /** The total weight of a concatenation is the sum of the parts' totals. */
  lemma {:induction false} TotalWeightAppend(a: seq<string>, b: seq<string>)
    requires Registered(a) && Registered(b)
    ensures Registered(a + b)
    ensures TotalWeight(a + b) == TotalWeight(a) + TotalWeight(b)
  {
    ScoreAppend(a, b);
    ScoreIsTotalWeight(a);
    ScoreIsTotalWeight(b);
    ScoreIsTotalWeight(a + b);
  }

  /** Registration depends only on which names occur, not on their order. */
  lemma RegisteredByMultiset(a: seq<string>, b: seq<string>)
    requires Registered(a) && multiset(a) == multiset(b)
    ensures Registered(b)
  {
    forall i | 0 <= i < |b| ensures IsRegistered(b[i]) {
      assert b[i] in multiset(b);
      assert b[i] in a;
    }
  }

  /** The head of a sequence occurs in any permutation of it, and what remains on either side is again a permutation. */
  lemma MatchHead(a: seq<string>, b: seq<string>) returns (k: nat)
    requires a != [] && multiset(a) == multiset(b)
    ensures k < |b| && b[k] == a[0]
    ensures multiset(a[1..]) == multiset(b[..k] + b[k + 1..])
  {
    assert a[0] in multiset(a);
    k :| 0 <= k < |b| && b[k] == a[0];
    assert a == [a[0]] + a[1..];
    assert b == b[..k] + [b[k]] + b[k + 1..];
    assert multiset(a[1..]) == multiset(a) - multiset{a[0]};
    assert multiset(b[..k] + b[k + 1..]) == multiset(b) - multiset{b[k]};
  }

  /** Taking one occurrence out of a registered sequence takes its weight off the total. */
  lemma {:induction false} TotalWeightWithout(s: seq<string>, k: nat)
    requires Registered(s) && k < |s|
    ensures Registered(s[..k] + s[k + 1..])
    ensures TotalWeight(s) == Weight(s[k]) + TotalWeight(s[..k] + s[k + 1..])
  {
    if k == 0 {
      assert s[..0] + s[1..] == s[1..];
    } else {
      var tail := s[1..];
      TotalWeightWithout(tail, k - 1);
      assert s[..k] + s[k + 1..] == [s[0]] + (tail[..k - 1] + tail[k..]);
    }
  }

  /** The total weight does not depend on the order of the names. */
  lemma {:induction false} TotalWeightPermutation(a: seq<string>, b: seq<string>)
    requires Registered(a) && multiset(a) == multiset(b)
    ensures Registered(b) && TotalWeight(a) == TotalWeight(b)
    decreases |a|
  {
    RegisteredByMultiset(a, b);
    if a == [] {
      assert b == [] by { assert |b| == |multiset(b)|; }
    } else {
      var k := MatchHead(a, b);
      TotalWeightWithout(b, k);
      TotalWeightPermutation(a[1..], b[..k] + b[k + 1..]);
    }
  }

  /** Reordering the factors does not change whether scoring succeeds, nor the score
      (the name carried by a failure can change: it is the first unknown one in order). */
  lemma ScoreOrderIndependent(a: seq<string>, b: seq<string>)
    requires multiset(a) == multiset(b)
    ensures CalculateRiskScore(a).Success? == CalculateRiskScore(b).Success?
    ensures CalculateRiskScore(a).Success? ==> CalculateRiskScore(a).value == CalculateRiskScore(b).value
  {
    if Registered(a) {
      TotalWeightPermutation(a, b);
      ScoreIsTotalWeight(a);
      ScoreIsTotalWeight(b);
    } else if Registered(b) {
      RegisteredByMultiset(b, a);
    }
  }

  /** An unknown name fails and names itself. */
  lemma ScoreOfUnknownName()
    ensures CalculateRiskScore(["not-a-real-factor"]) == Failure(UnknownRiskFactor("not-a-real-factor"))
  {
  }

  // ---------------------------------------------------------------------------
  // calculate_risk_percentage (riskscore.py:37-39)
  // ---------------------------------------------------------------------------

  function Min(a: int, b: int): int { if a <= b then a else b }

  function Max(a: int, b: int): int { if a >= b then a else b }

  /** The probability of complication for a score; total thanks to clamping. */
  function CalculateRiskPercentage(score: int): (p: real)
    ensures p in RiskPct.Values
    ensures score <= 0 ==> p == 0.0
    ensures score >= 5 ==> p == 0.41
    ensures 0 <= score <= 5 ==> p == RiskPct[score]
  {
    RiskTableShape();
    var bounded := Min(Max(MinScore, score), MaxScore);
    RiskPct[bounded]
  }

  /** A higher score never gives a lower probability. */
  lemma RiskPercentageMonotone(s: int, t: int)
    requires s <= t
    ensures CalculateRiskPercentage(s) <= CalculateRiskPercentage(t)
  {
  }

  /** Any score gives the same probability as its clamp into [0, 5]. */
  lemma RiskPercentageClamps(score: int)
    ensures CalculateRiskPercentage(score) == CalculateRiskPercentage(Min(Max(0, score), 5))
    ensures CalculateRiskPercentage(-5) == CalculateRiskPercentage(0)
    ensures CalculateRiskPercentage(999) == CalculateRiskPercentage(5)
  {
  }

  /** The table entries, looked up through the function. */
  lemma RiskPercentageTable()
    ensures CalculateRiskPercentage(0) == 0.0
    ensures CalculateRiskPercentage(1) == 0.05
    ensures CalculateRiskPercentage(2) == 0.1
    ensures CalculateRiskPercentage(3) == 0.15
    ensures CalculateRiskPercentage(4) == 0.22
    ensures CalculateRiskPercentage(5) == 0.41
  {
  }

  // ---------------------------------------------------------------------------
  // End-to-end scenarios
  // ---------------------------------------------------------------------------

  lemma MechanicalValveWithPulmonaryHypertension()
    ensures CalculateRiskScore(["Mechanical valve", "Pulmonary hypertension"]) == Success(5)
    ensures CalculateRiskPercentage(5) == 0.41
  {
  }

  lemma LatePregnancyAssessmentOnly()
    ensures CalculateRiskScore(["Late pregnancy assessment"]) == Success(1)
    ensures CalculateRiskPercentage(1) == 0.05
  {
  }

  lemma NoFactors()
    ensures CalculateRiskScore([]) == Success(0)
    ensures CalculateRiskPercentage(0) == 0.0
  {
  }
}
