/**
 * The CVSS v3.x base score of a parsed vector: the missing-metric check, the
 * weight lookups, the Impact Sub-Score, Impact and Exploitability equations
 * with their scope-dependent branch (section 7.1 of the CVSS v3.1
 * specification document), the clamp, the one-decimal rounding and the
 * severity band (section 5).
 *
 * Arithmetic is exact (`real`). The calculator rounds with Python's
 * `round(x, 1)`, modelled here as rounding half up to one decimal; it does not
 * use the Roundup function of Appendix A of the specification.
 */
module CvssScore {
  import opened Common
  import opened CvssMetrics

  /** The qualitative severity rating; `NoneRating` is the band called "NONE". */
  datatype Severity = Critical | High | Medium | Low | NoneRating

  datatype ScoreError =
    | MissingMetrics(codes: seq<string>)
    | InvalidMetricValue(value: string)

  datatype ScoreResult = ScoreResult(
    baseScore: real,
    impactScore: real,
    exploitabilityScore: real,
    severity: Severity,
    scope: Scope,
    metrics: BaseMetrics)

  /** The codes that must be present, in the order they are reported missing. */
  const Required: seq<string> := ["AV", "AC", "PR", "UI", "S", "C", "I", "A"]

  /** The order in which the weights are looked up; the first bad value is reported. */
  const LookupOrder: seq<string> := ["AV", "AC", "UI", "S", "PR", "C", "I", "A"]

  /** `metrics.get(code, "")` */
  function ValueOf(metrics: map<string, string>, code: string): string
  {
    if code in metrics then metrics[code] else ""
  }

  /** The codes of `codes` whose value is absent or empty, in the order of `codes`. */
  function Missing(metrics: map<string, string>, codes: seq<string>): (r: seq<string>)
    ensures |r| <= |codes|
  {
    if codes == [] then []
    else (if ValueOf(metrics, codes[0]) == "" then [codes[0]] else []) + Missing(metrics, codes[1..])
  }

  /** The missing list holds exactly the absent or empty codes, and is empty exactly when none is. */
  lemma {:induction false} MissingMembers(metrics: map<string, string>, codes: seq<string>)
    ensures forall x :: x in Missing(metrics, codes) <==> x in codes && ValueOf(metrics, x) == ""
    ensures Missing(metrics, codes) == [] <==> forall x | x in codes :: ValueOf(metrics, x) != ""
  {
    if codes != [] {
      MissingMembers(metrics, codes[1..]);
      assert codes == [codes[0]] + codes[1..];
    }
  }

  /**
   * The missing list keeps the order of `codes`: the codes of a longer list
   * are reported after those of its start.
   */
  lemma {:induction false} MissingAppend(metrics: map<string, string>, a: seq<string>, b: seq<string>)
    ensures Missing(metrics, a + b) == Missing(metrics, a) + Missing(metrics, b)
    decreases |a|
  {
    if a != [] {
      assert (a + b)[0] == a[0];
      assert (a + b)[1..] == a[1..] + b;
      MissingAppend(metrics, a[1..], b);
    } else {
      assert a + b == b;
    }
  }

  function Lookup<T>(found: Option<T>, key: string): Result<T, ScoreError>
  {
    match found
    case Some(v) => Success(v)
    case None => Failure(InvalidMetricValue(key))
  }

  /** The weight lookups; a failed one reports the letter that was not in its table. */
  function Resolve(metrics: map<string, string>): Result<BaseMetrics, ScoreError>
  {
    var av := ValueOf(metrics, "AV");
    var ac := ValueOf(metrics, "AC");
    var pr := ValueOf(metrics, "PR");
    var ui := ValueOf(metrics, "UI");
    var s := ValueOf(metrics, "S");
    var c := ValueOf(metrics, "C");
    var i := ValueOf(metrics, "I");
    var a := ValueOf(metrics, "A");
    var avV :- Lookup(ParseAv(av), av);
    var acV :- Lookup(ParseAc(ac), ac);
    var uiV :- Lookup(ParseUi(ui), ui);
    var sV :- Lookup(ParseScope(s), s);
    var prV :- Lookup(ParsePr(pr), pr);
    var cV :- Lookup(ParseCia(c), c);
    var iV :- Lookup(ParseCia(i), i);
    var aV :- Lookup(ParseCia(a), a);
    Success(BaseMetrics(avV, acV, prV, uiV, sV, cV, iV, aV))
  }

  /** Whether the weight table of the `k`-th code in lookup order has an entry for its value. */
  predicate AcceptedAt(metrics: map<string, string>, k: nat)
    requires k < |LookupOrder|
  {
    var value := ValueOf(metrics, LookupOrder[k]);
    match k
    case 0 => ParseAv(value).Some?
    case 1 => ParseAc(value).Some?
    case 2 => ParseUi(value).Some?
    case 3 => ParseScope(value).Some?
    case 4 => ParsePr(value).Some?
    case _ => ParseCia(value).Some?
  }

  /** `LookupOrder[k]` is the first code, in lookup order, whose value has no weight. */
  predicate FirstRejected(metrics: map<string, string>, k: nat)
  {
    k < |LookupOrder| && !AcceptedAt(metrics, k)
    && forall j | 0 <= j < k :: AcceptedAt(metrics, j)
  }

  /** The lookups succeed exactly when every value has a weight. */
  lemma ResolveSucceeds(metrics: map<string, string>)
    ensures Resolve(metrics).Success? <==> forall k | 0 <= k < |LookupOrder| :: AcceptedAt(metrics, k)
  {
    if forall k | 0 <= k < |LookupOrder| :: AcceptedAt(metrics, k) {
      assert AcceptedAt(metrics, 0) && AcceptedAt(metrics, 1) && AcceptedAt(metrics, 2);
      assert AcceptedAt(metrics, 3) && AcceptedAt(metrics, 4) && AcceptedAt(metrics, 5);
      assert AcceptedAt(metrics, 6) && AcceptedAt(metrics, 7);
    }
  }

  /** On success each metric is the one its letter names. */
  lemma ResolveLetters(metrics: map<string, string>)
    ensures Resolve(metrics).Success? ==>
      var m := Resolve(metrics).value;
      AvLetter(m.av) == ValueOf(metrics, "AV") && AcLetter(m.ac) == ValueOf(metrics, "AC")
      && PrLetter(m.pr) == ValueOf(metrics, "PR") && UiLetter(m.ui) == ValueOf(metrics, "UI")
      && ScopeLetter(m.s) == ValueOf(metrics, "S") && CiaLetter(m.c) == ValueOf(metrics, "C")
      && CiaLetter(m.i) == ValueOf(metrics, "I") && CiaLetter(m.a) == ValueOf(metrics, "A")
  {
    if Resolve(metrics).Success? {
      var m := Resolve(metrics).value;
      LettersRoundTrip(m, ValueOf(metrics, "AV"));
      LettersRoundTrip(m, ValueOf(metrics, "AC"));
      LettersRoundTrip(m, ValueOf(metrics, "PR"));
      LettersRoundTrip(m, ValueOf(metrics, "UI"));
      LettersRoundTrip(m, ValueOf(metrics, "S"));
      LettersRoundTrip(m, ValueOf(metrics, "C"));
      LettersRoundTrip(m, ValueOf(metrics, "I"));
      LettersRoundTrip(m, ValueOf(metrics, "A"));
    }
  }

  /** A dictionary holding the letters of some base metrics resolves to exactly those metrics. */
  lemma ResolveOfLetters(metrics: map<string, string>, m: BaseMetrics)
    requires ValueOf(metrics, "AV") == AvLetter(m.av) && ValueOf(metrics, "AC") == AcLetter(m.ac)
    requires ValueOf(metrics, "PR") == PrLetter(m.pr) && ValueOf(metrics, "UI") == UiLetter(m.ui)
    requires ValueOf(metrics, "S") == ScopeLetter(m.s) && ValueOf(metrics, "C") == CiaLetter(m.c)
    requires ValueOf(metrics, "I") == CiaLetter(m.i) && ValueOf(metrics, "A") == CiaLetter(m.a)
    ensures Resolve(metrics) == Success(m)
  {
    LettersRoundTrip(m, "");
    LettersRoundTrip(m.(c := m.i), "");
    LettersRoundTrip(m.(c := m.a), "");
  }

  /** A failed lookup reports the value of the first code, in lookup order, that has no weight. */
  lemma ResolveReportsFirstRejected(metrics: map<string, string>)
    ensures Resolve(metrics).Failure? ==>
      exists k: nat :: FirstRejected(metrics, k)
        && Resolve(metrics).error == InvalidMetricValue(ValueOf(metrics, LookupOrder[k]))
  {
    if Resolve(metrics).Failure? {
      var k: nat := if !AcceptedAt(metrics, 0) then 0 else if !AcceptedAt(metrics, 1) then 1
        else if !AcceptedAt(metrics, 2) then 2 else if !AcceptedAt(metrics, 3) then 3
        else if !AcceptedAt(metrics, 4) then 4 else if !AcceptedAt(metrics, 5) then 5
        else if !AcceptedAt(metrics, 6) then 6 else 7;
      assert FirstRejected(metrics, k);
    }
  }

  // ------------------------------------------------------------ equations

  function Pow(x: real, n: nat): real
  {
    if n == 0 then 1.0 else x * Pow(x, n - 1)
  }

  /** Impact Sub-Score: 1 - (1 - C) * (1 - I) * (1 - A). */
  function Iss(m: BaseMetrics): real
  {
    1.0 - ((1.0 - CiaWeight(m.c)) * (1.0 - CiaWeight(m.i)) * (1.0 - CiaWeight(m.a)))
  }

  function Impact(m: BaseMetrics): real
  {
    var iss := Iss(m);
    match m.s
    case Unchanged => 6.42 * iss
    case Changed => 7.52 * (iss - 0.029) - 3.25 * Pow(iss - 0.02, 15)
  }

  function Exploitability(m: BaseMetrics): real
  {
    8.22 * AvWeight(m.av) * AcWeight(m.ac) * PrWeight(m.pr, m.s) * UiWeight(m.ui)
  }

  function Min(x: real, y: real): real
  {
    if x <= y then x else y
  }

  /** A number with at most one decimal. */
  predicate OneDecimal(r: real)
  {
    (10.0 * r).Floor as real == 10.0 * r
  }

  /** Rounding to the nearest one-decimal number, halves upwards. */
  function Round1(x: real): (r: real)
    ensures OneDecimal(r)
    ensures x - 0.05 < r <= x + 0.05
  {
    ((10.0 * x + 0.5).Floor as real) / 10.0
  }

  /** The base score: 0 without impact, else the clamped and then rounded sum. */
  function BaseScore(m: BaseMetrics): real
  {
    var impact := Impact(m);
    var sum := impact + Exploitability(m);
    var clamped :=
      if impact <= 0.0 then 0.0
      else if m.s == Unchanged then Min(10.0, sum)
      else Min(10.0, 1.08 * sum);
    Round1(clamped)
  }

  function SeverityOf(score: real): Severity
  {
    if score >= 9.0 then Critical
    else if score >= 7.0 then High
    else if score >= 4.0 then Medium
    else if score > 0.0 then Low
    else NoneRating
  }

  function Score(m: BaseMetrics): ScoreResult
  {
    var base := BaseScore(m);
    ScoreResult(base, Round1(Impact(m)), Round1(Exploitability(m)), SeverityOf(base), m.s, m)
  }

  /** `calculate_cvss3_base_score`: missing metrics first, then the lookups, then the score. */
  function CalculateBaseScore(metrics: map<string, string>): Result<ScoreResult, ScoreError>
  {
    var missing := Missing(metrics, Required);
    if missing != [] then Failure(MissingMetrics(missing))
    else
      var m :- Resolve(metrics);
      Success(Score(m))
  }

  /** When no code has a value, every code is reported, in order. */
  lemma {:induction false} MissingAll(metrics: map<string, string>, codes: seq<string>)
    requires forall k | 0 <= k < |codes| :: ValueOf(metrics, codes[k]) == ""
    ensures Missing(metrics, codes) == codes
  {
    if codes != [] {
      MissingAll(metrics, codes[1..]);
    }
  }

  /** An empty vector reports all eight codes as missing. */
  lemma EmptyMetricsMissing()
    ensures CalculateBaseScore(map[]) == Failure(MissingMetrics(Required))
  {
    var empty: map<string, string> := map[];
    assert forall k | 0 <= k < |Required| :: Required[k] !in empty;
    MissingAll(empty, Required);
    assert Required != [];
  }

  /**
   * The calculation fails with missing metrics exactly when some required
   * code is absent or empty, whatever the other values are.
   */
  lemma CalculateReportsMissing(metrics: map<string, string>)
    ensures CalculateBaseScore(metrics).Failure? && CalculateBaseScore(metrics).error.MissingMetrics?
      <==> exists code :: code in Required && ValueOf(metrics, code) == ""
    ensures CalculateBaseScore(metrics).Failure? && CalculateBaseScore(metrics).error.MissingMetrics? ==>
      CalculateBaseScore(metrics).error.codes == Missing(metrics, Required)
  {
    MissingMembers(metrics, Required);
    var missing := Missing(metrics, Required);
    if missing != [] {
      assert CalculateBaseScore(metrics) == Failure(MissingMetrics(missing));
    }
  }

  /**
   * With every code present, the calculation fails exactly when some value has
   * no weight, and reports the first such value in lookup order.
   */
  lemma CalculateReportsInvalid(metrics: map<string, string>)
    requires forall code | code in Required :: ValueOf(metrics, code) != ""
    ensures CalculateBaseScore(metrics).Failure? <==> exists k: nat :: FirstRejected(metrics, k)
    ensures CalculateBaseScore(metrics).Failure? ==>
      exists k: nat :: FirstRejected(metrics, k)
        && CalculateBaseScore(metrics).error == InvalidMetricValue(ValueOf(metrics, LookupOrder[k]))
  {
    MissingMembers(metrics, Required);
    ResolveReportsFirstRejected(metrics);
    ResolveSucceeds(metrics);
  }

  /**
   * A result carries a one-decimal base score in [0, 10], its severity band,
   * its scope, and metrics whose letters are the input's values.
   */
  lemma CalculateResult(metrics: map<string, string>)
    requires CalculateBaseScore(metrics).Success?
    ensures var r := CalculateBaseScore(metrics).value;
      && 0.0 <= r.baseScore <= 10.0 && OneDecimal(r.baseScore)
      && r.severity == SeverityOf(r.baseScore)
      && r.scope == r.metrics.s
      && r.metrics == Resolve(metrics).value
  {
    BaseScoreRange(Resolve(metrics).value);
  }

  // --------------------------------------------------------------- bounds

  function Abs(x: real): real
  {
    if x < 0.0 then -x else x
  }

  lemma {:induction false} PowUnit(x: real, n: nat)
    requires -1.0 <= x <= 1.0
    ensures -1.0 <= Pow(x, n) <= 1.0
  {
    if n > 0 {
      PowUnit(x, n - 1);
      ScaledBound(x, Pow(x, n - 1));
      var q := x * Pow(x, n - 1);
      assert -Abs(x) <= q <= Abs(x);
      assert Abs(x) <= 1.0;
      assert -1.0 <= q <= 1.0;
      assert Pow(x, n) == q;
    }
  }

  /** A positive power of a number in [-1, 1] is no larger in magnitude than the number. */
  lemma PowBound(x: real, n: nat)
    requires -1.0 <= x <= 1.0 && n >= 1
    ensures -Abs(x) <= Pow(x, n) <= Abs(x)
  {
    PowUnit(x, n - 1);
    ScaledBound(x, Pow(x, n - 1));
  }

  lemma ScaledBound(a: real, b: real)
    requires -1.0 <= b <= 1.0
    ensures -Abs(a) <= a * b <= Abs(a)
  {
    if a < 0.0 {
      var c := -a;
      assert a * b == -(c * b);
      assert c * b <= c * 1.0 && c * b >= c * -1.0;
    } else {
      assert a * b <= a * 1.0 && a * b >= a * -1.0;
    }
  }

  predicate NoImpact(m: BaseMetrics)
  {
    m.c == CiaNone && m.i == CiaNone && m.a == CiaNone
  }

  /**
   * The Impact Sub-Score lies in [0, 1 - 0.44^3]; it is 0 exactly when C, I
   * and A are all None, and at least 0.22 otherwise.
   */
  lemma IssRange(m: BaseMetrics)
    ensures 0.0 <= Iss(m) <= 0.914816
    ensures Iss(m) == 0.0 <==> NoImpact(m)
    ensures !NoImpact(m) ==> Iss(m) >= 0.22
  {
    var x, y, z := 1.0 - CiaWeight(m.c), 1.0 - CiaWeight(m.i), 1.0 - CiaWeight(m.a);
    assert 0.44 <= x <= 1.0 && 0.44 <= y <= 1.0 && 0.44 <= z <= 1.0;
    assert x * y <= 1.0 * y <= 1.0 && x * y >= 0.44 * y >= 0.44 * 0.44;
    assert x * y * z <= 1.0 && x * y * z >= 0.44 * 0.44 * 0.44;
    if !NoImpact(m) {
      if m.c != CiaNone {
        assert x <= 0.78;
        assert x * y <= 0.78 * y <= 0.78;
        assert x * y * z <= 0.78 * z <= 0.78;
      } else if m.i != CiaNone {
        assert y <= 0.78;
        assert x * y <= x * 0.78 <= 0.78;
        assert x * y * z <= 0.78 * z <= 0.78;
      } else {
        assert z <= 0.78;
        assert x * y * z <= x * y * 0.78 <= 0.78;
      }
    }
  }

  /** Exploitability is positive and at most 8.22. */
  lemma ExploitabilityRange(m: BaseMetrics)
    ensures 0.0 < Exploitability(m) <= 8.22
  {
    WeightBounds(m);
    var av, ac, pr, ui := AvWeight(m.av), AcWeight(m.ac), PrWeight(m.pr, m.s), UiWeight(m.ui);
    var p1 := 8.22 * av;
    assert 0.0 < p1 <= 8.22;
    var p2 := p1 * ac;
    assert 0.0 < p2 <= p1 * 1.0;
    var p3 := p2 * pr;
    assert 0.0 < p3 <= p2 * 1.0;
    var p4 := p3 * ui;
    assert 0.0 < p4 <= p3 * 1.0;
  }

  /** Impact is positive whenever some of C, I, A is not None, and never positive otherwise. */
  lemma ImpactSign(m: BaseMetrics)
    ensures !NoImpact(m) ==> Impact(m) > 0.78
    ensures NoImpact(m) ==> Impact(m) < 0.0 || (m.s == Unchanged && Impact(m) == 0.0)
  {
    var iss := Iss(m);
    IssRange(m);
    if m.s == Changed {
      PowBound(iss - 0.02, 15);
      if NoImpact(m) {
        assert iss == 0.0;
        assert Impact(m) <= 7.52 * -0.029 + 3.25 * 0.02;
      } else {
        assert Impact(m) >= 7.52 * (iss - 0.029) - 3.25 * (iss - 0.02);
      }
    }
  }

  lemma Round1Range(x: real)
    requires 0.0 <= x <= 10.0
    ensures 0.0 <= Round1(x) <= 10.0
  {
  }

  /** Every base score is a one-decimal number in [0, 10]. */
  lemma BaseScoreRange(m: BaseMetrics)
    ensures 0.0 <= BaseScore(m) <= 10.0 && OneDecimal(BaseScore(m))
  {
    ExploitabilityRange(m);
    ImpactSign(m);
    var impact := Impact(m);
    var sum := impact + Exploitability(m);
    if impact > 0.0 {
      if m.s == Unchanged {
        Round1Range(Min(10.0, sum));
      } else {
        Round1Range(Min(10.0, 1.08 * sum));
      }
    } else {
      Round1Range(0.0);
    }
  }

  /**
   * The base score is 0.0, and the severity NONE, exactly when Confidentiality,
   * Integrity and Availability are all None, in either scope.
   */
  lemma ZeroScoreIffNoImpact(m: BaseMetrics)
    ensures BaseScore(m) == 0.0 <==> NoImpact(m)
    ensures SeverityOf(BaseScore(m)) == NoneRating <==> NoImpact(m)
  {
    ExploitabilityRange(m);
    ImpactSign(m);
    BaseScoreRange(m);
    var impact := Impact(m);
    var sum := impact + Exploitability(m);
    if !NoImpact(m) {
      var clamped := if m.s == Unchanged then Min(10.0, sum) else Min(10.0, 1.08 * sum);
      assert clamped > 0.78;
      assert BaseScore(m) == Round1(clamped) > 0.0;
    } else {
      assert Round1(0.0) == 0.0;
    }
  }

  // ------------------------------------------------------------- severity

  function SeverityRank(s: Severity): nat
  {
    match s
    case NoneRating => 0
    case Low => 1
    case Medium => 2
    case High => 3
    case Critical => 4
  }

  /** A higher score never falls in a lower band. */
  lemma SeverityMonotone(x: real, y: real)
    requires x <= y
    ensures SeverityRank(SeverityOf(x)) <= SeverityRank(SeverityOf(y))
  {
  }

  /**
   * On one-decimal scores in [0, 10] the bands are the ranges the calculator
   * prints in its legend: CRITICAL 9.0-10.0, HIGH 7.0-8.9, MEDIUM 4.0-6.9,
   * LOW 0.1-3.9, NONE 0.0.
   */
  lemma SeverityLegend(score: real)
    requires OneDecimal(score) && 0.0 <= score <= 10.0
    ensures SeverityOf(score) == Critical <==> 9.0 <= score <= 10.0
    ensures SeverityOf(score) == High <==> 7.0 <= score <= 8.9
    ensures SeverityOf(score) == Medium <==> 4.0 <= score <= 6.9
    ensures SeverityOf(score) == Low <==> 0.1 <= score <= 3.9
    ensures SeverityOf(score) == NoneRating <==> score == 0.0
  {
    var k := (10.0 * score).Floor;
    assert score == k as real / 10.0;
  }

  // ------------------------------------------------------------- examples

  /** AV:N/AC:L/PR:N/UI:N/S:U/C:H/I:H/A:H scores 9.8, CRITICAL. */
  lemma NetworkNoPrivilegesExample()
    ensures var m := BaseMetrics(AvNetwork, AcLow, PrNone, UiNone, Unchanged, CiaHigh, CiaHigh, CiaHigh);
      BaseScore(m) == 9.8 && SeverityOf(BaseScore(m)) == Critical
  {
    var m := BaseMetrics(AvNetwork, AcLow, PrNone, UiNone, Unchanged, CiaHigh, CiaHigh, CiaHigh);
    assert Iss(m) == 0.914816;
    assert Impact(m) == 5.87311872;
    assert Exploitability(m) == 3.887042775;
    assert Round1(9.760161495) == 9.8;
  }

  /** AV:L/AC:H/PR:H/UI:R/S:U/C:L/I:L/A:N scores 2.8, LOW. */
  lemma LocalHighComplexityExample()
    ensures var m := BaseMetrics(AvLocal, AcHigh, PrHigh, UiRequired, Unchanged, CiaLow, CiaLow, CiaNone);
      BaseScore(m) == 2.8 && SeverityOf(BaseScore(m)) == Low
  {
    var m := BaseMetrics(AvLocal, AcHigh, PrHigh, UiRequired, Unchanged, CiaLow, CiaLow, CiaNone);
    assert Iss(m) == 0.3916;
    assert Impact(m) == 2.514072;
    assert Exploitability(m) == 0.332998776;
    assert Round1(2.847070776) == 2.8;
  }

  /** AV:A/AC:L/PR:N/UI:N/S:U/C:N/I:N/A:H scores 6.4, MEDIUM. */
  lemma AdjacentDenialOfServiceExample()
    ensures var m := BaseMetrics(AvAdjacent, AcLow, PrNone, UiNone, Unchanged, CiaNone, CiaNone, CiaHigh);
      BaseScore(m) == 6.4 && SeverityOf(BaseScore(m)) == Medium
  {
    var m := BaseMetrics(AvAdjacent, AcLow, PrNone, UiNone, Unchanged, CiaNone, CiaNone, CiaHigh);
    assert Iss(m) == 0.56;
    assert Impact(m) == 3.5952;
    assert Exploitability(m) == 2.83525473;
    assert Round1(6.43045473) == 6.4;
  }

  /** The fifteenth power of 0.894816, which is 0.914816 - 0.02, lies in [0.188, 0.189]. */
  lemma Pow15Example()
    ensures 0.188 <= Pow(0.894816, 15) <= 0.189
  {
    var x := 0.894816;
    assert Pow(x, 1) == x;
    assert Pow(x, 2) == x * Pow(x, 1);
    assert Pow(x, 3) == x * Pow(x, 2);
    assert Pow(x, 4) == x * Pow(x, 3);
    assert Pow(x, 5) == x * Pow(x, 4);
    assert Pow(x, 6) == x * Pow(x, 5);
    assert Pow(x, 7) == x * Pow(x, 6);
    assert Pow(x, 8) == x * Pow(x, 7);
    assert Pow(x, 9) == x * Pow(x, 8);
    assert Pow(x, 10) == x * Pow(x, 9);
    assert Pow(x, 11) == x * Pow(x, 10);
    assert Pow(x, 12) == x * Pow(x, 11);
    assert Pow(x, 13) == x * Pow(x, 12);
    assert Pow(x, 14) == x * Pow(x, 13);
    assert Pow(x, 15) == x * Pow(x, 14);
  }

  /** With every impact High and the scope changed, Impact lies in [6.047, 6.051]. */
  lemma ChangedFullImpact(m: BaseMetrics)
    requires m.s == Changed && m.c == CiaHigh && m.i == CiaHigh && m.a == CiaHigh
    ensures 6.047 <= Impact(m) <= 6.051
  {
    assert Iss(m) == 0.914816;
    Pow15Example();
  }

  /** AV:N/AC:L/PR:L/UI:N/S:C/C:H/I:H/A:H scores 9.9, CRITICAL. */
  lemma NetworkScopeChangeExample()
    ensures var m := BaseMetrics(AvNetwork, AcLow, PrLow, UiNone, Changed, CiaHigh, CiaHigh, CiaHigh);
      BaseScore(m) == 9.9 && SeverityOf(BaseScore(m)) == Critical
  {
    var m := BaseMetrics(AvNetwork, AcLow, PrLow, UiNone, Changed, CiaHigh, CiaHigh, CiaHigh);
    ChangedFullImpact(m);
    assert Exploitability(m) == 3.10963422;
    var scaled := 1.08 * (Impact(m) + Exploitability(m));
    assert 9.88 <= scaled <= 9.9;
    assert Min(10.0, scaled) == scaled;
    assert (10.0 * scaled + 0.5).Floor == 99;
  }

  /** AV:N/AC:L/PR:N/UI:N/S:C/C:H/I:H/A:H is clamped to 10.0, CRITICAL. */
  lemma NetworkScopeChangeMaximumExample()
    ensures var m := BaseMetrics(AvNetwork, AcLow, PrNone, UiNone, Changed, CiaHigh, CiaHigh, CiaHigh);
      BaseScore(m) == 10.0 && SeverityOf(BaseScore(m)) == Critical
  {
    var m := BaseMetrics(AvNetwork, AcLow, PrNone, UiNone, Changed, CiaHigh, CiaHigh, CiaHigh);
    ChangedFullImpact(m);
    assert Exploitability(m) == 3.887042775;
    assert 1.08 * (Impact(m) + Exploitability(m)) > 10.0;
    assert Round1(10.0) == 10.0;
  }

  // ----------------------------------------------------------- Roundup

  /**
   * The Roundup function of Appendix A of the CVSS v3.1 specification: the
   * smallest one-decimal number that is not below the input.
   */
  function RoundUp(x: real): (r: real)
    ensures OneDecimal(r) && x <= r < x + 0.1
  {
    var k := (-10.0 * x).Floor;
    assert 10.0 * (-(k as real) / 10.0) == (-k) as real;
    -(k as real) / 10.0
  }

  /** Half-up rounding gives Roundup's result or the one-decimal number just below it. */
  lemma Round1AtMostRoundUp(x: real)
    ensures Round1(x) == RoundUp(x) || Round1(x) == RoundUp(x) - 0.1
  {
    var up := RoundUp(x);
    var j := (10.0 * up).Floor;
    assert 10.0 * up == j as real;
    var k := (10.0 * x + 0.5).Floor;
    assert (j - 1) as real < 10.0 * x <= j as real;
    if 10.0 * x + 0.5 >= j as real {
      assert k == j;
    } else {
      assert k == j - 1;
    }
  }

  /**
   * For AV:A/AC:L/PR:N/UI:N/S:U/C:N/I:N/A:H the calculator prints 6.4 where
   * Appendix A's Roundup gives 6.5.
   */
  lemma AdjacentRoundUpDiffers()
    ensures var m := BaseMetrics(AvAdjacent, AcLow, PrNone, UiNone, Unchanged, CiaNone, CiaNone, CiaHigh);
      BaseScore(m) == 6.4 && RoundUp(Impact(m) + Exploitability(m)) == 6.5
  {
    AdjacentDenialOfServiceExample();
    var m := BaseMetrics(AvAdjacent, AcLow, PrNone, UiNone, Unchanged, CiaNone, CiaNone, CiaHigh);
    assert Impact(m) + Exploitability(m) == 6.43045473;
    assert (-10.0 * 6.43045473).Floor == -65;
  }
}
