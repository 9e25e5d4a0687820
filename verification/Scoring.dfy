/** The Contextual Risk Score (control-plane/app/scoring.py), over exact rationals. */
module Scoring {
  import opened Sequences

  /** Severity names. OTHER carries any text outside the table. */
  datatype Severity = CRITICAL | HIGH | MEDIUM | LOW | UNKNOWN | OTHER(text: string)

  // In each of these, the last constructor stands for a null or unlisted value.
  datatype Environment = Production | Staging | Dev | OtherEnvironment(text: string)
  datatype Classification = Pii | Financial | Phi | InternalData | PublicData | OtherData(text: string)
  datatype Exposure = InternetFacing | InternalOnly | OtherExposure(text: string)

  /** A context dict; None is a missing key. */
  datatype Context = Context(environment: Option<Environment>,
                             dataClassification: Option<Classification>,
                             complianceScope: seq<string>,
                             exposure: Option<Exposure>)

  const MAX_CONTEXTUAL_SCORE := 9.5 * 1.5 * 1.5 * 1.3 * 1.4

  function SeverityBase(severity: Severity): real {
    match severity
    case CRITICAL => 9.5
    case HIGH => 7.5
    case MEDIUM => 5.5
    case LOW => 2.5
    case _ => 1.0
  }

  function EnvironmentWeight(environment: Option<Environment>): real {
    match environment
    case None => 1.5
    case Some(Production) => 1.5
    case Some(Staging) => 1.2
    case Some(Dev) => 0.5
    case Some(OtherEnvironment(_)) => 1.0
  }

  function DataClassificationWeight(classification: Option<Classification>): real {
    match classification
    case Some(Pii) => 1.5
    case Some(Financial) => 1.5
    case Some(Phi) => 1.5
    case Some(PublicData) => 0.8
    case _ => 1.0
  }

  function ComplianceWeight(scope: seq<string>): real {
    if scope != [] then 1.3 else 1.0
  }

  function ExposureWeight(exposure: Option<Exposure>): real {
    if exposure == Some(InternetFacing) then 1.4 else 1.0
  }

  /** The factor that a context puts on every base score. */
  function Multiplier(ctx: Context): real {
    EnvironmentWeight(ctx.environment) * DataClassificationWeight(ctx.dataClassification)
    * ComplianceWeight(ctx.complianceScope) * ExposureWeight(ctx.exposure)
  }

  /** The nearest integer, a tie going to the even neighbour: Python's round. */
  function RoundHalfEven(x: real): int {
    var f := x.Floor;
    var d := x - f as real;
    if d < 0.5 || (d == 0.5 && f % 2 == 0) then f else f + 1
  }

  function Round2(x: real): real {
    RoundHalfEven(x * 100.0) as real / 100.0
  }

  function BaseScore(raw: Option<real>, severity: Severity): real {
    if raw.Some? then raw.value else SeverityBase(severity)
  }

  function UnroundedScore(raw: Option<real>, severity: Severity, ctx: Context): real {
    BaseScore(raw, severity) * Multiplier(ctx)
  }

  function ContextualScore(raw: Option<real>, severity: Severity, ctx: Context): real {
    ScaledScore(BaseScore(raw, severity), Multiplier(ctx))
  }

  function ScaledScore(base: real, multiplier: real): real {
    Round2(base * multiplier)
  }

  // ---------------------------------------------------------------------

  lemma MultiplierBounds(ctx: Context)
    ensures 0.4 <= Multiplier(ctx) <= 4.095
  {
    var e, d := EnvironmentWeight(ctx.environment), DataClassificationWeight(ctx.dataClassification);
    var c, x := ComplianceWeight(ctx.complianceScope), ExposureWeight(ctx.exposure);
  }

  lemma ProductWithin(base: real, m: real)
    requires 0.0 <= base && 0.4 <= m <= 4.095
    ensures 0.4 * base <= base * m <= 4.095 * base
  {
    assert base * (m - 0.4) >= 0.0 && base * (4.095 - m) >= 0.0;
  }

  /** Every context, valid or not, scales a base score by a factor between 0.4 and 4.095. */
  lemma ScoreBounds(raw: Option<real>, severity: Severity, ctx: Context)
    requires raw.Some? ==> raw.value >= 0.0
    ensures var base := BaseScore(raw, severity);
            0.4 * base <= UnroundedScore(raw, severity, ctx) <= 4.095 * base
    ensures raw.None? ==> UnroundedScore(raw, severity, ctx) <= MAX_CONTEXTUAL_SCORE
  {
    MultiplierBounds(ctx);
    ProductWithin(BaseScore(raw, severity), Multiplier(ctx));
  }

  /** Both ends of the interval are reached. */
  lemma BoundsAreTight()
    ensures Multiplier(Context(Some(Dev), Some(PublicData), [], None)) == 0.4
    ensures Multiplier(Context(None, Some(Pii), ["PCI-DSS"], Some(InternetFacing))) == 4.095
  {
  }

  const WORST := Context(Some(Production), Some(Pii), ["PCI-DSS"], Some(InternetFacing))

  /** A product of at most 3890.5 hundredths rounds to 38.90 or less, a larger one to 38.91 or more. */
  lemma RoundingAtTheCap(x: real)
    ensures RoundHalfEven(x) as real / 100.0 > MAX_CONTEXTUAL_SCORE <==> x > 3890.5
  {
    assert MAX_CONTEXTUAL_SCORE == 38.9025;
    assert RoundHalfEven(3890.5) == 3890;
    if x <= 3890.5 {
      RoundMonotone(x, 3890.5);
    } else {
      assert RoundHalfEven(x) >= 3891;
    }
  }

  /** The unrounded score in hundredths. */
  function Hundredths(base: real, ctx: Context): real {
    base * Multiplier(ctx) * 100.0
  }

  lemma WorstIsWorst(base: real, ctx: Context)
    ensures Hundredths(base, ctx) > 3890.5 ==> 409.5 * base > 3890.5
  {
    hide Multiplier;
    MultiplierBounds(ctx);
    var m := Multiplier(ctx);
    if base >= 0.0 {
      ProductWithin(base, m);
    } else {
      assert (0.0 - base) * m >= 0.0;
    }
  }

  lemma WorstIsReached(base: real)
    ensures Hundredths(base, WORST) == 409.5 * base
  {
    assert Multiplier(WORST) == 4.095;
    hide Multiplier;
    assert base * (Multiplier(WORST) - 4.095) == 0.0;
  }

  /**
   * The cap holds for severity bands only, rounded or not: some context takes
   * a score past it exactly when the base, then a CVSS score, is above
   * 3890.5/409.5, a little more than 9.5.
   */
  lemma {:induction false} CvssCanExceedTheCap(raw: Option<real>, severity: Severity)
    ensures (exists ctx :: ContextualScore(raw, severity, ctx) > MAX_CONTEXTUAL_SCORE)
       <==> 409.5 * BaseScore(raw, severity) > 3890.5
    ensures raw.None? ==> !exists ctx :: ContextualScore(raw, severity, ctx) > MAX_CONTEXTUAL_SCORE
  {
    hide ContextualScore, Hundredths;
    var base := BaseScore(raw, severity);
    if ctx :| ContextualScore(raw, severity, ctx) > MAX_CONTEXTUAL_SCORE {
      PastTheCap(raw, severity, ctx);
      WorstIsWorst(base, ctx);
    }
    if 409.5 * base > 3890.5 {
      PastTheCap(raw, severity, WORST);
      WorstIsReached(base);
      assert ContextualScore(raw, severity, WORST) > MAX_CONTEXTUAL_SCORE;
    }
  }

  lemma {:induction false} PastTheCap(raw: Option<real>, severity: Severity, ctx: Context)
    ensures ContextualScore(raw, severity, ctx) > MAX_CONTEXTUAL_SCORE
       <==> Hundredths(BaseScore(raw, severity), ctx) > 3890.5
  {
    hide RoundHalfEven, Multiplier, BaseScore;
    RoundingAtTheCap(Hundredths(BaseScore(raw, severity), ctx));
  }

  lemma RoundMonotone(x: real, y: real)
    requires x <= y
    ensures RoundHalfEven(x) <= RoundHalfEven(y)
  {
    assert x.Floor <= y.Floor;
  }

  lemma RoundIsNearest(x: real)
    ensures -0.5 <= RoundHalfEven(x) as real - x <= 0.5
    ensures x == x.Floor as real ==> RoundHalfEven(x) as real == x
  {
  }

  lemma ScaledScoreMonotone(a: real, b: real, m: real)
    requires a <= b && 0.0 <= m
    ensures ScaledScore(a, m) <= ScaledScore(b, m)
  {
    assert (b - a) * m >= 0.0;
    RoundMonotone(a * m * 100.0, b * m * 100.0);
  }

  /** For one context, a larger base never gets a smaller rounded score. */
  lemma {:induction false} ScoreMonotoneInBase(
    rawA: Option<real>, severityA: Severity, rawB: Option<real>, severityB: Severity, ctx: Context)
    requires BaseScore(rawA, severityA) <= BaseScore(rawB, severityB)
    ensures ContextualScore(rawA, severityA, ctx) <= ContextualScore(rawB, severityB, ctx)
  {
    MultiplierBounds(ctx);
    ScaledScoreMonotone(BaseScore(rawA, severityA), BaseScore(rawB, severityB), Multiplier(ctx));
  }

  /** A context may tie two findings, but no two contexts rank them in strictly opposite order. */
  lemma {:induction false} ContextsNeverReverseARanking(
    rawA: Option<real>, severityA: Severity, rawB: Option<real>, severityB: Severity, c: Context, d: Context)
    requires ContextualScore(rawA, severityA, c) < ContextualScore(rawB, severityB, c)
    ensures ContextualScore(rawA, severityA, d) <= ContextualScore(rawB, severityB, d)
  {
    if BaseScore(rawA, severityA) <= BaseScore(rawB, severityB) {
      ScoreMonotoneInBase(rawA, severityA, rawB, severityB, d);
    } else {
      ScoreMonotoneInBase(rawB, severityB, rawA, severityA, c);
    }
  }

  /** Severities the score table does not list become UNKNOWN in a report. */
  function Normalised(severity: Severity): Severity {
    if severity.OTHER? then UNKNOWN else severity
  }

  /** Normalising a severity after scoring is the same as scoring the normalised severity. */
  lemma NormalisingKeepsScores(raw: Option<real>, severity: Severity, ctx: Context)
    ensures ContextualScore(raw, severity, ctx) == ContextualScore(raw, Normalised(severity), ctx)
  {
  }

  // ---------------------------------------------------------------------
  // The tables
  // ---------------------------------------------------------------------

  const ENVIRONMENT_TABLE := map[Production := 1.5, Staging := 1.2, Dev := 0.5]
  const DATA_TABLE := map[Pii := 1.5, Financial := 1.5, Phi := 1.5, InternalData := 1.0, PublicData := 0.8]
  const EXPOSURE_TABLE := map[InternetFacing := 1.4, InternalOnly := 1.0]
  const SEVERITY_TABLE := map[CRITICAL := 9.5, HIGH := 7.5, MEDIUM := 5.5, LOW := 2.5, UNKNOWN := 1.0]

  /** table.get(key, 1.0) */
  function InTable<K(==)>(table: map<K, real>, key: K): real {
    if key in table then table[key] else 1.0
  }

  function OrDefault<T>(given: Option<T>, default: T): T {
    if given.Some? then given.value else default
  }

  /** Each factor is its table's entry, a missing key meaning production, internal data, or internal exposure. */
  lemma FactorsAreInTheTables(ctx: Context, severity: Severity)
    ensures SeverityBase(severity) == InTable(SEVERITY_TABLE, severity)
    ensures EnvironmentWeight(ctx.environment) == InTable(ENVIRONMENT_TABLE, OrDefault(ctx.environment, Production))
    ensures DataClassificationWeight(ctx.dataClassification)
         == InTable(DATA_TABLE, OrDefault(ctx.dataClassification, InternalData))
    ensures ComplianceWeight(ctx.complianceScope) == if ctx.complianceScope == [] then 1.0 else 1.3
    ensures ExposureWeight(ctx.exposure) == InTable(EXPOSURE_TABLE, OrDefault(ctx.exposure, InternalOnly))
  {
  }

  /** The cap is the product of the greatest entries. */
  lemma CapIsTheGreatestProduct()
    ensures forall k :: k in SEVERITY_TABLE ==> SEVERITY_TABLE[k] <= SEVERITY_TABLE[CRITICAL]
    ensures forall k :: k in ENVIRONMENT_TABLE ==> ENVIRONMENT_TABLE[k] <= ENVIRONMENT_TABLE[Production]
    ensures forall k :: k in DATA_TABLE ==> DATA_TABLE[k] <= DATA_TABLE[Pii]
    ensures forall k :: k in EXPOSURE_TABLE ==> EXPOSURE_TABLE[k] <= EXPOSURE_TABLE[InternetFacing]
    ensures MAX_CONTEXTUAL_SCORE == SEVERITY_TABLE[CRITICAL] * ENVIRONMENT_TABLE[Production] * DATA_TABLE[Pii] * 1.3
                                    * EXPOSURE_TABLE[InternetFacing]
  {
  }

  /** A score is the nearest number of two digits to base times weights, from below or above, even on a tie. */
  lemma ScoreIsTheRoundedProduct(raw: Option<real>, severity: Severity, ctx: Context, n: int)
    requires ContextualScore(raw, severity, ctx) == n as real / 100.0
    ensures var product := (if raw.Some? then raw.value else SeverityBase(severity)) * Multiplier(ctx) * 100.0;
            && n as real - 0.5 <= product <= n as real + 0.5
            && (product == n as real - 0.5 || product == n as real + 0.5 ==> n % 2 == 0)
  {
    hide SeverityBase, Multiplier;
    var base, m := BaseScore(raw, severity), Multiplier(ctx);
  }

}
