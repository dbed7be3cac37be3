/**
 * The CVSS v3.0/v3.1 base metrics, their letters in a vector string and
 * their weights (section 7.4 of the CVSS v3.1 specification document), as
 * the calculator's lookup tables hold them.
 */
module CvssMetrics {
  import opened Common

  datatype AttackVector = AvNetwork | AvAdjacent | AvLocal | AvPhysical
  datatype AttackComplexity = AcLow | AcHigh
  datatype PrivilegesRequired = PrNone | PrLow | PrHigh
  datatype UserInteraction = UiNone | UiRequired
  datatype Scope = Unchanged | Changed
  /** The level of each of Confidentiality, Integrity and Availability. */
  datatype CiaImpact = CiaHigh | CiaLow | CiaNone

  /** The eight base metrics of a vector, each resolved to its value. */
  datatype BaseMetrics = BaseMetrics(
    av: AttackVector, ac: AttackComplexity, pr: PrivilegesRequired, ui: UserInteraction,
    s: Scope, c: CiaImpact, i: CiaImpact, a: CiaImpact)

  // ------------------------------------------------------------- letters

  function AvLetter(v: AttackVector): string
  {
    match v
    case AvNetwork => "N"
    case AvAdjacent => "A"
    case AvLocal => "L"
    case AvPhysical => "P"
  }

  function AcLetter(v: AttackComplexity): string
  {
    match v
    case AcLow => "L"
    case AcHigh => "H"
  }

  function PrLetter(v: PrivilegesRequired): string
  {
    match v
    case PrNone => "N"
    case PrLow => "L"
    case PrHigh => "H"
  }

  function UiLetter(v: UserInteraction): string
  {
    match v
    case UiNone => "N"
    case UiRequired => "R"
  }

  function ScopeLetter(v: Scope): string
  {
    match v
    case Unchanged => "U"
    case Changed => "C"
  }

  function CiaLetter(v: CiaImpact): string
  {
    match v
    case CiaHigh => "H"
    case CiaLow => "L"
    case CiaNone => "N"
  }

  // --------------------------------------------- lookups by letter (dict keys)

  function ParseAv(x: string): Option<AttackVector>
  {
    if x == "N" then Some(AvNetwork)
    else if x == "A" then Some(AvAdjacent)
    else if x == "L" then Some(AvLocal)
    else if x == "P" then Some(AvPhysical)
    else None
  }

  function ParseAc(x: string): Option<AttackComplexity>
  {
    if x == "L" then Some(AcLow) else if x == "H" then Some(AcHigh) else None
  }

  function ParsePr(x: string): Option<PrivilegesRequired>
  {
    if x == "N" then Some(PrNone)
    else if x == "L" then Some(PrLow)
    else if x == "H" then Some(PrHigh)
    else None
  }

  function ParseUi(x: string): Option<UserInteraction>
  {
    if x == "N" then Some(UiNone) else if x == "R" then Some(UiRequired) else None
  }

  function ParseScope(x: string): Option<Scope>
  {
    if x == "U" then Some(Unchanged) else if x == "C" then Some(Changed) else None
  }

  function ParseCia(x: string): Option<CiaImpact>
  {
    if x == "H" then Some(CiaHigh)
    else if x == "L" then Some(CiaLow)
    else if x == "N" then Some(CiaNone)
    else None
  }

  lemma AvRoundTrip(v: AttackVector, x: string)
    ensures ParseAv(AvLetter(v)) == Some(v)
    ensures ParseAv(x).Some? ==> AvLetter(ParseAv(x).value) == x
  {
  }

  lemma AcRoundTrip(v: AttackComplexity, x: string)
    ensures ParseAc(AcLetter(v)) == Some(v)
    ensures ParseAc(x).Some? ==> AcLetter(ParseAc(x).value) == x
  {
  }

  lemma PrRoundTrip(v: PrivilegesRequired, x: string)
    ensures ParsePr(PrLetter(v)) == Some(v)
    ensures ParsePr(x).Some? ==> PrLetter(ParsePr(x).value) == x
  {
  }

  lemma UiRoundTrip(v: UserInteraction, x: string)
    ensures ParseUi(UiLetter(v)) == Some(v)
    ensures ParseUi(x).Some? ==> UiLetter(ParseUi(x).value) == x
  {
  }

  lemma ScopeRoundTrip(v: Scope, x: string)
    ensures ParseScope(ScopeLetter(v)) == Some(v)
    ensures ParseScope(x).Some? ==> ScopeLetter(ParseScope(x).value) == x
  {
  }

  lemma CiaRoundTrip(v: CiaImpact, x: string)
    ensures ParseCia(CiaLetter(v)) == Some(v)
    ensures ParseCia(x).Some? ==> CiaLetter(ParseCia(x).value) == x
  {
  }

  /**
   * Each table's keys are exactly the letters of its metric's values: a
   * letter is found iff it is the letter of some value, and then of that one.
   */
  lemma LettersRoundTrip(m: BaseMetrics, x: string)
    ensures ParseAv(AvLetter(m.av)) == Some(m.av) && ParseAc(AcLetter(m.ac)) == Some(m.ac)
    ensures ParsePr(PrLetter(m.pr)) == Some(m.pr) && ParseUi(UiLetter(m.ui)) == Some(m.ui)
    ensures ParseScope(ScopeLetter(m.s)) == Some(m.s) && ParseCia(CiaLetter(m.c)) == Some(m.c)
    ensures ParseAv(x).Some? ==> AvLetter(ParseAv(x).value) == x
    ensures ParseAc(x).Some? ==> AcLetter(ParseAc(x).value) == x
    ensures ParsePr(x).Some? ==> PrLetter(ParsePr(x).value) == x
    ensures ParseUi(x).Some? ==> UiLetter(ParseUi(x).value) == x
    ensures ParseScope(x).Some? ==> ScopeLetter(ParseScope(x).value) == x
    ensures ParseCia(x).Some? ==> CiaLetter(ParseCia(x).value) == x
  {
    AvRoundTrip(m.av, x);
    AcRoundTrip(m.ac, x);
    PrRoundTrip(m.pr, x);
    UiRoundTrip(m.ui, x);
    ScopeRoundTrip(m.s, x);
    CiaRoundTrip(m.c, x);
  }

  // ------------------------------------------------------------- weights

  function AvWeight(v: AttackVector): real
  {
    match v
    case AvNetwork => 0.85
    case AvAdjacent => 0.62
    case AvLocal => 0.55
    case AvPhysical => 0.2
  }

  function AcWeight(v: AttackComplexity): real
  {
    match v
    case AcLow => 0.77
    case AcHigh => 0.44
  }

  /** Privileges Required is weighted by the table of the resolved scope. */
  function PrWeight(v: PrivilegesRequired, s: Scope): real
  {
    match (v, s)
    case (PrNone, _) => 0.85
    case (PrLow, Unchanged) => 0.62
    case (PrLow, Changed) => 0.68
    case (PrHigh, Unchanged) => 0.27
    case (PrHigh, Changed) => 0.50
  }

  function UiWeight(v: UserInteraction): real
  {
    match v
    case UiNone => 0.85
    case UiRequired => 0.62
  }

  function CiaWeight(v: CiaImpact): real
  {
    match v
    case CiaHigh => 0.56
    case CiaLow => 0.22
    case CiaNone => 0.0
  }

  /**
   * Every exploitability weight is a positive fraction and every impact
   * weight lies in [0, 0.56]; only "None" weighs nothing.
   */
  lemma WeightBounds(m: BaseMetrics)
    ensures 0.0 < AvWeight(m.av) <= 1.0 && 0.0 < AcWeight(m.ac) <= 1.0
    ensures 0.0 < PrWeight(m.pr, m.s) <= 1.0 && 0.0 < UiWeight(m.ui) <= 1.0
    ensures 0.0 <= CiaWeight(m.c) <= 0.56 && (CiaWeight(m.c) == 0.0 <==> m.c == CiaNone)
  {
  }

  /**
   * Privileges Required "None" weighs the same in both scopes; "Low" and
   * "High" weigh more when the scope changes.
   */
  lemma PrWeightByScope(v: PrivilegesRequired)
    ensures v == PrNone <==> PrWeight(v, Unchanged) == PrWeight(v, Changed)
    ensures v != PrNone ==> PrWeight(v, Unchanged) < PrWeight(v, Changed)
  {
  }
}
