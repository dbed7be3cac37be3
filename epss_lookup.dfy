/**
 * The decisions of the EPSS lookup tool once the FIRST.org response is in
 * hand: the identifier check that runs before any request, the status and
 * empty-data answers, and the three threshold ladders that classify a score
 * (risk level), its percentile (ranking text) and the patching priority.
 */
module EpssLookup {
  import opened Common
  import opened CveId

  /** A JSON value passed to `float(...)`: either it converts, or `float` raises. */
  datatype JsonNumber = Number(value: real) | NotANumber(text: string)

  /** One element of the response's `data` array; absent keys are `None`. */
  datatype EpssEntry = EpssEntry(epss: Option<JsonNumber>, percentile: Option<JsonNumber>, date: Option<string>)

  /** The decoded response body: its `status` and `data` keys. */
  datatype EpssResponse = EpssResponse(status: Option<string>, data: Option<seq<EpssEntry>>)

  datatype RiskLevel = RiskCritical | RiskHigh | RiskMedium | RiskLow | RiskVeryLow

  datatype PercentileBand = Top5 | Top10 | Top25 | AboveAverage | BelowAverage

  datatype Priority = Urgent | HighPriority | MediumPriority | LowPriority

  datatype EpssReport = EpssReport(
    cveId: string,
    score: real,
    percentile: real,
    date: string,
    risk: RiskLevel,
    band: PercentileBand,
    priority: Priority)

  datatype EpssAnswer =
    | InvalidId(cveId: string)              // the identifier failed the format check
    | StatusError(status: string)           // the API status was not "OK"
    | NoScore(cveId: string)                // the data array was empty or absent
    | ParseFailure                          // `float(...)` raised on a field
    | Report(report: EpssReport)

  // ---------------------------------------------------------------- bands

  function Risk(score: real): RiskLevel
  {
    if score >= 0.7 then RiskCritical
    else if score >= 0.3 then RiskHigh
    else if score >= 0.1 then RiskMedium
    else if score >= 0.01 then RiskLow
    else RiskVeryLow
  }

  function Band(percentile: real): PercentileBand
  {
    if percentile >= 95.0 then Top5
    else if percentile >= 90.0 then Top10
    else if percentile >= 75.0 then Top25
    else if percentile >= 50.0 then AboveAverage
    else BelowAverage
  }

  /** The prioritisation guidance, a ladder of its own over the same score. */
  function PriorityOf(score: real): Priority
  {
    if score >= 0.3 then Urgent
    else if score >= 0.1 then HighPriority
    else if score >= 0.01 then MediumPriority
    else LowPriority
  }

  function RiskRank(r: RiskLevel): nat
  {
    match r
    case RiskVeryLow => 0
    case RiskLow => 1
    case RiskMedium => 2
    case RiskHigh => 3
    case RiskCritical => 4
  }

  function BandRank(b: PercentileBand): nat
  {
    match b
    case BelowAverage => 0
    case AboveAverage => 1
    case Top25 => 2
    case Top10 => 3
    case Top5 => 4
  }

  // --------------------------------------------------------------- answer

  function FloatOr(field: Option<JsonNumber>): Result<real, ()>
  {
    match field
    case None => Success(0.0)
    case Some(Number(v)) => Success(v)
    case Some(NotANumber(_)) => Failure(())
  }

  /** `get_epss_score` after the request: the answer the tool formats. */
  function Answer(rawId: string, response: EpssResponse): EpssAnswer
  {
    match Validate(rawId)
    case Failure(id) => InvalidId(id)
    case Success(id) =>
      if response.status != Some("OK") then StatusError(GetOr(response.status, "Unknown"))
      else
        var data := GetOr(response.data, []);
        if data == [] then NoScore(id)
        else
          var entry := data[0];
          match FloatOr(entry.epss)
          case Failure(_) => ParseFailure
          case Success(score) =>
            match FloatOr(entry.percentile)
            case Failure(_) => ParseFailure
            case Success(percentile) =>
              Report(EpssReport(id, score, percentile, GetOr(entry.date, "Unknown"),
                Risk(score), Band(percentile), PriorityOf(score)))
  }

  // --------------------------------------------------------------- lemmas

  /** The risk bands are the intervals [0.7, ∞), [0.3, 0.7), [0.1, 0.3), [0.01, 0.1) and below 0.01. */
  lemma RiskBands(score: real)
    ensures Risk(score) == RiskCritical <==> score >= 0.7
    ensures Risk(score) == RiskHigh <==> 0.3 <= score < 0.7
    ensures Risk(score) == RiskMedium <==> 0.1 <= score < 0.3
    ensures Risk(score) == RiskLow <==> 0.01 <= score < 0.1
    ensures Risk(score) == RiskVeryLow <==> score < 0.01
  {
  }

  /** A higher score never gets a lower risk level. */
  lemma RiskMonotone(x: real, y: real)
    requires x <= y
    ensures RiskRank(Risk(x)) <= RiskRank(Risk(y))
  {
  }

  /** The percentile bands are [95, ∞), [90, 95), [75, 90), [50, 75) and below 50. */
  lemma BandBands(percentile: real)
    ensures Band(percentile) == Top5 <==> percentile >= 95.0
    ensures Band(percentile) == Top10 <==> 90.0 <= percentile < 95.0
    ensures Band(percentile) == Top25 <==> 75.0 <= percentile < 90.0
    ensures Band(percentile) == AboveAverage <==> 50.0 <= percentile < 75.0
    ensures Band(percentile) == BelowAverage <==> percentile < 50.0
  {
  }

  /** A higher percentile never gets a lower band. */
  lemma BandMonotone(x: real, y: real)
    requires x <= y
    ensures BandRank(Band(x)) <= BandRank(Band(y))
  {
  }

  /** The priority ladder and the risk ladder agree on every score. */
  lemma PriorityAgreesWithRisk(score: real)
    ensures PriorityOf(score) == Urgent <==> Risk(score) == RiskCritical || Risk(score) == RiskHigh
    ensures PriorityOf(score) == HighPriority <==> Risk(score) == RiskMedium
    ensures PriorityOf(score) == MediumPriority <==> Risk(score) == RiskLow
    ensures PriorityOf(score) == LowPriority <==> Risk(score) == RiskVeryLow
  {
  }

  /** An identifier that fails the check is reported before, and regardless of, any response. */
  lemma InvalidIdFirst(rawId: string, response: EpssResponse)
    requires Validate(rawId).Failure?
    ensures Answer(rawId, response) == InvalidId(Normalize(rawId))
  {
  }

  /** A status other than "OK" is an error whatever the data; a missing status reads "Unknown". */
  lemma StatusChecked(rawId: string, response: EpssResponse)
    requires Validate(rawId).Success? && response.status != Some("OK")
    ensures Answer(rawId, response) == StatusError(GetOr(response.status, "Unknown"))
    ensures response.status.None? ==> Answer(rawId, response) == StatusError("Unknown")
  {
  }

  /** With status "OK", an absent or empty data array means no score. */
  lemma EmptyDataNoScore(rawId: string, data: Option<seq<EpssEntry>>)
    requires Validate(rawId).Success? && (data.None? || data == Some([]))
    ensures Answer(rawId, EpssResponse(Some("OK"), data)) == NoScore(Normalize(rawId))
  {
  }

  /** Only the first element of the data array is read. */
  lemma FirstEntryOnly(rawId: string, entry: EpssEntry, rest: seq<EpssEntry>)
    ensures Answer(rawId, EpssResponse(Some("OK"), Some([entry] + rest)))
         == Answer(rawId, EpssResponse(Some("OK"), Some([entry])))
  {
  }

  /**
   * An entry without `epss` and `percentile` reads both as 0: VERY LOW risk,
   * below-average percentile, LOW PRIORITY.
   */
  lemma AbsentFieldsDefault(rawId: string, date: Option<string>)
    requires Validate(rawId).Success?
    ensures var a := Answer(rawId, EpssResponse(Some("OK"), Some([EpssEntry(None, None, date)])));
      a.Report? && a.report.score == 0.0 && a.report.percentile == 0.0
      && a.report.risk == RiskVeryLow && a.report.band == BelowAverage && a.report.priority == LowPriority
  {
    assert FloatOr(None) == Success(0.0);
  }

  /** A report classifies its own score and percentile, and its priority agrees with its risk. */
  lemma ReportConsistent(rawId: string, response: EpssResponse)
    ensures var a := Answer(rawId, response);
      a.Report? ==>
        && a.report.risk == Risk(a.report.score) && a.report.band == Band(a.report.percentile)
        && (a.report.priority == Urgent <==> a.report.risk in {RiskCritical, RiskHigh})
        && IsWellFormed(a.report.cveId)
  {
    var a := Answer(rawId, response);
    if a.Report? {
      assert Validate(rawId).Success? && a.report.cveId == Validate(rawId).value;
      PriorityAgreesWithRisk(a.report.score);
    }
  }
}
