/**
 * `calculate_cvss_score`: parse the vector, check the dictionary's "version"
 * entry again (a `version:` token can have overwritten the header's), then
 * compute the base score. The round trip through the canonical vector string
 * of a set of base metrics ties the parser, the version check and the score
 * together.
 */
module CvssCalculator {
  import opened Common
  import opened Text
  import opened CvssMetrics
  import opened CvssScore
  import opened CvssVector

  datatype CalcError =
    | ParseFailed(cause: ParseError)
    | VersionNotSupported(version: string)
    | ScoreFailed(reason: ScoreError)

  /** The result the tool formats, or the error it reports. */
  function CalculateCvssScore(vector: string): Result<ScoreResult, CalcError>
  {
    match ParseSpec(vector)
    case Failure(e) => Failure(ParseFailed(e))
    case Success(metrics) =>
      var version := ValueOf(metrics, "version");
      if version != "3.0" && version != "3.1" then Failure(VersionNotSupported(version))
      else
        match CalculateBaseScore(metrics)
        case Failure(e) => Failure(ScoreFailed(e))
        case Success(result) => Success(result)
  }

  // ------------------------------------------------- the canonical vector

  function Token(key: string, value: string): string
  {
    key + ":" + value
  }

  /** The eight base metrics as (code, letter) pairs, in the order of `Required`. */
  function Pairs(m: BaseMetrics): seq<(string, string)>
  {
    [("AV", AvLetter(m.av)), ("AC", AcLetter(m.ac)), ("PR", PrLetter(m.pr)), ("UI", UiLetter(m.ui)),
     ("S", ScopeLetter(m.s)), ("C", CiaLetter(m.c)), ("I", CiaLetter(m.i)), ("A", CiaLetter(m.a))]
  }

  function TokensOf(pairs: seq<(string, string)>): seq<string>
  {
    seq(|pairs|, k requires 0 <= k < |pairs| => Token(pairs[k].0, pairs[k].1))
  }

  /** The header and the eight base-metric tokens, in the order vectors are written. */
  function Tokens(version: string, m: BaseMetrics): seq<string>
  {
    [HeaderPrefix + version] + TokensOf(Pairs(m))
  }

  /** `CVSS:<version>/AV:_/AC:_/PR:_/UI:_/S:_/C:_/I:_/A:_` */
  function VectorString(version: string, m: BaseMetrics): string
  {
    Join(Tokens(version, m), "/")
  }

  /** `base` with the pairs written into it in order. */
  function Updated(base: map<string, string>, pairs: seq<(string, string)>): map<string, string>
  {
    if pairs == [] then base
    else Updated(base, pairs[..|pairs| - 1])[pairs[|pairs| - 1].0 := pairs[|pairs| - 1].1]
  }

  /** The dictionary the parser builds from the canonical vector. */
  function MetricsMap(version: string, m: BaseMetrics): map<string, string>
  {
    Updated(map["version" := version], Pairs(m))
  }

  predicate Supported(version: string)
  {
    version == "3.0" || version == "3.1"
  }

  // ---------------------------------------------------------------- lemmas

  lemma TokenOf(metrics: map<string, string>, key: string, value: string)
    requires ':' !in key
    ensures Apply(metrics, Token(key, value)) == metrics[key := value]
  {
    SplitFirstOf(key, ':', value);
  }

  lemma TokensIntoSnoc(base: map<string, string>, a: seq<string>, t: string)
    ensures TokensInto(base, a + [t]) == Apply(TokensInto(base, a), t)
  {
    assert (a + [t])[..|a|] == a;
  }

  /** A token without `:` leaves the dictionary as it was, wherever it stands. */
  lemma ColonlessIgnored(base: map<string, string>, a: seq<string>, t: string, b: seq<string>)
    requires ':' !in t
    ensures TokensInto(base, a + [t] + b) == TokensInto(base, a + b)
  {
    TokensIntoAppend(base, a + [t], b);
    TokensIntoSnoc(base, a, t);
    TokensIntoAppend(base, a, b);
  }

  /** Folding `KEY:VALUE` tokens writes their pairs in order. */
  lemma {:induction false} TokensOfInto(base: map<string, string>, pairs: seq<(string, string)>)
    requires forall k | 0 <= k < |pairs| :: ':' !in pairs[k].0
    ensures TokensInto(base, TokensOf(pairs)) == Updated(base, pairs)
    decreases |pairs|
  {
    if pairs != [] {
      var init := pairs[..|pairs| - 1];
      var last := pairs[|pairs| - 1];
      assert TokensOf(pairs) == TokensOf(init) + [Token(last.0, last.1)];
      TokensOfInto(base, init);
      TokensIntoSnoc(base, TokensOf(init), Token(last.0, last.1));
      TokenOf(Updated(base, init), last.0, last.1);
    }
  }

  /** The last pair written for a key decides its value. */
  lemma {:induction false} UpdatedLookup(base: map<string, string>, pairs: seq<(string, string)>, j: nat)
    requires j < |pairs|
    requires forall l | j < l < |pairs| :: pairs[l].0 != pairs[j].0
    ensures pairs[j].0 in Updated(base, pairs) && Updated(base, pairs)[pairs[j].0] == pairs[j].1
    decreases |pairs|
  {
    if j < |pairs| - 1 {
      var init := pairs[..|pairs| - 1];
      assert init[j] == pairs[j];
      UpdatedLookup(base, init, j);
    }
  }

  /** Writing pairs with other keys keeps a key's value. */
  lemma {:induction false} UpdatedKeeps(base: map<string, string>, pairs: seq<(string, string)>, key: string)
    requires key in base && forall l | 0 <= l < |pairs| :: pairs[l].0 != key
    ensures key in Updated(base, pairs) && Updated(base, pairs)[key] == base[key]
    decreases |pairs|
  {
    if pairs != [] {
      UpdatedKeeps(base, pairs[..|pairs| - 1], key);
    }
  }

  /** The codes of the pairs are the required codes, distinct and free of `:` and `/`. */
  lemma PairsShape(m: BaseMetrics)
    ensures |Pairs(m)| == |Required| == 8
    ensures forall k | 0 <= k < 8 :: Pairs(m)[k].0 == Required[k]
    ensures forall k | 0 <= k < 8 :: ':' !in Required[k] && '/' !in Required[k] && Required[k] != "version"
    ensures forall k | 0 <= k < 8 :: |Pairs(m)[k].1| == 1 && '/' !in Pairs(m)[k].1
    ensures forall j, k | 0 <= j < k < 8 :: Required[j] != Required[k]
  {
  }

  /** No token of the canonical vector holds a `/`. */
  lemma TokensSlashFree(version: string, m: BaseMetrics)
    requires Supported(version)
    ensures forall p <- Tokens(version, m) :: '/' !in p
  {
    PairsShape(m);
    var ts := Tokens(version, m);
    forall k | 0 <= k < |ts|
      ensures '/' !in ts[k]
    {
      if k > 0 {
        assert ts[k] == Pairs(m)[k - 1].0 + ":" + Pairs(m)[k - 1].1;
      }
    }
  }

  /** A vector that starts with the canonical tokens and ends in a non-blank character is already stripped. */
  lemma JoinedStripped(version: string, m: BaseMetrics, extra: seq<string>)
    requires Supported(version)
    requires extra != [] ==> extra[|extra| - 1] != [] && !IsWhitespace(extra[|extra| - 1][|extra[|extra| - 1]| - 1])
    ensures IsStripped(Join(Tokens(version, m) + extra, "/"))
  {
    var all := Tokens(version, m) + extra;
    var s := Join(all, "/");
    PairsShape(m);
    assert s == all[0] + "/" + Join(all[1..], "/");
    assert s[0] == 'C';
    JoinSnoc(all[..|all| - 1], "/", all[|all| - 1]);
    assert all[..|all| - 1] + [all[|all| - 1]] == all;
    var last := all[|all| - 1];
    if extra == [] {
      assert last == Token("A", Pairs(m)[7].1);
      assert !IsWhitespace(last[|last| - 1]);
    }
    assert s[|s| - 1] == last[|last| - 1];
  }

  lemma {:induction false} JoinSnoc(parts: seq<string>, sep: string, last: string)
    requires parts != []
    ensures Join(parts + [last], sep) == Join(parts, sep) + sep + last
    decreases |parts|
  {
    if |parts| > 1 {
      assert (parts + [last])[1..] == parts[1..] + [last];
      JoinSnoc(parts[1..], sep, last);
    } else {
      assert parts + [last] == [parts[0], last];
    }
  }

  /** A vector whose first token is `CVSS:<version>` and that has a second token matches the header. */
  lemma HeaderOfParts(version: string, parts: seq<string>)
    requires Supported(version) && |parts| >= 2 && parts[0] == HeaderPrefix + version
    ensures MatchHeader(Join(parts, "/")) == Some(version)
  {
    var rest := Join(parts[1..], "/");
    assert Join(parts, "/") == HeaderPrefix + version + "/" + rest;
    SupportedHeader(version, rest);
  }

  /**
   * A stripped vector of `/`-free tokens that starts with a supported header
   * parses to the fold of the tokens after the header.
   */
  lemma ParseParts(version: string, parts: seq<string>)
    requires Supported(version) && |parts| >= 2 && parts[0] == HeaderPrefix + version
    requires IsStripped(Join(parts, "/")) && forall p <- parts :: '/' !in p
    ensures ParseSpec(Join(parts, "/")) == Success(TokensInto(map["version" := version], parts[1..]))
  {
    StripStripped(Join(parts, "/"));
    HeaderOfParts(version, parts);
    SplitJoin(parts, '/');
  }

  lemma TokensTail(version: string, m: BaseMetrics, extra: seq<string>)
    ensures (Tokens(version, m) + extra)[1..] == TokensOf(Pairs(m)) + extra
  {
  }

  /** The canonical tokens followed by `extra` form a vector the parser reads token by token. */
  lemma ParseTokens(version: string, m: BaseMetrics, extra: seq<string>)
    requires Supported(version)
    requires extra != [] ==> extra[|extra| - 1] != [] && !IsWhitespace(extra[|extra| - 1][|extra[|extra| - 1]| - 1])
    requires forall p <- extra :: '/' !in p
    ensures var all := Tokens(version, m) + extra;
      ParseSpec(Join(all, "/")) == Success(TokensInto(map["version" := version], TokensOf(Pairs(m)) + extra))
  {
    var all := Tokens(version, m) + extra;
    JoinedStripped(version, m, extra);
    TokensSlashFree(version, m);
    assert all[0] == HeaderPrefix + version;
    ParseParts(version, all);
    TokensTail(version, m, extra);
  }

  /** Folding the canonical metric tokens and then `extra` is folding `extra` into the canonical dictionary. */
  lemma FoldTokens(version: string, m: BaseMetrics, extra: seq<string>)
    ensures TokensInto(map["version" := version], TokensOf(Pairs(m)) + extra) == TokensInto(MetricsMap(version, m), extra)
  {
    PairsShape(m);
    TokensOfInto(map["version" := version], Pairs(m));
    TokensIntoAppend(map["version" := version], TokensOf(Pairs(m)), extra);
  }

  /** Parsing the canonical vector, with extra tokens after it, writes the metrics and then the extras. */
  lemma ParseJoined(version: string, m: BaseMetrics, extra: seq<string>)
    requires Supported(version)
    requires extra != [] ==> extra[|extra| - 1] != [] && !IsWhitespace(extra[|extra| - 1][|extra[|extra| - 1]| - 1])
    requires forall p <- extra :: '/' !in p
    ensures ParseSpec(Join(Tokens(version, m) + extra, "/")) == Success(TokensInto(MetricsMap(version, m), extra))
  {
    ParseTokens(version, m, extra);
    FoldTokens(version, m, extra);
  }

  /** Parsing the canonical vector of a supported version yields exactly its metrics. */
  lemma ParseVectorString(version: string, m: BaseMetrics)
    requires Supported(version)
    ensures ParseSpec(VectorString(version, m)) == Success(MetricsMap(version, m))
  {
    assert Tokens(version, m) + [] == Tokens(version, m);
    ParseJoined(version, m, []);
  }

  /** The canonical dictionary maps each required code to its letter, and "version" to the version. */
  lemma MetricsMapValues(version: string, m: BaseMetrics)
    ensures forall k | 0 <= k < 8 :: ValueOf(MetricsMap(version, m), Required[k]) == Pairs(m)[k].1
    ensures ValueOf(MetricsMap(version, m), "version") == version
  {
    PairsShape(m);
    forall k | 0 <= k < 8
      ensures ValueOf(MetricsMap(version, m), Required[k]) == Pairs(m)[k].1
    {
      UpdatedLookup(map["version" := version], Pairs(m), k);
    }
    UpdatedKeeps(map["version" := version], Pairs(m), "version");
  }

  /** A dictionary holding the eight letters of `m` scores as `m`. */
  lemma ScoreOfLetters(metrics: map<string, string>, m: BaseMetrics)
    requires forall k | 0 <= k < 8 :: ValueOf(metrics, Required[k]) == Pairs(m)[k].1
    ensures CalculateBaseScore(metrics) == Success(Score(m))
  {
    PairsShape(m);
    assert ValueOf(metrics, Required[0]) == Pairs(m)[0].1 && ValueOf(metrics, Required[1]) == Pairs(m)[1].1;
    assert ValueOf(metrics, Required[2]) == Pairs(m)[2].1 && ValueOf(metrics, Required[3]) == Pairs(m)[3].1;
    assert ValueOf(metrics, Required[4]) == Pairs(m)[4].1 && ValueOf(metrics, Required[5]) == Pairs(m)[5].1;
    assert ValueOf(metrics, Required[6]) == Pairs(m)[6].1 && ValueOf(metrics, Required[7]) == Pairs(m)[7].1;
    MissingMembers(metrics, Required);
    ResolveOfLetters(metrics, m);
  }

  /** Every set of base metrics, written as a 3.0 or 3.1 vector, gets its own score. */
  lemma CalculateVectorString(version: string, m: BaseMetrics)
    requires Supported(version)
    ensures CalculateCvssScore(VectorString(version, m)) == Success(Score(m))
  {
    ParseVectorString(version, m);
    MetricsMapValues(version, m);
    ScoreOfLetters(MetricsMap(version, m), m);
  }

  lemma VersionKey()
    ensures ':' !in "version" && '/' !in "version"
  {
  }

  /** Whatever the parser returned, an unsupported "version" entry is reported before any scoring. */
  lemma VersionRechecked(vector: string, metrics: map<string, string>)
    requires ParseSpec(vector) == Success(metrics) && !Supported(ValueOf(metrics, "version"))
    ensures CalculateCvssScore(vector) == Failure(VersionNotSupported(ValueOf(metrics, "version")))
  {
  }

  /** A `version:` token of a stripped, `/`-free value is itself `/`-free and ends in a non-blank character. */
  lemma VersionTokenShape(other: string)
    requires '/' !in other && IsStripped(other)
    ensures var t := Token("version", other);
      t != [] && !IsWhitespace(t[|t| - 1]) && '/' !in t
  {
    var t := Token("version", other);
    VersionKey();
    assert t[|t| - 1] == if other == [] then ':' else other[|other| - 1];
  }

  /** A trailing `version:` token replaces the header's version in the parsed dictionary. */
  lemma ParseOverride(version: string, m: BaseMetrics, other: string)
    requires Supported(version) && '/' !in other && IsStripped(other)
    ensures ParseSpec(VectorString(version, m) + "/" + Token("version", other))
      == Success(MetricsMap(version, m)["version" := other])
  {
    var t := Token("version", other);
    VersionTokenShape(other);
    JoinSnoc(Tokens(version, m), "/", t);
    ParseJoined(version, m, [t]);
    VersionFold(MetricsMap(version, m), other);
  }

  lemma VersionFold(base: map<string, string>, other: string)
    ensures TokensInto(base, [Token("version", other)]) == base["version" := other]
  {
    var t := Token("version", other);
    assert [] + [t] == [t];
    TokensIntoSnoc(base, [], t);
    VersionKey();
    TokenOf(base, "version", other);
  }

  /**
   * A trailing `version:` token replaces the header's version, and the second
   * check rejects any value other than 3.0 and 3.1.
   */
  lemma OverriddenVersionRejected(version: string, m: BaseMetrics, other: string)
    requires Supported(version) && !Supported(other) && '/' !in other && IsStripped(other)
    ensures CalculateCvssScore(VectorString(version, m) + "/" + Token("version", other))
      == Failure(VersionNotSupported(other))
  {
    var vector := VectorString(version, m) + "/" + Token("version", other);
    ParseOverride(version, m, other);
    var metrics := MetricsMap(version, m)["version" := other];
    assert ValueOf(metrics, "version") == other;
    VersionRechecked(vector, metrics);
  }

  // -------------------------------------------------------------- examples

  /** CVSS:3.1/AV:N/AC:L/PR:N/UI:N/S:U/C:H/I:H/A:H: 9.8, CRITICAL. */
  lemma CriticalNetworkVector()
    ensures var r := CalculateCvssScore(VectorString("3.1",
              BaseMetrics(AvNetwork, AcLow, PrNone, UiNone, Unchanged, CiaHigh, CiaHigh, CiaHigh)));
      r.Success? && r.value.baseScore == 9.8 && r.value.severity == Critical
  {
    CalculateVectorString("3.1", BaseMetrics(AvNetwork, AcLow, PrNone, UiNone, Unchanged, CiaHigh, CiaHigh, CiaHigh));
    NetworkNoPrivilegesExample();
  }

  /** CVSS:3.1/AV:L/AC:H/PR:H/UI:R/S:U/C:L/I:L/A:N: 2.8, LOW. */
  lemma LowLocalVector()
    ensures var r := CalculateCvssScore(VectorString("3.1",
              BaseMetrics(AvLocal, AcHigh, PrHigh, UiRequired, Unchanged, CiaLow, CiaLow, CiaNone)));
      r.Success? && r.value.baseScore == 2.8 && r.value.severity == Low
  {
    CalculateVectorString("3.1", BaseMetrics(AvLocal, AcHigh, PrHigh, UiRequired, Unchanged, CiaLow, CiaLow, CiaNone));
    LocalHighComplexityExample();
  }

  /** CVSS:3.0/AV:N/AC:L/PR:L/UI:N/S:C/C:H/I:H/A:H: 9.9, CRITICAL. */
  lemma CriticalScopeChangeVector()
    ensures var r := CalculateCvssScore(VectorString("3.0",
              BaseMetrics(AvNetwork, AcLow, PrLow, UiNone, Changed, CiaHigh, CiaHigh, CiaHigh)));
      r.Success? && r.value.baseScore == 9.9 && r.value.severity == Critical
  {
    CalculateVectorString("3.0", BaseMetrics(AvNetwork, AcLow, PrLow, UiNone, Changed, CiaHigh, CiaHigh, CiaHigh));
    NetworkScopeChangeExample();
  }

  /** CVSS:3.1/AV:A/AC:L/PR:N/UI:N/S:U/C:N/I:N/A:H: 6.4, MEDIUM. */
  lemma MediumAdjacentVector()
    ensures var r := CalculateCvssScore(VectorString("3.1",
              BaseMetrics(AvAdjacent, AcLow, PrNone, UiNone, Unchanged, CiaNone, CiaNone, CiaHigh)));
      r.Success? && r.value.baseScore == 6.4 && r.value.severity == Medium
  {
    CalculateVectorString("3.1", BaseMetrics(AvAdjacent, AcLow, PrNone, UiNone, Unchanged, CiaNone, CiaNone, CiaHigh));
    AdjacentDenialOfServiceExample();
  }

  /** CVSS:3.1/AV:N/AC:L/PR:N/UI:N/S:C/C:H/I:H/A:H: clamped to 10.0, CRITICAL. */
  lemma MaximumVector()
    ensures var r := CalculateCvssScore(VectorString("3.1",
              BaseMetrics(AvNetwork, AcLow, PrNone, UiNone, Changed, CiaHigh, CiaHigh, CiaHigh)));
      r.Success? && r.value.baseScore == 10.0 && r.value.severity == Critical
  {
    CalculateVectorString("3.1", BaseMetrics(AvNetwork, AcLow, PrNone, UiNone, Changed, CiaHigh, CiaHigh, CiaHigh));
    NetworkScopeChangeMaximumExample();
  }
}
