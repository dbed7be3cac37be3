# Vulnerability-intelligence tools: a Dafny model of their decision logic

This project models the deterministic parts of an MCP server that answers questions about
vulnerabilities.

- **CVSS calculator.** The main part is the CVSS v3.0/v3.1 calculator. `parse_cvss_vector` strips
  the vector, matches its `CVSS:<major>.<minor>/` header and accepts only versions 3.0 and 3.1. It
  then folds the `KEY:VALUE` tokens into a dictionary. `calculate_cvss3_base_score` does the rest:
  - it checks that the eight base metrics are present;
  - it looks up their weights, with a scope-dependent Privileges Required table;
  - it evaluates the Impact Sub-Score, Impact and Exploitability equations;
  - it clamps the score to 10, rounds it to one decimal and assigns a severity band.
  `calculate_cvss_score` checks the parsed version again, because a `version:` token can
  overwrite the header's version.
- **CVE lookup, EPSS lookup and VEX check.** Around the calculator sit the pure decisions of
  these three tools:
  - the CVE identifier clean-up and check that all three share;
  - the NVD record extraction: English-only descriptions and CWE texts, CVSS entries in the
    order 3.1, 3.0, 2.0 with "N/A" defaults, and at most ten references listed;
  - the EPSS risk, percentile and priority bands, and the status and empty-data answers;
  - the VEX vendor-reference filter, the keyword-precedence status and confidence, the
    grouping by status with three statements listed per group, and the vendor portal
    recommended for a product.

The loops of the source are modelled as Dafny methods with loop invariants. Each method is proved
equal to a specification function, and the properties are then proved about that function:
- the vector token loop: `CvssVector.ParseVector`;
- the vendor-reference loop: `VexStatus.CollectVendorStatements`;
- the status grouping: `VexStatus.GroupByStatus`;
- the NVD extraction loops: `CveLookup.ExtractInfo` and the methods it calls.

Straight-line code (the score equations, the banding chains, identifier validation) is modelled
as functions and lemmas. JSON objects are datatypes whose `.get(key, default)` fields are
`Option`s. Arithmetic is exact (`real`).

Modules, one per file:
- `Common`: `Option`, `Result`.
- `Text`: ASCII strip, case, substring, split and join.
- `CveId`.
- `CvssMetrics`, `CvssVector`, `CvssScore`, `CvssCalculator`.
- `Listing`: truncated lists.
- `Nvd`: the NVD response records.
- `EpssLookup`, `VexStatus`, `CveLookup`.

The model follows the code in these details:
- A metric counts as missing when it is absent or has an empty value.
- An invalid value is reported with its letter only, not with the metric's code.
- Weights are looked up in the order AV, AC, UI, S, PR, C, I, A. The first failure in that order
  is the one reported.
- The score is clamped before it is rounded. The result is the same either way.

## Model

| member | source | states |
|---|---|---|
| CveId.Normalize | mcp_simple_tool/tools/vex_status.py:38-40 | the cleaned identifier starts with `CVE-`, is upper case and has no surrounding whitespace |
| CveId.NormalizeIdempotent | mcp_simple_tool/tools/vex_status.py:38-40 | cleaning an already cleaned identifier changes nothing |
| CveId.ValidateFixpoint | mcp_simple_tool/tools/vex_status.py:38-49 | an accepted identifier is accepted again, unchanged |
| CveId.WellFormedIff | mcp_simple_tool/tools/vex_status.py:43 | the pattern accepts exactly `CVE-` + 4 digits + `-` + 4 or more digits (both directions) |
| CveId.ValidateAccepts | mcp_simple_tool/tools/vex_status.py:38-49 | any letter case, any surrounding whitespace, with or without the `CVE-` prefix: a 4-digit year and a serial of 4 or more digits are accepted as `CVE-<year>-<serial>` |
| CveId.ValidateExample | vulnerability-intelligence-mcp-server-master/mcp_simple_tool/tools/cve_lookup.py:30-41 | ` 2021-44228\n` is accepted as `CVE-2021-44228` |
| CveId.ValidateLowerCaseExample | vulnerability-intelligence-mcp-server-master/mcp_simple_tool/tools/epss_lookup.py:31-42 | `cve-2021-44228` is accepted as `CVE-2021-44228` |
| CvssMetrics.LettersRoundTrip | mcp_simple_tool/tools/cvss_calculator.py:65-74 | each metric value's letter is read back as that value, and every accepted letter is the letter of the value it reads as |
| CvssMetrics.WeightBounds | mcp_simple_tool/tools/cvss_calculator.py:65-74 | every weight lies in (0, 1], the C/I/A weights in [0, 0.56], and a C/I/A weight is 0 exactly for N |
| CvssMetrics.PrWeightByScope | mcp_simple_tool/tools/cvss_calculator.py:67-71 | the PR weight is the same in both scopes exactly for N; for L and H the changed-scope weight is higher |
| CvssVector.DigitRun | mcp_simple_tool/tools/cvss_calculator.py:28 | the greedy `\d+` run: digits up to its end, then a non-digit or the end of the string |
| CvssVector.MatchHeaderSound | mcp_simple_tool/tools/cvss_calculator.py:28-32 | a matched version is two non-empty digit runs around a dot, between `CVSS:` and `/` at the start of the string |
| CvssVector.MatchHeaderOf | mcp_simple_tool/tools/cvss_calculator.py:28-32 | every `CVSS:<digits>.<digits>/...` string is matched, with `<digits>.<digits>` as the version |
| CvssVector.NoSlashFormatError | mcp_simple_tool/tools/cvss_calculator.py:25-30 | a vector without `/` (such as `CVSS:3.1`) is a format error |
| CvssVector.UnsupportedVersionRejected | mcp_simple_tool/tools/cvss_calculator.py:32-36 | a well-formed header with a version other than 3.0 and 3.1 (such as 2.0 or 3.10) is rejected with that version, for any rest that the strip leaves unchanged |
| CvssVector.LastSetter | mcp_simple_tool/tools/cvss_calculator.py:45-49 | the index it returns is that of a token that sets the key |
| CvssVector.LastSetterIsLast | mcp_simple_tool/tools/cvss_calculator.py:45-49 | no token after that index sets the key, and when there is no index no token sets it |
| CvssVector.TokensIntoLastWins | mcp_simple_tool/tools/cvss_calculator.py:39-49 | the last token that sets a key decides its value; a key that no token sets keeps its earlier value, or stays absent |
| CvssVector.TokensIntoAppend | mcp_simple_tool/tools/cvss_calculator.py:45-49 | folding two runs of tokens is folding their concatenation |
| CvssVector.ParseVector | mcp_simple_tool/tools/cvss_calculator.py:14-51 | the parsing method with its token loop returns exactly the fold `ParseSpec`: a format error, an unsupported version, or the dictionary of the tokens after the header, starting from the header's version |
| CvssVector.ParsedVersion | mcp_simple_tool/tools/cvss_calculator.py:39-49 | a parsed dictionary always has "version"; it is the header's version unless a `version:` token overwrote it |
| CvssCalculator.TokenOf | mcp_simple_tool/tools/cvss_calculator.py:46-49 | a `KEY:VALUE` token splits at its first colon, so the value keeps any later colons (`AV:N:X` sets AV to `N:X`) |
| CvssCalculator.ColonlessIgnored | mcp_simple_tool/tools/cvss_calculator.py:46-47 | a token without `:` changes nothing, wherever it stands |
| CvssCalculator.ParseVectorString | mcp_simple_tool/tools/cvss_calculator.py:14-51 | the canonical vector of any base metrics parses to the dictionary of its eight letters and its version |
| CvssCalculator.CalculateVectorString | mcp_simple_tool/tools/cvss_calculator.py:178-184 | the canonical vector of any base metrics, version 3.0 or 3.1, scores exactly the score of those metrics |
| CvssCalculator.VersionRechecked | mcp_simple_tool/tools/cvss_calculator.py:183-191 | a parsed dictionary whose version entry is not 3.0 or 3.1 gets the version error, before any scoring |
| CvssCalculator.OverriddenVersionRejected | mcp_simple_tool/tools/cvss_calculator.py:183-191 | a valid vector followed by a `version:` token with an unsupported version is rejected with that version |
| CvssCalculator.CriticalNetworkVector | vulnerability-intelligence-mcp-server-master/tests/test_cvss.py:22 | `CVSS:3.1/AV:N/AC:L/PR:N/UI:N/S:U/C:H/I:H/A:H` scores 9.8, CRITICAL |
| CvssCalculator.LowLocalVector | vulnerability-intelligence-mcp-server-master/tests/test_cvss.py:26 | `CVSS:3.1/AV:L/AC:H/PR:H/UI:R/S:U/C:L/I:L/A:N` scores 2.8, LOW |
| CvssCalculator.CriticalScopeChangeVector | vulnerability-intelligence-mcp-server-master/tests/test_cvss.py:30 | `CVSS:3.0/AV:N/AC:L/PR:L/UI:N/S:C/C:H/I:H/A:H` scores 9.9, CRITICAL |
| CvssCalculator.MediumAdjacentVector | vulnerability-intelligence-mcp-server-master/tests/test_cvss.py:34 | `CVSS:3.1/AV:A/AC:L/PR:N/UI:N/S:U/C:N/I:N/A:H` scores 6.4, MEDIUM |
| CvssCalculator.MaximumVector | tests/test_all_tools.py:70 | `CVSS:3.1/AV:N/AC:L/PR:N/UI:N/S:C/C:H/I:H/A:H` scores 10.0, CRITICAL |
| CvssScore.MissingMembers | mcp_simple_tool/tools/cvss_calculator.py:88-91 | the missing list holds exactly the codes that are absent or empty, and is empty exactly when all are present |
| CvssScore.MissingAppend | mcp_simple_tool/tools/cvss_calculator.py:88-91 | the list is built in the order of the codes: the missing codes of a concatenation are those of its first part followed by those of its second |
| CvssScore.EmptyMetricsMissing | mcp_simple_tool/tools/cvss_calculator.py:87-91 | an empty dictionary reports all eight codes missing, in the order AV, AC, PR, UI, S, C, I, A |
| CvssScore.CalculateReportsMissing | mcp_simple_tool/tools/cvss_calculator.py:87-91 | the missing-metrics error occurs exactly when some required code is absent or empty, so it wins over invalid values, and it carries the missing list of the required codes |
| CvssScore.ResolveSucceeds | mcp_simple_tool/tools/cvss_calculator.py:93-101 | the weight lookup succeeds exactly when every one of the eight values is in its metric's table |
| CvssScore.ResolveLetters | mcp_simple_tool/tools/cvss_calculator.py:93-101 | the resolved metrics are the ones the dictionary's letters name |
| CvssScore.ResolveOfLetters | mcp_simple_tool/tools/cvss_calculator.py:93-101 | a dictionary holding the letters of some base metrics resolves to exactly those metrics |
| CvssScore.ResolveReportsFirstRejected | mcp_simple_tool/tools/cvss_calculator.py:94-101 | a failed lookup reports the letter of the first rejected value in the order AV, AC, UI, S, PR, C, I, A |
| CvssScore.CalculateReportsInvalid | mcp_simple_tool/tools/cvss_calculator.py:88-101 | with every metric present, scoring fails exactly when some value is rejected, and reports the first rejected letter |
| CvssScore.CalculateResult | mcp_simple_tool/tools/cvss_calculator.py:116-149 | a computed result has a one-decimal base score in [0, 10], its severity is the band of that score, and its scope and metrics are the resolved ones |
| CvssScore.Round1 | mcp_simple_tool/tools/cvss_calculator.py:124 | `round(x, 1)`: a one-decimal value within 0.05 of x |
| CvssScore.IssRange | mcp_simple_tool/tools/cvss_calculator.py:104 | ISS lies in [0, 0.914816]; it is 0 exactly when C, I and A are all N, and otherwise at least 0.22 |
| CvssScore.ExploitabilityRange | mcp_simple_tool/tools/cvss_calculator.py:113 | Exploitability lies in (0, 8.22] |
| CvssScore.ImpactSign | mcp_simple_tool/tools/cvss_calculator.py:106-110 | Impact exceeds 0.78 when some of C, I, A is not N; otherwise it is 0 (scope unchanged) or negative (scope changed) |
| CvssScore.BaseScoreRange | mcp_simple_tool/tools/cvss_calculator.py:115-124 | every base score is a one-decimal value in [0, 10] |
| CvssScore.ZeroScoreIffNoImpact | mcp_simple_tool/tools/cvss_calculator.py:116-141 | the base score is 0.0, and the severity NONE, exactly when C, I and A are all N, in both scopes |
| CvssScore.SeverityMonotone | mcp_simple_tool/tools/cvss_calculator.py:127-141 | a higher score never gets a lower severity |
| CvssScore.SeverityLegend | mcp_simple_tool/tools/cvss_calculator.py:220-225 | on one-decimal scores in [0, 10], the severity chain agrees with the printed ranges 9.0-10.0, 7.0-8.9, 4.0-6.9, 0.1-3.9 and 0.0 (both directions) |
| CvssScore.NetworkNoPrivilegesExample | mcp_simple_tool/tools/cvss_calculator.py:104-141 | AV:N/AC:L/PR:N/UI:N/S:U/C:H/I:H/A:H gives 9.8, CRITICAL |
| CvssScore.LocalHighComplexityExample | mcp_simple_tool/tools/cvss_calculator.py:104-141 | AV:L/AC:H/PR:H/UI:R/S:U/C:L/I:L/A:N gives 2.8, LOW |
| CvssScore.AdjacentDenialOfServiceExample | mcp_simple_tool/tools/cvss_calculator.py:104-141 | AV:A/AC:L/PR:N/UI:N/S:U/C:N/I:N/A:H gives 6.4, MEDIUM |
| CvssScore.NetworkScopeChangeExample | mcp_simple_tool/tools/cvss_calculator.py:104-141 | AV:N/AC:L/PR:L/UI:N/S:C/C:H/I:H/A:H gives 9.9, CRITICAL |
| CvssScore.NetworkScopeChangeMaximumExample | mcp_simple_tool/tools/cvss_calculator.py:104-141 | AV:N/AC:L/PR:N/UI:N/S:C/C:H/I:H/A:H is clamped to 10.0, CRITICAL |
| CvssScore.RoundUp | mcp_simple_tool/tools/cvss_calculator.py:124 | the Roundup of Appendix A of the CVSS v3.1 specification, which the code does not use: the smallest one-decimal value not below x |
| CvssScore.Round1AtMostRoundUp | mcp_simple_tool/tools/cvss_calculator.py:124 | the code's rounding equals Roundup or is 0.1 below it |
| CvssScore.AdjacentRoundUpDiffers | mcp_simple_tool/tools/cvss_calculator.py:115-124 | for AV:A/AC:L/PR:N/UI:N/S:U/C:N/I:N/A:H the code gives 6.4 where Roundup gives 6.5 |
| EpssLookup.RiskBands | vulnerability-intelligence-mcp-server-master/mcp_simple_tool/tools/epss_lookup.py:89-103 | the risk levels are the intervals [0.7, ∞), [0.3, 0.7), [0.1, 0.3), [0.01, 0.1) and below 0.01 (both directions) |
| EpssLookup.RiskMonotone | vulnerability-intelligence-mcp-server-master/mcp_simple_tool/tools/epss_lookup.py:89-103 | a higher EPSS score never gets a lower risk level |
| EpssLookup.BandBands | vulnerability-intelligence-mcp-server-master/mcp_simple_tool/tools/epss_lookup.py:106-115 | the percentile descriptions are the intervals [95, ∞), [90, 95), [75, 90), [50, 75) and below 50 (both directions) |
| EpssLookup.BandMonotone | vulnerability-intelligence-mcp-server-master/mcp_simple_tool/tools/epss_lookup.py:106-115 | a higher percentile never gets a lower description |
| EpssLookup.PriorityAgreesWithRisk | vulnerability-intelligence-mcp-server-master/mcp_simple_tool/tools/epss_lookup.py:135-150 | URGENT exactly for CRITICAL or HIGH risk, HIGH PRIORITY exactly for MEDIUM, MEDIUM PRIORITY exactly for LOW, LOW PRIORITY exactly for VERY LOW |
| EpssLookup.InvalidIdFirst | vulnerability-intelligence-mcp-server-master/mcp_simple_tool/tools/epss_lookup.py:31-42 | a rejected identifier gives the format error, whatever the API would have answered |
| EpssLookup.StatusChecked | vulnerability-intelligence-mcp-server-master/mcp_simple_tool/tools/epss_lookup.py:61-67 | a status other than "OK" is an error carrying that status, or "Unknown" when it is absent |
| EpssLookup.EmptyDataNoScore | vulnerability-intelligence-mcp-server-master/mcp_simple_tool/tools/epss_lookup.py:69-76 | with status "OK", an absent or empty data list means no EPSS score |
| EpssLookup.FirstEntryOnly | vulnerability-intelligence-mcp-server-master/mcp_simple_tool/tools/epss_lookup.py:78 | only the first element of the data list is read |
| EpssLookup.AbsentFieldsDefault | vulnerability-intelligence-mcp-server-master/mcp_simple_tool/tools/epss_lookup.py:81-83 | an entry without `epss` and `percentile` reads both as 0: VERY LOW risk, below average, LOW PRIORITY |
| EpssLookup.ReportConsistent | vulnerability-intelligence-mcp-server-master/mcp_simple_tool/tools/epss_lookup.py:81-115 | a report classifies its own score and percentile, is URGENT exactly for CRITICAL or HIGH risk, and names a well-formed identifier |
| Listing.Truncate | mcp_simple_tool/tools/vex_status.py:216-225 | the listed items are a prefix of at most `limit` items; the "more" line appears exactly when there are more than `limit` items, with the count of the rest |
| VexStatus.CollectVendorStatements | mcp_simple_tool/tools/vex_status.py:76-139 | the reference loop collects exactly `VendorStatements`: one statement per vendor reference, in reference order |
| VexStatus.VendorStatementsAppend | mcp_simple_tool/tools/vex_status.py:76-139 | the statements of consecutive runs of references come out in the same order |
| VexStatus.VendorStatementsMembers | mcp_simple_tool/tools/vex_status.py:82-139 | a statement is collected exactly when some reference passes the vendor filter and yields it |
| VexStatus.VendorStatementsCount | mcp_simple_tool/tools/vex_status.py:76-139 | there are never more statements than references |
| VexStatus.StatementsConsistent | mcp_simple_tool/tools/vex_status.py:99-139 | every statement carries the status its own URL reads as and that status's confidence; `high` only for `not_affected`, `low` only for `under_investigation` |
| VexStatus.VendorAdvisoryKept | mcp_simple_tool/tools/vex_status.py:82-83 | a reference tagged exactly `vendor advisory` is kept, whatever its URL |
| VexStatus.StatementIgnoresCase | mcp_simple_tool/tools/vex_status.py:77 | the URL's letter case changes neither the filter nor the inferred status |
| VexStatus.InferStatusIsFirstMatch | mcp_simple_tool/tools/vex_status.py:100-129 | the status chain picks the first keyword list, in the order fixed, not_affected, affected, that the URL matches |
| VexStatus.NotAffectedWordsSayAffected | mcp_simple_tool/tools/vex_status.py:114-127 | every URL with a not-affected keyword also contains "affected" |
| VexStatus.StatusPrecedence | mcp_simple_tool/tools/vex_status.py:100-129 | fixed exactly when a fix keyword occurs; not_affected exactly when a not-affected keyword occurs and no fix keyword does; affected exactly when only affected or vulnerable occurs; under_investigation otherwise |
| VexStatus.FirstIndex | mcp_simple_tool/tools/vex_status.py:200-205 | the position of the first statement with a status, or the length when there is none |
| VexStatus.GroupByStatus | mcp_simple_tool/tools/vex_status.py:200-205 | the grouping loop yields the statuses in `Order` and, under each, exactly its `Group` |
| VexStatus.OrderByFirstOccurrence | mcp_simple_tool/tools/vex_status.py:200-205 | groups appear in the order in which their statuses first occur |
| VexStatus.OrderDistinct | mcp_simple_tool/tools/vex_status.py:203-204 | no status heads two groups |
| VexStatus.OrderCovers | mcp_simple_tool/tools/vex_status.py:200-205 | a status has a group exactly when some statement has that status |
| VexStatus.GroupMembers | mcp_simple_tool/tools/vex_status.py:201-205 | a group holds exactly the statements of its status |
| VexStatus.GroupAppend | mcp_simple_tool/tools/vex_status.py:201-205 | each group keeps source order: grouping consecutive runs concatenates their groups |
| VexStatus.GroupsPartition | mcp_simple_tool/tools/vex_status.py:200-205 | the group sizes add up to the number of statements |
| VexStatus.SectionsShape | mcp_simple_tool/tools/vex_status.py:207-225 | one section per group, in group order, each with a non-empty count, listing at most three statements of its group, with an "and N-3 more" line exactly when it has more than three |
| VexStatus.GuidanceIsFirstMatch | mcp_simple_tool/tools/vex_status.py:235-264 | the guidance is the first family, in the order Microsoft, Red Hat, Ubuntu, Debian, Apache, that the lower-cased product names, and the generic advice otherwise |
| VexStatus.MicrosoftFirst | mcp_simple_tool/tools/vex_status.py:236-243 | a product naming a Microsoft family is sent to the MSRC, whatever else it names |
| VexStatus.GuidanceIgnoresCase | mcp_simple_tool/tools/vex_status.py:235 | the product's letter case does not change the guidance |
| VexStatus.VexInvalidIdFirst | mcp_simple_tool/tools/vex_status.py:38-49 | a rejected identifier gives the format error, whatever the product and the NVD answer |
| VexStatus.NoResultsNoStatements | mcp_simple_tool/tools/vex_status.py:70-72 | without a 200 reply, or with no results, the report has no statements and no sections |
| VexStatus.ReportAccounts | mcp_simple_tool/tools/vex_status.py:195-264 | a report's statements come from the references read, there are no more of them than references, its groups account for each statement once, and guidance appears exactly for a non-empty product |
| CveLookup.AppendEnglish | vulnerability-intelligence-mcp-server-master/mcp_simple_tool/tools/cve_lookup.py:80-82 | the description loop appends exactly the English texts, in order |
| CveLookup.EnglishAppend | vulnerability-intelligence-mcp-server-master/mcp_simple_tool/tools/cve_lookup.py:80-82 | the English texts of consecutive runs keep their order |
| CveLookup.EnglishMembers | vulnerability-intelligence-mcp-server-master/mcp_simple_tool/tools/cve_lookup.py:80-82 | a text is kept exactly when some entry with language "en" has it (an absent value reads as "") |
| CveLookup.EntriesOf | vulnerability-intelligence-mcp-server-master/mcp_simple_tool/tools/cve_lookup.py:89-99 | one entry per metric of a list, in order, each tagged with the list's version |
| CveLookup.AppendEntries | vulnerability-intelligence-mcp-server-master/mcp_simple_tool/tools/cve_lookup.py:89-99 | one CVSS loop appends exactly the entries of its list |
| CveLookup.CollectCvss | vulnerability-intelligence-mcp-server-master/mcp_simple_tool/tools/cve_lookup.py:84-127 | the three CVSS loops produce the 3.1 block, then the 3.0 block, then the 2.0 block |
| CveLookup.CvssOrdered | vulnerability-intelligence-mcp-server-master/mcp_simple_tool/tools/cve_lookup.py:87-127 | every entry is of version 3.1, 3.0 or 2.0, the entries are ordered 3.1 before 3.0 before 2.0, and none is lost |
| CveLookup.MissingFieldsNA | vulnerability-intelligence-mcp-server-master/mcp_simple_tool/tools/cve_lookup.py:90-98 | a metric without `cvssData` and `source` shows "N/A" for score, severity, vector and source |
| CveLookup.ReferencesOf | vulnerability-intelligence-mcp-server-master/mcp_simple_tool/tools/cve_lookup.py:130-137 | every reference is extracted, in order |
| CveLookup.CollectReferences | vulnerability-intelligence-mcp-server-master/mcp_simple_tool/tools/cve_lookup.py:130-137 | the reference loop produces exactly `ReferencesOf` |
| CveLookup.TagsText | vulnerability-intelligence-mcp-server-master/mcp_simple_tool/tools/cve_lookup.py:179 | a reference without tags shows "General" |
| CveLookup.TagsShown | vulnerability-intelligence-mcp-server-master/mcp_simple_tool/tools/cve_lookup.py:179 | every tag of a tagged reference appears in its tags line |
| CveLookup.CollectWeaknesses | vulnerability-intelligence-mcp-server-master/mcp_simple_tool/tools/cve_lookup.py:140-143 | the nested weakness loop produces exactly `Weaknesses` |
| CveLookup.WeaknessesMembers | vulnerability-intelligence-mcp-server-master/mcp_simple_tool/tools/cve_lookup.py:140-143 | a CWE text is listed exactly when some weakness has it as an English description |
| CveLookup.ExtractInfo | vulnerability-intelligence-mcp-server-master/mcp_simple_tool/tools/cve_lookup.py:65-143 | the extraction loops together produce `InfoOf` the record |
| CveLookup.LookupInvalidIdFirst | vulnerability-intelligence-mcp-server-master/mcp_simple_tool/tools/cve_lookup.py:30-41 | a rejected identifier gives the format error, whatever the NVD would have answered |
| CveLookup.ZeroResultsNotFound | vulnerability-intelligence-mcp-server-master/mcp_simple_tool/tools/cve_lookup.py:57-63 | zero or absent `totalResults` is "not found" |
| CveLookup.FoundListing | vulnerability-intelligence-mcp-server-master/mcp_simple_tool/tools/cve_lookup.py:176-185 | a found record lists its first ten references at most, with an "and N-10 more" line exactly when there are more than ten; the report names the record's own identifier |

## Left out

- Network I/O and its error mapping are not modelled: the `httpx` requests, timeouts, HTTP status errors and JSON decoding. A reply enters the model as a record (`Nvd.NvdResponse`, `EpssLookup.EpssResponse`). For the VEX check, a reply with a status other than 200, or a failed request, is `None`.
- The text of the answers is not modelled: the Markdown, the emoji, the fixed advice paragraphs, the lists of VEX sources and GitHub search URLs, and the report timestamp (`datetime.now()`). The model keeps only what the text is built from.
- The server (`mcp_simple_tool/server.py`), its tool registration and its transports are not part of this model, and neither is the admin front end.
- Floating point is not modelled. Arithmetic is exact over `real`. Whether an IEEE-754 evaluation lands on the other side of a rounding or band boundary is not captured.
- CvssScore.Round1: rounds exact ties half up. Python's `round(x, 1)` works on the binary value and ties to even.
- CvssScore.Score: the displayed impact and exploitability scores are rounded with the same `Round1`.
- The Roundup of the CVSS standard is modelled only for comparison (`CvssScore.RoundUp`, `AdjacentRoundUpDiffers`). The calculator rounds to nearest, so `CVSS:3.1/AV:A/AC:L/PR:N/UI:N/S:U/C:N/I:N/A:H` scores 6.4 here, not the 6.5 of FIRST's calculator.
- Only ASCII is modelled: `str.upper()` and `str.lower()` on ASCII letters, `\d` on ASCII digits, and `str.strip()` on the ASCII whitespace Python strips.
- CvssCalculator.CriticalNetworkVector: this and the other four vector examples state their vectors as `VectorString(version, metrics)`, which spells out the test vector, rather than as a string literal.
- JSON type errors are not modelled, such as a `tags` value that is not a list or a `totalResults` that is not a number. Each field has the type the tools expect.
- EpssLookup.Answer: `float(...)` on a field is abstracted as `JsonNumber`: either a number, or a value that makes `float` raise (`ParseFailure`). String-to-number parsing is not modelled.
- EpssLookup.Band compares the percentile with 95, 90, 75 and 50, as the code does. The FIRST API reports the percentile as a fraction in [0, 1], so in practice every answer is "below average". The model keeps the code's thresholds.
- The VEX tag test is case-sensitive membership of the exact string `vendor advisory`, as in the code. NVD writes `Vendor Advisory`, so in practice references are kept because of their URL.
- The CVE lookup treats any `totalResults` other than 0 as found, including a negative one. The VEX check needs `totalResults > 0`. Both are modelled as written.
- In the CVE lookup, a missing `vulnerabilities` key, an empty `vulnerabilities` list and a record without `id` raise; the model reports them as `MalformedRecord`. The VEX check never reads `id`; for a missing or empty `vulnerabilities` list it goes on without statements.
- Python's dictionary keeps insertion order. `VexStatus.GroupByStatus` keeps that order in a separate sequence beside an unordered `map`.
- The cut of each VEX statement URL to 80 characters, and the vendor and confidence markers of a listed statement, are formatting and are not modelled.
- The CVE report's `configurations` list is always empty in the code and is not modelled.
