/**
 * The part of an NVD API 2.0 response that the CVE lookup and the VEX check
 * read. Every key the tools read with `.get(key, default)` is an `Option`; the
 * tools apply the default. `vulnerabilities` is the list of `cve` objects of
 * the response (the tools index its first element).
 */
module Nvd {
  import opened Common

  /** An element of `descriptions`, or of a weakness's `description`. */
  datatype LangString = LangString(lang: Option<string>, value: Option<string>)

  datatype Reference = Reference(url: Option<string>, source: Option<string>, tags: Option<seq<string>>)

  /** The `cvssData` object; the score is kept as the text the report prints. */
  datatype CvssData = CvssData(baseScore: Option<string>, baseSeverity: Option<string>, vectorString: Option<string>)

  /** An element of `cvssMetricV31`, `cvssMetricV30` or `cvssMetricV2`. */
  datatype CvssMetric = CvssMetric(source: Option<string>, cvssData: Option<CvssData>)

  /** The `metrics` object: the three lists, each possibly absent. */
  datatype Metrics = Metrics(v31: Option<seq<CvssMetric>>, v30: Option<seq<CvssMetric>>, v2: Option<seq<CvssMetric>>)

  datatype Weakness = Weakness(description: Option<seq<LangString>>)

  datatype CveItem = CveItem(
    id: Option<string>,
    published: Option<string>,
    lastModified: Option<string>,
    descriptions: Option<seq<LangString>>,
    metrics: Option<Metrics>,
    references: Option<seq<Reference>>,
    weaknesses: Option<seq<Weakness>>)

  datatype NvdResponse = NvdResponse(totalResults: Option<int>, vulnerabilities: seq<CveItem>)
}
