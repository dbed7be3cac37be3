/**
 * What the CVE lookup takes from an NVD record: the English descriptions,
 * the CVSS entries (all v3.1 first, then v3.0, then v2.0, with "N/A" for
 * missing fields), every reference (of which the report lists ten) and the
 * English CWE descriptions of the weaknesses; and the answers before a
 * record is read: a malformed identifier, and zero results.
 */
module CveLookup {
  import opened Common
  import opened Text
  import opened CveId
  import opened Listing
  import opened Nvd

  datatype CvssEntry = CvssEntry(version: string, score: string, severity: string, vector: string, source: string)

  datatype ReferenceInfo = ReferenceInfo(url: string, source: string, tags: seq<string>)

  /** The `cve_info` dictionary the report is formatted from. */
  datatype CveInfo = CveInfo(
    id: string,
    published: string,
    lastModified: string,
    descriptions: seq<string>,
    cvssScores: seq<CvssEntry>,
    references: seq<ReferenceInfo>,
    weaknesses: seq<string>)

  datatype CveAnswer =
    | InvalidCveId(cveId: string)        // the identifier failed the format check
    | NotFound(cveId: string)            // `totalResults` was 0 or absent
    | MalformedRecord                    // no vulnerability, or one without an id: the tool's generic error
    | Found(info: CveInfo, listed: Preview<ReferenceInfo>)

  const ListedReferences: nat := 10

  // ----------------------------------------------------------- descriptions

  predicate IsEnglish(d: LangString)
  {
    d.lang == Some("en")
  }

  /** The values of the English entries, in order, an absent value read as "". */
  function English(descs: seq<LangString>): seq<string>
  {
    if descs == [] then []
    else
      var d := descs[|descs| - 1];
      English(descs[..|descs| - 1]) + (if IsEnglish(d) then [GetOr(d.value, "")] else [])
  }

  /** The description loop, appending to `acc`. */
  method AppendEnglish(acc: seq<string>, descs: seq<LangString>) returns (r: seq<string>)
    ensures r == acc + English(descs)
  {
    r := acc;
    var i := 0;
    while i < |descs|
      invariant 0 <= i <= |descs|
      invariant r == acc + English(descs[..i])
    {
      assert descs[..i + 1][..i] == descs[..i];
      var d := descs[i];
      if d.lang == Some("en") {
        r := r + [GetOr(d.value, "")];
      }
      i := i + 1;
    }
    assert descs[..i] == descs;
  }

  /** English texts of consecutive runs come out in the same order. */
  lemma {:induction false} EnglishAppend(a: seq<LangString>, b: seq<LangString>)
    ensures English(a + b) == English(a) + English(b)
    decreases |b|
  {
    if b == [] {
      assert a + b == a;
    } else {
      assert (a + b)[..|a + b| - 1] == a + b[..|b| - 1];
      EnglishAppend(a, b[..|b| - 1]);
    }
  }

  /** Only English entries contribute, and every English entry does. */
  lemma {:induction false} EnglishMembers(descs: seq<LangString>, text: string)
    ensures text in English(descs) <==>
      exists k | 0 <= k < |descs| :: IsEnglish(descs[k]) && GetOr(descs[k].value, "") == text
  {
    if descs != [] {
      var init := descs[..|descs| - 1];
      EnglishMembers(init, text);
      if exists k | 0 <= k < |descs| :: IsEnglish(descs[k]) && GetOr(descs[k].value, "") == text {
        var k :| 0 <= k < |descs| && IsEnglish(descs[k]) && GetOr(descs[k].value, "") == text;
        if k < |init| {
          assert init[k] == descs[k];
        }
      }
      if exists k | 0 <= k < |init| :: IsEnglish(init[k]) && GetOr(init[k].value, "") == text {
        var k :| 0 <= k < |init| && IsEnglish(init[k]) && GetOr(init[k].value, "") == text;
        assert descs[k] == init[k];
      }
    }
  }

  // ------------------------------------------------------------------ CVSS

  function EntryOf(version: string, m: CvssMetric): CvssEntry
  {
    var data := GetOr(m.cvssData, CvssData(None, None, None));
    CvssEntry(version, GetOr(data.baseScore, "N/A"), GetOr(data.baseSeverity, "N/A"),
      GetOr(data.vectorString, "N/A"), GetOr(m.source, "N/A"))
  }

  /** The entries of one metric list, each tagged with `version`. */
  function EntriesOf(version: string, ms: seq<CvssMetric>): (r: seq<CvssEntry>)
    ensures |r| == |ms|
    ensures forall k | 0 <= k < |r| :: r[k] == EntryOf(version, ms[k])
  {
    if ms == [] then []
    else
      var init := EntriesOf(version, ms[..|ms| - 1]);
      assert forall k | 0 <= k < |init| :: ms[..|ms| - 1][k] == ms[k];
      init + [EntryOf(version, ms[|ms| - 1])]
  }

  /** The three blocks in the order the tool appends them; an absent list adds nothing. */
  function CvssEntries(metrics: Metrics): seq<CvssEntry>
  {
    EntriesOf("3.1", GetOr(metrics.v31, [])) + EntriesOf("3.0", GetOr(metrics.v30, [])) + EntriesOf("2.0", GetOr(metrics.v2, []))
  }

  /** One of the three CVSS loops, appending to `acc`. */
  method AppendEntries(acc: seq<CvssEntry>, version: string, ms: seq<CvssMetric>) returns (r: seq<CvssEntry>)
    ensures r == acc + EntriesOf(version, ms)
  {
    r := acc;
    var i := 0;
    while i < |ms|
      invariant 0 <= i <= |ms|
      invariant r == acc + EntriesOf(version, ms[..i])
    {
      assert ms[..i + 1][..i] == ms[..i];
      var m := ms[i];
      var data := GetOr(m.cvssData, CvssData(None, None, None));
      r := r + [CvssEntry(version, GetOr(data.baseScore, "N/A"), GetOr(data.baseSeverity, "N/A"),
        GetOr(data.vectorString, "N/A"), GetOr(m.source, "N/A"))];
      i := i + 1;
    }
    assert ms[..i] == ms;
  }

  /** The three CVSS loops, each run only when its list is present. */
  method CollectCvss(metrics: Metrics) returns (scores: seq<CvssEntry>)
    ensures scores == CvssEntries(metrics)
  {
    scores := [];
    if metrics.v31.Some? {
      scores := AppendEntries(scores, "3.1", metrics.v31.value);
    }
    assert scores == EntriesOf("3.1", GetOr(metrics.v31, []));
    if metrics.v30.Some? {
      scores := AppendEntries(scores, "3.0", metrics.v30.value);
    }
    assert scores == EntriesOf("3.1", GetOr(metrics.v31, [])) + EntriesOf("3.0", GetOr(metrics.v30, []));
    if metrics.v2.Some? {
      scores := AppendEntries(scores, "2.0", metrics.v2.value);
    }
  }

  /** The position of a version in the listing: 3.1 before 3.0 before 2.0. */
  function VersionRank(version: string): nat
  {
    if version == "3.1" then 0 else if version == "3.0" then 1 else 2
  }

  /**
   * Every entry is of version 3.1, 3.0 or 2.0; the entries are ordered by
   * version, newest first; each block keeps its list's order; and a metric
   * without `cvssData` or `source` shows "N/A" in their place.
   */
  lemma CvssOrdered(metrics: Metrics)
    ensures var e := CvssEntries(metrics);
      && |e| == |GetOr(metrics.v31, [])| + |GetOr(metrics.v30, [])| + |GetOr(metrics.v2, [])|
      && (forall k | 0 <= k < |e| :: e[k].version in ["3.1", "3.0", "2.0"])
      && (forall i, j | 0 <= i < j < |e| :: VersionRank(e[i].version) <= VersionRank(e[j].version))
      && (forall k | 0 <= k < |GetOr(metrics.v31, [])| :: e[k] == EntryOf("3.1", GetOr(metrics.v31, [])[k]))
  {
    var a := EntriesOf("3.1", GetOr(metrics.v31, []));
    var b := EntriesOf("3.0", GetOr(metrics.v30, []));
    var c := EntriesOf("2.0", GetOr(metrics.v2, []));
    var e := a + b + c;
    forall k | 0 <= k < |e|
      ensures e[k].version == (if k < |a| then "3.1" else if k < |a| + |b| then "3.0" else "2.0")
    {
      if k < |a| {
        assert e[k] == a[k];
      } else if k < |a| + |b| {
        assert e[k] == b[k - |a|];
      } else {
        assert e[k] == c[k - |a| - |b|];
      }
    }
  }

  /** A metric without `cvssData` or `source` shows "N/A" for each missing field. */
  lemma MissingFieldsNA(version: string, m: CvssMetric)
    requires m.cvssData.None? && m.source.None?
    ensures EntryOf(version, m) == CvssEntry(version, "N/A", "N/A", "N/A", "N/A")
  {
  }

  // ------------------------------------------------------------ references

  function ReferenceInfoOf(ref: Reference): ReferenceInfo
  {
    ReferenceInfo(GetOr(ref.url, ""), GetOr(ref.source, ""), GetOr(ref.tags, []))
  }

  /** Every reference, in order: the extraction itself drops none. */
  function ReferencesOf(refs: seq<Reference>): (r: seq<ReferenceInfo>)
    ensures |r| == |refs|
    ensures forall k | 0 <= k < |r| :: r[k] == ReferenceInfoOf(refs[k])
  {
    if refs == [] then []
    else
      var init := ReferencesOf(refs[..|refs| - 1]);
      assert forall k | 0 <= k < |init| :: refs[..|refs| - 1][k] == refs[k];
      init + [ReferenceInfoOf(refs[|refs| - 1])]
  }

  method CollectReferences(refs: seq<Reference>) returns (r: seq<ReferenceInfo>)
    ensures r == ReferencesOf(refs)
  {
    r := [];
    var i := 0;
    while i < |refs|
      invariant 0 <= i <= |refs|
      invariant r == ReferencesOf(refs[..i])
    {
      assert refs[..i + 1][..i] == refs[..i];
      var ref := refs[i];
      r := r + [ReferenceInfo(GetOr(ref.url, ""), GetOr(ref.source, ""), GetOr(ref.tags, []))];
      i := i + 1;
    }
    assert refs[..i] == refs;
  }

  /**
   * The display rule for the tags line of each listed reference (cve_lookup.py,
   * line 179): the tags joined by ", ", or "General" for none. `ReferenceInfo`
   * keeps the raw tags; this is how the report prints them.
   */
  function TagsText(tags: seq<string>): (t: string)
    ensures tags == [] ==> t == "General"
  {
    if tags == [] then "General" else Join(tags, ", ")
  }

  /** Every tag of a tagged reference appears in its tags line. */
  lemma {:induction false} TagsShown(tags: seq<string>, k: nat)
    requires k < |tags|
    ensures Contains(TagsText(tags), tags[k])
  {
    if |tags| == 1 {
      ContainsAt(tags[0], tags[0], 0);
    } else if k == 0 {
      ContainsAt(Join(tags, ", "), tags[0], 0);
    } else {
      TagsShown(tags[1..], k - 1);
      var rest := Join(tags[1..], ", ");
      ContainsAt(Join(tags, ", "), rest, |tags[0]| + 2);
      ContainsTransitive(Join(tags, ", "), rest, tags[k]);
    }
  }

  // ------------------------------------------------------------ weaknesses

  /** The English descriptions of all weaknesses, weakness by weakness. */
  function Weaknesses(ws: seq<Weakness>): seq<string>
  {
    if ws == [] then []
    else Weaknesses(ws[..|ws| - 1]) + English(GetOr(ws[|ws| - 1].description, []))
  }

  /** The nested weakness loop. */
  method CollectWeaknesses(ws: seq<Weakness>) returns (r: seq<string>)
    ensures r == Weaknesses(ws)
  {
    r := [];
    var i := 0;
    while i < |ws|
      invariant 0 <= i <= |ws|
      invariant r == Weaknesses(ws[..i])
    {
      assert ws[..i + 1][..i] == ws[..i];
      r := AppendEnglish(r, GetOr(ws[i].description, []));
      i := i + 1;
    }
    assert ws[..i] == ws;
  }

  /** A CWE text is listed exactly when some weakness has it as an English description. */
  lemma {:induction false} WeaknessesSound(ws: seq<Weakness>, text: string)
    requires text in Weaknesses(ws)
    ensures exists k | 0 <= k < |ws| :: text in English(GetOr(ws[k].description, []))
  {
    var init := ws[..|ws| - 1];
    if text in Weaknesses(init) {
      WeaknessesSound(init, text);
      var k :| 0 <= k < |init| && text in English(GetOr(init[k].description, []));
      assert ws[k] == init[k];
    } else {
      assert text in English(GetOr(ws[|ws| - 1].description, []));
    }
  }

  lemma {:induction false} WeaknessesComplete(ws: seq<Weakness>, text: string, k: nat)
    requires k < |ws| && text in English(GetOr(ws[k].description, []))
    ensures text in Weaknesses(ws)
  {
    var init := ws[..|ws| - 1];
    if k < |init| {
      assert init[k] == ws[k];
      WeaknessesComplete(init, text, k);
    }
  }

  lemma WeaknessesMembers(ws: seq<Weakness>, text: string)
    ensures text in Weaknesses(ws) <==>
      exists k | 0 <= k < |ws| :: text in English(GetOr(ws[k].description, []))
  {
    if text in Weaknesses(ws) {
      WeaknessesSound(ws, text);
    }
    if exists k | 0 <= k < |ws| :: text in English(GetOr(ws[k].description, [])) {
      var k :| 0 <= k < |ws| && text in English(GetOr(ws[k].description, []));
      WeaknessesComplete(ws, text, k);
    }
  }

  // ---------------------------------------------------------------- record

  /** The `cve_info` of a record with identifier `id`; absent lists read as empty. */
  function InfoOf(item: CveItem, id: string): CveInfo
  {
    CveInfo(
      id,
      GetOr(item.published, "Unknown"),
      GetOr(item.lastModified, "Unknown"),
      English(GetOr(item.descriptions, [])),
      CvssEntries(GetOr(item.metrics, Metrics(None, None, None))),
      ReferencesOf(GetOr(item.references, [])),
      Weaknesses(GetOr(item.weaknesses, [])))
  }

  /** The extraction loops of `lookup_cve`, in the order the tool runs them. */
  method ExtractInfo(item: CveItem, id: string) returns (info: CveInfo)
    ensures info == InfoOf(item, id)
  {
    var descriptions := AppendEnglish([], GetOr(item.descriptions, []));
    var scores := CollectCvss(GetOr(item.metrics, Metrics(None, None, None)));
    var references := CollectReferences(GetOr(item.references, []));
    var weaknesses := CollectWeaknesses(GetOr(item.weaknesses, []));
    info := CveInfo(id, GetOr(item.published, "Unknown"), GetOr(item.lastModified, "Unknown"),
      descriptions, scores, references, weaknesses);
  }

  /** `lookup_cve` after the request: the answer the tool formats. */
  function LookupAnswer(rawId: string, response: NvdResponse): CveAnswer
  {
    match Validate(rawId)
    case Failure(id) => InvalidCveId(id)
    case Success(id) =>
      if GetOr(response.totalResults, 0) == 0 then NotFound(id)
      else if response.vulnerabilities == [] || response.vulnerabilities[0].id.None? then MalformedRecord
      else
        var info := InfoOf(response.vulnerabilities[0], response.vulnerabilities[0].id.value);
        Found(info, Truncate(info.references, ListedReferences))
  }

  /** A malformed identifier is reported before, and regardless of, any lookup. */
  lemma LookupInvalidIdFirst(rawId: string, response: NvdResponse)
    requires Validate(rawId).Failure?
    ensures LookupAnswer(rawId, response) == InvalidCveId(Normalize(rawId))
  {
  }

  /** Zero or absent `totalResults` is "not found", whatever the vulnerabilities hold. */
  lemma ZeroResultsNotFound(rawId: string, response: NvdResponse)
    requires Validate(rawId).Success? && GetOr(response.totalResults, 0) == 0
    ensures LookupAnswer(rawId, response) == NotFound(Normalize(rawId))
  {
  }

  /**
   * A found record lists its first ten references at most, all of them when
   * there are ten or fewer, and a "more" line with the rest's count exactly
   * when there are more than ten; only the first vulnerability is read.
   */
  lemma FoundListing(rawId: string, response: NvdResponse)
    requires LookupAnswer(rawId, response).Found?
    ensures var a := LookupAnswer(rawId, response);
      var refs := GetOr(response.vulnerabilities[0].references, []);
      && |a.info.references| == |refs|
      && a.listed.shown == a.info.references[..if |refs| <= 10 then |refs| else 10]
      && (a.listed.more.Some? <==> |refs| > 10)
      && (a.listed.more.Some? ==> a.listed.more.value == |refs| - 10)
      && a.info.id == response.vulnerabilities[0].id.value
  {
  }
}
