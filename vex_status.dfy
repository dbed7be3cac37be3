/**
 * The decisions of the VEX status check: which NVD references count as vendor
 * statements, the status and confidence read from a statement's URL, the
 * grouping of statements by status with at most three listed per group, and
 * the vendor portal recommended for a product.
 */
module VexStatus {
  import opened Common
  import opened Text
  import opened CveId
  import opened Listing
  import opened Nvd

  datatype Status = Fixed | NotAffected | Affected | UnderInvestigation

  datatype Confidence = High | Medium | Low

  /** One entry of `vendor_statements`: the reference's source and URL as given, and what was inferred. */
  datatype Statement = Statement(vendor: string, url: string, status: Status, confidence: Confidence, tags: seq<string>)

  const VendorNames: seq<string> := ["microsoft", "oracle", "redhat", "ubuntu", "debian", "apache", "cisco", "vmware"]
  const FixedWords: seq<string> := ["patch", "fix", "update", "resolved"]
  const NotAffectedWords: seq<string> := ["not-affected", "unaffected", "not_affected"]
  const AffectedWords: seq<string> := ["affected", "vulnerable"]

  /** The keyword lists in the order the status chain tries them. */
  const StatusWords: seq<seq<string>> := [FixedWords, NotAffectedWords, AffectedWords]

  // ------------------------------------------------------ vendor filter

  /** The filter on a reference, given its lower-cased URL and its tag list. */
  predicate IsVendorReference(url: string, tags: seq<string>)
  {
    "vendor advisory" in tags || Contains(url, "vendor") || ContainsAny(url, VendorNames)
  }

  /** The status chain on the lower-cased URL: the first keyword list that matches wins. */
  function InferStatus(url: string): Status
  {
    if ContainsAny(url, FixedWords) then Fixed
    else if ContainsAny(url, NotAffectedWords) then NotAffected
    else if ContainsAny(url, AffectedWords) then Affected
    else UnderInvestigation
  }

  function ConfidenceOf(status: Status): Confidence
  {
    match status
    case Fixed => Medium
    case NotAffected => High
    case Affected => Medium
    case UnderInvestigation => Low
  }

  /** One pass of the reference loop: the statement it appends, if any. */
  function StatementOf(ref: Reference): Option<Statement>
  {
    var url := Lower(GetOr(ref.url, ""));
    var tags := GetOr(ref.tags, []);
    if IsVendorReference(url, tags) then
      var status := InferStatus(url);
      Some(Statement(GetOr(ref.source, ""), GetOr(ref.url, ""), status, ConfidenceOf(status), tags))
    else None
  }

  /** The statements the loop collects from `refs`, in reference order. */
  function VendorStatements(refs: seq<Reference>): seq<Statement>
  {
    if refs == [] then []
    else
      var init := VendorStatements(refs[..|refs| - 1]);
      match StatementOf(refs[|refs| - 1])
      case Some(s) => init + [s]
      case None => init
  }

  /** The reference loop, appending to `vendor_statements`. */
  method CollectVendorStatements(refs: seq<Reference>) returns (statements: seq<Statement>)
    ensures statements == VendorStatements(refs)
  {
    statements := [];
    var i := 0;
    while i < |refs|
      invariant 0 <= i <= |refs|
      invariant statements == VendorStatements(refs[..i])
    {
      assert refs[..i + 1][..i] == refs[..i];
      var ref := refs[i];
      var url := Lower(GetOr(ref.url, ""));
      var tags := GetOr(ref.tags, []);
      if IsVendorReference(url, tags) {
        var status := InferStatus(url);
        statements := statements + [Statement(GetOr(ref.source, ""), GetOr(ref.url, ""), status, ConfidenceOf(status), tags)];
      }
      i := i + 1;
    }
    assert refs[..i] == refs;
  }

  /** Statements of consecutive runs of references come out in the same order. */
  lemma {:induction false} VendorStatementsAppend(a: seq<Reference>, b: seq<Reference>)
    ensures VendorStatements(a + b) == VendorStatements(a) + VendorStatements(b)
    decreases |b|
  {
    if b == [] {
      assert a + b == a;
    } else {
      assert (a + b)[..|a + b| - 1] == a + b[..|b| - 1];
      VendorStatementsAppend(a, b[..|b| - 1]);
    }
  }

  lemma {:induction false} VendorStatementsSound(refs: seq<Reference>, s: Statement)
    requires s in VendorStatements(refs)
    ensures exists k | 0 <= k < |refs| :: StatementOf(refs[k]) == Some(s)
  {
    var init := refs[..|refs| - 1];
    var last := refs[|refs| - 1];
    if s in VendorStatements(init) {
      VendorStatementsSound(init, s);
      var k :| 0 <= k < |init| && StatementOf(init[k]) == Some(s);
      assert refs[k] == init[k];
    } else {
      assert StatementOf(last) == Some(s);
    }
  }

  lemma {:induction false} VendorStatementsComplete(refs: seq<Reference>, s: Statement, k: nat)
    requires k < |refs| && StatementOf(refs[k]) == Some(s)
    ensures s in VendorStatements(refs)
  {
    var init := refs[..|refs| - 1];
    if k < |init| {
      assert init[k] == refs[k];
      VendorStatementsComplete(init, s, k);
    }
  }

  /** A statement is collected exactly when some reference passes the filter and yields it. */
  lemma VendorStatementsMembers(refs: seq<Reference>, s: Statement)
    ensures s in VendorStatements(refs) <==> exists k | 0 <= k < |refs| :: StatementOf(refs[k]) == Some(s)
  {
    if s in VendorStatements(refs) {
      VendorStatementsSound(refs, s);
    }
    if exists k | 0 <= k < |refs| :: StatementOf(refs[k]) == Some(s) {
      var k :| 0 <= k < |refs| && StatementOf(refs[k]) == Some(s);
      VendorStatementsComplete(refs, s, k);
    }
  }

  /** No more statements than references. */
  lemma {:induction false} VendorStatementsCount(refs: seq<Reference>)
    ensures |VendorStatements(refs)| <= |refs|
  {
    if refs != [] {
      VendorStatementsCount(refs[..|refs| - 1]);
    }
  }

  /**
   * Every collected statement carries the status its own URL reads as, and
   * the confidence of that status; `high` is given only to `not_affected`.
   */
  lemma StatementsConsistent(refs: seq<Reference>, s: Statement)
    requires s in VendorStatements(refs)
    ensures s.status == InferStatus(Lower(s.url)) && s.confidence == ConfidenceOf(s.status)
    ensures s.confidence == High <==> s.status == NotAffected
    ensures s.confidence == Low <==> s.status == UnderInvestigation
  {
    VendorStatementsMembers(refs, s);
  }

  /** A reference tagged exactly "vendor advisory" is kept whatever its URL. */
  lemma VendorAdvisoryKept(ref: Reference)
    requires ref.tags.Some? && "vendor advisory" in ref.tags.value
    ensures StatementOf(ref).Some?
  {
  }

  lemma LowerUpper(s: string)
    ensures Lower(Upper(s)) == Lower(s)
  {
  }

  /** Letter case in a reference URL changes neither the filter nor the inferred status. */
  lemma StatementIgnoresCase(ref: Reference)
    requires ref.url.Some?
    ensures var shouted := ref.(url := Some(Upper(ref.url.value)));
      (StatementOf(shouted).Some? <==> StatementOf(ref).Some?)
      && (StatementOf(ref).Some? ==> StatementOf(shouted).value.status == StatementOf(ref).value.status)
  {
    LowerUpper(ref.url.value);
  }

  // ----------------------------------------------------- status chain

  /** The matching status of each keyword list, by its index in `StatusWords`. */
  function StatusOfMatch(m: Option<nat>): Status
  {
    match m
    case Some(k) => if k == 0 then Fixed else if k == 1 then NotAffected else Affected
    case None => UnderInvestigation
  }

  /** The `if/elif` chain is "the first keyword list that matches wins". */
  lemma InferStatusIsFirstMatch(url: string)
    ensures InferStatus(url) == StatusOfMatch(FirstMatchingGroup(url, StatusWords, 0))
  {
    assert |StatusWords| == 3;
    assert StatusWords[0] == FixedWords && StatusWords[1] == NotAffectedWords && StatusWords[2] == AffectedWords;
  }

  lemma EndsWith(a: string, b: string)
    ensures Contains(a + b, b)
  {
    assert (a + b)[|a|..|a| + |b|] == b;
    ContainsAt(a + b, b, |a|);
  }

  /** Every not-affected keyword ends in "affected". */
  lemma NotAffectedWordsEnd()
    ensures forall w | w in NotAffectedWords :: Contains(w, "affected")
  {
    assert "not-affected" == "not-" + "affected";
    assert "unaffected" == "un" + "affected";
    assert "not_affected" == "not_" + "affected";
    EndsWith("not-", "affected");
    EndsWith("un", "affected");
    EndsWith("not_", "affected");
  }

  /** Every URL with a not-affected keyword also contains "affected". */
  lemma NotAffectedWordsSayAffected(url: string)
    requires ContainsAny(url, NotAffectedWords)
    ensures ContainsAny(url, AffectedWords)
  {
    var w :| w in NotAffectedWords && Contains(url, w);
    NotAffectedWordsEnd();
    ContainsTransitive(url, w, "affected");
    assert "affected" in AffectedWords;
  }

  /**
   * The order of the chain decides: a not-affected URL also holds "affected",
   * so `affected` is inferred only for URLs with none of the earlier
   * keywords, and a URL with a fix keyword is `fixed` whatever else it says.
   */
  lemma StatusPrecedence(url: string)
    ensures InferStatus(url) == Fixed <==> ContainsAny(url, FixedWords)
    ensures InferStatus(url) == NotAffected <==> !ContainsAny(url, FixedWords) && ContainsAny(url, NotAffectedWords)
    ensures InferStatus(url) == Affected <==>
      !ContainsAny(url, FixedWords) && !ContainsAny(url, NotAffectedWords) && ContainsAny(url, AffectedWords)
    ensures InferStatus(url) == UnderInvestigation <==> !ContainsAny(url, AffectedWords) && !ContainsAny(url, FixedWords)
  {
    if ContainsAny(url, NotAffectedWords) {
      NotAffectedWordsSayAffected(url);
    }
  }

  // --------------------------------------------------------- grouping

  /** The statuses of `stmts` in order of first occurrence: the key order of `status_groups`. */
  function Order(stmts: seq<Statement>): seq<Status>
  {
    if stmts == [] then []
    else
      var init := Order(stmts[..|stmts| - 1]);
      var status := stmts[|stmts| - 1].status;
      if status in init then init else init + [status]
  }

  /** The statements of one status, in source order: the list `status_groups[status]`. */
  function Group(stmts: seq<Statement>, status: Status): seq<Statement>
  {
    if stmts == [] then []
    else
      var init := Group(stmts[..|stmts| - 1], status);
      if stmts[|stmts| - 1].status == status then init + [stmts[|stmts| - 1]] else init
  }

  /** The index of the first statement with `status`, or `|stmts|` when there is none. */
  function FirstIndex(stmts: seq<Statement>, status: Status): (k: nat)
    ensures k <= |stmts|
    ensures k < |stmts| ==> stmts[k].status == status
    ensures forall m | 0 <= m < k :: stmts[m].status != status
  {
    if stmts == [] then 0
    else if stmts[0].status == status then 0
    else 1 + FirstIndex(stmts[1..], status)
  }

  /**
   * The grouping loop. Python's dictionary keeps insertion order; the model
   * keeps that order in `order` beside an unordered map.
   */
  method GroupByStatus(stmts: seq<Statement>) returns (order: seq<Status>, groups: map<Status, seq<Statement>>)
    ensures order == Order(stmts)
    ensures forall status :: status in groups <==> status in order
    ensures forall status | status in groups :: groups[status] == Group(stmts, status)
  {
    order := [];
    groups := map[];
    var i := 0;
    while i < |stmts|
      invariant 0 <= i <= |stmts|
      invariant order == Order(stmts[..i])
      invariant forall status :: status in groups <==> status in order
      invariant forall status | status in groups :: groups[status] == Group(stmts[..i], status)
    {
      assert stmts[..i + 1][..i] == stmts[..i];
      var stmt := stmts[i];
      var status := stmt.status;
      if status !in groups {
        OrderMembers(stmts[..i], status);
        GroupOfAbsent(stmts[..i], status);
        order := order + [status];
        groups := groups[status := []];
      }
      groups := groups[status := groups[status] + [stmt]];
      i := i + 1;
    }
    assert stmts[..i] == stmts;
  }

  /** A status heads a group exactly when some statement has it. */
  lemma {:induction false} OrderMembers(stmts: seq<Statement>, status: Status)
    ensures status in Order(stmts) <==> FirstIndex(stmts, status) < |stmts|
  {
    if stmts != [] {
      var init := stmts[..|stmts| - 1];
      OrderMembers(init, status);
      if FirstIndex(init, status) < |init| {
        assert stmts[FirstIndex(init, status)].status == status;
      }
      if FirstIndex(stmts, status) < |init| {
        assert init[FirstIndex(stmts, status)].status == status;
      }
    }
  }

  lemma FirstIndexOfPrefix(stmts: seq<Statement>, n: nat, status: Status)
    requires n <= |stmts| && FirstIndex(stmts[..n], status) < n
    ensures FirstIndex(stmts, status) == FirstIndex(stmts[..n], status)
  {
    var k := FirstIndex(stmts[..n], status);
    assert stmts[k] == stmts[..n][k];
  }

  /** The statuses already ordered before the last statement keep their first occurrences. */
  lemma OrderedBeforeLast(stmts: seq<Statement>)
    requires stmts != []
    ensures var n := |stmts| - 1; var o := Order(stmts[..n]);
      forall k | 0 <= k < |o| :: FirstIndex(stmts, o[k]) == FirstIndex(stmts[..n], o[k]) < n
  {
    var n := |stmts| - 1;
    var init := stmts[..n];
    var o := Order(init);
    forall k | 0 <= k < |o|
      ensures FirstIndex(stmts, o[k]) == FirstIndex(init, o[k]) < n
    {
      OrderMembers(init, o[k]);
      FirstIndexOfPrefix(stmts, n, o[k]);
    }
  }

  /** A status the earlier statements do not have first occurs at the last statement. */
  lemma NewStatusAtLast(stmts: seq<Statement>)
    requires stmts != [] && stmts[|stmts| - 1].status !in Order(stmts[..|stmts| - 1])
    ensures FirstIndex(stmts, stmts[|stmts| - 1].status) == |stmts| - 1
  {
    var n := |stmts| - 1;
    var init := stmts[..n];
    OrderMembers(init, stmts[n].status);
    forall m | 0 <= m < n ensures stmts[m].status != stmts[n].status {
      assert init[m] == stmts[m];
    }
  }

  /** Groups appear in the order in which their statuses first occur; hence no status heads two groups. */
  lemma {:induction false} OrderByFirstOccurrence(stmts: seq<Statement>)
    ensures forall i, j | 0 <= i < j < |Order(stmts)| ::
      FirstIndex(stmts, Order(stmts)[i]) < FirstIndex(stmts, Order(stmts)[j])
  {
    if stmts != [] {
      var n := |stmts| - 1;
      var init := stmts[..n];
      var o := Order(init);
      var order := Order(stmts);
      OrderByFirstOccurrence(init);
      OrderedBeforeLast(stmts);
      if stmts[n].status !in o {
        NewStatusAtLast(stmts);
        assert order == o + [stmts[n].status];
      } else {
        assert order == o;
      }
      forall i, j | 0 <= i < j < |order|
        ensures FirstIndex(stmts, order[i]) < FirstIndex(stmts, order[j])
      {
        assert order[i] == o[i];
      }
    }
  }

  lemma OrderDistinct(stmts: seq<Statement>)
    ensures forall i, j | 0 <= i < j < |Order(stmts)| :: Order(stmts)[i] != Order(stmts)[j]
  {
    OrderByFirstOccurrence(stmts);
  }

  /** A group holds exactly the statements of its status. */
  lemma {:induction false} GroupMembers(stmts: seq<Statement>, status: Status, s: Statement)
    ensures s in Group(stmts, status) <==> s in stmts && s.status == status
  {
    if stmts != [] {
      var init := stmts[..|stmts| - 1];
      GroupMembers(init, status, s);
      assert stmts == init + [stmts[|stmts| - 1]];
    }
  }

  /** Each group keeps source order: grouping consecutive runs concatenates their groups. */
  lemma {:induction false} GroupAppend(a: seq<Statement>, b: seq<Statement>, status: Status)
    ensures Group(a + b, status) == Group(a, status) + Group(b, status)
    decreases |b|
  {
    if b == [] {
      assert a + b == a;
    } else {
      assert (a + b)[..|a + b| - 1] == a + b[..|b| - 1];
      GroupAppend(a, b[..|b| - 1], status);
    }
  }

  /** The total size of the groups headed by `statuses`. */
  function GroupSizes(stmts: seq<Statement>, statuses: seq<Status>): nat
  {
    if statuses == [] then 0
    else GroupSizes(stmts, statuses[..|statuses| - 1]) + |Group(stmts, statuses[|statuses| - 1])|
  }

  /** How often `status` occurs in `statuses`. */
  function Occurrences(statuses: seq<Status>, status: Status): nat
  {
    if statuses == [] then 0
    else Occurrences(statuses[..|statuses| - 1], status) + (if statuses[|statuses| - 1] == status then 1 else 0)
  }

  lemma {:induction false} GroupSizesSnoc(stmts: seq<Statement>, s: Statement, statuses: seq<Status>)
    ensures GroupSizes(stmts + [s], statuses) == GroupSizes(stmts, statuses) + Occurrences(statuses, s.status)
  {
    assert (stmts + [s])[..|stmts + [s]| - 1] == stmts;
    if statuses != [] {
      GroupSizesSnoc(stmts, s, statuses[..|statuses| - 1]);
    }
  }

  lemma {:induction false} OccurrencesDistinct(statuses: seq<Status>, status: Status)
    requires forall i, j | 0 <= i < j < |statuses| :: statuses[i] != statuses[j]
    ensures Occurrences(statuses, status) == if status in statuses then 1 else 0
  {
    if statuses != [] {
      var init := statuses[..|statuses| - 1];
      OccurrencesDistinct(init, status);
      assert statuses == init + [statuses[|statuses| - 1]];
    }
  }

  lemma {:induction false} GroupOfAbsent(stmts: seq<Statement>, status: Status)
    requires forall k | 0 <= k < |stmts| :: stmts[k].status != status
    ensures Group(stmts, status) == []
  {
    if stmts != [] {
      GroupOfAbsent(stmts[..|stmts| - 1], status);
    }
  }

  /** Grouping partitions the statements: the group sizes add up to the number of statements. */
  lemma {:induction false} GroupsPartition(stmts: seq<Statement>)
    ensures GroupSizes(stmts, Order(stmts)) == |stmts|
  {
    if stmts != [] {
      var n := |stmts| - 1;
      var init := stmts[..n];
      var s := stmts[n];
      var o := Order(init);
      assert stmts == init + [s];
      GroupsPartition(init);
      OrderDistinct(init);
      OccurrencesDistinct(o, s.status);
      GroupSizesSnoc(init, s, o);
      if s.status !in o {
        OrderMembers(init, s.status);
        GroupOfAbsent(init, s.status);
      }
    }
  }

  // -------------------------------------------------------------- report

  /** One status section of the report: the status, its statement count and the statements listed. */
  datatype Section = Section(status: Status, count: nat, listed: Preview<Statement>)

  const ListedPerStatus: nat := 3

  function Sections(stmts: seq<Statement>): seq<Section>
  {
    var order := Order(stmts);
    seq(|order|, k requires 0 <= k < |order| =>
      var group := Group(stmts, order[k]);
      Section(order[k], |group|, Truncate(group, ListedPerStatus)))
  }

  /** A status heads a group exactly when some statement has it. */
  lemma OrderCovers(stmts: seq<Statement>, status: Status)
    ensures status in Order(stmts) <==> exists s | s in stmts :: s.status == status
  {
    OrderMembers(stmts, status);
    if exists s | s in stmts :: s.status == status {
      var s :| s in stmts && s.status == status;
      var k :| 0 <= k < |stmts| && stmts[k] == s;
      assert FirstIndex(stmts, status) <= k;
    }
  }

  /**
   * One section per status present, in first-occurrence order, each listing
   * the first (at most) three statements of its non-empty group, with a
   * "more" line of `count - 3` exactly when the group has more than three.
   */
  lemma SectionsShape(stmts: seq<Statement>)
    ensures |Sections(stmts)| == |Order(stmts)|
    ensures forall k | 0 <= k < |Sections(stmts)| ::
      var sec := Sections(stmts)[k];
      && sec.status == Order(stmts)[k]
      && sec.count > 0
      && sec.listed.shown <= Group(stmts, sec.status) && |sec.listed.shown| <= 3
      && (sec.listed.more.Some? <==> sec.count > 3)
      && (sec.listed.more.Some? ==> sec.listed.more.value == sec.count - 3)
  {
    var order := Order(stmts);
    forall k | 0 <= k < |order| ensures |Group(stmts, order[k])| > 0 {
      OrderMembers(stmts, order[k]);
      GroupMembers(stmts, order[k], stmts[FirstIndex(stmts, order[k])]);
    }
  }

  // ------------------------------------------------------------ guidance

  /** The portal the product-specific guidance points to. */
  datatype Guidance = MicrosoftMsrc | RedHatPortal | UbuntuNotices | DebianTracker | ApacheReports | VendorAdvisoryPage

  const MicrosoftProducts: seq<string> := ["microsoft", "windows", "office", "azure"]
  const RedHatProducts: seq<string> := ["redhat", "rhel", "centos", "fedora"]
  const UbuntuProducts: seq<string> := ["ubuntu", "canonical"]
  const DebianProducts: seq<string> := ["debian"]
  const ApacheProducts: seq<string> := ["apache"]

  /** The vendor families in the order the guidance chain tries them. */
  const ProductFamilies: seq<seq<string>> := [MicrosoftProducts, RedHatProducts, UbuntuProducts, DebianProducts, ApacheProducts]

  function GuidanceFor(product: string): Guidance
  {
    var p := Lower(product);
    if ContainsAny(p, MicrosoftProducts) then MicrosoftMsrc
    else if ContainsAny(p, RedHatProducts) then RedHatPortal
    else if ContainsAny(p, UbuntuProducts) then UbuntuNotices
    else if ContainsAny(p, DebianProducts) then DebianTracker
    else if ContainsAny(p, ApacheProducts) then ApacheReports
    else VendorAdvisoryPage
  }

  /** `if product:` — guidance is given only for a non-empty product. */
  function ProductGuidance(product: Option<string>): Option<Guidance>
  {
    match product
    case Some(p) => if p == "" then None else Some(GuidanceFor(p))
    case None => None
  }

  function GuidanceOfMatch(m: Option<nat>): Guidance
  {
    match m
    case Some(k) =>
      if k == 0 then MicrosoftMsrc else if k == 1 then RedHatPortal
      else if k == 2 then UbuntuNotices else if k == 3 then DebianTracker else ApacheReports
    case None => VendorAdvisoryPage
  }

  /** The guidance is the first vendor family, in the fixed order, that the lower-cased product names. */
  lemma GuidanceIsFirstMatch(product: string)
    ensures GuidanceFor(product) == GuidanceOfMatch(FirstMatchingGroup(Lower(product), ProductFamilies, 0))
  {
    assert |ProductFamilies| == 5;
    assert ProductFamilies[0] == MicrosoftProducts && ProductFamilies[1] == RedHatProducts;
    assert ProductFamilies[2] == UbuntuProducts && ProductFamilies[3] == DebianProducts;
    assert ProductFamilies[4] == ApacheProducts;
  }

  /** A product naming a Microsoft family gets the MSRC whatever else it names. */
  lemma MicrosoftFirst(product: string)
    requires ContainsAny(Lower(product), MicrosoftProducts)
    ensures GuidanceFor(product) == MicrosoftMsrc
  {
  }

  /** The product's letter case does not matter. */
  lemma GuidanceIgnoresCase(product: string)
    ensures GuidanceFor(Upper(product)) == GuidanceFor(product)
  {
    LowerUpper(product);
  }

  // -------------------------------------------------------------- answer

  datatype VexAnswer =
    | VexInvalidId(cveId: string)
    | VexReport(cveId: string, statements: seq<Statement>, sections: seq<Section>, guidance: Option<Guidance>)

  /**
   * The references the vendor filter reads: only for a 200 reply (`Some`)
   * with `totalResults > 0`; a reply without vulnerabilities raises inside
   * the NVD check, which the tool records and goes on without statements.
   */
  function NvdReferences(nvd: Option<NvdResponse>): seq<Reference>
  {
    match nvd
    case None => []
    case Some(response) =>
      if GetOr(response.totalResults, 0) > 0 && response.vulnerabilities != [] then
        GetOr(response.vulnerabilities[0].references, [])
      else []
  }

  /** `get_vex_status`, with `nvd` the NVD reply when the request returned status 200. */
  function VexAnswerOf(rawId: string, product: Option<string>, nvd: Option<NvdResponse>): VexAnswer
  {
    match Validate(rawId)
    case Failure(id) => VexInvalidId(id)
    case Success(id) =>
      var statements := VendorStatements(NvdReferences(nvd));
      VexReport(id, statements, Sections(statements), ProductGuidance(product))
  }

  /** A malformed identifier is reported before, and regardless of, any lookup. */
  lemma VexInvalidIdFirst(rawId: string, product: Option<string>, nvd: Option<NvdResponse>)
    requires Validate(rawId).Failure?
    ensures VexAnswerOf(rawId, product, nvd) == VexInvalidId(Normalize(rawId))
  {
  }

  /** Without results, or without a 200 reply, the report has no vendor statement and no section. */
  lemma NoResultsNoStatements(rawId: string, product: Option<string>, nvd: Option<NvdResponse>)
    requires Validate(rawId).Success?
    requires nvd.None? || GetOr(nvd.value.totalResults, 0) <= 0
    ensures VexAnswerOf(rawId, product, nvd) == VexReport(Normalize(rawId), [], [], ProductGuidance(product))
  {
  }

  /**
   * A report's statements come from the references the filter read, no more
   * of them than there were references, and its sections account for each
   * statement once; guidance is given exactly for a non-empty product.
   */
  lemma ReportAccounts(rawId: string, product: Option<string>, nvd: Option<NvdResponse>)
    requires VexAnswerOf(rawId, product, nvd).VexReport?
    ensures var a := VexAnswerOf(rawId, product, nvd);
      && GroupSizes(a.statements, Order(a.statements)) == |a.statements|
      && |a.statements| <= |NvdReferences(nvd)|
      && (forall s | s in a.statements :: exists r | r in NvdReferences(nvd) :: StatementOf(r) == Some(s))
      && (a.guidance.Some? <==> product.Some? && product.value != "")
  {
    var a := VexAnswerOf(rawId, product, nvd);
    var refs := NvdReferences(nvd);
    GroupsPartition(a.statements);
    VendorStatementsCount(refs);
    forall s | s in a.statements ensures exists r | r in refs :: StatementOf(r) == Some(s) {
      VendorStatementsMembers(refs, s);
    }
  }
}
