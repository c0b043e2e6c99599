/**
 * The report projections the orchestrator writes: the Lighthouse report in
 * summary or full form, the accessibility results per page, the link-check
 * results (optionally restricted to the site's own origin) and the HTML
 * validation results, each either in full or as a summary.
 */
module Reports {
  import opened Wrappers
  import opened Seqs
  import opened Text
  import opened Json
  import Lighthouse
  import Linkinator
  import HtmlValidator

  /** `String(flag) === 'summary' || !includeDetails`: when a report is summarised. */
  predicate Summarised(mode: string, includeDetails: bool)
  {
    mode == "summary" || !includeDetails
  }

  /** `Boolean(gzip) && outputMode === 'full'`: only a full Lighthouse report is compressed. */
  function UseGzip(gzip: bool, outputMode: string): (r: bool)
    ensures r ==> gzip && outputMode == "full"
    ensures gzip && outputMode == "full" ==> r
  {
    gzip && outputMode == "full"
  }

  // ---------------------------------------------------------------------
  // Accessibility
  // ---------------------------------------------------------------------

  /**
   * One accessibility issue as the pipeline reads it: its code, its type
   * (`""` when it has none) and its message.
   */
  datatype Issue = Issue(code: string, kind: string, message: string)

  /** The results for one page: its URL and every issue found there. */
  datatype A11yPage = A11yPage(url: string, issues: seq<Issue>)

  /** The issue counts per recognised type. */
  datatype ByType = ByType(error: nat, warning: nat, notice: nat)

  datatype PageSummary = PageSummary(url: string, total: nat, byType: ByType)

  datatype A11yReport =
    | A11yFull(results: seq<A11yPage>)
    | A11ySummary(pages: nat, totalIssues: nat, perPage: seq<PageSummary>)

  /** The issue that stands for a page whose scan threw. */
  function FailedScanIssue(message: string): (i: Issue)
    ensures i.code == "ERROR" && i.kind == ""
  {
    Issue("ERROR", "", message)
  }

  /** Whether an issue's type, lower-cased, is `word`. */
  predicate KindIs(word: string, i: Issue)
  {
    LowerAscii(i.kind) == word
  }

  /** The counts `{error, warning, notice}` of a page: issues of any other type are not counted. */
  function ByTypeOf(issues: seq<Issue>): ByType
  {
    ByType(
      |Filter(issues, i => KindIs("error", i))|,
      |Filter(issues, i => KindIs("warning", i))|,
      |Filter(issues, i => KindIs("notice", i))|)
  }

  /** The `counts[t]++` loop over one page's issues. */
  method CountByType(issues: seq<Issue>) returns (counts: ByType)
    ensures counts == ByTypeOf(issues)
  {
    counts := ByType(0, 0, 0);
    for n := 0 to |issues|
      invariant counts == ByTypeOf(issues[..n])
    {
      var issue := issues[n];
      assert issues[..n + 1] == issues[..n] + [issue];
      FilterSnoc(issues[..n], issue, i => KindIs("error", i));
      FilterSnoc(issues[..n], issue, i => KindIs("warning", i));
      FilterSnoc(issues[..n], issue, i => KindIs("notice", i));
      var t := LowerAscii(issue.kind);
      if t == "error" {
        counts := counts.(error := counts.error + 1);
      } else if t == "warning" {
        counts := counts.(warning := counts.warning + 1);
      } else if t == "notice" {
        counts := counts.(notice := counts.notice + 1);
      }
    }
    assert issues[..|issues|] == issues;
  }

  /** A page's counts by type never add up to more than its issues. */
  lemma {:induction false} ByTypeBounded(issues: seq<Issue>)
    ensures var c := ByTypeOf(issues); c.error + c.warning + c.notice <= |issues|
  {
    var e := (i: Issue) => KindIs("error", i);
    var w := (i: Issue) => KindIs("warning", i);
    var n := (i: Issue) => KindIs("notice", i);
    var ew := (i: Issue) => KindIs("error", i) || KindIs("warning", i);
    var ewn := (i: Issue) => (KindIs("error", i) || KindIs("warning", i)) || KindIs("notice", i);
    FilterDisjoint(issues, e, w, ew);
    FilterDisjoint(issues, ew, n, ewn);
  }

  /** The issue placed for a failed scan counts towards the total but under no type. */
  lemma {:induction false} FailedScanUncounted(message: string)
    ensures ByTypeOf([FailedScanIssue(message)]) == ByType(0, 0, 0)
  {
    var i := FailedScanIssue(message);
    assert LowerAscii(i.kind) == "";
    FilterSnoc([], i, (x: Issue) => KindIs("error", x));
    FilterSnoc([], i, (x: Issue) => KindIs("warning", x));
    FilterSnoc([], i, (x: Issue) => KindIs("notice", x));
    assert [] + [i] == [i];
  }

  function PageSummaryOf(r: A11yPage): PageSummary
  {
    PageSummary(r.url, |r.issues|, ByTypeOf(r.issues))
  }

  function IssueCount(r: A11yPage): nat
  {
    |r.issues|
  }

  function PageTotal(p: PageSummary): nat
  {
    p.total
  }

  /** `a11yResults.reduce((acc, r) => acc + r.issues.length, 0)`: the figure the threshold is checked against. */
  function TotalIssues(results: seq<A11yPage>): nat
  {
    Sum(results, IssueCount)
  }

  /** The summary: page count, total issues, and URL, total and counts by type per page. */
  function A11ySummaryOf(results: seq<A11yPage>): A11yReport
  {
    var perPage := seq(|results|, i requires 0 <= i < |results| => PageSummaryOf(results[i]));
    A11ySummary(|perPage|, Sum(perPage, PageTotal), perPage)
  }

  /** `pa11y.json`: the summary, or every result in full when details are asked for in full mode. */
  function A11yReportFor(mode: string, includeDetails: bool, results: seq<A11yPage>): A11yReport
  {
    if Summarised(mode, includeDetails) then A11ySummaryOf(results) else A11yFull(results)
  }

  /**
   * The summary has one entry per page, in order, with that page's URL and
   * issue count, and its total is the figure the threshold is checked against.
   */
  lemma A11ySummaryAgrees(results: seq<A11yPage>)
    ensures var s := A11ySummaryOf(results);
      && s.pages == |results| && |s.perPage| == |results|
      && s.totalIssues == TotalIssues(results)
      && (forall i :: 0 <= i < |results| ==>
            s.perPage[i].url == results[i].url && s.perPage[i].total == |results[i].issues|
            && s.perPage[i].byType == ByTypeOf(results[i].issues))
  {
    var perPage := seq(|results|, i requires 0 <= i < |results| => PageSummaryOf(results[i]));
    SumPointwise(results, IssueCount, perPage, PageTotal);
  }

  // ---------------------------------------------------------------------
  // Links
  // ---------------------------------------------------------------------

  /** What the summary keeps of a broken link. */
  datatype BrokenLink = BrokenLink(url: string, status: Option<real>, parent: Option<string>)

  datatype LinksReport =
    | LinksFull(run: Linkinator.LinkinatorRunOutput)
    | LinksSummary(brokenCount: nat, broken: seq<BrokenLink>)

  /**
   * The links the report covers: with internal-only on and a base origin,
   * those whose URL has that origin (a URL that does not parse has none);
   * every link otherwise. `origin` stands for `new URL(u).origin`, `None`
   * when the URL does not parse.
   */
  function LinksFiltered(
    links: seq<Linkinator.LinkResult>, internalOnly: bool, baseOrigin: Option<string>,
    origin: string -> Option<string>): (r: seq<Linkinator.LinkResult>)
    ensures !internalOnly ==> r == links
    ensures forall l :: l in r <==> l in links && (internalOnly && baseOrigin.Some? && baseOrigin.value != [] ==> origin(l.url) == baseOrigin)
  {
    if internalOnly && baseOrigin.Some? && baseOrigin.value != [] then
      Filter(links, (l: Linkinator.LinkResult) => origin(l.url) == baseOrigin)
    else links
  }

  function BrokenLinkOf(l: Linkinator.LinkResult): BrokenLink
  {
    BrokenLink(l.url, l.status, l.parent)
  }

  /** `links.json`: the broken links among the covered ones, or the whole run in full. */
  function LinksReportFor(
    mode: string, includeDetails: bool, run: Linkinator.LinkinatorRunOutput,
    filtered: seq<Linkinator.LinkResult>): LinksReport
  {
    if Summarised(mode, includeDetails) then
      var broken := Filter(filtered, Linkinator.IsBroken);
      LinksSummary(|broken|, seq(|broken|, i requires 0 <= i < |broken| => BrokenLinkOf(broken[i])))
    else LinksFull(run)
  }

  /**
   * The summary counts only broken covered links, so it never reports more
   * than the run's own broken count, which the threshold uses; without
   * internal-only filtering the two agree.
   */
  lemma {:induction false} LinksSummaryBounded(
    mode: string, includeDetails: bool, run: Linkinator.LinkinatorRunOutput,
    internalOnly: bool, baseOrigin: Option<string>, origin: string -> Option<string>)
    requires run.brokenCount == Linkinator.BrokenCount(run.links)
    requires Summarised(mode, includeDetails)
    ensures var r := LinksReportFor(mode, includeDetails, run, LinksFiltered(run.links, internalOnly, baseOrigin, origin));
      && r.LinksSummary? && r.brokenCount <= run.brokenCount && |r.broken| == r.brokenCount
      && (!internalOnly ==> r.brokenCount == run.brokenCount)
      && (forall b :: b in r.broken ==> exists l :: l in run.links && Linkinator.IsBroken(l) && b == BrokenLinkOf(l))
  {
    var filtered := LinksFiltered(run.links, internalOnly, baseOrigin, origin);
    var broken := Filter(filtered, Linkinator.IsBroken);
    if internalOnly && baseOrigin.Some? && baseOrigin.value != [] {
      var internal := (l: Linkinator.LinkResult) => origin(l.url) == baseOrigin;
      var both := (l: Linkinator.LinkResult) => internal(l) && Linkinator.IsBroken(l);
      FilterFilter(run.links, internal, Linkinator.IsBroken, both);
      FilterMonotone(run.links, both, Linkinator.IsBroken);
    }
    var r := LinksReportFor(mode, includeDetails, run, filtered);
    forall b | b in r.broken
      ensures exists l :: l in run.links && Linkinator.IsBroken(l) && b == BrokenLinkOf(l)
    {
      var i :| 0 <= i < |r.broken| && r.broken[i] == b;
      assert broken[i] in broken;
    }
  }

  // ---------------------------------------------------------------------
  // HTML
  // ---------------------------------------------------------------------

  /** The validation results for one page. */
  datatype HtmlPage = HtmlPage(url: string, errorCount: nat, messages: seq<HtmlValidator.Message>)

  datatype HtmlEntry = HtmlEntry(url: string, errorCount: nat)

  datatype HtmlReport = HtmlFull(results: seq<HtmlPage>) | HtmlSummary(entries: seq<HtmlEntry>)

  /** The entry that stands for a page whose validation threw: one error, with the thrown message. */
  function FailedValidationPage(url: string, message: string): (p: HtmlPage)
    ensures p.url == url && p.errorCount == 1
    ensures p.errorCount == HtmlValidator.ErrorCount(p.messages)
  {
    var m := HtmlValidator.Message("error", message, None, None, None);
    assert [] + [m] == [m];
    FilterSnoc([], m, HtmlValidator.IsError);
    HtmlPage(url, 1, [m])
  }

  function PageErrors(r: HtmlPage): nat
  {
    r.errorCount
  }

  /** `htmlResults.reduce((acc, r) => acc + r.errorCount, 0)`. */
  function TotalHtmlErrors(results: seq<HtmlPage>): nat
  {
    Sum(results, PageErrors)
  }

  /** `html.json`: URL and error count per page, or every result in full. */
  function HtmlReportFor(mode: string, includeDetails: bool, results: seq<HtmlPage>): (r: HtmlReport)
    ensures Summarised(mode, includeDetails) ==>
      && r.HtmlSummary? && |r.entries| == |results|
      && (forall i :: 0 <= i < |results| ==>
            r.entries[i].url == results[i].url && r.entries[i].errorCount == results[i].errorCount)
    ensures !Summarised(mode, includeDetails) ==> r == HtmlFull(results)
  {
    if Summarised(mode, includeDetails) then
      HtmlSummary(seq(|results|, i requires 0 <= i < |results| => HtmlEntry(results[i].url, results[i].errorCount)))
    else HtmlFull(results)
  }

  /** Every page's errors are part of the total. */
  lemma {:induction false} PageErrorsBounded(results: seq<HtmlPage>, i: nat)
    requires i < |results|
    ensures results[i].errorCount <= TotalHtmlErrors(results)
  {
    SumBoundsEach(results, PageErrors, i);
  }

  // ---------------------------------------------------------------------
  // Lighthouse
  // ---------------------------------------------------------------------

  /** The metric audits a summary reports on. */
  const MetricIds: seq<string> := [
    "first-contentful-paint", "largest-contentful-paint", "speed-index",
    "total-blocking-time", "cumulative-layout-shift", "interactive"]

  /**
   * One metric in the summary: `score ?? null`, `numericValue ?? null` and
   * `displayValue ?? undefined` (None: left out of the JSON).
   */
  datatype Metric = Metric(score: Value, numericValue: Value, displayValue: Option<Value>)

  /**
   * The Lighthouse summary: five top-level members of the report (None when
   * undefined), the normalised categories and the metrics.
   */
  datatype LhSummary = LhSummary(
    userAgent: Option<Value>,
    fetchTime: Option<Value>,
    requestedUrl: Option<Value>,
    finalUrl: Option<Value>,
    lighthouseVersion: Option<Value>,
    categories: map<string, Lighthouse.Score>,
    metrics: map<string, Metric>)

  /** `lighthouse.json`: a report (as parsed or as text) or its summary. */
  datatype LighthouseReport = Report(raw: Lighthouse.RawReport) | Summary(summary: LhSummary)

  /**
   * One metric: `a.score ?? null`, `a.numericValue ?? null` and
   * `a.displayValue ?? undefined`.
   */
  function MetricOf(a: Value): (m: Metric)
    ensures m.score == (if a.Obj? && "score" in a.fields then a.fields["score"] else Null)
    ensures m.numericValue == (if a.Obj? && "numericValue" in a.fields then a.fields["numericValue"] else Null)
    ensures m.displayValue != Some(Null)
    ensures a.Obj? && "displayValue" in a.fields && a.fields["displayValue"] != Null ==>
      m.displayValue == Some(a.fields["displayValue"])
    ensures !(a.Obj? && "displayValue" in a.fields) ==> m.displayValue.None?
  {
    Metric(
      GetOrNull(a, "score"),
      GetOrNull(a, "numericValue"),
      match Get(a, "displayValue")
      case Some(v) => if v == Null then None else Some(v)
      case None => None)
  }

  /** The metric audits of a report whose `audits` is truthy, each present and truthy in it. */
  function Metrics(obj: Value): map<string, Metric>
  {
    var audits := GetOrNull(obj, "audits");
    if Truthy(audits) then
      map id | id in MetricIds && Truthy(GetOrNull(audits, id)) :: MetricOf(GetOrNull(audits, id))
    else map[]
  }

  /** The `for (const id of metricsIds)` loop that fills `metrics`. */
  method CollectMetrics(obj: Value) returns (metrics: map<string, Metric>)
    ensures metrics == Metrics(obj)
  {
    metrics := map[];
    var audits := GetOrNull(obj, "audits");
    if Truthy(audits) {
      for n := 0 to |MetricIds|
        invariant metrics == map id | id in MetricIds[..n] && Truthy(GetOrNull(audits, id)) :: MetricOf(GetOrNull(audits, id))
      {
        var id := MetricIds[n];
        assert MetricIds[..n + 1] == MetricIds[..n] + [id];
        var a := GetOrNull(audits, id);
        if Truthy(a) {
          metrics := metrics[id := MetricOf(a)];
        }
      }
      assert MetricIds[..|MetricIds|] == MetricIds;
    }
  }

  /** A metric is reported exactly when its audit is present and truthy, with its score or null. */
  lemma {:induction false} MetricsPresent(obj: Value, id: string)
    ensures id in Metrics(obj) <==>
      id in MetricIds && Truthy(GetOrNull(obj, "audits")) && Truthy(GetOrNull(GetOrNull(obj, "audits"), id))
    ensures id in Metrics(obj) ==>
      var a := GetOrNull(GetOrNull(obj, "audits"), id);
      && Truthy(a)
      && Metrics(obj)[id].score == (if a.Obj? && "score" in a.fields then a.fields["score"] else Null)
  {
  }

  /** The summary of a parsed report. */
  function LhSummaryOf(obj: Value, categories: map<string, Lighthouse.Score>): LhSummary
  {
    LhSummary(
      Get(obj, "userAgent"), Get(obj, "fetchTime"), Get(obj, "requestedUrl"),
      Get(obj, "finalUrl"), Get(obj, "lighthouseVersion"),
      categories, Metrics(obj))
  }

  /** The heavy top-level members a full report without details drops. */
  const HeavyMembers: set<string> := {"i18n", "timing", "stackPacks"}

  /** `'details' in a` throws on a truthy primitive (`a &&` lets falsy ones pass). */
  predicate DetailsTestThrows(a: Value)
  {
    Truthy(a) && !a.Obj? && !a.Arr?
  }

  function DropDetails(a: Value): (r: Value)
    ensures r.Obj? ==> "details" !in r.fields
    ensures a.Obj? ==> r.Obj? && r.fields.Keys == a.fields.Keys - {"details"}
  {
    if a.Obj? then Obj(a.fields - {"details"}) else a
  }

  /**
   * The audits of a full report without details: `details` deleted from every
   * audit; None where the loop throws (a truthy primitive among the values,
   * which for a string means any of its characters).
   */
  function AuditsWithoutDetails(audits: Value): Option<Value>
  {
    match audits
    case Obj(m) =>
      if exists k :: k in m && DetailsTestThrows(m[k]) then None
      else Some(Obj(map k | k in m :: DropDetails(m[k])))
    case Arr(es) =>
      if exists i :: 0 <= i < |es| && DetailsTestThrows(es[i]) then None
      else Some(Arr(seq(|es|, i requires 0 <= i < |es| => DropDetails(es[i]))))
    case Str(s) => if s == [] then Some(audits) else None
    case _ => Some(audits)
  }

  /**
   * The full report without details: audits stripped of `details`, and
   * `i18n`, `timing` and `stackPacks` deleted; None where that throws (a
   * throwing audit, or a report that is `null`).
   */
  function WithoutDetails(obj: Value): Option<Value>
  {
    if obj == Null then None
    else if !obj.Obj? then Some(obj)
    else
      var audits := GetOrNull(obj, "audits");
      if Truthy(audits) then
        match AuditsWithoutDetails(audits)
        case None => None
        case Some(a) => Some(Obj(obj.fields["audits" := a] - HeavyMembers))
      else Some(Obj(obj.fields - HeavyMembers))
  }

  /**
   * Stripping leaves no heavy top-level member and no object audit with
   * details, keeps every other member, and keeps every audit.
   */
  lemma {:induction false} WithoutDetailsStrips(obj: Value)
    requires obj.Obj? && WithoutDetails(obj).Some?
    ensures var r := WithoutDetails(obj).value;
      && r.Obj? && r.fields.Keys == obj.fields.Keys - HeavyMembers
      && (forall k :: k in r.fields && k != "audits" ==> r.fields[k] == obj.fields[k])
      && ("audits" in r.fields && r.fields["audits"].Obj? ==>
            && obj.fields["audits"].Obj?
            && r.fields["audits"].fields.Keys == obj.fields["audits"].fields.Keys
            && forall k :: k in r.fields["audits"].fields && r.fields["audits"].fields[k].Obj? ==>
                 "details" !in r.fields["audits"].fields[k].fields)
  {
    var audits := GetOrNull(obj, "audits");
    if Truthy(audits) && audits.Obj? {
      var a := AuditsWithoutDetails(audits).value;
      assert a == Obj(map k | k in audits.fields :: DropDetails(audits.fields[k]));
    }
  }

  /** Stripping a stripped report changes nothing more. */
  lemma {:induction false} WithoutDetailsIdempotent(obj: Value)
    requires WithoutDetails(obj).Some?
    ensures WithoutDetails(WithoutDetails(obj).value) == WithoutDetails(obj)
  {
    if obj.Obj? {
      var r := WithoutDetails(obj).value;
      var audits := GetOrNull(obj, "audits");
      if Truthy(audits) {
        var a := AuditsWithoutDetails(audits).value;
        assert GetOrNull(r, "audits") == a;
        match audits {
          case Obj(m) =>
            assert a.fields == map k | k in m :: DropDetails(m[k]);
            assert forall k :: k in a.fields ==> DropDetails(a.fields[k]) == a.fields[k];
            assert (map k | k in a.fields :: DropDetails(a.fields[k])) == a.fields;
          case Arr(es) =>
            assert forall i :: 0 <= i < |a.elems| ==> DropDetails(a.elems[i]) == a.elems[i];
            assert seq(|a.elems|, i requires 0 <= i < |a.elems| => DropDetails(a.elems[i])) == a.elems;
          case _ =>
        }
        assert r.fields["audits" := a] == r.fields;
      } else {
        assert r.fields == obj.fields - HeavyMembers;
      }
      assert r.fields - HeavyMembers == r.fields;
    }
  }

  /**
   * `lighthouse.json`: the summary in summary mode, the report without
   * details in full mode without details, the report as written otherwise;
   * a report that does not parse, or whose stripping throws, is kept.
   */
  function LighthouseReportFor(outputMode: string, includeDetails: bool, run: Lighthouse.LighthouseRunOutput): (r: LighthouseReport)
    ensures run.rawReport.Unparsable? ==> r == Report(run.rawReport)
    ensures outputMode != "summary" && (outputMode != "full" || includeDetails) ==> r == Report(run.rawReport)
    ensures r.Summary? ==> outputMode == "summary" && r.summary.categories == run.categories
    ensures outputMode == "summary" && run.rawReport.Parsed? ==>
      r == Summary(LhSummaryOf(run.rawReport.value, run.categories))
    ensures outputMode == "full" && !includeDetails && run.rawReport.Parsed? ==>
      r == Report(match WithoutDetails(run.rawReport.value)
                  case Some(o) => Lighthouse.Parsed(o)
                  case None => run.rawReport)
  {
    if outputMode == "summary" then
      match run.rawReport
      case Unparsable(_) => Report(run.rawReport)
      case Parsed(obj) => Summary(LhSummaryOf(obj, run.categories))
    else if outputMode == "full" && !includeDetails then
      match run.rawReport
      case Unparsable(_) => Report(run.rawReport)
      case Parsed(obj) =>
        match WithoutDetails(obj)
        case Some(o) => Report(Lighthouse.Parsed(o))
        case None => Report(run.rawReport)
    else Report(run.rawReport)
  }
}
