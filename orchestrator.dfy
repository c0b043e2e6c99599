/**
 * `runOrchestrator`: build and serve the site unless a base URL is given,
 * run Lighthouse, choose the pages to scan, collect accessibility, link and
 * HTML results, check them against the thresholds and set the exit code.
 *
 * The processes and tools it drives are the `Environment`: the build
 * command, the site's `_config.yml`, the free port, the build directory,
 * the sitemap file, Chrome and the Lighthouse engine, the accessibility
 * scanner, the link checker, the HTML validator and URL origin parsing.
 */
module Orchestrator {
  import opened Wrappers
  import opened Seqs
  import opened Text
  import opened Config
  import opened Sitemap
  import opened Lighthouse
  import opened Linkinator
  import opened HtmlValidator
  import opened Reports

  /** What running the build command does: nothing, or throw. */
  type BuildRunner = (string, seq<string>) -> Result<(), string>

  datatype Environment = Environment(
    build: BuildRunner,
    // The `baseurl` of `_config.yml` when the file parses and it is a string.
    configBaseurl: Option<string>,
    // The port `getPort` hands out when none is configured.
    freePort: nat,
    // Whether the build directory can be accessed, or the error that throws.
    siteAccess: Result<(), string>,
    sitemapExists: bool,
    // Reading the sitemap file: its text, or the error that throws.
    sitemapText: Result<string, string>,
    chrome: Result<nat, string>,
    engine: Engine,
    scan: string -> Result<seq<Issue>, string>,
    check: Checker,
    validate: string -> Result<Option<seq<Message>>, string>,
    // `new URL(u).origin`, None when `u` does not parse.
    origin: string -> Option<string>)

  // ---------------------------------------------------------------------
  // Build and serve
  // ---------------------------------------------------------------------

  /** The site is built unless building is skipped or a base URL is given. */
  predicate ShouldBuild(cli: CliOptions)
  {
    !cli.skipBuild && cli.baseUrl == []
  }

  /**
   * `const [cmd, ...args] = buildCommand.split(' ')`: the program and its
   * arguments, which joined with single spaces give the command back.
   */
  function BuildInvocation(buildCommand: string): (r: (string, seq<string>))
    ensures Join([r.0] + r.1, ' ') == buildCommand
    ensures ' ' !in r.0 && forall k :: 0 <= k < |r.1| ==> ' ' !in r.1[k]
  {
    var pieces := Split(buildCommand, ' ');
    assert pieces == [pieces[0]] + pieces[1..];
    (pieces[0], pieces[1..])
  }

  /**
   * `detectJekyllBaseUrl`: the site's `baseurl` trimmed, when it is a string
   * that is not blank.
   */
  function DetectedBaseUrl(configBaseurl: Option<string>): (r: Option<string>)
    ensures r.Some? <==> configBaseurl.Some? && Trim(configBaseurl.value) != []
    ensures r.Some? ==> r.value == Trim(configBaseurl.value) && Trimmed(r.value) && r.value != []
  {
    if configBaseurl.Some? && Trim(configBaseurl.value) != [] then Some(Trim(configBaseurl.value)) else None
  }

  /** `serveBuild`'s answer: `http://host:port`. */
  function ServedUrl(host: string, port: nat): string
  {
    "http://" + host + ":" + DecimalString(port)
  }

  /**
   * The base URL of a served site: the served URL without one trailing `/`,
   * then the site's `baseurl` with a leading `/` when it has one.
   */
  function ComposeBaseUrl(served: string, baseurl: Option<string>): (r: string)
    ensures baseurl.None? ==> r == served
    ensures baseurl.Some? ==>
      var base := StripTrailingSlash(served);
      && StartsWith(r, base)
      && r[|base|..] == EnsureLeadingSlash(baseurl.value)
      && r[|base|] == '/'
  {
    if baseurl.Some? then StripTrailingSlash(served) + EnsureLeadingSlash(baseurl.value) else served
  }

  /** A URL composed twice from a base with a leading `/` is composed the same way. */
  lemma {:induction false} ComposeBaseUrlNormalised(served: string, b: string)
    ensures ComposeBaseUrl(served, Some(EnsureLeadingSlash(b))) == ComposeBaseUrl(served, Some(b))
  {
    EnsureLeadingSlashIdempotent(b);
  }

  /**
   * The build step, then the base URL: the given one verbatim, or the served
   * site's (served whether or not serving was asked for, when no base URL
   * is given); `Err` when the build or the access to the build directory throws.
   */
  function BaseUrlFor(cli: CliOptions, config: AuditConfig, env: Environment): Result<string, string>
  {
    var (cmd, args) := BuildInvocation(config.jekyll.buildCommand);
    if ShouldBuild(cli) && env.build(cmd, args).Err? then Err(env.build(cmd, args).error)
    else if cli.baseUrl != [] then Ok(cli.baseUrl)
    else
      var port := config.server.port.GetOr(env.freePort);
      match env.siteAccess
      case Err(e) => Err(e)
      case Ok(_) => Ok(ComposeBaseUrl(ServedUrl(config.server.host, port), DetectedBaseUrl(env.configBaseurl)))
  }

  // ---------------------------------------------------------------------
  // Targets
  // ---------------------------------------------------------------------

  /** `ToIntegerOrInfinity` of a finite number: truncation towards zero. */
  function Truncate(x: real): (n: int)
    ensures x >= 0.0 ==> 0 <= n && n as real <= x < n as real + 1.0
    ensures x < 0.0 ==> n <= 0 && n as real - 1.0 < x <= n as real
  {
    if x >= 0.0 then x.Floor else -((-x).Floor)
  }

  /** Where `slice(0, end)` stops on a list of `len` elements. */
  function SliceEnd(len: nat, end: real): (n: nat)
    ensures n <= len
    ensures end >= 0.0 ==> n as real <= end
    ensures end >= 0.0 && len as real <= end ==> n == len
    ensures 0.0 <= end < len as real ==> end < (n + 1) as real
    ensures -1.0 < end < 0.0 ==> n == 0
    ensures end <= -1.0 ==> len - n == if len < -Truncate(end) then len else -Truncate(end)
  {
    var rel := Truncate(end);
    if rel < 0 then (if len + rel < 0 then 0 else len + rel)
    else if rel < len then rel else len
  }

  /** `list.slice(0, maxPages)`: a prefix of the list. */
  function Take(list: seq<string>, maxPages: real): (r: seq<string>)
    ensures |r| <= |list| && r == list[..|r|]
    ensures maxPages >= 0.0 ==> |r| as real <= maxPages
    ensures maxPages >= 0.0 && |list| as real <= maxPages ==> r == list
    ensures 0.0 <= maxPages < |list| as real ==> maxPages < (|r| + 1) as real
  {
    list[..SliceEnd(|list|, maxPages)]
  }

  /** The page cap: the command line's number, the configured one otherwise. */
  function MaxPages(cli: CliOptions, config: AuditConfig): (m: real)
    ensures cli.maxPages.Some? ==> m == cli.maxPages.value
    ensures cli.maxPages.None? ==> m == config.crawl.maxPages
  {
    cli.maxPages.GetOr(config.crawl.maxPages)
  }

  /** `Boolean`: an entry of the path list that is kept. */
  predicate NonEmpty(s: string)
  {
    s != []
  }

  /**
   * The `--paths` override: when the option is a string that is not blank,
   * its entries. An override whose entries are all blank (`","`) is still an
   * override, with no paths.
   */
  function PathsOverride(paths: Option<string>): (r: Option<seq<string>>)
    ensures r.Some? <==> paths.Some? && Trim(paths.value) != []
    ensures r.Some? ==> r.value == Entries(paths.value)
  {
    if paths.Some? && Trim(paths.value) != [] then Some(Entries(paths.value)) else None
  }

  /**
   * `split(',').map((p) => p.trim()).filter(Boolean)`: the comma-separated
   * entries, trimmed, blanks dropped. What it yields is pinned down by
   * `EntriesSingle` and `EntriesCons`.
   */
  function Entries(paths: string): (r: seq<string>)
    ensures forall k :: 0 <= k < |r| ==> r[k] != [] && Trimmed(r[k])
  {
    var t := TrimEach(Split(paths, ','));
    var r := Filter(t, NonEmpty);
    assert forall k :: 0 <= k < |r| ==> r[k] != [] && Trimmed(r[k]) by {
      forall k | 0 <= k < |r|
        ensures r[k] != [] && Trimmed(r[k])
      {
        assert r[k] in r;
        var i :| 0 <= i < |t| && t[i] == r[k];
      }
    }
    r
  }

  /** `.map((p) => p.trim())`: each piece trimmed, in place. */
  function TrimEach(pieces: seq<string>): (r: seq<string>)
    ensures |r| == |pieces|
    ensures forall i :: 0 <= i < |pieces| ==> r[i] == Trim(pieces[i])
  {
    seq(|pieces|, i requires 0 <= i < |pieces| => Trim(pieces[i]))
  }

  /** Text without a comma is one entry: itself trimmed, or none when blank. */
  lemma {:induction false} EntriesSingle(a: string)
    requires ',' !in a
    ensures Entries(a) == if Trim(a) != [] then [Trim(a)] else []
  {
    SplitNoSeparator(a, ',');
    assert TrimEach([a]) == [Trim(a)];
    assert Filter([Trim(a)], NonEmpty) == Filter([], NonEmpty) + (if NonEmpty(Trim(a)) then [Trim(a)] else []);
  }

  /**
   * The entries keep their order: those before the first comma come first,
   * then the entries of the rest.
   */
  lemma {:induction false} EntriesCons(a: string, b: string)
    requires ',' !in a
    ensures Entries(a + [','] + b) == Entries(a) + Entries(b)
  {
    var head := Trim(a);
    var rest := TrimEach(Split(b, ','));
    assert Entries(a) == Filter([head], NonEmpty) by {
      SplitNoSeparator(a, ',');
    }
    assert Entries(a + [','] + b) == Filter([head] + rest, NonEmpty) by {
      SplitCons(a, b, ',');
      TrimEachCons(a, Split(b, ','));
    }
    FilterAppend([head], rest, NonEmpty);
  }

  /** Trimming each piece of a longer list trims its head, then the rest. */
  lemma {:induction false} TrimEachCons(a: string, rest: seq<string>)
    ensures TrimEach([a] + rest) == [Trim(a)] + TrimEach(rest)
  {
  }

  /** Where the pages come from. */
  datatype TargetSource = FromOverride | FromSitemap | FromConfig

  /** The source the pages are taken from, by precedence. */
  function TargetSourceFor(cli: CliOptions, config: AuditConfig, sitemapExists: bool): TargetSource
  {
    if PathsOverride(cli.paths).Some? then FromOverride
    else if sitemapExists && !cli.noSitemap && config.crawl.useSitemap then FromSitemap
    else FromConfig
  }

  /**
   * The pages to scan: the override's URLs, the sitemap's locations, or the
   * configured paths' URLs, capped by the page limit; `Err` when reading the
   * sitemap throws.
   */
  function TargetsFor(cli: CliOptions, config: AuditConfig, baseUrl: string, sitemapExists: bool, sitemapText: Result<string, string>): Result<seq<string>, string>
  {
    var maxPages := MaxPages(cli, config);
    match TargetSourceFor(cli, config, sitemapExists)
    case FromOverride => Ok(Take(UrlsFromPaths(baseUrl, PathsOverride(cli.paths).value), maxPages))
    case FromSitemap =>
      (match sitemapText
       case Err(e) => Err(e)
       case Ok(xml) => Ok(Take(SitemapLocs(xml), maxPages)))
    case FromConfig => Ok(Take(UrlsFromPaths(baseUrl, config.crawl.paths), maxPages))
  }

  /** The list the pages are a prefix of, for a source. */
  function ChosenList(source: TargetSource, cli: CliOptions, config: AuditConfig, baseUrl: string, xml: string): seq<string>
    requires source == FromOverride ==> PathsOverride(cli.paths).Some?
  {
    match source
    case FromOverride => UrlsFromPaths(baseUrl, PathsOverride(cli.paths).value)
    case FromSitemap => SitemapLocs(xml)
    case FromConfig => UrlsFromPaths(baseUrl, config.crawl.paths)
  }

  /**
   * Precedence: an override wins over everything; the sitemap is used only
   * when it exists, is not disabled on the command line and is enabled in
   * the configuration; the configured paths otherwise. Whatever the source,
   * the pages are a prefix of its list, no longer than the page limit.
   */
  lemma {:induction false} TargetsPrecedence(cli: CliOptions, config: AuditConfig, baseUrl: string, sitemapExists: bool, xml: string)
    ensures var source := TargetSourceFor(cli, config, sitemapExists);
      && (source == FromOverride <==> PathsOverride(cli.paths).Some?)
      && (source == FromSitemap <==> PathsOverride(cli.paths).None? && sitemapExists && !cli.noSitemap && config.crawl.useSitemap)
    ensures var source := TargetSourceFor(cli, config, sitemapExists);
      var targets := TargetsFor(cli, config, baseUrl, sitemapExists, Ok(xml)).value;
      var list := ChosenList(source, cli, config, baseUrl, xml);
      && targets == list[..|targets|]
      && (MaxPages(cli, config) >= 0.0 ==> |targets| as real <= MaxPages(cli, config))
  {
  }

  /** An override with only blank entries yields no pages at all. */
  lemma {:induction false} BlankOverrideScansNothing(cli: CliOptions, config: AuditConfig, baseUrl: string, sitemapExists: bool, sitemapText: Result<string, string>)
    requires cli.paths == Some(",")
    ensures TargetsFor(cli, config, baseUrl, sitemapExists, sitemapText) == Ok([])
  {
    var pieces := Split(",", ',');
    assert IndexOf(",", ',') == 0;
    assert IndexOf("", ',') == 0;
    assert pieces == ["", ""];
    assert Trim(",") == ",";
    var trimmed := TrimEach(pieces);
    assert trimmed == ["", ""];
    assert Filter(trimmed, NonEmpty) == [];
  }

  /** Reading the sitemap file and scanning it for locations; `Err` when reading throws. */
  method CollectTargets(cli: CliOptions, config: AuditConfig, baseUrl: string, sitemapExists: bool, sitemapText: Result<string, string>)
    returns (r: Result<seq<string>, string>)
    ensures r == TargetsFor(cli, config, baseUrl, sitemapExists, sitemapText)
  {
    var maxPages := MaxPages(cli, config);
    var pathsOverride := PathsOverride(cli.paths);
    var useSitemap := !cli.noSitemap && config.crawl.useSitemap && pathsOverride.None?;
    if pathsOverride.Some? {
      r := Ok(Take(UrlsFromPaths(baseUrl, pathsOverride.value), maxPages));
    } else if DiscoverSitemap(sitemapExists, baseUrl).Some? && useSitemap {
      if sitemapText.Err? {
        return Err(sitemapText.error);
      }
      var urls := ParseSitemapLocs(sitemapText.value);
      r := Ok(Take(urls, maxPages));
    } else {
      r := Ok(Take(UrlsFromPaths(baseUrl, config.crawl.paths), maxPages));
    }
  }

  // ---------------------------------------------------------------------
  // Per-page results
  // ---------------------------------------------------------------------

  /** The accessibility entry for one page: its issues, or one `ERROR` issue with the thrown message. */
  function A11yPageFor(url: string, answer: Result<seq<Issue>, string>): (p: A11yPage)
    ensures p.url == url
    ensures answer.Ok? ==> p.issues == answer.value
    ensures answer.Err? ==> p.issues == [FailedScanIssue(answer.error)]
  {
    match answer
    case Ok(issues) => A11yPage(url, issues)
    case Err(e) => A11yPage(url, [FailedScanIssue(e)])
  }

  function A11yResults(targets: seq<string>, scan: string -> Result<seq<Issue>, string>): seq<A11yPage>
  {
    seq(|targets|, i requires 0 <= i < |targets| => A11yPageFor(targets[i], scan(targets[i])))
  }

  /** The scan loop: one entry per page, in order, whether or not the scan throws. */
  method CollectA11y(targets: seq<string>, scan: string -> Result<seq<Issue>, string>) returns (results: seq<A11yPage>)
    ensures results == A11yResults(targets, scan)
    ensures |results| == |targets|
    ensures forall i :: 0 <= i < |targets| ==> results[i].url == targets[i]
  {
    results := [];
    for n := 0 to |targets|
      invariant results == A11yResults(targets[..n], scan)
    {
      var url := targets[n];
      var res := scan(url);
      if res.Ok? {
        results := results + [A11yPage(url, res.value)];
      } else {
        results := results + [A11yPage(url, [FailedScanIssue(res.error)])];
      }
    }
    assert targets[..|targets|] == targets;
  }

  /** A page whose scan throws adds exactly one issue to the total. */
  lemma {:induction false} FailedScanCountsOnce(targets: seq<string>, scan: string -> Result<seq<Issue>, string>, i: nat)
    requires i < |targets| && scan(targets[i]).Err?
    ensures |A11yResults(targets, scan)[i].issues| == 1
    ensures ByTypeOf(A11yResults(targets, scan)[i].issues) == ByType(0, 0, 0)
  {
    FailedScanUncounted(scan(targets[i]).error);
  }

  /** The validation entry for one page: its result, or one error with the thrown message. */
  function HtmlPageFor(url: string, answer: Result<Option<seq<Message>>, string>): (p: HtmlPage)
    ensures p.url == url
    ensures p.errorCount == ErrorCount(p.messages)
    ensures answer.Ok? ==> p.messages == answer.value.GetOr([])
    ensures answer.Err? ==> p.errorCount == 1
  {
    match ValidateHtmlUrl(url, answer)
    case Ok(v) => HtmlPage(url, v.errorCount, v.messages)
    case Err(e) => FailedValidationPage(url, e)
  }

  function HtmlResults(targets: seq<string>, validate: string -> Result<Option<seq<Message>>, string>): seq<HtmlPage>
  {
    seq(|targets|, i requires 0 <= i < |targets| => HtmlPageFor(targets[i], validate(targets[i])))
  }

  /** The validation loop: one entry per page, in order, whether or not validation throws. */
  method CollectHtml(targets: seq<string>, validate: string -> Result<Option<seq<Message>>, string>) returns (results: seq<HtmlPage>)
    ensures results == HtmlResults(targets, validate)
    ensures |results| == |targets|
    ensures forall i :: 0 <= i < |targets| ==>
      results[i].url == targets[i] && results[i].errorCount == ErrorCount(results[i].messages)
  {
    results := [];
    for n := 0 to |targets|
      invariant results == HtmlResults(targets[..n], validate)
    {
      var url := targets[n];
      var res := ValidateHtmlUrl(url, validate(url));
      if res.Ok? {
        results := results + [HtmlPage(url, res.value.errorCount, res.value.messages)];
      } else {
        results := results + [FailedValidationPage(url, res.error)];
      }
    }
    assert targets[..|targets|] == targets;
  }

  // ---------------------------------------------------------------------
  // Thresholds
  // ---------------------------------------------------------------------

  /** A category in the summary: its score and the configured minimum, if any. */
  datatype CategoryCheck = CategoryCheck(score: Score, threshold: Option<real>)

  /** A category fails only with a numeric score below a numeric minimum. */
  predicate CategoryFails(c: CategoryCheck)
  {
    c.score.Some? && c.threshold.Some? && c.score.value < c.threshold.value
  }

  function CategoryChecks(categories: map<string, Score>, t: LighthouseThresholds): (checks: map<string, CategoryCheck>)
    ensures checks.Keys == categories.Keys
  {
    map k | k in categories :: CategoryCheck(categories[k], ThresholdFor(t, k))
  }

  predicate AnyCategoryFails(checks: map<string, CategoryCheck>)
  {
    exists k :: k in checks && CategoryFails(checks[k])
  }

  /** The loop over the categories that fills the summary and flags a failing one. */
  method CheckCategories(categories: map<string, Score>, t: LighthouseThresholds)
    returns (checks: map<string, CategoryCheck>, failed: bool)
    ensures checks == CategoryChecks(categories, t)
    ensures failed <==> AnyCategoryFails(checks)
  {
    checks := map[];
    failed := false;
    var todo := categories.Keys;
    while todo != {}
      invariant todo <= categories.Keys
      invariant checks.Keys == categories.Keys - todo
      invariant forall k :: k in checks ==> checks[k] == CategoryCheck(categories[k], ThresholdFor(t, k))
      invariant failed <==> exists k :: k in checks && CategoryFails(checks[k])
      decreases |todo|
    {
      var key :| key in todo;
      var threshold := ThresholdFor(t, key);
      var score := categories[key];
      checks := checks[key := CategoryCheck(score, threshold)];
      if threshold.Some? && score.Some? && score.value < threshold.value {
        failed := true;
      }
      todo := todo - {key};
    }
    assert checks == CategoryChecks(categories, t);
  }

  /** A missing score never fails a category, whatever the minimum. */
  lemma {:induction false} NullScoreNeverFails(categories: map<string, Score>, t: LighthouseThresholds)
    requires forall k :: k in categories ==> categories[k].None?
    ensures !AnyCategoryFails(CategoryChecks(categories, t))
  {
  }

  /** A category the thresholds do not know never fails. */
  lemma {:induction false} UnknownCategoryNeverFails(categories: map<string, Score>, t: LighthouseThresholds)
    requires forall k :: k in categories ==> k !in ThresholdKeys
    ensures !AnyCategoryFails(CategoryChecks(categories, t))
  {
  }

  // ---------------------------------------------------------------------
  // The run
  // ---------------------------------------------------------------------

  /** `summary.json`, without its timestamp. */
  datatype RunSummary = RunSummary(
    baseUrl: string,
    lighthouse: map<string, CategoryCheck>,
    totalIssues: nat, maxIssues: real,
    broken: nat, maxBroken: real,
    totalErrors: nat, maxErrors: real,
    passed: bool)

  /** Whether any threshold fails: too many issues, broken links or HTML errors, or a failing category. */
  predicate ThresholdsFail(s: RunSummary)
  {
    || s.totalIssues as real > s.maxIssues
    || s.broken as real > s.maxBroken
    || s.totalErrors as real > s.maxErrors
    || AnyCategoryFails(s.lighthouse)
  }

  /** What a run produces: the reports it writes and what it decided on the way. */
  datatype Outcome = Outcome(
    built: bool,
    baseUrl: string,
    lighthouse: LighthouseReport,
    gzip: bool,
    targets: seq<string>,
    a11y: A11yReport,
    links: LinksReport,
    html: HtmlReport,
    summary: RunSummary)

  /** The options the link checker is called with: recursive, with the command line's timeout and concurrency or the defaults. */
  function LinkOptionsFor(cli: CliOptions): (o: LinkinatorOptions)
    ensures o.recurse == Some(true) && o.linksToSkip.None?
    ensures o.timeout == Some(cli.linksTimeout.GetOr(30000.0))
    ensures o.concurrency == Some(cli.linksConcurrency.GetOr(100.0))
  {
    LinkinatorOptions(Some(true), Some(cli.linksTimeout.GetOr(30000.0)), Some(cli.linksConcurrency.GetOr(100.0)), None)
  }

  /**
   * Everything after the link check: the per-page results, the reports and
   * the summary, from the base URL, the Lighthouse run, the pages and the
   * link-check run.
   */
  function Assemble(
    cli: CliOptions, config: AuditConfig, env: Environment,
    baseUrl: string, lh: LighthouseRunOutput, targets: seq<string>, run: LinkinatorRunOutput): Outcome
  {
    var t := config.thresholds;
    var a11y := A11yResults(targets, env.scan);
    var html := HtmlResults(targets, env.validate);
    var summary := RunSummary(
      baseUrl, CategoryChecks(lh.categories, t.lighthouse),
      TotalIssues(a11y), t.maxIssues, run.brokenCount, t.maxBroken, TotalHtmlErrors(html), t.maxErrors, false);
    Outcome(
      ShouldBuild(cli),
      baseUrl,
      LighthouseReportFor(Mode(cli.output), cli.includeDetails, lh),
      UseGzip(cli.gzip, Mode(cli.output)),
      targets,
      A11yReportFor(Mode(cli.a11yOutput), cli.a11yIncludeDetails, a11y),
      LinksReportFor(Mode(cli.linksOutput), cli.linksIncludeDetails, run,
        LinksFiltered(run.links, cli.linksInternalOnly, env.origin(baseUrl), env.origin)),
      HtmlReportFor(Mode(cli.htmlOutput), cli.htmlIncludeDetails, html),
      summary.(passed := !ThresholdsFail(summary)))
  }

  /**
   * The run once the base URL is known: Lighthouse, the pages, the link
   * check, then the rest; `Err` when one of the first three throws.
   */
  function AuditFrom(cli: CliOptions, config: AuditConfig, env: Environment, baseUrl: string): Result<Outcome, string>
  {
    match LighthouseAudit(baseUrl, Some(ThresholdKeys), cli.includeScreenshots, Mode(cli.output) == "summary", env.chrome, env.engine)
    case Err(e) => Err(e)
    case Ok(lh) =>
      match TargetsFor(cli, config, baseUrl, env.sitemapExists, env.sitemapText)
      case Err(e) => Err(e)
      case Ok(targets) =>
        match RunLinkCheck(baseUrl, Some(LinkOptionsFor(cli)), env.check)
        case Err(e) => Err(e)
        case Ok(run) => Ok(Assemble(cli, config, env, baseUrl, lh, targets, run))
  }

  /** The whole run: its outcome, or the error that ends it. */
  function Orchestrate(cli: CliOptions, config: AuditConfig, env: Environment): Result<Outcome, string>
  {
    match BaseUrlFor(cli, config, env)
    case Err(e) => Err(e)
    case Ok(baseUrl) => AuditFrom(cli, config, env, baseUrl)
  }

  /** The process the run reports to: its exit code, unset until a run fails. */
  class Process {
    var exitCode: Option<int>

    constructor()
      ensures exitCode == None
    {
      exitCode := None;
    }
  }

  /**
   * The second half of the run: the scans and validations page by page, the
   * reports, and the `anyFailures` flag raised by each threshold in turn.
   */
  method Conclude(
    cli: CliOptions, config: AuditConfig, env: Environment,
    baseUrl: string, lh: LighthouseRunOutput, targets: seq<string>, run: LinkinatorRunOutput)
    returns (outcome: Outcome, anyFailures: bool)
    ensures outcome == Assemble(cli, config, env, baseUrl, lh, targets, run)
    ensures anyFailures <==> !outcome.summary.passed
  {
    var t := config.thresholds;
    var a11yResults := CollectA11y(targets, env.scan);
    var a11yOut := A11yReportFor(Mode(cli.a11yOutput), cli.a11yIncludeDetails, a11yResults);
    var totalIssues := TotalIssues(a11yResults);
    anyFailures := false;
    if totalIssues as real > t.maxIssues {
      anyFailures := true;
    }

    var filtered := LinksFiltered(run.links, cli.linksInternalOnly, env.origin(baseUrl), env.origin);
    var linksOut := LinksReportFor(Mode(cli.linksOutput), cli.linksIncludeDetails, run, filtered);
    if run.brokenCount as real > t.maxBroken {
      anyFailures := true;
    }

    var htmlResults := CollectHtml(targets, env.validate);
    var htmlOut := HtmlReportFor(Mode(cli.htmlOutput), cli.htmlIncludeDetails, htmlResults);
    var totalHtmlErrors := TotalHtmlErrors(htmlResults);
    if totalHtmlErrors as real > t.maxErrors {
      anyFailures := true;
    }

    var checks, categoryFailed := CheckCategories(lh.categories, t.lighthouse);
    if categoryFailed {
      anyFailures := true;
    }

    var summary := RunSummary(
      baseUrl, checks, totalIssues, t.maxIssues, run.brokenCount, t.maxBroken,
      totalHtmlErrors, t.maxErrors, !anyFailures);
    outcome := Outcome(
      ShouldBuild(cli), baseUrl,
      LighthouseReportFor(Mode(cli.output), cli.includeDetails, lh), UseGzip(cli.gzip, Mode(cli.output)),
      targets, a11yOut, linksOut, htmlOut, summary);
  }

  /**
   * `runOrchestrator`: the run's outcome, and the exit code set to 1 when a
   * threshold fails and failures are not soft; otherwise the exit code is
   * left alone.
   */
  method RunOrchestrator(cli: CliOptions, config: AuditConfig, env: Environment, process: Process)
    returns (r: Result<Outcome, string>)
    modifies process
    ensures r == Orchestrate(cli, config, env)
    ensures process.exitCode ==
      if r.Ok? && !r.value.summary.passed && !cli.softFail then Some(1) else old(process.exitCode)
  {
    if ShouldBuild(cli) {
      var (cmd, args) := BuildInvocation(config.jekyll.buildCommand);
      var built := env.build(cmd, args);
      if built.Err? {
        return Err(built.error);
      }
    }

    var baseUrl: string;
    if cli.baseUrl != [] {
      baseUrl := cli.baseUrl;
    } else {
      var baseurl := DetectedBaseUrl(env.configBaseurl);
      var port := config.server.port.GetOr(env.freePort);
      if env.siteAccess.Err? {
        return Err(env.siteAccess.error);
      }
      var served := ServedUrl(config.server.host, port);
      baseUrl := ComposeBaseUrl(served, baseurl);
    }
    assert BaseUrlFor(cli, config, env) == Ok(baseUrl);

    var anyFailures;
    r, anyFailures := RunAudits(cli, config, env, baseUrl);
    if anyFailures && !cli.softFail {
      process.exitCode := Some(1);
    }
  }

  /** The stages after the base URL is known, and whether a threshold failed. */
  method RunAudits(cli: CliOptions, config: AuditConfig, env: Environment, baseUrl: string)
    returns (r: Result<Outcome, string>, anyFailures: bool)
    ensures r == AuditFrom(cli, config, env, baseUrl)
    ensures anyFailures <==> r.Ok? && !r.value.summary.passed
  {
    var lh := RunLighthouseAudit(baseUrl, Some(ThresholdKeys), cli.includeScreenshots, Mode(cli.output) == "summary", env.chrome, env.engine);
    if lh.Err? {
      return Err(lh.error), false;
    }

    var targets := CollectTargets(cli, config, baseUrl, env.sitemapExists, env.sitemapText);
    if targets.Err? {
      return Err(targets.error), false;
    }

    var linkRes := RunLinkCheck(baseUrl, Some(LinkOptionsFor(cli)), env.check);
    if linkRes.Err? {
      return Err(linkRes.error), false;
    }

    var outcome;
    outcome, anyFailures := Conclude(cli, config, env, baseUrl, lh.value, targets.value, linkRes.value);
    r := Ok(outcome);
  }

  // ---------------------------------------------------------------------
  // Properties of a run
  // ---------------------------------------------------------------------

  /**
   * A run passes exactly when no threshold fails: not too many issues,
   * broken links or HTML errors, and no category with a numeric score
   * below its minimum.
   */
  lemma {:induction false} PassedIffNoFailure(
    cli: CliOptions, config: AuditConfig, env: Environment,
    baseUrl: string, lh: LighthouseRunOutput, targets: seq<string>, run: LinkinatorRunOutput)
    ensures var s := Assemble(cli, config, env, baseUrl, lh, targets, run).summary;
      var failed :=
        || s.totalIssues as real > config.thresholds.maxIssues
        || s.broken as real > config.thresholds.maxBroken
        || s.totalErrors as real > config.thresholds.maxErrors
        || (exists k :: k in s.lighthouse && CategoryFails(s.lighthouse[k]));
      s.passed <==> !failed
  {
  }

  /**
   * With a base URL given, nothing is built or served: the build command,
   * the build directory, the port and the site's `baseurl` play no part,
   * and the base URL is used as given.
   */
  lemma {:induction false} GivenBaseUrlUsedVerbatim(
    cli: CliOptions, config: AuditConfig, env: Environment,
    build: BuildRunner, configBaseurl: Option<string>, freePort: nat, siteAccess: Result<(), string>)
    requires cli.baseUrl != []
    ensures BaseUrlFor(cli, config, env) == Ok(cli.baseUrl)
    ensures !ShouldBuild(cli)
    ensures Orchestrate(cli, config, env) ==
      Orchestrate(cli, config, env.(build := build, configBaseurl := configBaseurl, freePort := freePort, siteAccess := siteAccess))
  {
    var env' := env.(build := build, configBaseurl := configBaseurl, freePort := freePort, siteAccess := siteAccess);
    assert BaseUrlFor(cli, config, env') == Ok(cli.baseUrl);
    forall lh, targets, run
      ensures Assemble(cli, config, env', cli.baseUrl, lh, targets, run) == Assemble(cli, config, env, cli.baseUrl, lh, targets, run)
    {
      assert env'.scan == env.scan && env'.validate == env.validate && env'.origin == env.origin;
    }
  }

  /**
   * Without a base URL the built site is served whether or not serving was
   * skipped, and its base URL is the served URL joined with the site's
   * `baseurl`.
   */
  lemma {:induction false} ServedBaseUrl(cli: CliOptions, config: AuditConfig, env: Environment, skipServe: bool)
    requires cli.baseUrl == []
    requires BaseUrlFor(cli, config, env).Ok?
    ensures BaseUrlFor(cli, config, env).value ==
      ComposeBaseUrl(ServedUrl(config.server.host, config.server.port.GetOr(env.freePort)), DetectedBaseUrl(env.configBaseurl))
    ensures Orchestrate(cli.(skipServe := skipServe), config, env) == Orchestrate(cli, config, env)
  {
    SameRunSameOutcome(cli, cli.(skipServe := skipServe), config, env);
  }

  /** Soft failing only decides the exit code: the outcome, `passed` included, does not depend on it. */
  lemma {:induction false} SoftFailOnlyAffectsExit(cli: CliOptions, config: AuditConfig, env: Environment, softFail: bool)
    ensures Orchestrate(cli.(softFail := softFail), config, env) == Orchestrate(cli, config, env)
  {
    SameRunSameOutcome(cli, cli.(softFail := softFail), config, env);
  }

  /** Options that differ at most in `skipServe` and `softFail`. */
  predicate SameRun(a: CliOptions, b: CliOptions)
  {
    a.(skipServe := b.skipServe, softFail := b.softFail) == b
  }

  /** Neither `skipServe` nor `softFail` changes a run's outcome. */
  lemma {:induction false} SameRunSameOutcome(a: CliOptions, b: CliOptions, config: AuditConfig, env: Environment)
    requires SameRun(a, b)
    ensures Orchestrate(a, config, env) == Orchestrate(b, config, env)
  {
    assert BaseUrlFor(a, config, env) == BaseUrlFor(b, config, env) by {
      assert ShouldBuild(a) == ShouldBuild(b) && a.baseUrl == b.baseUrl;
    }
    if BaseUrlFor(a, config, env).Ok? {
      SameRunSameAudit(a, b, config, env, BaseUrlFor(a, config, env).value);
    }
  }

  lemma {:induction false} SameRunSameAudit(a: CliOptions, b: CliOptions, config: AuditConfig, env: Environment, baseUrl: string)
    requires SameRun(a, b)
    ensures AuditFrom(a, config, env, baseUrl) == AuditFrom(b, config, env, baseUrl)
  {
    assert a.includeScreenshots == b.includeScreenshots && Mode(a.output) == Mode(b.output);
    SameRunSameTargets(a, b, config, env, baseUrl);
    assert LinkOptionsFor(a) == LinkOptionsFor(b);
    forall lh, targets, run
      ensures Assemble(a, config, env, baseUrl, lh, targets, run) == Assemble(b, config, env, baseUrl, lh, targets, run)
    {
      SameRunSameAssemble(a, b, config, env, baseUrl, lh, targets, run);
    }
  }

  lemma {:induction false} SameRunSameTargets(a: CliOptions, b: CliOptions, config: AuditConfig, env: Environment, baseUrl: string)
    requires SameRun(a, b)
    ensures TargetsFor(a, config, baseUrl, env.sitemapExists, env.sitemapText) == TargetsFor(b, config, baseUrl, env.sitemapExists, env.sitemapText)
  {
    assert a.paths == b.paths && a.maxPages == b.maxPages && a.noSitemap == b.noSitemap;
  }

  lemma {:induction false} SameRunSameAssemble(
    a: CliOptions, b: CliOptions, config: AuditConfig, env: Environment,
    baseUrl: string, lh: LighthouseRunOutput, targets: seq<string>, run: LinkinatorRunOutput)
    requires SameRun(a, b)
    ensures Assemble(a, config, env, baseUrl, lh, targets, run) == Assemble(b, config, env, baseUrl, lh, targets, run)
  {
  }

  /**
   * The summary's broken count is the run's own, unfiltered count: the
   * links report never counts more, and counts the same without
   * internal-only filtering.
   */
  lemma {:induction false} LinkGateUsesUnfilteredCount(
    cli: CliOptions, config: AuditConfig, env: Environment,
    baseUrl: string, lh: LighthouseRunOutput, targets: seq<string>, run: LinkinatorRunOutput)
    requires run.brokenCount == BrokenCount(run.links)
    requires Summarised(Mode(cli.linksOutput), cli.linksIncludeDetails)
    ensures var o := Assemble(cli, config, env, baseUrl, lh, targets, run);
      && o.links.LinksSummary?
      && o.summary.broken == run.brokenCount
      && o.links.brokenCount <= o.summary.broken
      && (!cli.linksInternalOnly ==> o.links.brokenCount == o.summary.broken)
  {
    LinksSummaryBounded(Mode(cli.linksOutput), cli.linksIncludeDetails, run,
      cli.linksInternalOnly, env.origin(baseUrl), env.origin);
  }

  /**
   * Each page scanned contributes one entry to the accessibility and HTML
   * results, in order, and the accessibility summary's total is the figure
   * the threshold is checked against.
   */
  lemma {:induction false} OneEntryPerTarget(
    cli: CliOptions, config: AuditConfig, env: Environment,
    baseUrl: string, lh: LighthouseRunOutput, targets: seq<string>, run: LinkinatorRunOutput)
    ensures var o := Assemble(cli, config, env, baseUrl, lh, targets, run);
      && (o.a11y.A11ySummary? ==>
            o.a11y.pages == |targets| && o.a11y.totalIssues == o.summary.totalIssues
            && forall i :: 0 <= i < |targets| ==> o.a11y.perPage[i].url == targets[i])
      && (o.a11y.A11yFull? ==>
            |o.a11y.results| == |targets| && forall i :: 0 <= i < |targets| ==> o.a11y.results[i].url == targets[i])
      && (o.html.HtmlSummary? ==>
            |o.html.entries| == |targets| && forall i :: 0 <= i < |targets| ==> o.html.entries[i].url == targets[i])
      && (o.html.HtmlFull? ==>
            |o.html.results| == |targets| && forall i :: 0 <= i < |targets| ==> o.html.results[i].url == targets[i])
  {
    A11ySummaryAgrees(A11yResults(targets, env.scan));
  }
}
