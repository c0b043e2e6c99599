/**
 * The audit configuration, as the configuration schema fills it in, and the
 * command-line options the orchestrator reads. JavaScript numbers are `real`
 * (finite: NaN and an infinite page limit are not modelled, see the
 * `Orchestrator.Truncate` line in the README); a flag is the truthiness of
 * the option it stands for; a string option that is absent or empty is `""`.
 */
module Config {
  import opened Wrappers

  datatype JekyllConfig = JekyllConfig(buildDir: string, sourceDir: string, buildCommand: string)

  /** `port` is optional: without it a free port is picked when the site is served. */
  datatype ServerConfig = ServerConfig(port: Option<nat>, host: string)

  datatype CrawlConfig = CrawlConfig(useSitemap: bool, maxPages: real, paths: seq<string>)

  /** Minimum scores per Lighthouse category; the schema knows exactly these three. */
  datatype LighthouseThresholds = LighthouseThresholds(performance: real, seo: real, bestPractices: real)

  datatype Thresholds = Thresholds(
    lighthouse: LighthouseThresholds,
    maxIssues: real,
    maxBroken: real,
    maxErrors: real)

  datatype ReportFormat = Json | Html | Md

  datatype ReportsConfig = ReportsConfig(formats: seq<ReportFormat>, outDir: string)

  datatype AuditConfig = AuditConfig(
    jekyll: JekyllConfig,
    server: ServerConfig,
    crawl: CrawlConfig,
    thresholds: Thresholds,
    reports: ReportsConfig)

  /** What the schema produces from an empty configuration: every default. */
  const Defaults := AuditConfig(
    JekyllConfig("_site", ".", "bundle exec jekyll build"),
    ServerConfig(None, "127.0.0.1"),
    CrawlConfig(true, 50.0, ["/"]),
    Thresholds(LighthouseThresholds(0.8, 0.9, 0.9), 0.0, 0.0, 0.0),
    ReportsConfig([Json], "reports"))

  /** The schema bounds every Lighthouse threshold to [0, 1]. */
  predicate ValidThresholds(t: LighthouseThresholds)
  {
    && 0.0 <= t.performance <= 1.0
    && 0.0 <= t.seo <= 1.0
    && 0.0 <= t.bestPractices <= 1.0
  }

  /** The keys of the Lighthouse thresholds, in declaration order (`Object.keys`). */
  const ThresholdKeys: seq<string> := ["performance", "seo", "best-practices"]

  /**
   * `thresholds.lighthouse[key]`: a number for the three schema keys,
   * `undefined` for any other key.
   */
  function ThresholdFor(t: LighthouseThresholds, key: string): (r: Option<real>)
    ensures r.Some? <==> key in ThresholdKeys
    ensures key == "performance" ==> r == Some(t.performance)
    ensures key == "seo" ==> r == Some(t.seo)
    ensures key == "best-practices" ==> r == Some(t.bestPractices)
  {
    if key == "performance" then Some(t.performance)
    else if key == "seo" then Some(t.seo)
    else if key == "best-practices" then Some(t.bestPractices)
    else None
  }

  /** The defaults lie within the schema's bounds. */
  lemma DefaultsValid()
    ensures ValidThresholds(Defaults.thresholds.lighthouse)
    ensures Defaults.crawl.paths == ["/"] && Defaults.crawl.maxPages == 50.0
  {
  }

  /**
   * The command-line options the orchestrator consults. `maxPages`,
   * `linksTimeout` and `linksConcurrency` are present only when they are a
   * number other than NaN; `paths` only when it is a string.
   */
  datatype CliOptions = CliOptions(
    baseUrl: string,
    skipBuild: bool,
    skipServe: bool,
    includeScreenshots: bool,
    output: string,
    includeDetails: bool,
    gzip: bool,
    maxPages: Option<real>,
    paths: Option<string>,
    noSitemap: bool,
    a11yOutput: string,
    a11yIncludeDetails: bool,
    linksTimeout: Option<real>,
    linksConcurrency: Option<real>,
    linksOutput: string,
    linksInternalOnly: bool,
    linksIncludeDetails: bool,
    htmlOutput: string,
    htmlIncludeDetails: bool,
    softFail: bool)

  /** `String(option || 'summary')`: an output mode, `summary` when none is given. */
  function Mode(option: string): (mode: string)
    ensures mode != []
    ensures option != [] ==> mode == option
    ensures option == [] ==> mode == "summary"
  {
    if option == [] then "summary" else option
  }
}
