# jekyll-audit, modelled in Dafny

jekyll-audit runs quality audits on a Jekyll site in CI. It builds the site,
or takes a given base URL. It serves the built output and picks the pages to
scan: an explicit `--paths` list, the site's `sitemap.xml`, or the configured
paths, capped at a page limit. It then runs four audits:

- Lighthouse scores the base URL.
- pa11y checks each page's accessibility.
- linkinator crawls the site for broken links.
- an HTML validator checks each page.

Each audit writes a report, either a summary or the full form. The run then
checks the results against the configured thresholds and records `passed`. It
sets exit code 1 when a threshold fails and soft failing is off.

This project models that decision logic. The external tools are parameters of
the model:

- the build command;
- the file and port lookups;
- the Lighthouse engine;
- the accessibility scanner;
- the link checker;
- the HTML validator;
- the URL-origin function.

Each of these is a function-typed field of `Orchestrator.Environment`, and a
throw is an `Err`.

Modules, one per source file or concern:

- `Wrappers`: `Option` and `Result`.
- `Seqs`: filters, sums and de-duplication over sequences, with their laws.
- `Text`: JavaScript string operations.
  - `trim`, with the exact ECMAScript white-space and line-terminator set.
  - `split`, and the `startsWith` helpers.
  - ASCII lower-casing. That is exact for the words compared here.
- `Json`: a parsed JSON value, with truthiness and member access.
- `Config`: the configuration record with the schema's defaults, and the command-line options the run reads.
- `Sitemap`: `src/utils/sitemap.ts`, including the `<loc>` regular expression (global, case-insensitive) driven by `lastIndex`.
- `Lighthouse`: `src/audits/lighthouse.ts`, covering options, the skip list, category scores, screenshot removal and image scrubbing.
- `Linkinator`: `src/audits/linkinator.ts`.
- `HtmlValidator`: `src/audits/htmlValidator.ts`.
- `Reports`: the summary and full projections that `src/orchestrator/index.ts` writes.
- `Orchestrator`: `runOrchestrator`. This covers:
  - the build and serve decisions;
  - base-URL composition;
  - target resolution;
  - the per-page collection loops;
  - the threshold accumulator;
  - the exit code, which is set on a `Process` object.

The loops that build a result step by step are `method`s, each proved
equal to a specification `function`. The properties are proved about those
functions:

- `ParseSitemapLocs`;
- `CountByType`;
- `CollectA11y` and `CollectHtml`;
- `CheckCategories`;
- `NormaliseCategories`;
- `CollectMetrics`;
- `BuildOptions`;
- `RunLighthouseAudit`;
- `RunAudits`;
- `RunOrchestrator`.

The loops that `delete` members of a parsed report are modelled as functions
that return the edited value. These are the loops in `scrubDetailsImages`, the
screenshot removal and the `details` removal; see "## Left out".

JavaScript numbers are `real`. `slice(0, maxPages)` follows `ToIntegerOrInfinity`:

- it truncates towards zero;
- a negative limit counts from the end.

Behaviour of the code worth noting:

- Failures that end a run: a throw from the build, from serving, from Lighthouse, from the link checker or from reading the sitemap ends the run. `Orchestrate` returns `Err` for each of these.
- Duplicate targets are kept: nothing removes a page listed twice.
- `--skipServe` changes nothing: without a base URL, both branches of the code serve the site (`ServedBaseUrl`).
- Link threshold: the threshold uses the checker's unfiltered broken count. The links report may filter to internal links (`LinkGateUsesUnfilteredCount`).
- Threshold warnings: the code prints Lighthouse threshold warnings early, only as console output. The failing decision for categories is made later, from `config.thresholds.lighthouse[key]`.

## Model

| member | source | states |
|---|---|---|
| Config.ThresholdFor | src/orchestrator/index.ts:268 | a threshold exists exactly for the three schema keys, and it is the configured minimum for that key |
| Config.DefaultsValid | src/config/schema.ts:6-43 | the default Lighthouse minimums lie in [0, 1]; the default paths are `["/"]` with a 50-page limit |
| Config.Mode | src/orchestrator/index.ts:60 | an output mode is the option when given, `summary` otherwise |
| Text.Trim | src/orchestrator/index.ts:322-323 | the result is the infix of the input left once the white space before and after it is cut off (only white space precedes and follows it in the input), has no leading or trailing JS white space, has no character the input lacks, is no longer than the input, is empty iff the input is all white space, and leaves trimmed text alone |
| Text.TrimIdempotent | src/orchestrator/index.ts:322-323 | trimming twice is trimming once |
| Text.LowerAscii | src/orchestrator/index.ts:190 | lower-casing keeps the length and lowers every character |
| Text.StripTrailingSlash | src/utils/sitemap.ts:35 | `/\/$/` removes exactly one character, and only when the text ends in `/` |
| Text.EnsureLeadingSlash | src/orchestrator/index.ts:331-334 | the result starts with `/`; it is the input iff the input already starts with `/`, and `/` + input otherwise |
| Text.EnsureLeadingSlashIdempotent | src/orchestrator/index.ts:331-334 | applying it twice is applying it once |
| Text.Split | src/orchestrator/index.ts:161 | the pieces contain no separator and join back to the input |
| Text.DecimalString | src/orchestrator/index.ts:314 | a port prints as decimal digits with no leading zero, and the digits read back as the port |
| Seqs.Dedup | src/audits/lighthouse.ts:47 | `new Set` spread: no duplicates, same members, never longer |
| Seqs.DedupKeepsDistinct | src/audits/lighthouse.ts:47 | a list without duplicates passes through unchanged |
| Sitemap.SitemapUrl | src/utils/sitemap.ts:14 | the sitemap URL is the base URL without its one trailing `/` when it has one, followed by `/sitemap.xml`, with nothing in between |
| Sitemap.DiscoverSitemap | src/utils/sitemap.ts:10-19 | a sitemap is found iff the file exists, and its URL is the sitemap URL of the base URL |
| Sitemap.UrlsFromPaths | src/utils/sitemap.ts:34-40 | one URL per path, in order: the base URL minus one trailing `/`, then the path with a `/` prefixed when it lacks one |
| Sitemap.UrlsFromPathsExample | src/utils/sitemap.ts:34-40 | `("http://x/", ["/", "about"])` gives `["http://x/", "http://x/about"]` |
| Sitemap.UrlsFromPathsStripsOneSlash | src/utils/sitemap.ts:35 | a base ending in `//` keeps one `/` |
| Sitemap.TagsAreLowerCase | src/utils/sitemap.ts:24 | the lower-case tags match the case-insensitive tag test |
| Sitemap.MatchStartShape | src/utils/sitemap.ts:24 | a match at a position is exactly an opening tag in any case, a non-empty body without `<`, and a closing tag in any case |
| Sitemap.ExecFindsMatch | src/utils/sitemap.ts:24-27 | `exec` from `lastIndex` returns a real match at or after `lastIndex` |
| Sitemap.ExecLeftmost | src/utils/sitemap.ts:24-27 | no match starts between `lastIndex` and the match `exec` returns |
| Sitemap.ExecCaptures | src/utils/sitemap.ts:24-30 | one `exec` step yields the first capture of the remaining text and resumes after the match |
| Sitemap.LocsFromCaptures | src/utils/sitemap.ts:27-30 | the `exec` loop from any `lastIndex` yields the kept captures of the text from there on |
| Sitemap.PushTrimmed | src/utils/sitemap.ts:28-29 | a body is trimmed and pushed only when the trimmed body is non-empty |
| Sitemap.ParseSitemapLocs | src/utils/sitemap.ts:22-32 | the `while` loop over `exec` returns exactly the trimmed, non-blank bodies of the non-overlapping matches, in document order |
| Sitemap.SitemapLocsWellFormed | src/utils/sitemap.ts:24-31 | every extracted URL is non-empty, trimmed and free of `<`, for any text at all |
| Sitemap.SitemapLocsEntry | src/utils/sitemap.ts:24-30 | a well-formed entry in any tag case yields its trimmed body, followed by the rest of the document's URLs |
| Sitemap.TagFreeTextIgnored | src/utils/sitemap.ts:24-31 | text without `<` before an entry contributes nothing |
| Sitemap.EmptyEntrySkipped | src/utils/sitemap.ts:24 | `<loc></loc>` is not matched and contributes nothing |
| Sitemap.UnclosedEntrySkipped | src/utils/sitemap.ts:24 | an opening tag whose body runs into a `<` that does not start `</loc>` contributes nothing |
| Sitemap.KeptTrimmed | src/utils/sitemap.ts:28-29 | a non-empty trimmed body is kept as it is |
| Sitemap.RenderRoundTrip | src/utils/sitemap.ts:22-32 | extracting the locations of a sitemap written from non-empty, trimmed, `<`-free URLs gives back those URLs |
| Lighthouse.MergeSkipAudits | src/audits/lighthouse.ts:44-49 | the merged skip list has no duplicates and holds exactly the prior and the new audit ids |
| Lighthouse.ScreenshotsAreNotHeavy | src/audits/lighthouse.ts:30-43 | the screenshot and heavy audit lists are disjoint |
| Lighthouse.OptionsForSpec | src/audits/lighthouse.ts:22-49 | `onlyCategories` is set iff categories are non-empty; `skipAudits` is set iff some audit is skipped, and then it has no duplicates; screenshot ids are skipped iff screenshots are excluded, heavy ids iff heavy audits are skipped, and nothing else is skipped |
| Lighthouse.BuildOptions | src/audits/lighthouse.ts:22-49 | the push-based construction gives the options above |
| Lighthouse.ScoreOf | src/audits/lighthouse.ts:57 | a score is present iff the category is an object with a numeric `score`, and it is that number |
| Lighthouse.NormaliseCategories | src/audits/lighthouse.ts:52-59 | the fill loop throws iff some category is null; otherwise it keeps every key with its score or null |
| Lighthouse.ScrubItem | src/audits/lighthouse.ts:101-110 | scrubbing an item throws iff it is null; an object loses exactly its `data:image/` strings; an array keeps its length, and each `data:image/` element becomes the hole `delete` leaves (null in JSON) while the others are kept; other values are untouched |
| Lighthouse.ScrubItems | src/audits/lighthouse.ts:101-110 | the item loop throws iff some item is null; otherwise it scrubs each item in place and keeps the length |
| Lighthouse.CleanItemUnchanged | src/audits/lighthouse.ts:103-108 | an item without inline image strings is left as it is |
| Lighthouse.ScrubDetailsShape | src/audits/lighthouse.ts:98-120 | scrubbing keeps every key of the details; only `items`, `nodes` and `overview` can change |
| Lighthouse.ScrubDetailsThrows | src/audits/lighthouse.ts:98-116 | the exact throwing cases: a null item, a failing nested node, a failing truthy overview |
| Lighthouse.ScrubDetailsCleans | src/audits/lighthouse.ts:98-116 | after scrubbing, no item reachable through `nodes` and `overview` holds a `data:image/` string |
| Lighthouse.ScrubDetailsFails | src/audits/lighthouse.ts:98-116 | scrubbing throws iff a reachable item list holds a null |
| Lighthouse.ScrubbedHasNoNullItem | src/audits/lighthouse.ts:101-116 | a scrubbed tree has no null item left |
| Lighthouse.StripScreenshots | src/audits/lighthouse.ts:64-83 | an unparsable report is returned unchanged, and a parsed one stays parsed |
| Lighthouse.ScrubAuditCleans | src/audits/lighthouse.ts:73-77 | a scrubbed audit keeps its keys and has clean details |
| Lighthouse.StripRemovesScreenshots | src/audits/lighthouse.ts:66-79 | the three screenshot audits are gone, every other audit remains with clean details, and every other report member is untouched |
| Lighthouse.RawReportOf | src/audits/lighthouse.ts:61-63 | the report text is used when present and not empty; otherwise the `lhr` object, or `{}` when it is missing or null; the result is never the empty text |
| Lighthouse.EmptyReportFallsBack | src/audits/lighthouse.ts:63 | an empty report text is falsy, so the `lhr` object (or `{}`) is written instead |
| Lighthouse.RunLighthouseAudit | src/audits/lighthouse.ts:18-96 | the adapter returns its specification: Chrome or engine failures propagate, the categories are normalised, and screenshots are stripped unless included |
| Lighthouse.ScreenshotsIncludedKeepReport | src/audits/lighthouse.ts:61-64 | with screenshots included, the raw report is the engine's report when it is not empty, or its `lhr` as JSON |
| Linkinator.RequestFor | src/audits/linkinator.ts:23-29 | the checker is asked with `recurse` true, `timeout` 30000 and `concurrency` 100 unless options set them |
| Linkinator.Keep | src/audits/linkinator.ts:31-36 | a link keeps its url, status, state and parent |
| Linkinator.BrokenCount | src/audits/linkinator.ts:37 | the broken count never exceeds the number of links |
| Linkinator.BrokenCountCountsBroken | src/audits/linkinator.ts:37 | the broken count is the number of links whose state is exactly `BROKEN` |
| Linkinator.OnlyBrokenCounts | src/audits/linkinator.ts:37 | links in no `BROKEN` state count zero |
| Linkinator.RunLinkCheck | src/audits/linkinator.ts:22-39 | fails iff the checker throws; otherwise one link per checker link, in order, and the broken count of those links |
| Linkinator.MissingLinksAreEmpty | src/audits/linkinator.ts:31-38 | a result without links gives no links and a broken count of 0 |
| HtmlValidator.ErrorCount | src/audits/htmlValidator.ts:20 | the error count never exceeds the number of messages |
| HtmlValidator.ErrorCountCountsErrors | src/audits/htmlValidator.ts:20 | the error count is the number of messages of type exactly `error` |
| HtmlValidator.NonErrorsNotCounted | src/audits/htmlValidator.ts:20 | adding warnings or info messages leaves the count unchanged |
| HtmlValidator.ValidateHtmlUrl | src/audits/htmlValidator.ts:17-22 | fails iff the validator throws; otherwise the url as given, its messages or `[]`, and their error count |
| HtmlValidator.MissingMessagesAreEmpty | src/audits/htmlValidator.ts:19-21 | missing messages give `[]` and an error count of 0 |
| Reports.UseGzip | src/orchestrator/index.ts:62 | gzip is used iff it is asked for and the output mode is `full` |
| Reports.FailedScanIssue | src/orchestrator/index.ts:179 | a failed scan becomes one issue with code `ERROR` and no type |
| Reports.CountByType | src/orchestrator/index.ts:188-192 | the counting loop gives, per word, the number of issues whose lower-cased type is `error`, `warning` or `notice` |
| Reports.ByTypeBounded | src/orchestrator/index.ts:187-195 | a page's three type counts add up to at most its total |
| Reports.FailedScanUncounted | src/orchestrator/index.ts:179-191 | the placeholder issue of a failed scan is in no type count |
| Reports.A11ySummaryAgrees | src/orchestrator/index.ts:186-201 | one summary entry per page with its url, total and type counts; the summary total is the sum of the pages' totals, the figure the threshold uses |
| Reports.LinksFiltered | src/orchestrator/index.ts:219-222 | no filtering unless internal-only; otherwise exactly the links with the base URL's origin, when there is one |
| Reports.LinksSummaryBounded | src/orchestrator/index.ts:220-234 | the summary's broken count is at most the checker's, equal without internal-only filtering, and each listed entry comes from a broken link |
| Reports.FailedValidationPage | src/orchestrator/index.ts:247 | a failed validation counts one error, agreeing with its single `error` message |
| Reports.HtmlReportFor | src/orchestrator/index.ts:250-254 | the summary lists each page's url and error count in order; otherwise the full results |
| Reports.PageErrorsBounded | src/orchestrator/index.ts:256 | no page has more errors than the total |
| Reports.MetricOf | src/orchestrator/index.ts:81-85 | the score and numeric value are the audit's members, or null when missing; a present non-null display value is kept, and a missing or null one is dropped, never written as null |
| Reports.CollectMetrics | src/orchestrator/index.ts:68-88 | the metrics loop gives the metrics function |
| Reports.MetricsPresent | src/orchestrator/index.ts:77-88 | a metric is reported iff its id is one of the six and its audit is truthy; its score is the audit's score or null |
| Reports.DropDetails | src/orchestrator/index.ts:108 | an object audit loses `details` and keeps every other key |
| Reports.WithoutDetailsStrips | src/orchestrator/index.ts:102-118 | the full report without details has no `i18n`, `timing` or `stackPacks`, keeps every other member and every audit, and no object audit keeps `details` |
| Reports.WithoutDetailsIdempotent | src/orchestrator/index.ts:102-118 | stripping a stripped report changes nothing |
| Reports.LighthouseReportFor | src/orchestrator/index.ts:64-119 | an unparsable report, or any mode other than summary and full-without-details, is written raw; in summary mode a parsed report becomes its summary with the adapter's categories; in full mode without details a parsed report loses its details, or is written raw when that throws |
| Orchestrator.BuildInvocation | src/orchestrator/index.ts:296 | the command and its arguments contain no space and join back into the build command |
| Orchestrator.DetectedBaseUrl | src/orchestrator/index.ts:317-329 | a `baseurl` is found iff it is a string that is not blank after trimming, and it is the trimmed string |
| Orchestrator.ComposeBaseUrl | src/orchestrator/index.ts:38 | without a `baseurl` the served URL is used as is; with one, the served URL minus one trailing `/` is followed by the `baseurl` with a leading `/` |
| Orchestrator.ComposeBaseUrlNormalised | src/orchestrator/index.ts:331-334 | a `baseurl` that already has its leading `/` composes the same way |
| Orchestrator.Truncate | src/orchestrator/index.ts:165-170 | a finite number is truncated towards zero |
| Orchestrator.SliceEnd | src/orchestrator/index.ts:165-170 | `slice(0, end)` keeps at most the list and at most `end` items; a limit of at least the length keeps all; a smaller non-negative limit keeps exactly its whole part; a limit in (-1, 0) keeps none; a limit of -1 or less drops that many from the end |
| Orchestrator.Take | src/orchestrator/index.ts:165-170 | the pages are a prefix of the list: the whole list when it fits, and otherwise exactly as many pages as the whole part of a non-negative limit |
| Orchestrator.MaxPages | src/orchestrator/index.ts:157-159 | a numeric command-line limit wins; otherwise the configured limit applies |
| Orchestrator.PathsOverride | src/orchestrator/index.ts:160-162 | an override exists iff `paths` is a string that is not blank after trimming, and then it holds the entries of `paths` |
| Orchestrator.Entries | src/orchestrator/index.ts:161 | each entry is non-empty and trimmed |
| Orchestrator.EntriesSingle | src/orchestrator/index.ts:161 | text without a comma gives one entry, itself trimmed, or none when it is blank |
| Orchestrator.EntriesCons | src/orchestrator/index.ts:161 | the entries before the first comma come first, then the entries of the rest; with `EntriesSingle` this fixes every entry and its order |
| Orchestrator.TrimEach | src/orchestrator/index.ts:161 | the i-th result is the i-th piece trimmed, for every piece |
| Orchestrator.TargetsPrecedence | src/orchestrator/index.ts:160-171 | the override wins; the sitemap is used iff there is no override, it exists, and it is enabled both on the command line and in the configuration; the pages are a prefix of the chosen list within the limit |
| Orchestrator.BlankOverrideScansNothing | src/orchestrator/index.ts:160-165 | `--paths ","` is an override with no entries, so no page is scanned |
| Orchestrator.CollectTargets | src/orchestrator/index.ts:155-171 | the target code gives the targets function, including its sitemap read |
| Orchestrator.A11yPageFor | src/orchestrator/index.ts:175-180 | a scanned page keeps its url and its issues; a failed scan records the single error issue |
| Orchestrator.CollectA11y | src/orchestrator/index.ts:173-181 | the loop yields one entry per target, in order, with that target's url |
| Orchestrator.FailedScanCountsOnce | src/orchestrator/index.ts:178-180 | a failed page contributes exactly one issue, counted under no type |
| Orchestrator.HtmlPageFor | src/orchestrator/index.ts:243-248 | a validated page keeps its url and its messages; its error count is their error count; a failed page counts one error |
| Orchestrator.CollectHtml | src/orchestrator/index.ts:241-249 | the loop yields one entry per target, in order, with that target's url |
| Orchestrator.CategoryChecks | src/orchestrator/index.ts:266-269 | every reported category gets a summary entry |
| Orchestrator.CheckCategories | src/orchestrator/index.ts:266-273 | the loop records every category's score and threshold and flags a failure iff some category fails |
| Orchestrator.NullScoreNeverFails | src/orchestrator/index.ts:270 | categories whose scores are all null never fail |
| Orchestrator.UnknownCategoryNeverFails | src/orchestrator/index.ts:268-270 | a category without a configured threshold never fails |
| Orchestrator.LinkOptionsFor | src/orchestrator/index.ts:212-214 | the link check recurses, with the numeric timeout and concurrency options or 30000 and 100 |
| Orchestrator.Conclude | src/orchestrator/index.ts:173-283 | the imperative audit stage gives the assembled outcome, and its failure flag is set iff `passed` is false |
| Orchestrator.RunAudits | src/orchestrator/index.ts:46-283 | everything after the base URL gives the audit function, with failures flagged iff the run completed and did not pass |
| Orchestrator.RunOrchestrator | src/orchestrator/index.ts:22-291 | the whole run gives the orchestration function; the exit code becomes 1 iff the run completed, did not pass and soft failing is off, and is untouched otherwise |
| Orchestrator.PassedIffNoFailure | src/orchestrator/index.ts:204-281 | `passed` holds iff the issues, broken links and HTML errors are within their maximums and no category with numeric score and threshold scores below it |
| Orchestrator.GivenBaseUrlUsedVerbatim | src/orchestrator/index.ts:24-34 | with a base URL given, nothing is built, it is used verbatim, and the build, the port, the site's files and `baseurl` play no part |
| Orchestrator.ServedBaseUrl | src/orchestrator/index.ts:33-44 | without a base URL, the served URL on the configured or a free port is composed with the detected `baseurl`, whether or not serving is skipped |
| Orchestrator.SoftFailOnlyAffectsExit | src/orchestrator/index.ts:281-290 | the outcome, `passed` included, does not depend on soft failing |
| Orchestrator.SameRunSameOutcome | src/orchestrator/index.ts:22-290 | options differing only in `skipServe` and `softFail` give the same outcome |
| Orchestrator.LinkGateUsesUnfilteredCount | src/orchestrator/index.ts:220-238 | the link threshold sees the checker's full broken count; the links summary counts at most that, and exactly that without internal-only filtering |
| Orchestrator.OneEntryPerTarget | src/orchestrator/index.ts:173-254 | the accessibility and HTML reports have one entry per target, in target order, in both summary and full form; the accessibility summary's total is the one the threshold checks |

## Left out

- Process and network I/O: the build subprocess and its `JEKYLL_ENV`, `getPort`, the HTTP static server and `fs.access`. The model keeps only their results, as `Environment` fields. The server is never closed by the code, and the model has no teardown either.
- The audit engines: Chrome, `lighthouse()`, pa11y, `linkinator.check` and the HTML validator are oracles. `src/audits/pa11y.ts` is not part of this model.
- Killing Chrome after the Lighthouse run, and the errors that kill may throw: these have no effect on the result.
- Output: report files, `mkdir`, gzip bytes, console messages, the early threshold warnings printed with `toFixed`, and the summary's ISO timestamp. The model decides what each report holds and whether it is gzipped, but not the bytes written.
- JSON text: `JSON.parse` and `JSON.stringify` are left out. A report is a parsed `Json.Value` or an unparsable text. Key order and formatting are not modelled. A report given as an array of texts is taken as already joined.
- Orchestrator.DetectedBaseUrl: YAML parsing and the config file read are left out. The model takes the `baseurl` value already read, or none, and keeps the "string, trimmed, non-empty" rule.
- Reports.LinksFiltered: `new URL(...).origin` is an uninterpreted function that may fail.
- CLI parsing (`src/cli.ts`) and configuration loading (`src/config/schema.ts` beyond its defaults) are not part of this model. A configured port is a natural number or absent.
- Lighthouse.ScrubDetails and Reports.WithoutDetails: the in-place `delete`s on a freshly parsed tree are modelled as functions that return the edited value. A parsed tree shares no nodes, so no aliasing is lost.
- Lighthouse.CategoriesOf: a `categories` member that is an array or string is taken to have no entries. `Object.entries` would give indices or characters. A category key `__proto__` is not modelled.
- Reports.CountByType: the JavaScript quirk that `t in counts` also holds for inherited keys such as `constructor` is not modelled. Only the three words are counted. Non-string issue types, pa11y results without an `issues` list, and a `null` entry in `issues` (reading `issue.type` throws there and ends the run, src/orchestrator/index.ts:190) are not modelled.
- Orchestrator.Truncate: a finite page limit is assumed. The configuration file is a JavaScript module, so `maxPages: Infinity` can be written there, and `slice(0, Infinity)` would keep every page; that case is not modelled.
- Reports.Issue: fields of an issue beyond code, type and message are not modelled.
- Orchestrator.AuditFrom: the link check is run before the accessibility scans, while the code runs the pa11y loop first. The scanners are oracles without effects here, and output is left out, so the order does not change the outcome.
- Linkinator.RunLinkCheck: a `null` entry among the checker's links throws at `l.url` in the code; the model's links are always records, so that throw is not modelled.
- HtmlValidator.ValidateHtmlUrl: a validator result of `undefined` throws at `res.messages` in the code; the model's validator returns a result or an error, so that throw is not modelled.
- Orchestrator.A11yPageFor and Orchestrator.HtmlPageFor: a thrown value that is not an `Error` gives an `undefined` message in the code; the model always has a message string.
- Unhandled rejections: the process exit that follows an uncaught error is not modelled. Such a run ends as an `Err` outcome.
