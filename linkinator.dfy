/**
 * The link-check adapter: the request handed to the link checker, with its
 * defaults, and the projection of the checker's links into the pipeline's
 * records together with the number of broken ones. The checker itself is a
 * function supplied by the caller.
 */
module Linkinator {
  import opened Wrappers
  import opened Seqs
  import Json

  /** A link as the pipeline keeps it. */
  datatype LinkResult = LinkResult(url: string, status: Option<real>, state: Option<string>, parent: Option<string>)

  /** A link as the checker reports it: the four kept fields and whatever else it carries. */
  datatype RawLink = RawLink(
    url: string,
    status: Option<real>,
    state: Option<string>,
    parent: Option<string>,
    extra: map<string, Json.Value>)

  /** The options a caller may pass; a missing one takes its default. */
  datatype LinkinatorOptions = LinkinatorOptions(
    recurse: Option<bool>,
    timeout: Option<real>,
    concurrency: Option<real>,
    linksToSkip: Option<seq<string>>)

  /** What the checker is asked to do. */
  datatype CheckRequest = CheckRequest(
    path: string,
    recurse: bool,
    timeout: real,
    concurrency: real,
    linksToSkip: Option<seq<string>>)

  /**
   * The checker: given a request it either throws (`Err`) or answers with its
   * list of links, which may be missing (`None`).
   */
  type Checker = CheckRequest -> Result<Option<seq<RawLink>>, string>

  datatype LinkinatorRunOutput = LinkinatorRunOutput(links: seq<LinkResult>, brokenCount: nat)

  /**
   * The request `runLinkCheck` sends: recursion on, a 30000 ms timeout and a
   * concurrency of 100 unless the options say otherwise.
   */
  function RequestFor(startUrl: string, options: Option<LinkinatorOptions>): (req: CheckRequest)
    ensures req.path == startUrl
    ensures req.recurse == (options.None? || options.value.recurse.GetOr(true))
    ensures (options.None? || options.value.timeout.None?) ==> req.timeout == 30000.0
    ensures (options.None? || options.value.concurrency.None?) ==> req.concurrency == 100.0
    ensures options.Some? && options.value.timeout.Some? ==> req.timeout == options.value.timeout.value
    ensures options.Some? && options.value.concurrency.Some? ==> req.concurrency == options.value.concurrency.value
    ensures options.None? ==> req.linksToSkip.None?
  {
    match options
    case None => CheckRequest(startUrl, true, 30000.0, 100.0, None)
    case Some(o) =>
      CheckRequest(startUrl, o.recurse.GetOr(true), o.timeout.GetOr(30000.0), o.concurrency.GetOr(100.0), o.linksToSkip)
  }

  /** The record kept for a reported link: its URL, status, state and parent, nothing else. */
  function Keep(l: RawLink): (r: LinkResult)
    ensures r.url == l.url && r.status == l.status && r.state == l.state && r.parent == l.parent
  {
    LinkResult(l.url, l.status, l.state, l.parent)
  }

  /** A link counts as broken when its state is exactly `BROKEN`. */
  predicate IsBroken(l: LinkResult)
  {
    l.state == Some("BROKEN")
  }

  /** The number of broken links. */
  function BrokenCount(links: seq<LinkResult>): (n: nat)
    ensures n <= |links|
  {
    |Filter(links, IsBroken)|
  }

  /**
   * `runLinkCheck`: one kept record per reported link, in the checker's order,
   * no links at all when the checker reports none, and the count of broken ones.
   */
  function RunLinkCheck(startUrl: string, options: Option<LinkinatorOptions>, check: Checker): (r: Result<LinkinatorRunOutput, string>)
    ensures r.Err? <==> check(RequestFor(startUrl, options)).Err?
    ensures r.Ok? ==>
      var reported := check(RequestFor(startUrl, options)).value.GetOr([]);
      && |r.value.links| == |reported|
      && (forall i :: 0 <= i < |reported| ==> r.value.links[i] == Keep(reported[i]))
      && r.value.brokenCount == BrokenCount(r.value.links)
  {
    match check(RequestFor(startUrl, options))
    case Err(e) => Err(e)
    case Ok(reported) =>
      var raw := reported.GetOr([]);
      var links := seq(|raw|, i requires 0 <= i < |raw| => Keep(raw[i]));
      Ok(LinkinatorRunOutput(links, BrokenCount(links)))
  }

  /** The broken count is the number of positions whose link is broken. */
  lemma BrokenCountCountsBroken(links: seq<LinkResult>)
    ensures BrokenCount(links) == |set i: nat | i < |links| && links[i].state == Some("BROKEN")|
  {
    FilterCountsPositions(links, IsBroken);
    assert Positions(links, IsBroken) == set i: nat | i < |links| && links[i].state == Some("BROKEN");
  }

  /** A checker that reports no list of links yields no links and nothing broken. */
  lemma MissingLinksAreEmpty(startUrl: string, options: Option<LinkinatorOptions>, check: Checker)
    requires check(RequestFor(startUrl, options)) == Ok(None)
    ensures RunLinkCheck(startUrl, options, check) == Ok(LinkinatorRunOutput([], 0))
  {
  }

  /** States other than `BROKEN`, `OK` and `SKIPPED` alike, are never counted. */
  lemma OnlyBrokenCounts(links: seq<LinkResult>)
    requires forall i :: 0 <= i < |links| ==> links[i].state != Some("BROKEN")
    ensures BrokenCount(links) == 0
  {
    BrokenCountCountsBroken(links);
    assert (set i: nat | i < |links| && links[i].state == Some("BROKEN")) == {};
  }
}
