/**
 * The Lighthouse adapter around the engine: the options it is called with
 * (categories, and the audits to skip), the normalisation of the category
 * scores it reports, and, unless screenshots are wanted, the removal of the
 * screenshot audits and of inline `data:image/` strings from the report.
 * Chrome and the engine are supplied by the caller.
 */
module Lighthouse {
  import opened Wrappers
  import opened Seqs
  import opened Text
  import opened Json

  // ---------------------------------------------------------------------
  // Options
  // ---------------------------------------------------------------------

  /** The audits whose output is a screenshot. */
  const ScreenshotAudits: seq<string> := ["screenshot-thumbnails", "final-screenshot", "full-page-screenshot"]

  /** The audits skipped to keep a summary run light. */
  const HeavyAudits: seq<string> := [
    "network-requests", "tasks", "diagnostics", "resource-summary",
    "script-treemap-data", "third-party-summary", "duplicate-javascript"]

  /**
   * The options object passed to the engine. `skipAudits` is the one member
   * of `settings`; `None` means there is no `settings` at all.
   */
  datatype LhOptions = LhOptions(
    logLevel: string,
    output: string,
    port: nat,
    onlyCategories: Option<seq<string>>,
    skipAudits: Option<seq<string>>)

  /**
   * `[...new Set([...prior, ...skipList])]`: every audit of either list once,
   * at its first occurrence.
   */
  function MergeSkipAudits(prior: seq<string>, skipList: seq<string>): (r: seq<string>)
    ensures NoDuplicates(r)
    ensures forall id :: id in r <==> id in prior || id in skipList
  {
    Dedup(prior + skipList)
  }

  /** The audits pushed onto the skip list, in push order. */
  function SkipList(includeScreenshots: bool, skipHeavyAudits: bool): seq<string>
  {
    (if includeScreenshots then [] else ScreenshotAudits) + (if skipHeavyAudits then HeavyAudits else [])
  }

  /** The options `runLighthouseAudit` builds for a Chrome listening on `port`. */
  function OptionsFor(port: nat, categories: Option<seq<string>>, includeScreenshots: bool, skipHeavyAudits: bool): LhOptions
  {
    var skipList := SkipList(includeScreenshots, skipHeavyAudits);
    LhOptions(
      "info", "json", port,
      if categories.Some? && |categories.value| > 0 then categories else None,
      if |skipList| > 0 then Some(MergeSkipAudits([], skipList)) else None)
  }

  /** No screenshot audit is also a heavy audit. */
  lemma ScreenshotsAreNotHeavy()
    ensures forall id :: id in ScreenshotAudits ==> id !in HeavyAudits
  {
    assert "final-screenshot"[0] != "network-requests"[0];
    assert "final-screenshot"[0] != "resource-summary"[0];
    assert "full-page-screenshot"[0] != "duplicate-javascript"[0];
  }

  /**
   * `onlyCategories` is set exactly when categories are given and non-empty;
   * `settings.skipAudits` exists exactly when something is skipped, holds no
   * audit twice, holds the three screenshot audits exactly when screenshots
   * are not included and the seven heavy audits exactly when heavy audits are
   * skipped, and nothing else.
   */
  lemma {:induction false} OptionsForSpec(port: nat, categories: Option<seq<string>>, includeScreenshots: bool, skipHeavyAudits: bool)
    ensures var o := OptionsFor(port, categories, includeScreenshots, skipHeavyAudits);
      && o.port == port
      && (o.onlyCategories.Some? <==> categories.Some? && |categories.value| > 0)
      && (o.onlyCategories.Some? ==> o.onlyCategories == categories)
      && (o.skipAudits.Some? <==> !includeScreenshots || skipHeavyAudits)
      && (o.skipAudits.Some? ==> NoDuplicates(o.skipAudits.value))
      && (forall id :: id in ScreenshotAudits ==> (o.skipAudits.Some? && id in o.skipAudits.value <==> !includeScreenshots))
      && (forall id :: id in HeavyAudits ==> (o.skipAudits.Some? && id in o.skipAudits.value <==> skipHeavyAudits))
      && (o.skipAudits.Some? ==> forall id :: id in o.skipAudits.value ==> id in ScreenshotAudits || id in HeavyAudits)
  {
    ScreenshotsAreNotHeavy();
    var s := SkipList(includeScreenshots, skipHeavyAudits);
    assert forall id :: id in s <==> (!includeScreenshots && id in ScreenshotAudits) || (skipHeavyAudits && id in HeavyAudits);
  }

  /**
   * `lhOptions` as `runLighthouseAudit` assembles it: the fixed options, the
   * categories when there are some, and the skip list built by pushes.
   */
  method BuildOptions(port: nat, categories: Option<seq<string>>, includeScreenshots: bool, skipHeavyAudits: bool)
    returns (opts: LhOptions)
    ensures opts == OptionsFor(port, categories, includeScreenshots, skipHeavyAudits)
  {
    var onlyCategories: Option<seq<string>> := None;
    if categories.Some? && |categories.value| > 0 {
      onlyCategories := categories;
    }
    var skipList: seq<string> := [];
    if !includeScreenshots {
      skipList := skipList + ScreenshotAudits;
    }
    if skipHeavyAudits {
      skipList := skipList + HeavyAudits;
    }
    assert skipList == SkipList(includeScreenshots, skipHeavyAudits);
    var skipAudits: Option<seq<string>> := None;
    if |skipList| > 0 {
      skipAudits := Some(MergeSkipAudits([], skipList));
    }
    opts := LhOptions("info", "json", port, onlyCategories, skipAudits);
  }

  // ---------------------------------------------------------------------
  // Category scores
  // ---------------------------------------------------------------------

  /** A category score: a number, or null. */
  type Score = Option<real>

  /** `typeof v.score === 'number' ? v.score : null`. */
  function ScoreOf(v: Value): (s: Score)
    ensures s.Some? <==> v.Obj? && "score" in v.fields && v.fields["score"].Num?
    ensures s.Some? ==> s.value == v.fields["score"].n
  {
    match Get(v, "score")
    case Some(Num(n)) => Some(n)
    case _ => None
  }

  /** What reading `.score` of a null category throws. */
  const NullCategoryError := "Cannot read properties of null (reading 'score')"

  /**
   * The categories as the adapter reports them: every key of the engine's
   * categories, its score when that is a number and null otherwise; reading
   * the score of a null category throws.
   */
  function NormalisedCategories(entries: map<string, Value>): Result<map<string, Score>, string>
  {
    if exists k :: k in entries && entries[k] == Null then Err(NullCategoryError)
    else Ok(map k | k in entries :: ScoreOf(entries[k]))
  }

  /** The loop filling `categoriesResult`, one category at a time. */
  method NormaliseCategories(entries: map<string, Value>) returns (r: Result<map<string, Score>, string>)
    ensures r == NormalisedCategories(entries)
    ensures r.Err? <==> exists k :: k in entries && entries[k] == Null
    ensures r.Ok? ==> r.value.Keys == entries.Keys
  {
    var result: map<string, Score> := map[];
    var todo := entries.Keys;
    while todo != {}
      invariant todo <= entries.Keys
      invariant result.Keys == entries.Keys - todo
      invariant forall k :: k in result ==> entries[k] != Null && result[k] == ScoreOf(entries[k])
      decreases |todo|
    {
      var k :| k in todo;
      if entries[k] == Null {
        assert k in entries && entries[k] == Null;
        return Err(NullCategoryError);
      }
      result := result[k := ScoreOf(entries[k])];
      todo := todo - {k};
    }
    assert result == map k | k in entries :: ScoreOf(entries[k]);
    r := Ok(result);
  }

  // ---------------------------------------------------------------------
  // Scrubbing inline images
  // ---------------------------------------------------------------------

  /** A string value that starts with `data:image/`: inline image data. */
  predicate IsImageData(v: Value)
  {
    v.Str? && StartsWith(v.s, "data:image/")
  }

  /**
   * One entry of `details.items` after its image-valued members are deleted.
   * `Object.entries(null)` throws. An array entry loses its image elements to
   * holes, which serialise as null. A string's entries are its single
   * characters, never image data; numbers and booleans have none.
   */
  function ScrubItem(it: Value): (r: Option<Value>)
    ensures r.None? <==> it == Null
    ensures r.Some? ==> ItemClean(r.value) && r.value != Null
    ensures it.Obj? ==>
      && r.value.Obj?
      && (forall k :: k in r.value.fields <==> k in it.fields && !IsImageData(it.fields[k]))
      && (forall k :: k in r.value.fields ==> r.value.fields[k] == it.fields[k])
    ensures it.Arr? ==>
      && r.value.Arr? && |r.value.elems| == |it.elems|
      && (forall i :: 0 <= i < |it.elems| && !IsImageData(it.elems[i]) ==> r.value.elems[i] == it.elems[i])
      && (forall i :: 0 <= i < |it.elems| && IsImageData(it.elems[i]) ==> r.value.elems[i] == Null)
    ensures !it.Obj? && !it.Arr? && it != Null ==> r == Some(it)
  {
    match it
    case Null => None
    case Obj(f) => Some(Obj(map k | k in f && !IsImageData(f[k]) :: f[k]))
    case Arr(es) => Some(Arr(seq(|es|, i requires 0 <= i < |es| => if IsImageData(es[i]) then Null else es[i])))
    case _ => Some(it)
  }

  /** No member or element of an item is image data. */
  predicate ItemClean(it: Value)
  {
    match it
    case Obj(f) => forall k :: k in f ==> !IsImageData(f[k])
    case Arr(es) => forall i :: 0 <= i < |es| ==> !IsImageData(es[i])
    case _ => true
  }

  /** All of `xs` succeeded: their values; otherwise nothing. */
  function AllSome(xs: seq<Option<Value>>): (r: Option<seq<Value>>)
    ensures r.Some? <==> forall i :: 0 <= i < |xs| ==> xs[i].Some?
    ensures r.Some? ==> |r.value| == |xs| && forall i :: 0 <= i < |xs| ==> r.value[i] == xs[i].value
  {
    if forall i :: 0 <= i < |xs| ==> xs[i].Some? then Some(seq(|xs|, i requires 0 <= i < |xs| => xs[i].value))
    else None
  }

  /** Every entry of an `items` array scrubbed; throws when one of them is null. */
  function ScrubItems(es: seq<Value>): (r: Option<seq<Value>>)
    ensures r.None? <==> exists i :: 0 <= i < |es| && es[i] == Null
    ensures r.Some? ==> |r.value| == |es| && forall i :: 0 <= i < |es| ==> ScrubItem(es[i]) == Some(r.value[i])
  {
    var xs := seq(|es|, i requires 0 <= i < |es| => ScrubItem(es[i]));
    assert forall i :: 0 <= i < |es| ==> (xs[i].None? <==> es[i] == Null);
    AllSome(xs)
  }

  /**
   * `scrubDetailsImages`: deletes the image members of every entry of an
   * `items` array, then scrubs every element of a `nodes` array and a truthy
   * `overview` the same way. Only an object has these members; anything else
   * comes back as it is. `None` is the TypeError thrown on a null item.
   */
  function ScrubDetails(d: Value): Option<Value>
    decreases d
  {
    match d
    case Obj(f) =>
      var items := if "items" in f && f["items"].Arr? then ScrubItems(f["items"].elems) else Some([]);
      var nodes := if "nodes" in f && f["nodes"].Arr? then
          var ns := f["nodes"].elems; AllSome(seq(|ns|, i requires 0 <= i < |ns| => ScrubDetails(ns[i])))
        else Some([]);
      var overview := if "overview" in f && Truthy(f["overview"]) then ScrubDetails(f["overview"]) else Some(Null);
      if items.None? || nodes.None? || overview.None? then None
      else
        var f1 := if "items" in f && f["items"].Arr? then f["items" := Arr(items.value)] else f;
        var f2 := if "nodes" in f && f["nodes"].Arr? then f1["nodes" := Arr(nodes.value)] else f1;
        var f3 := if "overview" in f && Truthy(f["overview"]) then f2["overview" := overview.value] else f2;
        Some(Obj(f3))
    case _ => Some(d)
  }

  /** No item reachable through `nodes` and `overview` holds image data. */
  predicate DetailsClean(d: Value)
    decreases d
  {
    match d
    case Obj(f) =>
      && ("items" in f && f["items"].Arr? ==> forall i :: 0 <= i < |f["items"].elems| ==> ItemClean(f["items"].elems[i]))
      && ("nodes" in f && f["nodes"].Arr? ==> forall i :: 0 <= i < |f["nodes"].elems| ==> DetailsClean(f["nodes"].elems[i]))
      && ("overview" in f ==> DetailsClean(f["overview"]))
    case _ => true
  }

  /** Some item reachable through `nodes` and a truthy `overview` is null. */
  predicate HasNullItem(d: Value)
    decreases d
  {
    match d
    case Obj(f) =>
      || ("items" in f && f["items"].Arr? && exists i :: 0 <= i < |f["items"].elems| && f["items"].elems[i] == Null)
      || ("nodes" in f && f["nodes"].Arr? && exists i :: 0 <= i < |f["nodes"].elems| && HasNullItem(f["nodes"].elems[i]))
      || ("overview" in f && Truthy(f["overview"]) && HasNullItem(f["overview"]))
    case _ => false
  }

  /** A clean item is left as it is. */
  lemma {:induction false} CleanItemUnchanged(it: Value)
    requires it != Null && ItemClean(it)
    ensures ScrubItem(it) == Some(it)
  {
    match it
    case Obj(f) =>
      assert (map k | k in f && !IsImageData(f[k]) :: f[k]) == f;
    case Arr(es) =>
      assert ScrubItem(it).value.elems == es;
    case _ =>
  }

  /**
   * What scrubbing an object does, member by member: an `items` array has
   * each entry scrubbed, a `nodes` array has each element scrubbed as details,
   * `overview` is scrubbed as details, and every other member, and any `items`
   * or `nodes` that is not an array, is kept as it is.
   */
  lemma {:induction false} ScrubDetailsShape(d: Value)
    requires d.Obj? && ScrubDetails(d).Some?
    ensures var f := d.fields; var r := ScrubDetails(d).value;
      && r.Obj? && r.fields.Keys == f.Keys
      && (forall k :: k in f && k != "items" && k != "nodes" && k != "overview" ==> r.fields[k] == f[k])
      && ("items" in f && !f["items"].Arr? ==> r.fields["items"] == f["items"])
      && ("items" in f && f["items"].Arr? ==>
        && r.fields["items"].Arr? && |r.fields["items"].elems| == |f["items"].elems|
        && forall i :: 0 <= i < |f["items"].elems| ==> ScrubItem(f["items"].elems[i]) == Some(r.fields["items"].elems[i]))
      && ("nodes" in f && !f["nodes"].Arr? ==> r.fields["nodes"] == f["nodes"])
      && ("nodes" in f && f["nodes"].Arr? ==>
        && r.fields["nodes"].Arr? && |r.fields["nodes"].elems| == |f["nodes"].elems|
        && forall i :: 0 <= i < |f["nodes"].elems| ==> ScrubDetails(f["nodes"].elems[i]) == Some(r.fields["nodes"].elems[i]))
      && ("overview" in f ==> ScrubDetails(f["overview"]) == Some(r.fields["overview"]))
  {
  }

  /**
   * Scrubbing an object throws exactly when one of its items is null or
   * scrubbing one of its nodes or its overview throws.
   */
  lemma {:induction false} ScrubDetailsThrows(d: Value)
    requires d.Obj?
    ensures var f := d.fields;
      ScrubDetails(d).None? <==>
        || ("items" in f && f["items"].Arr? && ScrubItems(f["items"].elems).None?)
        || ("nodes" in f && f["nodes"].Arr? && exists i :: 0 <= i < |f["nodes"].elems| && ScrubDetails(f["nodes"].elems[i]).None?)
        || ("overview" in f && ScrubDetails(f["overview"]).None?)
  {
    var f := d.fields;
    var items := if "items" in f && f["items"].Arr? then ScrubItems(f["items"].elems) else Some([]);
    var nodes := if "nodes" in f && f["nodes"].Arr? then
        var ns := f["nodes"].elems; AllSome(seq(|ns|, i requires 0 <= i < |ns| => ScrubDetails(ns[i])))
      else Some([]);
    var overview := if "overview" in f && Truthy(f["overview"]) then ScrubDetails(f["overview"]) else Some(Null);
    assert ScrubDetails(d).None? <==> items.None? || nodes.None? || overview.None?;
    if "nodes" in f && f["nodes"].Arr? {
      var ns := f["nodes"].elems;
      var xs := seq(|ns|, i requires 0 <= i < |ns| => ScrubDetails(ns[i]));
      assert nodes == AllSome(xs);
      assert nodes.None? <==> exists i :: 0 <= i < |ns| && xs[i].None?;
      assert forall i :: 0 <= i < |ns| ==> xs[i] == ScrubDetails(ns[i]);
    }
    if "overview" in f && !Truthy(f["overview"]) {
      assert !f["overview"].Obj?;
    }
  }

  /** After scrubbing, no item reachable through `nodes` and `overview` holds image data. */
  lemma {:induction false} ScrubDetailsCleans(d: Value)
    requires ScrubDetails(d).Some?
    ensures DetailsClean(ScrubDetails(d).value)
    decreases d
  {
    if d.Obj? {
      var f := d.fields;
      var r := ScrubDetails(d).value;
      ScrubDetailsShape(d);
      if "nodes" in f && f["nodes"].Arr? {
        var ns := f["nodes"].elems;
        forall i | 0 <= i < |ns| ensures DetailsClean(r.fields["nodes"].elems[i]) {
          ScrubDetailsCleans(ns[i]);
        }
      }
      if "overview" in f {
        ScrubDetailsCleans(f["overview"]);
      }
    }
  }

  /** Scrubbing throws exactly when a reachable item is null. */
  lemma {:induction false} ScrubDetailsFails(d: Value)
    ensures ScrubDetails(d).None? <==> HasNullItem(d)
    decreases d
  {
    if d.Obj? {
      var f := d.fields;
      ScrubDetailsThrows(d);
      if "items" in f && f["items"].Arr? {
        assert ScrubItems(f["items"].elems).None? <==> exists i :: 0 <= i < |f["items"].elems| && f["items"].elems[i] == Null;
      }
      if "nodes" in f && f["nodes"].Arr? {
        var ns := f["nodes"].elems;
        forall i | 0 <= i < |ns| ensures ScrubDetails(ns[i]).None? <==> HasNullItem(ns[i]) {
          ScrubDetailsFails(ns[i]);
        }
      }
      if "overview" in f {
        ScrubDetailsFails(f["overview"]);
      }
    }
  }

  /** Scrubbing leaves no null item behind. */
  lemma {:induction false} ScrubbedHasNoNullItem(d: Value)
    requires ScrubDetails(d).Some?
    ensures !HasNullItem(ScrubDetails(d).value)
    decreases d
  {
    if d.Obj? {
      var f := d.fields;
      var r := ScrubDetails(d).value;
      ScrubDetailsShape(d);
      if "nodes" in f && f["nodes"].Arr? {
        var ns := f["nodes"].elems;
        forall i | 0 <= i < |ns| ensures !HasNullItem(r.fields["nodes"].elems[i]) {
          ScrubbedHasNoNullItem(ns[i]);
        }
      }
      if "overview" in f {
        ScrubbedHasNoNullItem(f["overview"]);
      }
    }
  }

  // ---------------------------------------------------------------------
  // The report
  // ---------------------------------------------------------------------

  /**
   * The report text, as far as the pipeline looks into it: JSON that parses
   * to a value, or text that does not parse.
   */
  datatype RawReport = Parsed(value: Value) | Unparsable(text: string)

  /** Scrubs the details of one audit, when it has truthy details. */
  function ScrubAudit(aud: Value): Option<Value>
  {
    if aud.Obj? && "details" in aud.fields && Truthy(aud.fields["details"]) then
      match ScrubDetails(aud.fields["details"])
      case None => None
      case Some(d) => Some(Obj(aud.fields["details" := d]))
    else Some(aud)
  }

  /** An audit whose details, if any, hold no image data in their items. */
  predicate AuditClean(aud: Value)
  {
    aud.Obj? && "details" in aud.fields ==> DetailsClean(aud.fields["details"])
  }

  /** The three screenshot audit ids, as a set. */
  const ScreenshotIds: set<string> := set id | id in ScreenshotAudits

  /**
   * Deleting the screenshot audits from a truthy `audits` of a truthy report
   * and scrubbing every remaining audit; `None` is a TypeError on the way.
   * Audits given as an array have nothing to delete, only elements to scrub.
   */
  function StripAudits(obj: Value): Option<Value>
  {
    if obj.Obj? && "audits" in obj.fields && Truthy(obj.fields["audits"]) then
      match obj.fields["audits"]
      case Obj(a) =>
        var kept := a - ScreenshotIds;
        if exists k :: k in kept && ScrubAudit(kept[k]).None? then None
        else Some(Obj(obj.fields["audits" := Obj(map k | k in kept :: ScrubAudit(kept[k]).value)]))
      case Arr(es) =>
        (match AllSome(seq(|es|, i requires 0 <= i < |es| => ScrubAudit(es[i])))
         case None => None
         case Some(scrubbed) => Some(Obj(obj.fields["audits" := Arr(scrubbed)])))
      case _ => Some(obj)
    else Some(obj)
  }

  /**
   * The screenshot removal applied to the report when screenshots are not
   * wanted: a report that does not parse, or whose processing throws, is
   * kept as it is.
   */
  function StripScreenshots(raw: RawReport): (r: RawReport)
    ensures raw.Unparsable? ==> r == raw
    ensures r.Unparsable? <==> raw.Unparsable?
  {
    match raw
    case Unparsable(_) => raw
    case Parsed(v) =>
      match StripAudits(v)
      case Some(v') => Parsed(v')
      case None => raw
  }

  /** A scrubbed audit keeps its members and has clean details. */
  lemma {:induction false} ScrubAuditCleans(aud: Value)
    requires ScrubAudit(aud).Some?
    ensures AuditClean(ScrubAudit(aud).value)
    ensures aud.Obj? ==> ScrubAudit(aud).value.Obj? && ScrubAudit(aud).value.fields.Keys == aud.fields.Keys
  {
    if aud.Obj? && "details" in aud.fields && Truthy(aud.fields["details"]) {
      ScrubDetailsCleans(aud.fields["details"]);
    }
  }

  /**
   * When the report's `audits` is an object and processing does not throw,
   * the screenshot audits are gone, every other audit is still there with
   * clean details, and every other member of the report is untouched.
   */
  lemma {:induction false} StripRemovesScreenshots(obj: Value)
    requires obj.Obj? && "audits" in obj.fields && obj.fields["audits"].Obj?
    requires StripAudits(obj).Some?
    ensures var r := StripAudits(obj).value;
      && r.Obj? && r.fields.Keys == obj.fields.Keys
      && (forall k :: k in obj.fields && k != "audits" ==> r.fields[k] == obj.fields[k])
      && r.fields["audits"].Obj?
      && r.fields["audits"].fields.Keys == obj.fields["audits"].fields.Keys - ScreenshotIds
      && (forall id :: id in ScreenshotAudits ==> id !in r.fields["audits"].fields)
      && (forall k :: k in r.fields["audits"].fields ==> AuditClean(r.fields["audits"].fields[k]))
  {
    var a := obj.fields["audits"].fields;
    var kept := a - ScreenshotIds;
    forall k | k in kept ensures AuditClean(ScrubAudit(kept[k]).value) {
      ScrubAuditCleans(kept[k]);
    }
  }

  /** The engine's answer: its result object (`lhr`) and its report text, either of which may be missing. */
  datatype LhResult = LhResult(lhr: Option<Value>, report: Option<RawReport>)

  /** The engine, called with the page URL and the options; `Err` is a throw. */
  type Engine = (string, LhOptions) -> Result<LhResult, string>

  datatype LighthouseRunOutput = LighthouseRunOutput(categories: map<string, Score>, rawReport: RawReport)

  /**
   * `report || JSON.stringify(result?.lhr ?? {})`: the engine's report text
   * when it is there and not empty, the result object otherwise (an empty
   * object when that is missing or null).
   */
  function RawReportOf(result: LhResult): (raw: RawReport)
    ensures result.report.Some? && result.report.value != Unparsable("") ==> raw == result.report.value
    ensures raw != Unparsable("")
    ensures result.report.None? || result.report.value == Unparsable("") ==>
      && raw.Parsed?
      && (result.lhr.Some? && result.lhr.value != Null ==> raw.value == result.lhr.value)
      && (result.lhr.None? || result.lhr.value == Null ==> raw.value == Obj(map[]))
  {
    if result.report.Some? && result.report.value != Unparsable("") then result.report.value
    else Parsed(if result.lhr.None? || result.lhr.value == Null then Obj(map[]) else result.lhr.value)
  }

  /** An empty report text is falsy, so the result object is written in its place. */
  lemma {:induction false} EmptyReportFallsBack(lhr: Value)
    requires lhr != Null
    ensures RawReportOf(LhResult(Some(lhr), Some(Unparsable("")))) == Parsed(lhr)
    ensures RawReportOf(LhResult(None, Some(Unparsable("")))) == Parsed(Obj(map[]))
  {
  }

  /** The normalised categories of a result object with truthy `categories`; none otherwise. */
  function CategoriesOf(lhr: Option<Value>): Result<map<string, Score>, string>
  {
    if lhr.Some? && Truthy(GetOrNull(lhr.value, "categories")) then
      var c := GetOrNull(lhr.value, "categories");
      NormalisedCategories(if c.Obj? then c.fields else map[])
    else Ok(map[])
  }

  /** What `runLighthouseAudit` returns, or the error it throws. */
  function LighthouseAudit(
    url: string, categories: Option<seq<string>>, includeScreenshots: bool, skipHeavyAudits: bool,
    chrome: Result<nat, string>, engine: Engine): Result<LighthouseRunOutput, string>
  {
    match chrome
    case Err(e) => Err(e)
    case Ok(port) =>
      match engine(url, OptionsFor(port, categories, includeScreenshots, skipHeavyAudits))
      case Err(e) => Err(e)
      case Ok(result) =>
        match CategoriesOf(result.lhr)
        case Err(e) => Err(e)
        case Ok(cats) =>
          var raw := RawReportOf(result);
          Ok(LighthouseRunOutput(cats, if includeScreenshots then raw else StripScreenshots(raw)))
  }

  /**
   * `runLighthouseAudit` with Chrome's launch outcome (its port, or the
   * error) and the engine as parameters.
   */
  method RunLighthouseAudit(
    url: string, categories: Option<seq<string>>, includeScreenshots: bool, skipHeavyAudits: bool,
    chrome: Result<nat, string>, engine: Engine)
    returns (r: Result<LighthouseRunOutput, string>)
    ensures r == LighthouseAudit(url, categories, includeScreenshots, skipHeavyAudits, chrome, engine)
  {
    if chrome.Err? {
      return Err(chrome.error);
    }
    var opts := BuildOptions(chrome.value, categories, includeScreenshots, skipHeavyAudits);
    var result := engine(url, opts);
    if result.Err? {
      return Err(result.error);
    }
    var lhr := result.value.lhr;
    var cats: map<string, Score> := map[];
    if lhr.Some? && Truthy(GetOrNull(lhr.value, "categories")) {
      var c := GetOrNull(lhr.value, "categories");
      var normalised := NormaliseCategories(if c.Obj? then c.fields else map[]);
      if normalised.Err? {
        return Err(normalised.error);
      }
      cats := normalised.value;
    }
    var raw := RawReportOf(result.value);
    if !includeScreenshots {
      raw := StripScreenshots(raw);
    }
    r := Ok(LighthouseRunOutput(cats, raw));
  }

  /** With screenshots included, the report is passed on as the engine wrote it. */
  lemma {:induction false} ScreenshotsIncludedKeepReport(
    url: string, categories: Option<seq<string>>, skipHeavyAudits: bool, port: nat, engine: Engine)
    requires engine(url, OptionsFor(port, categories, true, skipHeavyAudits)).Ok?
    requires LighthouseAudit(url, categories, true, skipHeavyAudits, Ok(port), engine).Ok?
    ensures LighthouseAudit(url, categories, true, skipHeavyAudits, Ok(port), engine).value.rawReport
      == RawReportOf(engine(url, OptionsFor(port, categories, true, skipHeavyAudits)).value)
  {
  }
}
