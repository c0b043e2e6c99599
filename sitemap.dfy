/**
 * The sitemap helpers: turning configured paths into absolute URLs, deriving
 * the sitemap's URL, and the lightweight `<loc>` extractor, which runs the
 * global, case-insensitive regular expression `<loc>([^<]+)</loc>` over the
 * file text and keeps the trimmed, non-blank captures.
 */
module Sitemap {
  import opened Wrappers
  import opened Text
  import opened Seqs

  /** `baseUrl.replace(/\/$/, '') + '/sitemap.xml'`: where the discovered sitemap is served. */
  function SitemapUrl(baseUrl: string): (url: string)
    ensures |url| == |StripTrailingSlash(baseUrl)| + 12
    ensures url[..|url| - 12] == StripTrailingSlash(baseUrl)
    ensures url[|url| - 12..] == "/sitemap.xml"
    ensures baseUrl != [] && baseUrl[|baseUrl| - 1] == '/' ==> url == baseUrl[..|baseUrl| - 1] + "/sitemap.xml"
    ensures (baseUrl == [] || baseUrl[|baseUrl| - 1] != '/') ==> url == baseUrl + "/sitemap.xml"
  {
    StripTrailingSlash(baseUrl) + "/sitemap.xml"
  }

  /**
   * `discoverSitemap`: the sitemap's URL when `sitemap.xml` exists in the
   * build directory, nothing otherwise.
   */
  function DiscoverSitemap(sitemapExists: bool, baseUrl: string): (r: Option<string>)
    ensures r.Some? <==> sitemapExists
    ensures r.Some? ==> r.value == SitemapUrl(baseUrl)
  {
    if sitemapExists then Some(SitemapUrl(baseUrl)) else None
  }

  /**
   * `urlsFromPaths`: one URL per path, in order; each is the base without one
   * trailing slash, then `/`, then the path without its own leading slash.
   */
  function UrlsFromPaths(baseUrl: string, paths: seq<string>): (urls: seq<string>)
    ensures |urls| == |paths|
    ensures forall i :: 0 <= i < |paths| ==>
      var base := StripTrailingSlash(baseUrl);
      && StartsWith(urls[i], base)
      && urls[i][|base|..] == EnsureLeadingSlash(paths[i])
  {
    var base := StripTrailingSlash(baseUrl);
    seq(|paths|, i requires 0 <= i < |paths| => base + EnsureLeadingSlash(paths[i]))
  }

  /** The worked example: both the base's trailing slash and each path's leading slash are normalised. */
  lemma UrlsFromPathsExample()
    ensures UrlsFromPaths("http://x/", ["/", "about"]) == ["http://x/", "http://x/about"]
  {
    var urls := UrlsFromPaths("http://x/", ["/", "about"]);
    assert StripTrailingSlash("http://x/") == "http://x";
    assert EnsureLeadingSlash("/") == "/";
    assert !StartsWith("about", "/") by { assert "about"[0] == 'a'; }
    assert EnsureLeadingSlash("about") == "/about";
    assert urls[0] == "http://x/";
    assert urls[1] == "http://x/about";
    assert urls == [urls[0], urls[1]];
  }

  /** Only one trailing slash of the base is removed: a doubled slash survives once. */
  lemma UrlsFromPathsStripsOneSlash()
    ensures UrlsFromPaths("http://x//", ["a"]) == ["http://x//a"]
  {
    var urls := UrlsFromPaths("http://x//", ["a"]);
    assert StripTrailingSlash("http://x//") == "http://x/";
    assert !StartsWith("a", "/") by { assert "a"[0] == 'a'; }
    assert EnsureLeadingSlash("a") == "/a";
    assert urls[0] == "http://x//a";
  }

  // ---------------------------------------------------------------------
  // The `<loc>` extractor
  // ---------------------------------------------------------------------

  /**
   * `s` begins with `tag`, ignoring ASCII case. A regular expression with the
   * `i` flag and without `u` folds case here only between ASCII letters: a
   * non-ASCII character whose upper case is ASCII does not match a letter.
   */
  predicate TagAtStart(s: string, tag: string)
  {
    |tag| <= |s| && forall k :: 0 <= k < |tag| ==> LowerChar(s[k]) == tag[k]
  }

  /** A tag found at the start of `s` is still there when more text follows. */
  lemma {:induction false} TagAtStartAppend(s: string, more: string, tag: string)
    requires TagAtStart(s, tag)
    ensures TagAtStart(s + more, tag)
  {
    forall k | 0 <= k < |tag| ensures LowerChar((s + more)[k]) == tag[k] {
      assert (s + more)[k] == s[k];
    }
  }

  /** Both tags begin with `<`, which has no other case: a tag at the start means a `<` there. */
  lemma {:induction false} TagAtStartOpens(s: string, tag: string)
    requires tag != [] && tag[0] == '<' && TagAtStart(s, tag)
    ensures s[0] == '<'
  {
    assert LowerChar(s[0]) == tag[0];
  }

  /** The tags written in lower case are found as they are. */
  lemma TagsAreLowerCase()
    ensures TagAtStart("<loc>", "<loc>") && TagAtStart("</loc>", "</loc>")
  {
  }

  /** The position of the first `<` at or after `i`, or `|s|` when there is none. */
  function NextOpen(s: string, i: nat): (j: nat)
    requires i <= |s|
    ensures i <= j <= |s|
    ensures j < |s| ==> s[j] == '<'
    decreases |s| - i
  {
    if i == |s| || s[i] == '<' then i else NextOpen(s, i + 1)
  }

  /** Nothing before the position `NextOpen` finds is a `<`. */
  lemma {:induction false} NextOpenFirst(s: string, i: nat)
    requires i <= |s|
    ensures forall k :: i <= k < NextOpen(s, i) ==> s[k] != '<'
    decreases |s| - i
  {
    if i < |s| && s[i] != '<' {
      NextOpenFirst(s, i + 1);
    }
  }

  /** `NextOpen` finds `j` when no `<` comes before it and a `<` or the end is at `j`. */
  lemma {:induction false} NextOpenAt(s: string, i: nat, j: nat)
    requires i <= j <= |s|
    requires forall k :: i <= k < j ==> s[k] != '<'
    requires j == |s| || s[j] == '<'
    ensures NextOpen(s, i) == j
    decreases j - i
  {
    if i < j {
      NextOpenAt(s, i + 1, j);
    }
  }

  /**
   * The regular expression matched at the very start of `s`: `<loc>`, then the
   * greedy `[^<]+` (which can only give way at the next `<`), then `</loc>`.
   * The result is where the captured body ends.
   */
  function MatchStart(s: string): (q: Option<nat>)
    ensures q.Some? ==> 5 < q.value && q.value + 6 <= |s|
  {
    if TagAtStart(s, "<loc>") then
      var q := NextOpen(s, 5);
      if q > 5 && TagAtStart(s[q..], "</loc>") then Some(q) else None
    else None
  }

  /** Only a string that begins with `<` can begin a match. */
  lemma {:induction false} MatchStartNeedsOpen(s: string)
    requires s == [] || s[0] != '<'
    ensures MatchStart(s).None?
  {
    if |s| >= 5 {
    }
  }

  /** A position that does not hold `<` starts no match. */
  lemma {:induction false} NoMatchWithoutOpen(x: string, k: nat)
    requires k < |x| && x[k] != '<'
    ensures MatchStart(x[k..]).None?
  {
    MatchStartNeedsOpen(x[k..]);
  }

  /**
   * A match at the start is exactly an opening tag, a non-empty body free of
   * `<`, and a closing tag right after the body.
   */
  lemma {:induction false} MatchStartShape(s: string, q: nat)
    ensures MatchStart(s) == Some(q) <==>
      && TagAtStart(s, "<loc>") && 5 < q <= |s| && TagAtStart(s[q..], "</loc>")
      && forall k :: 5 <= k < q ==> s[k] != '<'
  {
    if MatchStart(s) == Some(q) {
      MatchStartSound(s, q);
    }
    if && TagAtStart(s, "<loc>") && 5 < q <= |s| && TagAtStart(s[q..], "</loc>")
       && forall k :: 5 <= k < q ==> s[k] != '<'
    {
      MatchStartComplete(s, q);
    }
  }

  /** A match at the start has the shape of one. */
  lemma {:induction false} MatchStartSound(s: string, q: nat)
    requires MatchStart(s) == Some(q)
    ensures TagAtStart(s, "<loc>") && 5 < q <= |s| && TagAtStart(s[q..], "</loc>")
    ensures forall k :: 5 <= k < q ==> s[k] != '<'
  {
    NextOpenFirst(s, 5);
  }

  /** Text with the shape of a match is matched at the start. */
  lemma {:induction false} MatchStartComplete(s: string, q: nat)
    requires TagAtStart(s, "<loc>") && 5 < q <= |s| && TagAtStart(s[q..], "</loc>")
    requires forall k :: 5 <= k < q ==> s[k] != '<'
    ensures MatchStart(s) == Some(q)
  {
    TagAtStartOpens(s[q..], "</loc>");
    NextOpenAt(s, 5, q);
  }

  /** One successful `exec`: where the match starts and the new `lastIndex`, just past `</loc>`. */
  datatype LocMatch = LocMatch(index: nat, lastIndex: nat)

  /** The text the group `([^<]+)` captured in match `m` of `xml`: what lies between the two tags. */
  function Captured(xml: string, m: LocMatch): (body: string)
    requires m.index + 11 <= m.lastIndex <= |xml|
    ensures |body| == m.lastIndex - m.index - 11
  {
    xml[m.index + 5..m.lastIndex - 6]
  }

  /**
   * `locRegex.exec(xml)` with `lastIndex` as the regular expression's state:
   * the leftmost match starting at or after `lastIndex`, or none.
   */
  function Exec(xml: string, lastIndex: nat): (m: Option<LocMatch>)
    ensures m.Some? ==> lastIndex <= m.value.index && m.value.index + 11 <= m.value.lastIndex <= |xml|
    decreases |xml| - lastIndex
  {
    if lastIndex >= |xml| then None
    else
      var q := MatchStart(xml[lastIndex..]);
      if q.Some? then Some(LocMatch(lastIndex, lastIndex + q.value + 6))
      else Exec(xml, lastIndex + 1)
  }

  /** What `exec` finds is a match of the regular expression at the index it reports. */
  lemma {:induction false} ExecFindsMatch(xml: string, lastIndex: nat, m: LocMatch)
    requires Exec(xml, lastIndex) == Some(m)
    ensures MatchStart(xml[m.index..]) == Some(m.lastIndex - 6 - m.index)
    decreases |xml| - lastIndex
  {
    match MatchStart(xml[lastIndex..])
    case Some(q) =>
      assert m == LocMatch(lastIndex, lastIndex + q + 6);
    case None =>
      ExecFindsMatch(xml, lastIndex + 1, m);
  }

  /**
   * `exec` finds the leftmost match: no position from `lastIndex` up to the
   * reported index starts one, nor any position from `lastIndex` on when it
   * reports none.
   */
  lemma {:induction false} ExecLeftmost(xml: string, lastIndex: nat, p: nat)
    requires lastIndex <= p <= |xml|
    requires Exec(xml, lastIndex).None? || p < Exec(xml, lastIndex).value.index
    ensures MatchStart(xml[p..]).None?
    decreases |xml| - lastIndex
  {
    if lastIndex == |xml| {
      MatchStartNeedsOpen(xml[p..]);
    } else if MatchStart(xml[lastIndex..]).None? && lastIndex < p {
      ExecLeftmost(xml, lastIndex + 1, p);
    }
  }

  /**
   * The bodies the global regular expression captures in `s`, in document
   * order: a match at the start contributes its body and scanning resumes after
   * `</loc>`; otherwise scanning moves on by one character.
   */
  function Captures(s: string): seq<string>
    decreases |s|
  {
    if s == [] then []
    else
      match MatchStart(s)
      case Some(q) => [s[5..q]] + Captures(s[q + 6..])
      case None => Captures(s[1..])
  }

  /** What one capture contributes: its body, trimmed, unless that is empty. */
  function Kept(body: string): (r: seq<string>)
    ensures |r| <= 1
    ensures r == [] <==> AllSpace(body)
  {
    var url := Trim(body);
    if url != [] then [url] else []
  }

  /** The URLs kept from a sequence of captures, in order. */
  function KeepAll(bodies: seq<string>): seq<string>
  {
    if bodies == [] then [] else Kept(bodies[0]) + KeepAll(bodies[1..])
  }

  /** The URLs `parseSitemapLocs` returns for a sitemap whose text is `xml`. */
  function SitemapLocs(xml: string): seq<string>
  {
    KeepAll(Captures(xml))
  }

  /**
   * One call of `exec` consumes exactly the captures of the text from
   * `lastIndex` on up to its match: the first capture is the match's body and
   * the rest are those after its `lastIndex`; no match means no captures.
   */
  lemma {:induction false} ExecCaptures(xml: string, lastIndex: nat)
    requires lastIndex <= |xml|
    ensures match Exec(xml, lastIndex)
      case None => Captures(xml[lastIndex..]) == []
      case Some(m) => Captures(xml[lastIndex..]) == [Captured(xml, m)] + Captures(xml[m.lastIndex..])
    decreases |xml| - lastIndex
  {
    var s := xml[lastIndex..];
    if lastIndex < |xml| {
      match MatchStart(s)
      case Some(q) =>
        var m := LocMatch(lastIndex, lastIndex + q + 6);
        ExecAtMatch(xml, lastIndex, q);
        SuffixSlices(xml, lastIndex, q);
        assert Captured(xml, m) == s[5..q];
        assert xml[m.lastIndex..] == s[q + 6..];
        CapturesAtMatch(s, q);
      case None =>
        SuffixSlices(xml, lastIndex, 0);
        ExecNoMatch(xml, lastIndex);
        CapturesNoMatch(s);
        ExecCaptures(xml, lastIndex + 1);
    }
  }

  /** Where a match starts at `lastIndex`, `exec` reports it. */
  lemma {:induction false} ExecAtMatch(xml: string, lastIndex: nat, q: nat)
    requires lastIndex < |xml| && MatchStart(xml[lastIndex..]) == Some(q)
    ensures Exec(xml, lastIndex) == Some(LocMatch(lastIndex, lastIndex + q + 6))
  {
  }

  /** Where it does not, `exec` answers as it would from the next position. */
  lemma {:induction false} ExecNoMatch(xml: string, lastIndex: nat)
    requires lastIndex < |xml| && MatchStart(xml[lastIndex..]).None?
    ensures Exec(xml, lastIndex) == Exec(xml, lastIndex + 1)
  {
  }

  /** A match at the start contributes its body, and scanning resumes after `</loc>`. */
  lemma {:induction false} CapturesAtMatch(s: string, q: nat)
    requires MatchStart(s) == Some(q)
    ensures Captures(s) == [s[5..q]] + Captures(s[q + 6..])
  {
  }

  /** Where no match starts, scanning moves on by one character. */
  lemma {:induction false} CapturesNoMatch(s: string)
    requires s != [] && MatchStart(s).None?
    ensures Captures(s) == Captures(s[1..])
  {
  }

  /** Slices of a suffix are slices of the whole text, shifted. */
  lemma {:induction false} SuffixSlices(xml: string, i: nat, q: nat)
    requires i < |xml|
    ensures xml[i..][1..] == xml[i + 1..]
    ensures 5 <= q && i + q + 6 <= |xml| ==>
      xml[i..][5..q] == xml[i + 5..i + q] && xml[i..][q + 6..] == xml[i + q + 6..]
  {
  }

  /** The URLs the extraction loop collects once `exec` has advanced to `lastIndex`. */
  function LocsFrom(xml: string, lastIndex: nat): seq<string>
    decreases |xml| - lastIndex
  {
    match Exec(xml, lastIndex)
    case None => []
    case Some(m) => Kept(Captured(xml, m)) + LocsFrom(xml, m.lastIndex)
  }

  /** What the loop collects from `lastIndex` on is what the text from there holds. */
  lemma {:induction false} LocsFromCaptures(xml: string, lastIndex: nat)
    requires lastIndex <= |xml|
    ensures LocsFrom(xml, lastIndex) == KeepAll(Captures(xml[lastIndex..]))
    decreases |xml| - lastIndex
  {
    ExecCaptures(xml, lastIndex);
    match Exec(xml, lastIndex)
    case None =>
    case Some(m) =>
      LocsFromCaptures(xml, m.lastIndex);
      var rest := Captures(xml[m.lastIndex..]);
      assert ([Captured(xml, m)] + rest)[1..] == rest;
  }

  /** The loop body's `const url = match[1].trim(); if (url) urls.push(url);`. */
  method PushTrimmed(urls: seq<string>, body: string) returns (urls': seq<string>)
    ensures urls' == urls + Kept(body)
  {
    var url := Trim(body);
    if url != [] {
      urls' := urls + [url];
    } else {
      urls' := urls;
    }
  }

  /**
   * `parseSitemapLocs` after the file is read: call `exec` until it finds no
   * more matches, pushing each trimmed, non-blank body.
   */
  method ParseSitemapLocs(xml: string) returns (urls: seq<string>)
    ensures urls == SitemapLocs(xml)
  {
    urls := [];
    var lastIndex := 0;
    var found := Exec(xml, lastIndex);
    while found.Some?
      invariant found == Exec(xml, lastIndex)
      invariant urls + LocsFrom(xml, lastIndex) == LocsFrom(xml, 0)
      decreases |xml| - lastIndex
    {
      var body := Captured(xml, found.value);
      LocsFromStep(xml, lastIndex, found.value);
      AppendAssoc(urls, Kept(body), LocsFrom(xml, found.value.lastIndex));
      urls := PushTrimmed(urls, body);
      lastIndex := found.value.lastIndex;
      found := Exec(xml, lastIndex);
    }
    LocsFromDone(xml, lastIndex);
    LocsFromStart(xml);
    assert urls + [] == urls;
  }

  /** The loop, started at index 0, collects what `SitemapLocs` describes. */
  lemma LocsFromStart(xml: string)
    ensures LocsFrom(xml, 0) == SitemapLocs(xml)
  {
    LocsFromCaptures(xml, 0);
    assert xml[0..] == xml;
  }

  /** A match found by `exec` contributes its kept body ahead of what follows it. */
  lemma {:induction false} LocsFromStep(xml: string, lastIndex: nat, m: LocMatch)
    requires Exec(xml, lastIndex) == Some(m)
    ensures LocsFrom(xml, lastIndex) == Kept(Captured(xml, m)) + LocsFrom(xml, m.lastIndex)
  {
  }

  /** Once `exec` finds nothing, nothing more is collected. */
  lemma {:induction false} LocsFromDone(xml: string, lastIndex: nat)
    requires Exec(xml, lastIndex).None?
    ensures LocsFrom(xml, lastIndex) == []
  {
  }

  /** Every capture is non-empty and free of `<`: the group is `[^<]+`. */
  lemma {:induction false} CapturesWellFormed(s: string)
    ensures forall b :: b in Captures(s) ==> b != [] && '<' !in b
    decreases |s|
  {
    if s != [] {
      match MatchStart(s)
      case Some(q) =>
        CapturesWellFormed(s[q + 6..]);
        MatchStartShape(s, q);
        var body := s[5..q];
        assert '<' !in body by {
          forall k | 0 <= k < |body| ensures body[k] != '<' {
            assert body[k] == s[5 + k];
          }
        }
      case None =>
        CapturesWellFormed(s[1..]);
    }
  }

  /** Kept URLs are non-blank, trimmed, and free of `<` when their captures are. */
  lemma {:induction false} KeepAllWellFormed(bodies: seq<string>)
    requires forall b :: b in bodies ==> '<' !in b
    ensures forall u :: u in KeepAll(bodies) ==> u != [] && '<' !in u && Trimmed(u)
  {
    if bodies != [] {
      assert bodies[0] in bodies;
      assert forall b :: b in bodies[1..] ==> b in bodies;
      KeepAllWellFormed(bodies[1..]);
    }
  }

  /** The extractor never yields an empty URL, one holding `<`, or one with surrounding spaces. */
  lemma {:induction false} SitemapLocsWellFormed(xml: string)
    ensures forall u :: u in SitemapLocs(xml) ==> u != [] && '<' !in u && Trimmed(u)
  {
    CapturesWellFormed(xml);
    KeepAllWellFormed(Captures(xml));
  }

  /** Text in which no position starts a match contributes no capture. */
  lemma {:induction false} CapturesSkip(pre: string, rest: string)
    requires forall k :: 0 <= k < |pre| ==> MatchStart((pre + rest)[k..]).None?
    ensures Captures(pre + rest) == Captures(rest)
  {
    if pre != [] {
      var x := pre + rest;
      assert x[0..] == x;
      assert x[1..] == pre[1..] + rest;
      forall k | 0 <= k < |pre| - 1 ensures MatchStart((pre[1..] + rest)[k..]).None? {
        assert (pre[1..] + rest)[k..] == x[k + 1..];
      }
      CapturesSkip(pre[1..], rest);
    } else {
      assert pre + rest == rest;
    }
  }

  /** Where the parts of an entry lie in its text. */
  lemma {:induction false} EntryParts(open: string, body: string, close: string, rest: string)
    requires |open| == 5 && |close| == 6 && '<' !in body
    ensures var x := open + body + close + rest; var q := 5 + |body|;
      && x == open + (body + close + rest)
      && x[q..] == close + rest
      && x[5..q] == body
      && x[q + 6..] == rest
      && forall k :: 5 <= k < q ==> x[k] != '<'
  {
    var x := open + body + close + rest;
    var q := 5 + |body|;
    forall k | 5 <= k < q ensures x[k] != '<' {
      assert x[k] == body[k - 5];
    }
  }

  /** An entry at the start of the text is a match whose body ends where the closing tag begins. */
  lemma {:induction false} EntryMatches(open: string, body: string, close: string, rest: string)
    requires |open| == 5 && TagAtStart(open, "<loc>")
    requires |close| == 6 && TagAtStart(close, "</loc>")
    requires body != [] && '<' !in body
    ensures MatchStart(open + body + close + rest) == Some(5 + |body|)
  {
    var x := open + body + close + rest;
    var q := 5 + |body|;
    EntryParts(open, body, close, rest);
    TagAtStartAppend(open, body + close + rest, "<loc>");
    TagAtStartAppend(close, rest, "</loc>");
    MatchStartShape(x, q);
  }

  /**
   * One entry: an opening tag in any letter case, a non-empty body without `<`,
   * and a closing tag in any letter case are captured as the body, and
   * extraction carries on after the closing tag.
   */
  lemma {:induction false} CapturesEntry(open: string, body: string, close: string, rest: string)
    requires |open| == 5 && TagAtStart(open, "<loc>")
    requires |close| == 6 && TagAtStart(close, "</loc>")
    requires body != [] && '<' !in body
    ensures Captures(open + body + close + rest) == [body] + Captures(rest)
  {
    EntryMatches(open, body, close, rest);
    EntryParts(open, body, close, rest);
  }

  /** The extractor keeps the trimmed body of an entry, when it is not blank, and goes on after it. */
  lemma {:induction false} SitemapLocsEntry(open: string, body: string, close: string, rest: string)
    requires |open| == 5 && TagAtStart(open, "<loc>")
    requires |close| == 6 && TagAtStart(close, "</loc>")
    requires body != [] && '<' !in body
    ensures SitemapLocs(open + body + close + rest) == Kept(body) + SitemapLocs(rest)
  {
    CapturesEntry(open, body, close, rest);
    assert ([body] + Captures(rest))[1..] == Captures(rest);
  }

  /** Text that holds no `<` never starts a match and contributes nothing. */
  lemma {:induction false} TagFreeTextIgnored(junk: string, rest: string)
    requires '<' !in junk
    ensures SitemapLocs(junk + rest) == SitemapLocs(rest)
  {
    forall k | 0 <= k < |junk| ensures MatchStart((junk + rest)[k..]).None? {
      assert (junk + rest)[k..][0] == junk[k];
      MatchStartNeedsOpen((junk + rest)[k..]);
    }
    CapturesSkip(junk, rest);
  }

  /** An entry with an empty body, `<loc></loc>`, is skipped. */
  lemma {:induction false} EmptyEntrySkipped(rest: string)
    ensures SitemapLocs("<loc></loc>" + rest) == SitemapLocs(rest)
  {
    var pre := "<loc></loc>";
    var x := pre + rest;
    forall k | 0 <= k < |pre| ensures MatchStart(x[k..]).None? {
      var s := x[k..];
      assert s[0] == pre[k];
      if k == 0 {
        assert NextOpen(s, 5) == 5 by {
          assert s[5] == '<';
        }
      } else if k == 5 {
        assert !TagAtStart(s, "<loc>") by {
          assert s[1] == '/';
        }
      } else {
        MatchStartNeedsOpen(s);
      }
    }
    CapturesSkip(pre, rest);
  }

  /** An opening tag whose body runs into a `<` that is not `</loc>`, or into the end, starts no match. */
  lemma {:induction false} UnclosedNoMatch(body: string, rest: string)
    requires '<' !in body
    requires rest == [] || rest[0] == '<'
    requires !TagAtStart(rest, "</loc>")
    ensures MatchStart("<loc>" + body + rest).None?
  {
    var s := "<loc>" + body + rest;
    var n := 5 + |body|;
    forall j | 5 <= j < n ensures s[j] != '<' {
      assert s[j] == body[j - 5];
    }
    if rest != [] {
      assert s[n] == rest[0];
    }
    NextOpenAt(s, 5, n);
    assert s[n..] == rest;
  }

  /**
   * An opening tag whose tag-free body is followed by a `<` that does not begin
   * `</loc>`, or by the end of the text, is skipped, and scanning resumes at
   * that `<`.
   */
  lemma {:induction false} UnclosedEntrySkipped(body: string, rest: string)
    requires '<' !in body
    requires rest == [] || rest[0] == '<'
    requires !TagAtStart(rest, "</loc>")
    ensures SitemapLocs("<loc>" + body + rest) == SitemapLocs(rest)
  {
    var pre := "<loc>" + body;
    var x := pre + rest;
    forall k | 0 <= k < |pre| ensures MatchStart(x[k..]).None? {
      if k == 0 {
        assert x[k..] == "<loc>" + body + rest;
        UnclosedNoMatch(body, rest);
      } else {
        if k < 5 {
          assert x[k] == "<loc>"[k];
        } else {
          assert x[k] == body[k - 5];
        }
        NoMatchWithoutOpen(x, k);
      }
    }
    CapturesSkip(pre, rest);
  }

  /** A non-blank, trimmed body is kept as it is. */
  lemma {:induction false} KeptTrimmed(body: string)
    requires body != [] && Trimmed(body)
    ensures Kept(body) == [body]
  {
  }

  /** The text of a sitemap listing `urls`, one `<loc>` element each. */
  function Render(urls: seq<string>): string
  {
    if urls == [] then [] else "<loc>" + urls[0] + "</loc>" + Render(urls[1..])
  }

  /** The first rendered URL is extracted first, and the rest after it. */
  lemma {:induction false} RenderFirst(u: string, more: seq<string>)
    requires u != [] && '<' !in u
    ensures SitemapLocs(Render([u] + more)) == Kept(u) + SitemapLocs(Render(more))
  {
    assert ([u] + more)[1..] == more;
    TagsAreLowerCase();
    SitemapLocsEntry("<loc>", u, "</loc>", Render(more));
  }

  /**
   * Round trip: URLs that are non-empty, free of `<` and already trimmed are
   * extracted back, all of them and in document order.
   */
  lemma {:induction false} RenderRoundTrip(urls: seq<string>)
    requires forall u :: u in urls ==> u != [] && '<' !in u && Trimmed(u)
    ensures SitemapLocs(Render(urls)) == urls
  {
    if urls != [] {
      var u, more := urls[0], urls[1..];
      assert urls == [u] + more;
      assert u in urls;
      RenderFirst(u, more);
      assert forall v :: v in more ==> v in urls;
      RenderRoundTrip(more);
      KeptTrimmed(u);
    }
  }
}
