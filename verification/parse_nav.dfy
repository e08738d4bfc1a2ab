/**
  Navigation-link extraction (scripts/parse-nav.ts and scripts/parse-nav.js):
  each `a.contents-table-link` anchor of the saved navigation page is kept
  when it has a non-empty `href` and non-blank text, and its URL is made
  absolute against the documentation site. HTML parsing is not modelled:
  the anchors arrive as a sequence of (href attribute, text content) pairs.
 */
module ParseNav {
  import opened Corpus
  import opened Text
  import Seqs

  /** `anchor.getAttribute("href")` (null when absent) and `anchor.textContent`. */
  datatype Anchor = Anchor(href: Option<string>, text: string)

  /** The `list.json` entry written by parse-nav.ts. */
  datatype LinkData = LinkData(title: string, link: string)

  /** The entry written by parse-nav.js, which also keeps the raw `href`. */
  datatype PathLinkData = PathLinkData(title: string, link: string, path: string)

  /** The JSON written to `list.json` (less its timestamp). */
  datatype OutputData = OutputData(total: nat, links: seq<LinkData>)

  /** The same JSON as parse-nav.js writes it. */
  datatype PathOutputData = PathOutputData(total: nat, links: seq<PathLinkData>)

  const SiteOrigin: string := "https://dev.epicgames.com"

  /** `href && title`: the href is present and non-empty and the trimmed text is non-empty. */
  predicate Keep(a: Anchor) {
    a.href.Some? && a.href.value != "" && Trim(a.text) != ""
  }

  /** `href.startsWith("http") ? href : "https://dev.epicgames.com" + href`. */
  function NormaliseUrl(href: string): (url: string)
    ensures StartsWith(url, "http")
    ensures |href| <= |url| && url[|url| - |href|..] == href
    ensures StartsWith(href, "http") <==> url == href
    ensures !StartsWith(href, "http") ==> url == SiteOrigin + href
  {
    if StartsWith(href, "http") then href
    else
      assert (SiteOrigin + href)[..4] == "http";
      SiteOrigin + href
  }

  /** Normalising an already normalised URL changes nothing. */
  lemma NormaliseIdempotent(href: string)
    ensures NormaliseUrl(NormaliseUrl(href)) == NormaliseUrl(href)
  {
  }

  /** The entry built from an anchor (only ever applied to kept anchors,
      whose href is present). */
  function ToLink(a: Anchor): LinkData {
    LinkData(Trim(a.text), NormaliseUrl(OrEmpty(a.href)))
  }

  /** The `anchors.forEach` loop of parse-nav.ts. */
  function ParseNavigation(anchors: seq<Anchor>): (links: seq<LinkData>)
    ensures |links| <= |anchors|
  {
    Seqs.FilterMap(anchors, Keep, ToLink)
  }

  /** The i-th entry is built from the i-th kept anchor, so the output
      follows anchor order and has one entry per kept anchor. */
  lemma {:induction false} ParseNavigationFollowsKeptAnchors(anchors: seq<Anchor>, i: int)
    ensures |ParseNavigation(anchors)| == |Seqs.Filter(anchors, Keep)|
    ensures 0 <= i < |ParseNavigation(anchors)| ==>
              ParseNavigation(anchors)[i] == ToLink(Seqs.Filter(anchors, Keep)[i])
  {
    Seqs.FilterMapAt(anchors, Keep, ToLink, i);
  }

  /** An entry is emitted for an anchor exactly when the keep rule holds,
      and at most one entry per anchor. */
  lemma {:induction false} ParseNavigationKeepsExactly(anchors: seq<Anchor>)
    ensures forall a :: a in anchors && Keep(a) ==> ToLink(a) in ParseNavigation(anchors)
    ensures |ParseNavigation(anchors)| <= |anchors|
    ensures forall l :: l in ParseNavigation(anchors) ==>
              exists k :: k in anchors && Keep(k) && l == ToLink(k)
  {
    Seqs.FilterMapMembers(anchors, Keep, ToLink);
  }

  /** Extraction works anchor by anchor and never reorders: extracting from
      two runs of anchors is extracting from each and concatenating. */
  lemma {:induction false} ParseNavigationAppend(a: seq<Anchor>, b: seq<Anchor>)
    ensures ParseNavigation(a + b) == ParseNavigation(a) + ParseNavigation(b)
  {
    Seqs.FilterMapAppend(a, b, Keep, ToLink);
  }

  /** Every emitted entry has a trimmed, non-empty title and an absolute URL. */
  lemma ParsedLinksWellFormed(anchors: seq<Anchor>)
    ensures forall l :: l in ParseNavigation(anchors) ==>
              && l.title != "" && Trim(l.title) == l.title
              && StartsWith(l.link, "http")
  {
    ParseNavigationKeepsExactly(anchors);
    forall l | l in ParseNavigation(anchors)
      ensures l.title != "" && Trim(l.title) == l.title && StartsWith(l.link, "http")
    {
      var a :| a in anchors && Keep(a) && l == ToLink(a);
      TrimIdempotent(a.text);
    }
  }

  /** The parse-nav.ts script output: `total` is the number of links. */
  function ParseOutput(anchors: seq<Anchor>): (out: OutputData)
    ensures out.total == |out.links| <= |anchors|
    ensures out.links == ParseNavigation(anchors)
  {
    var links := ParseNavigation(anchors);
    OutputData(|links|, links)
  }

  /** The entry parse-nav.js builds from an anchor. */
  function ToPathLink(a: Anchor): PathLinkData {
    PathLinkData(Trim(a.text), NormaliseUrl(OrEmpty(a.href)), OrEmpty(a.href))
  }

  /** The `anchors.forEach` loop of parse-nav.js. */
  function ParseNavigationWithPath(anchors: seq<Anchor>): (links: seq<PathLinkData>)
    ensures |links| <= |anchors|
  {
    Seqs.FilterMap(anchors, Keep, ToPathLink)
  }

  /** The i-th entry of parse-nav.js comes from the i-th kept anchor: its
      `path` is that anchor's raw href and its `link` the normalised form. */
  lemma {:induction false} PathIsRawHref(anchors: seq<Anchor>, i: int)
    ensures |ParseNavigationWithPath(anchors)| == |Seqs.Filter(anchors, Keep)|
    ensures 0 <= i < |Seqs.Filter(anchors, Keep)| ==>
              var l := ParseNavigationWithPath(anchors)[i];
              var a := Seqs.Filter(anchors, Keep)[i];
              && a in anchors && Keep(a) && l.title == Trim(a.text)
              && a.href == Some(l.path) && l.link == NormaliseUrl(l.path)
  {
    Seqs.FilterMapAt(anchors, Keep, ToPathLink, i);
    if 0 <= i < |Seqs.Filter(anchors, Keep)| {
      assert Seqs.Filter(anchors, Keep)[i] in Seqs.Filter(anchors, Keep);
    }
  }

  /** The parse-nav.js script output: `total` is the number of links. */
  function ParseOutputWithPath(anchors: seq<Anchor>): (out: PathOutputData)
    ensures out.total == |out.links| <= |anchors|
    ensures out.links == ParseNavigationWithPath(anchors)
  {
    var links := ParseNavigationWithPath(anchors);
    PathOutputData(|links|, links)
  }

  function DropPath(l: PathLinkData): LinkData {
    LinkData(l.title, l.link)
  }

  /** The two scripts apply the same rule: forgetting `path`, parse-nav.js
      emits exactly what parse-nav.ts emits, in the same order. */
  lemma {:induction false} ScriptsAgree(anchors: seq<Anchor>)
    ensures |ParseNavigationWithPath(anchors)| == |ParseNavigation(anchors)|
    ensures forall i :: 0 <= i < |ParseNavigation(anchors)| ==>
              DropPath(ParseNavigationWithPath(anchors)[i]) == ParseNavigation(anchors)[i]
  {
    Seqs.FilterMapProject(anchors, Keep, ToPathLink, ToLink, DropPath);
  }
}
