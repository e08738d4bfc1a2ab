/**
  Page-info crawling bookkeeping (scripts/fetch-descriptions.ts): the links
  of `list.json` are visited in batches of 5, each page yields a title and
  the first usable description among three meta tags, and the results are
  collected into a URL-keyed record together with success and failure
  counters.

  The browser is not modelled: what a page load produces is an input, one
  `Visit` per link, and every delay, fingerprint and mouse movement is
  left out.
 */
module FetchDescriptions {
  import opened Corpus
  import opened Text
  import Seqs

  /** A `PageInfo` as this script writes it: both fields always present. */
  datatype FetchedPage = FetchedPage(title: string, description: string)

  const EmptyPage: FetchedPage := FetchedPage("", "")

  /** What `document.querySelector(...)` finds: no element, or an element
      whose `content` attribute may be missing (`getAttribute` gives null). */
  datatype MetaTag = Absent | Present(content: Option<string>)

  /** The parts of a loaded document the extraction reads. */
  datatype PageDom = PageDom(title: string, metaDescription: MetaTag, ogDescription: MetaTag, twitterDescription: MetaTag)

  /** The content of a tag when it passes `if (content)`: present and not
      the empty string. Whitespace-only content passes. */
  function Content(tag: MetaTag): (c: Option<string>)
    ensures c.Some? ==> c.value != ""
    ensures c.Some? <==> tag.Present? && tag.content.Some? && tag.content.value != ""
  {
    match tag
    case Present(Some(s)) => if s != "" then Some(s) else None
    case _ => None
  }

  /** Reference definition of the fallback chain: the first tag, in order,
      that has usable content. */
  function FirstContent(tags: seq<MetaTag>): (c: Option<string>)
    ensures c.None? <==> forall i :: 0 <= i < |tags| ==> Content(tags[i]).None?
    ensures c.Some? ==> exists i :: 0 <= i < |tags| && Content(tags[i]) == c
    decreases |tags|
  {
    if |tags| == 0 then None
    else if Content(tags[0]).Some? then Content(tags[0])
    else
      var c := FirstContent(tags[1..]);
      assert forall i :: 1 <= i < |tags| ==> tags[i] == tags[1..][i - 1];
      c
  }

  /** The three description sources, in the order they are tried. */
  function DescriptionTags(dom: PageDom): seq<MetaTag> {
    [dom.metaDescription, dom.ogDescription, dom.twitterDescription]
  }

  /** The `page.evaluate` callback of `processSinglePage`: the trimmed
      document title, and the trimmed content of the first of `meta
      name=description`, `og:description` and `twitter:description` whose
      content is non-empty, or "" when none has. */
  function ExtractPageInfo(dom: PageDom): (info: FetchedPage)
    ensures info.title == Trim(dom.title)
    ensures info.description == (match FirstContent(DescriptionTags(dom))
                                 case Some(c) => Trim(c)
                                 case None => "")
  {
    FirstOfThree(dom.metaDescription, dom.ogDescription, dom.twitterDescription);
    var title := Trim(dom.title);
    if Content(dom.metaDescription).Some? then
      FetchedPage(title, Trim(dom.metaDescription.content.value))
    else if Content(dom.ogDescription).Some? then
      FetchedPage(title, Trim(dom.ogDescription.content.value))
    else if Content(dom.twitterDescription).Some? then
      FetchedPage(title, Trim(dom.twitterDescription.content.value))
    else
      FetchedPage(title, "")
  }

  /** The chain over three tags, unfolded. */
  lemma FirstOfThree(a: MetaTag, b: MetaTag, c: MetaTag)
    ensures FirstContent([a, b, c]) ==
            if Content(a).Some? then Content(a)
            else if Content(b).Some? then Content(b)
            else Content(c)
  {
    assert [a, b, c][1..] == [b, c];
    assert [b, c][1..] == [c];
    assert [c][1..] == [];
    assert FirstContent([c]) == Content(c);
    assert FirstContent([b, c]) == if Content(b).Some? then Content(b) else Content(c);
  }

  /** The emptiness test comes before trimming: a tag whose content is only
      whitespace ends the chain, later tags are not consulted, and the
      description is "". */
  lemma WhitespaceContentStopsChain(dom: PageDom, og: MetaTag, twitter: MetaTag)
    requires Content(dom.metaDescription).Some? && AllSpace(dom.metaDescription.content.value)
    ensures ExtractPageInfo(dom).description == ""
    ensures ExtractPageInfo(dom.(ogDescription := og, twitterDescription := twitter)) == ExtractPageInfo(dom)
  {
  }

  /** The description is empty exactly when no tag has usable content or
      the first usable content is whitespace only; otherwise it carries no
      surrounding whitespace. */
  lemma EmptyDescriptionIff(dom: PageDom)
    ensures var d := ExtractPageInfo(dom).description;
            var first := FirstContent(DescriptionTags(dom));
            && (d == "" <==> first.None? || AllSpace(first.value))
            && (d != "" ==> !IsSpace(d[0]) && !IsSpace(d[|d| - 1]))
  {
    var first := FirstContent(DescriptionTags(dom));
    var d := ExtractPageInfo(dom).description;
    match first {
      case Some(c) => assert d == Trim(c);
      case None => assert d == "";
    }
  }

  /** How loading one page ends inside `processSinglePage`'s `try`: the
      document was loaded with an ok response and evaluated, or something
      threw (navigation error, timeout, missing or non-ok response). */
  datatype NavOutcome = Loaded(dom: PageDom) | LoadFailed

  /** `PageResult`. */
  datatype PageResult = PageResult(url: string, success: bool, data: FetchedPage)

  /** `processSinglePage`: the result always names the link's URL, succeeds
      exactly when the page was loaded, carries the extracted title and
      description on success and empty fields on failure. */
  function ProcessSinglePage(link: NavLink, outcome: NavOutcome): (r: PageResult)
    ensures r.url == link.link
    ensures r.success <==> outcome.Loaded?
    ensures !r.success ==> r.data == EmptyPage
    ensures r.success ==> r.data == ExtractPageInfo(outcome.dom)
    ensures r.success ==> r.data.title == Trim(outcome.dom.title)
    ensures r.success ==> r.data.description == (match FirstContent(DescriptionTags(outcome.dom))
                                                 case Some(c) => Trim(c)
                                                 case None => "")
  {
    match outcome
    case Loaded(dom) => PageResult(link.link, true, ExtractPageInfo(dom))
    case LoadFailed => PageResult(link.link, false, EmptyPage)
  }

  /** One entry of `Promise.allSettled`'s answer. */
  datatype Settled = Fulfilled(result: PageResult) | Rejected

  /** The environment's answer for one link: the page task settled with an
      outcome, or its promise was rejected. */
  datatype Visit = Completed(outcome: NavOutcome) | Crashed

  function Settle(link: NavLink, visit: Visit): Settled {
    match visit
    case Completed(outcome) => Fulfilled(ProcessSinglePage(link, outcome))
    case Crashed => Rejected
  }

  /** The visits that `successCount` counts. */
  predicate IsLoaded(visit: Visit) {
    visit.Completed? && visit.outcome.Loaded?
  }

  /** The value stored under the link's URL for one visit. */
  function Entry(link: NavLink, visit: Visit): FetchedPage {
    match Settle(link, visit)
    case Fulfilled(r) => r.data
    case Rejected => EmptyPage
  }

  /** The URLs of the first `k` links. */
  function LinkSet(links: seq<NavLink>, k: nat): set<string>
    requires k <= |links|
  {
    if k == 0 then {} else LinkSet(links, k - 1) + {links[k - 1].link}
  }

  /** A URL is in `LinkSet(links, k)` exactly when one of the first `k`
      links has it. */
  lemma {:induction false} LinkSetMembers(links: seq<NavLink>, k: nat)
    requires k <= |links|
    ensures forall u :: u in LinkSet(links, k) <==> exists j :: 0 <= j < k && links[j].link == u
  {
    if k > 0 {
      LinkSetMembers(links, k - 1);
    }
  }

  /** There are at most as many URLs as links. */
  lemma {:induction false} LinkSetSize(links: seq<NavLink>, k: nat)
    requires k <= |links|
    ensures |LinkSet(links, k)| <= k
  {
    if k > 0 {
      LinkSetSize(links, k - 1);
    }
  }

  /** The record left by writing `values[i]` under the URL of `links[i]`
      for each of the first `k` links in turn. */
  function Recorded<V>(links: seq<NavLink>, values: seq<V>, k: nat): (m: map<string, V>)
    requires k <= |links| == |values|
    ensures m.Keys == LinkSet(links, k)
  {
    if k == 0 then map[]
    else Recorded(links, values, k - 1)[links[k - 1].link := values[k - 1]]
  }

  /** A URL written more than once holds the value of its last write. */
  lemma {:induction false} LastWriteWins<V>(links: seq<NavLink>, values: seq<V>, k: nat, j: nat)
    requires k <= |links| == |values| && j < k
    requires forall j' :: j < j' < k ==> links[j'].link != links[j].link
    ensures links[j].link in Recorded(links, values, k)
    ensures Recorded(links, values, k)[links[j].link] == values[j]
    decreases k
  {
    var prev := Recorded(links, values, k - 1);
    var last := links[k - 1];
    assert Recorded(links, values, k) == prev[last.link := values[k - 1]];
    if j < k - 1 {
      LastWriteWins(links, values, k - 1, j);
      assert last.link != links[j].link;
    }
  }

  /** The value each result contributes: `pageResult.data`, or the empty
      page for a rejected promise. */
  function Entries(links: seq<NavLink>, visits: seq<Visit>): (entries: seq<FetchedPage>)
    requires |links| == |visits|
    ensures |entries| == |links|
  {
    seq(|links|, i requires 0 <= i < |links| => Entry(links[i], visits[i]))
  }

  /** Reference for the `pageData` record after the first `k` results: each
      result written in turn under its link's URL. */
  function PagesAfter(links: seq<NavLink>, visits: seq<Visit>, k: nat): (pages: map<string, FetchedPage>)
    requires k <= |links| == |visits|
    ensures pages.Keys == LinkSet(links, k)
  {
    Recorded(links, Entries(links, visits), k)
  }

  /** A URL listed more than once keeps the value of its last occurrence. */
  lemma LastOccurrenceWins(links: seq<NavLink>, visits: seq<Visit>, k: nat, j: nat)
    requires k <= |links| == |visits| && j < k
    requires forall j' :: j < j' < k ==> links[j'].link != links[j].link
    ensures links[j].link in PagesAfter(links, visits, k)
    ensures PagesAfter(links, visits, k)[links[j].link] == Entry(links[j], visits[j])
  {
    LastWriteWins(links, Entries(links, visits), k, j);
  }

  /** With pairwise distinct URLs every link gets its own key. */
  lemma {:induction false} DistinctLinksFillTotal(links: seq<NavLink>, k: nat)
    requires k <= |links|
    requires forall i, j :: 0 <= i < j < |links| ==> links[i].link != links[j].link
    ensures |LinkSet(links, k)| == k
    decreases k
  {
    if k > 0 {
      DistinctLinksFillTotal(links, k - 1);
      LinkSetMembers(links, k - 1);
      assert links[k - 1].link !in LinkSet(links, k - 1);
    }
  }

  const BatchSize: nat := 5

  /** `Math.ceil(links.length / BATCH_SIZE)`. */
  function TotalBatches(n: nat): nat {
    Seqs.CeilDiv(n, BatchSize)
  }

  /** `links.slice(startIndex, endIndex)` for batch `b`. */
  function BatchAt(links: seq<NavLink>, b: nat): seq<NavLink>
    requires b < TotalBatches(|links|)
  {
    BatchBounds(|links|, b);
    links[b * BatchSize .. Seqs.Min(b * BatchSize + BatchSize, |links|)]
  }

  /** Every batch starts inside the list, and the batches reach its end. */
  lemma BatchBounds(n: nat, b: nat)
    ensures TotalBatches(n) == Seqs.NumChunks(n, BatchSize)
    ensures TotalBatches(n) * BatchSize >= n
    ensures b < TotalBatches(n) ==> b * BatchSize < n
  {
    Seqs.NumChunksIsCeil(n, BatchSize);
    Seqs.NumChunksCovers(n, BatchSize);
    Seqs.OffsetIsProduct(TotalBatches(n), BatchSize);
    Seqs.OffsetIsProduct(b, BatchSize);
  }

  /** The batches are the consecutive 5-element slices of the list, only
      the last possibly shorter; together they are the list, in order. */
  lemma BatchesAreChunks(links: seq<NavLink>, b: nat)
    requires b < TotalBatches(|links|)
    ensures TotalBatches(|links|) == |Seqs.Chunk(links, BatchSize)|
    ensures BatchAt(links, b) == Seqs.Chunk(links, BatchSize)[b]
    ensures 0 < |BatchAt(links, b)| <= BatchSize
    ensures Seqs.Flatten(Seqs.Chunk(links, BatchSize)) == links
  {
    BatchBounds(|links|, b);
    Seqs.ChunkAt(links, BatchSize, b);
    Seqs.ChunkFlatten(links, BatchSize);
  }

  /** `startIndex + i + 1`, the 1-based position shown for a page. */
  function PageIndex(b: nat, i: nat): nat {
    b * BatchSize + i + 1
  }

  /** The batch holding the 1-based position `p`. */
  function BatchOfPage(p: nat): nat
    requires p >= 1
  {
    (p - 1) / BatchSize
  }

  /** The slot within its batch of the 1-based position `p`. */
  function SlotOfPage(p: nat): nat
    requires p >= 1
  {
    (p - 1) % BatchSize
  }

  /** The page positions of all batches are exactly 1..n, each once:
      every position lies in 1..n, distinct (batch, slot) pairs give
      distinct positions, and every position in 1..n is reached. */
  lemma PageIndexIsBijection(links: seq<NavLink>)
    ensures forall b: nat, i: nat :: b < TotalBatches(|links|) && i < |BatchAt(links, b)| ==>
              1 <= PageIndex(b, i) <= |links|
    ensures forall b: nat, i: nat, b': nat, i': nat ::
              i < BatchSize && i' < BatchSize && PageIndex(b, i) == PageIndex(b', i') ==> b == b' && i == i'
    ensures forall p: nat :: 1 <= p <= |links| ==>
              && BatchOfPage(p) < TotalBatches(|links|)
              && SlotOfPage(p) < |BatchAt(links, BatchOfPage(p))|
              && PageIndex(BatchOfPage(p), SlotOfPage(p)) == p
  {
    forall b: nat, i: nat, b': nat, i': nat |
      i < BatchSize && i' < BatchSize && PageIndex(b, i) == PageIndex(b', i')
      ensures b == b' && i == i'
    {
      Seqs.DivUnique(PageIndex(b, i) - 1, BatchSize, b, i);
      Seqs.DivUnique(PageIndex(b', i') - 1, BatchSize, b', i');
    }
    forall p: nat | 1 <= p <= |links|
      ensures BatchOfPage(p) < TotalBatches(|links|)
      ensures SlotOfPage(p) < |BatchAt(links, BatchOfPage(p))|
      ensures PageIndex(BatchOfPage(p), SlotOfPage(p)) == p
    {
      BatchBounds(|links|, BatchOfPage(p));
    }
  }

  /** Handling result `p` adds its entry to the record and its success to
      the counter. */
  lemma RecordStep(links: seq<NavLink>, visits: seq<Visit>, p: nat)
    requires p < |links| == |visits|
    ensures PagesAfter(links, visits, p + 1) == PagesAfter(links, visits, p)[links[p].link := Entry(links[p], visits[p])]
    ensures Seqs.Count(visits[..p + 1], IsLoaded) == Seqs.Count(visits[..p], IsLoaded) + (if IsLoaded(visits[p]) then 1 else 0)
  {
    assert Entries(links, visits)[p] == Entry(links[p], visits[p]);
    assert visits[..p + 1] == visits[..p] + [visits[p]];
    Seqs.CountSnoc(visits[..p], visits[p], IsLoaded);
  }

  /** The `forEach` callback for the settled result of one link (its entry
      of `Promise.allSettled`'s answer, `Settle(link, visit)`): a fulfilled
      result stores its data under its URL and counts as a success exactly
      when the page was loaded; a rejected one stores the empty page under
      the link's URL and counts as a failure. */
  method RecordResult(link: NavLink, visit: Visit,
                      pageData0: map<string, FetchedPage>, successCount0: nat, failedCount0: nat)
    returns (pageData: map<string, FetchedPage>, successCount: nat, failedCount: nat)
    ensures pageData == pageData0[link.link := Entry(link, visit)]
    ensures successCount == successCount0 + (if IsLoaded(visit) then 1 else 0)
    ensures successCount + failedCount == successCount0 + failedCount0 + 1
  {
    pageData, successCount, failedCount := pageData0, successCount0, failedCount0;
    match Settle(link, visit) {
      case Fulfilled(pageResult) =>
        pageData := pageData[pageResult.url := pageResult.data];
        if pageResult.success {
          successCount := successCount + 1;
        } else {
          failedCount := failedCount + 1;
        }
      case Rejected => {
        failedCount := failedCount + 1;
        pageData := pageData[link.link := EmptyPage];
      }
    }
  }

  /** The `forEach` over the settled results of the batch holding links
      `startIndex` up to `endIndex`: each result writes its entry into the
      record and adds one to exactly one of the two counters. */
  method RecordBatch(links: seq<NavLink>, visits: seq<Visit>, startIndex: nat, endIndex: nat,
                     pageData0: map<string, FetchedPage>, successCount0: nat, failedCount0: nat)
    returns (pageData: map<string, FetchedPage>, successCount: nat, failedCount: nat)
    requires |visits| == |links| && startIndex <= endIndex <= |links|
    requires pageData0 == PagesAfter(links, visits, startIndex)
    requires successCount0 == Seqs.Count(visits[..startIndex], IsLoaded)
    requires startIndex == successCount0 + failedCount0
    ensures pageData == PagesAfter(links, visits, endIndex)
    ensures successCount == Seqs.Count(visits[..endIndex], IsLoaded)
    ensures endIndex == successCount + failedCount
  {
    pageData, successCount, failedCount := pageData0, successCount0, failedCount0;
    var batch := links[startIndex..endIndex];
    var processedCount := startIndex;
    var index := 0;
    assert |batch| == endIndex - startIndex;
    while index < |batch|
      invariant index <= |batch|
      invariant processedCount == startIndex + index
      invariant pageData == PagesAfter(links, visits, processedCount)
      invariant successCount == Seqs.Count(visits[..processedCount], IsLoaded)
      invariant processedCount == successCount + failedCount
    {
      assert batch[index] == links[processedCount];
      RecordStep(links, visits, processedCount);
      pageData, successCount, failedCount :=
        RecordResult(batch[index], visits[processedCount], pageData, successCount, failedCount);
      processedCount := processedCount + 1;
      index := index + 1;
    }
    assert processedCount == endIndex;
  }

  /** The batch loop of `fetchDescriptions`. */
  method CrawlLinks(links: seq<NavLink>, visits: seq<Visit>)
    returns (pageData: map<string, FetchedPage>, successCount: nat, failedCount: nat)
    requires |visits| == |links|
    ensures successCount + failedCount == |links|
    ensures successCount == Seqs.Count(visits, IsLoaded)
    ensures pageData == PagesAfter(links, visits, |links|)
    ensures pageData.Keys == LinkSet(links, |links|)
  {
    var n := |links|;
    var totalBatches := TotalBatches(n);
    pageData, successCount, failedCount := map[], 0, 0;
    var processedCount := 0;
    var batchIndex := 0;
    while batchIndex < totalBatches
      invariant batchIndex <= totalBatches
      invariant processedCount == Seqs.Min(batchIndex * BatchSize, n)
      invariant pageData == PagesAfter(links, visits, processedCount)
      invariant successCount == Seqs.Count(visits[..processedCount], IsLoaded)
      invariant processedCount == successCount + failedCount
    {
      BatchBounds(n, batchIndex);
      var startIndex := batchIndex * BatchSize;
      var endIndex := Seqs.Min(startIndex + BatchSize, n);
      assert (batchIndex + 1) * BatchSize == batchIndex * BatchSize + BatchSize;
      assert processedCount == startIndex < endIndex <= n;
      pageData, successCount, failedCount :=
        RecordBatch(links, visits, startIndex, endIndex, pageData, successCount, failedCount);
      processedCount := endIndex;
      batchIndex := batchIndex + 1;
    }
    BatchBounds(n, 0);
    assert visits[..n] == visits;
  }

  /** The `descriptions.json` record (timestamp and fixed browser flags
      left out). */
  datatype DescriptionsOutput = DescriptionsOutput(
    total: nat, successCount: nat, failedCount: nat, batchSize: nat, pages: map<string, FetchedPage>)

  datatype CrawlOutcome = CrawlExited | CrawlWritten(output: DescriptionsOutput)

  /** `fetchDescriptions`: exits with status 1 when `list.json` cannot be
      read or parsed or the browser cannot be started; otherwise writes one
      record entry per distinct URL, counts every link as a success or a
      failure, and reports the number of distinct URLs as `total`. */
  method FetchAll(list: ListFile, browserStarted: bool, visits: seq<Visit>) returns (outcome: CrawlOutcome)
    requires list.ListParsed? ==> |visits| == |LinksOf(list.links)|
    ensures outcome.CrawlExited? <==> list.ListUnreadable? || !browserStarted
    ensures outcome.CrawlWritten? ==>
              var links := LinksOf(list.links);
              var out := outcome.output;
              && out.batchSize == BatchSize
              && out.successCount + out.failedCount == |links|
              && out.successCount == Seqs.Count(visits, IsLoaded)
              && out.pages == PagesAfter(links, visits, |links|)
              && out.pages.Keys == LinkSet(links, |links|)
              && out.total == |out.pages.Keys| <= |links|
  {
    if list.ListUnreadable? || !browserStarted {
      return CrawlExited;
    }
    var links := LinksOf(list.links);
    var pageData, successCount, failedCount := CrawlLinks(links, visits);
    LinkSetSize(links, |links|);
    outcome := CrawlWritten(DescriptionsOutput(|pageData.Keys|, successCount, failedCount, BatchSize, pageData));
  }
}
