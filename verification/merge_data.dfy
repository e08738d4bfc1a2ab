/**
  The offline merge script (scripts/merge-data.ts): the navigation list
  joined with the page-info map into `enhanced-list.json`, with
  completeness counters. The join is written separately from the server's
  and names the navigation title `navTitle` instead of `title`.
 */
module MergeData {
  import opened Corpus
  import Seqs
  import ServedSearch

  datatype MergedLink = MergedLink(navTitle: string, link: string, pageTitle: string, pageDescription: string)

  /** The `stats` object; the completion-rate percentages are not modelled. */
  datatype Stats = Stats(totalLinks: nat, withPageTitle: nat, withPageDescription: nat)

  /** The JSON written to `enhanced-list.json` (less its timestamp). */
  datatype OutputData = OutputData(total: nat, stats: Stats, links: seq<MergedLink>)

  /** The script either exits with status 1 or writes the output file. */
  datatype MergeOutcome = Exited | Written(output: OutputData)

  /** The `baseLinks.map` callback of the merge script. */
  function MergeOne(nav: NavLink, pageData: PageMap): MergedLink {
    var pageInfo := if nav.link in pageData then Some(pageData[nav.link]) else None;
    MergedLink(
      nav.title,
      nav.link,
      if pageInfo.Some? then OrEmpty(pageInfo.value.title) else "",
      if pageInfo.Some? then OrEmpty(pageInfo.value.description) else "")
  }

  /** The merged list: same length and order as the navigation list. */
  function MergeLinks(baseLinks: seq<NavLink>, pageData: PageMap): (merged: seq<MergedLink>)
    ensures |merged| == |baseLinks|
    ensures forall i :: 0 <= i < |baseLinks| ==>
              merged[i].navTitle == baseLinks[i].title && merged[i].link == baseLinks[i].link
    ensures forall i :: 0 <= i < |baseLinks| ==>
              && TitleJoined(merged[i].pageTitle, baseLinks[i].link, pageData)
              && DescriptionJoined(merged[i].pageDescription, baseLinks[i].link, pageData)
  {
    seq(|baseLinks|, i requires 0 <= i < |baseLinks| => MergeOne(baseLinks[i], pageData))
  }

  /** Two list entries with the same URL receive the same page fields. */
  lemma SameLinkSamePageFields(baseLinks: seq<NavLink>, pageData: PageMap, i: nat, j: nat)
    requires i < |baseLinks| && j < |baseLinks|
    requires baseLinks[i].link == baseLinks[j].link
    ensures var merged := MergeLinks(baseLinks, pageData);
            merged[i].pageTitle == merged[j].pageTitle
            && merged[i].pageDescription == merged[j].pageDescription
  {
  }

  /** The offline merge and the server's start-up join agree entry by entry,
      up to the name of the navigation-title field. */
  lemma MergeAgreesWithServedCorpus(baseLinks: seq<NavLink>, pageData: PageMap)
    ensures var merged := MergeLinks(baseLinks, pageData);
            var corpus := ServedSearch.BuildCorpus(baseLinks, pageData);
            && |merged| == |corpus|
            && forall i :: 0 <= i < |merged| ==>
                 && merged[i].navTitle == corpus[i].title
                 && merged[i].link == corpus[i].link
                 && merged[i].pageTitle == corpus[i].pageTitle
                 && merged[i].pageDescription == corpus[i].pageDescription
  {
    var merged := MergeLinks(baseLinks, pageData);
    var corpus := ServedSearch.BuildCorpus(baseLinks, pageData);
    forall i | 0 <= i < |merged|
      ensures merged[i].pageTitle == corpus[i].pageTitle
      ensures merged[i].pageDescription == corpus[i].pageDescription
    {
      JoinedTitlesAgree(merged[i].pageTitle, corpus[i].pageTitle, baseLinks[i].link, pageData);
      JoinedDescriptionsAgree(merged[i].pageDescription, corpus[i].pageDescription, baseLinks[i].link, pageData);
    }
  }

  /** The join relation determines the page title. */
  lemma JoinedTitlesAgree(a: string, b: string, link: string, pageData: PageMap)
    requires TitleJoined(a, link, pageData) && TitleJoined(b, link, pageData)
    ensures a == b
  {
  }

  /** The join relation determines the page description. */
  lemma JoinedDescriptionsAgree(a: string, b: string, link: string, pageData: PageMap)
    requires DescriptionJoined(a, link, pageData) && DescriptionJoined(b, link, pageData)
    ensures a == b
  {
  }

  predicate HasPageTitle(l: MergedLink) {
    l.pageTitle != ""
  }

  predicate HasPageDescription(l: MergedLink) {
    l.pageDescription != ""
  }

  /** The merge script. A failure to read `list.json` ends it with exit
      status 1; a failure to read `descriptions.json` is logged and the merge
      runs against an empty map. */
  function Merge(list: ListFile, descriptions: DescriptionsFile): (out: MergeOutcome)
    ensures out.Exited? <==> list.ListUnreadable?
    ensures out.Written? ==>
              && out.output.total == out.output.stats.totalLinks == |out.output.links|
              && out.output.stats.withPageTitle <= out.output.total
              && out.output.stats.withPageDescription <= out.output.total
              && out.output.links == MergeLinks(LinksOf(list.links), LoadPageData(descriptions))
  {
    match list
    case ListUnreadable => Exited
    case ListParsed(links) =>
      var enhanced := MergeLinks(LinksOf(links), LoadPageData(descriptions));
      var withPageTitle := |Seqs.Filter(enhanced, HasPageTitle)|;
      var withPageDescription := |Seqs.Filter(enhanced, HasPageDescription)|;
      Written(OutputData(|enhanced|, Stats(|enhanced|, withPageTitle, withPageDescription), enhanced))
  }

  /** The counters count exactly the entries with a non-empty page title and
      page description: they equal the total iff every entry has one, and
      are 0 iff none has. */
  lemma CountersCountNonEmptyFields(list: ListFile, descriptions: DescriptionsFile)
    requires list.ListParsed?
    ensures var out := Merge(list, descriptions).output;
            && out.stats.withPageTitle == Seqs.Count(out.links, HasPageTitle)
            && out.stats.withPageDescription == Seqs.Count(out.links, HasPageDescription)
            && (out.stats.withPageTitle == out.total <==>
                  forall i :: 0 <= i < |out.links| ==> out.links[i].pageTitle != "")
            && (out.stats.withPageTitle == 0 <==>
                  forall i :: 0 <= i < |out.links| ==> out.links[i].pageTitle == "")
            && (out.stats.withPageDescription == out.total <==>
                  forall i :: 0 <= i < |out.links| ==> out.links[i].pageDescription != "")
            && (out.stats.withPageDescription == 0 <==>
                  forall i :: 0 <= i < |out.links| ==> out.links[i].pageDescription == "")
  {
    var links := MergeLinks(LinksOf(list.links), LoadPageData(descriptions));
    var out := Merge(list, descriptions).output;
    assert out.links == links;
    assert out.stats.withPageTitle == |Seqs.Filter(links, HasPageTitle)|;
    assert out.stats.withPageDescription == |Seqs.Filter(links, HasPageDescription)|;
    PageFieldCounts(links);
  }

  /** What the two counts say about any list of merged entries. */
  lemma PageFieldCounts(links: seq<MergedLink>)
    ensures Seqs.Count(links, HasPageTitle) == |links| <==> forall i :: 0 <= i < |links| ==> links[i].pageTitle != ""
    ensures Seqs.Count(links, HasPageTitle) == 0 <==> forall i :: 0 <= i < |links| ==> links[i].pageTitle == ""
    ensures Seqs.Count(links, HasPageDescription) == |links| <==>
              forall i :: 0 <= i < |links| ==> links[i].pageDescription != ""
    ensures Seqs.Count(links, HasPageDescription) == 0 <==>
              forall i :: 0 <= i < |links| ==> links[i].pageDescription == ""
  {
    assert forall i :: 0 <= i < |links| ==> (HasPageTitle(links[i]) <==> links[i].pageTitle != "");
    assert forall i :: 0 <= i < |links| ==> (HasPageDescription(links[i]) <==> links[i].pageDescription != "");
  }

  /** Without a readable `descriptions.json` no entry has a page title or
      description, so both counters are 0. */
  lemma MissingDescriptionsZeroCounters(list: ListFile)
    requires list.ListParsed?
    ensures var out := Merge(list, DescriptionsUnreadable).output;
            out.stats.withPageTitle == 0 && out.stats.withPageDescription == 0
  {
    var out := Merge(list, DescriptionsUnreadable).output;
    assert forall i :: 0 <= i < |out.links| ==> !HasPageTitle(out.links[i]);
    assert forall i :: 0 <= i < |out.links| ==> !HasPageDescription(out.links[i]);
  }
}
