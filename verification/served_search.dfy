/**
  The documentation server (src/index.ts): the in-memory corpus built at
  start-up by joining the navigation list with the page-info map, and the
  `search_docs_list` tool, a case-insensitive substring filter over the
  navigation title, page title and page description.
 */
module ServedSearch {
  import opened Corpus
  import opened Text
  import Seqs

  /** An entry of the in-memory corpus; `title` is the navigation title. */
  datatype EnhancedLink = EnhancedLink(title: string, link: string, pageTitle: string, pageDescription: string)

  /** One navigation entry joined with its page info (the `baseLinks.map` callback). */
  function Enhance(nav: NavLink, pageData: PageMap): EnhancedLink {
    if nav.link in pageData then
      var info := pageData[nav.link];
      EnhancedLink(nav.title, nav.link, OrEmpty(info.title), OrEmpty(info.description))
    else
      EnhancedLink(nav.title, nav.link, "", "")
  }

  /** The corpus: one entry per navigation entry, in list order, with the
      page fields looked up by URL. */
  function BuildCorpus(baseLinks: seq<NavLink>, pageData: PageMap): (corpus: seq<EnhancedLink>)
    ensures |corpus| == |baseLinks|
    ensures forall i :: 0 <= i < |baseLinks| ==>
              corpus[i].title == baseLinks[i].title && corpus[i].link == baseLinks[i].link
    ensures forall i :: 0 <= i < |baseLinks| ==>
              && TitleJoined(corpus[i].pageTitle, baseLinks[i].link, pageData)
              && DescriptionJoined(corpus[i].pageDescription, baseLinks[i].link, pageData)
  {
    seq(|baseLinks|, i requires 0 <= i < |baseLinks| => Enhance(baseLinks[i], pageData))
  }

  /** Start-up loading. If `list.json` cannot be read the error is caught
      and the server runs with an empty corpus; if only `descriptions.json`
      cannot be read, the join runs against an empty map. */
  function LoadCorpus(list: ListFile, descriptions: DescriptionsFile): (corpus: seq<EnhancedLink>)
    ensures list.ListUnreadable? ==> corpus == []
    ensures list.ListParsed? ==> |corpus| == |LinksOf(list.links)|
    ensures list.ListParsed? ==> forall i :: 0 <= i < |corpus| ==>
              var nav := LinksOf(list.links)[i];
              && corpus[i].title == nav.title && corpus[i].link == nav.link
              && TitleJoined(corpus[i].pageTitle, nav.link, LoadPageData(descriptions))
              && DescriptionJoined(corpus[i].pageDescription, nav.link, LoadPageData(descriptions))
    ensures list.ListParsed? ==> corpus == BuildCorpus(LinksOf(list.links), LoadPageData(descriptions))
  {
    match list
    case ListUnreadable => []
    case ListParsed(links) => BuildCorpus(LinksOf(links), LoadPageData(descriptions))
  }

  /** Without a readable `descriptions.json`, every entry keeps its list
      fields and has empty page title and description. */
  lemma MissingDescriptionsGiveEmptyPageFields(list: ListFile)
    requires list.ListParsed?
    ensures var corpus := LoadCorpus(list, DescriptionsUnreadable);
            && |corpus| == |LinksOf(list.links)|
            && forall i :: 0 <= i < |corpus| ==>
                 && corpus[i].title == LinksOf(list.links)[i].title
                 && corpus[i].link == LinksOf(list.links)[i].link
                 && corpus[i].pageTitle == "" && corpus[i].pageDescription == ""
  {
  }

  /** `args.search && args.search.trim()`: a query is applied only when it
      is present and not blank. The tool's schema declares `search` as a
      required string, so every argument the server accepts is a `Some`;
      `None` stands for an absent value the handler's guard also tolerates
      and only widens the domain of the model. */
  predicate Active(search: Option<string>)
    ensures Active(search) <==> search.Some? && !AllSpace(search.value)
  {
    search.Some? && search.value != "" && Trim(search.value) != ""
  }

  /** `args.search.toLowerCase().trim()`. */
  function SearchTerm(query: string): (term: string)
    ensures term == ToLower(Trim(query))
    ensures term == "" <==> AllSpace(query)
  {
    TrimLowerCommute(query);
    Trim(ToLower(query))
  }

  /** The three-field test of the filter callback. */
  predicate Matches(term: string, e: EnhancedLink)
    ensures term == "" ==> Matches(term, e)
    ensures Matches(term, e) ==> |term| <= |e.title| || |term| <= |e.pageTitle| || |term| <= |e.pageDescription|
  {
    || Includes(ToLower(e.title), term)
    || Includes(ToLower(e.pageTitle), term)
    || Includes(ToLower(e.pageDescription), term)
  }

  function MatcherFor(term: string): EnhancedLink -> bool {
    e => Matches(term, e)
  }

  /** The entries `search_docs_list` answers with: the whole corpus for an
      absent or blank query, otherwise the matching entries in corpus order. */
  function FilterCorpus(corpus: seq<EnhancedLink>, search: Option<string>): (kept: seq<EnhancedLink>)
    ensures |kept| <= |corpus|
    ensures !Active(search) ==> kept == corpus
    ensures Active(search) ==> SearchTerm(search.value) != ""
    ensures Active(search) ==>
              forall e :: e in kept <==> e in corpus && Matches(SearchTerm(search.value), e)
    ensures Active(search) ==> Seqs.IsSubsequence(kept, corpus)
    ensures Active(search) ==> |kept| == Seqs.Count(corpus, MatcherFor(SearchTerm(search.value)))
  {
    if Active(search) then
      TrimLowerCommute(search.value);
      Seqs.Filter(corpus, MatcherFor(SearchTerm(search.value)))
    else
      corpus
  }

  /** One element of the response's `links`. */
  datatype OutLink = OutLink(navTitle: string, pageTitle: string, pageDescription: string, link: string)

  /** The JSON object the tool returns as text. */
  datatype SearchResponse = SearchResponse(total: nat, search: Option<string>, links: seq<OutLink>)

  function Project(e: EnhancedLink): OutLink {
    OutLink(e.title, e.pageTitle, e.pageDescription, e.link)
  }

  /** The `search_docs_list` handler. `total` counts the returned links, and
      `search` echoes the argument except that an empty string echoes as null
      (so a blank but non-empty query is echoed although it filters nothing).
      The schema makes `search` a required string; the `None` case is
      modelled only because the handler's guard accepts it. */
  function SearchDocsList(corpus: seq<EnhancedLink>, search: Option<string>): (r: SearchResponse)
    ensures r.total == |r.links|
    ensures r.search.None? <==> search.None? || search == Some("")
    ensures r.search.Some? ==> r.search == search
    ensures var kept := FilterCorpus(corpus, search);
            |r.links| == |kept| && forall i :: 0 <= i < |kept| ==> r.links[i] == Project(kept[i])
  {
    var kept := FilterCorpus(corpus, search);
    var echo := if search == Some("") then None else search;
    SearchResponse(|kept|, echo, seq(|kept|, i requires 0 <= i < |kept| => Project(kept[i])))
  }

  /** The query is case-insensitive: two queries that differ only in the
      case of ASCII letters ("Blueprint" and "blueprint") select the same
      links. */
  lemma QueryCaseIgnored(corpus: seq<EnhancedLink>, q1: string, q2: string)
    requires |q1| == |q2|
    requires forall i :: 0 <= i < |q1| ==> CaseVariant(q1[i], q2[i])
    ensures SearchDocsList(corpus, Some(q1)).links == SearchDocsList(corpus, Some(q2)).links
    ensures SearchDocsList(corpus, Some(q1)).total == SearchDocsList(corpus, Some(q2)).total
  {
    ToLowerIgnoresCase(q1, q2);
    assert SearchTerm(q1) == SearchTerm(q2);
    assert Active(Some(q1)) == Active(Some(q2));
    assert FilterCorpus(corpus, Some(q1)) == FilterCorpus(corpus, Some(q2));
  }

  /** The fields are compared case-insensitively too: an entry whose three
      fields differ from another's only in the case of ASCII letters matches
      the same terms. */
  lemma FieldCaseIgnored(term: string, e: EnhancedLink, e': EnhancedLink)
    requires |e.title| == |e'.title| && forall i :: 0 <= i < |e.title| ==> CaseVariant(e.title[i], e'.title[i])
    requires |e.pageTitle| == |e'.pageTitle| &&
             forall i :: 0 <= i < |e.pageTitle| ==> CaseVariant(e.pageTitle[i], e'.pageTitle[i])
    requires |e.pageDescription| == |e'.pageDescription| &&
             forall i :: 0 <= i < |e.pageDescription| ==> CaseVariant(e.pageDescription[i], e'.pageDescription[i])
    ensures Matches(term, e) <==> Matches(term, e')
  {
    ToLowerIgnoresCase(e.title, e'.title);
    ToLowerIgnoresCase(e.pageTitle, e'.pageTitle);
    ToLowerIgnoresCase(e.pageDescription, e'.pageDescription);
  }

  /** A blank query (only whitespace, or empty, or absent) answers with the
      whole corpus in corpus order. */
  lemma BlankQueryReturnsAll(corpus: seq<EnhancedLink>, search: Option<string>)
    requires search.None? || AllSpace(search.value)
    ensures var r := SearchDocsList(corpus, search);
            && r.total == |corpus|
            && forall i :: 0 <= i < |corpus| ==> r.links[i] == Project(corpus[i])
  {
  }

  /** For a non-blank query, every returned link is the projection of a corpus entry that contains
      the term in one of its three fields, and every such entry is returned. */
  lemma SearchReturnsExactlyMatches(corpus: seq<EnhancedLink>, query: string, e: EnhancedLink)
    requires !AllSpace(query)
    ensures var r := SearchDocsList(corpus, Some(query));
            Project(e) in r.links <==> e in corpus && Matches(SearchTerm(query), e)
  {
    assert Active(Some(query));
    ProjectedMembers(FilterCorpus(corpus, Some(query)), SearchDocsList(corpus, Some(query)).links, e);
  }

  /** `links` projects `kept` element by element, so a projection is listed
      exactly when its entry is kept (the projection keeps every field). */
  lemma ProjectedMembers(kept: seq<EnhancedLink>, links: seq<OutLink>, e: EnhancedLink)
    requires |links| == |kept| && forall i :: 0 <= i < |kept| ==> links[i] == Project(kept[i])
    ensures Project(e) in links <==> e in kept
  {
    if Project(e) in links {
      var i :| 0 <= i < |links| && links[i] == Project(e);
      assert kept[i] == e;
    }
    if e in kept {
      var i :| 0 <= i < |kept| && kept[i] == e;
      assert links[i] == Project(e);
    }
  }
}
