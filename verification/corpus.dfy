/**
  Records shared by the pipeline's JSON files: `sources/list.json` (the
  navigation list) and `sources/descriptions.json` (per-URL page info), and
  the outcome of reading them.
 */
module Corpus {

  datatype Option<T> = None | Some(value: T)

  /** `field || ""` for an optional string field: among strings only "" is
      falsy, so a present field is kept as is and a missing one becomes "". */
  function OrEmpty(field: Option<string>): string {
    match field
    case Some(s) => s
    case None => ""
  }

  /** One entry of `list.json`: the navigation title and the absolute URL. */
  datatype NavLink = NavLink(title: string, link: string)

  /** One value of the `pages` record of `descriptions.json`; either field
      may be missing from the JSON. */
  datatype PageInfo = PageInfo(title: Option<string>, description: Option<string>)

  /** The `pages` record, keyed by page URL. */
  type PageMap = map<string, PageInfo>

  /** `pageTitle` is what the page-info map holds as the title of `link`:
      a non-empty value comes from the map entry for `link`, and a present
      title in that entry is taken over unchanged. Together: the value is ""
      exactly when the entry or its title is missing or the title is "". */
  ghost predicate TitleJoined(pageTitle: string, link: string, pageData: PageMap) {
    && (pageTitle != "" ==> link in pageData && pageData[link].title == Some(pageTitle))
    && (link in pageData && pageData[link].title.Some? ==> pageTitle == pageData[link].title.value)
  }

  /** The same relation for the page description. */
  ghost predicate DescriptionJoined(pageDescription: string, link: string, pageData: PageMap) {
    && (pageDescription != "" ==> link in pageData && pageData[link].description == Some(pageDescription))
    && (link in pageData && pageData[link].description.Some? ==> pageDescription == pageData[link].description.value)
  }

  /** Reading and parsing `list.json`: it may fail, and a parsed file may lack `links`. */
  datatype ListFile = ListUnreadable | ListParsed(links: Option<seq<NavLink>>)

  /** Reading and parsing `descriptions.json`: it may fail, and a parsed file may lack `pages`. */
  datatype DescriptionsFile = DescriptionsUnreadable | DescriptionsParsed(pages: Option<PageMap>)

  /** `listData.links || []`. */
  function LinksOf(links: Option<seq<NavLink>>): seq<NavLink> {
    match links
    case Some(ls) => ls
    case None => []
  }

  /** The page-info map both joins start from: `descriptionsData.pages || {}`
      when the file parses, and `{}` when reading or parsing it throws (the
      error is caught and only logged). */
  function LoadPageData(file: DescriptionsFile): (pageData: PageMap)
    ensures file.DescriptionsUnreadable? ==> pageData == map[]
    ensures file.DescriptionsParsed? ==> pageData == if file.pages.Some? then file.pages.value else map[]
  {
    match file
    case DescriptionsUnreadable => map[]
    case DescriptionsParsed(pages) =>
      match pages
      case Some(m) => m
      case None => map[]
  }
}
