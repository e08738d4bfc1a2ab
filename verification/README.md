# Unreal Engine documentation MCP server — a Dafny model of its data pipeline and served search

The system serves a searchable list of Unreal Engine documentation pages to
MCP clients. A chain of offline scripts builds the data:

- `parse-nav` extracts navigation links from a saved navigation page into `list.json`;
- `fetch-descriptions` crawls every link for its title and meta description and writes `descriptions.json`;
- `merge-data` joins the two files into `enhanced-list.json`;
- `build-vector-db` embeds every merged entry and stores it in a LanceDB table.

At start-up the server (`src/index.ts`) joins `list.json` with
`descriptions.json` itself. Its `search_docs_list` tool answers with a
case-insensitive substring filter over three fields. `src/vector-search.ts`
is a semantic-search adapter over the LanceDB table, and it degrades to an
empty answer when the embedding service or the table fails.

This project models each of those stages as pure Dafny functions and methods
over sequences, strings and maps, and proves what each stage promises:

- order preservation and exact filtering;
- defaulting of missing fields;
- batch partitions that cover the input exactly once;
- counter invariants;
- idempotent normalisation;
- the degradation rules of the adapter.

Files and modules:

| file | module | models |
|---|---|---|
| `text.dfy` | `Text` | `trim`, `toLowerCase`, `startsWith`, `includes`, decimal rendering |
| `seqs.dfy` | `Seqs` | `filter`, push-if loops, counting, subsequences, fixed-size batching |
| `corpus.dfy` | `Corpus` | records shared by the JSON files, and the outcome of reading them |
| `embedding.dfy` | `Embedding` | the embedding service shared by `build-vector-db` and `vector-search` |
| `served_search.dfy` | `ServedSearch` | `src/index.ts` |
| `merge_data.dfy` | `MergeData` | `scripts/merge-data.ts` |
| `parse_nav.dfy` | `ParseNav` | `scripts/parse-nav.ts` and `scripts/parse-nav.js` |
| `build_vector_db.dfy` | `BuildVectorDb` | `scripts/build-vector-db.ts` |
| `fetch_descriptions.dfy` | `FetchDescriptions` | `scripts/fetch-descriptions.ts` |
| `vector_search.dfy` | `VectorSearch` | `src/vector-search.ts` |

The environment enters the model as parameters:

- **Files.** File contents arrive as `ListFile`, `DescriptionsFile` and `SourceFile` values. Each includes the case of a file that cannot be read or parsed, and `SourceFile` also has the missing-file case checked by `existsSync`.
- **Crawler.** The browser's result for each link is a `Visit`.
- **Embedding service.** It is an `Embedder`, a function from a batch of texts to its vectors or a failure.
- **Database and file system.** For the adapter they form a `Backend` of abstract outcomes.

JavaScript's `String.prototype.trim` is modelled with the exact ECMAScript
whitespace and line-terminator set.

## Model

| member | source | states |
|---|---|---|
| Text.Trim | src/index.ts:117-118 | the result is a slice of the input with only whitespace outside it, and neither starts nor ends with whitespace. It is empty iff the input is all whitespace |
| Text.TrimNonSpaceStart | scripts/build-vector-db.ts:122 | a string starting with a non-space only loses trailing whitespace to `trim`, and keeps every character up to any later non-space |
| Text.TrimLowerCommute | src/index.ts:117-118 | lower-casing then trimming equals trimming then lower-casing, so the search term is empty exactly when the trimmed query is |
| Text.ToLower | src/index.ts:118-124 | lower-casing keeps the length |
| Text.ToLowerLowersAscii | src/index.ts:118-124 | no ASCII capital survives lower-casing, each capital becomes its own small letter (code point + 32), and every other character is unchanged |
| Text.ToLowerIgnoresCase | src/index.ts:118-124 | two strings that differ only in the case of ASCII letters lower-case to the same string |
| Text.NatToString | scripts/build-vector-db.ts:128 | the rendering of an index is a non-empty string of decimal digits |
| Text.Includes | src/index.ts:126-130 | `s.includes(t)` holds iff `t` occurs in `s` at some offset |
| Text.ParseNatToString | scripts/build-vector-db.ts:128 | the decimal rendering of an index reads back as that index |
| Text.NatToStringInjective | scripts/build-vector-db.ts:128 | distinct indices render as distinct strings |
| Seqs.Count | src/index.ts:136 | the count of matching elements is at most the length. It equals the length iff all elements match, and is 0 iff none do |
| Seqs.Filter | src/index.ts:120-131 | the result holds exactly the matching elements, as a subsequence of the input, with one element per match |
| Seqs.FilterUnique | src/index.ts:120-131 | those three properties determine the filtered sequence uniquely |
| Seqs.FilterMap | scripts/parse-nav.ts:36-51 | a push-if loop emits at most one value per element |
| Seqs.FilterMapAt | scripts/parse-nav.ts:36-51 | the loop emits one value per matching element, and the i-th value is `f` of the i-th matching element |
| Seqs.FilterMapMembers | scripts/parse-nav.ts:37-50 | a matching element's value is emitted, and every emitted value comes from a matching element |
| Seqs.FilterMapAppend | scripts/parse-nav.ts:36-51 | on two runs of input the loop emits the first run's values followed by the second's |
| Seqs.FilterMapProject | scripts/parse-nav.js:25-41 | projecting each emitted value equals running the loop with the projected function, position by position |
| Seqs.CountSnoc | scripts/fetch-descriptions.ts:396-406 | a running counter over a growing prefix adds one exactly for a matching new element |
| Seqs.NumChunksIsCeil | scripts/fetch-descriptions.ts:293 | the number of batches of `size` is ⌈n/size⌉ |
| Seqs.NumChunksCovers | scripts/fetch-descriptions.ts:295-297 | every batch starts inside the input, and the batches reach its end |
| Seqs.Chunk | scripts/build-vector-db.ts:140-141 | ⌈n/size⌉ batches, each non-empty and at most `size` long. Every batch but the last is full |
| Seqs.ChunkFlatten | scripts/build-vector-db.ts:140-141 | concatenating the batches gives back the input: every element lands in exactly one batch, in order |
| Seqs.ChunkAt | scripts/fetch-descriptions.ts:296-298 | batch `b` is the slice from `b*size` to `min(b*size+size, n)` |
| ServedSearch.BuildCorpus | src/index.ts:70-79 | one corpus entry per list entry, in order, with title and link unchanged. Page title and description are those of the map entry for the URL, and "" when the entry or field is missing or empty |
| Corpus.LoadPageData | src/index.ts:54-66 | the page map is the file's `pages` when the file parses and has one, and the empty map when it is unreadable or lacks `pages` |
| ServedSearch.LoadCorpus | src/index.ts:35-97 | an unreadable `list.json` leaves the corpus empty. Otherwise entry i carries the title and link of list entry i, and page fields fixed by the join relation over the loaded page map. It is the corpus built from the list and that map |
| ServedSearch.MissingDescriptionsGiveEmptyPageFields | src/index.ts:54-79 | without `descriptions.json` every entry keeps its list fields and has empty page fields |
| ServedSearch.Active | src/index.ts:117 | a query is applied iff it is present and not all whitespace |
| ServedSearch.SearchTerm | src/index.ts:118 | the term is the trimmed query lower-cased, and it is empty iff the query is all whitespace |
| ServedSearch.Matches | src/index.ts:120-131 | the empty term matches every entry, and a matching term is no longer than one of the three fields |
| ServedSearch.FilterCorpus | src/index.ts:114-132 | an absent or blank query keeps the whole corpus. Otherwise the term is non-empty, and an entry is kept iff one of its three lower-cased fields contains the term. The kept entries form an order-preserving subsequence, one per matching entry |
| ServedSearch.SearchDocsList | src/index.ts:134-144 | `total` is the number of returned links. Each link is the projection of the kept entry at its position. `search` echoes the argument, with an empty string echoed as null |
| ServedSearch.BlankQueryReturnsAll | src/index.ts:114-117 | an absent, empty or whitespace-only query returns every corpus entry, in order |
| ServedSearch.SearchReturnsExactlyMatches | src/index.ts:117-143 | an entry's projection is returned iff the entry is in the corpus and matches the term |
| ServedSearch.QueryCaseIgnored | src/index.ts:117-131 | two queries that differ only in the case of ASCII letters return the same links and the same total |
| ServedSearch.FieldCaseIgnored | src/index.ts:120-131 | entries whose title, page title and description differ only in ASCII case match the same terms |
| MergeData.MergeLinks | scripts/merge-data.ts:88-96 | one merged link per list entry, in order, with `navTitle = title` and the link unchanged. Page fields come from the map entry for the URL and default to "" |
| MergeData.SameLinkSamePageFields | scripts/merge-data.ts:89-94 | two list entries with the same URL receive the same page title and description |
| MergeData.MergeAgreesWithServedCorpus | scripts/merge-data.ts:88-96 | the offline merge and the server's join agree entry by entry, up to the name of the navigation-title field |
| MergeData.JoinedTitlesAgree | scripts/merge-data.ts:93 | the join relation determines the page title |
| MergeData.JoinedDescriptionsAgree | scripts/merge-data.ts:94 | the join relation determines the page description |
| MergeData.Merge | scripts/merge-data.ts:57-123 | an unreadable `list.json` makes the script exit. Otherwise `total` and `stats.totalLinks` both equal the number of merged links, and both counters are at most that |
| MergeData.CountersCountNonEmptyFields | scripts/merge-data.ts:99-102 | each counter counts the entries whose field is non-empty. It equals the total iff every entry has the field, and is 0 iff none has |
| MergeData.MissingDescriptionsZeroCounters | scripts/merge-data.ts:73-102 | without `descriptions.json` both counters are 0 |
| ParseNav.NormaliseUrl | scripts/parse-nav.ts:42-44 | the URL starts with "http" and ends with the href. It equals the href iff the href starts with "http"; any other href is prefixed with "https://dev.epicgames.com" |
| ParseNav.NormaliseIdempotent | scripts/parse-nav.ts:42-44 | normalising a normalised URL changes nothing |
| ParseNav.ParseNavigation | scripts/parse-nav.ts:36-51 | the loop emits at most one link per anchor |
| ParseNav.ParseNavigationFollowsKeptAnchors | scripts/parse-nav.ts:36-51 | there is one link per anchor that passes the keep rule (href present and non-empty, trimmed text non-empty), and the i-th link is built from the i-th such anchor |
| ParseNav.ParseNavigationKeepsExactly | scripts/parse-nav.ts:37-50 | a kept anchor's link is emitted, and every emitted link comes from a kept anchor. There are at most as many links as anchors |
| ParseNav.ParseNavigationAppend | scripts/parse-nav.ts:36-51 | extraction from two runs of anchors is the concatenation of the two extractions |
| ParseNav.ParsedLinksWellFormed | scripts/parse-nav.ts:38-49 | every title is non-empty and already trimmed, and every link is absolute |
| ParseNav.ParseOutput | scripts/parse-nav.ts:63-67 | `total` equals the number of emitted links, which is at most the number of anchors |
| ParseNav.ParseNavigationWithPath | scripts/parse-nav.js:25-41 | the loop emits at most one entry per anchor |
| ParseNav.PathIsRawHref | scripts/parse-nav.js:25-41 | parse-nav.js emits one entry per kept anchor. The i-th entry has the trimmed text of the i-th kept anchor as title, that anchor's raw href as `path`, and the normalised href as `link` |
| ParseNav.ScriptsAgree | scripts/parse-nav.js:25-41 | forgetting `path`, the two scripts emit the same links in the same order |
| ParseNav.ParseOutputWithPath | scripts/parse-nav.js:53-57 | `total` equals the number of emitted links, which is at most the number of anchors |
| BuildVectorDb.CombineDocumentText | scripts/build-vector-db.ts:117-123 | the text is the labelled template (missing fields as "") with trailing whitespace removed, and it always starts with the navigation-title label |
| BuildVectorDb.TemplateShape | scripts/build-vector-db.ts:122 | the template starts with the label and has a non-space character after the navigation title |
| BuildVectorDb.DocIdInjective | scripts/build-vector-db.ts:128 | distinct positions get distinct `doc_<i>` ids |
| BuildVectorDb.PrepareDocuments | scripts/build-vector-db.ts:127-134 | one document per entry, in order, built from that entry and its position. The ids are pairwise distinct |
| BuildVectorDb.BatchesAreChunks | scripts/build-vector-db.ts:137-148 | the batch holding document `j` is batch `j/50` of the consecutive 50-element slices. There are ⌈n/50⌉ of them, and they cover the documents in order |
| BuildVectorDb.Vectorize | scripts/build-vector-db.ts:140-164 | the run fails iff some batch's embedding fails. Otherwise each document receives the vector at its position within its batch's answer |
| BuildVectorDb.BatchPositions | scripts/build-vector-db.ts:141 | every position from `i` to the batch end lies in the batch starting at `i` |
| BuildVectorDb.ExtendPrefix | scripts/build-vector-db.ts:151-156 | a successful batch extends the processed prefix by exactly that batch, with positional vectors |
| BuildVectorDb.FailedBatch | scripts/build-vector-db.ts:157-163 | a failed batch makes the whole run fail |
| BuildVectorDb.FullPrefix | scripts/build-vector-db.ts:140-164 | a prefix covering all documents is the successful result, and document `j` gets vector `j mod 50` of its batch's answer |
| BuildVectorDb.VectorDimensionIsFirstVectorLength | scripts/build-vector-db.ts:179-182 | the reported dimension is the length of the first vector of the first batch's answer, or 0 when that answer is empty |
| BuildVectorDb.VectorDimension | scripts/build-vector-db.ts:181-182 | undefined (the read throws) iff there are no documents. Otherwise it is the length of the first document's vector, or 0 without one |
| BuildVectorDb.BuildDatabase | scripts/build-vector-db.ts:77-257 | the script exits with status 1 iff the source file is missing, it cannot be read or parsed as JSON, the probe embedding fails, there are no entries, or a batch fails. Otherwise the documents are exactly the batch-loop reference result over the prepared entries: one per entry, in order, with distinct ids. The reported dimension is the first document's vector length |
| FetchDescriptions.Content | scripts/fetch-descriptions.ts:163-165 | a tag's content is usable iff it is present and non-empty. Whitespace-only content counts as usable |
| FetchDescriptions.FirstContent | scripts/fetch-descriptions.ts:159-199 | the chain finds nothing iff no tag has usable content. Otherwise it finds some tag's usable content |
| FetchDescriptions.ExtractPageInfo | scripts/fetch-descriptions.ts:155-205 | the title is the trimmed document title. The description is the trimmed first usable content among meta, `og:` and `twitter:` descriptions, and "" when there is none |
| FetchDescriptions.FirstOfThree | scripts/fetch-descriptions.ts:159-199 | the three tags are tried in order, and the first usable one wins |
| FetchDescriptions.WhitespaceContentStopsChain | scripts/fetch-descriptions.ts:163-170 | whitespace-only meta content ends the chain with description "", whatever the later tags hold |
| FetchDescriptions.EmptyDescriptionIff | scripts/fetch-descriptions.ts:155-205 | the description is "" iff no tag is usable or the first usable content is whitespace only. A non-empty description has no surrounding whitespace |
| FetchDescriptions.ProcessSinglePage | scripts/fetch-descriptions.ts:117-243 | the result names the link's URL and succeeds iff the page loaded. On success it carries the extracted page info: the trimmed title and the trimmed first usable description, or "". A failure carries empty title and description |
| FetchDescriptions.LinkSetMembers | scripts/fetch-descriptions.ts:400-411 | a URL is a key iff some processed link has it |
| FetchDescriptions.LinkSetSize | scripts/fetch-descriptions.ts:436 | there are at most as many distinct URLs as links |
| FetchDescriptions.PagesAfter | scripts/fetch-descriptions.ts:395-417 | the record's keys are exactly the URLs of the processed links |
| FetchDescriptions.LastOccurrenceWins | scripts/fetch-descriptions.ts:400-411 | a URL listed more than once keeps the value from its last occurrence |
| FetchDescriptions.DistinctLinksFillTotal | scripts/fetch-descriptions.ts:436 | with pairwise distinct URLs, `total` equals the number of links |
| FetchDescriptions.BatchBounds | scripts/fetch-descriptions.ts:293-297 | every batch starts inside the list, and ⌈n/5⌉ batches of 5 reach its end |
| FetchDescriptions.BatchesAreChunks | scripts/fetch-descriptions.ts:293-298 | batch `b` is the `b`-th consecutive 5-element slice. Each batch holds 1 to 5 links, and the batches together are the list, in order |
| FetchDescriptions.PageIndexIsBijection | scripts/fetch-descriptions.ts:344-346 | the 1-based page positions of all batches are exactly 1..n, each reached once |
| FetchDescriptions.RecordStep | scripts/fetch-descriptions.ts:395-417 | handling one result writes its entry under the link's URL and adds one to the success count exactly for a loaded page |
| FetchDescriptions.LastWriteWins | scripts/fetch-descriptions.ts:398-411 | for any values written in turn under the links' URLs, a URL written more than once holds the value of its last write |
| FetchDescriptions.RecordResult | scripts/fetch-descriptions.ts:394-415 | the callback stores the link's entry under its URL: the page data for a fulfilled result, the empty page for a rejected one. It adds one to the success count exactly for a loaded page and one to exactly one of the two counters |
| FetchDescriptions.RecordBatch | scripts/fetch-descriptions.ts:394-415 | after one batch's results, the record, the success count and the failure count are those of all links processed so far |
| FetchDescriptions.CrawlLinks | scripts/fetch-descriptions.ts:287-426 | the record holds, for each distinct URL, the last result for it. The success count is the number of loaded pages, and successes plus failures equal the number of links |
| FetchDescriptions.FetchAll | scripts/fetch-descriptions.ts:245-455 | the script exits iff `list.json` cannot be read or the browser cannot start. Otherwise `total` is the number of distinct URLs (at most the number of links), successes plus failures equal the number of links, and the batch size is 5 |
| VectorSearch.NewEngine | src/vector-search.ts:84-87 | a new engine is uninitialised, has no table, and uses the given path or else the default |
| VectorSearch.Initialize | src/vector-search.ts:89-109 | an initialised engine is returned untouched. A missing path throws before anything is opened. The flag becomes true iff the path exists and the table opens, and the stored table is the one opened at the engine's path. A failure leaves the engine unchanged |
| VectorSearch.InitializeIdempotent | src/vector-search.ts:89-92 | after a successful initialisation, a second one is a no-op whatever the environment does |
| VectorSearch.ProjectRows | src/vector-search.ts:125-130 | one link per row, in order, carrying the row's navigation title, link, page title and page description |
| VectorSearch.NearestRows | src/vector-search.ts:116-122 | a failed embedding gives no rows. With a non-empty embedding answer, the rows are the table query for its first vector under the limit |
| VectorSearch.Search | src/vector-search.ts:111-136 | an initialisation failure propagates. Otherwise a failed embedding or query gives the empty list, and a successful query gives its rows projected in order. An omitted limit is 10 |
| VectorSearch.SearchThrowsOnlyBeforeInit | src/vector-search.ts:111-112 | search throws only on an uninitialised engine whose database is missing or cannot be opened. On an initialised engine it answers and leaves the engine unchanged |
| VectorSearch.EmbeddingOutageGivesEmptyAnswer | src/vector-search.ts:131-135 | when the embedding service fails, an initialised engine answers with the empty list |
| VectorSearch.IsAvailable | src/vector-search.ts:171-184 | availability returns a value and never throws. It is false when the path is missing. Otherwise it is true iff the probe embedding succeeds |
| VectorSearch.AvailableDoesNotGuaranteeSearch | src/vector-search.ts:171-184 | availability does not check the table, so an available engine can still throw from `search` |
| VectorSearch.GetVectorSearchEngine | src/vector-search.ts:188-195 | the first call creates a default engine and stores it. Later calls return the stored engine |
| VectorSearch.SingletonStable | src/vector-search.ts:188-195 | once the slot is filled, every call returns the same engine and leaves the slot unchanged |
| VectorSearch.SearchShared | src/vector-search.ts:89-136 | a search through the shared instance stores the engine it leaves behind, so the slot is initialised iff the call answered |
| VectorSearch.SharedEngineStaysInitialized | src/vector-search.ts:89-92 | once one call through the shared instance has answered, no later call throws, whatever the environment does, and the slot keeps its engine |

## Left out

- Text.ToLower: maps only the ASCII letters. JavaScript's full Unicode case mapping (including characters whose lower case is longer) is not modelled.
- The hybrid keyword-plus-semantic ranker described for the server does not exist in this code. The served search is the substring filter of `src/index.ts`, and that is what is modelled.
- ServedSearch.LoadCorpus: an unreadable `list.json` gives an empty corpus, not a fatal start-up error, because the code catches the error and only logs it. The model follows the code.
- File I/O, JSON parsing, HTML parsing (JSDOM), Playwright browser automation, timing and random delays, browser fingerprints and logging are left out. Their results enter the model as parameters.
- FetchDescriptions.FetchAll: start-up failures other than an unreadable list or a browser that will not start (context creation, page creation) are not modelled. The concurrency of `Promise.allSettled` is reduced to one settled outcome per link, in batch order.
- The `generated` timestamps, the `browser_info` flags, the completion-rate percentages and the success-rate log lines are floating-point or clock output and are left out.
- BuildVectorDb.Vectorize: the embedding service is one function per batch. The per-text requests inside Ollama's `embed` are not modelled, and neither are vector components (reals carried unchanged).
- BuildVectorDb.BuildDatabase: deleting an existing database, creating the LanceDB table, `getDirectorySize`, `formatBytes` and the test query after the build are left out. An empty entry list is modelled as an exit because reading `.vector` of the missing first document throws and `main` exits with status 1; whether LanceDB would already reject the empty table is not modelled.
- VectorSearch.Search: the `limit` (10 when omitted) is passed to the backend query but not enforced by the model, since the row count is the database's business. An empty embedding answer (`queryEmbedding[0]` undefined) is treated as a failed query.
- VectorSearch.Initialize: connecting and opening the `documents` table are one outcome (`openDocuments`), because the code treats a failure of either the same way.
- VectorSearch.Initialize: concurrent initialisation is not modelled. The flag is set only after two `await`s, so overlapping `search` calls can each connect and open the table; the model covers sequential calls only.
- `searchWithScores` (the score is a floating-point `1 - _distance`) and the `OllamaEmbeddingFunction` HTTP client are left out.
- `scripts/fetch-nav.js`, the MCP server plumbing and the tests are not part of this model.
