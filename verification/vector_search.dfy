/**
  The semantic-search adapter (src/vector-search.ts): a `VectorSearchEngine`
  that opens the `documents` table of a LanceDB database once, answers
  queries by embedding them and asking the table for its nearest rows, and
  degrades to an empty answer when embedding or querying fails.

  The database, the file system and the embedding service are a `Backend`
  of abstract outcomes; the engine's mutable fields are an immutable
  `Engine` value that each operation returns updated.
 */
module VectorSearch {
  import opened Corpus
  import opened Embedding

  /** An open LanceDB table; only its identity matters here. */
  type TableHandle = nat

  /** A row of the `documents` table as the query returns it. */
  datatype Row = Row(id: string, navTitle: string, pageTitle: string, pageDescription: string, link: string, text: string)

  /** What `search` hands back for one row. */
  datatype SearchLink = SearchLink(navTitle: string, link: string, pageTitle: string, pageDescription: string)

  /** Everything outside the engine: whether a path exists, whether
      connecting to the database at a path and opening its `documents` table
      succeed, the embedding service, and the nearest-rows query of a table
      for a vector and a limit. */
  datatype Backend = Backend(
    pathExists: string -> bool,
    openDocuments: string -> Option<TableHandle>,
    embed: Embedder,
    query: (TableHandle, Vector, nat) -> Option<seq<Row>>)

  /** The fields of a `VectorSearchEngine`. */
  datatype Engine = Engine(dbPath: string, initialized: bool, table: Option<TableHandle>)

  /** An initialised engine always holds the table it opened. */
  predicate Valid(e: Engine) {
    e.initialized ==> e.table.Some?
  }

  /** The constructor: `dbPath || <default path>`, not yet initialised. */
  function NewEngine(dbPath: Option<string>, defaultPath: string): (e: Engine)
    ensures Valid(e) && !e.initialized && e.table.None?
    ensures e.dbPath == if dbPath.Some? && dbPath.value != "" then dbPath.value else defaultPath
  {
    Engine(if OrEmpty(dbPath) != "" then OrEmpty(dbPath) else defaultPath, false, None)
  }

  /** Why `initialize` throws. */
  datatype InitFailure = MissingDatabase | OpenFailed

  datatype InitOutcome = InitOutcome(engine: Engine, failure: Option<InitFailure>)

  /** `initialize`: nothing to do once initialised; otherwise a missing
      database path throws before anything is opened, and the engine becomes
      initialised only when connecting and opening the table both succeed.
      A failure leaves the engine as it was. */
  function Initialize(e: Engine, b: Backend): (r: InitOutcome)
    ensures e.initialized ==> r == InitOutcome(e, None)
    ensures !e.initialized && !b.pathExists(e.dbPath) ==> r == InitOutcome(e, Some(MissingDatabase))
    ensures r.failure.Some? ==> r.engine == e && !e.initialized
    ensures r.failure.None? <==> r.engine.initialized
    ensures r.engine.initialized <==>
              e.initialized || (b.pathExists(e.dbPath) && b.openDocuments(e.dbPath).Some?)
    ensures !e.initialized && r.engine.initialized ==> r.engine.table == b.openDocuments(e.dbPath)
    ensures r.engine.dbPath == e.dbPath
    ensures Valid(e) ==> Valid(r.engine)
  {
    if e.initialized then InitOutcome(e, None)
    else if !b.pathExists(e.dbPath) then InitOutcome(e, Some(MissingDatabase))
    else match b.openDocuments(e.dbPath)
      case Some(t) => InitOutcome(e.(table := Some(t), initialized := true), None)
      case None => InitOutcome(e, Some(OpenFailed))
  }

  /** Initialising an initialised engine neither consults the backend nor
      changes anything, so a second `initialize` after a successful one is a
      no-op whatever the environment does by then. */
  lemma InitializeIdempotent(e: Engine, b: Backend, later: Backend)
    requires Initialize(e, b).failure.None?
    ensures Initialize(Initialize(e, b).engine, later) == InitOutcome(Initialize(e, b).engine, None)
  {
  }

  /** Projection of a result row onto the four returned fields. */
  function ToSearchLink(row: Row): SearchLink {
    SearchLink(row.navTitle, row.link, row.pageTitle, row.pageDescription)
  }

  /** `results.map(...)`. */
  function ProjectRows(rows: seq<Row>): (links: seq<SearchLink>)
    ensures |links| == |rows|
    ensures forall i :: 0 <= i < |rows| ==>
              && links[i].navTitle == rows[i].navTitle && links[i].link == rows[i].link
              && links[i].pageTitle == rows[i].pageTitle && links[i].pageDescription == rows[i].pageDescription
  {
    seq(|rows|, i requires 0 <= i < |rows| => ToSearchLink(rows[i]))
  }

  /** `search` either throws (its `initialize` call is outside the `try`) or
      answers a list. */
  datatype SearchOutcome = Threw(engine: Engine, failure: InitFailure) | Answered(engine: Engine, links: seq<SearchLink>)

  /** The rows the query yields for `query`, or None when embedding fails,
      the embedding answer is empty (`queryEmbedding[0]` is undefined), or
      the table query fails. */
  function NearestRows(b: Backend, table: TableHandle, query: string, limit: nat): (rows: Option<seq<Row>>)
    ensures b.embed([query]).None? ==> rows.None?
    ensures rows.Some? ==> exists v :: v in b.embed([query]).value && b.query(table, v, limit) == rows
    ensures b.embed([query]).Some? && |b.embed([query]).value| > 0 ==>
              rows == b.query(table, b.embed([query]).value[0], limit)
  {
    match b.embed([query])
    case None => None
    case Some(vectors) =>
      if |vectors| == 0 then None else b.query(table, vectors[0], limit)
  }

  /** The default `limit` of `search`. */
  const DefaultLimit: nat := 10

  /** The row limit a call asks for: the argument, or the default when it
      is omitted. */
  function EffectiveLimit(limit: Option<nat>): nat {
    match limit
    case Some(n) => n
    case None => DefaultLimit
  }

  /** `search(query, limit)`: initialisation failures propagate; once
      initialised, every embedding or query failure yields the empty list,
      and a successful query yields its rows projected, in order. */
  function Search(e: Engine, b: Backend, query: string, limit: Option<nat>): (r: SearchOutcome)
    requires Valid(e)
    ensures Valid(r.engine)
    ensures r.engine == Initialize(e, b).engine
    ensures r.Threw? <==> Initialize(e, b).failure.Some?
    ensures r.Threw? ==> r.failure == Initialize(e, b).failure.value && r.engine == e
    ensures r.Answered? ==> r.engine.initialized && r.engine.table.Some?
    ensures r.Answered? ==>
              match NearestRows(b, r.engine.table.value, query, EffectiveLimit(limit))
              case None => r.links == []
              case Some(rows) => r.links == ProjectRows(rows)
  {
    var init := Initialize(e, b);
    match init.failure
    case Some(f) => Threw(init.engine, f)
    case None =>
      match NearestRows(b, init.engine.table.value, query, EffectiveLimit(limit))
      case None => Answered(init.engine, [])
      case Some(rows) => Answered(init.engine, ProjectRows(rows))
  }

  /** Only a missing or unopenable database makes `search` throw; in
      particular it never throws on an engine that is already initialised,
      and then it leaves the engine unchanged. */
  lemma SearchThrowsOnlyBeforeInit(e: Engine, b: Backend, query: string, limit: Option<nat>)
    requires Valid(e)
    ensures Search(e, b, query, limit).Threw? ==>
              !e.initialized && (!b.pathExists(e.dbPath) || b.openDocuments(e.dbPath).None?)
    ensures e.initialized ==> Search(e, b, query, limit) == Answered(e, Search(e, b, query, limit).links)
  {
  }

  /** When the embedding service is down, an initialised engine answers the
      empty list rather than failing. */
  lemma EmbeddingOutageGivesEmptyAnswer(e: Engine, b: Backend, query: string, limit: Option<nat>)
    requires Valid(e) && e.initialized && b.embed([query]).None?
    ensures Search(e, b, query, limit) == Answered(e, [])
  {
  }

  /** The probe text embedded by `isAvailable`. */
  const ProbeText: string := "测试"

  /** `isAvailable`: never throws; false when the database path is missing
      or the probe embedding fails, true otherwise. The engine's own state
      plays no part. */
  function IsAvailable(e: Engine, b: Backend): (available: bool)
    ensures available ==> b.pathExists(e.dbPath)
    ensures !b.pathExists(e.dbPath) ==> !available
    ensures b.pathExists(e.dbPath) ==> (available <==> b.embed([ProbeText]).Some?)
  {
    b.pathExists(e.dbPath) && b.embed([ProbeText]).Some?
  }

  /** Availability depends only on the path and the embedding service: it
      does not reflect whether the table can actually be opened, so an
      available engine can still throw from `search`. */
  lemma AvailableDoesNotGuaranteeSearch(e: Engine, b: Backend, query: string, limit: Option<nat>)
    requires Valid(e) && !e.initialized && IsAvailable(e, b) && b.openDocuments(e.dbPath).None?
    ensures Search(e, b, query, limit) == Threw(e, OpenFailed)
    ensures IsAvailable(e.(initialized := true, table := Some(0)), b)
  {
  }

  /** `getVectorSearchEngine` over the module-level `vectorSearchEngine`
      slot: the first call creates an engine with the default path and
      stores it; every later call returns the stored one. The slot stands
      for the one shared instance, so an operation on it must store the
      engine it leaves behind (`SearchShared`). */
  function GetVectorSearchEngine(slot: Option<Engine>, defaultPath: string): (r: (Engine, Option<Engine>))
    ensures r.1 == Some(r.0)
    ensures slot.Some? ==> r.0 == slot.value
    ensures slot.None? ==> r.0 == NewEngine(None, defaultPath)
  {
    match slot
    case Some(e) => (e, slot)
    case None =>
      var e := NewEngine(None, defaultPath);
      (e, Some(e))
  }

  /** After the first call the slot no longer changes and every call hands
      out the same engine. */
  lemma SingletonStable(slot: Option<Engine>, defaultPath: string, otherPath: string)
    ensures var (first, after) := GetVectorSearchEngine(slot, defaultPath);
            GetVectorSearchEngine(after, otherPath) == (first, after)
  {
  }

  /** `getVectorSearchEngine().search(query, limit)` on the shared instance:
      the slot holds the one engine every caller uses, so whatever `search`
      does to that engine's state is what the next caller sees. */
  function SearchShared(slot: Option<Engine>, defaultPath: string, b: Backend, query: string, limit: Option<nat>)
    : (r: (SearchOutcome, Option<Engine>))
    requires slot.Some? ==> Valid(slot.value)
    ensures r.1.Some? && Valid(r.1.value) && r.1.value == r.0.engine
    ensures slot.Some? ==> r.1.value.dbPath == slot.value.dbPath
    ensures slot.None? ==> r.1.value.dbPath == defaultPath
    ensures r.0.Threw? ==> !r.1.value.initialized
    ensures r.0.Answered? ==> r.1.value.initialized
  {
    var (e, _) := GetVectorSearchEngine(slot, defaultPath);
    var outcome := Search(e, b, query, limit);
    (outcome, Some(outcome.engine))
  }

  /** Once a call through the shared instance has answered, the instance is
      initialised for good: no later call throws, whatever the database path
      or the embedding service do by then, and the slot keeps that engine. */
  lemma {:induction false} SharedEngineStaysInitialized(slot: Option<Engine>, defaultPath: string, b: Backend, query: string,
                                     limit: Option<nat>, later: Backend, laterQuery: string, laterLimit: Option<nat>)
    requires slot.Some? ==> Valid(slot.value)
    requires SearchShared(slot, defaultPath, b, query, limit).0.Answered?
    ensures var after := SearchShared(slot, defaultPath, b, query, limit).1;
            && SearchShared(after, defaultPath, later, laterQuery, laterLimit).0.Answered?
            && SearchShared(after, defaultPath, later, laterQuery, laterLimit).1 == after
  {
    var after := SearchShared(slot, defaultPath, b, query, limit).1;
    SearchThrowsOnlyBeforeInit(after.value, later, laterQuery, laterLimit);
  }
}
