/**
  Embedding-input preparation (scripts/build-vector-db.ts): each merged
  entry becomes a document with id `doc_<index>` and a labelled text,
  the texts are embedded in batches of 50, and each document receives the
  vector at its position in its batch's answer. The embedding service is a
  parameter: a function from a batch of texts to its vectors, or to a
  failure (on which the script exits with status 1).
 */
module BuildVectorDb {
  import opened Corpus
  import opened Embedding
  import opened Text
  import Seqs

  /** An entry of `enhanced-list.json`. */
  datatype EnhancedDoc = EnhancedDoc(navTitle: string, link: string, pageTitle: Option<string>, pageDescription: Option<string>)

  /** A row of the `documents` table; `vector` is unset until embedding. */
  datatype DocumentInput = DocumentInput(
    id: string, navTitle: string, pageTitle: string, pageDescription: string,
    link: string, text: string, vector: Option<Vector>)

  const NavTitleLabel: string := "导航标题: "
  const PageTitleLabel: string := "\n页面标题: "
  const PageDescriptionLabel: string := "\n页面描述: "

  /** The template literal before `.trim()`. */
  function Template(navTitle: string, pageTitle: string, pageDescription: string): string {
    NavTitleLabel + navTitle + PageTitleLabel + pageTitle + PageDescriptionLabel + pageDescription
  }

  /** `combineDocumentText`: the labelled template, trimmed. The template
      starts with a label, so trimming only ever removes trailing
      whitespace, and the navigation-title label always survives. */
  function CombineDocumentText(doc: EnhancedDoc): (text: string)
    ensures text == TrimEnd(Template(doc.navTitle, OrEmpty(doc.pageTitle), OrEmpty(doc.pageDescription)))
    ensures StartsWith(text, NavTitleLabel)
  {
    var raw := Template(doc.navTitle, OrEmpty(doc.pageTitle), OrEmpty(doc.pageDescription));
    var k := |NavTitleLabel| + |doc.navTitle| + 1;
    TemplateShape(doc.navTitle, OrEmpty(doc.pageTitle), OrEmpty(doc.pageDescription));
    TrimNonSpaceStart(raw, k);
    assert Trim(raw)[..|NavTitleLabel|] == Trim(raw)[..k + 1][..|NavTitleLabel|];
    Trim(raw)
  }

  /** The template starts with the label and has a non-space character (the
      first of the page-title label) after it. */
  lemma TemplateShape(navTitle: string, pageTitle: string, pageDescription: string)
    ensures var raw := Template(navTitle, pageTitle, pageDescription);
            var k := |NavTitleLabel| + |navTitle| + 1;
            && k < |raw| && !IsSpace(raw[k]) && !IsSpace(raw[0])
            && raw[..|NavTitleLabel|] == NavTitleLabel
  {
    var raw := Template(navTitle, pageTitle, pageDescription);
    var head := NavTitleLabel + navTitle;
    var tail := PageTitleLabel + pageTitle + PageDescriptionLabel + pageDescription;
    assert raw == head + tail;
    assert raw[|head| + 1] == tail[1] == '页';
    assert raw[0] == head[0] == '导';
    assert raw[..|NavTitleLabel|] == head[..|NavTitleLabel|];
  }

  /** `doc_${index}`. */
  function DocId(index: nat): string {
    "doc_" + NatToString(index)
  }

  /** Distinct positions get distinct ids. */
  lemma DocIdInjective(i: nat, j: nat)
    ensures DocId(i) == DocId(j) ==> i == j
  {
    if DocId(i) == DocId(j) {
      assert DocId(i)[4..] == NatToString(i);
      assert DocId(j)[4..] == NatToString(j);
      NatToStringInjective(i, j);
    }
  }

  /** The document prepared from the entry at position `index`. */
  function Prepare(doc: EnhancedDoc, index: nat): DocumentInput {
    DocumentInput(DocId(index), doc.navTitle, OrEmpty(doc.pageTitle), OrEmpty(doc.pageDescription),
                  doc.link, CombineDocumentText(doc), None)
  }

  /** The `documents` array: one document per entry, in entry order, with
      pairwise distinct ids. */
  function PrepareDocuments(docs: seq<EnhancedDoc>): (documents: seq<DocumentInput>)
    ensures |documents| == |docs|
    ensures forall i :: 0 <= i < |docs| ==> documents[i] == Prepare(docs[i], i)
    ensures forall i, j :: 0 <= i < j < |docs| ==> documents[i].id != documents[j].id
  {
    var documents := seq(|docs|, i requires 0 <= i < |docs| => Prepare(docs[i], i));
    forall i, j | 0 <= i < j < |docs|
      ensures documents[i].id != documents[j].id
    {
      DocIdInjective(i, j);
    }
    documents
  }

  const BatchSize: nat := 50

  /** Start of the batch holding position `j`. */
  function BatchStart(j: nat): nat {
    (j / BatchSize) * BatchSize
  }

  /** The batch `documents.slice(i, i + 50)` that holds position `j`. */
  function BatchOf(documents: seq<DocumentInput>, j: nat): seq<DocumentInput>
    requires j < |documents|
  {
    documents[BatchStart(j) .. Seqs.Min(BatchStart(j) + BatchSize, |documents|)]
  }

  /** The batches the loop walks through are the consecutive 50-element
      slices of `documents`: ⌈n/50⌉ of them, only the last possibly shorter,
      together covering `documents` in order. */
  lemma BatchesAreChunks(documents: seq<DocumentInput>, j: nat)
    requires j < |documents|
    ensures j / BatchSize < |Seqs.Chunk(documents, BatchSize)| == Seqs.CeilDiv(|documents|, BatchSize)
    ensures BatchOf(documents, j) == Seqs.Chunk(documents, BatchSize)[j / BatchSize]
    ensures Seqs.Flatten(Seqs.Chunk(documents, BatchSize)) == documents
  {
    Seqs.NumChunksIsCeil(|documents|, BatchSize);
    Seqs.ChunkAt(documents, BatchSize, j / BatchSize);
    Seqs.ChunkFlatten(documents, BatchSize);
  }

  function Texts(batch: seq<DocumentInput>): seq<string> {
    seq(|batch|, k requires 0 <= k < |batch| => batch[k].text)
  }

  /** `embeddings[index]`: undefined past the end of the answer. */
  function VectorAt(embeddings: seq<Vector>, k: nat): Option<Vector> {
    if k < |embeddings| then Some(embeddings[k]) else None
  }

  /** Document `j` after embedding: the vector at its position within its batch. */
  function WithVector(documents: seq<DocumentInput>, embeddings: seq<Vector>, j: nat): DocumentInput
    requires j < |documents|
  {
    documents[j].(vector := VectorAt(embeddings, j - BatchStart(j)))
  }

  /** What the batch loop computes, stated per document: failure if the
      embedding of any batch fails, otherwise every document with the vector
      at its position in its batch's answer. */
  function Vectorized(documents: seq<DocumentInput>, embed: Embedder): Option<seq<DocumentInput>> {
    if exists j | 0 <= j < |documents| :: embed(Texts(BatchOf(documents, j))).None? then None
    else Some(seq(|documents|, j requires 0 <= j < |documents| =>
                    WithVector(documents, embed(Texts(BatchOf(documents, j))).value, j)))
  }

  /** The `for (let i = 0; i < documents.length; i += batchSize)` loop. */
  method Vectorize(documents: seq<DocumentInput>, embed: Embedder)
    returns (result: Option<seq<DocumentInput>>)
    ensures result == Vectorized(documents, embed)
    ensures result.Some? ==> |result.value| == |documents|
    ensures result.Some? ==> forall j :: 0 <= j < |documents| ==>
              result.value[j].vector == VectorAt(embed(Texts(BatchOf(documents, j))).value, j % BatchSize)
  {
    var n := |documents|;
    var vectorised: seq<DocumentInput> := [];
    var i := 0;
    while i < n
      invariant i % BatchSize == 0
      invariant |vectorised| == Seqs.Min(i, n)
      invariant Prefix(documents, embed, vectorised)
    {
      var batch := documents[i..Seqs.Min(i + BatchSize, n)];
      match embed(Texts(batch))
      case None =>
        FailedBatch(documents, embed, i);
        return None;
      case Some(embeddings) =>
        var updated := seq(|batch|, k requires 0 <= k < |batch| => batch[k].(vector := VectorAt(embeddings, k)));
        ExtendPrefix(documents, embed, vectorised, embeddings, updated);
        vectorised := vectorised + updated;
        i := i + BatchSize;
    }
    FullPrefix(documents, embed, vectorised);
    result := Some(vectorised);
  }

  /** `vs` is what the loop has produced for the first `|vs|` documents:
      every batch so far was embedded and each of its documents carries the
      vector at its position in the batch's answer. */
  ghost predicate Prefix(documents: seq<DocumentInput>, embed: Embedder, vs: seq<DocumentInput>) {
    && |vs| <= |documents|
    && forall j :: 0 <= j < |vs| ==>
         && embed(Texts(BatchOf(documents, j))).Some?
         && vs[j] == WithVector(documents, embed(Texts(BatchOf(documents, j))).value, j)
  }

  /** Position `k` of the batch starting at `i` is document `i + k`, which
      lies in that batch. */
  lemma BatchPositions(documents: seq<DocumentInput>, i: nat)
    requires i < |documents| && i % BatchSize == 0
    ensures forall j :: i <= j < Seqs.Min(i + BatchSize, |documents|) ==>
              BatchStart(j) == i && BatchOf(documents, j) == documents[i..Seqs.Min(i + BatchSize, |documents|)]
  {
    forall j | i <= j < Seqs.Min(i + BatchSize, |documents|)
      ensures BatchStart(j) == i
    {
      assert i == BatchSize * (i / BatchSize);
      Seqs.DivUnique(j, BatchSize, i / BatchSize, j - i);
    }
  }

  /** One successful batch extends the processed prefix by that batch. */
  lemma ExtendPrefix(documents: seq<DocumentInput>, embed: Embedder,
                     vs: seq<DocumentInput>, embeddings: seq<Vector>, updated: seq<DocumentInput>)
    requires Prefix(documents, embed, vs)
    requires |vs| < |documents| && |vs| % BatchSize == 0
    requires var batch := documents[|vs|..Seqs.Min(|vs| + BatchSize, |documents|)];
             && embed(Texts(batch)) == Some(embeddings)
             && updated == seq(|batch|, k requires 0 <= k < |batch| => batch[k].(vector := VectorAt(embeddings, k)))
    ensures |vs + updated| == Seqs.Min(|vs| + BatchSize, |documents|)
    ensures Prefix(documents, embed, vs + updated)
  {
    var i := |vs|;
    BatchPositions(documents, i);
    var r := vs + updated;
    forall j | 0 <= j < |r|
      ensures embed(Texts(BatchOf(documents, j))).Some?
      ensures r[j] == WithVector(documents, embed(Texts(BatchOf(documents, j))).value, j)
    {
      if j >= i {
        assert r[j] == updated[j - i];
      } else {
        assert r[j] == vs[j];
      }
    }
  }

  /** A failed batch makes the whole run fail. */
  lemma FailedBatch(documents: seq<DocumentInput>, embed: Embedder, i: nat)
    requires i < |documents| && i % BatchSize == 0
    requires embed(Texts(documents[i..Seqs.Min(i + BatchSize, |documents|)])).None?
    ensures Vectorized(documents, embed) == None
  {
    BatchPositions(documents, i);
    assert embed(Texts(BatchOf(documents, i))).None?;
  }

  /** A prefix covering every document is the successful result. */
  lemma FullPrefix(documents: seq<DocumentInput>, embed: Embedder, vs: seq<DocumentInput>)
    requires Prefix(documents, embed, vs) && |vs| == |documents|
    ensures Vectorized(documents, embed) == Some(vs)
    ensures forall j :: 0 <= j < |documents| ==>
              vs[j].vector == VectorAt(embed(Texts(BatchOf(documents, j))).value, j % BatchSize)
  {
    assert vs == seq(|documents|, j requires 0 <= j < |documents| =>
                       WithVector(documents, embed(Texts(BatchOf(documents, j))).value, j));
  }

  /** The reported vector dimension: `documents[0].vector?.length || 0`;
      with no documents `documents[0]` is undefined and reading `.vector`
      throws. */
  function VectorDimension(documents: seq<DocumentInput>): (dimension: Option<nat>)
    ensures dimension.None? <==> |documents| == 0
    ensures |documents| > 0 && documents[0].vector.Some? ==> dimension == Some(|documents[0].vector.value|)
    ensures |documents| > 0 && documents[0].vector.None? ==> dimension == Some(0)
  {
    if |documents| == 0 then None
    else match documents[0].vector
      case Some(v) => Some(|v|)
      case None => Some(0)
  }

  /** After a successful run the reported dimension is the length of the
      first vector of the first batch's answer, or 0 if that answer is empty. */
  lemma VectorDimensionIsFirstVectorLength(documents: seq<DocumentInput>, embed: Embedder)
    requires |documents| > 0 && Vectorized(documents, embed).Some?
    ensures var first := embed(Texts(BatchOf(documents, 0))).value;
            VectorDimension(Vectorized(documents, embed).value)
              == Some(if |first| > 0 then |first[0]| else 0)
  {
  }

  /** `sources/enhanced-list.json`: missing; present but unreadable or not
      valid JSON (`readFileSync` or `JSON.parse` throws); or parsed with a
      possibly missing `links`. */
  datatype SourceFile = SourceMissing | SourceUnreadable | SourceParsed(links: Option<seq<EnhancedDoc>>)

  /** What `buildVectorDatabase` hands to `db.createTable`, with the
      dimension it reports; `Exited` is `process.exit(1)`, either called
      directly or by `main` when the build throws. */
  datatype BuildOutcome = Exited | Built(documents: seq<DocumentInput>, dimension: nat)

  /** The probe text embedded before any document. */
  const ProbeText: string := "测试连接"

  /** `buildVectorDatabase` up to the table creation: exits when the source
      file is missing, when it cannot be read or parsed (the exception
      reaches `main`), when the embedding service fails the probe, when any
      batch fails, or when there are no entries (reading `.vector` of the
      undefined `documents[0]` throws); otherwise the built documents are the
      vectorised prepared entries, in order, with distinct ids, and the
      dimension is the length of the first vector (by
      `VectorDimensionIsFirstVectorLength`, of the first batch's answer). */
  method BuildDatabase(source: SourceFile, embed: Embedder) returns (outcome: BuildOutcome)
    ensures outcome.Exited? <==>
              || source.SourceMissing?
              || source.SourceUnreadable?
              || embed([ProbeText]).None?
              || |LinksOfSource(source)| == 0
              || Vectorized(PrepareDocuments(LinksOfSource(source)), embed).None?
    ensures outcome.Built? ==>
              var docs := LinksOfSource(source);
              && Some(outcome.documents) == Vectorized(PrepareDocuments(docs), embed)
              && |outcome.documents| == |docs| > 0
              && (forall i :: 0 <= i < |docs| ==>
                    outcome.documents[i] == Prepare(docs[i], i).(vector := outcome.documents[i].vector))
              && (forall i, j :: 0 <= i < j < |docs| ==> outcome.documents[i].id != outcome.documents[j].id)
              && VectorDimension(outcome.documents) == Some(outcome.dimension)
  {
    if source.SourceMissing? {
      return Exited;
    }
    if source.SourceUnreadable? {
      return Exited;
    }
    if embed([ProbeText]).None? {
      return Exited;
    }
    var documents := PrepareDocuments(LinksOfSource(source));
    var vectorised := Vectorize(documents, embed);
    match vectorised {
      case None =>
        outcome := Exited;
      case Some(ds) =>
        if |ds| == 0 {
          outcome := Exited;
        } else {
          BuiltDocuments(LinksOfSource(source), embed, ds);
          outcome := Built(ds, VectorDimension(ds).value);
        }
    }
  }

  /** The documents of a successful run over non-empty entries: the prepared
      entries with their vectors, with distinct ids and a dimension. */
  lemma BuiltDocuments(docs: seq<EnhancedDoc>, embed: Embedder, ds: seq<DocumentInput>)
    requires |docs| > 0 && Vectorized(PrepareDocuments(docs), embed) == Some(ds)
    ensures |ds| == |docs|
    ensures forall i :: 0 <= i < |docs| ==> ds[i] == Prepare(docs[i], i).(vector := ds[i].vector)
    ensures forall i, j :: 0 <= i < j < |docs| ==> ds[i].id != ds[j].id
    ensures VectorDimension(ds).Some?
  {
  }

  /** `jsonData.links || []`; no entries when the file is missing or
      unreadable. */
  function LinksOfSource(source: SourceFile): seq<EnhancedDoc> {
    match source
    case SourceMissing => []
    case SourceUnreadable => []
    case SourceParsed(links) =>
      match links
      case Some(ls) => ls
      case None => []
  }
}
