/**
  The embedding service both vector stages talk to: Ollama's `bge-m3`
  model behind `OllamaEmbeddingFunction`, reduced to its observable outcome.
 */
module Embedding {
  import opened Corpus

  /** An embedding vector; its components are carried, never computed on. */
  type Vector = seq<real>

  /** The embedding service (Ollama's `/api/embeddings`, one request per
      text): the vectors for a batch of texts, or a failure if any request
      throws. */
  type Embedder = seq<string> -> Option<seq<Vector>>
}
