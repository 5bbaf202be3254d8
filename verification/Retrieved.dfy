/** The chunk as retrieval hands it to the evidence check, the prompt and the citations. */
module Retrieved {
  import opened Prelude

  /** `quality` is the rendered text-evidence quality of the page the chunk comes from. */
  datatype RetrievedChunk = RetrievedChunk(
    chunkId: int,
    documentId: int,
    documentTitle: string,
    content: string,
    pageStart: Option<int>,
    pageEnd: Option<int>,
    contentType: string,
    quality: string)

  /** A source of a final answer. */
  datatype SourceRef = SourceRef(documentId: int, documentTitle: string, page: Option<int>, chunkId: int)
}
