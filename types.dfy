/** The records of src/utils/types.py, the configuration fields the core reads
    (src/utils/config.py) and the documents a vector store hands back. */
module Types {
  import opened Wrappers

  /** A loaded PDF: its name, the joined text, the page count and the cleaned text per page. */
  datatype Document = Document(name: string, text: string, pages: int, pagesText: seq<string>)

  /** A page-tagged span of a document. */
  datatype Chunk = Chunk(id: string, documentName: string, page: int, content: string)

  datatype ClauseResult = ClauseResult(
    clauseType: string, explanation: string, snippet: string, page: int, importance: string)

  datatype RedFlagResult = RedFlagResult(
    riskType: string, reason: string, snippet: string, confidence: real, page: int)

  /** The configuration fields the modelled code reads. */
  datatype AppConfig = AppConfig(
    useGemini: bool, maxTokens: int, temperature: real, confidenceThreshold: int)

  const DEFAULT_CONFIDENCE_THRESHOLD: int := 65

  /** A LangChain document: its text and the integer-valued entries of its metadata. */
  datatype StoreDocument = StoreDocument(pageContent: string, metadata: map<string, int>) {

    /** `metadata.get(key)`. */
    function Get(key: string): Option<int> {
      if key in metadata then Some(metadata[key]) else None
    }
  }
}
