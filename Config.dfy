/** The constants of config.py that the core reads. */
module Config {

  /** Name of the one Qdrant collection holding every point. */
  const COLLECTION_NAME: string := "documents"

  /** An embedding; its components are floats that nothing here inspects. */
  type Vector = seq<real>

  /** Dimension of the all-MiniLM-L6-v2 embeddings. */
  const VECTOR_SIZE: nat := 384

  /** Default window size and overlap of the chunker, in characters. */
  const CHUNK_SIZE: int := 500
  const CHUNK_OVERLAP: int := 50

  /** The keys of SUPPORTED_EXTENSIONS (the values are display labels only). */
  const SUPPORTED_EXTENSIONS: set<string> :=
    {".pdf", ".docx", ".doc", ".txt", ".jpg", ".jpeg", ".png", ".pptx", ".ppt"}
}
