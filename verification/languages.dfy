/** The three corpus languages of the search service and their wire codes. */
module Languages {

  /** A corpus language: one MongoDB collection, one BM25 index, one embedding matrix. */
  datatype Lang = En | Es | Hi
  {
    /** The two-letter code used in JSON responses and by the language detector. */
    function Code(): (c: string)
      ensures |c| == 2
    {
      match this
      case En => "en"
      case Es => "es"
      case Hi => "hi"
    }
  }

  /** The order in which `search` queries the corpora (backend/server.py:148). */
  const TargetLangs: seq<Lang> := [En, Es, Hi]
}
