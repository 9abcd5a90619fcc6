/**
 * What the two hybrid retrievers (compatibility and installation) share: the confidence
 * labels and the report of which strategies produced something.
 */
module Hybrid {
  import opened Seqs
  import opened VectorStore

  /** `"HIGH"` and `"VERY_HIGH"` */
  datatype Confidence = High | VeryHigh

  /** `"direct_lookup"` and `"semantic_search"` */
  datatype Strategy = DirectLookupStrategy | SemanticSearchStrategy

  /** `strategy_used`: direct lookup when it matched something, semantic search when it found
      documents, in that order and nothing else. */
  function StrategiesFor(directMatched: bool, semantic: Hits): (s: seq<Strategy>)
    ensures DirectLookupStrategy in s <==> directMatched
    ensures SemanticSearchStrategy in s <==> semantic.documents != []
    ensures Distinct(s)
    ensures |s| == 2 ==> s == [DirectLookupStrategy, SemanticSearchStrategy]
  {
    (if directMatched then [DirectLookupStrategy] else [])
      + (if semantic.documents != [] then [SemanticSearchStrategy] else [])
  }
}
