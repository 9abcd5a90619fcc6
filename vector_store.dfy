/**
 * The boundary to the vector store (a ChromaDB collection). The store itself is not modelled:
 * a retriever states the query it sends (`QueryRequest`) and receives what the call did
 * (`QueryOutcome`) as an input.
 */
module VectorStore {
  import opened Wrappers

  /** Metadata of a stored document: field name to value. */
  type Metadata = map<string, string>

  /** The answer to one query text: four parallel lists. The store wraps each of them in a
      one-element outer list (one per query text); that wrapper is left implicit here. */
  datatype Hits = Hits(documents: seq<string>, metadatas: seq<Metadata>, ids: seq<string>, distances: seq<real>)

  /** The empty-shaped answer `{"documents": [[]], "metadatas": [[]], "ids": [[]], "distances": [[]]}`. */
  const NoHits: Hits := Hits([], [], [], [])

  /** The `where` filter: the document source and, when given, the appliance. */
  datatype Where = Where(source: string, appliance: Option<string>)

  /** One call `collection.query(query_texts=[queryText], n_results=nResults, where=where)`. */
  datatype QueryRequest = QueryRequest(queryText: string, nResults: int, where: Where)

  /** What the call did: it raised an exception, or it answered. */
  datatype QueryOutcome = Raised | Answered(hits: Hits)

  /** What a retriever's semantic search did: the query it sent, if any, and the hits it returns. */
  datatype SearchCall = SearchCall(request: Option<QueryRequest>, hits: Hits)

  /** Python truthiness of an optional string: present and non-empty. */
  predicate Truthy(s: Option<string>) {
    s.Some? && s.value != ""
  }

  /** `{"source": source}`, with `"appliance"` added only when the appliance is truthy. */
  function WhereFor(source: string, appliance: Option<string>): (w: Where)
    ensures w.source == source
    ensures w.appliance.Some? <==> Truthy(appliance)
    ensures w.appliance.Some? ==> w.appliance == appliance
  {
    Where(source, if Truthy(appliance) then appliance else None)
  }

  /** `_semantic_search` of the compatibility and the installation retrievers: no query without
      a collection, and the empty-shaped answer whenever the collection is missing or the call
      raises, so the search itself never raises. */
  function SemanticSearch(collectionReady: bool, source: string, query: string, appliance: Option<string>,
                          k: int, outcome: QueryOutcome): (call: SearchCall)
    ensures call.request.Some? <==> collectionReady
    ensures call.request.Some? ==> call.request.value == QueryRequest(query, k, WhereFor(source, appliance))
    ensures (!collectionReady || outcome.Raised?) ==> call.hits == NoHits
    ensures (collectionReady && outcome.Answered?) ==> call.hits == outcome.hits
  {
    if !collectionReady then SearchCall(None, NoHits)
    else
      var request := QueryRequest(query, k, WhereFor(source, appliance));
      match outcome
      case Raised => SearchCall(Some(request), NoHits)
      case Answered(hits) => SearchCall(Some(request), hits)
  }
}
