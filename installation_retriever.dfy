/**
 * The installation retriever: it pulls part numbers out of a question, looks each up in the
 * installation manual, runs a semantic search over the `installation` documents, and reports
 * which of the two strategies produced something.
 */
module InstallationRetriever {
  import opened Wrappers
  import opened Seqs
  import opened Extract
  import opened VectorStore
  import opened Hybrid
  import opened InstallationManual

  /** One `direct_matches` entry, of type `installation_manual`. */
  datatype InstallationMatch = InstallationMatch(partNumber: string, title: string, installationText: string, url: string, confidence: Confidence)

  /** The `lookup_type` of every installation lookup. */
  const InstallationManualLookup := "installation_manual"

  /** The result of `_direct_lookup`. */
  datatype LookupResult = LookupResult(directMatches: seq<InstallationMatch>, confidence: Confidence, lookupType: string)

  /** The result of `retrieve`. */
  datatype CombinedResult = CombinedResult(
    query: string,
    partNumbers: seq<string>,
    directLookup: LookupResult,
    semanticSearch: Hits,
    strategyUsed: seq<Strategy>)

  function MatchOf(part: string, entry: ManualEntry): InstallationMatch {
    InstallationMatch(part, entry.title, entry.installationText, entry.url, VeryHigh)
  }

  /** The matches for the given part numbers. */
  function ManualMatches(parts: seq<string>, manual: Manual): seq<InstallationMatch> {
    if parts == [] then []
    else
      var p := parts[|parts| - 1];
      ManualMatches(parts[..|parts| - 1], manual) + (if p in manual then [MatchOf(p, manual[p])] else [])
  }

  /** What `retrieve` does: the query it sends to the store, and its result. */
  datatype Retrieval = Retrieval(request: Option<QueryRequest>, result: CombinedResult)

  function RetrievalOf(manual: Manual, collectionReady: bool, query: string, appliance: Option<string>,
                       k: int, outcome: QueryOutcome): (r: Retrieval)
    ensures r.result.query == query && r.result.partNumbers == PartNumbersIn(query)
    ensures var s := SemanticSearch(collectionReady, "installation", query, appliance, k, outcome);
      r.request == s.request && r.result.semanticSearch == s.hits
    ensures r.result.directLookup == LookupResult(ManualMatches(PartNumbersIn(query), manual), High, InstallationManualLookup)
    ensures r.result.strategyUsed == StrategiesFor(r.result.directLookup.directMatches != [], r.result.semanticSearch)
  {
    var parts := PartNumbersIn(query);
    var direct := LookupResult(ManualMatches(parts, manual), High, InstallationManualLookup);
    var search := SemanticSearch(collectionReady, "installation", query, appliance, k, outcome);
    Retrieval(search.request, CombinedResult(query, parts, direct, search.hits, StrategiesFor(direct.directMatches != [], search.hits)))
  }

  /** One match per extracted part that is a manual key, in extraction order, copying the
      entry's title, text and URL with very-high confidence; other parts give nothing. */
  lemma {:induction false} ManualMatchesFollowKnownParts(parts: seq<string>, manual: Manual)
    ensures |ManualMatches(parts, manual)| == |KnownIn(parts, manual)|
    ensures forall i :: 0 <= i < |ManualMatches(parts, manual)| ==>
      var p := KnownIn(parts, manual)[i];
      && ManualMatches(parts, manual)[i].partNumber == p
      && ManualMatches(parts, manual)[i].title == manual[p].title
      && ManualMatches(parts, manual)[i].installationText == manual[p].installationText
      && ManualMatches(parts, manual)[i].url == manual[p].url
      && ManualMatches(parts, manual)[i].confidence == VeryHigh
  {
    if parts != [] {
      ManualMatchesFollowKnownParts(parts[..|parts| - 1], manual);
    }
  }

  /** Some part has a match exactly when some of the parts is in the manual. */
  lemma ManualMatchesPresence(parts: seq<string>, manual: Manual)
    ensures ManualMatches(parts, manual) != [] <==> exists p :: p in parts && p in manual
  {
    ManualMatchesFollowKnownParts(parts, manual);
    if exists p :: p in parts && p in manual {
      var p :| p in parts && p in manual;
      assert p in KnownIn(parts, manual);
    }
  }

  /** The direct-lookup strategy is reported exactly when some extracted part is in the
      manual. */
  lemma DirectLookupReported(manual: Manual, collectionReady: bool, query: string, appliance: Option<string>,
                             k: int, outcome: QueryOutcome)
    ensures DirectLookupStrategy in RetrievalOf(manual, collectionReady, query, appliance, k, outcome).result.strategyUsed
        <==> exists p :: p in PartNumbersIn(query) && p in manual
  {
    var r := RetrievalOf(manual, collectionReady, query, appliance, k, outcome).result;
    assert DirectLookupStrategy in r.strategyUsed <==> ManualMatches(PartNumbersIn(query), manual) != [];
    ManualMatchesPresence(PartNumbersIn(query), manual);
  }

  /** A retriever holds the manual (empty when its file could not be loaded) and whether the
      vector-store collection could be opened. */
  class InstallationRetriever {
    const manual: Manual
    const collectionReady: bool

    constructor (manual: Manual, collectionReady: bool)
      ensures this.manual == manual && this.collectionReady == collectionReady
    {
      this.manual := manual;
      this.collectionReady := collectionReady;
    }

    /** `_direct_lookup` */
    method DirectLookup(partNumbers: seq<string>) returns (r: LookupResult)
      ensures r.directMatches == ManualMatches(partNumbers, manual)
      ensures r.confidence == High && r.lookupType == InstallationManualLookup
    {
      var matches: seq<InstallationMatch> := [];
      for i := 0 to |partNumbers|
        invariant matches == ManualMatches(partNumbers[..i], manual)
      {
        assert partNumbers[..i + 1][..i] == partNumbers[..i];
        var p := partNumbers[i];
        if p in manual {
          var entry := manual[p];
          matches := matches + [InstallationMatch(p, entry.title, entry.installationText, entry.url, VeryHigh)];
        }
      }
      assert partNumbers[..|partNumbers|] == partNumbers;
      r := LookupResult(matches, High, InstallationManualLookup);
    }

    /** `_semantic_search` over the `installation` documents. */
    function SemanticSearch(query: string, appliance: Option<string>, k: int, outcome: QueryOutcome): (call: SearchCall)
      ensures call.request.Some? ==> call.request.value.where.source == "installation"
      ensures (!collectionReady || outcome.Raised?) ==> call.hits == NoHits
    {
      VectorStore.SemanticSearch(collectionReady, "installation", query, appliance, k, outcome)
    }

    /** `retrieve`: the query sent to the store and the combined result. */
    method Retrieve(query: string, appliance: Option<string>, k: int, outcome: QueryOutcome)
      returns (request: Option<QueryRequest>, r: CombinedResult)
      ensures Retrieval(request, r) == RetrievalOf(manual, collectionReady, query, appliance, k, outcome)
    {
      var partNumbers := PartNumbersIn(query);
      var direct := DirectLookup(partNumbers);
      var search := SemanticSearch(query, appliance, k, outcome);
      request := search.request;
      var strategies: seq<Strategy> := [];
      if |direct.directMatches| > 0 {
        strategies := strategies + [DirectLookupStrategy];
      }
      if |search.hits.documents| > 0 {
        strategies := strategies + [SemanticSearchStrategy];
      }
      r := CombinedResult(query, partNumbers, direct, search.hits, strategies);
    }
  }

  /** The module-level `_retriever_instance` and `installation_retrieve`: the retriever is
      built on the first call, from what loading produced then, and reused afterwards. */
  class InstallationService {
    var instance: InstallationRetriever?

    constructor ()
      ensures instance == null
    {
      instance := null;
    }

    method InstallationRetrieve(query: string, appliance: Option<string>, k: int,
                                loadedManual: Manual, collectionOpened: bool, outcome: QueryOutcome)
      returns (request: Option<QueryRequest>, r: CombinedResult)
      modifies this
      ensures old(instance) != null ==> instance == old(instance)
      ensures old(instance) == null ==> fresh(instance)
      ensures instance != null
      ensures old(instance) == null ==>
        instance.manual == loadedManual && instance.collectionReady == collectionOpened
      ensures Retrieval(request, r) == RetrievalOf(instance.manual, instance.collectionReady, query, appliance, k, outcome)
    {
      if instance == null {
        instance := new InstallationRetriever(loadedManual, collectionOpened);
      }
      request, r := instance.Retrieve(query, appliance, k, outcome);
    }
  }
}
