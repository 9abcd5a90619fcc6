/**
 * The compatibility retriever: it pulls part and model numbers out of a question, looks them
 * up in the part-to-models and model-to-parts maps, cross-checks every (part, model) pair,
 * runs a semantic search over the `compatibility` documents, and reports which of the two
 * strategies produced something.
 */
module CompatibilityRetriever {
  import opened Wrappers
  import opened Text
  import opened Seqs
  import opened Extract
  import opened VectorStore
  import opened Hybrid

  type PartMap = map<string, seq<string>>

  /** One `cross_check_results` row. */
  datatype CrossCheckResult = CrossCheckResult(partNumber: string, modelNumber: string, isCompatible: bool, confidence: Confidence)

  /** One `direct_matches` entry; its `type` field is the constructor. */
  datatype DirectMatch =
    | PartToModels(partNumber: string, compatibleModels: seq<string>, count: nat)
    | ModelToParts(modelNumber: string, compatibleParts: seq<string>, count: nat)
    | CrossCheck(crossCheckResults: seq<CrossCheckResult>)

  /** The `lookup_type` tags. */
  datatype LookupType = PartToModelsLookup | ModelToPartsLookup | CrossCheckLookup

  function TypeOf(m: DirectMatch): LookupType {
    match m
    case PartToModels(_, _, _) => PartToModelsLookup
    case ModelToParts(_, _, _) => ModelToPartsLookup
    case CrossCheck(_) => CrossCheckLookup
  }

  function TypesOf(ms: seq<DirectMatch>): seq<LookupType> {
    seq(|ms|, i requires 0 <= i < |ms| => TypeOf(ms[i]))
  }

  /** The result of `_direct_lookup`. */
  datatype LookupResult = LookupResult(directMatches: seq<DirectMatch>, confidence: Confidence, lookupType: seq<LookupType>)

  /** The result of `retrieve`. */
  datatype CombinedResult = CombinedResult(
    query: string,
    partNumbers: seq<string>,
    modelNumbers: seq<string>,
    directLookup: LookupResult,
    semanticSearch: Hits,
    strategyUsed: seq<Strategy>)

  // ---------------------------------------------------------------- specification

  /** The `part_to_models` entries for the given part numbers. */
  function PartEntries(parts: seq<string>, p2m: PartMap): seq<DirectMatch> {
    if parts == [] then []
    else
      var p := parts[|parts| - 1];
      PartEntries(parts[..|parts| - 1], p2m)
        + (if p in p2m then [PartToModels(p, p2m[p], |p2m[p]|)] else [])
  }

  /** The `model_to_parts` entries for the given model numbers. */
  function ModelEntries(models: seq<string>, m2p: PartMap): seq<DirectMatch> {
    if models == [] then []
    else
      var m := models[|models| - 1];
      ModelEntries(models[..|models| - 1], m2p)
        + (if m in m2p then [ModelToParts(m, m2p[m], |m2p[m]|)] else [])
  }

  /** The cross-check rows of one known part against each model. */
  function CrossRow(part: string, models: seq<string>, p2m: PartMap): (r: seq<CrossCheckResult>)
    requires part in p2m
    ensures |r| == |models|
  {
    seq(|models|, j requires 0 <= j < |models| =>
      CrossCheckResult(part, models[j], models[j] in p2m[part], VeryHigh))
  }

  /** All cross-check rows, part-major. */
  function CrossResults(parts: seq<string>, models: seq<string>, p2m: PartMap): seq<CrossCheckResult> {
    if parts == [] then []
    else
      var p := parts[|parts| - 1];
      CrossResults(parts[..|parts| - 1], models, p2m)
        + (if p in p2m then CrossRow(p, models, p2m) else [])
  }

  /** The `cross_check` entry, present only when both lists are non-empty and it has rows. */
  function CrossEntries(parts: seq<string>, models: seq<string>, p2m: PartMap): seq<DirectMatch> {
    if parts != [] && models != [] && CrossResults(parts, models, p2m) != []
    then [CrossCheck(CrossResults(parts, models, p2m))]
    else []
  }

  /** What `_direct_lookup` returns. */
  function LookupOf(p2m: PartMap, m2p: PartMap, parts: seq<string>, models: seq<string>): LookupResult {
    var ms := PartEntries(parts, p2m) + ModelEntries(models, m2p) + CrossEntries(parts, models, p2m);
    LookupResult(ms, High, TypesOf(ms))
  }

  /** What `retrieve` does: the query it sends to the store, and its result. */
  datatype Retrieval = Retrieval(request: Option<QueryRequest>, result: CombinedResult)

  function RetrievalOf(p2m: PartMap, m2p: PartMap, collectionReady: bool, query: string,
                       appliance: Option<string>, k: int, outcome: QueryOutcome): (r: Retrieval)
    ensures r.result.query == query
    ensures r.result.partNumbers == PartNumbersIn(query) && r.result.modelNumbers == ModelNumbersIn(query)
    ensures var s := SemanticSearch(collectionReady, "compatibility", query, appliance, k, outcome);
      r.request == s.request && r.result.semanticSearch == s.hits
    ensures r.result.directLookup == LookupOf(p2m, m2p, PartNumbersIn(query), ModelNumbersIn(query))
    ensures r.result.strategyUsed == StrategiesFor(r.result.directLookup.directMatches != [], r.result.semanticSearch)
  {
    var parts := PartNumbersIn(query);
    var models := ModelNumbersIn(query);
    var direct := LookupOf(p2m, m2p, parts, models);
    var search := SemanticSearch(collectionReady, "compatibility", query, appliance, k, outcome);
    Retrieval(search.request, CombinedResult(query, parts, models, direct, search.hits, StrategiesFor(direct.directMatches != [], search.hits)))
  }

  // ---------------------------------------------------------------- properties

  /** One `part_to_models` entry per known part, in extraction order, carrying the mapped
      list and its length; unknown parts give nothing. */
  lemma {:induction false} PartEntriesFollowKnownParts(parts: seq<string>, p2m: PartMap)
    ensures |PartEntries(parts, p2m)| == |KnownIn(parts, p2m)|
    ensures forall i :: 0 <= i < |PartEntries(parts, p2m)| ==>
      var p := KnownIn(parts, p2m)[i];
      PartEntries(parts, p2m)[i] == PartToModels(p, p2m[p], |p2m[p]|)
  {
    if parts != [] {
      PartEntriesFollowKnownParts(parts[..|parts| - 1], p2m);
    }
  }

  /** One `model_to_parts` entry per known model, in extraction order; unknown models give
      nothing. */
  lemma {:induction false} ModelEntriesFollowKnownModels(models: seq<string>, m2p: PartMap)
    ensures |ModelEntries(models, m2p)| == |KnownIn(models, m2p)|
    ensures forall i :: 0 <= i < |ModelEntries(models, m2p)| ==>
      var m := KnownIn(models, m2p)[i];
      ModelEntries(models, m2p)[i] == ModelToParts(m, m2p[m], |m2p[m]|)
  {
    if models != [] {
      ModelEntriesFollowKnownModels(models[..|models| - 1], m2p);
    }
  }

  /** Every cross-check row pairs an extracted, known part with an extracted model, says
      whether the model is in the part's list, and is very-high confidence. */
  lemma {:induction false} CrossResultsAreSound(parts: seq<string>, models: seq<string>, p2m: PartMap)
    ensures forall c :: c in CrossResults(parts, models, p2m) ==>
      && c.partNumber in parts && c.partNumber in p2m && c.modelNumber in models
      && c.isCompatible == (c.modelNumber in p2m[c.partNumber]) && c.confidence == VeryHigh
  {
    if parts != [] {
      var n := |parts|;
      var q := parts[..n - 1];
      CrossResultsAreSound(q, models, p2m);
      assert forall x :: x in q ==> x in parts;
    }
  }

  /** Every (known part, model) pair has its cross-check row. */
  lemma {:induction false} CrossResultsAreComplete(parts: seq<string>, models: seq<string>, p2m: PartMap, p: string, m: string)
    requires p in parts && p in p2m && m in models
    ensures CrossCheckResult(p, m, m in p2m[p], VeryHigh) in CrossResults(parts, models, p2m)
  {
    var n := |parts|;
    var q := parts[..n - 1];
    assert parts == q + [parts[n - 1]];
    if p == parts[n - 1] {
      var j :| 0 <= j < |models| && models[j] == m;
      assert CrossRow(p, models, p2m)[j] == CrossCheckResult(p, m, m in p2m[p], VeryHigh);
    } else {
      CrossResultsAreComplete(q, models, p2m, p, m);
    }
  }

  /** One row per (known part, model) pair. */
  lemma {:induction false} CrossResultsCount(parts: seq<string>, models: seq<string>, p2m: PartMap)
    ensures |CrossResults(parts, models, p2m)| == |KnownIn(parts, p2m)| * |models|
  {
    if parts != [] {
      var q := parts[..|parts| - 1];
      CrossResultsCount(q, models, p2m);
      if parts[|parts| - 1] in p2m {
        assert |KnownIn(parts, p2m)| == |KnownIn(q, p2m)| + 1;
        assert (|KnownIn(q, p2m)| + 1) * |models| == |KnownIn(q, p2m)| * |models| + |models|;
      }
    }
  }

  /** There is a `cross_check` entry exactly when some model was extracted and some extracted
      part is a key of the part map. */
  lemma CrossEntryPresence(parts: seq<string>, models: seq<string>, p2m: PartMap)
    ensures |CrossEntries(parts, models, p2m)| <= 1
    ensures CrossEntries(parts, models, p2m) != [] <==>
      models != [] && exists p :: p in parts && p in p2m
  {
    if models != [] && exists p :: p in parts && p in p2m {
      var p :| p in parts && p in p2m;
      CrossResultsAreComplete(parts, models, p2m, p, models[0]);
    }
    if CrossEntries(parts, models, p2m) != [] {
      CrossResultsAreSound(parts, models, p2m);
      var c := CrossResults(parts, models, p2m)[0];
      assert c.partNumber in parts && c.partNumber in p2m;
    }
  }

  /** A semantic-search failure or a missing collection changes neither the direct lookup nor
      whether the direct-lookup strategy is reported. */
  lemma SemanticFailureKeepsDirectLookup(p2m: PartMap, m2p: PartMap, collectionReady: bool,
                                         query: string, appliance: Option<string>, k: int,
                                         outcome: QueryOutcome, other: QueryOutcome)
    ensures RetrievalOf(p2m, m2p, collectionReady, query, appliance, k, outcome).result.directLookup
         == RetrievalOf(p2m, m2p, false, query, appliance, k, other).result.directLookup
    ensures (DirectLookupStrategy in RetrievalOf(p2m, m2p, collectionReady, query, appliance, k, outcome).result.strategyUsed)
         == (DirectLookupStrategy in RetrievalOf(p2m, m2p, false, query, appliance, k, other).result.strategyUsed)
  {
  }

  // ---------------------------------------------------------------- the retriever

  /** A retriever holds the two maps (empty when their files could not be loaded) and whether
      the vector-store collection could be opened. */
  class CompatibilityRetriever {
    const partsToModels: PartMap
    const modelToParts: PartMap
    const collectionReady: bool

    constructor (partsToModels: PartMap, modelToParts: PartMap, collectionReady: bool)
      ensures this.partsToModels == partsToModels
      ensures this.modelToParts == modelToParts
      ensures this.collectionReady == collectionReady
    {
      this.partsToModels := partsToModels;
      this.modelToParts := modelToParts;
      this.collectionReady := collectionReady;
    }

    /** `_extract_identifiers` */
    method ExtractIdentifiers(query: string) returns (partNumbers: seq<string>, modelNumbers: seq<string>)
      ensures partNumbers == PartNumbersIn(query)
      ensures modelNumbers == ModelNumbersIn(query)
    {
      var u := Upper(query);
      partNumbers := PartMatches(u);
      var found: seq<string> := [];
      for s := 0 to |ModelShapes|
        invariant found == MatchesOfShapes(u, ModelShapes[..s])
      {
        assert ModelShapes[..s + 1][..s] == ModelShapes[..s];
        found := found + ShapeMatches(u, 0, ModelShapes[s]);
      }
      assert ModelShapes[..|ModelShapes|] == ModelShapes;
      partNumbers := Dedup(partNumbers);
      modelNumbers := Dedup(found);
    }

    /** `_direct_lookup` */
    method DirectLookup(partNumbers: seq<string>, modelNumbers: seq<string>) returns (r: LookupResult)
      ensures r == LookupOf(partsToModels, modelToParts, partNumbers, modelNumbers)
      ensures r.confidence == High
      ensures |r.lookupType| == |r.directMatches|
      ensures forall i :: 0 <= i < |r.directMatches| ==> r.lookupType[i] == TypeOf(r.directMatches[i])
    {
      var matches: seq<DirectMatch> := [];
      var tags: seq<LookupType> := [];
      for i := 0 to |partNumbers|
        invariant matches == PartEntries(partNumbers[..i], partsToModels)
        invariant tags == TypesOf(matches)
      {
        assert partNumbers[..i + 1][..i] == partNumbers[..i];
        var p := partNumbers[i];
        if p in partsToModels {
          var models := partsToModels[p];
          matches := matches + [PartToModels(p, models, |models|)];
          tags := tags + [PartToModelsLookup];
        }
      }
      assert partNumbers[..|partNumbers|] == partNumbers;
      ghost var partEntries := matches;
      for i := 0 to |modelNumbers|
        invariant matches == partEntries + ModelEntries(modelNumbers[..i], modelToParts)
        invariant tags == TypesOf(matches)
      {
        assert modelNumbers[..i + 1][..i] == modelNumbers[..i];
        var m := modelNumbers[i];
        if m in modelToParts {
          var parts := modelToParts[m];
          matches := matches + [ModelToParts(m, parts, |parts|)];
          tags := tags + [ModelToPartsLookup];
        }
      }
      assert modelNumbers[..|modelNumbers|] == modelNumbers;
      if |partNumbers| > 0 && |modelNumbers| > 0 {
        var cross := CrossCheckAll(partNumbers, modelNumbers);
        if |cross| > 0 {
          matches := matches + [CrossCheck(cross)];
          tags := tags + [CrossCheckLookup];
        }
      }
      r := LookupResult(matches, High, tags);
    }

    /** The nested cross-check loop of `_direct_lookup`. */
    method CrossCheckAll(partNumbers: seq<string>, modelNumbers: seq<string>) returns (cross: seq<CrossCheckResult>)
      ensures cross == CrossResults(partNumbers, modelNumbers, partsToModels)
    {
      cross := [];
      for i := 0 to |partNumbers|
        invariant cross == CrossResults(partNumbers[..i], modelNumbers, partsToModels)
      {
        assert partNumbers[..i + 1][..i] == partNumbers[..i];
        var p := partNumbers[i];
        ghost var before := cross;
        for j := 0 to |modelNumbers|
          invariant cross == before + (if p in partsToModels then CrossRow(p, modelNumbers[..j], partsToModels) else [])
        {
          var m := modelNumbers[j];
          if p in partsToModels {
            assert CrossRow(p, modelNumbers[..j + 1], partsToModels)
                == CrossRow(p, modelNumbers[..j], partsToModels) + [CrossCheckResult(p, m, m in partsToModels[p], VeryHigh)];
            cross := cross + [CrossCheckResult(p, m, m in partsToModels[p], VeryHigh)];
          }
        }
        assert modelNumbers[..|modelNumbers|] == modelNumbers;
      }
      assert partNumbers[..|partNumbers|] == partNumbers;
    }

    /** `_semantic_search` over the `compatibility` documents. */
    function SemanticSearch(query: string, appliance: Option<string>, k: int, outcome: QueryOutcome): (call: SearchCall)
      ensures call.request.Some? ==> call.request.value.where.source == "compatibility"
      ensures (!collectionReady || outcome.Raised?) ==> call.hits == NoHits
    {
      VectorStore.SemanticSearch(collectionReady, "compatibility", query, appliance, k, outcome)
    }

    /** `retrieve`: the query sent to the store and the combined result. */
    method Retrieve(query: string, appliance: Option<string>, k: int, outcome: QueryOutcome)
      returns (request: Option<QueryRequest>, r: CombinedResult)
      ensures Retrieval(request, r) == RetrievalOf(partsToModels, modelToParts, collectionReady, query, appliance, k, outcome)
    {
      var partNumbers, modelNumbers := ExtractIdentifiers(query);
      var direct := DirectLookup(partNumbers, modelNumbers);
      var search := SemanticSearch(query, appliance, k, outcome);
      request := search.request;
      var strategies: seq<Strategy> := [];
      if |direct.directMatches| > 0 {
        strategies := strategies + [DirectLookupStrategy];
      }
      if |search.hits.documents| > 0 {
        strategies := strategies + [SemanticSearchStrategy];
      }
      r := CombinedResult(query, partNumbers, modelNumbers, direct, search.hits, strategies);
    }
  }

  /** The module-level `_retriever_instance` and `compatibility_retrieve`: the retriever is
      built on the first call, from what loading produced then, and reused afterwards. */
  class CompatibilityService {
    var instance: CompatibilityRetriever?

    constructor ()
      ensures instance == null
    {
      instance := null;
    }

    method CompatibilityRetrieve(query: string, appliance: Option<string>, k: int,
                                 loadedPartsToModels: PartMap, loadedModelToParts: PartMap,
                                 collectionOpened: bool, outcome: QueryOutcome)
      returns (request: Option<QueryRequest>, r: CombinedResult)
      modifies this
      ensures old(instance) != null ==> instance == old(instance)
      ensures old(instance) == null ==> fresh(instance)
      ensures instance != null
      ensures old(instance) == null ==>
        && instance.partsToModels == loadedPartsToModels
        && instance.modelToParts == loadedModelToParts
        && instance.collectionReady == collectionOpened
      ensures Retrieval(request, r) == RetrievalOf(instance.partsToModels, instance.modelToParts,
                                                    instance.collectionReady, query, appliance, k, outcome)
    {
      if instance == null {
        instance := new CompatibilityRetriever(loadedPartsToModels, loadedModelToParts, collectionOpened);
      }
      request, r := instance.Retrieve(query, appliance, k, outcome);
    }
  }
}
