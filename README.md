# PartSelect assistant: retrieval core and index builders in Dafny

The PartSelect assistant answers questions about dishwasher and refrigerator parts. A chat
request is classified into one of five intents. An `out_of_scope` request gets a canned answer.
Every other intent is routed to a retriever, and the answer is generated from what the
retriever found.

This project models the deterministic core of that system and proves what it promises:

- **Compatibility retriever.** It pulls `PS` part numbers and four shapes of model numbers
  out of a question. It looks them up in the part-to-models and model-to-parts maps,
  cross-checks every known part against every model, and reports which strategy found
  something.
- **Installation retriever.** The same design, with a lookup in the part-keyed installation
  manual.
- **Index builders.** The part/model maps (symmetric, sorted, no empty list) and the
  installation manual (filtered; the last record for a part wins).
- **Ingestion.** It turns raw records into vector-store documents, drops empty documents,
  deduplicates by id (first wins) and inserts in batches of 128.
- **Question-and-answer retriever.** It merges the per-appliance collections' answers,
  stable-sorts them by distance and keeps the first `k`.
- **Routing and intent classification.** A fixed intent-to-retriever table with an
  out-of-scope short-circuit, the choice of system prompt, the apology on a generation error,
  and the normalisation of the classifier's reply into one of five intents.
- **Compatibility cleaners.** The "looks like a model" token filter with its
  dedupe/cap/summary pass, and the final sort-and-filter of each record's model list.

The vector store, the embedding service, the language model and the JSON files are not
modelled as code. What they return is an input of the operation that uses it: a
`QueryOutcome`, an `Outcome` per collection, a `ClassifierOutcome`, a `GenerationOutcome`,
the loaded maps and records. HTML stripping and `textwrap.shorten` are function parameters.
Strings are sequences of characters, and character classes are ASCII.

Modules, one per source file or shared idiom:

| file | module | models |
|---|---|---|
| `wrappers.dfy` | `Wrappers` | `Option` |
| `text.dfy` | `Text` | ASCII `upper`/`lower`/`strip`, character classes, `join`, prefixes |
| `seqs.dfy` | `Seqs` | `dict.fromkeys` dedupe, `xs[:k]`, flattening, filtering loops |
| `order.dfy` | `Order` | string order and `sorted` of a set of strings |
| `extract.dfy` | `Extract` | the `PS\d+` scanner and the four word-bounded model shapes |
| `vector_store.dfy` | `VectorStore` | the store's answer shape and `_semantic_search` |
| `hybrid.dfy` | `Hybrid` | `strategy_used` |
| `compatibility_retriever.dfy` | `CompatibilityRetriever` | the compatibility retriever and its singleton |
| `installation_retriever.dfy` | `InstallationRetriever` | the installation retriever and its singleton |
| `part_mapping.dfy` | `PartMapping` | `build_part_mapping.py` |
| `installation_manual.dfy` | `InstallationManual` | `build_installation_manual.py` |
| `ingest.dfy` | `Ingest` | the ingestion script |
| `qna_retriever.dfy` | `QnaRetriever` | `qan_retrieve` |
| `intent_service.dfy` | `IntentService` | `classify_intent` after the call |
| `agent_manager.dfy` | `AgentManager` | `handle_chat_request`, routing, prompts |
| `clean_compatibility.dfy` | `CleanCompatibility` | `clean_compatibility.py` |
| `cleanup_compatibility.dfy` | `CleanupCompatibility` | `cleanup_compatibility.py` |

Imperative source code is modelled imperatively. The retrievers are classes whose maps are
fixed at construction. Their singletons are classes holding the instance they build on
the first call. The loops of the scripts are methods with loop invariants, and
`cleanup_compatibility.py` updates record objects in place. Each such method is proved
equal to a specification function, and the properties are proved about that function.

## Model

| member | source | states |
|---|---|---|
| Seqs.Dedup | backend/services/retrievers/compatibility_retriever/compatibility_retriever.py:84-85 | `list(dict.fromkeys(xs))`: the result holds exactly the elements of the input, each once, and is no longer than the input |
| Seqs.DedupKeepsFirstSeenOrder | backend/services/retrievers/compatibility_retriever/compatibility_retriever.py:84-85 | two elements of the deduplicated list appear in the order of their first occurrences in the input |
| Seqs.DedupOfDistinct | backend/services/retrievers/compatibility_retriever/compatibility_retriever.py:84-85 | deduplicating a list without repeats gives it back unchanged |
| Seqs.PyPrefix | backend/services/retrievers/qan_retriever/qan_retriever.py:56-57 | `xs[:k]` is a prefix of `xs` of length `min(k, len(xs))` for `k >= 0`, and of `len(xs) + k` (not below 0) for negative `k` |
| Seqs.KnownIn | backend/services/retrievers/compatibility_retriever/compatibility_retriever.py:98-119 | the elements of a list that are keys of a map, in list order: exactly the listed keys, without a repeat when the list has none |
| Seqs.KnownInKeepsOrder | backend/services/retrievers/compatibility_retriever/compatibility_retriever.py:98-119 | the known elements keep their relative order from the list |
| Seqs.FilterMapMembership | backend/scripts/ingest/ingest_compatibility_installation_troubleshooting.py:116-126 | a filtering-and-mapping loop yields `y` exactly when some input element maps to `y` |
| Seqs.IndexOf | backend/services/retrievers/compatibility_retriever/compatibility_retriever.py:84-85 | the first position of an element: it is there and not earlier |
| Order.LexLeTotal | backend/scripts/build_part_mapping.py:38-39 | Python's string order is total |
| Order.LexLeAntisymmetric | backend/scripts/build_part_mapping.py:38-39 | two strings each below-or-equal the other are equal |
| Order.LexLeTransitive | backend/scripts/build_part_mapping.py:38-39 | Python's string order is transitive |
| Order.StrictlySortedUnique | backend/scripts/build_part_mapping.py:38-39 | two strictly ascending lists with the same elements are the same list |
| Order.SortedOf | backend/scripts/build_part_mapping.py:38-39 | `sorted(s)` of a set of strings: strictly ascending, the same elements, one per element of the set |
| Text.Upper | backend/services/retrievers/compatibility_retriever/compatibility_retriever.py:68 | `str.upper`: same length, character by character, no small letter left, letters and digits preserved |
| Text.Lower | backend/services/intent_service/intent_service.py:52 | `str.lower`: same length, character by character, no capital letter left |
| Text.LowerIgnoresUpper | backend/services/intent_service/intent_service.py:52 | lower-casing after upper-casing is lower-casing |
| Text.Strip | backend/scripts/build_installation_manual.py:26-27 | `str.strip`: no white space at either end of the result |
| Text.StripRemovesOnlySpace | backend/scripts/build_installation_manual.py:26-27 | `str.strip` removes only white space, and only from the two ends: the result is a slice of the input with white space on each side of it |
| Text.StripOfTrimmed | backend/scripts/build_installation_manual.py:26-27 | stripping a string without white space at its ends changes nothing |
| Text.BeforeFirst | backend/scripts/ingest/ingest_compatibility_installation_troubleshooting.py:36 | `s.split(sep)[0]`: a prefix of `s` without `sep`, followed in `s` by `sep` when it is shorter |
| Text.Prefix | backend/scripts/clean/clean_compatibility.py:48 | `s[:n]`: a prefix of `s` of length `min(n, len(s))` |
| Extract.PartSpans | backend/services/retrievers/compatibility_retriever/compatibility_retriever.py:68 | the `PS\d+` scan yields ascending, non-overlapping spans within the query |
| Extract.PartSpansAreGreedy | backend/services/retrievers/compatibility_retriever/compatibility_retriever.py:68 | every span is `PS` followed by the longest run of digits there |
| Extract.PartSpansAreLeftmost | backend/services/retrievers/compatibility_retriever/compatibility_retriever.py:68 | a span starts at a position exactly when `PS` and a digit start there: `findall` misses no occurrence and reports none twice |
| Extract.PartMatches | backend/services/retrievers/compatibility_retriever/compatibility_retriever.py:68 | the matched texts are the query's slices at the scanned spans |
| Extract.PartMatchesArePartNumbers | backend/services/retrievers/compatibility_retriever/compatibility_retriever.py:68 | every match is `PS` followed by at least one digit and only digits |
| Extract.PartNumbersIn | backend/services/retrievers/compatibility_retriever/compatibility_retriever.py:68 | the part numbers of the upper-cased query: each `PS\d+` match once, and nothing else |
| Extract.ShapeOneRunsAgreeWithCut | backend/services/retrievers/compatibility_retriever/compatibility_retriever.py:72-77 | reading `[A-Z]{2,4}\d{3,4}[A-Z]{2,4}\d{0,2}` run by run accepts exactly the words that have some cut into the four groups |
| Extract.ShapesAreExclusive | backend/services/retrievers/compatibility_retriever/compatibility_retriever.py:72-77 | no word has two of the four model-number shapes |
| Extract.ShapeMatchesExact | backend/services/retrievers/compatibility_retriever/compatibility_retriever.py:72-77 | a word-bounded pattern matches a text exactly when the text is a whole word of the query with that shape |
| Extract.ModelNumbersIn | backend/services/retrievers/compatibility_retriever/compatibility_retriever.py:79-85 | the model numbers of the upper-cased query, each once |
| Extract.ModelNumbersAreShapedWords | backend/services/retrievers/compatibility_retriever/compatibility_retriever.py:72-85 | a text is reported as a model number exactly when it is a whole word of the upper-cased query with one of the four shapes |
| Extract.ModelNumbersGroupedByShape | backend/services/retrievers/compatibility_retriever/compatibility_retriever.py:79-85 | model numbers come grouped by pattern, in the order the patterns are listed |
| VectorStore.WhereFor | backend/services/retrievers/compatibility_retriever/compatibility_retriever.py:150-152 | the filter always names the source, and names the appliance exactly when it is truthy |
| VectorStore.SemanticSearch | backend/services/retrievers/compatibility_retriever/compatibility_retriever.py:144-164 | a query is sent exactly when the collection is open, with the query text, `k` and the filter; no hits when the collection is missing or the query raises, the store's hits otherwise |
| Hybrid.StrategiesFor | backend/services/retrievers/compatibility_retriever/compatibility_retriever.py:199-203 | `direct_lookup` is reported exactly when the direct lookup matched, `semantic_search` exactly when the semantic search found documents, each at most once and in that order |
| CompatibilityRetriever.PartEntriesFollowKnownParts | backend/services/retrievers/compatibility_retriever/compatibility_retriever.py:98-107 | one `part_to_models` entry per extracted part number found in the map, in order, with the part's model list and its length |
| CompatibilityRetriever.ModelEntriesFollowKnownModels | backend/services/retrievers/compatibility_retriever/compatibility_retriever.py:110-119 | one `model_to_parts` entry per extracted model number found in the map, in order, with the model's part list and its length |
| CompatibilityRetriever.CrossResultsAreSound | backend/services/retrievers/compatibility_retriever/compatibility_retriever.py:122-140 | every cross-check row pairs an extracted known part with an extracted model, says compatible exactly when the model is in the part's list, and has very high confidence |
| CompatibilityRetriever.CrossResultsAreComplete | backend/services/retrievers/compatibility_retriever/compatibility_retriever.py:122-140 | every pair of an extracted known part and an extracted model has its cross-check row |
| CompatibilityRetriever.CrossResultsCount | backend/services/retrievers/compatibility_retriever/compatibility_retriever.py:122-140 | there are as many cross-check rows as known parts times models |
| CompatibilityRetriever.CrossEntryPresence | backend/services/retrievers/compatibility_retriever/compatibility_retriever.py:122-140 | at most one `cross_check` entry, present exactly when there is a model number and a known part number |
| CompatibilityRetriever.RetrievalOf | backend/services/retrievers/compatibility_retriever/compatibility_retriever.py:166-205 | the result echoes the query and its extracted part and model numbers, carries their direct lookup, sends the store query of the vector-store search with source `compatibility` and carries its hits (none when the collection is missing or the query raises), and reports the strategies that found something |
| CompatibilityRetriever.SemanticFailureKeepsDirectLookup | backend/services/retrievers/compatibility_retriever/compatibility_retriever.py:162-164 | a missing collection or a failing query changes neither the direct lookup nor whether `direct_lookup` is reported |
| CompatibilityRetriever.CompatibilityRetriever.constructor | backend/services/retrievers/compatibility_retriever/compatibility_retriever.py:30-38 | the retriever holds the loaded maps and whether the collection opened |
| CompatibilityRetriever.CompatibilityRetriever.ExtractIdentifiers | backend/services/retrievers/compatibility_retriever/compatibility_retriever.py:65-87 | the loop over the patterns yields the part numbers and model numbers of the query |
| CompatibilityRetriever.CompatibilityRetriever.DirectLookup | backend/services/retrievers/compatibility_retriever/compatibility_retriever.py:89-142 | the lookup is the part entries, then the model entries, then the cross-check entry; confidence `high`; one lookup type per match, in order |
| CompatibilityRetriever.CompatibilityRetriever.CrossCheckAll | backend/services/retrievers/compatibility_retriever/compatibility_retriever.py:122-140 | the nested loop yields the cross-check rows of every known part against every model, in order |
| CompatibilityRetriever.CompatibilityRetriever.SemanticSearch | backend/services/retrievers/compatibility_retriever/compatibility_retriever.py:144-164 | the query filters on source `compatibility`; no hits when the collection is missing or the query raises |
| CompatibilityRetriever.CompatibilityRetriever.Retrieve | backend/services/retrievers/compatibility_retriever/compatibility_retriever.py:166-205 | the request sent and the combined result are those of the retrieval specification |
| CompatibilityRetriever.CompatibilityService.CompatibilityRetrieve | backend/services/retrievers/compatibility_retriever/compatibility_retriever.py:207-228 | the first call builds the retriever from what was loaded; later calls reuse it; the answer is the retriever's |
| InstallationRetriever.ManualMatchesFollowKnownParts | backend/services/retrievers/installation_retriever/installation_retriever.py:78-88 | one match per extracted part number found in the manual, in order, with that entry's title, text and URL and very high confidence |
| InstallationRetriever.ManualMatchesPresence | backend/services/retrievers/installation_retriever/installation_retriever.py:78-88 | there is a match exactly when some extracted part number is in the manual |
| InstallationRetriever.RetrievalOf | backend/services/retrievers/installation_retriever/installation_retriever.py:114-152 | the result echoes the query and its part numbers, carries the manual lookup, sends the store query of the vector-store search with source `installation` and carries its hits (none when the collection is missing or the query raises), and reports the strategies that found something |
| InstallationRetriever.DirectLookupReported | backend/services/retrievers/installation_retriever/installation_retriever.py:146-150 | `direct_lookup` is reported exactly when some part number of the query is in the manual |
| InstallationRetriever.InstallationRetriever.constructor | backend/services/retrievers/installation_retriever/installation_retriever.py:29-37 | the retriever holds the loaded manual and whether the collection opened |
| InstallationRetriever.InstallationRetriever.DirectLookup | backend/services/retrievers/installation_retriever/installation_retriever.py:70-90 | the lookup loop yields the manual matches of the part numbers, with confidence `high` and type `installation_manual` |
| InstallationRetriever.InstallationRetriever.SemanticSearch | backend/services/retrievers/installation_retriever/installation_retriever.py:92-112 | the query filters on source `installation`; no hits when the collection is missing or the query raises |
| InstallationRetriever.InstallationRetriever.Retrieve | backend/services/retrievers/installation_retriever/installation_retriever.py:114-152 | the request sent and the combined result are those of the retrieval specification |
| InstallationRetriever.InstallationService.InstallationRetrieve | backend/services/retrievers/installation_retriever/installation_retriever.py:154-175 | the first call builds the retriever from what was loaded; later calls reuse it; the answer is the retriever's |
| PartMapping.NormModel | backend/scripts/build_part_mapping.py:12-13 | `norm_model`: character by character the stripped input, upper-cased, with en and em dashes written `-`; hence no dash of those kinds, no small letter, no white space at either end |
| PartMapping.NormModelIdempotent | backend/scripts/build_part_mapping.py:12-13 | normalising twice is normalising once |
| PartMapping.PartKey | backend/scripts/build_part_mapping.py:21-23 | the row key is the part number (`""` when missing) stripped and upper-cased, character by character: no small letter and no white space at either end |
| PartMapping.CleanedModelsMembership | backend/scripts/build_part_mapping.py:24-31 | a model is kept exactly when it is the normal form of a listed string and passes the model check |
| PartMapping.CleanModels | backend/scripts/build_part_mapping.py:24-31 | the filter loop over a row's models yields the cleaned list |
| PartMapping.AddPairs | backend/scripts/build_part_mapping.py:33-35 | adding a part's models to both set-valued maps keeps them holding exactly the pairs seen so far, each way round |
| PartMapping.GroupsAdd | backend/scripts/build_part_mapping.py:33-35 | adding one pair to a set-valued map keeps it holding exactly its pairs |
| PartMapping.SortValuesKeepsPairs | backend/scripts/build_part_mapping.py:38-39 | sorting every value keeps every key and every pair |
| PartMapping.SortValuesAreSorted | backend/scripts/build_part_mapping.py:38-39 | every sorted value is non-empty and strictly ascending |
| PartMapping.SortEachValue | backend/scripts/build_part_mapping.py:38-39 | the sorting loop yields the sorted values: the same pairs, every list non-empty and strictly ascending |
| PartMapping.DescribesByPairs | backend/scripts/build_part_mapping.py:33-39 | sorted versions of set-valued maps holding the pairs each way round describe those pairs |
| PartMapping.BuildPartMapping | backend/scripts/build_part_mapping.py:15-53 | the two written maps hold exactly the pairs of the rows, each way round, every list non-empty and strictly ascending; nothing is written on a dry run |
| PartMapping.DescribesIsUnique | backend/scripts/build_part_mapping.py:15-53 | only one pair of maps describes a set of pairs, so the output does not depend on the row order or on set iteration order |
| PartMapping.MapsAreSymmetric | backend/scripts/build_part_mapping.py:33-35 | a model is listed under a part exactly when that part is listed under that model |
| PartMapping.PairsComeFromRows | backend/scripts/build_part_mapping.py:19-35 | a pair is in the maps exactly when some row with that non-empty key lists a string whose normal form is that model and passes the check |
| PartMapping.PairsAreClean | backend/scripts/build_part_mapping.py:21-31 | every part key is non-empty with no small letter; every model passes the check and is in normal form |
| InstallationManual.BuildInstallationManual | backend/scripts/build_installation_manual.py:25-42 | the loop builds the manual of the records; it counts the kept records and the skipped ones, which add up to all records; the entry count is at most the kept count |
| InstallationManual.KeptCount | backend/scripts/build_installation_manual.py:42 | the kept records are at most all records |
| InstallationManual.ManualStep | backend/scripts/build_installation_manual.py:25-42 | one record adds or overwrites its part's entry when it is kept and leaves the manual alone otherwise |
| InstallationManual.ManualEntriesAreValid | backend/scripts/build_installation_manual.py:30-41 | every entry is keyed by its own part number, and its text has at least 20 characters |
| InstallationManual.ManualKeysAreKeptParts | backend/scripts/build_installation_manual.py:25-42 | a part number is in the manual exactly when some kept record has it |
| InstallationManual.ManualKeysAreStripped | backend/scripts/build_installation_manual.py:26-32 | every key is non-empty with no white space at either end |
| InstallationManual.LastRecordWins | backend/scripts/build_installation_manual.py:35-41 | the entry for a part number comes from the last kept record that has it |
| Ingest.DocId | backend/scripts/ingest/ingest_compatibility_installation_troubleshooting.py:34 | the raw id when it is truthy, otherwise the source and the part number or title; never empty |
| Ingest.MetadataOf | backend/scripts/ingest/ingest_compatibility_installation_troubleshooting.py:36-44 | the metadata names the document's source; its URL is the raw URL cut before the first `?`; `title`, `part_number` and `appliance` are always present, `""` when absent; the extra fields are those of the source |
| Ingest.ExtraOf | backend/scripts/ingest/ingest_compatibility_installation_troubleshooting.py:47-75 | the extra metadata fields are those of the record's source |
| Ingest.PartNamesAreNamedEntries | backend/scripts/ingest/ingest_compatibility_installation_troubleshooting.py:63-75 | the common parts are the names of the named entries, in order; only unnamed entries are dropped |
| Ingest.ToDoc | backend/scripts/ingest/ingest_compatibility_installation_troubleshooting.py:28-77 | the document's id is `DocId` of the record (its truthy `id`, otherwise the source-based fallback; never empty), its text is the stripped raw text, and its metadata is the record's metadata for its source |
| Ingest.DocumentIsTrimmedText | backend/scripts/ingest/ingest_compatibility_installation_troubleshooting.py:35 | the document text is the raw text without the white space at its ends |
| Ingest.EnrichedMetadata | backend/scripts/ingest/ingest_compatibility_installation_troubleshooting.py:47-75 | the tools are joined with commas, at most the first 100 models are joined, and the common parts are the joined part names |
| Ingest.Batch | backend/scripts/ingest/ingest_compatibility_installation_troubleshooting.py:79-87 | the batches put back together are the input; every batch is non-empty, and all but the last have exactly the batch size |
| Ingest.NonEmptyDocsAreMadeFromRows | backend/scripts/ingest/ingest_compatibility_installation_troubleshooting.py:116-126 | a document is loaded from a file exactly when it is made from one of its rows and its text is not empty |
| Ingest.LoadedDocsAreNonEmpty | backend/scripts/ingest/ingest_compatibility_installation_troubleshooting.py:124-125 | no loaded document has empty text |
| Ingest.NormaliseRows | backend/scripts/ingest/ingest_compatibility_installation_troubleshooting.py:116-126 | the loop over one file's rows yields its non-empty documents in order |
| Ingest.LoadDocs | backend/scripts/ingest/ingest_compatibility_installation_troubleshooting.py:116-126 | the loop over the three files yields the raw row count and the non-empty documents in file order |
| Ingest.UniqueIdsAreDedupedIds | backend/scripts/ingest/ingest_compatibility_installation_troubleshooting.py:139-145 | the ids of the unique documents are the ids deduplicated in first-seen order |
| Ingest.UniqueKeepsFirstOccurrence | backend/scripts/ingest/ingest_compatibility_installation_troubleshooting.py:139-145 | each unique document is the first document with its id |
| Ingest.DedupById | backend/scripts/ingest/ingest_compatibility_installation_troubleshooting.py:139-145 | the dedupe loop keeps the first document of each id |
| Ingest.InsertInBatches | backend/scripts/ingest/ingest_compatibility_installation_troubleshooting.py:147-157 | the inserted batches put back together are the unique documents, each batch of 1 to 128 and all but the last of exactly 128; the count inserted is their number |
| Ingest.IngestAll | backend/scripts/ingest/ingest_compatibility_installation_troubleshooting.py:96-157 | without an API key and not a dry run, nothing happens; a dry run reports the raw and document counts; otherwise the unique documents are inserted in batches of at most 128, all but the last full |
| Ingest.IngestedDocsAreNonEmptyAndUnique | backend/scripts/ingest/ingest_compatibility_installation_troubleshooting.py:116-157 | every inserted document has text, no id is inserted twice, and every loaded id is inserted |
| QnaRetriever.MergeOutcomes | backend/services/retrievers/qan_retriever/qan_retriever.py:41-52 | the merge loop yields the rows of the answered collections, in order |
| QnaRetriever.MergedRowsComeFromAnswers | backend/services/retrievers/qan_retriever/qan_retriever.py:41-52 | a row is merged exactly when some answered collection returned it; failed collections contribute nothing |
| QnaRetriever.SortIndices | backend/services/retrievers/qan_retriever/qan_retriever.py:56-57 | the indices of all rows, each once, ordered by distance and, at equal distance, by position |
| QnaRetriever.Insert | backend/services/retrievers/qan_retriever/qan_retriever.py:56-57 | inserting an index into a sorted index list keeps it sorted, with one more element |
| QnaRetriever.TopRows | backend/services/retrievers/qan_retriever/qan_retriever.py:55-63 | at most the merged rows, and exactly `min(k, n)` of them for non-negative `k` |
| QnaRetriever.TopRowsAreSortedMergedRows | backend/services/retrievers/qan_retriever/qan_retriever.py:55-63 | the kept rows are merged rows at distinct positions, by ascending distance, with ties in merge order |
| QnaRetriever.TopRowsAreNearest | backend/services/retrievers/qan_retriever/qan_retriever.py:55-63 | no left-out row is nearer than a kept one |
| QnaRetriever.Answer | backend/services/retrievers/qan_retriever/qan_retriever.py:37-65 | a known appliance gets exactly its collection's answer, a failure included; otherwise the answer is the `k` nearest rows of the merged answers (`TopRows` of `Merged`), never a failure, and no row when no collection returned one |
| QnaRetriever.QnaRetrieve | backend/services/retrievers/qan_retriever/qan_retriever.py:26-65 | with a known appliance, only its collection is queried; otherwise both are, in order; the answer is the specified one |
| IntentService.ClassifyIntent | backend/services/intent_service/intent_service.py:43-61 | always one of the five intents: the normalised reply when it is one, `out_of_scope` otherwise or when the call raised |
| IntentService.IntentsAreNormal | backend/services/intent_service/intent_service.py:52-57 | each of the five intents is its own normal form and is classified as itself |
| IntentService.ClassificationIgnoresCase | backend/services/intent_service/intent_service.py:52 | the case of the reply does not change the intent |
| IntentService.CallWith | backend/services/external_api/deepseek_client.py:61 | a call with an argument the client method does not take raises; otherwise it returns what the service does |
| IntentService.ClassifierAsWrittenIsAlwaysOutOfScope | backend/services/intent_service/intent_service.py:43-50 | as written, every request is classified `out_of_scope` |
| IntentService.CorrectedClassifierFollowsReply | backend/services/intent_service/intent_service.py:43-57 | without the extra argument, the intent follows the service's reply |
| AgentManager.RouteFor | backend/agent_manager.py:77-88 | each of the four routed intents gets its own retriever, and no other intent gets one |
| AgentManager.RoutingIsOneToOne | backend/agent_manager.py:77-82 | different intents are routed to different retrievers |
| AgentManager.SystemPromptFor | backend/agent_manager.py:103-110 | each routed intent gets its own system prompt, and any other intent gets the default one |
| AgentManager.PromptsFollowRouting | backend/agent_manager.py:103-110 | an intent has its own prompt exactly when it is routed, and that prompt is not the default one |
| AgentManager.ResponseFor | backend/agent_manager.py:119-127 | the reply when generation succeeds, otherwise the apology followed by the error's message |
| AgentManager.HandleChat | backend/agent_manager.py:37-64 | with the corrected routing of the second finding: `out_of_scope` gets the canned message, with no retriever and no generation; any other intent calls its retriever, if it has one, once and generates once with its prompt. As written, every in-scope intent raises at routing |
| AgentManager.ClassifiedRequestsAreRouted | backend/agent_manager.py:48-64 | every intent the classifier produces, other than `out_of_scope`, gets retrieved data |
| AgentManager.RouteWith | backend/agent_manager.py:77-82 | routing raises when a retriever attribute is missing, and follows the table otherwise |
| AgentManager.RoutingAsWrittenAlwaysRaises | backend/agent_manager.py:31-35 | as written, routing raises for every intent |
| AgentManager.RoutingCorrectedFollowsTable | backend/agent_manager.py:77-88 | with the retrievers set up, routing follows the table |
| CleanCompatibility.ModelLike | backend/scripts/clean/clean_compatibility.py:31 | the model-like tokens are exactly the listed ones that pass `looks_like_model` |
| CleanCompatibility.KeptModels | backend/scripts/clean/clean_compatibility.py:32 | distinct model-like tokens, exactly `min(40, n)` of them for `n` distinct model-like tokens |
| CleanCompatibility.KeptModelsAreTheFirstModelLike | backend/scripts/clean/clean_compatibility.py:31-35 | the kept models start the deduplicated model-like tokens; all are kept when there are at most 40, and exactly 40 when there are more; nothing is kept exactly when no token looks like a model |
| CleanCompatibility.BrandsFound | backend/scripts/clean/clean_compatibility.py:52 | exactly the hinted brands that the text mentions, ignoring case |
| CleanCompatibility.BrandsKeepHintOrder | backend/scripts/clean/clean_compatibility.py:52 | the found brands keep the hint order |
| CleanCompatibility.CleanDocOf | backend/scripts/clean/clean_compatibility.py:31-56 | a document is skipped exactly when no model is kept; a kept one carries the id, the part number, title and URL (`""` when absent) and the kept models, and carries brands exactly when some were found |
| CleanCompatibility.CleanTextIsSummaryAndPageStart | backend/scripts/clean/clean_compatibility.py:37-48 | the text is the model summary, a space, and the first `min(300, n)` characters of the cleaned page text |
| CleanCompatibility.CleanDocsComeFromInput | backend/scripts/clean/clean_compatibility.py:30-56 | a document is produced exactly when cleaning some input document gives it |
| CleanCompatibility.CleanAll | backend/scripts/clean/clean_compatibility.py:30-56 | the loop yields the cleaned documents in input order |
| CleanupCompatibility.ModelOkIsStricter | backend/scripts/clean/cleanup_compatibility.py:3 | every full match is accepted as written, and the two agree on strings without a line break |
| CleanupCompatibility.CleanedModels | backend/scripts/clean/cleanup_compatibility.py:6 | strictly ascending, and exactly the listed models that fully match the pattern |
| CleanupCompatibility.CleanedModelsAreWellFormed | backend/scripts/clean/cleanup_compatibility.py:3-6 | every cleaned model is at least five of `A-Z0-9-` with a capital letter and a digit; no repeats; cleaning again changes nothing |
| CleanupCompatibility.CleanedModelsAsWritten | backend/scripts/clean/cleanup_compatibility.py:6 | strictly ascending, and exactly the listed models that the pattern accepts as written |
| CleanupCompatibility.LineBreakSurvivesAsWritten | backend/scripts/clean/cleanup_compatibility.py:3-6 | as written, a model followed by a line break survives the cleanup; the full match drops it |
| CleanupCompatibility.CompatibilityRecord.CleanRec | backend/scripts/clean/cleanup_compatibility.py:5-8 | `clean_rec` with the corrected full match of the third finding: the record's models become the fully matching models, sorted, and its text the shortened text; other keys are unchanged; the record itself is returned. As written, a model followed by a line break would also be kept |
| CleanupCompatibility.CleanupAll | backend/scripts/clean/cleanup_compatibility.py:13 | the same records in the same order, each cleaned once with the corrected full match of the third finding |

## Left out

- Text handling is ASCII-only. `upper`, `lower`, `strip`, `isdigit`, `isalpha`, `\d` and `\w` act on ASCII letters, digits and white space; other characters belong to no class and pass through unchanged.
- Reading and writing the JSON files, the embedding service, the vector store and the language model are not modelled as code. Their answers are inputs of the operations that use them: the loaded maps, manual and records, a `QueryOutcome` per store query, an `Outcome` per collection, a `ClassifierOutcome` and a `GenerationOutcome`.
- The store's answer is modelled as its inner lists. The outer one-element list of `query(query_texts=[...])` is implicit, so the truthiness test of `col_results["documents"]` in the question-and-answer merge reads as "the query answered". Distances are `real`, not floating point.
- `embed_query` in the question-and-answer retriever is outside the `try`, so its failure propagates. That failure is not modelled: the embedding is taken as given.
- JSON values are strings, optional strings or lists of strings. A value of another type in a field the code reads as a string (a number in `part_number`, say) is not modelled. In `build_part_mapping.py` a non-string model is a separate case, `JOther`, and it is skipped as the code skips it.
- A missing `id` key in `clean_compatibility.py` (`doc["id"]`) and a missing `models` or `text` key in `cleanup_compatibility.py` (`rec["models"]`, `rec["text"]`) raise `KeyError`. The model takes these keys as present.
- CleanupCompatibility.CompatibilityRecord.CleanRec and CleanupCompatibility.CleanupAll: they apply the corrected full match of the model pattern (see Findings). As written, `MODEL_OK.match` also keeps a model followed by one line break; that behaviour is `CleanedModelsAsWritten`, and these two methods do not reproduce it.
- CleanupCompatibility.CleanupAll: requires the records to be distinct objects. Records parsed from one JSON list always are. Aliased records, which would be cleaned twice, are not modelled.
- CleanupCompatibility.CompatibilityRecord.CleanRec: `textwrap.shorten(text, 300, placeholder=" …")` is the parameter `shorten`, so its contract does not state the 300-character bound.
- CleanCompatibility.CleanAll: the BeautifulSoup-based `strip_html` is the parameter `stripHtml`; the unused `MODEL_RE` is not modelled.
- PartMapping.AddPairs: Python's set iteration order is not modelled. The loop removes an arbitrary element, and the result does not depend on the order, as `DescribesIsUnique` shows.
- The `print` progress and diagnostic lines, the command-line parsing and the `--persist_dir` handling of the scripts are not modelled.
- The unreachable `else` branch at the end of the ingestion script's `main` (lines 161-162) is not modelled.
- AgentManager.HandleChat: it models the agent with the routing table set up (the corrected half of the second finding). As written, `_route_to_retriever` raises `AttributeError` for every intent other than `out_of_scope`, and `handle_chat_request` does not catch it. An exception raised by a retriever's own `retrieve` also propagates uncaught; the retrieved data is an input here, so that path is not modelled.
- The user prompt that `_generate_response` builds around the retrieved data is not modelled. The model records only the system prompt and the outcome of the call.
- The symptom retriever, the general part retriever and the out-of-scope service's internals beyond its canned message are not part of this model. Neither is `app.py`, which calls `handle_chat_request` with two arguments where the method takes one.
- The lazy singletons are modelled without concurrency: two first calls racing each other are not modelled.

## Findings

| source | as written | input that shows it | evidently intended | confidence | as-written member | corrected member |
|---|---|---|---|---|---|---|
| backend/services/intent_service/intent_service.py:43-50 | `classify_intent` passes `model=` to `chat_with_system`, which takes no such parameter; the `TypeError` is caught, so every request is classified `out_of_scope` | any query, e.g. "Is PS11752778 compatible with WDT780SAEM1?" | the reply of the classifier, normalised, decides the intent | not executed | IntentService.ClassifierAsWrittenIsAlwaysOutOfScope | IntentService.CorrectedClassifierFollowsReply |
| backend/agent_manager.py:31-35 | the retriever attributes are commented out of `__init__`, while `_route_to_retriever` reads all four when it builds its table (lines 77-82), so routing raises `AttributeError` | any in-scope intent, e.g. `installation` | each intent is routed to its retriever through the table | not executed | AgentManager.RoutingAsWrittenAlwaysRaises | AgentManager.RoutingCorrectedFollowsTable |
| backend/scripts/clean/cleanup_compatibility.py:3 | `MODEL_OK.match` with a final `$` accepts a model followed by one line break, and the line break stays in the cleaned list | a record with models ["ABC12\n"] | only strings made entirely of `A-Z0-9-` are kept | not executed | CleanupCompatibility.LineBreakSurvivesAsWritten | CleanupCompatibility.CleanedModelsAreWellFormed |
