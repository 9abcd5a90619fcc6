/**
 * The chat orchestrator: an `out_of_scope` intent is answered with the canned message at once;
 * any other intent is routed through a fixed table to one retriever, and the answer is
 * generated with the intent's system prompt, an error turning into an apology.
 */
module AgentManager {
  import opened Wrappers
  import opened Text
  import opened IntentService

  /** The four retrievers of the routing table. */
  datatype Retriever = CompatibilityRetriever | PartRetriever | SymptomRetriever | VectorRetriever

  /** `retriever_map` */
  const RetrieverTable: map<string, Retriever> := map[
    Compatibility := CompatibilityRetriever,
    Installation := PartRetriever,
    Troubleshoot := SymptomRetriever,
    Qna := VectorRetriever]

  /** `_route_to_retriever`'s choice: the intent's retriever, or none. */
  function RouteFor(intent: string): (r: Option<Retriever>)
    ensures r.Some? <==> intent in {Compatibility, Installation, Troubleshoot, Qna}
    ensures intent == Compatibility ==> r == Some(CompatibilityRetriever)
    ensures intent == Installation ==> r == Some(PartRetriever)
    ensures intent == Troubleshoot ==> r == Some(SymptomRetriever)
    ensures intent == Qna ==> r == Some(VectorRetriever)
  {
    if intent in RetrieverTable then Some(RetrieverTable[intent]) else None
  }

  /** Different intents are routed to different retrievers, and every retriever serves one. */
  lemma RoutingIsOneToOne(a: string, b: string)
    requires RouteFor(a).Some? && RouteFor(a) == RouteFor(b)
    ensures a == b
  {
  }

  /** The prompt for an intent outside the table. */
  const DefaultSystemPrompt := "You are a helpful appliance parts assistant."

  /** `system_prompts`, one per routed intent. */
  const SystemPrompts: map<string, string> := map[
    Compatibility := "You are a helpful appliance parts compatibility expert. Help users determine if parts are compatible with their appliances. Be specific and accurate.",
    Installation := "You are a helpful appliance parts installation guide. Provide clear, step-by-step instructions for installing or replacing parts. Focus on safety and accuracy.",
    Troubleshoot := "You are a helpful appliance troubleshooting expert. Help users diagnose and fix problems with their dishwashers and refrigerators. Provide practical solutions.",
    Qna := "You are a helpful appliance parts expert. Answer general questions about how appliance parts work, their specifications, and features. Be informative and accurate."]

  /** The system prompt: the intent's entry, or the default one. */
  function SystemPromptFor(intent: string): (prompt: string)
    ensures intent in SystemPrompts ==> prompt == SystemPrompts[intent]
    ensures intent !in SystemPrompts ==> prompt == DefaultSystemPrompt
  {
    if intent in SystemPrompts then SystemPrompts[intent] else DefaultSystemPrompt
  }

  /** Each routed intent has its own prompt, distinct from the default one. */
  lemma PromptsFollowRouting(intent: string)
    ensures intent in SystemPrompts <==> RouteFor(intent).Some?
    ensures intent in SystemPrompts ==> SystemPromptFor(intent) != DefaultSystemPrompt
  {
  }

  /** What the generation call did: it raised with a message, or it replied. */
  datatype GenerationOutcome = GenerationFailed(message: string) | Generated(text: string)

  /** The apology, which the error's message follows. */
  const ApologyPrefix := "I apologize, but I encountered an error while generating a response. Please try rephrasing your question. Error: "

  /** `_generate_response` after the call: the reply, or the apology carrying the error's
      message; it never raises. */
  function ResponseFor(outcome: GenerationOutcome): (response: string)
    ensures outcome.Generated? ==> response == outcome.text
    ensures outcome.GenerationFailed? ==>
      StartsWith(response, ApologyPrefix) && response[|ApologyPrefix|..] == outcome.message
  {
    match outcome
    case Generated(text) => text
    case GenerationFailed(message) =>
      var apology := ApologyPrefix + message;
      assert apology[..|ApologyPrefix|] == ApologyPrefix;
      apology
  }

  /** The canned out-of-scope message. */
  const OutOfScopeMessage := "Sorry, I am a bot only for helping on partselect.com specifically with dishwasher and refrigerator parts. I can help you with compatibility, installation, troubleshooting, or general questions about dishwashers and refridgerators on this page."

  /** The chat result: `response`, `intent` and `retrieved_data` (`None` when no retriever ran);
      a retriever's data is kept opaque. */
  datatype ChatResult<Data> = ChatResult(response: string, intent: string, retrievedData: Option<Data>)

  /** What handling a request did: the result, the retrievers called and the system prompts
      of the generation calls, in order. */
  datatype Handling<Data> = Handling(result: ChatResult<Data>, retrieverCalls: seq<Retriever>, generationPrompts: seq<string>)

  /** `handle_chat_request` with the routing table set up (the corrected routing of
      `RoutingCorrectedFollowsTable`), given the classified intent, what the routed retriever
      returns and what the generation call does. As written, routing raises for every intent
      other than `out_of_scope` (`RoutingAsWrittenAlwaysRaises`). */
  function HandleChat<Data>(intent: string, retrieved: Data, generation: GenerationOutcome): (h: Handling<Data>)
    ensures intent == OutOfScope ==>
      h == Handling(ChatResult(OutOfScopeMessage, OutOfScope, None), [], [])
    ensures intent != OutOfScope ==>
      && h.result.intent == intent
      && h.result.response == ResponseFor(generation)
      && h.generationPrompts == [SystemPromptFor(intent)]
      && (RouteFor(intent).Some? ==> h.retrieverCalls == [RouteFor(intent).value] && h.result.retrievedData == Some(retrieved))
      && (RouteFor(intent).None? ==> h.retrieverCalls == [] && h.result.retrievedData == None)
  {
    if intent == OutOfScope then
      Handling(ChatResult(OutOfScopeMessage, OutOfScope, None), [], [])
    else
      var route := RouteFor(intent);
      var data := if route.Some? then Some(retrieved) else None;
      var calls := if route.Some? then [route.value] else [];
      Handling(ChatResult(ResponseFor(generation), intent, data), calls, [SystemPromptFor(intent)])
  }

  /** Every intent the classifier can produce other than `out_of_scope` reaches a retriever,
      so with the classifier in front no request goes without retrieved data. */
  lemma ClassifiedRequestsAreRouted<Data>(outcome: ClassifierOutcome, retrieved: Data, generation: GenerationOutcome)
    ensures var intent := ClassifyIntent(outcome);
      intent != OutOfScope ==> HandleChat(intent, retrieved, generation).result.retrievedData == Some(retrieved)
  {
  }

  /** The attributes an agent manager is built with: as written, the retriever attributes
      are commented out. */
  const AttributesAsWritten: set<string> := {"intent_service", "llm_client", "outofscope_service"}

  /** The attributes the routing table reads. */
  const RetrieverAttributes: set<string> := {"compatibility_retriever", "part_retriever", "symptom_retriever", "vector_retriever"}

  /** The attributes once the retrievers are set up. */
  const AttributesCorrected: set<string> := AttributesAsWritten + RetrieverAttributes

  /** What routing did: it raised, or it chose a retriever or none. */
  datatype Routing = RoutingRaised | Routed(choice: Option<Retriever>)

  /** `_route_to_retriever` on an object with the given attributes: building the table reads
      every retriever attribute, so a missing one raises `AttributeError` whatever the intent. */
  function RouteWith(attributes: set<string>, intent: string): (r: Routing)
    ensures RetrieverAttributes <= attributes ==> r == Routed(RouteFor(intent))
    ensures !(RetrieverAttributes <= attributes) ==> r == RoutingRaised
  {
    if RetrieverAttributes <= attributes then Routed(RouteFor(intent)) else RoutingRaised
  }

  /** As written, routing raises for every intent: every in-scope request fails before its
      answer is generated. */
  lemma RoutingAsWrittenAlwaysRaises(intent: string)
    ensures RouteWith(AttributesAsWritten, intent) == RoutingRaised
  {
    assert "compatibility_retriever" in RetrieverAttributes && "compatibility_retriever" !in AttributesAsWritten;
  }

  /** With the retrievers set up, routing follows the table. */
  lemma RoutingCorrectedFollowsTable(intent: string)
    ensures RouteWith(AttributesCorrected, intent) == Routed(RouteFor(intent))
  {
  }
}
