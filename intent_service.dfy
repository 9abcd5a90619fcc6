/**
 * The post-processing of intent classification: the classifier's reply is lower-cased and
 * stripped, and anything that is not one of the five intents, or a failed call, becomes
 * `out_of_scope`.
 */
module IntentService {
  import opened Text

  const Compatibility := "compatibility"
  const Installation := "installation"
  const Qna := "qna"
  const Troubleshoot := "troubleshoot"
  const OutOfScope := "out_of_scope"

  /** `valid_intents` */
  const ValidIntents: seq<string> := [Compatibility, Installation, Qna, Troubleshoot, OutOfScope]

  /** What the classifier call did: it raised, or it replied with a text. */
  datatype ClassifierOutcome = Raised | Reply(text: string)

  /** `response.lower().strip()` */
  function Normalise(reply: string): string {
    Strip(Lower(reply))
  }

  /** `classify_intent` after the call: always one of the five intents; the normalised reply
      when it is one, `out_of_scope` otherwise and when the call raised. */
  function ClassifyIntent(outcome: ClassifierOutcome): (intent: string)
    ensures intent in ValidIntents
    ensures outcome.Raised? ==> intent == OutOfScope
    ensures outcome.Reply? && Normalise(outcome.text) in ValidIntents ==> intent == Normalise(outcome.text)
    ensures outcome.Reply? && Normalise(outcome.text) !in ValidIntents ==> intent == OutOfScope
  {
    match outcome
    case Raised => OutOfScope
    case Reply(text) =>
      var intent := Normalise(text);
      if intent in ValidIntents then intent else OutOfScope
  }

  /** Every intent is already in normal form, so a reply that is exactly an intent is
      classified as that intent. */
  lemma IntentsAreNormal(intent: string)
    requires intent in ValidIntents
    ensures Normalise(intent) == intent
    ensures ClassifyIntent(Reply(intent)) == intent
  {
    assert !HasUpper(intent);
    LowerOfLowerCase(intent);
    StripOfTrimmed(intent);
  }

  /** The classification ignores the case of the reply's letters. */
  lemma ClassificationIgnoresCase(text: string)
    ensures ClassifyIntent(Reply(Upper(text))) == ClassifyIntent(Reply(text))
  {
    LowerIgnoresUpper(text);
  }

  /** The keyword arguments `chat_with_system` accepts. */
  const ChatWithSystemParameters: set<string> := {"system_prompt", "user_prompt", "max_tokens", "temperature"}

  /** The keyword arguments `classify_intent` passes. */
  const ClassifierArguments: set<string> := {"system_prompt", "user_prompt", "model", "max_tokens", "temperature"}

  /** The keyword arguments without the one the client does not take. */
  const CorrectedClassifierArguments: set<string> := ClassifierArguments - {"model"}

  /** A call with keyword arguments the function does not declare raises `TypeError` before
      anything is sent; otherwise it does what the service does. */
  function CallWith(arguments: set<string>, service: ClassifierOutcome): (outcome: ClassifierOutcome)
    ensures arguments <= ChatWithSystemParameters ==> outcome == service
    ensures !(arguments <= ChatWithSystemParameters) ==> outcome == Raised
  {
    if arguments <= ChatWithSystemParameters then service else Raised
  }

  /** As written, the call always raises, so every query is classified `out_of_scope`
      whatever the service would have replied. */
  lemma ClassifierAsWrittenIsAlwaysOutOfScope(service: ClassifierOutcome)
    ensures ClassifyIntent(CallWith(ClassifierArguments, service)) == OutOfScope
  {
    assert "model" in ClassifierArguments && "model" !in ChatWithSystemParameters;
  }

  /** Without the extra argument the service's reply is what gets classified: a reply naming
      an intent is classified as that intent. */
  lemma CorrectedClassifierFollowsReply(service: ClassifierOutcome)
    ensures ClassifyIntent(CallWith(CorrectedClassifierArguments, service)) == ClassifyIntent(service)
    ensures forall intent :: intent in ValidIntents ==>
      ClassifyIntent(CallWith(CorrectedClassifierArguments, Reply(intent))) == intent
  {
    assert CorrectedClassifierArguments == ChatWithSystemParameters;
    forall intent | intent in ValidIntents
      ensures ClassifyIntent(CallWith(CorrectedClassifierArguments, Reply(intent))) == intent
    {
      IntentsAreNormal(intent);
    }
  }
}
