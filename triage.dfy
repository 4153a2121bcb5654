/** The two stages composed, as the intake pipeline calls them: the
    message is classified, then the classification is routed with the
    request's urgency. */
module Triage {
  import opened Schemas
  import opened Text
  import opened Classifier
  import opened Workflow

  /** The routing decision for a normalised text under given tables. */
  function Decision(t: Tables, text: string, u: Urgency): RoutingDecision {
    Routing(Verdict(t, text), u)
  }

  /** `route(classify(message), urgency)`. */
  function Pipeline(message: string, u: Urgency): RoutingDecision {
    Routing(Classification(message), u)
  }

  /** The reason the fallback's confidence produces. */
  lemma FallbackReason()
    ensures LowConfidenceReason(FallbackConfidence) == "Confidence 0.35 below threshold 0.70."
  {
    assert FormatHundredths(FallbackConfidence) == "0.35";
    assert FormatHundredths(ConfidenceThreshold) == "0.70";
  }

  /** A weak signal always ends with a person: review is required, the
      destination is Human Review and the first reason reports 0.35 against
      0.70. */
  lemma WeakSignalGoesToHumanReview(t: Tables, text: string, u: Urgency)
    requires forall c: KnownCategory :: CategoryScore(t, c, text) <= 1
    ensures Decision(t, text, u).requiresHumanReview
    ensures Decision(t, text, u).destination == HumanReview
    ensures Decision(t, text, u).reasons[0] == "Confidence 0.35 below threshold 0.70."
    ensures AuthReason !in Decision(t, text, u).reasons
  {
    VerdictFallback(t, text);
    assert Verdict(t, text) == Fallback;
    ReasonsInStepOrder(Fallback, u);
    FallbackReason();
  }

  /** A clear winner needs no review: a top score of 7 or more already earns
      the full 0.5 score bonus, which with the base 0.2 reaches the
      threshold. */
  lemma StrongSignalSkipsReview(t: Tables, text: string, u: Urgency)
    requires TopScore(t, text) >= 7
    ensures !Decision(t, text, u).requiresHumanReview
    ensures Decision(t, text, u).destination
            == if HasAuthSignal(text) then ITSupport else QueueFor(CategoryOrder[TopIndex(t, text)])
  {
    VerdictConfidence(t, text);
    VerdictEntities(t, text);
    VerdictSelectsFirstBest(t, text);
    ConfidentDestination(Verdict(t, text), u);
  }

  /** Review is required exactly when the verdict is a fallback or a chosen
      category's confidence falls short of 0.70. */
  lemma ReviewIffLowConfidence(t: Tables, text: string, u: Urgency)
    ensures Decision(t, text, u).requiresHumanReview
        <==> TopScore(t, text) <= 1
             || 20 + Min(50, TopScore(t, text) * 8) + Min(30, TopMargin(t, text) * 12) < 70
  {
    VerdictConfidence(t, text);
  }

  /** A confident verdict with an authentication phrase goes to IT Support,
      whichever category won. */
  lemma AuthPhraseGoesToIT(t: Tables, text: string, u: Urgency)
    requires HasAuthSignal(text)
    requires !Decision(t, text, u).requiresHumanReview
    ensures Decision(t, text, u).destination == ITSupport
    ensures AuthReason in Decision(t, text, u).reasons
  {
    VerdictConfidence(t, text);
    VerdictEntities(t, text);
    ReasonsInStepOrder(Verdict(t, text), u);
  }

  /** Whenever the classifier answers `Unknown`, a person reviews the
      request in the Human Review queue. */
  lemma UnknownGoesToHumanReview(message: string, u: Urgency)
    ensures Classification(message).category == Unknown ==>
              Pipeline(message, u).requiresHumanReview && Pipeline(message, u).destination == HumanReview
  {
    VerdictFallback(SourceTables, Normalize(message));
  }

  /** No message is ever sent to Finance Ops. */
  lemma PipelineNeverFinance(message: string, u: Urgency)
    ensures Pipeline(message, u).destination != FinanceOps
  {
    NeverFinance(Classification(message), u);
  }

  /** The pipeline sees a message only through its normalised form. */
  lemma PipelineOfNormalized(message: string, u: Urgency)
    ensures Pipeline(Normalize(message), u) == Pipeline(message, u)
  {
    ClassificationOfNormalized(message);
  }
}
