/** The router: from a classification and the request's urgency it decides
    the destination queue, the action, whether a person must review the
    request, and the reasons for each override. The steps apply in a fixed
    order: the confidence threshold, the table lookup, the forced review,
    the urgency action and the authentication override. */
module Workflow {
  import opened Schemas
  import opened Text

  /** 0.70, in hundredths. */
  const ConfidenceThreshold: Confidence := 70

  /** The category table; every category, `Unknown` included, has a queue. */
  const CategoryToQueue: map<Category, Destination> :=
    map[RecognitionHelp := RecognitionOps,
        AwardFulfillmentIssue := RecognitionOps,
        NominationGuidance := HROps,
        PolicyEligibility := HROps,
        AccessPermissions := ITSupport,
        Unknown := HumanReview]

  const PrimaryAction := "Create ticket + notify primary"
  const OnCallAction := "Create ticket + notify primary + on-call"
  const HighUrgencyReason := "High urgency: prioritize SLA and notify on-call."
  const AuthReason := "Auth-related signal detected; routing to IT Support."

  /** `format(c, ".2f")` for a confidence in hundredths. */
  function FormatHundredths(c: Confidence): (s: string)
    ensures |s| == 4 && s[1] == '.'
    ensures forall i :: 0 <= i < |s| && i != 1 ==> '0' <= s[i] <= '9'
  {
    [DigitChar(c / 100), '.', DigitChar(c / 10 % 10), DigitChar(c % 10)]
  }

  /** Reads a rendering `d.dd` back as hundredths. */
  function ReadHundredths(s: string): int
    requires |s| == 4
  {
    (s[0] as int - '0' as int) * 100 + (s[2] as int - '0' as int) * 10 + (s[3] as int - '0' as int)
  }

  /** The two-decimal rendering loses nothing. */
  lemma FormatHundredthsRoundTrip(c: Confidence)
    ensures ReadHundredths(FormatHundredths(c)) == c
  {
  }

  function LowConfidenceReason(c: Confidence): string {
    "Confidence " + FormatHundredths(c) + " below threshold " + FormatHundredths(ConfidenceThreshold) + "."
  }

  /** `dict.get(flag)` is truthy: the flag is present and holds true. */
  predicate AuthSignal(entities: map<string, bool>) {
    AuthIssueKey in entities && entities[AuthIssueKey]
  }

  /** `CATEGORY_TO_QUEUE.get(category, "Human Review")`. */
  function QueueFor(c: Category): Destination {
    if c in CategoryToQueue then CategoryToQueue[c] else HumanReview
  }

  /** The table sends each category to its team and never to Finance Ops. */
  lemma QueueTable(c: Category)
    ensures QueueFor(c) == RecognitionOps <==> c == RecognitionHelp || c == AwardFulfillmentIssue
    ensures QueueFor(c) == HROps <==> c == NominationGuidance || c == PolicyEligibility
    ensures QueueFor(c) == ITSupport <==> c == AccessPermissions
    ensures QueueFor(c) == HumanReview <==> c == Unknown
    ensures QueueFor(c) != FinanceOps
  {
  }

  /** The decision in closed form: each field as the whole override
      sequence leaves it. */
  function Routing(c: ClassificationResult, u: Urgency): RoutingDecision {
    var review := c.confidence < ConfidenceThreshold;
    var auth := AuthSignal(c.extractedEntities) && !review;
    RoutingDecision(
      if review then HumanReview else if auth then ITSupport else QueueFor(c.category),
      if u == High then OnCallAction else PrimaryAction,
      review,
      (if review then [LowConfidenceReason(c.confidence)] else [])
      + (if u == High then [HighUrgencyReason] else [])
      + (if auth then [AuthReason] else []))
  }

  /** `route`: the override steps applied one after another to local state. */
  method Route(c: ClassificationResult, u: Urgency) returns (d: RoutingDecision)
    ensures d == Routing(c, u)
  {
    var reasons: seq<string> := [];
    var requiresHuman := false;

    if c.confidence < ConfidenceThreshold {
      requiresHuman := true;
      reasons := reasons + [LowConfidenceReason(c.confidence)];
    }

    var destination := if c.category in CategoryToQueue then CategoryToQueue[c.category] else HumanReview;

    if requiresHuman {
      destination := HumanReview;
    }

    var action;
    if u == High {
      reasons := reasons + [HighUrgencyReason];
      action := OnCallAction;
    } else {
      action := PrimaryAction;
    }

    var authFlag := if AuthIssueKey in c.extractedEntities then c.extractedEntities[AuthIssueKey] else false;
    if authFlag && !requiresHuman {
      destination := ITSupport;
      reasons := reasons + [AuthReason];
    }

    d := RoutingDecision(destination, action, requiresHuman, reasons);
  }

  /** Review is required exactly when the confidence is below 0.70, and then
      the destination is Human Review whatever the table or the flags say. */
  lemma ReviewBelowThreshold(c: ClassificationResult, u: Urgency)
    ensures Routing(c, u).requiresHumanReview <==> c.confidence < ConfidenceThreshold
    ensures Routing(c, u).requiresHumanReview ==> Routing(c, u).destination == HumanReview
  {
  }

  /** A confident classification carrying the authentication flag goes to
      IT Support whatever its category; without the flag it goes where the
      table says. */
  lemma ConfidentDestination(c: ClassificationResult, u: Urgency)
    requires c.confidence >= ConfidenceThreshold
    ensures AuthSignal(c.extractedEntities) ==> Routing(c, u).destination == ITSupport
    ensures !AuthSignal(c.extractedEntities) ==> Routing(c, u).destination == QueueFor(c.category)
  {
  }

  /** The destination is one of the four queues the table and the overrides
      produce, never Finance Ops. */
  lemma NeverFinance(c: ClassificationResult, u: Urgency)
    ensures Routing(c, u).destination != FinanceOps
  {
    QueueTable(c.category);
  }

  /** Only high urgency adds the on-call. */
  lemma ActionByUrgency(c: ClassificationResult, u: Urgency)
    ensures Routing(c, u).action == OnCallAction <==> u == High
    ensures Routing(c, u).action == PrimaryAction <==> u != High
  {
  }

  /** The three reasons are told apart by their first character. */
  lemma ReasonsDiffer(conf: Confidence)
    ensures LowConfidenceReason(conf) != HighUrgencyReason
    ensures LowConfidenceReason(conf) != AuthReason
    ensures HighUrgencyReason != AuthReason
  {
    assert LowConfidenceReason(conf)[0] == 'C';
  }

  /** The reasons appear in step order: the low-confidence reason when
      review is required, then the urgency reason when urgency is high, then
      the authentication reason when the override fired. There are at most
      three, and the first and the last never appear together, because the
      override only fires without review. */
  lemma {:induction false} ReasonsInStepOrder(c: ClassificationResult, u: Urgency)
    ensures var r := Routing(c, u).reasons;
      && |r| == (if c.confidence < ConfidenceThreshold then 1 else 0)
                + (if u == High then 1 else 0)
                + (if AuthSignal(c.extractedEntities) && c.confidence >= ConfidenceThreshold then 1 else 0)
      && |r| <= 3
      && (LowConfidenceReason(c.confidence) in r <==> c.confidence < ConfidenceThreshold)
      && (HighUrgencyReason in r <==> u == High)
      && (AuthReason in r <==> AuthSignal(c.extractedEntities) && c.confidence >= ConfidenceThreshold)
      && !(LowConfidenceReason(c.confidence) in r && AuthReason in r)
      && (c.confidence < ConfidenceThreshold ==> r[0] == LowConfidenceReason(c.confidence))
      && (AuthReason in r ==> r[|r| - 1] == AuthReason)
      && (u == High ==> r[if c.confidence < ConfidenceThreshold then 1 else 0] == HighUrgencyReason)
  {
    ReasonsDiffer(c.confidence);
  }
}
