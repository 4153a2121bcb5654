/** The data model of the triage engine: the closed enumerations and the
    field-constrained records that the classifier and the router exchange.
    Each `Literal[...]` enumeration of the source is a datatype; its parse
    function accepts exactly the enumeration's strings, which is what the
    record validation enforces when a value is constructed. */
module Schemas {

  datatype Option<+T> = None | Some(value: T)

  /** The request categories, in their declaration order. */
  datatype Category =
    | RecognitionHelp
    | AwardFulfillmentIssue
    | NominationGuidance
    | PolicyEligibility
    | AccessPermissions
    | Unknown

  function CategoryName(c: Category): string {
    match c
    case RecognitionHelp => "recognition_help"
    case AwardFulfillmentIssue => "award_fulfillment_issue"
    case NominationGuidance => "nomination_guidance"
    case PolicyEligibility => "policy_eligibility"
    case AccessPermissions => "access_permissions"
    case Unknown => "unknown"
  }

  /** Accepts exactly the six category names. */
  function ParseCategory(s: string): (r: Option<Category>)
    ensures r.Some? ==> CategoryName(r.value) == s
    ensures (exists c :: CategoryName(c) == s) ==> r.Some?
  {
    if s == "recognition_help" then Some(RecognitionHelp)
    else if s == "award_fulfillment_issue" then Some(AwardFulfillmentIssue)
    else if s == "nomination_guidance" then Some(NominationGuidance)
    else if s == "policy_eligibility" then Some(PolicyEligibility)
    else if s == "access_permissions" then Some(AccessPermissions)
    else if s == "unknown" then Some(Unknown)
    else None
  }

  /** The queues a request can be routed to. */
  datatype Destination =
    | RecognitionOps
    | HROps
    | ITSupport
    | FinanceOps
    | HumanReview

  function DestinationName(d: Destination): string {
    match d
    case RecognitionOps => "Recognition Ops"
    case HROps => "HR Ops"
    case ITSupport => "IT Support"
    case FinanceOps => "Finance Ops"
    case HumanReview => "Human Review"
  }

  /** Accepts exactly the five destination names. */
  function ParseDestination(s: string): (r: Option<Destination>)
    ensures r.Some? ==> DestinationName(r.value) == s
    ensures (exists d :: DestinationName(d) == s) ==> r.Some?
  {
    if s == "Recognition Ops" then Some(RecognitionOps)
    else if s == "HR Ops" then Some(HROps)
    else if s == "IT Support" then Some(ITSupport)
    else if s == "Finance Ops" then Some(FinanceOps)
    else if s == "Human Review" then Some(HumanReview)
    else None
  }

  datatype Urgency = Low | Medium | High

  function UrgencyName(u: Urgency): string {
    match u
    case Low => "low"
    case Medium => "medium"
    case High => "high"
  }

  /** Accepts exactly "low", "medium" and "high". */
  function ParseUrgency(s: string): (r: Option<Urgency>)
    ensures r.Some? ==> UrgencyName(r.value) == s
    ensures (exists u :: UrgencyName(u) == s) ==> r.Some?
  {
    if s == "low" then Some(Low)
    else if s == "medium" then Some(Medium)
    else if s == "high" then Some(High)
    else None
  }

  /** A confidence in hundredths: 0 stands for 0.0 and 100 for 1.0. */
  type Confidence = c: int | 0 <= c <= 100

  /** The range check the classification record applies to its confidence. */
  function ValidateConfidence(hundredths: int): (r: Option<Confidence>)
    ensures r.Some? <==> 0 <= hundredths <= 100
    ensures r.Some? ==> r.value == hundredths
  {
    if 0 <= hundredths <= 100 then Some(hundredths) else None
  }

  datatype IntakeRequest = IntakeRequest(
    requestId: string,
    employeeName: Option<string>,
    department: string,
    urgency: Urgency,
    message: string)

  /** The keys of the signal flags in `extracted_entities`: the classifier
      writes them and the router reads the second. */
  const OrderIssueKey := "possible_order_issue"
  const AuthIssueKey := "possible_auth_issue"

  /** Signal flags are kept as booleans: the classifier only ever stores true. */
  datatype ClassificationResult = ClassificationResult(
    category: Category,
    confidence: Confidence,
    rationale: string,
    extractedEntities: map<string, bool> := map[])

  datatype RoutingDecision = RoutingDecision(
    destination: Destination,
    action: string,
    requiresHumanReview: bool,
    reasons: seq<string> := [])

  /** The detail payload of each audit event the pipeline records. */
  datatype AuditDetails =
    | IntakeReceived(requestId: string, department: string, urgency: Urgency)
    | AiClassification(category: Category, confidence: Confidence, rationale: string)
    | WorkflowRouted(destination: Destination, requiresHumanReview: bool, reasons: seq<string>)

  datatype AuditEvent = AuditEvent(ts: string, event: string, details: AuditDetails)

  /** The terminal record: it embeds every earlier entity by value. */
  datatype TicketRecord = TicketRecord(
    request: IntakeRequest,
    classification: ClassificationResult,
    routing: RoutingDecision,
    createdAtIso: string,
    auditLog: seq<AuditEvent>)

  /** Records built without the optional collections start with empty ones. */
  lemma DefaultCollectionsAreEmpty(c: Category, conf: Confidence, rationale: string,
                                   d: Destination, action: string, review: bool)
    ensures ClassificationResult(c, conf, rationale).extractedEntities == map[]
    ensures RoutingDecision(d, action, review).reasons == []
  {
  }
}
