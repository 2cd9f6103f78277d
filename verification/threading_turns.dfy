/** Turns and steps of a conversation, and the small string tests the threading code makes.
    A missing field is the empty string: the source tests both with `||`. */
module ThreadTurns {
  import opened Options
  import opened Texts

  datatype Turn = Turn(id: nat, inbound: bool, channel: string, text: string, intent: string,
                       ticket: string, source: string, product: string, draft: string)

  /** One flow step: a customer message, an answer, or both. */
  datatype Step = Step(inbound: Option<Turn>, outbound: Option<Turn>)

  function TurnsOf(s: Step): seq<Turn> {
    (if s.inbound.Some? then [s.inbound.value] else []) + (if s.outbound.Some? then [s.outbound.value] else [])
  }

  function Flatten(steps: seq<Step>): seq<Turn> {
    if steps == [] then [] else TurnsOf(steps[0]) + Flatten(steps[1..])
  }

  // ---------------------------------------------------------------- strings

  const HOLDING_PREFIX := "support agent will help you with this shortly"

  /** The stub sent while a reply is held for review. */
  predicate IsHolding(text: string) {
    HOLDING_PREFIX <= Lower(Strip(text))
  }

  predicate IsOfferStep(s: Step) {
    s.outbound.Some? && s.outbound.value.source == "opportunity_offer" && s.inbound.None?
  }

  function OfferDraftId(s: Step): string {
    if s.outbound.Some? then s.outbound.value.draft else ""
  }

  /** The first of two strings that is not missing. */
  function Or(a: string, b: string): string {
    if a != "" then a else b
  }

  function TicketOf(s: Step): string {
    Or(if s.inbound.Some? then s.inbound.value.ticket else "",
       if s.outbound.Some? then s.outbound.value.ticket else "")
  }

  const OFFER_PRODUCT_INTENT: map<string, string> := map[
    "term_insurance" := "policy_status",
    "health_insurance" := "policy_status",
    "insurance_policy" := "policy_status",
    "credit_card" := "card_management",
    "premium_card_upgrade" := "card_management",
    "personal_loan_info" := "loan_status",
    "fixed_deposit" := "account_balance_inquiry",
    "fd_renewal" := "account_balance_inquiry",
    "premium_account_tier" := "account_balance_inquiry",
    "charge_waiver_account_upgrade" := "account_balance_inquiry"
  ]

  function OfferIntentOf(s: Step): string {
    var product := if s.outbound.Some? then Lower(s.outbound.value.product) else "";
    if product in OFFER_PRODUCT_INTENT then OFFER_PRODUCT_INTENT[product] else "general_inquiry"
  }

  function TopicOrEmpty(intent: string): string {
    if intent == "ticket_closure" then "" else intent
  }

  /** The intent a step is themed by before its ticket is considered. */
  function RawIntent(s: Step): string {
    if IsOfferStep(s) then OfferIntentOf(s)
    else TopicOrEmpty(Or(if s.inbound.Some? then s.inbound.value.intent else "",
                         if s.outbound.Some? then s.outbound.value.intent else ""))
  }

  /** The theme key of an intent; its label and colour are functions of the key. */
  function ThemeOf(intent: string): string {
    Or(Lower(intent), "general")
  }
}
