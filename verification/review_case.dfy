/** What a review keeps of whatever the model answered. */
module ReviewCase {
  import opened Options
  import opened Texts
  import opened ReviewDraft
  import opened ReviewJson
  import opened ReviewOffers

  /** `str(value or "")`. */
  function Written(co: Coercions, j: Json): string {
    if !Truthy(j) then "" else if j.Str? then j.s else co.show(j)
  }

  function Field(co: Coercions, item: Json, key: string): string
    requires item.Obj?
  {
    Strip(Written(co, Get(item, key)))
  }

  function Clamp(x: real): real {
    var y := if x < 0.0 then 0.0 else x;
    if y > 1.0 then 1.0 else y
  }

  /** `float(value or 0.5)` held between 0 and 1, and 0.5 for what is no number; nothing when the
      conversion raises. A stated 0 is falsy and reads as 0.5. */
  function Confidence(co: Coercions, j: Json): (c: Option<real>)
    ensures c.Some? ==> 0.0 <= c.value <= 1.0
  {
    if !Truthy(j) then Some(0.5)
    else match co.number(j)
      case Value(x) => Some(Clamp(x))
      case NoNumber => Some(0.5)
      case TooLarge => None
  }

  /** A stated number is kept exactly when it is above 0 and at most 1; a stated 0 becomes 0.5. */
  lemma ConfidenceKept(co: Coercions, x: real)
    requires co.number(Num(x)) == Value(x)
    ensures Confidence(co, Num(x)) == Some(x) <==> 0.0 < x <= 1.0
    ensures x < 0.0 ==> Confidence(co, Num(x)) == Some(0.0)
    ensures x == 0.0 ==> Confidence(co, Num(x)) == Some(0.5)
    ensures x > 1.0 ==> Confidence(co, Num(x)) == Some(1.0)
  {
  }

  /** What the validation does with one item. */
  datatype Outcome<+T> = Skip | Keep(item: T) | Raise

  function Upto(s: string, n: nat): (r: string)
    ensures |r| <= n && |r| <= |s|
  {
    if |s| <= n then s else s[..n]
  }

  const ACTION_TYPES := ["promised_update", "information_needed", "proactive_warning", "acknowledgement"]
  const MAX_ACTIONS := 3
  const MAX_OFFERS := 2

  datatype Action = Action(kind: string, reason: string, basis: string, draft: string, confidence: real)

  datatype Offer = Offer(product: string, upSell: bool, pitch: string, reason: string, basis: Basis, draft: string,
    confidence: real)

  // ---- What one item becomes ----

  function ActionOf(co: Coercions, item: Json): Outcome<Action> {
    if !item.Obj? then Skip
    else
      var kind, reason := Field(co, item, "type"), Field(co, item, "reason");
      if kind !in ACTION_TYPES || reason == "" then Skip
      else match Confidence(co, Get(item, "confidence"))
        case None => Raise
        case Some(c) => Keep(Action(kind, Upto(reason, 240), Upto(Field(co, item, "basis"), 160),
                                    CleanDraft(Written(co, Get(item, "draft"))), c))
  }

  /** The candidate a product names; of two with one product the dictionary keeps the last. */
  function Allowed(cs: seq<Candidate>, product: string): Option<Candidate> {
    if cs == [] then None
    else if cs[|cs| - 1].product == product then Some(cs[|cs| - 1])
    else Allowed(cs[..|cs| - 1], product)
  }

  function FirstWord(s: string): (w: string)
    ensures |w| <= |s|
  {
    if s == "" || IsSpace(s[0]) then "" else [s[0]] + FirstWord(s[1..])
  }

  function Words(s: string): seq<string>
    decreases |s|
  {
    if s == "" then []
    else if IsSpace(s[0]) then Words(s[1..])
    else [FirstWord(s)] + Words(s[|FirstWord(s)|..])
  }

  function Spaced(ws: seq<string>): string {
    if ws == [] then "" else if |ws| == 1 then ws[0] else ws[0] + " " + Spaced(ws[1..])
  }

  const ELLIPSIS := "\U{2026}"

  /** More than 25 words are cut to 25 and an ellipsis. */
  function Clip(pitch: string): string {
    if |Words(pitch)| > 25 then Spaced(Words(pitch)[..25]) + ELLIPSIS else pitch
  }

  /** Kind and basis are the candidate's, whatever the model claims. */
  function OfferOf(co: Coercions, cs: seq<Candidate>, item: Json): Outcome<Offer> {
    if !item.Obj? then Skip
    else
      var product, pitch := Field(co, item, "product"), Field(co, item, "pitch");
      match Allowed(cs, product)
      case None => Skip
      case Some(c) =>
        if pitch == "" then Skip
        else match Confidence(co, Get(item, "confidence"))
          case None => Raise
          case Some(x) => Keep(Offer(product, c.upSell, Clip(pitch), Upto(Field(co, item, "reason"), 120), c.basis,
                                     CleanDraft(Written(co, Get(item, "draft"))), x))
  }

  // ---- The lists ----

  /** The accepted items among the raw ones, in the order of the answer. */
  function AllActions(co: Coercions, items: seq<Json>): seq<Action> {
    if items == [] then []
    else AllActions(co, items[..|items| - 1])
         + (match ActionOf(co, items[|items| - 1]) case Keep(a) => [a] case _ => [])
  }

  function AllOffers(co: Coercions, cs: seq<Candidate>, items: seq<Json>): seq<Offer> {
    if items == [] then []
    else AllOffers(co, cs, items[..|items| - 1])
         + (match OfferOf(co, cs, items[|items| - 1]) case Keep(o) => [o] case _ => [])
  }

  /** Some item raises before enough others are accepted. */
  predicate ActionsRaise(co: Coercions, items: seq<Json>) {
    exists i :: 0 <= i < |items| && ActionOf(co, items[i]).Raise? && |AllActions(co, items[..i])| < MAX_ACTIONS
  }

  predicate OffersRaise(co: Coercions, cs: seq<Candidate>, items: seq<Json>) {
    exists i :: 0 <= i < |items| && OfferOf(co, cs, items[i]).Raise? && |AllOffers(co, cs, items[..i])| < MAX_OFFERS
  }

  function First<T>(s: seq<T>, n: nat): seq<T> {
    if |s| <= n then s else s[..n]
  }

  lemma {:induction false} ActionsPrefix(co: Coercions, items: seq<Json>, k: nat)
    requires k <= |items|
    ensures AllActions(co, items[..k]) <= AllActions(co, items)
    decreases |items| - k
  {
    hide ActionOf;
    if k < |items| {
      ActionsPrefix(co, items, k + 1);
      assert items[..k + 1][..k] == items[..k];
    } else {
      assert items[..k] == items;
    }
  }

  lemma {:induction false} OffersPrefix(co: Coercions, cs: seq<Candidate>, items: seq<Json>, k: nat)
    requires k <= |items|
    ensures AllOffers(co, cs, items[..k]) <= AllOffers(co, cs, items)
    decreases |items| - k
  {
    hide OfferOf;
    if k < |items| {
      OffersPrefix(co, cs, items, k + 1);
      assert items[..k + 1][..k] == items[..k];
    } else {
      assert items[..k] == items;
    }
  }

  lemma AllActionsStep(co: Coercions, items: seq<Json>, i: nat)
    requires i <= |items|
    ensures AllActions(co, items[..0]) == []
    ensures i < |items| ==>
              AllActions(co, items[..i + 1])
              == AllActions(co, items[..i]) + (match ActionOf(co, items[i]) case Keep(a) => [a] case _ => [])
  {
    hide ActionOf;
    if i < |items| {
      assert items[..i + 1][..i] == items[..i];
    }
  }

  /** The first three acceptable actions, unless an item raises before they are found. */
  method ValidActions(co: Coercions, items: seq<Json>) returns (r: Option<seq<Action>>)
    ensures r.None? <==> ActionsRaise(co, items)
    ensures r.Some? ==> r.value == First(AllActions(co, items), MAX_ACTIONS)
  {
    hide ActionOf, AllActions;
    var kept: seq<Action> := [];
    AllActionsStep(co, items, 0);
    for i := 0 to |items|
      invariant kept == AllActions(co, items[..i]) && |kept| < MAX_ACTIONS
      invariant forall j :: 0 <= j < i ==> !ActionOf(co, items[j]).Raise?
    {
      AllActionsStep(co, items, i);
      match ActionOf(co, items[i])
      case Skip =>
      case Raise => return None;
      case Keep(a) =>
        kept := kept + [a];
        if |kept| >= MAX_ACTIONS {
          forall j | i < j < |items| ensures |AllActions(co, items[..j])| >= MAX_ACTIONS {
            ActionsPrefix(co, items[..j], i + 1);
            assert items[..j][..i + 1] == items[..i + 1];
          }
          ActionsPrefix(co, items, i + 1);
          return Some(kept);
        }
    }
    assert items[..|items|] == items;
    r := Some(kept);
  }

  /** What there is to go through: a list's items, an object by itself, nothing otherwise. */
  function ItemsOf(parsed: Option<Json>): seq<Json> {
    if parsed.None? then []
    else if parsed.value.Arr? then parsed.value.items
    else if parsed.value.Obj? then [parsed.value]
    else []
  }

  lemma AllOffersStep(co: Coercions, cs: seq<Candidate>, items: seq<Json>, i: nat)
    requires i <= |items|
    ensures AllOffers(co, cs, items[..0]) == []
    ensures i < |items| ==>
              AllOffers(co, cs, items[..i + 1])
              == AllOffers(co, cs, items[..i]) + (match OfferOf(co, cs, items[i]) case Keep(o) => [o] case _ => [])
  {
    hide OfferOf;
    if i < |items| {
      assert items[..i + 1][..i] == items[..i];
    }
  }

  /** The first two offers from the candidate set, unless an item raises before they are found.
      `parsed` is what their second decoding gave. */
  method ValidOffers(co: Coercions, cs: seq<Candidate>, parsed: Option<Json>) returns (r: Option<seq<Offer>>)
    ensures r.None? <==> OffersRaise(co, cs, ItemsOf(parsed))
    ensures r.Some? ==> r.value == First(AllOffers(co, cs, ItemsOf(parsed)), MAX_OFFERS)
  {
    hide OfferOf, AllOffers;
    var items := ItemsOf(parsed);
    AllOffersStep(co, cs, items, 0);
    assert items[..|items|] == items;
    if parsed.None? || !(parsed.value.Arr? || parsed.value.Obj?) {
      return Some([]);
    }
    var kept: seq<Offer> := [];
    for i := 0 to |items|
      invariant kept == AllOffers(co, cs, items[..i]) && |kept| < MAX_OFFERS
      invariant forall j :: 0 <= j < i ==> !OfferOf(co, cs, items[j]).Raise?
    {
      AllOffersStep(co, cs, items, i);
      match OfferOf(co, cs, items[i])
      case Skip =>
      case Raise => return None;
      case Keep(o) =>
        kept := kept + [o];
        if |kept| >= MAX_OFFERS {
          forall j | i < j < |items| ensures |AllOffers(co, cs, items[..j])| >= MAX_OFFERS {
            OffersPrefix(co, cs, items[..j], i + 1);
            assert items[..j][..i + 1] == items[..i + 1];
          }
          OffersPrefix(co, cs, items, i + 1);
          return Some(kept);
        }
    }
    r := Some(kept);
  }

  // ---- What holds of everything kept ----

  predicate GoodAction(a: Action) {
    && a.kind in ACTION_TYPES && 0 < |a.reason| <= 240 && |a.basis| <= 160
    && |a.draft| <= DRAFT_CHARS && !HasMask(a.draft) && 0.0 <= a.confidence <= 1.0
  }

  predicate GoodOffer(cs: seq<Candidate>, o: Offer) {
    && (exists c <- cs :: c.product == o.product && c.upSell == o.upSell && c.basis == o.basis)
    && o.pitch != "" && |o.reason| <= 120 && |o.draft| <= DRAFT_CHARS && !HasMask(o.draft) && 0.0 <= o.confidence <= 1.0
  }

  lemma ActionIsGood(co: Coercions, item: Json)
    ensures ActionOf(co, item).Keep? ==> GoodAction(ActionOf(co, item).item)
  {
    hide HasMask, CleanDraft, Confidence, Field, Written, ACTION_TYPES;
    if item.Obj? {
      CleanDraftIsSafe(Written(co, Get(item, "draft")));
    }
  }

  lemma {:induction false} AllowedIsOurs(cs: seq<Candidate>, product: string)
    ensures Allowed(cs, product).Some? ==>
              Allowed(cs, product).value in cs && Allowed(cs, product).value.product == product
    ensures Allowed(cs, product).None? ==> forall c <- cs :: c.product != product
  {
    if cs != [] {
      AllowedIsOurs(cs[..|cs| - 1], product);
      assert cs == cs[..|cs| - 1] + [cs[|cs| - 1]];
    }
  }

  lemma ClipSaysSomething(pitch: string)
    requires pitch != ""
    ensures Clip(pitch) != ""
  {
    hide Words, Spaced;
  }

  lemma OfferOfIs(co: Coercions, cs: seq<Candidate>, item: Json)
    requires OfferOf(co, cs, item).Keep?
    ensures item.Obj?
    ensures var o, c, pitch := OfferOf(co, cs, item).item, Allowed(cs, Field(co, item, "product")),
      Field(co, item, "pitch");
            && c.Some? && pitch != "" && o.product == Field(co, item, "product") && o.upSell == c.value.upSell
            && o.basis == c.value.basis && o.pitch == Clip(pitch) && o.reason == Upto(Field(co, item, "reason"), 120)
            && o.draft == CleanDraft(Written(co, Get(item, "draft"))) &&
              Some(o.confidence) == Confidence(co, Get(item, "confidence"))
  {
    hide Allowed, Field, Clip, Upto, CleanDraft, Written, Confidence, Get;
  }

  lemma GoodOfferIs(cs: seq<Candidate>, o: Offer, c: Candidate)
    requires c in cs && c.product == o.product && c.upSell == o.upSell && c.basis == o.basis
    requires o.pitch != "" && |o.reason| <= 120 && |o.draft| <= DRAFT_CHARS && !HasMask(o.draft) &&
      0.0 <= o.confidence <= 1.0
    ensures GoodOffer(cs, o)
  {
    hide HasMask;
  }

  lemma OfferIsGood(co: Coercions, cs: seq<Candidate>, item: Json)
    ensures OfferOf(co, cs, item).Keep? ==> GoodOffer(cs, OfferOf(co, cs, item).item)
  {
    hide *;
    if OfferOf(co, cs, item).Keep? {
      OfferOfIs(co, cs, item);
      CleanDraftIsSafe(Written(co, Get(item, "draft")));
      AllowedIsOurs(cs, Field(co, item, "product"));
      ClipSaysSomething(Field(co, item, "pitch"));
      GoodOfferIs(cs, OfferOf(co, cs, item).item, Allowed(cs, Field(co, item, "product")).value);
    }
  }

  lemma {:induction false} ActionsAreGood(co: Coercions, items: seq<Json>)
    ensures forall a <- AllActions(co, items) :: GoodAction(a)
  {
    hide ActionOf, GoodAction;
    if items != [] {
      ActionsAreGood(co, items[..|items| - 1]);
      ActionIsGood(co, items[|items| - 1]);
    }
  }

  lemma {:induction false} OffersAreGood(co: Coercions, cs: seq<Candidate>, items: seq<Json>)
    ensures forall o <- AllOffers(co, cs, items) :: GoodOffer(cs, o)
    ensures cs == [] ==> AllOffers(co, cs, items) == []
  {
    hide OfferOf, GoodOffer;
    if items != [] {
      OffersAreGood(co, cs, items[..|items| - 1]);
      OfferIsGood(co, cs, items[|items| - 1]);
      if cs == [] {
        NoCandidates(co, items[|items| - 1]);
      }
    }
  }

  lemma NoCandidates(co: Coercions, item: Json)
    ensures OfferOf(co, [], item) == Skip
  {
    hide Clip, CleanDraft, Confidence, Field;
  }

  // ---- A whole review ----

  datatype Gate = Held | CaseClosed

  datatype Review =
    | Suppressed(gate: Gate)
    | Failed
    | Raised
    | Done(situation: string, actions: seq<Action>, offers: seq<Offer>, offersGated: bool)

  /** The latest inbound turn decides, and it alone. */
  predicate LatestIsNegative(said: seq<Said>) {
    exists i :: 0 <= i < |said| && said[i].inbound && Lower(said[i].sentiment) == "negative"
                && forall j :: i < j < |said| ==> !said[j].inbound
  }

  method OffersSuppressed(said: seq<Said>) returns (gated: bool)
    ensures gated <==> LatestIsNegative(said)
  {
    hide Lower;
    gated := false;
    var i := |said|;
    while i > 0
      invariant 0 <= i <= |said| && !gated && forall j :: i <= j < |said| ==> !said[j].inbound
    {
      i := i - 1;
      if said[i].inbound {
        return Lower(said[i].sentiment) == "negative";
      }
    }
  }

  /** `for item in value or []`: a list gives its items, a text its characters, an object its
      keys; a number or `true` cannot be iterated, and the error is not caught. */
  function Iterated(j: Json): Option<seq<Json>> {
    if !Truthy(j) then Some([])
    else match j
      case Arr(items) => Some(items)
      case Num(_) => None
      case Bool(_) => None
      case _ => Some([])
  }

  /** The actions and offers kept of a decoded object, each list in the order of the answer. */
  ghost predicate Kept(co: Coercions, cs: seq<Candidate>, parsed: Json, r: Review) {
    && parsed.Obj? && Iterated(Get(parsed, "actions")).Some? && r.Done?
    && r.situation == Field(co, parsed, "situation")
    && r.actions == First(AllActions(co, Iterated(Get(parsed, "actions")).value), MAX_ACTIONS)
    && r.offers == First(AllOffers(co, cs, ItemsOf(Again(co, Offered(parsed)))), MAX_OFFERS)
  }

  /** An object whose validation ends in an error that nothing catches: `actions` cannot be
      iterated, or the confidence of an item reached is an integer too large for a float. */
  ghost predicate Raises(co: Coercions, cs: seq<Candidate>, parsed: Json)
    requires parsed.Obj?
  {
    var items := Iterated(Get(parsed, "actions"));
    items.None? || ActionsRaise(co, items.value) || OffersRaise(co, cs, ItemsOf(Again(co, Offered(parsed))))
  }

  /** Any text the model may answer. */
  method ParseAndValidate(co: Coercions, raw: string, cs: seq<Candidate>) returns (r: Review)
    ensures r.Failed? <==> Decoded(co, raw).None? || !Decoded(co, raw).value.Obj?
    ensures r.Raised? <==> !r.Failed? && Raises(co, cs, Decoded(co, raw).value)
    ensures !r.Failed? && !r.Raised? ==> r.Done? && !r.offersGated && Kept(co, cs, Decoded(co, raw).value, r)
    ensures r.Done? ==> |r.actions| <= 3 && (forall a <- r.actions :: GoodAction(a))
    ensures r.Done? ==> |r.offers| <= 2 && (forall o <- r.offers :: GoodOffer(cs, o)) && (cs == [] ==> r.offers == [])
  {
    hide GoodAction, GoodOffer, AllActions, AllOffers, ActionsRaise, OffersRaise, Field, Truthy, ItemsOf, Decoded,
      Again, Offered;
    var decoded := Decoded(co, raw);
    if decoded.None? || !decoded.value.Obj? {
      return Failed;
    }
    var parsed := decoded.value;
    var items := Iterated(Get(parsed, "actions"));
    if items.None? {
      return Raised;
    }
    var actions := ValidActions(co, items.value);
    if actions.None? {
      return Raised;
    }
    ActionsAreGood(co, items.value);
    var again := Again(co, Offered(parsed));
    var offers := ValidOffers(co, cs, again);
    if offers.None? {
      return Raised;
    }
    OffersAreGood(co, cs, ItemsOf(again));
    r := Done(Field(co, parsed, "situation"), actions.value, First(offers.value, MAX_OFFERS), false);
  }

  /** Of a list of offers the first two that name a candidate are kept, in the order of the answer;
      an object given by itself is one offer exactly when no list can be cut out of its text. */
  lemma OffersInOrder(co: Coercions, cs: seq<Candidate>, parsed: Json, r: Review)
    requires Kept(co, cs, parsed, r) && Format(co) && RoundTrips(co, Offered(parsed))
    ensures Get(parsed, "offers").Arr? ==> r.offers == First(AllOffers(co, cs, Get(parsed, "offers").items), MAX_OFFERS)
    ensures Offered(parsed).Obj? && Cut(co.dumps(Offered(parsed)), '[', ']').None? ==>
              r.offers == First(AllOffers(co, cs, [Offered(parsed)]), MAX_OFFERS)
  {
    hide AllOffers, AllActions, Again, Field, Format, RoundTrips, Cut;
    OfferedAgain(co, Offered(parsed));
  }

  /** The full pipeline, for any text the model may answer. `cs` are the candidates it was shown. */
  method ReviewCase(co: Coercions, closed: bool, draftsPending: bool, h: Holdings, answered: bool, raw: string)
    returns (r: Review, ghost cs: seq<Candidate>)
    ensures r.Suppressed? <==> draftsPending || closed
    ensures forall p :: Has(cs, p) <==> !r.Suppressed? && !LatestIsNegative(h.said) && Eligible(h, p)
    ensures Distinct(cs) && AllGrounded(h, cs) && forall c <- cs :: FirstRule(h, c)
    ensures r.Done? <==>
      !r.Suppressed? && answered && Decoded(co, raw).Some? && Decoded(co, raw).value.Obj?
      && !Raises(co, cs, Decoded(co, raw).value)
    ensures r.Done? ==> Kept(co, cs, Decoded(co, raw).value, r)
    ensures r.Done? ==> |r.actions| <= 3 && (forall a <- r.actions :: GoodAction(a))
    ensures r.Done? ==> |r.offers| <= 2 && (forall o <- r.offers :: Eligible(h, o.product) && GroundedOffer(h, o))
    ensures r.Done? ==> (r.offersGated <==> LatestIsNegative(h.said)) && (LatestIsNegative(h.said) ==> r.offers == [])
  {
    hide *;
    cs := [];
    NoneOf(h);
    if draftsPending {
      return Suppressed(Held), cs;
    }
    if closed {
      return Suppressed(CaseClosed), cs;
    }
    var gated := OffersSuppressed(h.said);
    var candidates: seq<Candidate> := [];
    if !gated {
      candidates := BuildCandidates(h);
    }
    cs := candidates;
    if !answered {
      return Failed, cs;
    }
    r := ParseAndValidate(co, raw, candidates);
    if r.Done? {
      forall o <- r.offers ensures Eligible(h, o.product) && GroundedOffer(h, o) {
        OfferGrounded(h, cs, o);
      }
      KeptGated(co, cs, Decoded(co, raw).value, r, gated);
      r := r.(offersGated := gated);
    }
  }

  lemma NoneOf(h: Holdings)
    ensures Distinct([]) && AllGrounded(h, []) && forall p :: !Has([], p)
  {
  }

  lemma KeptGated(co: Coercions, cs: seq<Candidate>, parsed: Json, r: Review, gated: bool)
    requires Kept(co, cs, parsed, r)
    ensures Kept(co, cs, parsed, r.(offersGated := gated))
  {
  }

  /** Kind and basis of an offer are those of a rule that fired on this customer's records. */
  predicate GroundedOffer(h: Holdings, o: Offer) {
    Grounded(h, Candidate(o.product, o.upSell, o.basis))
  }

  lemma OfferGrounded(h: Holdings, cs: seq<Candidate>, o: Offer)
    requires AllGrounded(h, cs) && GoodOffer(cs, o)
    requires forall p :: Has(cs, p) ==> Eligible(h, p)
    ensures Eligible(h, o.product) && GroundedOffer(h, o)
  {
    hide Eligible, Grounded, HasMask;
    var c :| c in cs && c.product == o.product && c.upSell == o.upSell && c.basis == o.basis;
    assert c == Candidate(o.product, o.upSell, o.basis);
    assert Has(cs, o.product);
  }
}
