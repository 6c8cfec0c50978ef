/**
 * The ticket modal of the tour section: a function of the selected tour date
 * that renders either nothing or a view with the venue, the location, the date,
 * one row per price tier and a call to action, and the routing of a click
 * through the rendered tree, where the backdrop and the close button call
 * `onClose` and the content container stops the click from bubbling further.
 */
module TourModal {
  import opened Wrappers

  datatype PriceTier = PriceTier(tier: string, price: string)

  datatype TourDate = TourDate(id: nat, date: string, venue: string, location: string, pricing: seq<PriceTier>)

  /** One rendered pricing row: its React key, and the two texts it shows. */
  datatype PricingRow = PricingRow(key: string, tier: string, price: string)

  datatype ModalView = ModalView(
    venue: string, location: string, date: string,
    heading: string, rows: seq<PricingRow>, callToAction: string)

  const TiersHeading: string := "Ticket Tiers"
  const CallToAction: string := "Grab Your Tickets!"

  // ---------------------------------------------------------------------------
  // Rendering

  /** `pricing.map(tier => <row key={tier.tier}>{tier.tier} {tier.price}</row>)` */
  function PricingRows(pricing: seq<PriceTier>): seq<PricingRow> {
    seq(|pricing|, k requires 0 <= k < |pricing| => PricingRow(pricing[k].tier, pricing[k].tier, pricing[k].price))
  }

  /** The tiers a list of rows shows, read back off the rows. */
  function ShownTiers(rows: seq<PricingRow>): seq<PriceTier> {
    seq(|rows|, k requires 0 <= k < |rows| => PriceTier(rows[k].tier, rows[k].price))
  }

  /** The component: nothing without a tour date, the modal view with one. */
  function Render(tourData: Option<TourDate>): Option<ModalView> {
    match tourData
    case None => None
    case Some(t) => Some(ModalView(t.venue, t.location, t.date, TiersHeading, PricingRows(t.pricing), CallToAction))
  }

  /**
   * Nothing is rendered without a tour date; with one, the view shows that date's
   * venue, location and date, and exactly its price tiers, in order: reading the
   * tiers back off the rows gives the pricing list, and each row is keyed by its tier.
   */
  lemma RenderCases(tourData: Option<TourDate>)
    ensures tourData.None? <==> Render(tourData).None?
    ensures tourData.Some? ==>
      var v := Render(tourData).value;
      && v.venue == tourData.value.venue
      && v.location == tourData.value.location
      && v.date == tourData.value.date
      && ShownTiers(v.rows) == tourData.value.pricing
      && (forall k :: 0 <= k < |v.rows| ==> v.rows[k].key == v.rows[k].tier)
  {
  }

  /** Distinct tier names give distinct row keys. */
  lemma RowKeysDistinct(pricing: seq<PriceTier>)
    requires forall i, j :: 0 <= i < j < |pricing| ==> pricing[i].tier != pricing[j].tier
    ensures var rows := PricingRows(pricing);
      forall i, j :: 0 <= i < j < |rows| ==> rows[i].key != rows[j].key
  {
  }

  // ---------------------------------------------------------------------------
  // Click routing

  /** The elements of the rendered modal; the tier rows and their texts are indexed by position. */
  datatype Node =
    | Backdrop | Container
    | CloseButton | CloseIcon | CloseIconPath
    | Layout | Details | Venue | Location | Date
    | Pricing | PricingHeading | TierList | TierRow(k: nat) | TierName(k: nat) | TierPrice(k: nat)
    | CtaBox | CtaLink

  /** The element each element sits in; the backdrop is the root. */
  function Parent(n: Node): Option<Node> {
    match n
    case Backdrop => None
    case Container => Some(Backdrop)
    case CloseButton => Some(Container)
    case CloseIcon => Some(CloseButton)
    case CloseIconPath => Some(CloseIcon)
    case Layout => Some(Container)
    case Details => Some(Layout)
    case Venue => Some(Details)
    case Location => Some(Details)
    case Date => Some(Details)
    case Pricing => Some(Layout)
    case PricingHeading => Some(Pricing)
    case TierList => Some(Pricing)
    case TierRow(k) => Some(TierList)
    case TierName(k) => Some(TierRow(k))
    case TierPrice(k) => Some(TierRow(k))
    case CtaBox => Some(Container)
    case CtaLink => Some(CtaBox)
  }

  function Depth(n: Node): nat {
    match n
    case Backdrop => 0
    case Container => 1
    case CloseButton => 2
    case CloseIcon => 3
    case CloseIconPath => 4
    case Layout => 2
    case Details => 3
    case Venue => 4
    case Location => 4
    case Date => 4
    case Pricing => 3
    case PricingHeading => 4
    case TierList => 4
    case TierRow(_) => 5
    case TierName(_) => 6
    case TierPrice(_) => 6
    case CtaBox => 2
    case CtaLink => 3
  }

  /** The element and its ancestors, innermost first: the order in which a click bubbles. */
  function Ancestry(n: Node): seq<Node>
    decreases Depth(n)
  {
    match Parent(n)
    case None => [n]
    case Some(p) => [n] + Ancestry(p)
  }

  datatype Handler = CallsOnClose | StopsPropagation | NoHandler

  /** The `onClick` each element carries. */
  function HandlerOf(n: Node): Handler {
    match n
    case Backdrop => CallsOnClose
    case Container => StopsPropagation
    case CloseButton => CallsOnClose
    case _ => NoHandler
  }

  /** The elements whose handler runs, in order: bubbling ends after a `stopPropagation`. */
  function Reached(path: seq<Node>): seq<Node> {
    if |path| == 0 then []
    else if HandlerOf(path[0]) == StopsPropagation then [path[0]]
    else [path[0]] + Reached(path[1..])
  }

  /** How many of the handlers that run call `onClose`. */
  function CloseCalls(reached: seq<Node>): nat {
    if |reached| == 0 then 0
    else (if HandlerOf(reached[0]) == CallsOnClose then 1 else 0) + CloseCalls(reached[1..])
  }

  /** The number of `onClose` calls a click on `n` makes. */
  function ClickCloses(n: Node): nat {
    CloseCalls(Reached(Ancestry(n)))
  }

  /**
   * A click inside the content container never reaches the backdrop's handler and
   * calls `onClose` once exactly when it lands on the close button or inside it.
   */
  lemma {:induction false} InsideClick(n: Node)
    requires n != Backdrop
    ensures Backdrop !in Reached(Ancestry(n))
    ensures ClickCloses(n) == if CloseButton in Ancestry(n) then 1 else 0
    decreases Depth(n)
  {
    if n != Container {
      var p := Parent(n).value;
      InsideClick(p);
      BubbleStep(n, p, Ancestry(p));
    }
  }

  /** One bubbling step through an element that does not stop propagation. */
  lemma BubbleStep(n: Node, p: Node, up: seq<Node>)
    requires n != Container && n != Backdrop && Parent(n) == Some(p) && up == Ancestry(p)
    ensures Ancestry(n) == [n] + up
    ensures Reached(Ancestry(n)) == [n] + Reached(up)
    ensures ClickCloses(n) == (if n == CloseButton then 1 else 0) + CloseCalls(Reached(up))
    ensures n == CloseButton ==> up == [Container, Backdrop]
  {
    assert ([n] + Reached(up))[1..] == Reached(up);
  }

  /**
   * Every click calls `onClose` at most once: once on the backdrop, once on the
   * close button or its icon, and never elsewhere in the modal.
   */
  lemma ClickClosesExact(n: Node)
    ensures ClickCloses(n) == (if n == Backdrop || CloseButton in Ancestry(n) then 1 else 0)
    ensures ClickCloses(n) <= 1
    ensures n == CloseButton || n == CloseIcon || n == CloseIconPath ==> ClickCloses(n) == 1
  {
    if n != Backdrop {
      InsideClick(n);
    }
  }
}
