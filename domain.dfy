/** The shared record shapes: products, orders and their items, and the four
    order statuses. Money is held in integer cents throughout. */
module Domain {

  import opened Js

  /** An amount of money in cents (R$ 8,90 is 890). */
  type Cents = int

  /** The image a product gets when none is given. */
  const DefaultImage: string := "/images/produto1.jpeg"

  datatype Product = Product(id: string, name: string, pricePer100g: Cents, image: string, active: bool)

  datatype Status = Pending | InDelivery | Delivered | Canceled {
    /** The status as it is written on the wire. */
    function Wire(): string {
      match this
      case Pending => "PENDING"
      case InDelivery => "IN_DELIVERY"
      case Delivered => "DELIVERED"
      case Canceled => "CANCELED"
    }
  }

  /** `["PENDING", "IN_DELIVERY", "DELIVERED", "CANCELED"].includes(s)`, with
      the status it names. */
  function ParseStatus(s: string): (r: Option<Status>)
    ensures r.Some? ==> r.value.Wire() == s
    ensures r.None? ==> forall st: Status :: st.Wire() != s
  {
    if s == "PENDING" then Some(Pending)
    else if s == "IN_DELIVERY" then Some(InDelivery)
    else if s == "DELIVERED" then Some(Delivered)
    else if s == "CANCELED" then Some(Canceled)
    else None
  }

  /** The four wire names are exactly the accepted statuses: parsing a wire
      name gives its status back, and anything parsed was a wire name. */
  lemma ParseStatusRoundTrip(s: string, st: Status)
    ensures ParseStatus(st.Wire()) == Some(st)
    ensures ParseStatus(s) == Some(st) ==> s == st.Wire()
  {
  }

  /** A line of a stored order: a snapshot of the product at checkout time. */
  datatype OrderItem = OrderItem(productId: string, name: string, pricePer100g: Cents, grams: int, lineTotal: Cents, image: string)

  datatype Customer = Customer(name: string, phone: string, address: string, reference: Option<string>)

  datatype Order = Order(
    id: string,
    createdAt: string,
    status: Status,
    customer: Customer,
    items: seq<OrderItem>,
    subtotal: Cents,
    notes: Option<string>)

  /** `p.id`, the key products are looked up by. */
  function ProductKey(p: Product): string { p.id }

  /** `o.id`, the key orders are looked up by. */
  function OrderKey(o: Order): string { o.id }

  /** A price field after `Number(...)`: a number of cents, or NaN when the
      value is not numeric. */
  datatype PriceInput = PriceCents(cents: Cents) | PriceNaN

  /** `Number(price) || 0`. */
  function PriceOrZero(p: PriceInput): (r: Cents)
    ensures p.PriceCents? ==> r == p.cents
    ensures p.PriceNaN? ==> r == 0
  {
    match p
    case PriceCents(c) => c
    case PriceNaN => 0
  }
}
