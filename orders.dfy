/** The order endpoints: the public checkout (validation, pricing of each
    line from the catalog, insertion at the head of the order list) and the
    admin status change, which notifies the customer and never fails
    because of the notification. */
module OrderRoutes {

  import opened Js
  import opened Domain
  import opened Text
  import Utils
  import Seqs
  import Db
  import Notify

  // ---------------------------------------------------------------------
  // Gram quantisation as the route writes it

  /** The route's own `clamp100g`, on JavaScript numbers:
      `Math.max(100, Math.round((Number(grams) || 0) / 100) * 100)`. NaN and
      zero become 0 and then 100; -Infinity rounds to -Infinity and the
      maximum gives 100; +Infinity stays +Infinity. */
  function ClampGramsAsWritten(grams: Number): (r: Number)
    ensures r == PosInf <==> grams == PosInf
  {
    match NumberOrZero(grams)
    case Finite(x) => Finite(Utils.Max(100, Utils.Round(x / 100.0) * 100) as real)
    case PosInf => PosInf
    case _ => Finite(100.0)
  }

  /** The discrepancy: a line asking for +Infinity grams (a JSON body with
      `1e400`, or the string "Infinity") keeps an infinite amount, so its
      line total and the subtotal are not finite. */
  lemma ClampAsWrittenKeepsInfinity()
    ensures ClampGramsAsWritten(PosInf) == PosInf
    ensures Utils.ClampTo100g(PosInf) == 100
  {
  }

  /** On every other input the route's quantisation is the one of
      `clampTo100g`, which the checkout below uses. */
  lemma ClampAgreesExceptInfinity(grams: Number)
    requires grams != PosInf
    ensures ClampGramsAsWritten(grams) == Finite(Utils.ClampTo100g(grams) as real)
  {
  }

  // ---------------------------------------------------------------------
  // The checkout request

  /** The `customer` object of the body; a field that is absent is `None`. */
  datatype CustomerInput = CustomerInput(name: Option<string>, phone: Option<string>, address: Option<string>, reference: Option<string>)

  /** One requested line; `grams` is the value after `Number(...)`. */
  datatype LineRequest = LineRequest(productId: string, grams: Number)

  /** The `items` field: not an array at all, or an array of lines. */
  datatype ItemsField = NotAnArray | Lines(lines: seq<LineRequest>)

  datatype CheckoutBody = CheckoutBody(customer: Option<CustomerInput>, items: ItemsField, notes: Option<string>)

  /** The three 400 replies of the checkout. */
  datatype CheckoutError = MissingCustomerFields | MissingItems | InvalidProduct(productId: string)

  /** `!body?.customer?.name || !body?.customer?.phone || !body?.customer?.address`,
      tested on the raw fields, before any trimming. */
  predicate CustomerComplete(c: Option<CustomerInput>) {
    c.Some? && Filled(c.value.name) && Filled(c.value.phone) && Filled(c.value.address)
  }

  /** `field?.trim() || undefined`. */
  function TrimOrNone(f: Option<string>): (r: Option<string>)
    ensures r.None? <==> f.None? || AllSpace(f.value)
    ensures r.Some? ==> r.value == Trim(f.value) && r.value != ""
  {
    if f.None? then None
    else
      TrimEmptyIffBlank(f.value);
      if Trim(f.value) != "" then Some(Trim(f.value)) else None
  }

  /** The item stored for one line priced from product `p`: a snapshot of
      the product, the quantised amount, and `round2(price * grams / 100)`
      written in cents. */
  function MakeItem(p: Product, grams: int): (r: OrderItem)
    ensures r.productId == p.id && r.name == p.name && r.image == p.image
    ensures r.pricePer100g == p.pricePer100g && r.grams == grams
    ensures 100 * r.lineTotal - 50 <= p.pricePer100g * grams < 100 * r.lineTotal + 50
  {
    OrderItem(p.id, p.name, p.pricePer100g, grams, Utils.RoundToCents(p.pricePer100g * grams), p.image)
  }

  /** Since the amount is a whole number of 100 g units, the line total is
      exactly the price per 100 g times that number: no rounding happens. */
  lemma MakeItemExact(p: Product, grams: int)
    requires grams % 100 == 0
    ensures MakeItem(p, grams).lineTotal == p.pricePer100g * (grams / 100)
  {
    var k := grams / 100;
    assert p.pricePer100g * grams == (p.pricePer100g * k) * 100;
    Utils.RoundToCentsExact(p.pricePer100g * grams, p.pricePer100g * k);
  }

  /** The item for one line: the first product with that id, active or not,
      or None when no product has it. */
  function ItemFor(ps: seq<Product>, line: LineRequest): (r: Option<OrderItem>)
    ensures r.None? <==> Seqs.Find(ps, ProductKey, line.productId).None?
    ensures r.Some? ==>
      var p := Seqs.Find(ps, ProductKey, line.productId).value;
      r.value == MakeItem(p, Utils.ClampTo100g(line.grams)) && r.value.productId == line.productId
  {
    match Seqs.Find(ps, ProductKey, line.productId)
    case None => None
    case Some(p) => Some(MakeItem(p, Utils.ClampTo100g(line.grams)))
  }

  /** The index of the first line whose product does not exist, or -1. */
  function Unpriced(ps: seq<Product>, lines: seq<LineRequest>): (r: int)
    ensures -1 <= r < |lines|
    ensures r >= 0 ==> ItemFor(ps, lines[r]).None? && forall j :: 0 <= j < r ==> ItemFor(ps, lines[j]).Some?
    ensures r < 0 ==> forall j :: 0 <= j < |lines| ==> ItemFor(ps, lines[j]).Some?
  {
    if lines == [] then -1
    else if ItemFor(ps, lines[0]).None? then 0
    else
      var t := Unpriced(ps, lines[1..]);
      if t < 0 then -1 else t + 1
  }

  /** What the `for` loop over the lines yields: the id of the first line
      whose product does not exist, or else the items in line order. */
  function PriceLines(ps: seq<Product>, lines: seq<LineRequest>): (r: Result<seq<OrderItem>, string>)
    ensures r.Err? <==> exists k :: 0 <= k < |lines| && ItemFor(ps, lines[k]).None?
    ensures r.Err? ==> r.error == lines[Unpriced(ps, lines)].productId
    ensures r.Ok? ==> |r.value| == |lines| && forall k :: 0 <= k < |lines| ==> ItemFor(ps, lines[k]) == Some(r.value[k])
  {
    var u := Unpriced(ps, lines);
    if u >= 0 then Err(lines[u].productId)
    else Ok(seq(|lines|, k requires 0 <= k < |lines| => ItemFor(ps, lines[k]).value))
  }

  /** `items.reduce((a, i) => a + i.lineTotal, 0)`. `reduce` adds from the
      left; the sum taken from the right is the same. */
  function Sum(items: seq<OrderItem>): (r: Cents)
    ensures items != [] ==> r == Sum(items[..|items| - 1]) + items[|items| - 1].lineTotal
  {
    if items == [] then 0
    else
      assert |items| > 1 ==> items[..|items| - 1][1..] == items[1..][..|items| - 2];
      items[0].lineTotal + Sum(items[1..])
  }

  lemma {:induction false} SumAppend(a: seq<OrderItem>, b: seq<OrderItem>)
    ensures Sum(a + b) == Sum(a) + Sum(b)
    decreases |a|
  {
    if a == [] {
      assert a + b == b;
    } else {
      assert (a + b)[0] == a[0] && (a + b)[1..] == a[1..] + b;
      SumAppend(a[1..], b);
    }
  }

  /** Taking one item out of the list takes its line total out of the sum. */
  lemma {:induction false} SumRemove(b: seq<OrderItem>, j: int)
    requires 0 <= j < |b|
    ensures Sum(b) == b[j].lineTotal + Sum(b[..j] + b[j + 1..])
    ensures multiset(b[..j] + b[j + 1..]) == multiset(b) - multiset{b[j]}
  {
    var x, y := b[..j], b[j + 1..];
    assert b == x + [b[j]] + y;
    assert multiset(b) == multiset(x) + multiset{b[j]} + multiset(y);
    SumAppend(b[..j] + [b[j]], b[j + 1..]);
    SumAppend(b[..j], [b[j]]);
    SumAppend(b[..j], b[j + 1..]);
    assert Sum([b[j]]) == b[j].lineTotal;
  }

  /** The first item of `a` sits somewhere in a permutation `b`, and what
      is left of the two are again permutations of each other. */
  lemma PermutationHead<T>(a: seq<T>, b: seq<T>) returns (j: int)
    requires a != [] && multiset(a) == multiset(b)
    ensures 0 <= j < |b| && b[j] == a[0]
    ensures multiset(a[1..]) == multiset(b[..j] + b[j + 1..])
  {
    assert a[0] in multiset(b);
    j :| 0 <= j < |b| && b[j] == a[0];
    var x, y := b[..j], b[j + 1..];
    assert b == x + [b[j]] + y;
    assert multiset(b) == multiset(x) + multiset{b[j]} + multiset(y);
    assert multiset(x + y) == multiset(x) + multiset(y);
    assert a == [a[0]] + a[1..];
    assert multiset(a) == multiset{a[0]} + multiset(a[1..]);
    assert multiset(a[1..]) == multiset(a) - multiset{a[0]};
    assert multiset(x + y) == multiset(b) - multiset{b[j]};
  }

  /** The subtotal does not depend on the order of the items. */
  lemma {:induction false} SumPermutation(a: seq<OrderItem>, b: seq<OrderItem>)
    requires multiset(a) == multiset(b)
    ensures Sum(a) == Sum(b)
    decreases |a|
  {
    if a == [] {
      assert |multiset(b)| == 0;
    } else {
      var j := PermutationHead(a, b);
      var rest := b[..j] + b[j + 1..];
      SumPermutation(a[1..], rest);
      assert Sum(b) == a[0].lineTotal + Sum(rest) by {
        SumRemove(b, j);
      }
    }
  }

  /** The id of an order created at `nowMs`: `o_` and the clock in hexadecimal. */
  function OrderId(nowMs: nat): (r: string)
    ensures |r| >= 3 && r[..2] == "o_"
    ensures FromBase(r[2..], 16) == nowMs
  {
    FromToBase(nowMs, 16);
    assert ("o_" + ToBase(nowMs, 16))[2..] == ToBase(nowMs, 16);
    "o_" + ToBase(nowMs, 16)
  }

  /** Orders created at different milliseconds get different ids. */
  lemma OrderIdsDistinct(t1: nat, t2: nat)
    requires t1 != t2
    ensures OrderId(t1) != OrderId(t2)
  {
  }

  /** POST `/` as a function of the catalog and the request: customer fields
      first, then the item list, then each line's product, failing on the
      first problem; the clock and `createdAt` are inputs. */
  function Checkout(ps: seq<Product>, body: CheckoutBody, nowMs: nat, createdAt: string): (r: Result<Order, CheckoutError>)
    ensures r == Err(MissingCustomerFields) <==> !CustomerComplete(body.customer)
    ensures r == Err(MissingItems) <==> CustomerComplete(body.customer) && (body.items == NotAnArray || body.items == Lines([]))
    ensures r.Err? && r.error.InvalidProduct? <==>
      CustomerComplete(body.customer) && body.items.Lines? && body.items.lines != [] && PriceLines(ps, body.items.lines).Err?
    ensures r.Err? && r.error.InvalidProduct? ==> r.error.productId == PriceLines(ps, body.items.lines).error
  {
    if !CustomerComplete(body.customer) then Err(MissingCustomerFields)
    else if body.items == NotAnArray || body.items.lines == [] then Err(MissingItems)
    else
      match PriceLines(ps, body.items.lines)
      case Err(id) => Err(InvalidProduct(id))
      case Ok(items) =>
        var c := body.customer.value;
        Ok(Order(
          OrderId(nowMs),
          createdAt,
          Pending,
          Customer(Trim(c.name.value), Trim(c.phone.value), Trim(c.address.value), TrimOrNone(c.reference)),
          items,
          Sum(items),
          TrimOrNone(body.notes)))
  }

  /** What an accepted order holds: one item per line in line order, each a
      snapshot of the first product with the line's id, the amount quantised
      and the line total exact; the subtotal is the sum of the line totals;
      the order is pending, carries its creation time, and the customer
      fields are trimmed, with a blank reference or note dropped. */
  lemma CheckoutAccepted(ps: seq<Product>, body: CheckoutBody, nowMs: nat, createdAt: string)
    requires Checkout(ps, body, nowMs, createdAt).Ok?
    ensures var o := Checkout(ps, body, nowMs, createdAt).value;
      var lines := body.items.lines;
      var c := body.customer.value;
      && |o.items| == |lines|
      && (forall k :: 0 <= k < |lines| ==>
            var p := Seqs.Find(ps, ProductKey, lines[k].productId);
            && p.Some?
            && o.items[k].productId == lines[k].productId
            && o.items[k].name == p.value.name
            && o.items[k].pricePer100g == p.value.pricePer100g
            && o.items[k].image == p.value.image
            && o.items[k].grams == Utils.ClampTo100g(lines[k].grams)
            && o.items[k].lineTotal == p.value.pricePer100g * (o.items[k].grams / 100))
      && o.subtotal == Sum(o.items)
      && o.status == Pending && o.id == OrderId(nowMs) && o.createdAt == createdAt
      && o.customer.name == Trim(c.name.value) && o.customer.phone == Trim(c.phone.value)
      && o.customer.address == Trim(c.address.value)
      && o.customer.reference == TrimOrNone(c.reference) && o.notes == TrimOrNone(body.notes)
  {
    var o := Checkout(ps, body, nowMs, createdAt).value;
    var lines := body.items.lines;
    forall k | 0 <= k < |lines|
      ensures o.items[k].lineTotal == o.items[k].pricePer100g * (o.items[k].grams / 100)
    {
      var p := Seqs.Find(ps, ProductKey, lines[k].productId).value;
      MakeItemExact(p, Utils.ClampTo100g(lines[k].grams));
    }
  }

  /** A request that passes the three checks is accepted, with the name
      trimmed. */
  lemma CheckoutAcceptsValid(ps: seq<Product>, body: CheckoutBody, nowMs: nat, createdAt: string)
    requires CustomerComplete(body.customer) && body.items.Lines? && body.items.lines != []
    requires PriceLines(ps, body.items.lines).Ok?
    ensures Checkout(ps, body, nowMs, createdAt).Ok?
    ensures Checkout(ps, body, nowMs, createdAt).value.customer.name == Trim(body.customer.value.name.value)
  {
  }

  /** A name of spaces only is truthy, passes the check, and is stored empty. */
  lemma BlankNameAccepted(ps: seq<Product>, line: LineRequest, nowMs: nat)
    requires ItemFor(ps, line).Some?
    ensures var body := CheckoutBody(Some(CustomerInput(Some("   "), Some("9"), Some("Rua A"), None)), Lines([line]), None);
      var r := Checkout(ps, body, nowMs, "");
      r.Ok? && r.value.customer.name == ""
  {
    var body := CheckoutBody(Some(CustomerInput(Some("   "), Some("9"), Some("Rua A"), None)), Lines([line]), None);
    assert PriceLines(ps, [line]).Ok? by {
      assert Unpriced(ps, [line]) < 0;
    }
    assert Trim("   ") == "" by {
      assert AllSpace("   ");
      TrimEmptyIffBlank("   ");
    }
    CheckoutAcceptsValid(ps, body, nowMs, "");
  }

  /** The single line of the example below is priced as 300 g for
      R$ 30,00. */
  lemma ExamplePriced()
    ensures PriceLines([Product("p1", "Canela", 1000, DefaultImage, false)], [LineRequest("p1", Finite(250.0))])
      == Ok([OrderItem("p1", "Canela", 1000, 300, 3000, DefaultImage)])
  {
    var p := Product("p1", "Canela", 1000, DefaultImage, false);
    var line := LineRequest("p1", Finite(250.0));
    Utils.ClampExamples();
    assert Seqs.IndexOf([p], ProductKey, "p1") == 0;
    assert ItemFor([p], line) == Some(OrderItem("p1", "Canela", 1000, 300, 3000, DefaultImage));
    assert Unpriced([p], [line]) < 0;
    var r := PriceLines([p], [line]);
    assert r.Ok? && |r.value| == 1 && r.value[0] == OrderItem("p1", "Canela", 1000, 300, 3000, DefaultImage);
    assert r.value == [OrderItem("p1", "Canela", 1000, 300, 3000, DefaultImage)];
  }

  /** 250 g of a product at R$ 10,00 per 100 g is sold as 300 g for R$ 30,00. */
  lemma CheckoutExample()
    ensures var p := Product("p1", "Canela", 1000, DefaultImage, false);
      var body := CheckoutBody(Some(CustomerInput(Some("Ana"), Some("32999990000"), Some("Rua A"), Some("  "))),
                               Lines([LineRequest("p1", Finite(250.0))]), None);
      var r := Checkout([p], body, 0, "");
      && r.Ok?
      && r.value.items == [OrderItem("p1", "Canela", 1000, 300, 3000, DefaultImage)]
      && r.value.subtotal == 3000
      && r.value.customer.reference == None
  {
    var p := Product("p1", "Canela", 1000, DefaultImage, false);
    var c := CustomerInput(Some("Ana"), Some("32999990000"), Some("Rua A"), Some("  "));
    var body := CheckoutBody(Some(c), Lines([LineRequest("p1", Finite(250.0))]), None);
    assert CustomerComplete(body.customer);
    ExamplePriced();
    var items := [OrderItem("p1", "Canela", 1000, 300, 3000, DefaultImage)];
    assert items[1..] == [];
    assert Sum(items) == 3000;
    assert AllSpace("  ");
    TrimEmptyIffBlank("  ");
  }

  /** The `for` loop of POST `/`: one pushed item per line, stopping at the
      first line whose product does not exist. */
  method PriceItems(ps: seq<Product>, lines: seq<LineRequest>) returns (r: Result<seq<OrderItem>, string>)
    ensures r == PriceLines(ps, lines)
  {
    var items: seq<OrderItem> := [];
    for i := 0 to |lines|
      invariant |items| == i
      invariant forall k :: 0 <= k < i ==> ItemFor(ps, lines[k]) == Some(items[k])
    {
      var idx := Seqs.FindIndex(ps, ProductKey, lines[i].productId);
      if idx < 0 {
        assert Unpriced(ps, lines) == i;
        return Err(lines[i].productId);
      }
      items := items + [MakeItem(ps[idx], Utils.ClampTo100g(lines[i].grams))];
    }
    assert Unpriced(ps, lines) < 0;
    assert items == PriceLines(ps, lines).value;
    r := Ok(items);
  }

  /** POST `/`: validate, price the lines, and put the new order at the head
      of the list. */
  method PostOrder(store: Db.Store, body: CheckoutBody, nowMs: nat, createdAt: string) returns (r: Result<Order, CheckoutError>)
    modifies store
    ensures r == Checkout(old(store.products), body, nowMs, createdAt)
    ensures store.orders == (if r.Ok? then [r.value] + old(store.orders) else old(store.orders))
    ensures store.products == old(store.products)
  {
    if !CustomerComplete(body.customer) {
      return Err(MissingCustomerFields);
    }
    if body.items == NotAnArray || body.items.lines == [] {
      return Err(MissingItems);
    }
    var priced := PriceItems(store.products, body.items.lines);
    if priced.Err? {
      return Err(InvalidProduct(priced.error));
    }
    var items := priced.value;
    var c := body.customer.value;
    var o := Order(
      OrderId(nowMs),
      createdAt,
      Pending,
      Customer(Trim(c.name.value), Trim(c.phone.value), Trim(c.address.value), TrimOrNone(c.reference)),
      items,
      Sum(items),
      TrimOrNone(body.notes));
    var stored := store.CreateOrder(o);
    r := Ok(stored);
  }

  // ---------------------------------------------------------------------
  // The status change

  datatype StatusReply = InvalidStatus | OrderNotFound | StatusUpdated(order: Order)

  /** PATCH `/:id/status` on the order list: the status is checked before the
      order is looked up; the reply and the new list. */
  function StatusUpdate(os: seq<Order>, id: string, status: Option<string>): (r: (StatusReply, seq<Order>))
    ensures r.0 == InvalidStatus <==> status.None? || ParseStatus(status.value).None?
    ensures r.0 == OrderNotFound <==> status.Some? && ParseStatus(status.value).Some? && Seqs.IndexOf(os, OrderKey, id) < 0
    ensures !r.0.StatusUpdated? ==> r.1 == os
    ensures r.0.StatusUpdated? ==>
      var i := Seqs.IndexOf(os, OrderKey, id);
      && 0 <= i < |r.1| == |os|
      && r.0.order == os[i].(status := ParseStatus(status.value).value)
      && r.0.order.status.Wire() == status.value
      && r.1 == os[i := r.0.order]
  {
    if status.None? || ParseStatus(status.value).None? then (InvalidStatus, os)
    else
      var st := ParseStatus(status.value).value;
      ParseStatusRoundTrip(status.value, st);
      var (found, next) := Db.SetStatus(os, id, st);
      if found.None? then (OrderNotFound, os) else (StatusUpdated(found.value), next)
  }

  /** PATCH `/:id/status`: validate, update in place, then notify. The
      notification's outcome, a failed webhook call included, is returned
      beside the reply and does not affect it; it is attempted exactly when
      the update happened. */
  method PatchStatus(store: Db.Store, id: string, status: Option<string>, env: Notify.Env, fetchFails: bool)
    returns (reply: StatusReply, notified: Option<Notify.Outcome>)
    modifies store
    ensures (reply, store.orders) == StatusUpdate(old(store.orders), id, status)
    ensures notified.Some? <==> reply.StatusUpdated?
    ensures reply.StatusUpdated? ==> notified == Some(Notify.NotifyOrderUpdate(env, reply.order, fetchFails))
    ensures store.products == old(store.products)
  {
    if status.None? || ParseStatus(status.value).None? {
      return InvalidStatus, None;
    }
    var st := ParseStatus(status.value).value;
    var found := store.UpdateOrderStatus(id, st);
    if found.None? {
      return OrderNotFound, None;
    }
    reply := StatusUpdated(found.value);
    notified := Some(Notify.NotifyOrderUpdate(env, found.value, fetchFails));
  }
}
