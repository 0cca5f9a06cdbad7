/** The cart drawer of the storefront: the priced lines it shows for the cart,
    their subtotal, and the plus, minus, remove and clear actions, each of
    which computes a new cart from the old one. */
module Drawer {

  import opened Js
  import opened Domain
  import Utils
  import Stepper
  import Seqs

  /** An entry of the cart kept in the browser. */
  datatype CartEntry = CartEntry(productId: string, grams: int)

  function EntryKey(e: CartEntry): string { e.productId }

  /** The last index of a product with this id, or -1: a `Map` built from
      `[id, product]` pairs keeps the last pair for each id. */
  function LastIndexOf(ps: seq<Product>, id: string): (r: int)
    ensures -1 <= r < |ps|
    ensures r >= 0 ==> ps[r].id == id && forall j :: r < j < |ps| ==> ps[j].id != id
    ensures r < 0 ==> forall j :: 0 <= j < |ps| ==> ps[j].id != id
  {
    if ps == [] then -1
    else if ps[|ps| - 1].id == id then |ps| - 1
    else LastIndexOf(ps[..|ps| - 1], id)
  }

  /** `byId.get(id)` for `byId = new Map(products.map(p => [p.id, p]))`. */
  function LookupLast(ps: seq<Product>, id: string): (r: Option<Product>)
    ensures r.None? <==> forall j :: 0 <= j < |ps| ==> ps[j].id != id
    ensures r.Some? ==> r.value in ps && r.value.id == id
    ensures r.Some? ==> exists i :: 0 <= i < |ps| && r.value == ps[i] && ps[i].id == id
                                    && forall j :: i < j < |ps| ==> ps[j].id != id
  {
    var i := LastIndexOf(ps, id);
    if i < 0 then None else Some(ps[i])
  }

  /** When product ids are distinct, as the catalogue keeps them, the map
      lookup finds the same product as a search from the front. */
  lemma LookupLastIsFind(ps: seq<Product>, id: string)
    requires Seqs.UniqueKeys(ps, ProductKey)
    ensures LookupLast(ps, id) == Seqs.Find(ps, ProductKey, id)
  {
    var i := LastIndexOf(ps, id);
    var j := Seqs.IndexOf(ps, ProductKey, id);
    if i >= 0 {
      assert ProductKey(ps[i]) == id;
      assert j >= 0 && ProductKey(ps[j]) == id;
      assert i == j;
    }
  }

  /** The amount a line costs: the price per 100 g times grams/100, rounded
      to whole cents. */
  function LineTotal(pricePer100g: Cents, grams: int): (r: Cents)
    ensures 100 * r - 50 <= pricePer100g * grams < 100 * r + 50
    ensures grams % 100 == 0 ==> r == pricePer100g * (grams / 100)
  {
    Utils.RoundToCentsExact(pricePer100g * grams, pricePer100g * (grams / 100));
    Utils.RoundToCents(pricePer100g * grams)
  }

  /** A line of the drawer: the cart entry, its product and its total. */
  datatype Line = Line(productId: string, grams: int, product: Product, total: Cents)

  /** The line for one entry, or nothing when its product is unknown. */
  function LineFor(ps: seq<Product>, c: CartEntry): (r: Option<Line>)
    ensures r.None? <==> LookupLast(ps, c.productId).None?
    ensures r.Some? ==>
      && r.value.productId == c.productId && r.value.grams == c.grams
      && r.value.product == LookupLast(ps, c.productId).value
      && r.value.total == LineTotal(r.value.product.pricePer100g, c.grams)
  {
    match LookupLast(ps, c.productId)
    case None => None
    case Some(p) => Some(Line(c.productId, c.grams, p, LineTotal(p.pricePer100g, c.grams)))
  }

  /** `items`: the cart mapped to lines, with the entries of unknown products
      dropped. */
  function Lines(ps: seq<Product>, cart: seq<CartEntry>): (r: seq<Line>)
    ensures |r| <= |cart|
  {
    if cart == [] then []
    else
      var rest := Lines(ps, cart[1..]);
      match LineFor(ps, cart[0])
      case None => rest
      case Some(l) => [l] + rest
  }

  /** The lines of a cart are those of its parts, in order. */
  lemma {:induction false} LinesAppend(ps: seq<Product>, a: seq<CartEntry>, b: seq<CartEntry>)
    ensures Lines(ps, a + b) == Lines(ps, a) + Lines(ps, b)
  {
    if a == [] {
      assert a + b == b;
    } else {
      assert (a + b)[0] == a[0];
      assert (a + b)[1..] == a[1..] + b;
      LinesAppend(ps, a[1..], b);
    }
  }

  /** A line is shown exactly when it is the line of some entry whose product
      is known. */
  lemma {:induction false} LinesMembership(ps: seq<Product>, cart: seq<CartEntry>, l: Line)
    ensures l in Lines(ps, cart) <==> exists c :: c in cart && LineFor(ps, c) == Some(l)
  {
    if cart != [] {
      LinesMembership(ps, cart[1..], l);
      if exists c :: c in cart && LineFor(ps, c) == Some(l) {
        var c :| c in cart && LineFor(ps, c) == Some(l);
        if c != cart[0] {
          assert c in cart[1..];
        }
      }
    }
  }

  /** When every product of the cart is known, nothing is dropped: the
      lines follow the cart one to one. */
  lemma {:induction false} LinesAllKnown(ps: seq<Product>, cart: seq<CartEntry>)
    requires forall c :: c in cart ==> LookupLast(ps, c.productId).Some?
    ensures |Lines(ps, cart)| == |cart|
    ensures forall k :: 0 <= k < |cart| ==> Some(Lines(ps, cart)[k]) == LineFor(ps, cart[k])
  {
    if cart != [] {
      LinesAllKnown(ps, cart[1..]);
      assert LookupLast(ps, cart[0].productId).Some?;
      var l := LineFor(ps, cart[0]).value;
      assert Lines(ps, cart) == [l] + Lines(ps, cart[1..]);
      forall k | 0 <= k < |cart|
        ensures Some(Lines(ps, cart)[k]) == LineFor(ps, cart[k])
      {
        if k > 0 {
          assert cart[k] == cart[1..][k - 1];
        }
      }
    }
  }

  /** The sum of the line totals. `reduce` adds from the left; the sum
      taken from the right is the same. */
  function SumTotals(lines: seq<Line>): (r: Cents)
    ensures lines != [] ==> r == SumTotals(lines[..|lines| - 1]) + lines[|lines| - 1].total
  {
    if lines == [] then 0
    else
      assert |lines| > 1 ==> lines[..|lines| - 1][1..] == lines[1..][..|lines| - 2];
      lines[0].total + SumTotals(lines[1..])
  }

  /** The unrounded value of the lines in hundredths of a cent: price per
      100 g times grams, line by line. */
  function RawTotal(lines: seq<Line>): int
  {
    if lines == [] then 0
    else lines[0].product.pricePer100g * lines[0].grams + RawTotal(lines[1..])
  }

  /** Each line total is within half a cent of its unrounded value, so the
      sum of the totals is within half a cent per line of the unrounded sum. */
  lemma {:induction false} LinesNearRaw(ps: seq<Product>, cart: seq<CartEntry>)
    ensures var ls := Lines(ps, cart);
      100 * SumTotals(ls) - 50 * |ls| <= RawTotal(ls) <= 100 * SumTotals(ls) + 50 * |ls|
  {
    if cart != [] {
      LinesNearRaw(ps, cart[1..]);
      var rest := Lines(ps, cart[1..]);
      match LineFor(ps, cart[0])
      case None =>
      case Some(l) =>
        assert Lines(ps, cart) == [l] + rest;
        assert ([l] + rest)[1..] == rest;
    }
  }

  /** `subtotal`: the line totals added up; they are whole cents already, so
      rounding the sum changes nothing. Each line was rounded on its own, so
      the subtotal may be off the unrounded sum by half a cent per line. */
  function Subtotal(ps: seq<Product>, cart: seq<CartEntry>): (r: Cents)
    ensures var ls := Lines(ps, cart);
      100 * r - 50 * |ls| <= RawTotal(ls) <= 100 * r + 50 * |ls|
  {
    LinesNearRaw(ps, cart);
    SumTotals(Lines(ps, cart))
  }

  /** The plus button of a line: 100 g more on the entries of that product. */
  function Inc(cart: seq<CartEntry>, pid: string): (r: seq<CartEntry>)
    ensures |r| == |cart|
    ensures forall k :: 0 <= k < |cart| ==> r[k].productId == cart[k].productId
    ensures forall k :: 0 <= k < |cart| && cart[k].productId != pid ==> r[k] == cart[k]
    ensures forall k :: 0 <= k < |cart| && cart[k].productId == pid ==> r[k].grams == cart[k].grams + 100
  {
    seq(|cart|, k requires 0 <= k < |cart| =>
      if cart[k].productId == pid then cart[k].(grams := Stepper.Inc(cart[k].grams)) else cart[k])
  }

  /** The entries with a positive amount, in order (`filter(i => i.grams > 0)`). */
  function Positive(cart: seq<CartEntry>): (r: seq<CartEntry>)
    ensures |r| <= |cart|
    ensures forall e :: e in r ==> e in cart && e.grams > 0
    ensures forall e :: e in cart && e.grams > 0 ==> e in r
  {
    if cart == [] then []
    else if cart[0].grams > 0 then [cart[0]] + Positive(cart[1..])
    else Positive(cart[1..])
  }

  /** A cart whose amounts are all positive passes through the filter whole. */
  lemma {:induction false} PositiveOfPositive(cart: seq<CartEntry>)
    requires forall k :: 0 <= k < |cart| ==> cart[k].grams > 0
    ensures Positive(cart) == cart
  {
    if cart != [] {
      PositiveOfPositive(cart[1..]);
    }
  }

  /** The minus step on the entries of a product, before the filter. */
  function DecEach(cart: seq<CartEntry>, pid: string): (r: seq<CartEntry>)
    ensures |r| == |cart|
    ensures forall k :: 0 <= k < |cart| ==> r[k].productId == cart[k].productId
    ensures forall k :: 0 <= k < |cart| && cart[k].productId != pid ==> r[k] == cart[k]
    ensures forall k :: 0 <= k < |cart| && cart[k].productId == pid ==> r[k].grams >= 100
    ensures forall k :: 0 <= k < |cart| && cart[k].productId == pid ==> r[k].grams == Stepper.Dec(cart[k].grams)
  {
    seq(|cart|, k requires 0 <= k < |cart| =>
      if cart[k].productId == pid then cart[k].(grams := Stepper.Dec(cart[k].grams)) else cart[k])
  }

  /** The minus button of a line: 100 g less on the entries of that product,
      never under 100 g, then every entry without a positive amount dropped. */
  function Dec(cart: seq<CartEntry>, pid: string): (r: seq<CartEntry>)
    ensures forall e :: e in r ==> e.grams > 0
    ensures forall e :: e in r && e.productId == pid ==> e.grams >= 100
  {
    Positive(DecEach(cart, pid))
  }

  /** On a cart whose amounts are all positive, minus keeps every entry: the
      filter has nothing to drop, and only that product's amounts move. */
  lemma DecKeepsEntries(cart: seq<CartEntry>, pid: string)
    requires forall k :: 0 <= k < |cart| ==> cart[k].grams > 0
    ensures Dec(cart, pid) == DecEach(cart, pid)
    ensures |Dec(cart, pid)| == |cart|
  {
    PositiveOfPositive(DecEach(cart, pid));
  }

  /** The filter does act on other products: minus on one product drops an
      entry of another product whose amount is not positive. */
  lemma DecDropsOtherEmptyEntry()
    ensures Dec([CartEntry("a", 100), CartEntry("b", 0)], "a") == [CartEntry("a", 100)]
  {
    var cart := [CartEntry("a", 100), CartEntry("b", 0)];
    assert DecEach(cart, "a") == cart;
    assert Positive(cart[1..]) == [];
  }

  /** Minus undoes plus on a cart whose amounts the stepper could show. */
  lemma DecUndoesInc(cart: seq<CartEntry>, pid: string)
    requires forall k :: 0 <= k < |cart| ==> cart[k].grams >= 100
    ensures Dec(Inc(cart, pid), pid) == cart
  {
    var d := DecEach(Inc(cart, pid), pid);
    forall k | 0 <= k < |cart|
      ensures d[k] == cart[k]
    {
      if cart[k].productId == pid {
        Stepper.StepperRoundTrips(cart[k].grams);
      }
    }
    assert d == cart;
    PositiveOfPositive(cart);
  }

  /** The grams of a whole cart. */
  function TotalGrams(cart: seq<CartEntry>): int
  {
    if cart == [] then 0 else cart[0].grams + TotalGrams(cart[1..])
  }

  /** How many entries a product has. */
  function Count(cart: seq<CartEntry>, pid: string): nat
  {
    if cart == [] then 0 else (if cart[0].productId == pid then 1 else 0) + Count(cart[1..], pid)
  }

  /** Plus raises the cart's grams by 100 for each entry of the product. */
  lemma {:induction false} IncTotal(cart: seq<CartEntry>, pid: string)
    ensures TotalGrams(Inc(cart, pid)) == TotalGrams(cart) + 100 * Count(cart, pid)
  {
    if cart != [] {
      IncTotal(cart[1..], pid);
      assert Inc(cart, pid)[1..] == Inc(cart[1..], pid);
    }
  }

  /** The remove button of a line: every entry of that product goes, the
      others stay in order (`filter(i => i.productId !== pid)`). */
  function Remove(cart: seq<CartEntry>, pid: string): (r: seq<CartEntry>)
    ensures |r| <= |cart|
    ensures forall e :: e in r ==> e in cart && e.productId != pid
    ensures forall e :: e in cart && e.productId != pid ==> e in r
  {
    if cart == [] then []
    else if cart[0].productId != pid then [cart[0]] + Remove(cart[1..], pid)
    else Remove(cart[1..], pid)
  }

  /** Removing from a cart is removing from its parts, in order. */
  lemma {:induction false} RemoveAppend(a: seq<CartEntry>, b: seq<CartEntry>, pid: string)
    ensures Remove(a + b, pid) == Remove(a, pid) + Remove(b, pid)
  {
    if a == [] {
      assert a + b == b;
    } else {
      assert (a + b)[0] == a[0];
      assert (a + b)[1..] == a[1..] + b;
      RemoveAppend(a[1..], b, pid);
    }
  }

  /** A product with no entry leaves the cart as it is; afterwards the
      product has no entry, exactly its entries are gone, and removing twice
      is removing once. */
  lemma {:induction false} RemoveProperties(cart: seq<CartEntry>, pid: string)
    ensures Count(cart, pid) == 0 ==> Remove(cart, pid) == cart
    ensures Count(Remove(cart, pid), pid) == 0
    ensures Remove(Remove(cart, pid), pid) == Remove(cart, pid)
    ensures |Remove(cart, pid)| == |cart| - Count(cart, pid)
  {
    if cart != [] {
      RemoveProperties(cart[1..], pid);
      if cart[0].productId != pid {
        assert Remove(cart, pid)[1..] == Remove(cart[1..], pid);
      }
    }
  }

  /** The clear button: the empty cart. */
  function Clear(): (r: seq<CartEntry>)
    ensures |r| == 0
  {
    []
  }

  /** After clear the drawer shows no line and a zero subtotal, whatever the
      catalogue. */
  lemma ClearShowsNothing(ps: seq<Product>)
    ensures Lines(ps, Clear()) == [] && Subtotal(ps, Clear()) == 0
  {
  }
}
