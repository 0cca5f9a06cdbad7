/** The storefront's home page: the per-product amounts waiting to be added,
    adding to the cart, the item count and the subtotal shown in the header. */
module Home {

  import opened Js
  import opened Domain
  import Utils
  import Seqs
  import opened Drawer

  /** Draft initialisation: every listed product starts at 100 g. */
  method InitDrafts(ps: seq<Product>) returns (init: map<string, int>)
    ensures init.Keys == set p | p in ps :: p.id
    ensures forall id :: id in init ==> init[id] == 100
  {
    init := map[];
    for i := 0 to |ps|
      invariant init.Keys == set j | 0 <= j < i :: ps[j].id
      invariant forall id :: id in init ==> init[id] == 100
    {
      init := init[ps[i].id := 100];
    }
    assert forall p :: p in ps ==> exists j :: 0 <= j < |ps| && ps[j] == p;
  }

  /** `gramsDraft[productId] || 100`: the draft, unless it is missing or 0. */
  function Amount(drafts: map<string, int>, pid: string): (r: int)
    ensures r != 0
    ensures pid in drafts && drafts[pid] != 0 ==> r == drafts[pid]
    ensures pid !in drafts ==> r == 100
  {
    if pid in drafts && drafts[pid] != 0 then drafts[pid] else 100
  }

  /** After initialisation, any product of the list is added 100 g at a time
      until its draft is changed, and so is a product the list lacks. */
  lemma InitialAmount(drafts: map<string, int>, ps: seq<Product>, pid: string)
    requires drafts.Keys == set p | p in ps :: p.id
    requires forall id :: id in drafts ==> drafts[id] == 100
    ensures Amount(drafts, pid) == 100
  {
  }

  /** `addToCart`: the amount joins the first entry of the product when there
      is one, otherwise a new entry goes at the end. */
  function AddToCart(cart: seq<CartEntry>, pid: string, grams: int): (r: seq<CartEntry>)
    ensures var i := Seqs.IndexOf(cart, EntryKey, pid);
      if i >= 0 then
        && |r| == |cart| && r[i] == CartEntry(pid, cart[i].grams + grams)
        && forall k :: 0 <= k < |cart| && k != i ==> r[k] == cart[k]
      else r == cart + [CartEntry(pid, grams)]
  {
    var i := Seqs.IndexOf(cart, EntryKey, pid);
    if i >= 0 then cart[i := cart[i].(grams := cart[i].grams + grams)]
    else cart + [CartEntry(pid, grams)]
  }

  /** The updater given to `setCart`: a copy of the cart, with the entry at
      the found index reassigned, or a copy one longer. */
  method AddToCartCopy(prev: seq<CartEntry>, pid: string, grams: int) returns (next: seq<CartEntry>)
    ensures next == AddToCart(prev, pid, grams)
  {
    var idx := Seqs.FindIndex(prev, EntryKey, pid);
    if idx >= 0 {
      var copy := new CartEntry[|prev|](k requires 0 <= k < |prev| => prev[k]);
      copy[idx] := copy[idx].(grams := copy[idx].grams + grams);
      next := copy[..];
    } else {
      var copy := new CartEntry[|prev| + 1](k requires 0 <= k <= |prev| =>
        if k < |prev| then prev[k] else CartEntry(pid, grams));
      next := copy[..];
    }
  }

  lemma {:induction false} TotalGramsUpdate(s: seq<CartEntry>, i: int, e: CartEntry)
    requires 0 <= i < |s|
    ensures TotalGrams(s[i := e]) == TotalGrams(s) - s[i].grams + e.grams
  {
    if i > 0 {
      assert s[i := e][1..] == s[1..][i - 1 := e];
      TotalGramsUpdate(s[1..], i - 1, e);
    }
  }

  lemma {:induction false} TotalGramsSnoc(s: seq<CartEntry>, e: CartEntry)
    ensures TotalGrams(s + [e]) == TotalGrams(s) + e.grams
  {
    if s != [] {
      assert (s + [e])[1..] == s[1..] + [e];
      TotalGramsSnoc(s[1..], e);
    }
  }

  /** Adding raises the cart's grams by exactly the amount added. */
  lemma AddToCartTotal(cart: seq<CartEntry>, pid: string, grams: int)
    ensures TotalGrams(AddToCart(cart, pid, grams)) == TotalGrams(cart) + grams
  {
    var i := Seqs.IndexOf(cart, EntryKey, pid);
    if i >= 0 {
      TotalGramsUpdate(cart, i, cart[i].(grams := cart[i].grams + grams));
    } else {
      TotalGramsSnoc(cart, CartEntry(pid, grams));
    }
  }

  /** Adding keeps one entry per product, and afterwards the product has an
      entry. */
  lemma AddToCartKeepsUnique(cart: seq<CartEntry>, pid: string, grams: int)
    requires Seqs.UniqueKeys(cart, EntryKey)
    ensures Seqs.UniqueKeys(AddToCart(cart, pid, grams), EntryKey)
    ensures Seqs.IndexOf(AddToCart(cart, pid, grams), EntryKey, pid) >= 0
  {
    var r := AddToCart(cart, pid, grams);
    var i := Seqs.IndexOf(cart, EntryKey, pid);
    if i >= 0 {
      assert forall k :: 0 <= k < |r| ==> EntryKey(r[k]) == EntryKey(cart[k]);
    } else {
      assert forall k :: 0 <= k < |cart| ==> r[k] == cart[k];
      assert EntryKey(r[|cart|]) == pid;
    }
  }

  /** A product that was not in the cart is added as a new entry that the
      drawer's remove button takes out again, leaving the cart as it was. */
  lemma RemoveUndoesNewEntry(cart: seq<CartEntry>, pid: string, grams: int)
    requires Count(cart, pid) == 0
    ensures Remove(AddToCart(cart, pid, grams), pid) == cart
  {
    CountZero(cart, pid);
    RemoveAppend(cart, [CartEntry(pid, grams)], pid);
    RemoveProperties(cart, pid);
  }

  lemma {:induction false} CountZero(cart: seq<CartEntry>, pid: string)
    requires Count(cart, pid) == 0
    ensures forall k :: 0 <= k < |cart| ==> EntryKey(cart[k]) != pid
  {
    if cart != [] {
      CountZero(cart[1..], pid);
      forall k | 1 <= k < |cart|
        ensures EntryKey(cart[k]) != pid
      {
        assert cart[k] == cart[1..][k - 1];
      }
    }
  }

  /** `cartCount`: the entries' grams in units of 100 g, summed; that is the
      cart's grams divided by 100. */
  function CartCount(cart: seq<CartEntry>): (r: real)
    ensures r == TotalGrams(cart) as real / 100.0
  {
    if cart == [] then 0.0 else cart[0].grams as real / 100.0 + CartCount(cart[1..])
  }

  /** The unrounded sum behind the header's subtotal, in hundredths of a
      cent: price per 100 g times grams for every entry whose product is
      known. It is the unrounded value of the lines the drawer shows. */
  function HomeSum(ps: seq<Product>, cart: seq<CartEntry>): (r: int)
    ensures r == RawTotal(Lines(ps, cart))
  {
    if cart == [] then 0
    else
      var rest := HomeSum(ps, cart[1..]);
      match LookupLast(ps, cart[0].productId)
      case None => rest
      case Some(p) =>
        var l := LineFor(ps, cart[0]).value;
        assert Lines(ps, cart) == [l] + Lines(ps, cart[1..]);
        assert ([l] + Lines(ps, cart[1..]))[1..] == Lines(ps, cart[1..]);
        p.pricePer100g * cart[0].grams + rest
  }

  /** For every cart the drawer's subtotal, which rounds line by line, is
      within half a cent per shown line of the unrounded sum the header
      rounds once. */
  lemma DrawerSubtotalNearHeader(ps: seq<Product>, cart: seq<CartEntry>)
    ensures var n := |Lines(ps, cart)|;
      100 * Subtotal(ps, cart) - 50 * n <= HomeSum(ps, cart) <= 100 * Subtotal(ps, cart) + 50 * n
  {
  }

  /** The header's `subtotal`: the whole sum rounded once to cents. */
  function HomeSubtotal(ps: seq<Product>, cart: seq<CartEntry>): (r: Cents)
    ensures 100 * r - 50 <= HomeSum(ps, cart) < 100 * r + 50
  {
    Utils.RoundToCents(HomeSum(ps, cart))
  }

  /** With amounts in whole hundreds of grams, no line needs rounding, so the
      drawer's line totals add up to the unrounded sum. */
  lemma {:induction false} LineTotalsAddUp(ps: seq<Product>, cart: seq<CartEntry>)
    requires forall k :: 0 <= k < |cart| ==> cart[k].grams % 100 == 0
    ensures 100 * SumTotals(Lines(ps, cart)) == HomeSum(ps, cart)
  {
    if cart != [] {
      LineTotalsAddUp(ps, cart[1..]);
      var g := cart[0].grams;
      match LookupLast(ps, cart[0].productId)
      case None =>
      case Some(p) =>
        var l := LineFor(ps, cart[0]).value;
        assert Lines(ps, cart) == [l] + Lines(ps, cart[1..]);
        assert ([l] + Lines(ps, cart[1..]))[1..] == Lines(ps, cart[1..]);
        assert l.total == p.pricePer100g * (g / 100);
        assert 100 * (p.pricePer100g * (g / 100)) == p.pricePer100g * g by {
          assert g == 100 * (g / 100);
        }
    }
  }

  /** When every amount is a whole number of 100 g (all the stepper can
      produce), the header and the drawer show the same subtotal. */
  lemma SubtotalsAgree(ps: seq<Product>, cart: seq<CartEntry>)
    requires forall k :: 0 <= k < |cart| ==> cart[k].grams % 100 == 0
    ensures HomeSubtotal(ps, cart) == Subtotal(ps, cart)
  {
    LineTotalsAddUp(ps, cart);
    Utils.RoundToCentsExact(HomeSum(ps, cart), SumTotals(Lines(ps, cart)));
  }

  /** With amounts that are not whole hundreds of grams the two differ: two
      50 g entries at 5 cents per 100 g round to 3 cents each in the drawer,
      while the header rounds 5 cents once. */
  lemma SubtotalsCanDiffer()
    ensures var ps := [Product("a", "A", 5, DefaultImage, true), Product("b", "B", 5, DefaultImage, true)];
      var cart := [CartEntry("a", 50), CartEntry("b", 50)];
      HomeSubtotal(ps, cart) == 5 && Subtotal(ps, cart) == 6
  {
    var ps := [Product("a", "A", 5, DefaultImage, true), Product("b", "B", 5, DefaultImage, true)];
    var cart := [CartEntry("a", 50), CartEntry("b", 50)];
    assert LookupLast(ps, "a") == Some(ps[0]);
    assert LookupLast(ps, "b") == Some(ps[1]);
    assert cart[1..] == [CartEntry("b", 50)];
    assert cart[1..][1..] == [];
    assert HomeSum(ps, cart[1..]) == 250;
    assert HomeSum(ps, cart) == 500;
    assert Lines(ps, cart[1..]) == [Line("b", 50, ps[1], 3)];
    var lines := [Line("a", 50, ps[0], 3), Line("b", 50, ps[1], 3)];
    assert Lines(ps, cart) == lines;
    assert lines[1..] == [Line("b", 50, ps[1], 3)] && lines[1..][1..] == [];
    assert SumTotals(lines[1..]) == 3;
    assert SumTotals(lines) == 6;
  }
}
