/** The admin order list: the status labels it shows and its search box. */
module OrderSearch {

  import opened Domain
  import opened Text
  import Notify

  /** `statusLabel`: the Portuguese label of a status. */
  function StatusLabel(s: Status): (r: string)
    ensures r != ""
  {
    if s == Pending then "Pendente"
    else if s == InDelivery then "Em entrega"
    else if s == Delivered then "Entregue"
    else "Cancelado"
  }

  /** The list shows the same labels as the WhatsApp message, so the four
      labels are distinct. */
  lemma StatusLabelAgrees(s: Status, t: Status)
    ensures StatusLabel(s) == Notify.StatusLabel(s.Wire())
    ensures s != t ==> StatusLabel(s) != StatusLabel(t)
  {
  }

  /** The search text as it is compared: trimmed, then lower-cased. */
  function Query(q: string): (r: string)
    ensures |r| <= |q|
  {
    Lower(Trim(q))
  }

  /** An order matches when its id, name, phone or address contains the
      query, case aside. */
  predicate Matches(o: Order, s: string) {
    || Contains(Lower(o.id), s)
    || Contains(Lower(o.customer.name), s)
    || Contains(Lower(o.customer.phone), s)
    || Contains(Lower(o.customer.address), s)
  }

  /** `orders.filter(...)` with that test. */
  function Select(orders: seq<Order>, s: string): (r: seq<Order>)
    ensures |r| <= |orders|
    ensures forall o :: o in r ==> o in orders && Matches(o, s)
    ensures forall o :: o in orders && Matches(o, s) ==> o in r
  {
    if orders == [] then []
    else if Matches(orders[0], s) then [orders[0]] + Select(orders[1..], s)
    else Select(orders[1..], s)
  }

  /** The filter keeps the list's order: selecting from a concatenation is
      concatenating the selections. */
  lemma {:induction false} SelectAppend(a: seq<Order>, b: seq<Order>, s: string)
    ensures Select(a + b, s) == Select(a, s) + Select(b, s)
  {
    if a == [] {
      assert a + b == b;
    } else {
      assert (a + b)[0] == a[0];
      assert (a + b)[1..] == a[1..] + b;
      SelectAppend(a[1..], b, s);
    }
  }

  /** `filtered`: all orders for a blank search, otherwise those matching the
      trimmed, lower-cased query. */
  function Filtered(orders: seq<Order>, q: string): (r: seq<Order>)
    ensures Query(q) == "" ==> r == orders
    ensures forall o :: o in r ==> o in orders
    ensures Query(q) != "" ==> forall o :: o in orders ==> (o in r <==> Matches(o, Query(q)))
  {
    var s := Query(q);
    if s == "" then orders else Select(orders, s)
  }

  /** A query of white space only shows every order. */
  lemma BlankQueryShowsAll(orders: seq<Order>, q: string)
    requires AllSpace(q)
    ensures Filtered(orders, q) == orders
  {
    TrimEmptyIffBlank(q);
  }

  /** The shortcut for a blank search agrees with the filter: every order
      contains the empty string. */
  lemma {:induction false} SelectEmptyIsAll(orders: seq<Order>)
    ensures Select(orders, "") == orders
  {
    if orders != [] {
      assert Contains(Lower(orders[0].id), "");
      SelectEmptyIsAll(orders[1..]);
    }
  }

  /** Only ASCII letters change case, and none of them is white space. */
  lemma LowerCharSpace(c: char)
    ensures IsJsSpace(LowerChar(c)) <==> IsJsSpace(c)
  {
    if 'A' <= c <= 'Z' {
      assert !IsJsSpace(c) && !IsJsSpace(LowerChar(c));
    }
  }

  lemma {:induction false} TrimStartLower(s: string)
    ensures TrimStart(Lower(s)) == Lower(TrimStart(s))
  {
    if s != [] {
      var l := Lower(s);
      assert l[0] == LowerChar(s[0]);
      assert l[1..] == Lower(s[1..]);
      LowerCharSpace(s[0]);
      if IsJsSpace(s[0]) {
        assert TrimStart(l) == TrimStart(l[1..]);
        TrimStartLower(s[1..]);
      } else {
        assert TrimStart(l) == l;
      }
    }
  }

  lemma {:induction false} TrimEndLower(s: string)
    ensures TrimEnd(Lower(s)) == Lower(TrimEnd(s))
  {
    if s != [] {
      var n := |s| - 1;
      var l := Lower(s);
      assert l[n] == LowerChar(s[n]);
      assert l[..n] == Lower(s[..n]);
      LowerCharSpace(s[n]);
      if IsJsSpace(s[n]) {
        assert TrimEnd(l) == TrimEnd(l[..n]);
        TrimEndLower(s[..n]);
      } else {
        assert TrimEnd(l) == l;
      }
    }
  }

  lemma TrimUnfold(s: string)
    ensures Trim(s) == TrimEnd(TrimStart(s))
  {
  }

  lemma LowerIdempotent(s: string)
    ensures Lower(Lower(s)) == Lower(s)
  {
    assert forall i :: 0 <= i < |s| ==> Lower(Lower(s))[i] == Lower(s)[i];
  }

  /** Trimming and lower-casing commute. */
  lemma TrimLower(q: string)
    ensures Trim(Lower(q)) == Lower(Trim(q))
  {
    TrimUnfold(q);
    TrimUnfold(Lower(q));
    TrimStartLower(q);
    TrimEndLower(TrimStart(q));
  }

  /** Lower-casing leaves white space alone, so the search ignores the case
      of what is typed: a query and its lower-cased form find the same
      orders. */
  lemma QueryIgnoresCase(orders: seq<Order>, q: string)
    ensures Query(Lower(q)) == Query(q)
    ensures Filtered(orders, Lower(q)) == Filtered(orders, q)
  {
    TrimLower(q);
    LowerIdempotent(Trim(q));
  }
}
