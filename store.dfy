/** The catalog and order tables (`db.ts`, and the in-memory `store` the
    route handlers use): two lists that every operation reads and rewrites
    whole. */
module Db {

  import opened Js
  import opened Domain
  import Seqs

  /** `products.filter(p => p.active)`. */
  function ActiveOnly(ps: seq<Product>): (r: seq<Product>)
    ensures |r| <= |ps|
    ensures forall p :: p in r ==> p in ps && p.active
  {
    if ps == [] then []
    else if ps[0].active then [ps[0]] + ActiveOnly(ps[1..])
    else ActiveOnly(ps[1..])
  }

  /** The filter keeps stored order: filtering a concatenation is
      concatenating the filtered parts. */
  lemma {:induction false} ActiveOnlyAppend(a: seq<Product>, b: seq<Product>)
    ensures ActiveOnly(a + b) == ActiveOnly(a) + ActiveOnly(b)
    decreases |a|
  {
    if a == [] {
      assert a + b == b;
    } else {
      assert (a + b)[0] == a[0] && (a + b)[1..] == a[1..] + b;
      ActiveOnlyAppend(a[1..], b);
    }
  }

  /** Every active stored product is listed: the filter drops exactly the
      inactive ones. */
  lemma {:induction false} ActiveOnlyComplete(ps: seq<Product>, p: Product)
    ensures p in ActiveOnly(ps) <==> p in ps && p.active
    decreases |ps|
  {
    if ps != [] {
      ActiveOnlyComplete(ps[1..], p);
      assert ps == [ps[0]] + ps[1..];
    }
  }

  /** `upsertProduct`: the first product with the same id is replaced in
      place; a product with a new id goes to the front. */
  function Upsert(ps: seq<Product>, p: Product): (r: seq<Product>)
    ensures var i := Seqs.IndexOf(ps, ProductKey, p.id);
      if i >= 0 then |r| == |ps| && r[i] == p && forall j :: 0 <= j < |ps| && j != i ==> r[j] == ps[j]
      else r == [p] + ps
  {
    var i := Seqs.IndexOf(ps, ProductKey, p.id);
    if i >= 0 then ps[i := p] else [p] + ps
  }

  /** Saving never creates a second product with the same id, and afterwards
      looking the id up finds exactly the saved product. */
  lemma UpsertKeepsIdsUnique(ps: seq<Product>, p: Product)
    requires Seqs.UniqueKeys(ps, ProductKey)
    ensures Seqs.UniqueKeys(Upsert(ps, p), ProductKey)
    ensures Seqs.Find(Upsert(ps, p), ProductKey, p.id) == Some(p)
  {
    var r := Upsert(ps, p);
    var i := Seqs.IndexOf(ps, ProductKey, p.id);
    if i < 0 {
      forall a, b | 0 <= a < b < |r| ensures r[a].id != r[b].id {
        if a > 0 {
          assert r[a] == ps[a - 1] && r[b] == ps[b - 1];
        }
      }
    }
    assert r[Seqs.IndexOf(r, ProductKey, p.id)] == p by {
      if i >= 0 {
        assert Seqs.IndexOf(r, ProductKey, p.id) == i;
      } else {
        assert r[0] == p;
      }
    }
  }

  /** `setProductActive` on the lists: the result, and the new product list. */
  function SetActive(ps: seq<Product>, id: string, active: bool): (r: (Option<Product>, seq<Product>))
    ensures |r.1| == |ps|
    ensures r.0.None? <==> Seqs.IndexOf(ps, ProductKey, id) < 0
    ensures r.0.None? ==> r.1 == ps
    ensures r.0.Some? ==>
      var i := Seqs.IndexOf(ps, ProductKey, id);
      r.0.value == ps[i].(active := active) && r.1[i] == r.0.value
      && forall j :: 0 <= j < |ps| && j != i ==> r.1[j] == ps[j]
  {
    var i := Seqs.IndexOf(ps, ProductKey, id);
    if i < 0 then (None, ps)
    else
      var p := ps[i].(active := active);
      (Some(p), ps[i := p])
  }

  /** `updateOrderStatus` on the lists: the result, and the new order list. */
  function SetStatus(os: seq<Order>, id: string, status: Status): (r: (Option<Order>, seq<Order>))
    ensures |r.1| == |os|
    ensures r.0.None? <==> Seqs.IndexOf(os, OrderKey, id) < 0
    ensures r.0.None? ==> r.1 == os
    ensures r.0.Some? ==>
      var i := Seqs.IndexOf(os, OrderKey, id);
      r.0.value == os[i].(status := status) && r.1[i] == r.0.value
      && forall j :: 0 <= j < |os| && j != i ==> r.1[j] == os[j]
  {
    var i := Seqs.IndexOf(os, OrderKey, id);
    if i < 0 then (None, os)
    else
      var o := os[i].(status := status);
      (Some(o), os[i := o])
  }

  /** The database: the product list and the order list, newest order first. */
  class Store {
    var products: seq<Product>
    var orders: seq<Order>

    constructor (products: seq<Product>, orders: seq<Order>)
      ensures this.products == products && this.orders == orders
    {
      this.products := products;
      this.orders := orders;
    }

    /** `getPublicProducts`: the active products, in stored order. */
    method GetPublicProducts() returns (r: seq<Product>)
      ensures r == ActiveOnly(products)
    {
      r := [];
      var i := 0;
      while i < |products|
        invariant 0 <= i <= |products|
        invariant r == ActiveOnly(products[..i])
      {
        ActiveOnlyAppend(products[..i], [products[i]]);
        assert products[..i + 1] == products[..i] + [products[i]];
        if products[i].active {
          r := r + [products[i]];
        }
        i := i + 1;
      }
      assert products[..i] == products;
    }

    /** `upsertProduct`: replace the first product with the same id, or put
      the new one first; the orders are not touched. */
    method UpsertProduct(p: Product) returns (saved: Product)
      modifies this
      ensures saved == p
      ensures products == Upsert(old(products), p)
      ensures orders == old(orders)
    {
      var idx := Seqs.FindIndex(products, ProductKey, p.id);
      if idx >= 0 {
        products := products[idx := p];
      } else {
        products := [p] + products;
      }
      saved := p;
    }

    /** `setProductActive`: null for an unknown id; otherwise only the
      `active` flag of the first product with that id changes. */
    method SetProductActive(id: string, active: bool) returns (r: Option<Product>)
      modifies this
      ensures (r, products) == SetActive(old(products), id, active)
      ensures orders == old(orders)
    {
      var idx := Seqs.FindIndex(products, ProductKey, id);
      if idx < 0 {
        return None;
      }
      products := products[idx := products[idx].(active := active)];
      r := Some(products[idx]);
    }

    /** `createOrder`: the new order goes first. */
    method CreateOrder(o: Order) returns (r: Order)
      modifies this
      ensures r == o
      ensures orders == [o] + old(orders)
      ensures products == old(products)
    {
      orders := [o] + orders;
      r := o;
    }

    /** `updateOrderStatus`: null for an unknown id; otherwise only the
      `status` of the first order with that id changes. */
    method UpdateOrderStatus(id: string, status: Status) returns (r: Option<Order>)
      modifies this
      ensures (r, orders) == SetStatus(old(orders), id, status)
      ensures products == old(products)
    {
      var idx := Seqs.FindIndex(orders, OrderKey, id);
      if idx < 0 {
        return None;
      }
      orders := orders[idx := orders[idx].(status := status)];
      r := Some(orders[idx]);
    }
  }
}
