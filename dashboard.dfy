/** The admin dashboard: the per-status order counters, the product editor's
    cleaning and the way the page's product and order lists take in what the
    server answered. */
module Dashboard {

  import opened Js
  import opened Domain
  import opened Text
  import Seqs
  import Db
  import ProductRoutes

  /** How many orders have status `s`. */
  function CountStatus(os: seq<Order>, s: Status): (r: nat)
    ensures r <= |os|
  {
    if os == [] then 0
    else CountStatus(os[..|os| - 1], s) + (if os[|os| - 1].status == s then 1 else 0)
  }

  /** The count is the number of positions holding an order with that
      status. */
  lemma {:induction false} CountIsCardinality(os: seq<Order>, s: Status)
    ensures CountStatus(os, s) == |set i | 0 <= i < |os| && os[i].status == s|
  {
    if os != [] {
      var n := |os| - 1;
      var front := os[..n];
      CountIsCardinality(front, s);
      var before := set i | 0 <= i < |front| && front[i].status == s;
      var after := set i | 0 <= i < |os| && os[i].status == s;
      assert n !in before;
      if os[n].status == s {
        assert after == before + {n};
      } else {
        assert after == before;
      }
    }
  }

  /** The four counters of the dashboard's header. */
  datatype Counts = Counts(pending: nat, inDelivery: nat, delivered: nat, canceled: nat) {
    function Get(s: Status): nat {
      match s
      case Pending => pending
      case InDelivery => inDelivery
      case Delivered => delivered
      case Canceled => canceled
    }

    /** `map[s] += 1`. */
    function Bump(s: Status): (r: Counts)
      ensures r.Get(s) == Get(s) + 1
      ensures forall t :: t != s ==> r.Get(t) == Get(t)
    {
      match s
      case Pending => this.(pending := pending + 1)
      case InDelivery => this.(inDelivery := inDelivery + 1)
      case Delivered => this.(delivered := delivered + 1)
      case Canceled => this.(canceled := canceled + 1)
    }
  }

  /** `byStatus`: all four counters start at 0 and each order bumps its own. */
  method ByStatus(os: seq<Order>) returns (c: Counts)
    ensures forall s :: c.Get(s) == CountStatus(os, s)
  {
    c := Counts(0, 0, 0, 0);
    for i := 0 to |os|
      invariant forall s :: c.Get(s) == CountStatus(os[..i], s)
    {
      assert os[..i + 1][..i] == os[..i];
      c := c.Bump(os[i].status);
    }
    assert os[..|os|] == os;
  }

  /** The four counters account for every order exactly once. */
  lemma {:induction false} CountsCoverAll(os: seq<Order>)
    ensures CountStatus(os, Pending) + CountStatus(os, InDelivery)
      + CountStatus(os, Delivered) + CountStatus(os, Canceled) == |os|
  {
    if os != [] {
      CountsCoverAll(os[..|os| - 1]);
    }
  }

  /** The product being edited, as the form holds it: the price field may
      hold anything `Number` reads, and the active flag any value. */
  datatype Draft = Draft(id: string, name: string, price: PriceInput, image: string, active: Value)

  /** The product as the form shows it for editing (`openEdit`): the form
      holds the product's fields, and reading its price and flag back with
      `Number(...) || 0` and `!!` gives the product's price and flag. */
  function DraftOf(p: Product): (r: Draft)
    ensures r.id == p.id && r.name == p.name && r.image == p.image
    ensures PriceOrZero(r.price) == p.pricePer100g && Truthy(r.active) == p.active
  {
    Draft(p.id, p.name, PriceCents(p.pricePer100g), p.image, Bool(p.active))
  }

  /** `cleaned` in `save`: name and image trimmed, `Number(price) || 0`, and
      `!!active`. */
  function Clean(e: Draft): (r: Product)
    ensures r.id == e.id && r.pricePer100g == PriceOrZero(e.price) && r.active == Truthy(e.active)
    ensures r.name == Trim(e.name) && r.image == Trim(e.image)
  {
    Product(e.id, Trim(e.name), PriceOrZero(e.price), Trim(e.image), Truthy(e.active))
  }

  /** Cleaning what was cleaned changes nothing: reopening a saved product
      and saving it again sends the same product. */
  lemma CleanIdempotent(e: Draft)
    ensures Clean(DraftOf(Clean(e))) == Clean(e)
  {
    CleanOfDraft(Clean(e));
    TrimIdempotent(e.name);
    TrimIdempotent(e.image);
  }

  /** Reopening a product and saving it trims its name and image and keeps
      everything else. */
  lemma CleanOfDraft(p: Product)
    ensures Clean(DraftOf(p)) == p.(name := Trim(p.name), image := Trim(p.image))
  {
  }

  /** The request body the editor sends for a cleaned product. */
  function BodyOf(p: Product): ProductRoutes.ProductBody {
    ProductRoutes.ProductBody(Some(p.id), Some(p.name), PriceCents(p.pricePer100g), Some(p.image), Bool(p.active))
  }

  /** What the server stores for the body the editor sends: nothing when
      the id or the name is empty, and otherwise the product itself, with
      the default image for an empty one. */
  lemma ServerStoresBody(p: Product)
    ensures ProductRoutes.Normalise(BodyOf(p)) ==
      if p.id == "" || p.name == "" then None
      else Some(p.(image := if p.image == "" then DefaultImage else p.image))
  {
  }

  /** What the server stores for a cleaned product: nothing when the id is
      empty or the name was blank, and otherwise the same product, with the
      default image when the image was blank. */
  lemma ServerStoresCleaned(e: Draft)
    ensures var c := Clean(e);
      ProductRoutes.Normalise(BodyOf(c)) ==
        if c.id == "" || AllSpace(e.name) then None
        else Some(c.(image := if AllSpace(e.image) then DefaultImage else c.image))
  {
    ServerStoresBody(Clean(e));
    TrimEmptyIffBlank(e.name);
    TrimEmptyIffBlank(e.image);
  }

  /** The `save` updater: a copy of the list with the saved product at the
      index of its id, or the saved product put first. */
  method SaveMerge(prev: seq<Product>, saved: Product) returns (next: seq<Product>)
    ensures next == Db.Upsert(prev, saved)
  {
    var idx := Seqs.FindIndex(prev, ProductKey, saved.id);
    if idx >= 0 {
      var copy := new Product[|prev|](k requires 0 <= k < |prev| => prev[k]);
      copy[idx] := saved;
      next := copy[..];
    } else {
      next := [saved] + prev;
    }
  }

  /** `prev.map(x => x.id === id ? replacement : x)`. */
  function ReplaceById<T>(s: seq<T>, key: T -> string, id: string, x: T): (r: seq<T>)
    ensures |r| == |s|
    ensures forall k :: 0 <= k < |s| && key(s[k]) != id ==> r[k] == s[k]
    ensures forall k :: 0 <= k < |s| && key(s[k]) == id ==> r[k] == x
  {
    seq(|s|, k requires 0 <= k < |s| => if key(s[k]) == id then x else s[k])
  }

  /** An id absent from the list leaves it as it is. */
  lemma ReplaceAbsent<T>(s: seq<T>, key: T -> string, id: string, x: T)
    requires Seqs.IndexOf(s, key, id) < 0
    ensures ReplaceById(s, key, id, x) == s
  {
  }

  /** `toggleActive`: with distinct ids, putting the server's answer in place
      gives the page exactly the product list the server now holds. */
  lemma ToggleMirrorsServer(ps: seq<Product>, id: string, active: bool)
    requires Seqs.UniqueKeys(ps, ProductKey)
    requires Db.SetActive(ps, id, active).0.Some?
    ensures ReplaceById(ps, ProductKey, id, Db.SetActive(ps, id, active).0.value) == Db.SetActive(ps, id, active).1
  {
    var i := Seqs.IndexOf(ps, ProductKey, id);
    var r := ReplaceById(ps, ProductKey, id, Db.SetActive(ps, id, active).0.value);
    forall k | 0 <= k < |ps|
      ensures r[k] == Db.SetActive(ps, id, active).1[k]
    {
      if k != i {
        assert ProductKey(ps[k]) != ProductKey(ps[i]);
      }
    }
  }

  /** `setStatus`: with distinct ids, putting the server's answer in place
      gives the page exactly the order list the server now holds. */
  lemma SetStatusMirrorsServer(os: seq<Order>, id: string, status: Status)
    requires Seqs.UniqueKeys(os, OrderKey)
    requires Db.SetStatus(os, id, status).0.Some?
    ensures ReplaceById(os, OrderKey, id, Db.SetStatus(os, id, status).0.value) == Db.SetStatus(os, id, status).1
  {
    var i := Seqs.IndexOf(os, OrderKey, id);
    var r := ReplaceById(os, OrderKey, id, Db.SetStatus(os, id, status).0.value);
    forall k | 0 <= k < |os|
      ensures r[k] == Db.SetStatus(os, id, status).1[k]
    {
      if k != i {
        assert OrderKey(os[k]) != OrderKey(os[i]);
      }
    }
  }

  /** `newProduct`: an empty form with a clock-based id, price 0, active, and
      the default image. */
  function NewProduct(nowMs: nat): (r: Product)
    ensures r.name == "" && r.pricePer100g == 0 && r.active && r.image == DefaultImage
    ensures "p_" <= r.id
  {
    Product("p_" + ToBase(nowMs, 16), "", 0, DefaultImage, true)
  }

  /** New forms opened at different times get different ids. */
  lemma NewProductIdsDistinct(t1: nat, t2: nat)
    ensures t1 != t2 ==> NewProduct(t1).id != NewProduct(t2).id
  {
    if t1 != t2 && NewProduct(t1).id == NewProduct(t2).id {
      assert ToBase(t1, 16) == NewProduct(t1).id[2..];
      ToBaseInjective(t1, t2, 16);
    }
  }

  /** The default image has no white space to trim. */
  lemma DefaultImageTrimmed()
    ensures Trim(DefaultImage) == DefaultImage
  {
    assert !IsJsSpace(DefaultImage[0]) && !IsJsSpace(DefaultImage[|DefaultImage| - 1]);
    assert TrimStart(DefaultImage) == DefaultImage;
    assert TrimEnd(DefaultImage) == DefaultImage;
  }

  /** A new form saved without a name is refused by the server. */
  lemma NewProductNeedsName(t: nat)
    ensures ProductRoutes.Normalise(BodyOf(Clean(DraftOf(NewProduct(t))))).None?
  {
    assert Trim("") == "";
  }

  /** A new form given a name cleans to the new product with that name
      trimmed. */
  lemma NewDraftCleaned(t: nat, name: string)
    ensures Clean(DraftOf(NewProduct(t)).(name := name)) == NewProduct(t).(name := Trim(name))
  {
    var c := Clean(DraftOf(NewProduct(t)).(name := name));
    assert c.image == DefaultImage by {
      DefaultImageTrimmed();
    }
  }

  /** A new form saved with a name is stored with that name trimmed and
      every default kept. */
  lemma NewProductNamed(t: nat, name: string)
    requires Trim(name) != ""
    ensures ProductRoutes.Normalise(BodyOf(Clean(DraftOf(NewProduct(t)).(name := name))))
      == Some(Product(NewProduct(t).id, Trim(name), 0, DefaultImage, true))
  {
    NewDraftCleaned(t, name);
    assert NewProduct(t).id != "" by {
      assert "p_" <= NewProduct(t).id;
    }
    ServerStoresBody(NewProduct(t).(name := Trim(name)));
  }
}
