/** The product endpoints: the public catalog, the admin save (create or
    replace by id) and the admin activate/deactivate switch. */
module ProductRoutes {

  import opened Js
  import opened Domain
  import Seqs
  import Db

  /** The body of an admin save, as far as the handler reads it. */
  datatype ProductBody = ProductBody(id: Option<string>, name: Option<string>, price: PriceInput, image: Option<string>, active: Value)

  datatype SaveReply = Saved(product: Product) | MissingFields

  datatype ActiveReply = Updated(product: Product) | ProductNotFound

  /** The product a save stores, or None when `id` or `name` is missing or
      empty (the 400 `missing_fields` reply). */
  function Normalise(body: ProductBody): (r: Option<Product>)
    ensures r.None? <==> !Filled(body.id) || !Filled(body.name)
    ensures r.Some? ==>
      && r.value.id == body.id.value && r.value.name == body.name.value
      && r.value.pricePer100g == PriceOrZero(body.price)
      && r.value.image == (if Filled(body.image) then body.image.value else DefaultImage)
      && r.value.image != ""
      && r.value.active == Truthy(body.active)
  {
    if !Filled(body.id) || !Filled(body.name) then None
    else Some(Product(
      body.id.value,
      body.name.value,
      PriceOrZero(body.price),
      OrElse(body.image, DefaultImage),
      Truthy(body.active)))
  }

  /** `Boolean(active)` reads an absent flag, `null`, `0` and `""` as false, and
      the string "false" as true. */
  lemma ActiveCoercion()
    ensures !Truthy(Undefined) && !Truthy(Null) && !Truthy(Num(Finite(0.0))) && !Truthy(Str(""))
    ensures Truthy(Str("false"))
  {
  }

  /** GET `/public`: only the active products, in stored order. */
  method GetPublic(store: Db.Store) returns (r: seq<Product>)
    ensures r == Db.ActiveOnly(store.products)
  {
    r := store.GetPublicProducts();
  }

  /** POST `/`: validate, normalise, then replace by id or put first. */
  method Post(store: Db.Store, body: ProductBody) returns (reply: SaveReply)
    modifies store
    ensures Normalise(body).None? ==> reply == MissingFields && store.products == old(store.products)
    ensures Normalise(body).Some? ==>
      reply == Saved(Normalise(body).value) && store.products == Db.Upsert(old(store.products), Normalise(body).value)
    ensures store.orders == old(store.orders)
  {
    var p := Normalise(body);
    if p.None? {
      return MissingFields;
    }
    var saved := store.UpsertProduct(p.value);
    reply := Saved(saved);
  }

  /** PATCH `/:id/active`: 404 for an unknown id; otherwise the first product
      with that id gets `active = Boolean(body.active)` and nothing else
      changes. */
  method PatchActive(store: Db.Store, id: string, active: Value) returns (reply: ActiveReply)
    modifies store
    ensures var (r, ps) := Db.SetActive(old(store.products), id, Truthy(active));
      store.products == ps && (if r.None? then reply == ProductNotFound else reply == Updated(r.value))
    ensures store.orders == old(store.orders)
  {
    var r := store.SetProductActive(id, Truthy(active));
    if r.None? {
      return ProductNotFound;
    }
    reply := Updated(r.value);
  }
}
