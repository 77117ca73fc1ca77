/** `src/topping/topping.service.ts`: the toppings offered with a product. */
module Toppings {
  import opened Responses
  import opened Strings
  import opened Like
  import opened Entities
  import opened Tables
  import opened FileOperation

  const ToppingExists := "Topping already exists"
  const ToppingNotFound := "Topping not found"
  const ProductNotFound := "Product not found"
  const ToppingFolder := "topping"

  /** `CreateToppingDto`, after validation. */
  datatype ToppingInput = ToppingInput(name: string, price: real)

  /** `UpdateToppingDto`: every field optional. */
  datatype ToppingPatch = ToppingPatch(name: Option<string>, price: Option<real>)

  /** One row of `findAll`: the five selected columns. */
  datatype ToppingSummary = ToppingSummary(id: nat, name: string, price: real, available: bool, imageUrl: string)

  /** `create`'s lookup: a topping of the same product whose name matches
      `%name%`, ignoring case. */
  predicate NameTakenForProduct(rows: map<nat, Topping>, productId: nat, name: string)
  {
    exists id :: id in rows && rows[id].productId == productId && ILike(rows[id].name, ContainsPattern(name))
  }

  /** For a name without wildcards, the lookup finds exactly the toppings of
      that product whose name contains it, ignoring case. */
  lemma NameTakenMeansContained(rows: map<nat, Topping>, productId: nat, name: string)
    requires Literal(name)
    ensures NameTakenForProduct(rows, productId, name)
        <==> exists id :: id in rows && rows[id].productId == productId && Contains(Lower(rows[id].name), Lower(name))
  {
    forall id | id in rows
      ensures ILike(rows[id].name, ContainsPattern(name)) <==> Contains(Lower(rows[id].name), Lower(name))
    {
      ILikeIsCaseInsensitiveSubstring(rows[id].name, name);
    }
  }

  function MergeTopping(topping: Topping, patch: ToppingPatch, imageUrl: string): Topping
  {
    topping.(name := if patch.name.Some? then patch.name.value else topping.name,
             price := if patch.price.Some? then patch.price.value else topping.price,
             imageUrl := imageUrl)
  }

  function Summary(id: nat, topping: Topping): ToppingSummary
  {
    ToppingSummary(id, topping.name, topping.price, topping.available, topping.imageUrl)
  }

  class ToppingService {
    const toppings: Table<Topping>
    const products: Table<Product>
    const host: ImageHost

    constructor (toppings: Table<Topping>, products: Table<Product>, host: ImageHost)
      ensures this.toppings == toppings && this.products == products && this.host == host
    {
      this.toppings := toppings;
      this.products := products;
      this.host := host;
    }

    /** `create(productId, dto, file)`: the name check comes before the product
        check, and both before the upload. */
    method Create(productId: nat, input: ToppingInput, file: MulterFile, version: nat) returns (r: Result<Topping>)
      requires toppings.Valid()
      modifies toppings, host
      ensures toppings.Valid()
      ensures NameTakenForProduct(old(toppings.rows), productId, input.name) ==> r == Err(Conflict(ToppingExists))
      ensures !NameTakenForProduct(old(toppings.rows), productId, input.name) && productId !in products.rows ==>
        r == Err(NotFound(ProductNotFound))
      ensures r.Err? ==> toppings.rows == old(toppings.rows) && host.assets == old(host.assets)
      ensures r.Ok? <==> !NameTakenForProduct(old(toppings.rows), productId, input.name) && productId in products.rows
      ensures r.Ok? ==> r.value == Topping(input.name, input.price, DeliveryUrl(version, ToppingFolder, file.originalName), true, productId)
      ensures r.Ok? ==> old(toppings.next) !in old(toppings.rows) && toppings.rows == old(toppings.rows)[old(toppings.next) := r.value]
      ensures r.Ok? ==> host.assets == old(host.assets) + {AssetId(ToppingFolder, file.originalName)}
    {
      var existing := toppings.Find((t: Topping) => t.productId == productId && ILike(t.name, ContainsPattern(input.name)));
      if existing.Some? {
        return Err(Conflict(ToppingExists));
      }
      var product := products.Get(productId);
      if product.None? {
        return Err(NotFound(ProductNotFound));
      }
      var imageUrl := UploadFile(host, Some(file.originalName), ToppingFolder, version);
      var topping := Topping(input.name, input.price, imageUrl.value, true, productId);
      var _ := toppings.Insert(topping);
      r := Ok(topping);
    }

    /** `findAll(productId)`: the summaries of exactly that product's toppings. */
    method FindAll(productId: nat) returns (found: set<ToppingSummary>)
      ensures forall s :: s in found <==> s.id in toppings.rows && toppings.rows[s.id].productId == productId
                                          && s == Summary(s.id, toppings.rows[s.id])
    {
      found := set id | id in toppings.rows && toppings.rows[id].productId == productId :: Summary(id, toppings.rows[id]);
    }

    method FindOne(id: nat) returns (r: Result<Topping>)
      ensures r.Ok? <==> id in toppings.rows
      ensures r.Ok? ==> r.value == toppings.rows[id]
      ensures r.Err? ==> r.error == NotFound(ToppingNotFound)
    {
      var topping := toppings.Get(id);
      if topping.None? {
        return Err(NotFound(ToppingNotFound));
      }
      r := Ok(topping.value);
    }

    /** `update`: with a file, the old image is deleted (with no check that
        there is one) and the new one uploaded; only that row changes. */
    method Update(id: nat, patch: ToppingPatch, file: Option<MulterFile>, version: nat) returns (r: Result<Topping>)
      requires toppings.Valid()
      modifies toppings, host
      ensures toppings.Valid() && toppings.next == old(toppings.next)
      ensures id !in old(toppings.rows) ==> r == Err(NotFound(ToppingNotFound))
      ensures id !in old(toppings.rows) || file.None? ==> host.assets == old(host.assets)
      ensures r.Err? ==> toppings.rows == old(toppings.rows)
      ensures id in old(toppings.rows) && file.Some? ==>
        var (image, assets) := Replacement(old(host.assets), old(toppings.rows)[id].imageUrl, false, Some(file.value.originalName), ToppingFolder, version);
        host.assets == assets && (r.Err? <==> image.Err?) && (r.Ok? ==> r.value.imageUrl == image.value)
      ensures id in old(toppings.rows) && file.None? ==> r.Ok? && r.value.imageUrl == old(toppings.rows)[id].imageUrl
      ensures r.Ok? ==> id in old(toppings.rows) && r.value == MergeTopping(old(toppings.rows)[id], patch, r.value.imageUrl)
      ensures r.Ok? ==> toppings.rows == old(toppings.rows)[id := r.value]
    {
      var topping := toppings.Get(id);
      if topping.None? {
        return Err(NotFound(ToppingNotFound));
      }
      var imageUrl := topping.value.imageUrl;
      if file.Some? {
        var uploaded := ReplaceFile(host, imageUrl, false, Some(file.value.originalName), ToppingFolder, version);
        if uploaded.Err? {
          return Err(uploaded.error);
        }
        imageUrl := uploaded.value;
      }
      var updated := MergeTopping(topping.value, patch, imageUrl);
      toppings.Put(id, updated);
      r := Ok(updated);
    }

    /** `remove`: the image is deleted if there is one, then exactly that row. */
    method Remove(id: nat) returns (r: Result<()>)
      requires toppings.Valid()
      modifies toppings, host
      ensures toppings.Valid() && toppings.next == old(toppings.next)
      ensures id !in old(toppings.rows) ==> r == Err(NotFound(ToppingNotFound)) && host.assets == old(host.assets)
      ensures id in old(toppings.rows) && old(toppings.rows)[id].imageUrl == "" ==> r.Ok? && host.assets == old(host.assets)
      ensures id in old(toppings.rows) && old(toppings.rows)[id].imageUrl != "" ==>
        r == DeleteResult(old(toppings.rows)[id].imageUrl) && host.assets == Destroyed(old(host.assets), old(toppings.rows)[id].imageUrl)
      ensures r.Ok? ==> toppings.rows == old(toppings.rows) - {id}
      ensures r.Err? ==> toppings.rows == old(toppings.rows)
    {
      var topping := toppings.Get(id);
      if topping.None? {
        return Err(NotFound(ToppingNotFound));
      }
      if topping.value.imageUrl != "" {
        var deleted := DeleteFile(host, topping.value.imageUrl);
        if deleted.Err? {
          return Err(deleted.error);
        }
      }
      toppings.Delete(id);
      r := Ok(());
    }
  }
}
