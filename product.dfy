/** `src/product/product.service.ts`: the products of the categories, with
    their toppings and side options. */
module Products {
  import opened Responses
  import opened Strings
  import opened Like
  import opened Entities
  import opened Tables
  import opened FileOperation

  const ProductExists := "Product already exists"
  const ProductNotFound := "Product not found"
  const CategoryNotFound := "Category not found"
  const ProductFolder := "product"

  /** An element of the DTO's nested `toppings` and `sideOption` arrays: a name
      and a price, and no image URL. */
  datatype NestedOption = NestedOption(name: string, price: real)

  /** `CreateProductDto`, after validation. An absent nested array is modelled
      as the empty one: neither inserts anything. */
  datatype ProductInput = ProductInput(
    name: string, price: real, description: string, tags: seq<string>, foodType: FoodType, categoryId: nat,
    toppings: seq<NestedOption>, sideOption: seq<NestedOption>)

  /** `UpdateProductDto`: every field but the category, each optional. */
  datatype ProductPatch = ProductPatch(
    name: Option<string>, price: Option<real>, description: Option<string>,
    tags: Option<seq<string>>, foodType: Option<FoodType>)

  /** One row of `findAll`: the six selected columns. */
  datatype ProductSummary = ProductSummary(
    id: nat, name: string, price: real, available: bool, foodType: FoodType, imageUrl: string)

  /** `create`'s lookup: a product of the same category whose name matches
      `%name%`, ignoring case. */
  predicate NameTakenInCategory(rows: map<nat, Product>, categoryId: nat, name: string)
  {
    exists id :: id in rows && rows[id].categoryId == categoryId && ILike(rows[id].name, ContainsPattern(name))
  }

  /** The row `create` saves: rating 0 and available by default. */
  function NewProduct(input: ProductInput, imageUrl: string): Product
  {
    Product(input.name, input.price, imageUrl, input.description, 0.0, input.tags, input.foodType, true, input.categoryId)
  }

  /** `repository.create` keeps only the entity's own properties: the DTO's
      `toppings` names no relation of `Product` (whose relation is `topping`),
      so the saved row is the same whatever that array holds. */
  lemma ToppingsAreDropped(input: ProductInput, toppings: seq<NestedOption>, imageUrl: string)
    ensures NewProduct(input.(toppings := toppings), imageUrl) == NewProduct(input, imageUrl)
    ensures NewProduct(input, imageUrl).imageUrl == imageUrl && NewProduct(input, imageUrl).rating == 0.0
  {
  }

  function MergeProduct(product: Product, patch: ProductPatch, imageUrl: string): Product
  {
    product.(name := if patch.name.Some? then patch.name.value else product.name,
             price := if patch.price.Some? then patch.price.value else product.price,
             description := if patch.description.Some? then patch.description.value else product.description,
             tags := if patch.tags.Some? then patch.tags.value else product.tags,
             foodType := if patch.foodType.Some? then patch.foodType.value else product.foodType,
             imageUrl := imageUrl)
  }

  /** The `where` clauses `findAll` builds: a category id of 0 and an empty
      query are falsy and add no clause. */
  predicate Selected(product: Product, categoryId: Option<nat>, query: Option<string>)
  {
    && (categoryId.Some? && categoryId.value != 0 ==> product.categoryId == categoryId.value)
    && (query.Some? && query.value != "" ==> ILike(product.name, ContainsPattern(query.value)))
  }

  function Summary(id: nat, product: Product): ProductSummary
  {
    ProductSummary(id, product.name, product.price, product.available, product.foodType, product.imageUrl)
  }

  /** The filter rules: no filter selects everything, a category alone selects
      that category, a query alone (without wildcards) the names containing it
      ignoring case, and both together the conjunction. */
  lemma FilterRules(product: Product, categoryId: nat, query: string)
    requires Literal(query)
    ensures Selected(product, None, None) && Selected(product, Some(0), Some(""))
    ensures categoryId != 0 ==> (Selected(product, Some(categoryId), None) <==> product.categoryId == categoryId)
    ensures query != "" ==> (Selected(product, None, Some(query)) <==> Contains(Lower(product.name), Lower(query)))
    ensures categoryId != 0 && query != "" ==>
      (Selected(product, Some(categoryId), Some(query)) <==> product.categoryId == categoryId && Contains(Lower(product.name), Lower(query)))
  {
    ILikeIsCaseInsensitiveSubstring(product.name, query);
  }

  /** The same name may be used in two categories, but not twice in one: a new
      row makes its own name taken in its category and changes nothing about
      any other category. */
  lemma NameTakenIsPerCategory(rows: map<nat, Product>, id: nat, product: Product, other: nat, name: string)
    requires Literal(product.name)
    ensures NameTakenInCategory(rows[id := product], product.categoryId, product.name)
    ensures id !in rows && other != product.categoryId ==>
      (NameTakenInCategory(rows[id := product], other, name) <==> NameTakenInCategory(rows, other, name))
  {
    MatchesOwnPattern(product.name);
    var rows' := rows[id := product];
    assert id in rows' && rows'[id].categoryId == product.categoryId;
    if id !in rows && other != product.categoryId {
      if NameTakenInCategory(rows', other, name) {
        var k :| k in rows' && rows'[k].categoryId == other && ILike(rows'[k].name, ContainsPattern(name));
        assert k != id && k in rows && rows[k] == rows'[k];
      }
      if NameTakenInCategory(rows, other, name) {
        var k :| k in rows && rows[k].categoryId == other && ILike(rows[k].name, ContainsPattern(name));
        assert k in rows' && rows'[k] == rows[k];
      }
    }
  }

  /** The image URLs `remove` deletes: the product's and those of its toppings
      and side options, which are loaded with it. */
  function ToppingImages(toppings: map<nat, Topping>, productId: nat): set<string>
  {
    set id | id in toppings && toppings[id].productId == productId :: toppings[id].imageUrl
  }

  function SideOptionImages(sideOptions: map<nat, SideOption>, productId: nat): set<string>
  {
    set id | id in sideOptions && sideOptions[id].productId == productId :: sideOptions[id].imageUrl
  }

  function AttachedImages(products: map<nat, Product>, toppings: map<nat, Topping>,
                          sideOptions: map<nat, SideOption>, id: nat): set<string>
    requires id in products
  {
    {products[id].imageUrl} + ToppingImages(toppings, id) + SideOptionImages(sideOptions, id)
  }

  class ProductService {
    const products: Table<Product>
    const categories: Table<Category>
    const toppings: Table<Topping>
    const sideOptions: Table<SideOption>
    const host: ImageHost

    ghost predicate Valid()
      reads this, products, toppings, sideOptions
    {
      products.Valid() && toppings.Valid() && sideOptions.Valid()
    }

    constructor (products: Table<Product>, categories: Table<Category>, toppings: Table<Topping>,
                 sideOptions: Table<SideOption>, host: ImageHost)
      ensures this.products == products && this.categories == categories && this.toppings == toppings
      ensures this.sideOptions == sideOptions && this.host == host
    {
      this.products := products;
      this.categories := categories;
      this.toppings := toppings;
      this.sideOptions := sideOptions;
      this.host := host;
    }

    /** `create`: the name check comes before the category check, and both
        before the upload. The DTO's `sideOption` array is the product's
        cascading `sideOption` relation, so `save` inserts its elements too;
        they carry no image URL, a NOT NULL column, and a non-empty array makes
        the save fail after the image is uploaded, with no row written. */
    method Create(input: ProductInput, file: MulterFile, version: nat) returns (r: Result<Product>)
      requires Valid()
      modifies products, host
      ensures Valid()
      ensures NameTakenInCategory(old(products.rows), input.categoryId, input.name) ==> r == Err(Conflict(ProductExists))
      ensures !NameTakenInCategory(old(products.rows), input.categoryId, input.name) && input.categoryId !in categories.rows ==>
        r == Err(NotFound(CategoryNotFound))
      ensures !NameTakenInCategory(old(products.rows), input.categoryId, input.name) && input.categoryId in categories.rows ==>
        host.assets == old(host.assets) + {AssetId(ProductFolder, file.originalName)}
      ensures (&& !NameTakenInCategory(old(products.rows), input.categoryId, input.name)
               && input.categoryId in categories.rows && input.sideOption != []) ==> r == Err(Failure(NotNullViolation))
      ensures r.Err? ==> products.rows == old(products.rows)
      ensures r.Err? && r.error != Failure(NotNullViolation) ==> host.assets == old(host.assets)
      ensures r.Ok? <==> (&& !NameTakenInCategory(old(products.rows), input.categoryId, input.name)
                          && input.categoryId in categories.rows && input.sideOption == [])
      ensures r.Ok? ==> r.value == NewProduct(input, DeliveryUrl(version, ProductFolder, file.originalName))
      ensures r.Ok? ==> old(products.next) !in old(products.rows) && products.rows == old(products.rows)[old(products.next) := r.value]
    {
      var existing := products.Find((p: Product) => p.categoryId == input.categoryId && ILike(p.name, ContainsPattern(input.name)));
      if existing.Some? {
        return Err(Conflict(ProductExists));
      }
      var category := categories.Get(input.categoryId);
      if category.None? {
        return Err(NotFound(CategoryNotFound));
      }
      var imageUrl := UploadFile(host, Some(file.originalName), ProductFolder, version);
      if input.sideOption != [] {
        return Err(Failure(NotNullViolation));
      }
      var product := NewProduct(input, imageUrl.value);
      var _ := products.Insert(product);
      r := Ok(product);
    }

    /** `findAll(categoryId, query)`: the summaries of the products the clauses
        select, in no particular order. */
    method FindAll(categoryId: Option<nat>, query: Option<string>) returns (found: set<ProductSummary>)
      ensures forall s :: s in found <==> s.id in products.rows && Selected(products.rows[s.id], categoryId, query)
                                          && s == Summary(s.id, products.rows[s.id])
    {
      var byCategory := categoryId.Some? && categoryId.value != 0;
      var byName := query.Some? && query.value != "";
      var keep: Product -> bool := (p: Product) => true;
      if byCategory {
        keep := (p: Product) => p.categoryId == categoryId.value;
      }
      if byName {
        if byCategory {
          keep := (p: Product) => p.categoryId == categoryId.value && ILike(p.name, ContainsPattern(query.value));
        } else {
          keep := (p: Product) => ILike(p.name, ContainsPattern(query.value));
        }
      }
      assert forall p :: keep(p) == Selected(p, categoryId, query);
      found := set id | id in products.rows && keep(products.rows[id]) :: Summary(id, products.rows[id]);
    }

    method FindOne(id: nat) returns (r: Result<Product>)
      ensures r.Ok? <==> id in products.rows
      ensures r.Ok? ==> r.value == products.rows[id]
      ensures r.Err? ==> r.error == NotFound(ProductNotFound)
    {
      var product := products.Get(id);
      if product.None? {
        return Err(NotFound(ProductNotFound));
      }
      r := Ok(product.value);
    }

    /** `update`: with a file, the old image is deleted (with no check that
        there is one) and the new one uploaded; only that row changes. */
    method Update(id: nat, patch: ProductPatch, file: Option<MulterFile>, version: nat) returns (r: Result<Product>)
      requires Valid()
      modifies products, host
      ensures Valid() && products.next == old(products.next)
      ensures id !in old(products.rows) ==> r == Err(NotFound(ProductNotFound))
      ensures id !in old(products.rows) || file.None? ==> host.assets == old(host.assets)
      ensures r.Err? ==> products.rows == old(products.rows)
      ensures id in old(products.rows) && file.Some? ==>
        var (image, assets) := Replacement(old(host.assets), old(products.rows)[id].imageUrl, false, Some(file.value.originalName), ProductFolder, version);
        host.assets == assets && (r.Err? <==> image.Err?) && (r.Ok? ==> r.value.imageUrl == image.value)
      ensures id in old(products.rows) && file.None? ==> r.Ok? && r.value.imageUrl == old(products.rows)[id].imageUrl
      ensures r.Ok? ==> id in old(products.rows) && r.value == MergeProduct(old(products.rows)[id], patch, r.value.imageUrl)
      ensures r.Ok? ==> products.rows == old(products.rows)[id := r.value]
    {
      var product := products.Get(id);
      if product.None? {
        return Err(NotFound(ProductNotFound));
      }
      var imageUrl := product.value.imageUrl;
      if file.Some? {
        var uploaded := ReplaceFile(host, imageUrl, false, Some(file.value.originalName), ProductFolder, version);
        if uploaded.Err? {
          return Err(uploaded.error);
        }
        imageUrl := uploaded.value;
      }
      var updated := MergeProduct(product.value, patch, imageUrl);
      products.Put(id, updated);
      r := Ok(updated);
    }

    /** Lines 162-176 of `remove`: the three deletion steps. */
    method DeleteAttachedImages(id: nat) returns (r: Result<()>)
      requires id in products.rows
      modifies host
      ensures r.Ok? <==> Deletable(AttachedImages(products.rows, toppings.rows, sideOptions.rows, id))
      ensures r.Err? ==> r.error == Failure(DeleteFailed)
      ensures r.Ok? ==> host.assets == old(host.assets) - PublicIds(AttachedImages(products.rows, toppings.rows, sideOptions.rows, id))
      ensures r.Err? ==>
        old(host.assets) - PublicIds(AttachedImages(products.rows, toppings.rows, sideOptions.rows, id)) <= host.assets <= old(host.assets)
    {
      var own := {products.rows[id].imageUrl};
      var ofToppings := ToppingImages(toppings.rows, id);
      var ofSideOptions := SideOptionImages(sideOptions.rows, id);
      PublicIdsUnion(own, ofToppings);
      PublicIdsUnion(own + ofToppings, ofSideOptions);
      ghost var assets0 := host.assets;
      var ownDeleted := DeleteImages(host, own);
      if ownDeleted.Err? {
        PublicIdsGrow(own, own + ofToppings + ofSideOptions);
        return Err(ownDeleted.error);
      }
      ghost var assets1 := host.assets;
      var toppingsDeleted := DeleteImages(host, ofToppings);
      DeletionRounds(assets0, assets1, host.assets, own, ofToppings);
      if toppingsDeleted.Err? {
        PublicIdsGrow(own + ofToppings, own + ofToppings + ofSideOptions);
        return Err(toppingsDeleted.error);
      }
      ghost var assets2 := host.assets;
      var sidesDeleted := DeleteImages(host, ofSideOptions);
      DeletionRounds(assets0, assets2, host.assets, own + ofToppings, ofSideOptions);
      if sidesDeleted.Err? {
        return Err(sidesDeleted.error);
      }
      r := Ok(());
    }

    /** `remove`: the product's image, then those of its toppings, then those
        of its side options are deleted, each only if set; the first failure
        stops the call with the rows intact. The product row goes last, and the
        database cascades to its toppings and side options. */
    method Remove(id: nat) returns (r: Result<()>)
      requires Valid()
      modifies products, toppings, sideOptions, host
      ensures Valid()
      ensures id !in old(products.rows) ==> r == Err(NotFound(ProductNotFound)) && host.assets == old(host.assets)
      ensures r.Ok? <==> id in old(products.rows) && Deletable(AttachedImages(old(products.rows), old(toppings.rows), old(sideOptions.rows), id))
      ensures r.Ok? ==> host.assets == old(host.assets) - PublicIds(AttachedImages(old(products.rows), old(toppings.rows), old(sideOptions.rows), id))
      ensures r.Ok? ==> products.rows == old(products.rows) - {id}
      ensures r.Ok? ==> toppings.rows == Where(old(toppings.rows), (t: Topping) => t.productId != id)
      ensures r.Ok? ==> sideOptions.rows == Where(old(sideOptions.rows), (s: SideOption) => s.productId != id)
      ensures r.Err? ==> products.rows == old(products.rows) && toppings.rows == old(toppings.rows)
      ensures r.Err? ==> sideOptions.rows == old(sideOptions.rows)
      ensures r.Err? && id in old(products.rows) ==> r.error == Failure(DeleteFailed)
      ensures r.Err? && id in old(products.rows) ==>
        old(host.assets) - PublicIds(AttachedImages(old(products.rows), old(toppings.rows), old(sideOptions.rows), id)) <= host.assets <= old(host.assets)
    {
      var product := products.Get(id);
      if product.None? {
        return Err(NotFound(ProductNotFound));
      }
      var deleted := DeleteAttachedImages(id);
      if deleted.Err? {
        return Err(deleted.error);
      }
      products.Delete(id);
      toppings.DeleteWhere((t: Topping) => t.productId != id);
      sideOptions.DeleteWhere((s: SideOption) => s.productId != id);
      r := Ok(());
    }
  }
}
