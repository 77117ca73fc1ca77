/** `src/side-option/side-option.service.ts`: the side options offered with a
    product. */
module SideOptions {
  import opened Responses
  import opened Strings
  import opened Like
  import opened Entities
  import opened Tables
  import opened FileOperation

  const SideOptionExists := "Side option already exists"
  const SideOptionNotFound := "Side option not found"
  const ProductNotFound := "Product not found"
  const SideOptionFolder := "side-option"

  /** `CreateSideOptionDto`, after validation. */
  datatype SideOptionInput = SideOptionInput(name: string, price: real)

  /** `UpdateSideOptionDto`: every field optional. */
  datatype SideOptionPatch = SideOptionPatch(name: Option<string>, price: Option<real>)

  /** One row of `findAll`: the five selected columns. */
  datatype SideOptionSummary = SideOptionSummary(id: nat, name: string, price: real, available: bool, imageUrl: string)

  /** `create`'s lookup: an option of the same product whose name matches
      `%name%`, ignoring case. */
  predicate NameTakenForProduct(rows: map<nat, SideOption>, productId: nat, name: string)
  {
    exists id :: id in rows && rows[id].productId == productId && ILike(rows[id].name, ContainsPattern(name))
  }

  /** For a name without wildcards, the lookup finds exactly the options of
      that product whose name contains it, ignoring case. */
  lemma NameTakenMeansContained(rows: map<nat, SideOption>, productId: nat, name: string)
    requires Literal(name)
    ensures NameTakenForProduct(rows, productId, name)
        <==> exists id :: id in rows && rows[id].productId == productId && Contains(Lower(rows[id].name), Lower(name))
  {
    forall id | id in rows
      ensures ILike(rows[id].name, ContainsPattern(name)) <==> Contains(Lower(rows[id].name), Lower(name))
    {
      ILikeIsCaseInsensitiveSubstring(rows[id].name, name);
    }
  }

  function MergeSideOption(option: SideOption, patch: SideOptionPatch, imageUrl: string): SideOption
  {
    option.(name := if patch.name.Some? then patch.name.value else option.name,
            price := if patch.price.Some? then patch.price.value else option.price,
            imageUrl := imageUrl)
  }

  function Summary(id: nat, option: SideOption): SideOptionSummary
  {
    SideOptionSummary(id, option.name, option.price, option.available, option.imageUrl)
  }

  class SideOptionService {
    const sideOptions: Table<SideOption>
    const products: Table<Product>
    const host: ImageHost

    constructor (sideOptions: Table<SideOption>, products: Table<Product>, host: ImageHost)
      ensures this.sideOptions == sideOptions && this.products == products && this.host == host
    {
      this.sideOptions := sideOptions;
      this.products := products;
      this.host := host;
    }

    /** `create(productId, dto, file)`: the name check comes before the product
        check, and both before the upload. */
    method Create(productId: nat, input: SideOptionInput, file: MulterFile, version: nat) returns (r: Result<SideOption>)
      requires sideOptions.Valid()
      modifies sideOptions, host
      ensures sideOptions.Valid()
      ensures NameTakenForProduct(old(sideOptions.rows), productId, input.name) ==> r == Err(Conflict(SideOptionExists))
      ensures !NameTakenForProduct(old(sideOptions.rows), productId, input.name) && productId !in products.rows ==>
        r == Err(NotFound(ProductNotFound))
      ensures r.Err? ==> sideOptions.rows == old(sideOptions.rows) && host.assets == old(host.assets)
      ensures r.Ok? <==> !NameTakenForProduct(old(sideOptions.rows), productId, input.name) && productId in products.rows
      ensures r.Ok? ==> r.value == SideOption(input.name, input.price, DeliveryUrl(version, SideOptionFolder, file.originalName), true, productId)
      ensures r.Ok? ==> old(sideOptions.next) !in old(sideOptions.rows) && sideOptions.rows == old(sideOptions.rows)[old(sideOptions.next) := r.value]
      ensures r.Ok? ==> host.assets == old(host.assets) + {AssetId(SideOptionFolder, file.originalName)}
    {
      var existing := sideOptions.Find((s: SideOption) => s.productId == productId && ILike(s.name, ContainsPattern(input.name)));
      if existing.Some? {
        return Err(Conflict(SideOptionExists));
      }
      var product := products.Get(productId);
      if product.None? {
        return Err(NotFound(ProductNotFound));
      }
      var imageUrl := UploadFile(host, Some(file.originalName), SideOptionFolder, version);
      var option := SideOption(input.name, input.price, imageUrl.value, true, productId);
      var _ := sideOptions.Insert(option);
      r := Ok(option);
    }

    /** `findAll(productId)`: the summaries of exactly that product's sideOptions. */
    method FindAll(productId: nat) returns (found: set<SideOptionSummary>)
      ensures forall s :: s in found <==> s.id in sideOptions.rows && sideOptions.rows[s.id].productId == productId
                                          && s == Summary(s.id, sideOptions.rows[s.id])
    {
      found := set id | id in sideOptions.rows && sideOptions.rows[id].productId == productId :: Summary(id, sideOptions.rows[id]);
    }

    method FindOne(id: nat) returns (r: Result<SideOption>)
      ensures r.Ok? <==> id in sideOptions.rows
      ensures r.Ok? ==> r.value == sideOptions.rows[id]
      ensures r.Err? ==> r.error == NotFound(SideOptionNotFound)
    {
      var option := sideOptions.Get(id);
      if option.None? {
        return Err(NotFound(SideOptionNotFound));
      }
      r := Ok(option.value);
    }

    /** `update`: with a file, the old image is deleted (with no check that
        there is one) and the new one uploaded; only that row changes. */
    method Update(id: nat, patch: SideOptionPatch, file: Option<MulterFile>, version: nat) returns (r: Result<SideOption>)
      requires sideOptions.Valid()
      modifies sideOptions, host
      ensures sideOptions.Valid() && sideOptions.next == old(sideOptions.next)
      ensures id !in old(sideOptions.rows) ==> r == Err(NotFound(SideOptionNotFound))
      ensures id !in old(sideOptions.rows) || file.None? ==> host.assets == old(host.assets)
      ensures r.Err? ==> sideOptions.rows == old(sideOptions.rows)
      ensures id in old(sideOptions.rows) && file.Some? ==>
        var (image, assets) := Replacement(old(host.assets), old(sideOptions.rows)[id].imageUrl, false, Some(file.value.originalName), SideOptionFolder, version);
        host.assets == assets && (r.Err? <==> image.Err?) && (r.Ok? ==> r.value.imageUrl == image.value)
      ensures id in old(sideOptions.rows) && file.None? ==> r.Ok? && r.value.imageUrl == old(sideOptions.rows)[id].imageUrl
      ensures r.Ok? ==> id in old(sideOptions.rows) && r.value == MergeSideOption(old(sideOptions.rows)[id], patch, r.value.imageUrl)
      ensures r.Ok? ==> sideOptions.rows == old(sideOptions.rows)[id := r.value]
    {
      var option := sideOptions.Get(id);
      if option.None? {
        return Err(NotFound(SideOptionNotFound));
      }
      var imageUrl := option.value.imageUrl;
      if file.Some? {
        var uploaded := ReplaceFile(host, imageUrl, false, Some(file.value.originalName), SideOptionFolder, version);
        if uploaded.Err? {
          return Err(uploaded.error);
        }
        imageUrl := uploaded.value;
      }
      var updated := MergeSideOption(option.value, patch, imageUrl);
      sideOptions.Put(id, updated);
      r := Ok(updated);
    }

    /** `remove`: the image is deleted if there is one, then exactly that row. */
    method Remove(id: nat) returns (r: Result<()>)
      requires sideOptions.Valid()
      modifies sideOptions, host
      ensures sideOptions.Valid() && sideOptions.next == old(sideOptions.next)
      ensures id !in old(sideOptions.rows) ==> r == Err(NotFound(SideOptionNotFound)) && host.assets == old(host.assets)
      ensures id in old(sideOptions.rows) && old(sideOptions.rows)[id].imageUrl == "" ==> r.Ok? && host.assets == old(host.assets)
      ensures id in old(sideOptions.rows) && old(sideOptions.rows)[id].imageUrl != "" ==>
        r == DeleteResult(old(sideOptions.rows)[id].imageUrl) && host.assets == Destroyed(old(host.assets), old(sideOptions.rows)[id].imageUrl)
      ensures r.Ok? ==> sideOptions.rows == old(sideOptions.rows) - {id}
      ensures r.Err? ==> sideOptions.rows == old(sideOptions.rows)
    {
      var option := sideOptions.Get(id);
      if option.None? {
        return Err(NotFound(SideOptionNotFound));
      }
      if option.value.imageUrl != "" {
        var deleted := DeleteFile(host, option.value.imageUrl);
        if deleted.Err? {
          return Err(deleted.error);
        }
      }
      sideOptions.Delete(id);
      r := Ok(());
    }
  }
}
