/** `src/category/category.service.ts`: the product categories. */
module Categories {
  import opened Responses
  import opened Strings
  import opened Like
  import opened Entities
  import opened Tables

  const CategoryExists := "Category already exists"
  const CategoryNotFound := "Category not found"

  /** The `create` lookup `name: ILike('%' + name + '%')` finds a row. */
  predicate NameTaken(rows: map<nat, Category>, name: string)
  {
    exists id :: id in rows && ILike(rows[id].name, ContainsPattern(name))
  }

  /** For a name without wildcards, the lookup finds exactly the categories
      whose name contains it, ignoring case. */
  lemma NameTakenMeansContained(rows: map<nat, Category>, name: string)
    requires Literal(name)
    ensures NameTaken(rows, name) <==> exists id :: id in rows && Contains(Lower(rows[id].name), Lower(name))
  {
    forall id | id in rows
      ensures ILike(rows[id].name, ContainsPattern(name)) <==> Contains(Lower(rows[id].name), Lower(name))
    {
      ILikeIsCaseInsensitiveSubstring(rows[id].name, name);
    }
  }

  /** Once a category is created, a second one with the same name is refused. */
  lemma NoSecondCategory(rows: map<nat, Category>, id: nat, name: string)
    requires Literal(name)
    ensures NameTaken(rows[id := Category(name)], name)
  {
    MatchesOwnPattern(name);
    var rows' := rows[id := Category(name)];
    assert id in rows' && ILike(rows'[id].name, ContainsPattern(name));
  }

  /** A new name `_` is refused as soon as any category has a non-empty name,
      since `_` is a wildcard for one character. */
  lemma UnderscoreNameBlocked(rows: map<nat, Category>, id: nat)
    requires id in rows && rows[id].name != ""
    ensures NameTaken(rows, "_")
  {
    UnderscoreNameMatchesEveryNonEmpty(rows[id].name);
  }

  class CategoryService {
    const categories: Table<Category>

    constructor (categories: Table<Category>)
      ensures this.categories == categories
    {
      this.categories := categories;
    }

    /** `create`: refused when an existing name contains the new one; otherwise
        exactly one row with that name is added. */
    method Create(name: string) returns (r: Result<Category>)
      requires categories.Valid()
      modifies categories
      ensures categories.Valid()
      ensures r.Err? <==> NameTaken(old(categories.rows), name)
      ensures r.Err? ==> r.error == Conflict(CategoryExists) && categories.rows == old(categories.rows)
      ensures r.Ok? ==> r.value == Category(name) && old(categories.next) !in old(categories.rows)
      ensures r.Ok? ==> categories.rows == old(categories.rows)[old(categories.next) := Category(name)]
    {
      var existing := categories.Find((c: Category) => ILike(c.name, ContainsPattern(name)));
      if existing.Some? {
        return Err(Conflict(CategoryExists));
      }
      var _ := categories.Insert(Category(name));
      r := Ok(Category(name));
    }

    /** `findAll`: every category. */
    method FindAll() returns (all: map<nat, Category>)
      ensures all == categories.rows
    {
      all := categories.rows;
    }

    /** `update`: only the row with that id changes, with no conflict check. A
        request without a name sets no column, which TypeORM refuses. */
    method Update(id: nat, name: Option<string>) returns (r: Result<Category>)
      requires categories.Valid()
      modifies categories
      ensures categories.Valid() && categories.next == old(categories.next)
      ensures id !in old(categories.rows) ==> r == Err(NotFound(CategoryNotFound))
      ensures id in old(categories.rows) && name.None? ==> r == Err(Failure(UpdateValuesMissing))
      ensures r.Err? ==> categories.rows == old(categories.rows)
      ensures r.Ok? <==> id in old(categories.rows) && name.Some?
      ensures r.Ok? ==> r.value == Category(name.value) && categories.rows == old(categories.rows)[id := r.value]
    {
      var category := categories.Get(id);
      if category.None? {
        return Err(NotFound(CategoryNotFound));
      }
      if name.None? {
        return Err(Failure(UpdateValuesMissing));
      }
      categories.Put(id, Category(name.value));
      r := Ok(Category(name.value));
    }
  }
}
