/** `CategoryRepository`: the category table, the slug/name filter and the linked-products test. */
module CategoryStore {
  import opened Outcomes
  import opened ProductStore

  datatype Category = Category(id: string, name: string, description: Option<string>, slug: string)

  /** A case-insensitive substring clause. */
  datatype Contains = Contains(text: string)

  /** The where-record of `buildSlugOrNameFilter`; None is an absent key. */
  datatype SlugOrNameWhere = SlugOrNameWhere(slug: Option<Contains>, name: Option<Contains>)

  /** `buildSlugOrNameFilter`: a case-insensitive `contains` clause for the slug when it is truthy
      and for the name when it is truthy. */
  function BuildSlugOrNameFilter(slug: Option<string>, name: Option<string>): (w: SlugOrNameWhere)
    ensures w.slug.Some? <==> Truthy(slug)
    ensures w.slug.Some? ==> w.slug.value == Contains(slug.value)
    ensures w.name.Some? <==> Truthy(name)
    ensures w.name.Some? ==> w.name.value == Contains(name.value)
  {
    SlugOrNameWhere(if Truthy(slug) then Some(Contains(slug.value)) else None,
                    if Truthy(name) then Some(Contains(name.value)) else None)
  }

  const DefaultSkip: int := 0
  const DefaultTake: int := 10

  /** The `findMany` of a category listing: where, skip and take (ordered by name, ascending). */
  datatype CategoryFindMany = CategoryFindMany(where: SlugOrNameWhere, skip: int, take: int)

  /** `findBySlugOrName`: the filtered page query; skip defaults to 0 and take to 10. */
  function FindBySlugOrName(slug: Option<string>, name: Option<string>, skip: Option<int>, take: Option<int>)
    : (q: CategoryFindMany)
    ensures q.where == BuildSlugOrNameFilter(slug, name)
    ensures q.skip == (if skip.Some? then skip.value else 0)
    ensures q.take == (if take.Some? then take.value else 10)
  {
    CategoryFindMany(BuildSlugOrNameFilter(slug, name),
                     if skip.Some? then skip.value else DefaultSkip,
                     if take.Some? then take.value else DefaultTake)
  }

  /** `countBySlugOrName`: the where-record of the count. */
  function CountBySlugOrName(slug: Option<string>, name: Option<string>): (w: SlugOrNameWhere)
    ensures w.slug.Some? <==> Truthy(slug)
    ensures w.slug.Some? ==> w.slug.value == Contains(slug.value)
    ensures w.name.Some? <==> Truthy(name)
    ensures w.name.Some? ==> w.name.value == Contains(name.value)
  {
    BuildSlugOrNameFilter(slug, name)
  }

  /** The listing and the count filter identically for the same slug and name. */
  lemma ListAndCountShareFilter(slug: Option<string>, name: Option<string>, skip: Option<int>, take: Option<int>)
    ensures FindBySlugOrName(slug, name, skip, take).where == CountBySlugOrName(slug, name)
  {
  }

  /** Ids of the products linked to category `id`. */
  function LinkedProducts(products: map<string, Product>, id: string): set<string> {
    set pid | pid in products && products[pid].categoryId == id
  }

  /** The update DTO's fields plus an optional slug: None leaves a column as it is. */
  datatype CategoryUpdate = CategoryUpdate(name: Option<string>, description: Option<string>, slug: Option<string>)

  function ApplyCategoryUpdate(c: Category, u: CategoryUpdate): (d: Category)
    ensures d.id == c.id
    ensures u == CategoryUpdate(None, None, None) ==> d == c
  {
    Category(c.id, if u.name.Some? then u.name.value else c.name,
             if u.description.Some? then u.description else c.description,
             if u.slug.Some? then u.slug.value else c.slug)
  }

  /** Applying the same category update twice is applying it once. */
  lemma ApplyCategoryUpdateIdempotent(c: Category, u: CategoryUpdate)
    ensures ApplyCategoryUpdate(ApplyCategoryUpdate(c, u), u) == ApplyCategoryUpdate(c, u)
  {
  }

  class CategoryRepository {
    var rows: map<string, Category>
    /** The product table, over which the category's product count is taken. */
    const products: ProductRepository

    ghost predicate Valid()
      reads this
    {
      forall id :: id in rows ==> rows[id].id == id
    }

    constructor (products: ProductRepository)
      ensures Valid() && rows == map[] && this.products == products
    {
      rows := map[];
      this.products := products;
    }

    /** `create`: one new row with exactly these fields. */
    method Create(id: string, name: string, description: Option<string>, slug: string) returns (c: Category)
      requires Valid() && id !in rows
      modifies this
      ensures Valid()
      ensures c == Category(id, name, description, slug) && rows == old(rows)[id := c]
    {
      c := Category(id, name, description, slug);
      rows := rows[id := c];
    }

    function FindById(id: string): (r: Option<Category>)
      reads this
      ensures r.Some? <==> id in rows
      ensures r.Some? ==> r.value == rows[id]
    {
      if id in rows then Some(rows[id]) else None
    }

    /** `update`: that row with the update applied; None when it does not exist (the store throws). */
    method Update(id: string, data: CategoryUpdate) returns (r: Option<Category>)
      requires Valid()
      modifies this
      ensures Valid()
      ensures id !in old(rows) ==> r.None? && rows == old(rows)
      ensures id in old(rows) ==> r == Some(ApplyCategoryUpdate(old(rows)[id], data)) && rows == old(rows)[id := r.value]
    {
      if id !in rows {
        return None;
      }
      var updated := ApplyCategoryUpdate(rows[id], data);
      rows := rows[id := updated];
      r := Some(updated);
    }

    /** `delete`: removes that row only; None when there was none. */
    method Delete(id: string) returns (r: Option<Category>)
      requires Valid()
      modifies this
      ensures Valid()
      ensures rows == old(rows) - {id}
      ensures r == (if id in old(rows) then Some(old(rows)[id]) else None)
    {
      r := if id in rows then Some(rows[id]) else None;
      rows := rows - {id};
    }

    /** `hasProducts`: false for an unknown category, otherwise whether its product count is
        positive, which is whether some product names it. */
    function HasProducts(id: string): (b: bool)
      reads this, products
      ensures id !in rows ==> !b
      ensures b <==> id in rows && exists pid :: pid in products.rows && products.rows[pid].categoryId == id
    {
      if id !in rows then false
      else
        var count := |LinkedProducts(products.rows, id)|;
        LinkedCountPositiveIffLinked(products.rows, id);
        count > 0
    }
  }

  /** The product count of a category is positive exactly when some product names it. */
  lemma LinkedCountPositiveIffLinked(products: map<string, Product>, id: string)
    ensures |LinkedProducts(products, id)| > 0 <==> exists pid :: pid in products && products[pid].categoryId == id
  {
    var linked := LinkedProducts(products, id);
    if |linked| > 0 {
      var pid :| pid in linked;
    } else if exists pid :: pid in products && products[pid].categoryId == id {
      var pid :| pid in products && products[pid].categoryId == id;
      assert pid in linked;
    }
  }
}
