/** `ProductRepository`: the product table and the where-record `buildProductWhere` assembles
    for listing. How the database evaluates a where-record is not modelled; the listing is
    represented by the queries it issues. Prices are integers (minor currency units). */
module ProductStore {
  import opened Outcomes

  datatype Product = Product(id: string, name: string, description: Option<string>, price: int,
                             stock: int, categoryId: string, imageFileId: Option<string>)

  /** The filters `findAndCount` receives. */
  datatype ProductFilters = ProductFilters(categoryId: Option<string>, minPrice: Option<int>, maxPrice: Option<int>)

  /** The `price` clause: an optional lower and an optional upper bound. */
  datatype PriceFilter = PriceFilter(gte: Option<int>, lte: Option<int>)

  /** `Prisma.ProductWhereInput` as `buildProductWhere` fills it; None is an absent key. */
  datatype ProductWhere = ProductWhere(categoryId: Option<string>, price: Option<PriceFilter>)

  /** `buildProductWhere`: `categoryId` when it is truthy; a `price` clause when either bound is
      defined, with `gte` and `lte` each set exactly when its bound is defined (0 included). */
  function BuildProductWhere(f: ProductFilters): (w: ProductWhere)
    ensures w.categoryId.Some? <==> Truthy(f.categoryId)
    ensures w.categoryId.Some? ==> w.categoryId == f.categoryId
    ensures w.price.Some? <==> f.minPrice.Some? || f.maxPrice.Some?
    ensures w.price.Some? ==> w.price.value.gte == f.minPrice && w.price.value.lte == f.maxPrice
  {
    var categoryId := if Truthy(f.categoryId) then f.categoryId else None;
    var price :=
      if f.minPrice.Some? || f.maxPrice.Some? then
        Some(PriceFilter(if f.minPrice.Some? then f.minPrice else None,
                         if f.maxPrice.Some? then f.maxPrice else None))
      else None;
    ProductWhere(categoryId, price)
  }

  /** The filters a where-record stands for. */
  function FiltersOf(w: ProductWhere): ProductFilters {
    ProductFilters(w.categoryId,
                   if w.price.Some? then w.price.value.gte else None,
                   if w.price.Some? then w.price.value.lte else None)
  }

  /** A where-record without an empty `categoryId` and without an empty `price: {}`. */
  predicate IsCanonical(w: ProductWhere) {
    w.categoryId != Some("") && w.price != Some(PriceFilter(None, None))
  }

  /** The builder loses only a falsy `categoryId`: both price bounds come back unchanged, and every
      canonical where-record is what the builder makes of its own filters. */
  lemma WhereRoundTrip(f: ProductFilters, w: ProductWhere)
    ensures IsCanonical(BuildProductWhere(f))
    ensures FiltersOf(BuildProductWhere(f)) == f.(categoryId := if Truthy(f.categoryId) then f.categoryId else None)
    ensures IsCanonical(w) ==> BuildProductWhere(FiltersOf(w)) == w
  {
  }

  /** No filters give the empty where-record; a zero lower bound still yields `gte: 0`. */
  lemma WhereEdgeCases()
    ensures BuildProductWhere(ProductFilters(None, None, None)) == ProductWhere(None, None)
    ensures BuildProductWhere(ProductFilters(Some(""), Some(0), None)) == ProductWhere(None, Some(PriceFilter(Some(0), None)))
  {
  }

  /** The `findMany` of a listing: where, skip and take (ordered by price, descending). */
  datatype ProductFindMany = ProductFindMany(where: ProductWhere, skip: int, take: int)

  /** The two queries `findAndCount` runs in one transaction. */
  datatype ProductQueries = ProductQueries(list: ProductFindMany, count: ProductWhere)

  /** `findAndCount`: list and count share one where-record; skip and take pass through. */
  function FindAndCount(f: ProductFilters, skip: int, take: int): (q: ProductQueries)
    ensures q.list.where == q.count == BuildProductWhere(f)
    ensures q.list.skip == skip && q.list.take == take
  {
    var where := BuildProductWhere(f);
    ProductQueries(ProductFindMany(where, skip, take), where)
  }

  /** `Prisma.ProductUpdateInput`: None leaves a column as it is. */
  datatype ProductUpdate = ProductUpdate(name: Option<string>, description: Option<string>, price: Option<int>,
                                         stock: Option<int>, categoryId: Option<string>, imageFileId: Option<string>)

  function Pick<T>(given: Option<T>, current: T): T {
    if given.Some? then given.value else current
  }

  /** A product after `update`: the columns the update names take its values; the rest, and the id, stay. */
  function ApplyUpdate(p: Product, u: ProductUpdate): (q: Product)
    ensures q.id == p.id
    ensures u == ProductUpdate(None, None, None, None, None, None) ==> q == p
  {
    Product(p.id, Pick(u.name, p.name),
            if u.description.Some? then u.description else p.description,
            Pick(u.price, p.price), Pick(u.stock, p.stock), Pick(u.categoryId, p.categoryId),
            if u.imageFileId.Some? then u.imageFileId else p.imageFileId)
  }

  /** Applying the same update twice is applying it once. */
  lemma ApplyUpdateIdempotent(p: Product, u: ProductUpdate)
    ensures ApplyUpdate(ApplyUpdate(p, u), u) == ApplyUpdate(p, u)
  {
  }

  class ProductRepository {
    var rows: map<string, Product>

    ghost predicate Valid()
      reads this
    {
      forall id :: id in rows ==> rows[id].id == id
    }

    constructor ()
      ensures Valid() && rows == map[]
    {
      rows := map[];
    }

    /** `create`: one new row, exactly the product given. */
    method Create(p: Product) returns (created: Product)
      requires Valid() && p.id !in rows
      modifies this
      ensures Valid()
      ensures created == p && rows == old(rows)[p.id := p]
    {
      rows := rows[p.id := p];
      created := p;
    }

    /** `findById`: the row, or None. */
    function FindById(id: string): (r: Option<Product>)
      reads this
      ensures r.Some? <==> id in rows
      ensures r.Some? ==> r.value == rows[id]
    {
      if id in rows then Some(rows[id]) else None
    }

    /** `update`: that row with the update applied, no other row touched; None when the row
        does not exist (the store throws). */
    method Update(id: string, data: ProductUpdate) returns (r: Option<Product>)
      requires Valid()
      modifies this
      ensures Valid()
      ensures id !in old(rows) ==> r.None? && rows == old(rows)
      ensures id in old(rows) ==> r == Some(ApplyUpdate(old(rows)[id], data)) && rows == old(rows)[id := r.value]
    {
      if id !in rows {
        return None;
      }
      var updated := ApplyUpdate(rows[id], data);
      rows := rows[id := updated];
      r := Some(updated);
    }

    /** `delete`: removes that row only; None when there was none (the store throws). */
    method Delete(id: string) returns (r: Option<Product>)
      requires Valid()
      modifies this
      ensures Valid()
      ensures rows == old(rows) - {id}
      ensures r == (if id in old(rows) then Some(old(rows)[id]) else None)
    {
      r := if id in rows then Some(rows[id]) else None;
      rows := rows - {id};
    }
  }
}
