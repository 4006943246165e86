/** The category service: creation with a derived slug, paginated search by slug or name,
    lookup, partial update that re-derives the slug from a new name, and deletion guarded by
    the linked-products check. */
module CategoryRules {
  import opened Outcomes
  import opened Pagination
  import opened ProductStore
  import opened CategoryStore

  datatype CreateCategoryDto = CreateCategoryDto(name: string, description: Option<string>)

  /** Every field optional; None is a field the client left undefined. */
  datatype UpdateCategoryDto = UpdateCategoryDto(name: Option<string>, description: Option<string>)

  datatype GetCategoriesDto = GetCategoriesDto(page: Option<int>, limit: Option<int>,
                                               slug: Option<string>, name: Option<string>)

  /** A listing: the page query, the count query's filter, and the page and limit the meta echoes. */
  datatype CategoryListing = CategoryListing(list: CategoryFindMany, count: SlugOrNameWhere, page: int, limit: int)

  /** `findAll`: normalised page and limit, the skip of that page, and a list and a count that
      filter identically on the query's slug and name. */
  function FindAll(query: GetCategoriesDto): (r: CategoryListing)
    ensures r.page == (if query.page.Some? && query.page.value > 0 then query.page.value else DefaultPage)
    ensures r.limit == (if query.limit.Some? && query.limit.value > 0 then query.limit.value else DefaultLimit)
    ensures r.list.skip >= 0 && r.list.skip == (r.page - 1) * r.limit
    ensures r.list.take == r.limit
    ensures r.list.where == r.count == BuildSlugOrNameFilter(query.slug, query.name)
  {
    var w := Paginate(query.page, query.limit);
    ListAndCountShareFilter(query.slug, query.name, Some(w.skip), Some(w.limit));
    CategoryListing(FindBySlugOrName(query.slug, query.name, Some(w.skip), Some(w.limit)),
                    CountBySlugOrName(query.slug, query.name), w.page, w.limit)
  }

  class CategoryService {
    const repo: CategoryRepository
    /** The slugify library in lower-case strict mode. */
    const slugify: string -> string

    ghost predicate Valid()
      reads repo
    {
      repo.Valid()
    }

    constructor (repo: CategoryRepository, slugify: string -> string)
      requires repo.Valid()
      ensures Valid() && this.repo == repo && this.slugify == slugify
    {
      this.repo := repo;
      this.slugify := slugify;
    }

    /** The slug an update writes: a new one derived from the name when the DTO's name is
        truthy; otherwise none, and the stored slug stays. */
    function SlugFor(dto: UpdateCategoryDto): (s: Option<string>)
      ensures s.Some? <==> Truthy(dto.name)
      ensures s.Some? ==> s.value == slugify(dto.name.value)
    {
      if Truthy(dto.name) then Some(slugify(dto.name.value)) else None
    }

    /** An update sets the name and description the DTO defines, and replaces the slug exactly
        when the new name is truthy, by the slug of that name; the id and every field the DTO
        leaves undefined keep their values. */
    lemma UpdateTouchesOnlyDefinedFields(c: Category, dto: UpdateCategoryDto)
      ensures var d := ApplyCategoryUpdate(c, CategoryUpdate(dto.name, dto.description, SlugFor(dto)));
              && d.id == c.id
              && d.name == (if dto.name.Some? then dto.name.value else c.name)
              && d.description == (if dto.description.Some? then dto.description else c.description)
              && d.slug == (if Truthy(dto.name) then slugify(dto.name.value) else c.slug)
      ensures var d := ApplyCategoryUpdate(c, CategoryUpdate(dto.name, dto.description, SlugFor(dto)));
              Truthy(dto.name) ==> d.slug == slugify(d.name)
    {
    }

    /** `create`: one new row holding the DTO's fields and the slug of its name. `id` is the id
        the store assigns. */
    method Create(dto: CreateCategoryDto, id: string) returns (r: Result<Response<Category>>)
      requires Valid() && id !in repo.rows
      modifies repo
      ensures Valid()
      ensures r == Ok(Response(Category(id, dto.name, dto.description, slugify(dto.name)), "Category created successfully"))
      ensures repo.rows == old(repo.rows)[id := r.value.data]
    {
      var slug := slugify(dto.name);
      var category := repo.Create(id, dto.name, dto.description, slug);
      r := Ok(Response(category, "Category created successfully"));
    }

    function FindOne(id: string): (r: Result<Response<Category>>)
      reads repo
      ensures r.Ok? <==> id in repo.rows
      ensures r.Ok? ==> r.value == Response(repo.rows[id], "Category fetched successfully")
      ensures r.Err? ==> r.error == AppError(NotFound, "Category not found")
    {
      var category := repo.FindById(id);
      if category.None? then Err(AppError(NotFound, "Category not found"))
      else Ok(Response(category.value, "Category fetched successfully"))
    }

    /** `update`: 404 for an unknown category; otherwise the fields the DTO defines change, the
        slug follows a truthy new name, and no other row is touched. */
    method Update(id: string, dto: UpdateCategoryDto) returns (r: Result<Response<Category>>)
      requires Valid()
      modifies repo
      ensures Valid()
      ensures id !in old(repo.rows) ==> r == Err(AppError(NotFound, "Category not found")) && repo.rows == old(repo.rows)
      ensures id in old(repo.rows) ==>
                var c := ApplyCategoryUpdate(old(repo.rows)[id], CategoryUpdate(dto.name, dto.description, SlugFor(dto)));
                r == Ok(Response(c, "Category updated successfully")) && repo.rows == old(repo.rows)[id := c]
    {
      var category := FindOne(id);
      if category.Err? {
        return Err(category.error);
      }
      var slug := SlugFor(dto);
      var updated := repo.Update(category.value.data.id, CategoryUpdate(dto.name, dto.description, slug));
      r := Ok(Response(updated.value, "Category updated successfully"));
    }

    /** `remove`: 404 for an unknown category, 409 while some product names it (nothing is
        deleted), otherwise exactly that row is deleted. */
    method Remove(id: string) returns (r: Result<Response<()>>)
      requires Valid()
      modifies repo
      ensures Valid()
      ensures id !in old(repo.rows) ==> r == Err(AppError(NotFound, "Category not found")) && repo.rows == old(repo.rows)
      ensures id in old(repo.rows) && LinkedProducts(repo.products.rows, id) != {} ==>
                r == Err(AppError(Conflict, "Category has linked products and cannot be deleted"))
                && repo.rows == old(repo.rows)
      ensures id in old(repo.rows) && LinkedProducts(repo.products.rows, id) == {} ==>
                r == Ok(Response((), "Category deleted successfully")) && repo.rows == old(repo.rows) - {id}
      ensures r.Ok? ==> forall pid :: pid in repo.products.rows ==> repo.products.rows[pid].categoryId != id
    {
      var category := FindOne(id);
      if category.Err? {
        return Err(category.error);
      }
      var hasProducts := repo.HasProducts(id);
      if hasProducts {
        return Err(AppError(Conflict, "Category has linked products and cannot be deleted"));
      }
      var deleted := repo.Delete(id);
      r := Ok(Response((), "Category deleted successfully"));
    }
  }
}
