/** The product service: creation with a mandatory image, paginated listing, lookup, partial
    update that swaps the image, and deletion together with the image. */
module ProductRules {
  import opened Outcomes
  import opened Pagination
  import opened ProductStore
  import opened CategoryStore
  import opened FileStorage

  datatype CreateProductDto = CreateProductDto(name: string, description: Option<string>, price: int,
                                               stock: int, categoryId: string)

  /** Every field optional; None is a field the client left undefined. */
  datatype UpdateProductDto = UpdateProductDto(name: Option<string>, description: Option<string>,
                                               price: Option<int>, stock: Option<int>, categoryId: Option<string>)

  datatype GetProductsDto = GetProductsDto(page: Option<int>, limit: Option<int>, categoryId: Option<string>,
                                           minPrice: Option<int>, maxPrice: Option<int>)

  /** A listing: the two queries it runs, and the page and limit its meta echoes (the total is
      the answer to the count query). */
  datatype ProductListing = ProductListing(queries: ProductQueries, page: int, limit: int)

  /** The storage bucket product images go to. */
  const ProductBucket := "product"

  /** `findAll`: normalised page and limit, the skip of that page, and list and count over the
      same filter built from the query. */
  function FindAll(query: GetProductsDto): (r: ProductListing)
    ensures r.page == (if query.page.Some? && query.page.value > 0 then query.page.value else DefaultPage)
    ensures r.limit == (if query.limit.Some? && query.limit.value > 0 then query.limit.value else DefaultLimit)
    ensures r.page >= 1 && r.limit >= 1
    ensures r.queries.list.skip >= 0 && r.queries.list.skip == (r.page - 1) * r.limit
    ensures r.queries.list.take == r.limit
    ensures r.queries.list.where == r.queries.count
    ensures r.queries.count == BuildProductWhere(ProductFilters(query.categoryId, query.minPrice, query.maxPrice))
  {
    var w := Paginate(query.page, query.limit);
    ProductListing(FindAndCount(ProductFilters(query.categoryId, query.minPrice, query.maxPrice), w.skip, w.limit),
                   w.page, w.limit)
  }

  /** The update input `update` assembles: exactly the fields the DTO defines, plus the new
      image when one was uploaded. */
  function UpdateData(dto: UpdateProductDto, imageFile: Option<string>): (u: ProductUpdate)
    ensures u.name == dto.name && u.description == dto.description && u.price == dto.price
    ensures u.stock == dto.stock && u.categoryId == dto.categoryId && u.imageFileId == imageFile
  {
    ProductUpdate(dto.name, dto.description, dto.price, dto.stock, dto.categoryId, imageFile)
  }

  /** An update changes the fields the DTO defines and, when an image was uploaded, the image
      reference; every other field of the product keeps its value. */
  lemma UpdateTouchesOnlyDefinedFields(p: Product, dto: UpdateProductDto, imageFile: Option<string>)
    ensures var q := ApplyUpdate(p, UpdateData(dto, imageFile));
            && q.id == p.id
            && q.name == (if dto.name.Some? then dto.name.value else p.name)
            && q.description == (if dto.description.Some? then dto.description else p.description)
            && q.price == (if dto.price.Some? then dto.price.value else p.price)
            && q.stock == (if dto.stock.Some? then dto.stock.value else p.stock)
            && q.categoryId == (if dto.categoryId.Some? then dto.categoryId.value else p.categoryId)
            && q.imageFileId == (if imageFile.Some? then imageFile else p.imageFileId)
  {
  }

  /** An update whose DTO defines nothing and that uploads no image leaves the product as it is. */
  lemma EmptyUpdateKeepsProduct(p: Product)
    ensures ApplyUpdate(p, UpdateData(UpdateProductDto(None, None, None, None, None), None)) == p
  {
  }

  /** The step that removes the product's current image when it has one: the file table after it, or the error it
      throws. A missing or empty image reference removes nothing. */
  function ImageRemoval(files: map<string, FileInstance>, imageFileId: Option<string>,
                        storageError: (string, string) -> Option<string>): (o: Result<map<string, FileInstance>>)
    ensures !Truthy(imageFileId) ==> o == Ok(files)
    ensures Truthy(imageFileId) ==>
              (o.Ok? <==> imageFileId.value in files &&
                          storageError(files[imageFileId.value].data.bucket, files[imageFileId.value].data.path).None?)
    ensures Truthy(imageFileId) && o.Ok? ==> o.value == files - {imageFileId.value}
    ensures Truthy(imageFileId) && imageFileId.value !in files ==> o == Err(AppError(NotFound, "File not found"))
    ensures Truthy(imageFileId) && imageFileId.value in files &&
            storageError(files[imageFileId.value].data.bucket, files[imageFileId.value].data.path).Some? ==>
              o == Err(AppError(InternalServerError, "Supabase delete failed: " +
                                storageError(files[imageFileId.value].data.bucket, files[imageFileId.value].data.path).value))
  {
    if Truthy(imageFileId) then RemovalOutcome(files, imageFileId.value, storageError) else Ok(files)
  }

  class ProductService {
    const repo: ProductRepository
    const fileService: FileService
    const categoryRepo: CategoryRepository

    /** The tables are consistent, and the category repository counts linked products over the
        same product table this service writes: both sit on one database. */
    ghost predicate Valid()
      reads repo, fileService, categoryRepo
    {
      repo.Valid() && fileService.Valid() && categoryRepo.Valid() && categoryRepo.products == repo
    }

    constructor (repo: ProductRepository, fileService: FileService, categoryRepo: CategoryRepository)
      requires repo.Valid() && fileService.Valid() && categoryRepo.Valid() && categoryRepo.products == repo
      ensures Valid()
      ensures this.repo == repo && this.fileService == fileService && this.categoryRepo == categoryRepo
    {
      this.repo := repo;
      this.fileService := fileService;
      this.categoryRepo := categoryRepo;
    }

    /** `create`: an image is required (400) and the category must exist (404), both checked
        before anything is uploaded; then the upload's own failures; then one new product that
        references the uploaded file. `fileId` and `productId` are the ids the store assigns. */
    method Create(dto: CreateProductDto, file: Option<Upload>, uploadError: Option<string>,
                  fileId: string, productId: string) returns (r: Result<Response<Product>>)
      requires Valid() && fileId !in fileService.rows && productId !in repo.rows
      modifies repo, fileService
      ensures Valid()
      ensures file.None? ==> r == Err(AppError(BadRequest, "Product image is required")) && repo.rows == old(repo.rows) && fileService.rows == old(fileService.rows)
      ensures file.Some? && dto.categoryId !in categoryRepo.rows ==>
                r == Err(AppError(NotFound, "Category not found")) && repo.rows == old(repo.rows) && fileService.rows == old(fileService.rows)
      ensures file.Some? && dto.categoryId in categoryRepo.rows && UploadFailure(file, uploadError).Some? ==>
                r == Err(UploadFailure(file, uploadError).value) && repo.rows == old(repo.rows) && fileService.rows == old(fileService.rows)
      ensures file.Some? && dto.categoryId in categoryRepo.rows && UploadFailure(file, uploadError).None? ==>
                var p := Product(productId, dto.name, dto.description, dto.price, dto.stock, dto.categoryId, Some(fileId));
                && r == Ok(Response(p, "Product created successfully"))
                && repo.rows == old(repo.rows)[productId := p]
                && fileService.rows == old(fileService.rows)[fileId := FileInstance(fileId, fileService.UploadRecord(file.value, ProductBucket))]
      ensures r.Ok? ==> categoryRepo.HasProducts(dto.categoryId)
    {
      if file.None? {
        return Err(AppError(BadRequest, "Product image is required"));
      }
      var category := categoryRepo.FindById(dto.categoryId);
      if category.None? {
        return Err(AppError(NotFound, "Category not found"));
      }
      var uploaded := fileService.ProcessUploadedFile(file, ProductBucket, uploadError, fileId);
      if uploaded.Err? {
        return Err(uploaded.error);
      }
      var product := repo.Create(Product(productId, dto.name, dto.description, dto.price, dto.stock,
                                         dto.categoryId, Some(uploaded.value.id)));
      assert categoryRepo.products.rows[productId].categoryId == dto.categoryId;
      r := Ok(Response(product, "Product created successfully"));
    }

    function FindOne(id: string): (r: Result<Response<Product>>)
      reads repo
      ensures r.Ok? <==> id in repo.rows
      ensures r.Ok? ==> r.value == Response(repo.rows[id], "Product fetched successfully")
      ensures r.Err? ==> r.error == AppError(NotFound, "Product not found")
    {
      var product := repo.FindById(id);
      if product.None? then Err(AppError(NotFound, "Product not found"))
      else Ok(Response(product.value, "Product fetched successfully"))
    }

    /** `update`: 404 for an unknown product. Without a new file only the DTO's fields change.
        With one, the old image is removed first (when the product has one), then the new one is
        uploaded, and the product is pointed at it; a failure at either step stops there, with
        whatever the earlier step already did left in place. */
    method Update(id: string, dto: UpdateProductDto, file: Option<Upload>,
                  storageError: (string, string) -> Option<string>, uploadError: Option<string>,
                  fileId: string) returns (r: Result<Response<Product>>)
      requires Valid() && fileId !in fileService.rows
      modifies repo, fileService
      ensures Valid()
      ensures id !in old(repo.rows) ==> r == Err(AppError(NotFound, "Product not found")) && repo.rows == old(repo.rows) && fileService.rows == old(fileService.rows)
      ensures id in old(repo.rows) && file.None? ==>
                var q := ApplyUpdate(old(repo.rows)[id], UpdateData(dto, None));
                && r == Ok(Response(q, "Product updated successfully"))
                && repo.rows == old(repo.rows)[id := q] && fileService.rows == old(fileService.rows)
      ensures id in old(repo.rows) && file.Some? ==>
                var removal := ImageRemoval(old(fileService.rows), old(repo.rows)[id].imageFileId, storageError);
                removal.Err? ==> r == Err(removal.error) && repo.rows == old(repo.rows) && fileService.rows == old(fileService.rows)
      ensures id in old(repo.rows) && file.Some? ==>
                var removal := ImageRemoval(old(fileService.rows), old(repo.rows)[id].imageFileId, storageError);
                removal.Ok? && UploadFailure(file, uploadError).Some? ==>
                  r == Err(UploadFailure(file, uploadError).value) && repo.rows == old(repo.rows) && fileService.rows == removal.value
      ensures id in old(repo.rows) && file.Some? ==>
                var removal := ImageRemoval(old(fileService.rows), old(repo.rows)[id].imageFileId, storageError);
                var q := ApplyUpdate(old(repo.rows)[id], UpdateData(dto, Some(fileId)));
                removal.Ok? && UploadFailure(file, uploadError).None? ==>
                  && r == Ok(Response(q, "Product updated successfully"))
                  && repo.rows == old(repo.rows)[id := q]
                  && fileService.rows == removal.value[fileId := FileInstance(fileId, fileService.UploadRecord(file.value, ProductBucket))]
    {
      var found := FindOne(id);
      if found.Err? {
        return Err(found.error);
      }
      var product := found.value.data;
      var imageFile: Option<string> := None;
      if file.Some? {
        if Truthy(product.imageFileId) {
          var removed := fileService.Remove(product.imageFileId.value, storageError);
          if removed.Err? {
            return Err(removed.error);
          }
        }
        var uploaded := fileService.ProcessUploadedFile(file, ProductBucket, uploadError, fileId);
        if uploaded.Err? {
          return Err(uploaded.error);
        }
        imageFile := Some(uploaded.value.id);
      }
      var updated := repo.Update(id, UpdateData(dto, imageFile));
      r := Ok(Response(updated.value, "Product updated successfully"));
    }

    /** `delete`: 404 for an unknown product; otherwise its image is removed first (when it has
        one), and only if that succeeds is the product row deleted. */
    method Delete(id: string, storageError: (string, string) -> Option<string>) returns (r: Result<Response<()>>)
      requires Valid()
      modifies repo, fileService
      ensures Valid()
      ensures id !in old(repo.rows) ==> r == Err(AppError(NotFound, "Product not found")) && repo.rows == old(repo.rows) && fileService.rows == old(fileService.rows)
      ensures id in old(repo.rows) ==>
                var removal := ImageRemoval(old(fileService.rows), old(repo.rows)[id].imageFileId, storageError);
                && (removal.Err? ==> r == Err(removal.error) && repo.rows == old(repo.rows) && fileService.rows == old(fileService.rows))
                && (removal.Ok? ==> r == Ok(Response((), "Product deleted successfully"))
                                    && repo.rows == old(repo.rows) - {id} && fileService.rows == removal.value)
    {
      var found := FindOne(id);
      if found.Err? {
        return Err(found.error);
      }
      var product := found.value.data;
      if Truthy(product.imageFileId) {
        var removed := fileService.Remove(product.imageFileId.value, storageError);
        if removed.Err? {
          return Err(removed.error);
        }
      }
      var deleted := repo.Delete(id);
      r := Ok(Response((), "Product deleted successfully"));
    }
  }
}
