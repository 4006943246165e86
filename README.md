# E-commerce inventory API: a Dafny model of its service rules

This project models the rule layer of a NestJS e-commerce inventory backend, and proves
properties of that model. The layer sits between the HTTP controllers and the database and
object storage:

- the authentication token lifecycle: register, login, refresh and logout, over a user table
  and a refresh-token table;
- the file service: MIME classification, stored file names, upload, and single and bulk removal;
- the product and category services and their repositories: pagination, query filter records,
  partial updates, image replacement, and the rule that a category with products cannot be deleted;
- the request-value rules of the product DTOs.

## How the model is built

- The database tables are classes holding `var rows: map<Id, Record>`, one per repository.
  - Operations that change a table are methods with `modifies` clauses.
  - Each method's `ensures` states the whole new table and the result.
  - Every failure path is a `Result` error carrying the HTTP status and message the source
    throws.
- Pure parts of the source are functions with named results. Examples: the where-record
  builders, the page window, the MIME classifier and the DTO transform.
- Foreign libraries are uninterpreted function constants of the service classes, fixed at
  construction:
  - `bcrypt.hash` and `bcrypt.compare`;
  - JWT `sign` and `decode`;
  - `slugify`;
  - `mime.extension`.
- Everything outside the process becomes a parameter:
  - the clock is `now` (milliseconds);
  - ids the database generates are fresh-id parameters (`requires id !in rows`);
  - each object-storage call is the error message it reports (`None` for success). For
    removals this is a function of (bucket, path).
- JavaScript truthiness of an optional string is `Outcomes.Truthy`: the value is defined and
  not empty.
- Prices and price bounds are integers (minor currency units).
- Lower-casing is restricted to ASCII.
  - The only strings the MIME classifier compares against are ASCII: `image`, `video`,
    `audio`, `text`, `application`.
  - Only two non-ASCII characters lower-case to something containing ASCII letters:
    - U+212A KELVIN SIGN becomes `k`, and `k` occurs in none of the five words;
    - U+0130 becomes `i` followed by U+0307, which stays non-ASCII.
  - So no non-ASCII character can make a top-level type equal one of those words. ASCII
    lower-casing and full Unicode lower-casing classify every MIME type the same way.

## Two places where the code does not do what its names suggest

- **The refresh lookup key.**
  - `refreshToken` calls `findValidToken` with two arguments: the decoded subject, then the
    token.
  - The repository method takes a single parameter, so JavaScript binds the subject to it and
    drops the token.
  - The repository compares that parameter for exact equality with the stored `token` column,
    which holds the bcrypt hash of the refresh token.
  - The model keeps this literally, and makes the key visible as `Auth.LookupKey(sub, token) == sub`.
  - `Auth.AuthService.IssuedRecordMatchesOnlyTheSubject` proves what follows: the record issued
    alongside a refresh token matches that token's own refresh only if the stored hash equals
    the user id.
  - The model keeps the lookup as written instead of inventing another strategy. Because of
    that, two properties one would expect of a refresh do not hold of the code:
    - refresh rotates exactly the presented token;
    - refresh keeps the user's own record count.
  - What is proved instead: whichever record matched is deleted, one new record is added, and
    the size of the table is unchanged.
- **The category listing call.**
  - `category.service.ts` calls `findAndCountBySlugOrName`, which the category repository does
    not define.
  - The repository does define `findBySlugOrName` and `countBySlugOrName`.
  - `CategoryRules.FindAll` models the evident intent: it runs that pair.
- **Both calls fail the TypeScript type check.**
  - The two-argument `findValidToken` call (`auth.service.ts:85`) is error TS2554: it expects
    one argument.
  - The `findAndCountBySlugOrName` call (`category.service.ts:36`) is error TS2339: the property
    does not exist on the repository.
  - Built without type checks, the first runs as described above. The second throws a
    TypeError on every category listing.

The refresh lookup is an exact match against the stored bcrypt hash; nothing compares hashes.

## Model

| member | source | states |
|---|---|---|
| `Text.BeforeFirst` | src/lib/file/file.service.ts:83 | the first piece of a split at `c` is a prefix of the input, contains no `c`, and is followed by `c` whenever it is shorter than the input |
| `Text.BeforeFirstOfJoin` | src/lib/file/file.service.ts:83-84 | splitting `a + c + b` at `c` gives back `a` when `a` has no `c` |
| `Text.ToLower` | src/lib/file/file.service.ts:124 | lower-casing keeps the length and maps every character by ASCII lower-casing |
| `Text.ToLowerBeforeFirst` | src/lib/file/file.service.ts:124 | lower-casing commutes with taking the part before a non-letter separator |
| `Text.TrimStart` | src/modules/product/dto/product.dto.ts:73 | the result is the input with exactly its leading whitespace removed: a suffix, preceded only by whitespace, that is empty or starts with a non-whitespace character |
| `Text.TrimEnd` | src/modules/product/dto/product.dto.ts:73 | the result is the input with exactly its trailing whitespace removed: a prefix, followed only by whitespace, that is empty or ends with a non-whitespace character |
| `Text.Trim` | src/modules/product/dto/product.dto.ts:73 | the result is the middle of the input between a whitespace prefix and a whitespace suffix, no longer than the input, and neither of its ends is whitespace |
| `Text.TrimEmptyIffBlank` | src/modules/product/dto/product.dto.ts:73 | a string trims to empty exactly when every character is JavaScript whitespace |
| `Pagination.PositiveOr` | src/modules/product/product.service.ts:70-71 | a positive query value is kept; a missing, zero or negative one gives the default |
| `Pagination.Paginate` | src/modules/product/product.service.ts:70-78 | page defaults to 1 and limit to 10 unless positive; page, limit and skip are at least 1, 1 and 0; skip is exactly (page - 1) whole limits |
| `Pagination.SkipIsPageOffset` | src/modules/category/category.service.ts:32-34 | (page - 1) * limit is non-negative and divides by the limit back to page - 1 with no remainder |
| `Pagination.ConsecutivePagesAdjoin` | src/modules/category/category.service.ts:34 | page p + 1 starts exactly one limit after page p: no gap and no overlap between pages |
| `Pagination.OffsetOnUniquePage` | src/modules/product/product.service.ts:77-78 | a row offset lies in the window of page p if and only if p is offset / limit + 1 |
| `ProductDto.BlankToUndefined` | src/modules/product/dto/product.dto.ts:69-78 | the result is undefined exactly for undefined, `'null'`, `'undefined'` and all-whitespace strings; any other value passes through unchanged |
| `ProductDto.BlankToUndefinedIdempotent` | src/modules/product/dto/product.dto.ts:94-103 | applying the transform twice equals applying it once |
| `ProductDto.IsValidStock` | src/modules/product/dto/product.dto.ts:33-36 | a stock that passes is a non-negative integer; one that fails is negative or has a fractional part |
| `ProductDto.IsValidOptionalStock` | src/modules/product/dto/product.dto.ts:84-88 | a missing stock passes; a present one passes exactly when it is a valid stock |
| `ProductDto.ValidStockIsNat` | src/modules/product/dto/product.dto.ts:84-88 | every natural number is a valid stock, and a valid stock is an integer that is at least 0 |
| `UserStore.InsertKeepsWellFormed` | src/modules/auth/repo/user.repository.ts:10-12 | adding a user with a new email and username keeps ids, emails and usernames unique |
| `UserStore.UserRepository.Create` | src/modules/auth/repo/user.repository.ts:10-12 | the row is stored exactly as given if and only if its email and username are both new; otherwise the table is unchanged |
| `UserStore.UserRepository.FindByEmail` | src/modules/auth/repo/user.repository.ts:14-16 | a user is found exactly when some row has the email, and it is that stored row |
| `UserStore.UserRepository.FindByUserName` | src/modules/auth/repo/user.repository.ts:18-20 | a user is found exactly when some row has the username, and it is that stored row |
| `UserStore.UserRepository.FindById` | src/modules/auth/repo/user.repository.ts:22-24 | a user is found exactly when the id is a key, and it carries that id |
| `RefreshTokenStore.WithoutUser` | src/modules/auth/repo/refresh-token.repository.ts:29-33 | a record survives bulk revocation exactly when it belongs to another user, and it is unchanged |
| `RefreshTokenStore.WithoutUserCount` | src/modules/auth/repo/refresh-token.repository.ts:29-33 | surviving records plus the user's records make up the whole table, and none of the user's records survive |
| `RefreshTokenStore.NoValidTokenOfRevokedUser` | src/modules/auth/repo/refresh-token.repository.ts:17-33 | after revoking a user's records, no record that passes the validity filter belongs to that user, whatever the key |
| `RefreshTokenStore.RefreshTokenRepository.Create` | src/modules/auth/repo/refresh-token.repository.ts:9-15 | one new record with exactly the given token, userId and expiry; no other record changes |
| `RefreshTokenStore.RefreshTokenRepository.FindValidToken` | src/modules/auth/repo/refresh-token.repository.ts:17-21 | a record is returned if and only if one stores exactly the key and expires strictly after now; it is a stored record that passes the filter, so a record expiring at or before now is never returned |
| `RefreshTokenStore.RefreshTokenRepository.RevokeToken` | src/modules/auth/repo/refresh-token.repository.ts:23-27 | exactly the record with that id is removed; all others stay |
| `RefreshTokenStore.RefreshTokenRepository.RevokeAllForUser` | src/modules/auth/repo/refresh-token.repository.ts:29-33 | the table becomes exactly the other users' records; the count returned is the number of the user's records removed |
| `Auth.Tag` | src/modules/auth/auth.service.ts:151-155 | the claims carry the payload unchanged plus the `refresh` tag for a refresh token and the `access` tag otherwise |
| `Auth.RefreshSubject` | src/modules/auth/auth.service.ts:71-80 | the refresh guards pass if and only if decoding succeeded, `sub` is truthy and `useCase` is exactly `refresh`; the subject passed on is the decoded `sub` |
| `Auth.LookupKey` | src/modules/auth/auth.service.ts:85-88 | the key the lookup receives is the decoded subject; the token argument is dropped |
| `Auth.WrapResponse` | src/modules/auth/auth.service.ts:132-136 | the response carries the user and the token pair as given, with the given message |
| `Auth.AuthService.GenTokenByExpires` | src/modules/auth/auth.service.ts:146-161 | the token is the signature, at the given instant and with the given expiry, of the payload tagged `refresh` for a refresh token and `access` otherwise |
| `Auth.AuthService.Tokens` | src/modules/auth/auth.service.ts:109-121 | the two tokens are signed at the same instant over the same id, email and username, tagged access (configured expiry) and refresh (90 days) |
| `Auth.AuthService.IssuedRecord` | src/modules/auth/auth.service.ts:123-127 | the persisted record: owned by the user, holding the hash of the refresh token signed at that instant, expiring 90 days (in ms) after it |
| `Auth.AuthService.AccessTokenRejectedByRefresh` | src/modules/auth/auth.service.ts:79-80 | when decoding reads back what was signed, an access token never passes the refresh guards |
| `Auth.AuthService.RefreshTokenNamesItsUser` | src/modules/auth/auth.service.ts:71-82 | when decoding reads back what was signed, a refresh token passes the guards with its user's id as the subject, unless that id is empty |
| `Auth.AuthService.IssuedRecordMatchesOnlyTheSubject` | src/modules/auth/auth.service.ts:85-89 | with the key the code passes, a freshly issued record matches its own token's refresh exactly when its stored hash equals the user id and it has not expired |
| `Auth.AuthService.GenerateTokens` | src/modules/auth/auth.service.ts:104-130 | returns the signed pair and adds exactly the issued record to the token table |
| `Auth.AuthService.Register` | src/modules/auth/auth.service.ts:33-55 | 409 for a taken email, checked first; 409 for a taken username; neither failure changes either table; otherwise stores the user with the hashed password, issues tokens, and adds one record |
| `Auth.AuthService.Login` | src/modules/auth/auth.service.ts:57-67 | 404 for an unknown email, 401 for a wrong password, neither changing the token table; otherwise issues tokens for the stored user and adds one record |
| `Auth.AuthService.RefreshToken` | src/modules/auth/auth.service.ts:69-95 | 401 from the guards, before any lookup; 404 for an unknown subject; 404 when no record matches the lookup key; no failure changes the table; success deletes a matched record, adds the new one, and keeps the table size; the expiry filter reads the clock once and the new tokens and record read it again |
| `Auth.AuthService.Logout` | src/modules/auth/auth.service.ts:97-101 | deletes exactly the user's records and returns null data with the logout message |
| `FileStorage.MapMimeToFileType` | src/lib/file/file.service.ts:121-139 | IMAGE, VIDEO, AUDIO exactly for top-level types image, video, audio; DOCUMENT exactly for text or application; a missing or empty type gives ANY |
| `FileStorage.ClassificationIgnoresCase` | src/lib/file/file.service.ts:124 | two MIME types that are equal after lower-casing are classified alike |
| `FileStorage.ClassificationIgnoresSubtype` | src/lib/file/file.service.ts:124 | only the part before the first '/' decides the class |
| `FileStorage.UpperCaseImageIsImage` | src/lib/file/file.service.ts:124-128 | an upper-case image type such as `IMAGE/PNG` is an IMAGE |
| `FileStorage.FileName` | src/lib/file/file.service.ts:82-84 | the name is the original's part before its first '.', then '.', then the extension; both parts are recoverable from it |
| `FileStorage.RemovalOutcome` | src/lib/file/file.service.ts:58-63 | 404 for an unknown id; 500 with the storage message when the delete fails; succeeds exactly otherwise, with only that row gone |
| `FileStorage.UploadFailure` | src/lib/file/file.service.ts:79-95 | no failure exactly when file, buffer and upload are all fine; a missing file or buffer is the 400, checked before the upload; a failed upload is the 500 |
| `FileStorage.FileService.UploadRecord` | src/lib/file/file.service.ts:97-105 | the row carries the built filename (which is also the path), the bucket, the MIME type, the size and the classified type |
| `FileStorage.FileService.Create` | src/lib/file/file.service.ts:28-31 | one new row with exactly the given fields |
| `FileStorage.FileService.FindOne` | src/lib/file/file.service.ts:33-38 | the row for a known id, 404 otherwise |
| `FileStorage.FileService.Remove` | src/lib/file/file.service.ts:58-63 | the file table becomes what the removal outcome says; a failure leaves it unchanged |
| `FileStorage.FileService.BulkDelete` | src/lib/file/file.service.ts:65-74 | if some listed row's storage delete fails, the table is unchanged and that 500 is reported; otherwise exactly the listed rows go and their number is returned |
| `FileStorage.FileService.ProcessUploadedFile` | src/lib/file/file.service.ts:77-108 | a failure per the upload-failure rule stores nothing; otherwise exactly one row, the upload record, is added and returned |
| `ProductStore.BuildProductWhere` | src/modules/product/repo/product.repository.ts:67-82 | `categoryId` is present exactly when it is truthy; a price clause is present exactly when a bound is defined, with each bound copied exactly (0 included) |
| `ProductStore.WhereRoundTrip` | src/modules/product/repo/product.repository.ts:72-81 | the builder's output is canonical and gives back the filters apart from a falsy category; every canonical record is rebuilt from its own filters |
| `ProductStore.WhereEdgeCases` | src/modules/product/repo/product.repository.ts:77 | no filters give the empty record; an empty category and minPrice 0 give only the clause `gte: 0` |
| `ProductStore.FindAndCount` | src/modules/product/repo/product.repository.ts:16-42 | list and count use the identical where-record; skip and take pass through unchanged |
| `ProductStore.ApplyUpdate` | src/modules/product/repo/product.repository.ts:54-60 | an update keeps the id, and an update that names no column is the identity |
| `ProductStore.ApplyUpdateIdempotent` | src/modules/product/repo/product.repository.ts:54-60 | applying the same update twice equals applying it once |
| `ProductStore.ProductRepository.Create` | src/modules/product/repo/product.repository.ts:9-14 | one new row, exactly the product given |
| `ProductStore.ProductRepository.FindById` | src/modules/product/repo/product.repository.ts:44-52 | the row exactly when the id is a key |
| `ProductStore.ProductRepository.Update` | src/modules/product/repo/product.repository.ts:54-60 | only that row changes, to the update applied to it; an unknown id changes nothing |
| `ProductStore.ProductRepository.Delete` | src/modules/product/repo/product.repository.ts:62-64 | exactly that row is removed |
| `CategoryStore.BuildSlugOrNameFilter` | src/modules/category/repo/category.repository.ts:63-70 | a case-insensitive contains clause for the slug exactly when it is truthy, and for the name exactly when it is truthy |
| `CategoryStore.FindBySlugOrName` | src/modules/category/repo/category.repository.ts:21-33 | filters by the slug/name builder; skip defaults to 0 and take to 10 |
| `CategoryStore.CountBySlugOrName` | src/modules/category/repo/category.repository.ts:35-39 | the count's filter has a contains clause for the slug exactly when it is truthy, and for the name exactly when it is truthy, each holding that value |
| `CategoryStore.ListAndCountShareFilter` | src/modules/category/repo/category.repository.ts:35-39 | the listing and the count filter identically for the same slug and name |
| `CategoryStore.ApplyCategoryUpdate` | src/modules/category/repo/category.repository.ts:41-46 | an update keeps the id, and an update that names no column is the identity |
| `CategoryStore.ApplyCategoryUpdateIdempotent` | src/modules/category/repo/category.repository.ts:41-46 | applying the same category update twice equals applying it once |
| `CategoryStore.LinkedCountPositiveIffLinked` | src/modules/category/repo/category.repository.ts:60 | the product count of a category is positive exactly when some product names it |
| `CategoryStore.CategoryRepository.Create` | src/modules/category/repo/category.repository.ts:10-12 | one new row with exactly the given fields and slug |
| `CategoryStore.CategoryRepository.FindById` | src/modules/category/repo/category.repository.ts:14-19 | the row exactly when the id is a key |
| `CategoryStore.CategoryRepository.Update` | src/modules/category/repo/category.repository.ts:41-46 | only that row changes, to the update applied to it |
| `CategoryStore.CategoryRepository.Delete` | src/modules/category/repo/category.repository.ts:48-50 | exactly that row is removed |
| `CategoryStore.CategoryRepository.HasProducts` | src/modules/category/repo/category.repository.ts:52-61 | false for an unknown category; otherwise true exactly when some product names the category |
| `CategoryRules.FindAll` | src/modules/category/category.service.ts:30-52 | normalised page and limit are echoed; skip is (page - 1) * limit and non-negative; list and count share the slug/name filter |
| `CategoryRules.CategoryService.SlugFor` | src/modules/category/category.service.ts:65-66 | a slug is derived, from the new name, exactly when that name is truthy |
| `CategoryRules.CategoryService.UpdateTouchesOnlyDefinedFields` | src/modules/category/category.service.ts:62-71 | an update keeps the id, sets the name and description the DTO defines and keeps the others, and replaces the slug by the slug of the new name exactly when that name is truthy; a truthy new name always agrees with the new slug |
| `CategoryRules.CategoryService.Create` | src/modules/category/category.service.ts:22-28 | one new row holding the DTO's fields and the slug of its name |
| `CategoryRules.CategoryService.FindOne` | src/modules/category/category.service.ts:54-60 | the row for a known id, 404 otherwise |
| `CategoryRules.CategoryService.Update` | src/modules/category/category.service.ts:62-74 | 404 for an unknown id and no change; otherwise only that row changes: the DTO's defined fields, plus the slug when the name is truthy |
| `CategoryRules.CategoryService.Remove` | src/modules/category/category.service.ts:76-90 | 404 for an unknown id; 409 while some product names it, with the table unchanged; otherwise exactly that row goes, and no product names it |
| `ProductRules.FindAll` | src/modules/product/product.service.ts:68-90 | normalised page and limit are echoed; skip is (page - 1) * limit and non-negative; take is the limit; list and count share the filter built from the query |
| `ProductRules.UpdateData` | src/modules/product/product.service.ts:120-129 | the update names each column the DTO defines, with the DTO's value, and the image reference exactly when a file was uploaded |
| `ProductRules.UpdateTouchesOnlyDefinedFields` | src/modules/product/product.service.ts:120-129 | every field the DTO defines takes the DTO's value, the image reference changes only with an upload, and every other field keeps its value |
| `ProductRules.EmptyUpdateKeepsProduct` | src/modules/product/product.service.ts:120-131 | a DTO that defines nothing, with no upload, leaves the product as it is |
| `ProductRules.ImageRemoval` | src/modules/product/product.service.ts:109-112 | no image reference removes nothing; otherwise it succeeds exactly when the reference names a stored file whose storage delete succeeds, and then only that row goes; 404 for an unknown file, 500 with the storage message for a failed delete |
| `ProductRules.ProductService.Create` | src/modules/product/product.service.ts:28-66 | 400 for a missing image first, then 404 for a missing category, then the upload failures, all with both tables unchanged; otherwise one file row and one product row referencing it, so the category now has products |
| `ProductRules.ProductService.FindOne` | src/modules/product/product.service.ts:92-98 | the row for a known id, 404 otherwise |
| `ProductRules.ProductService.Update` | src/modules/product/product.service.ts:100-134 | 404 for an unknown id; without a file only the DTO's fields change; with one, the old image is removed before the new one is uploaded, and a failure stops at that step |
| `ProductRules.ProductService.Delete` | src/modules/product/product.service.ts:136-146 | 404 for an unknown id; the image is removed first; only if that succeeds is exactly the product row deleted |

## Left out

- Database and storage I/O. Prisma and Supabase are tables in memory and outcome parameters.
  - How the query engine evaluates a where-record is not modelled: matching, `contains`,
    case-insensitivity and ordering. Listings are the queries they issue.
  - What the row lists and counts evaluate to is left out for the same reason.
- Foreign libraries are uninterpreted functions: bcrypt, JWT sign and decode, the configured
  secret and access expiry, slugify and `mime.extension`.
  - bcrypt salting is not modelled; `hash` is a function.
  - JWT decoding is assumed to read back what was signed only in the two lemmas that say so
    (`Auth.AuthService.DecodeReadsSignedClaims`).
  - A decoded `sub` or `useCase` that is not a string is not modelled.
- The user projection of the response.
  - Which user fields the sanitising response DTO keeps is not modelled: its class is not
    part of this model.
  - `Auth.WrapResponse` carries the stored user as it is.
- The error and response wrappers.
  - The error decorator and the response helpers are not part of this model.
  - An error a service throws is returned unchanged. A database or library exception is not
    modelled.
  - A listing's meta carries the page and limit. The total is the count query.
- Concurrency. The parallel storage deletes of `bulkDelete` are checked one after another; the
  model reports one failing file's error.
- `bulkUpload`, `findMany`, `update` and `bulkUpdate` of the file service: no service in
  this model calls them.
- Referential integrity.
  - The database's handling of `connect` to a missing category or file is not modelled.
  - Neither is the database's unique constraint on category names or slugs.
  - `update` and `delete` of a product remove the file that `imageFileId` names
    (`product.service.ts:111`, `:140`). What the database does with a product row whose
    reference names a deleted file is decided by its schema, which is not part of this model.
    The model leaves `imageFileId` as it is.
- Validation decorators (class-validator) other than the stock rule: library shape checks.
- `ProductDto.Value`: it covers undefined, null, strings and numbers. Arrays, booleans and
  objects that a JSON body could send are not modelled. (An empty array, for instance,
  prints as `''` and would become undefined.)
- `CategoryRules.FindAll`: models the evident intent, the `findBySlugOrName` and
  `countBySlugOrName` pair. The call as written fails to type-check and throws at run time
  (see above).
- Dates are milliseconds since the epoch.
- The clock.
  - `generateTokens` reads the clock three times: in each `sign` call and in `Date.now`. The
    model takes one instant for all three.
  - A refresh reads the clock once in the expiry filter (`refresh-token.repository.ts:19`) and
    again when it issues the new tokens and record (`auth.service.ts:126`). The model keeps the
    two readings apart: `now` and `issuedAt`.
- Prices are integers: JavaScript floating point is not modelled.
- `Text.ToLower`: ASCII letters only. Full Unicode lower-casing does not change any
  classification (see above).
- `Auth.AuthService.RefreshToken`: proves that the table size is unchanged, not that the user's
  own record count is.
  - The lookup key the code passes is the user id, so the matched record can belong to any user.
  - For the same reason, "logout then refresh fails with 404" does not hold in general.
