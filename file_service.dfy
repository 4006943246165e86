/** `FileService`: the MIME-type classification, the stored name of an upload, and the
    file table with its single and bulk removal. Object storage is outside the model: each
    call to it is represented by the error message it reports, or None when it succeeds. */
module FileStorage {
  import opened Outcomes
  import opened Text

  datatype FileType = IMAGE | VIDEO | AUDIO | DOCUMENT | ANY

  /** The fields of a `fileInstance` row that `create` is given. */
  datatype CreateFileDto = CreateFileDto(filename: string, bucket: string, path: string,
                                         mimeType: string, size: int, fileType: FileType)

  /** A stored `fileInstance` row. */
  datatype FileInstance = FileInstance(id: string, data: CreateFileDto)

  /** The Multer file handed to `processUploadedFile`; a missing buffer is None. */
  datatype Upload = Upload(originalname: string, mimetype: string, size: int, buffer: Option<seq<bv8>>)

  /** The lower-cased part of the MIME type before the first '/'; a missing type counts as empty. */
  function TopLevelType(mimeType: Option<string>): string {
    ToLower(BeforeFirst(if mimeType.Some? then mimeType.value else "", '/'))
  }

  /** `mapMimeToPrismaFileType`. */
  function MapMimeToFileType(mimeType: Option<string>): (r: FileType)
    ensures r == IMAGE <==> TopLevelType(mimeType) == "image"
    ensures r == VIDEO <==> TopLevelType(mimeType) == "video"
    ensures r == AUDIO <==> TopLevelType(mimeType) == "audio"
    ensures r == DOCUMENT <==> TopLevelType(mimeType) == "text" || TopLevelType(mimeType) == "application"
    ensures mimeType.None? || mimeType == Some("") ==> r == ANY
  {
    var top := TopLevelType(mimeType);
    if top == "image" then IMAGE
    else if top == "video" then VIDEO
    else if top == "audio" then AUDIO
    else if top == "text" || top == "application" then DOCUMENT
    else ANY
  }

  /** The classification ignores letter case. */
  lemma {:induction false} ClassificationIgnoresCase(a: string, b: string)
    requires ToLower(a) == ToLower(b)
    ensures MapMimeToFileType(Some(a)) == MapMimeToFileType(Some(b))
  {
    ToLowerBeforeFirst(a, '/');
    ToLowerBeforeFirst(b, '/');
  }

  /** The classification looks only at the top-level type: the subtype after the first '/' is ignored. */
  lemma {:induction false} ClassificationIgnoresSubtype(top: string, subtype: string)
    requires '/' !in top
    ensures MapMimeToFileType(Some(top + "/" + subtype)) == MapMimeToFileType(Some(top))
  {
    BeforeFirstOfJoin(top, '/', subtype);
    assert top + "/" + subtype == top + ['/'] + subtype;
    assert BeforeFirst(top, '/') == top;
  }

  /** An upper-case type is classified like a lower-case one. */
  lemma UpperCaseImageIsImage()
    ensures MapMimeToFileType(Some("IMAGE/PNG")) == IMAGE
  {
    BeforeFirstOfJoin("IMAGE", '/', "PNG");
    assert "IMAGE/PNG" == "IMAGE" + ['/'] + "PNG";
    var lower := ToLower("IMAGE");
    assert lower[0] == 'i' && lower[1] == 'm' && lower[2] == 'a' && lower[3] == 'g' && lower[4] == 'e';
    assert lower == "image";
  }

  /** The extension the mime-types lookup gives, or the empty string when it has none (None). */
  function ExtensionOrEmpty(lookup: Option<string>): string {
    if lookup.Some? then lookup.value else ""
  }

  /** The stored file name: the name before the first '.' of the original,
      a '.', and the extension, each recoverable from the result. */
  function FileName(originalname: string, ext: string): (r: string)
    ensures BeforeFirst(r, '.') == BeforeFirst(originalname, '.')
    ensures var n := |BeforeFirst(originalname, '.')|;
            |r| == n + 1 + |ext| && r[n] == '.' && r[n + 1..] == ext
  {
    var name := BeforeFirst(originalname, '.');
    BeforeFirstOfJoin(name, '.', ext);
    name + ['.'] + ext
  }

  /** What `remove(id)` does to the table: 404 for an unknown id, 500 when the storage delete of
      its object fails, otherwise the table without exactly that row. */
  function RemovalOutcome(rows: map<string, FileInstance>, id: string,
                          storageError: (string, string) -> Option<string>): (o: Result<map<string, FileInstance>>)
    ensures id !in rows ==> o == Err(AppError(NotFound, "File not found"))
    ensures id in rows && storageError(rows[id].data.bucket, rows[id].data.path).Some? ==>
              o == Err(AppError(InternalServerError, "Supabase delete failed: " +
                                storageError(rows[id].data.bucket, rows[id].data.path).value))
    ensures o.Ok? <==> id in rows && storageError(rows[id].data.bucket, rows[id].data.path).None?
    ensures o.Ok? ==> o.value == rows - {id}
  {
    if id !in rows then Err(AppError(NotFound, "File not found"))
    else
      var err := storageError(rows[id].data.bucket, rows[id].data.path);
      if err.Some? then Err(AppError(InternalServerError, "Supabase delete failed: " + err.value))
      else Ok(rows - {id})
  }

  /** Why `processUploadedFile` throws, if it does: the input check (400) comes before the
      upload, whose failure is a 500. */
  function UploadFailure(file: Option<Upload>, uploadError: Option<string>): (e: Option<AppError>)
    ensures e.None? <==> file.Some? && file.value.buffer.Some? && uploadError.None?
    ensures file.None? || file.value.buffer.None? ==> e == Some(AppError(BadRequest, "Invalid file upload input"))
    ensures file.Some? && file.value.buffer.Some? && uploadError.Some? ==>
              e == Some(AppError(InternalServerError, "Supabase upload failed: " + uploadError.value))
  {
    if file.None? || file.value.buffer.None? then Some(AppError(BadRequest, "Invalid file upload input"))
    else if uploadError.Some? then Some(AppError(InternalServerError, "Supabase upload failed: " + uploadError.value))
    else None
  }

  class FileService {
    var rows: map<string, FileInstance>
    /** `mime.extension`, from the mime-types library. */
    const extension: string -> Option<string>

    ghost predicate Valid()
      reads this
    {
      forall id :: id in rows ==> rows[id].id == id
    }

    constructor (extension: string -> Option<string>)
      ensures Valid() && rows == map[] && this.extension == extension
    {
      rows := map[];
      this.extension := extension;
    }

    /** The row `processUploadedFile` creates for an upload, stored under the name it builds. */
    function UploadRecord(file: Upload, bucket: string): (dto: CreateFileDto)
      ensures dto.filename == FileName(file.originalname, ExtensionOrEmpty(extension(file.mimetype)))
      ensures dto.path == dto.filename && dto.bucket == bucket
      ensures dto.mimeType == file.mimetype && dto.size == file.size
      ensures dto.fileType == MapMimeToFileType(Some(file.mimetype))
    {
      var ext := ExtensionOrEmpty(extension(file.mimetype));
      var filename := FileName(file.originalname, ext);
      CreateFileDto(filename, bucket, filename, file.mimetype, file.size, MapMimeToFileType(Some(file.mimetype)))
    }

    /** `create`: one new row with exactly the given fields, under a fresh id. */
    method Create(id: string, dto: CreateFileDto) returns (f: FileInstance)
      requires Valid() && id !in rows
      modifies this
      ensures Valid()
      ensures f == FileInstance(id, dto) && rows == old(rows)[id := f]
    {
      f := FileInstance(id, dto);
      rows := rows[id := f];
    }

    /** `findOne`: the row, or 404 for an unknown id. */
    function FindOne(id: string): (r: Result<FileInstance>)
      reads this
      ensures r.Ok? <==> id in rows
      ensures r.Ok? ==> r.value == rows[id]
      ensures r.Err? ==> r.error == AppError(NotFound, "File not found")
    {
      if id in rows then Ok(rows[id]) else Err(AppError(NotFound, "File not found"))
    }

    /** `remove`: 404 for an unknown id; a failed storage delete (500) keeps the row; otherwise
        exactly that row goes. `storageError(bucket, path)` is the outcome of the storage delete. */
    method Remove(id: string, storageError: (string, string) -> Option<string>) returns (r: Result<FileInstance>)
      requires Valid()
      modifies this
      ensures Valid()
      ensures var o := RemovalOutcome(old(rows), id, storageError);
              (o.Err? ==> r == Err(o.error) && rows == old(rows)) &&
              (o.Ok? ==> r == Ok(old(rows)[id]) && rows == o.value)
    {
      var file := FindOne(id);
      if file.Err? {
        return Err(file.error);
      }
      var err := storageError(file.value.data.bucket, file.value.data.path);
      if err.Some? {
        return Err(AppError(InternalServerError, "Supabase delete failed: " + err.value));
      }
      rows := rows - {id};
      r := Ok(file.value);
    }

    /** `bulkDelete`: the storage objects of the rows whose id is listed are deleted one after
        another; if any delete fails the rows stay and that failure (500) is reported, otherwise
        exactly the listed rows go and their number is returned. */
    method BulkDelete(ids: seq<string>, storageError: (string, string) -> Option<string>) returns (r: Result<nat>)
      requires Valid()
      modifies this
      ensures Valid()
      ensures var found := set id | id in old(rows) && id in ids;
              (exists id :: id in found && storageError(old(rows)[id].data.bucket, old(rows)[id].data.path).Some?) ==>
                rows == old(rows) &&
                exists id :: id in found && storageError(old(rows)[id].data.bucket, old(rows)[id].data.path).Some? &&
                             r == Err(AppError(InternalServerError, "Supabase delete failed: " +
                                                     storageError(old(rows)[id].data.bucket, old(rows)[id].data.path).value))
      ensures var found := set id | id in old(rows) && id in ids;
              (forall id :: id in found ==> storageError(old(rows)[id].data.bucket, old(rows)[id].data.path).None?) ==>
                r == Ok(|found|) && rows == map id | id in old(rows) && id !in ids :: old(rows)[id]
    {
      var files := set id | id in rows && id in ids;
      var pending := files;
      while pending != {}
        invariant pending <= files
        invariant forall id :: id in files && id !in pending ==>
                    storageError(rows[id].data.bucket, rows[id].data.path).None?
        decreases pending
      {
        var id :| id in pending;
        var err := storageError(rows[id].data.bucket, rows[id].data.path);
        if err.Some? {
          return Err(AppError(InternalServerError, "Supabase delete failed: " + err.value));
        }
        pending := pending - {id};
      }
      var count := |files|;
      rows := map id | id in rows && id !in ids :: rows[id];
      r := Ok(count);
    }

    /** `processUploadedFile`: 400 for a missing file or buffer, with nothing uploaded or stored;
        a failed upload (500) stores nothing; otherwise one row describing the upload is created.
        `uploadError` is the outcome of the storage upload. */
    method ProcessUploadedFile(file: Option<Upload>, bucket: string, uploadError: Option<string>, id: string)
      returns (r: Result<FileInstance>)
      requires Valid() && id !in rows
      modifies this
      ensures Valid()
      ensures var e := UploadFailure(file, uploadError);
              (e.Some? ==> r == Err(e.value) && rows == old(rows)) &&
              (e.None? ==> r == Ok(FileInstance(id, UploadRecord(file.value, bucket))) && rows == old(rows)[id := r.value])
    {
      if file.None? || file.value.buffer.None? {
        return Err(AppError(BadRequest, "Invalid file upload input"));
      }
      var upload := file.value;
      var ext := ExtensionOrEmpty(extension(upload.mimetype));
      var filename := FileName(upload.originalname, ext);
      var pathInBucket := filename;
      if uploadError.Some? {
        return Err(AppError(InternalServerError, "Supabase upload failed: " + uploadError.value));
      }
      var fileType := MapMimeToFileType(Some(upload.mimetype));
      var dto := CreateFileDto(filename, bucket, pathInBucket, upload.mimetype, upload.size, fileType);
      var created := Create(id, dto);
      r := Ok(created);
    }
  }
}
