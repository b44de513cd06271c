/**
 * Document storage and the `documents` table (hrms/app/Services/DocumentService.php).
 *
 * Object storage is a map from (disk name, key) to bytes; the `documents` table a map from id
 * to record; the `filesystems.disks` configuration a map from disk name to disk settings,
 * written by configureDisk. UUIDs, the current year, the authenticated user and the outcome of
 * each storage write are parameters.
 */
module DocumentService {
  import opened Wrappers
  import opened Text
  import opened StorageLocations
  import opened StorageDisks

  type Bytes = seq<bv8>

  /** The parts of the `UploadedFile` the service reads; `opens` is whether `fopen` gives a stream. */
  datatype UploadedFile = UploadedFile(
    originalName: string, extension: string, size: nat, mimeType: string, content: Bytes, opens: bool)

  /** The `$data` array of uploadDocument. */
  datatype UploadData = UploadData(
    ownerType: string, ownerId: string, orgId: Option<int>, companyId: Option<int>,
    documentTypeId: int, documentName: Option<string>)

  /** A `documents` row. */
  datatype Document = Document(
    id: nat, documentTypeId: int, documentLocationId: nat, orgId: Option<int>, companyId: Option<int>,
    userId: Option<nat>, ownerType: string, ownerId: string, docUrl: string, documentName: string,
    documentSize: nat, documentExtension: string, mimeType: string)

  /** What a failing `writeStream` throws: the SDK's S3Exception, or any other exception. */
  datatype WriteException =
    | S3Exception(awsErrorCode: Option<string>, awsErrorMessage: Option<string>, message: string)
    | OtherException(message: string, previous: Option<string>)

  /** How the call to `writeStream` ended. */
  datatype WriteOutcome = Written | Threw(exception: WriteException)

  /** The exceptions the service lets escape. */
  datatype DocumentError =
    /** 'No storage location configured for this organization/company' */
    | NoStorageLocation
    /** configureDisk's 'Wasabi/AWS configuration missing for location ID: <id>' */
    | DiskConfigMissing(cause: DiskError)
    /** 'Cloud Storage Error [<code>]: <message>' */
    | CloudStorageError(code: string, message: string)
    /** 'Storage Error: <detail>' */
    | StorageError(detail: string)
    /** 'File not found in storage' */
    | FileNotFound
    /** `findOrFail` found no document with this id */
    | DocumentNotFound(id: nat)
    /** the document's `location` relation is null, so configureDisk cannot run */
    | LocationMissing(locationId: nat)

  /** The catch blocks of uploadDocument: an S3 error keeps the AWS code and message, anything else its cause. */
  function TranslateWriteException(e: WriteException): DocumentError {
    match e
    case S3Exception(code, msg, m) => CloudStorageError(code.GetOr("Unknown"), msg.GetOr(m))
    case OtherException(m, previous) => StorageError(previous.GetOr(m))
  }

  /** The key a file is stored under: `owner_type/owner_id/year/uuid.extension`. */
  function StorageKey(ownerType: string, ownerId: string, year: nat, uuid: string, extension: string): string {
    ownerType + "/" + ownerId + "/" + NatToString(year) + "/" + uuid + "." + extension
  }

  /** The storage key reads back into its parts when the parts hold no '/'. */
  lemma StorageKeyParts(ownerType: string, ownerId: string, year: nat, uuid: string, extension: string)
    requires '/' !in ownerType && '/' !in ownerId && '/' !in uuid && '/' !in extension
    ensures Split(StorageKey(ownerType, ownerId, year, uuid, extension), '/')
            == [ownerType, ownerId, NatToString(year), uuid + "." + extension]
  {
    var y := NatToString(year);
    var file := uuid + "." + extension;
    DigitsHaveNoSlash(year);
    FileNameHasNoSlash(uuid, extension);
    SplitWithoutSeparator(file, '/');
    var s3 := y + ['/'] + file;
    var s2 := ownerId + ['/'] + s3;
    var s1 := ownerType + ['/'] + s2;
    SplitAfterPiece(y, '/', file);
    SplitAfterPiece(ownerId, '/', s3);
    SplitAfterPiece(ownerType, '/', s2);
    KeyAssociates(ownerType, ownerId, y, file);
    FileNameAssociates(ownerType, ownerId, year, uuid, extension);
    var key := StorageKey(ownerType, ownerId, year, uuid, extension);
    assert key == s1;
    var p3 := Split(s3, '/');
    assert p3 == [y, file];
    var p2 := Split(s2, '/');
    assert p2 == [ownerId] + p3;
    assert Split(key, '/') == [ownerType] + p2;
    ConsFour(ownerType, ownerId, y, file, p2, p3);
  }

  lemma ConsFour<T>(a: T, b: T, c: T, d: T, p2: seq<T>, p3: seq<T>)
    requires p3 == [c, d] && p2 == [b] + p3
    ensures [a] + p2 == [a, b, c, d]
  {
  }

  lemma DigitsHaveNoSlash(n: nat)
    ensures '/' !in NatToString(n)
  {
  }

  lemma FileNameHasNoSlash(uuid: string, extension: string)
    requires '/' !in uuid && '/' !in extension
    ensures '/' !in uuid + "." + extension
  {
  }

  lemma KeyAssociates(t: string, o: string, y: string, f: string)
    ensures t + "/" + o + "/" + y + "/" + f == t + ['/'] + (o + ['/'] + (y + ['/'] + f))
  {
    assert t + "/" + o + "/" + y + "/" + f == t + ['/'] + (o + ['/'] + (y + ['/'] + f));
  }

  lemma FileNameAssociates(ownerType: string, ownerId: string, year: nat, uuid: string, extension: string)
    ensures StorageKey(ownerType, ownerId, year, uuid, extension)
         == ownerType + "/" + ownerId + "/" + NatToString(year) + "/" + (uuid + "." + extension)
  {
  }

  /** Two uploads with different owners, years or UUIDs never share a key. */
  lemma StorageKeysDistinct(t1: string, o1: string, y1: nat, u1: string, e1: string,
                            t2: string, o2: string, y2: nat, u2: string, e2: string)
    requires '/' !in t1 && '/' !in o1 && '/' !in u1 && '/' !in e1
    requires '/' !in t2 && '/' !in o2 && '/' !in u2 && '/' !in e2
    requires StorageKey(t1, o1, y1, u1, e1) == StorageKey(t2, o2, y2, u2, e2)
    ensures t1 == t2 && o1 == o2 && y1 == y2 && u1 + "." + e1 == u2 + "." + e2
  {
    StorageKeyParts(t1, o1, y1, u1, e1);
    StorageKeyParts(t2, o2, y2, u2, e2);
    NatToStringInjective(y1, y2);
  }

  /** The row `Document::create` writes after a successful upload. */
  function NewDocument(id: nat, data: UploadData, locationId: nat, userId: Option<nat>, key: string, file: UploadedFile): Document {
    Document(id, data.documentTypeId, locationId, data.orgId, data.companyId, userId, data.ownerType,
             data.ownerId, key, data.documentName.GetOr(file.originalName), file.size, file.extension, file.mimeType)
  }

  /** The `documents` row lookup `$document->location` does: DocumentLocation by id. */
  function LocationById(table: seq<Location>, id: nat): (r: Option<Location>)
    ensures r.Some? ==> r.value in table && r.value.id == id
    ensures r.None? ==> forall j :: 0 <= j < |table| ==> table[j].id != id
  {
    if |table| == 0 then None
    else if table[0].id == id then Some(table[0])
    else LocationById(table[1..], id)
  }

  /** The disk configuration after configureDisk registered its choice. */
  function Register(disks: map<string, DiskConfig>, choice: DiskChoice): map<string, DiskConfig> {
    match choice
    case PublicDisk => disks
    case DynamicDisk(n, c) => disks[n := c]
  }

  /** The two URL kinds getDocumentUrl hands out. */
  datatype DocumentUrl =
    | PublicUrl(key: string)
    | TemporaryUrl(disk: string, key: string, minutes: nat)

  class DocumentStore {
    /** `document_locations`, in table order. */
    var locations: seq<Location>
    /** The wasabiConfig / awsConfig relations, by location id. */
    var wasabiConfigs: map<nat, CloudConfig>
    var awsConfigs: map<nat, CloudConfig>
    /** The `filesystems.disks` entries registered at run time. */
    var disks: map<string, DiskConfig>
    /** Stored objects by (disk name, key). */
    var objects: map<(string, string), Bytes>
    /** `documents`, by id; ids below nextDocumentId have been handed out. */
    var documents: map<nat, Document>
    var nextDocumentId: nat

    ghost predicate Valid()
      reads this`locations, this`documents, this`nextDocumentId
    {
      && (forall i, j :: 0 <= i < j < |locations| ==> locations[i].id != locations[j].id)
      && (forall id :: id in documents ==> documents[id].id == id && id < nextDocumentId)
    }

    constructor (locations: seq<Location>, wasabiConfigs: map<nat, CloudConfig>, awsConfigs: map<nat, CloudConfig>)
      requires forall i, j :: 0 <= i < j < |locations| ==> locations[i].id != locations[j].id
      ensures Valid()
      ensures this.locations == locations && this.wasabiConfigs == wasabiConfigs && this.awsConfigs == awsConfigs
      ensures disks == map[] && objects == map[] && documents == map[] && nextDocumentId == 1
    {
      this.locations := locations;
      this.wasabiConfigs := wasabiConfigs;
      this.awsConfigs := awsConfigs;
      disks := map[];
      objects := map[];
      documents := map[];
      nextDocumentId := 1;
    }

    /** The location an upload with this `$data` resolves to. */
    function Target(data: UploadData): Option<Location>
      reads this`locations
    {
      Resolved(locations, UploadContext(data.orgId, data.companyId))
    }

    /** The disk an upload with this `$data` writes to, when its location resolves and configures. */
    function TargetDisk(data: UploadData): Option<DiskChoice>
      reads this`locations, this`wasabiConfigs, this`awsConfigs
    {
      match Target(data)
      case None => None
      case Some(l) => if Plan(l).Ok? then Some(Plan(l).value) else None
    }

    /** configureDisk's decision for `l`, from the location's loaded config records. */
    function Plan(l: Location): Result<DiskChoice, DiskError>
      reads this`wasabiConfigs, this`awsConfigs
    {
      PlanDisk(l, if l.id in wasabiConfigs then Some(wasabiConfigs[l.id]) else None,
                  if l.id in awsConfigs then Some(awsConfigs[l.id]) else None)
    }

    /** configureDisk: registers the location's disk (for cloud types) and returns its name. */
    method ConfigureDisk(l: Location) returns (r: Result<string, DiskError>)
      modifies this`disks
      ensures Plan(l).Err? ==> r == Err(Plan(l).error) && disks == old(disks)
      ensures Plan(l).Ok? ==> r == Ok(Plan(l).value.Name()) && disks == Register(old(disks), Plan(l).value)
    {
      var plan := Plan(l);
      match plan
      case Err(e) =>
        r := Err(e);
      case Ok(choice) =>
        if choice.DynamicDisk? {
          disks := disks[choice.name := choice.config];
        }
        r := Ok(choice.Name());
    }

    /**
     * uploadDocument: resolve the location, configure its disk, write the file under a fresh
     * key, and only after the write returned create the `documents` row.
     */
    method Upload(file: UploadedFile, data: UploadData, uuid: string, year: nat, userId: Option<nat>, write: WriteOutcome)
      returns (r: Result<Document, DocumentError>)
      requires Valid()
      modifies this`disks, this`objects, this`documents, this`nextDocumentId
      ensures Valid()
      ensures Target(data).None? ==> r == Err(NoStorageLocation) && disks == old(disks)
      ensures Target(data).Some? && Plan(Target(data).value).Err? ==>
                r == Err(DiskConfigMissing(Plan(Target(data).value).error)) && disks == old(disks)
      ensures TargetDisk(data).Some? ==> disks == Register(old(disks), TargetDisk(data).value)
      ensures TargetDisk(data).Some? && !file.opens ==> r == Err(StorageError("Unable to open file stream"))
      ensures TargetDisk(data).Some? && file.opens && write.Threw? ==> r == Err(TranslateWriteException(write.exception))
      ensures TargetDisk(data).Some? && file.opens && write.Written? ==>
                var key := StorageKey(data.ownerType, data.ownerId, year, uuid, file.extension);
                && objects == old(objects)[(TargetDisk(data).value.Name(), key) := file.content]
                && r == Ok(NewDocument(old(nextDocumentId), data, Target(data).value.id, userId, key, file))
      ensures r.Ok? ==> documents == old(documents)[r.value.id := r.value] && r.value.id !in old(documents)
                        && nextDocumentId == old(nextDocumentId) + 1
      ensures r.Err? ==> documents == old(documents) && objects == old(objects) && nextDocumentId == old(nextDocumentId)
    {
      var target := ResolveDisk(data);
      if target.Err? {
        return Err(target.error);
      }
      var (location, disk) := target.value;
      var key := StorageKey(data.ownerType, data.ownerId, year, uuid, file.extension);
      r := WriteThenRecord(disk, key, location.id, file, data, userId, write);
    }

    /** Steps 1 to 3 of uploadDocument: the storage location and the name of its configured disk. */
    method ResolveDisk(data: UploadData) returns (r: Result<(Location, string), DocumentError>)
      modifies this`disks
      ensures Target(data).None? ==> r == Err(NoStorageLocation) && disks == old(disks)
      ensures Target(data).Some? && Plan(Target(data).value).Err? ==>
                r == Err(DiskConfigMissing(Plan(Target(data).value).error)) && disks == old(disks)
      ensures TargetDisk(data).Some? ==>
                && r == Ok((Target(data).value, TargetDisk(data).value.Name()))
                && disks == Register(old(disks), TargetDisk(data).value)
    {
      var location := DetermineStorageLocation(locations, UploadContext(data.orgId, data.companyId));
      if location.None? {
        return Err(NoStorageLocation);
      }
      var disk := ConfigureDisk(location.value);
      if disk.Err? {
        return Err(DiskConfigMissing(disk.error));
      }
      r := Ok((location.value, disk.value));
    }

    /**
     * Steps 5 and 6 of uploadDocument: stream the file to the disk, and create the
     * `documents` row only once the write returned.
     */
    method WriteThenRecord(disk: string, key: string, locationId: nat, file: UploadedFile, data: UploadData,
                           userId: Option<nat>, write: WriteOutcome)
      returns (r: Result<Document, DocumentError>)
      requires Valid()
      modifies this`objects, this`documents, this`nextDocumentId
      ensures Valid()
      ensures !file.opens ==> r == Err(StorageError("Unable to open file stream"))
      ensures file.opens && write.Threw? ==> r == Err(TranslateWriteException(write.exception))
      ensures file.opens && write.Written? ==>
                && objects == old(objects)[(disk, key) := file.content]
                && r == Ok(NewDocument(old(nextDocumentId), data, locationId, userId, key, file))
                && documents == old(documents)[r.value.id := r.value] && r.value.id !in old(documents)
                && nextDocumentId == old(nextDocumentId) + 1
      ensures r.Err? ==> documents == old(documents) && objects == old(objects) && nextDocumentId == old(nextDocumentId)
    {
      if !file.opens {
        return Err(StorageError("Unable to open file stream"));
      }
      match write
      case Threw(e) =>
        return Err(TranslateWriteException(e));
      case Written =>
        objects := objects[(disk, key) := file.content];
      var document := NewDocument(nextDocumentId, data, locationId, userId, key, file);
      documents := documents[document.id := document];
      nextDocumentId := nextDocumentId + 1;
      r := Ok(document);
    }

    /** The document's `location` relation, then configureDisk on it: the location and its disk name. */
    method LocationDisk(locationId: nat) returns (r: Result<(Location, string), DocumentError>)
      modifies this`disks
      ensures var location := LocationById(locations, locationId);
              && (location.None? ==> r == Err(LocationMissing(locationId)) && disks == old(disks))
              && (location.Some? && Plan(location.value).Err? ==>
                    r == Err(DiskConfigMissing(Plan(location.value).error)) && disks == old(disks))
              && (location.Some? && Plan(location.value).Ok? ==>
                    && r == Ok((location.value, Plan(location.value).value.Name()))
                    && disks == Register(old(disks), Plan(location.value).value))
    {
      var location := LocationById(locations, locationId);
      if location.None? {
        return Err(LocationMissing(locationId));
      }
      var disk := ConfigureDisk(location.value);
      if disk.Err? {
        return Err(DiskConfigMissing(disk.error));
      }
      r := Ok((location.value, disk.value));
    }

    /** deleteDocument: remove the stored file if it exists, then the row. */
    method Delete(id: nat) returns (r: Result<bool, DocumentError>)
      requires Valid()
      modifies this`disks, this`objects, this`documents
      ensures Valid()
      ensures id !in old(documents) ==> r == Err(DocumentNotFound(id)) && disks == old(disks)
      ensures id in old(documents) ==>
                var doc := old(documents)[id];
                var location := LocationById(locations, doc.documentLocationId);
                && (location.None? ==> r == Err(LocationMissing(doc.documentLocationId)) && disks == old(disks))
                && (location.Some? && Plan(location.value).Err? ==>
                      r == Err(DiskConfigMissing(Plan(location.value).error)) && disks == old(disks))
                && (location.Some? && Plan(location.value).Ok? ==>
                      && disks == Register(old(disks), Plan(location.value).value)
                      && objects == old(objects) - {(Plan(location.value).value.Name(), doc.docUrl)}
                      && documents == old(documents) - {id}
                      && r == Ok(true))
      ensures r.Err? ==> documents == old(documents) && objects == old(objects)
    {
      if id !in documents {
        return Err(DocumentNotFound(id));
      }
      var document := documents[id];
      var target := LocationDisk(document.documentLocationId);
      if target.Err? {
        return Err(target.error);
      }
      var disk := target.value.1;
      if (disk, document.docUrl) in objects {
        objects := objects - {(disk, document.docUrl)};
      } else {
        assert objects == objects - {(disk, document.docUrl)};
      }
      documents := documents - {id};
      r := Ok(true);
    }

    /** updateDocumentMetadata: only the name and the type change; a missing key keeps the old value. */
    method UpdateMetadata(id: nat, documentName: Option<string>, documentTypeId: Option<int>)
      returns (r: Result<Document, DocumentError>)
      requires Valid()
      modifies this`documents
      ensures Valid()
      ensures id !in old(documents) ==> r == Err(DocumentNotFound(id)) && documents == old(documents)
      ensures id in old(documents) ==>
                var doc := old(documents)[id];
                && r == Ok(doc.(documentName := documentName.GetOr(doc.documentName),
                                documentTypeId := documentTypeId.GetOr(doc.documentTypeId)))
                && documents == old(documents)[id := r.value]
    {
      if id !in documents {
        return Err(DocumentNotFound(id));
      }
      var document := documents[id];
      document := document.(documentName := documentName.GetOr(document.documentName),
                            documentTypeId := documentTypeId.GetOr(document.documentTypeId));
      documents := documents[id := document];
      r := Ok(document);
    }

    /** downloadDocument: the stored bytes of the document, from the disk of ITS location. */
    method Download(doc: Document) returns (r: Result<Bytes, DocumentError>)
      modifies this`disks
      ensures var location := LocationById(locations, doc.documentLocationId);
              && (location.None? ==> r == Err(LocationMissing(doc.documentLocationId)) && disks == old(disks))
              && (location.Some? && Plan(location.value).Err? ==>
                    r == Err(DiskConfigMissing(Plan(location.value).error)) && disks == old(disks))
              && (location.Some? && Plan(location.value).Ok? ==>
                    var k := (Plan(location.value).value.Name(), doc.docUrl);
                    && disks == Register(old(disks), Plan(location.value).value)
                    && r == if k in objects then Ok(objects[k]) else Err(FileNotFound))
    {
      var target := LocationDisk(doc.documentLocationId);
      if target.Err? {
        return Err(target.error);
      }
      var disk := target.value.1;
      if (disk, doc.docUrl) !in objects {
        return Err(FileNotFound);
      }
      r := Ok(objects[(disk, doc.docUrl)]);
    }

    /** getDocumentUrl: a public URL for local locations, a 60-minute signed URL otherwise. */
    method GetDocumentUrl(doc: Document) returns (r: Result<DocumentUrl, DocumentError>)
      modifies this`disks
      ensures var location := LocationById(locations, doc.documentLocationId);
              && (location.None? ==> r == Err(LocationMissing(doc.documentLocationId)))
              && (location.Some? && Plan(location.value).Err? ==> r == Err(DiskConfigMissing(Plan(location.value).error)))
              && (location.Some? && Plan(location.value).Ok? ==>
                    && disks == Register(old(disks), Plan(location.value).value)
                    && r == if location.value.locationType == LocalType then Ok(PublicUrl(doc.docUrl))
                            else Ok(TemporaryUrl(Plan(location.value).value.Name(), doc.docUrl, 60)))
      ensures r.Err? ==> disks == old(disks)
    {
      var target := LocationDisk(doc.documentLocationId);
      if target.Err? {
        return Err(target.error);
      }
      var (location, disk) := target.value;
      if location.locationType == LocalType {
        return Ok(PublicUrl(doc.docUrl));
      }
      r := Ok(TemporaryUrl(disk, doc.docUrl, 60));
    }
  }

  /** Downloading a freshly uploaded document gives back exactly the uploaded bytes. */
  method UploadThenDownload(store: DocumentStore, file: UploadedFile, data: UploadData, uuid: string, year: nat,
                            userId: Option<nat>, write: WriteOutcome)
    returns (uploaded: Result<Document, DocumentError>, downloaded: Result<Bytes, DocumentError>)
    requires store.Valid()
    modifies store
    ensures store.Valid()
    ensures uploaded.Ok? ==> downloaded == Ok(file.content)
  {
    uploaded := store.Upload(file, data, uuid, year, userId, write);
    if uploaded.Err? {
      return uploaded, Err(FileNotFound);
    }
    var found := Resolved(store.locations, UploadContext(data.orgId, data.companyId));
    LocationByIdFindsResolved(store.locations, found.value);
    downloaded := store.Download(uploaded.value);
  }

  /**
   * The location an upload resolves lies in the table, so looking it up by id finds a location
   * with the same id; with unique ids it is the same location.
   */
  lemma LocationByIdFindsResolved(table: seq<Location>, l: Location)
    requires l in table
    requires forall i, j :: 0 <= i < j < |table| ==> table[i].id != table[j].id
    ensures LocationById(table, l.id) == Some(l)
  {
  }

  /** Deleting twice: the second call finds no document and changes nothing. */
  method DeleteTwice(store: DocumentStore, id: nat) returns (first: Result<bool, DocumentError>, second: Result<bool, DocumentError>)
    requires store.Valid()
    modifies store
    ensures first.Ok? ==> id in old(store.documents) && id !in store.documents
    ensures first.Ok? ==> second == Err(DocumentNotFound(id))
    ensures id !in old(store.documents) ==> first == Err(DocumentNotFound(id)) && second == first
  {
    first := store.Delete(id);
    second := store.Delete(id);
  }
}
