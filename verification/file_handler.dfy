/** Storage-backend selection and the three handlers' observable behaviour (file_handler.py).
    The calls into boto3, the Cloudinary SDK and `requests` are outside the model: what is
    kept is which handler is chosen, which error is raised, the metadata each upload hands
    back, and the local handler's effect on the disk. */
module FileHandler {
  import opened Wrappers
  import opened Config
  import opened StorageKeys

  newtype byte = x: int | 0 <= x < 256

  /** `LocalHandler.__init__` sets `upload_dir`. */
  const DefaultUploadDir := "uploads"

  /** `CloudinaryHandler.__init__` fixes the asset version stamp used in every URL. */
  const CloudinaryVersion := "1759064043"

  /** A constructed handler, with the fields its `__init__` keeps. */
  datatype Backend =
    | LocalBackend(uploadDir: string)
    | S3Backend(bucket: string)
    | CloudinaryBackend(cloudName: string, version: string)
  {
    /** The `storage_type` tag the handler's `upload` records. */
    function StorageType(): string
    {
      match this
      case LocalBackend(_) => "local"
      case S3Backend(_) => "s3"
      case CloudinaryBackend(_, _) => "cloudinary"
    }
  }

  /** The upload's file: its name, declared content type and the bytes `file.read()` yields. */
  datatype UploadFile = UploadFile(filename: string, contentType: string, content: seq<byte>)

  /** The metadata `upload` returns for the caller to persist. */
  datatype UploadResult = UploadResult(storageType: string, storageKey: string)

  /** What `cloudinary.uploader.upload` answers: the detected resource type and the public id. */
  datatype HostedAsset = HostedAsset(resourceType: string, publicId: string)

  /** `get_storage_handler`: the handler new uploads go to. */
  function GetStorageHandler(s: Settings): (r: Result<Backend>)
    // only a prod configuration whose provider's primary identifier is present can raise
    ensures r.Err? ==> (s.environment == Prod &&
      ((s.cloudProvider == Some(S3Provider) && Present(s.s3Bucket)
        && r.error == ValueError("S3 credentials missing")) ||
       (s.cloudProvider == Some(CloudinaryProvider) && Present(s.cloudinaryCloudName)
        && r.error == ValueError("Cloudinary credentials missing"))))
    // a cloud handler is only built from a complete credential set of the chosen provider
    ensures r.Ok? && r.value.S3Backend? ==>
      s.environment == Prod && s.cloudProvider == Some(S3Provider) && S3Ready(s)
      && r.value.bucket == s.s3Bucket.value
    ensures r.Ok? && r.value.CloudinaryBackend? ==>
      s.environment == Prod && s.cloudProvider == Some(CloudinaryProvider) && CloudinaryReady(s)
      && r.value == CloudinaryBackend(s.cloudinaryCloudName.value, CloudinaryVersion)
    ensures r.Ok? && r.value.LocalBackend? ==> r.value.uploadDir == DefaultUploadDir
  {
    match s.environment
    case Dev => Ok(LocalBackend(DefaultUploadDir))
    case Prod =>
      if s.cloudProvider == Some(S3Provider) && Present(s.s3Bucket) then
        if !(Present(s.awsAccessKeyId) && Present(s.awsSecretAccessKey)) then
          Err(ValueError("S3 credentials missing"))
        else
          Ok(S3Backend(s.s3Bucket.value))
      else if s.cloudProvider == Some(CloudinaryProvider) && Present(s.cloudinaryCloudName) then
        if !(Present(s.cloudinaryApiKey) && Present(s.cloudinaryApiSecret)) then
          Err(ValueError("Cloudinary credentials missing"))
        else
          Ok(CloudinaryBackend(s.cloudinaryCloudName.value, CloudinaryVersion))
      else
        Ok(LocalBackend(DefaultUploadDir))
  }

  /** `get_handler_for_type`: the handler that serves a stored record of the given type. */
  function GetHandlerForType(storageType: string, s: Settings): (r: Result<Backend>)
    ensures r.Ok? <==>
      storageType == "local" ||
      (storageType == "s3" && S3Ready(s)) ||
      (storageType == "cloudinary" && CloudinaryReady(s))
    ensures r.Ok? ==> r.value.StorageType() == storageType
    ensures storageType !in {"local", "s3", "cloudinary"} ==>
      r == Err(ValueError("Unknown storage type: " + storageType))
  {
    if storageType == "local" then
      Ok(LocalBackend(DefaultUploadDir))
    else if storageType == "s3" then
      if !(Present(s.s3Bucket) && Present(s.awsAccessKeyId) && Present(s.awsSecretAccessKey)) then
        Err(ValueError("S3 config missing for download"))
      else
        Ok(S3Backend(s.s3Bucket.value))
    else if storageType == "cloudinary" then
      if !(Present(s.cloudinaryCloudName) && Present(s.cloudinaryApiKey) && Present(s.cloudinaryApiSecret)) then
        Err(ValueError("Cloudinary config missing for download"))
      else
        Ok(CloudinaryBackend(s.cloudinaryCloudName.value, CloudinaryVersion))
    else
      Err(ValueError("Unknown storage type: " + storageType))
  }

  // ---------------------------------------------------------------------------------------
  // Properties of the two selectors

  /** In dev every upload goes to local disk, whatever the provider and credentials say. */
  lemma DevAlwaysLocal(s: Settings)
    requires s.environment == Dev
    ensures GetStorageHandler(s) == Ok(LocalBackend(DefaultUploadDir))
  {
  }

  /** Prod with provider s3 and a bucket: S3 exactly when key and secret are present,
      otherwise "S3 credentials missing"; the region plays no part. */
  lemma ProdS3Selection(s: Settings)
    requires s.environment == Prod && s.cloudProvider == Some(S3Provider) && Present(s.s3Bucket)
    ensures GetStorageHandler(s) ==
      if Present(s.awsAccessKeyId) && Present(s.awsSecretAccessKey)
      then Ok(S3Backend(s.s3Bucket.value))
      else Err(ValueError("S3 credentials missing"))
  {
  }

  /** Prod with provider cloudinary and a cloud name: Cloudinary exactly when API key and
      secret are present, otherwise "Cloudinary credentials missing". */
  lemma ProdCloudinarySelection(s: Settings)
    requires s.environment == Prod && s.cloudProvider == Some(CloudinaryProvider)
    requires Present(s.cloudinaryCloudName)
    ensures GetStorageHandler(s) ==
      if Present(s.cloudinaryApiKey) && Present(s.cloudinaryApiSecret)
      then Ok(CloudinaryBackend(s.cloudinaryCloudName.value, CloudinaryVersion))
      else Err(ValueError("Cloudinary credentials missing"))
  {
  }

  /** Prod without the chosen provider's primary identifier (or with no provider) silently
      falls back to local disk. */
  lemma ProdFallsBackToLocal(s: Settings)
    requires s.environment == Prod
    requires !(s.cloudProvider == Some(S3Provider) && Present(s.s3Bucket))
    requires !(s.cloudProvider == Some(CloudinaryProvider) && Present(s.cloudinaryCloudName))
    ensures GetStorageHandler(s) == Ok(LocalBackend(DefaultUploadDir))
  {
  }

  /** With nothing configured (prod, cloudinary, no cloud name) uploads go to local disk. */
  lemma DefaultSettingsSelectLocal()
    ensures GetStorageHandler(DefaultSettings()) == Ok(LocalBackend(DefaultUploadDir))
  {
  }

  /** Neither selector ever looks at the AWS region. */
  lemma RegionNeverChecked(s: Settings, region: Option<string>, storageType: string)
    ensures GetStorageHandler(s.(awsRegion := region)) == GetStorageHandler(s)
    ensures GetHandlerForType(storageType, s.(awsRegion := region)) == GetHandlerForType(storageType, s)
  {
  }

  /** Resolving a stored record depends on its type and the credentials only: neither the
      environment nor the provider preference plays a part. */
  lemma ResolutionIgnoresPreference(storageType: string, s: Settings, e: Environment, p: Option<Provider>)
    ensures GetHandlerForType(storageType, s.(environment := e, cloudProvider := p))
         == GetHandlerForType(storageType, s)
  {
  }

  /** Whatever handler takes an upload, the type tag it records resolves, under the same
      settings, to that very handler: stored documents can be served back. */
  lemma UploadHandlerResolvesBack(s: Settings)
    requires GetStorageHandler(s).Ok?
    ensures GetHandlerForType(GetStorageHandler(s).value.StorageType(), s) == GetStorageHandler(s)
  {
  }

  // ---------------------------------------------------------------------------------------
  // Upload metadata of the cloud handlers

  /** `S3Handler.upload`'s metadata once `put_object` has succeeded. */
  function S3Upload(file: UploadFile, accountId: string): (r: UploadResult)
    ensures r.storageType == "s3" && r.storageKey == S3Key(accountId, file.filename)
    ensures '/' !in accountId ==> SplitOnce(r.storageKey, '/') == Some((accountId, file.filename))
  {
    if '/' in accountId then
      UploadResult("s3", S3Key(accountId, file.filename))
    else
      S3KeyNamesAccount(accountId, file.filename);
      UploadResult("s3", S3Key(accountId, file.filename))
  }

  /** `CloudinaryHandler.upload`'s metadata, built from the hosting service's answer. */
  function CloudinaryUpload(asset: HostedAsset): (r: UploadResult)
    ensures r.storageType == "cloudinary"
    ensures ':' !in asset.resourceType ==>
      ParseCloudinaryKey(r.storageKey) == Ok((asset.resourceType, asset.publicId))
  {
    if ':' in asset.resourceType then
      UploadResult("cloudinary", CloudinaryKey(asset.resourceType, asset.publicId))
    else
      CloudinaryKeyRoundTrip(asset.resourceType, asset.publicId);
      UploadResult("cloudinary", CloudinaryKey(asset.resourceType, asset.publicId))
  }

  /** A Cloudinary record, resolved under the settings it was uploaded with, yields the
      image URL of its public id, whatever resource type it records. */
  lemma CloudinaryRecordUrl(s: Settings, asset: HostedAsset)
    requires CloudinaryReady(s)
    requires ':' !in asset.resourceType
    ensures var meta := CloudinaryUpload(asset);
      GetHandlerForType(meta.storageType, s) == Ok(CloudinaryBackend(s.cloudinaryCloudName.value, CloudinaryVersion)) &&
      CloudinaryUrl(s.cloudinaryCloudName.value, CloudinaryVersion, meta.storageKey)
        == Ok(CloudinaryHost + s.cloudinaryCloudName.value + "/image/upload/v" + CloudinaryVersion + "/" + asset.publicId + ".png")
  {
    CloudinaryUrlOfKey(s.cloudinaryCloudName.value, CloudinaryVersion, asset.resourceType, asset.publicId);
  }

  // ---------------------------------------------------------------------------------------
  // Local disk

  /** The files on disk, by path; every local handler reads and writes the same one. */
  class FileSystem {
    var files: map<string, seq<byte>>

    constructor ()
      ensures files == map[]
    {
      files := map[];
    }
  }

  /** `LocalHandler`: stores under `upload_dir/account_id/filename`, reads a path back,
      and has no URLs. */
  class LocalHandler {
    var uploadDir: string
    const fs: FileSystem

    constructor (fs: FileSystem)
      ensures uploadDir == DefaultUploadDir && this.fs == fs
    {
      uploadDir := DefaultUploadDir;
      this.fs := fs;
    }

    /** Writes the file's bytes at its path, replacing what was there, and reports the path. */
    method Upload(file: UploadFile, accountId: string) returns (meta: UploadResult)
      modifies fs
      ensures meta == UploadResult("local", LocalKey(uploadDir, accountId, file.filename))
      ensures fs.files == old(fs.files)[meta.storageKey := file.content]
    {
      var path := LocalKey(uploadDir, accountId, file.filename);
      fs.files := fs.files[path := file.content];
      meta := UploadResult("local", path);
    }

    /** Reads back the bytes stored at a path; `open` raises when there is no such file. */
    method Download(localPath: string) returns (r: Result<seq<byte>>)
      ensures localPath in fs.files ==> r == Ok(fs.files[localPath])
      ensures localPath !in fs.files ==> r == Err(FileNotFound(localPath))
    {
      if localPath in fs.files {
        r := Ok(fs.files[localPath]);
      } else {
        r := Err(FileNotFound(localPath));
      }
    }

    /** Local files have no URL. */
    method GetUrl(localPath: string) returns (url: Option<string>)
      ensures url == None
    {
      url := None;
    }
  }

  /** Two uploads of the same file name for one account on a fresh disk, then a read by a
      second handler (as `get_handler_for_type("local")` builds one): the key has the
      `uploads/account/filename` form, the first read returns the first bytes, the second
      upload overwrites them, and there is no URL. */
  method LocalRoundTripScenario(accountId: string, filename: string, first: seq<byte>, second: seq<byte>)
    returns (meta: UploadResult, before: Result<seq<byte>>, after: Result<seq<byte>>, url: Option<string>)
    ensures meta == UploadResult("local", "uploads/" + accountId + "/" + filename)
    ensures before == Ok(first)
    ensures after == Ok(second)
    ensures url == None
  {
    var fs := new FileSystem();
    var uploader := new LocalHandler(fs);
    var m1 := uploader.Upload(UploadFile(filename, "text/plain", first), accountId);
    var reader := new LocalHandler(fs);
    before := reader.Download(m1.storageKey);
    meta := uploader.Upload(UploadFile(filename, "text/plain", second), accountId);
    after := reader.Download(meta.storageKey);
    url := reader.GetUrl(meta.storageKey);
  }
}
