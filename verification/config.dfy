/** The configuration record the storage selectors read (settings.py). */
module Config {
  import opened Wrappers

  /** `environment: Literal["dev", "prod"]`; the settings loader rejects any other tag. */
  datatype Environment = Dev | Prod

  /** The values of `cloud_provider: Optional[Literal["s3", "cloudinary"]]` other than None. */
  datatype Provider = S3Provider | CloudinaryProvider

  /** The storage-related fields of `Settings`, each optional string kept as it was loaded. */
  datatype Settings = Settings(
    s3Bucket: Option<string>,
    awsAccessKeyId: Option<string>,
    awsSecretAccessKey: Option<string>,
    awsRegion: Option<string>,
    environment: Environment,
    cloudProvider: Option<Provider>,
    cloudinaryCloudName: Option<string>,
    cloudinaryApiKey: Option<string>,
    cloudinaryApiSecret: Option<string>)

  /** Python truthiness of an optional string: neither None nor the empty string. */
  predicate Present(o: Option<string>)
  {
    o.Some? && o.value != ""
  }

  /** The record loaded when no variable is set: region "us-east-1", environment prod,
      provider cloudinary, every credential None. */
  function DefaultSettings(): (s: Settings)
    ensures s.environment == Prod && s.cloudProvider == Some(CloudinaryProvider)
    ensures s.awsRegion == Some("us-east-1")
    ensures !Present(s.s3Bucket) && !Present(s.awsAccessKeyId) && !Present(s.awsSecretAccessKey)
    ensures !Present(s.cloudinaryCloudName) && !Present(s.cloudinaryApiKey) && !Present(s.cloudinaryApiSecret)
  {
    Settings(None, None, None, Some("us-east-1"), Prod, Some(CloudinaryProvider), None, None, None)
  }

  /** Bucket, access key and secret are all present: what an S3 handler needs. */
  predicate S3Ready(s: Settings)
  {
    Present(s.s3Bucket) && Present(s.awsAccessKeyId) && Present(s.awsSecretAccessKey)
  }

  /** Cloud name, API key and API secret are all present: what a Cloudinary handler needs. */
  predicate CloudinaryReady(s: Settings)
  {
    Present(s.cloudinaryCloudName) && Present(s.cloudinaryApiKey) && Present(s.cloudinaryApiSecret)
  }
}
