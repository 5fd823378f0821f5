# Storage selection, storage keys and rate limiting of a document-intake API

This project models, in Dafny, the two pieces of the document-intake gateway that carry
real decisions:

* **Storage backends** (`file_handler.py`). `get_storage_handler` chooses where a new
  upload goes (local disk, an S3 bucket or Cloudinary) from the environment tag, the
  provider preference and which credentials are present; `get_handler_for_type`
  resolves the handler for a stored record from its recorded `storage_type`. Each
  handler produces a backend-specific storage key (`uploads/account/filename`,
  `account/filename`, `resource_type:public_id`); Cloudinary keys are split back with
  `split(":", 1)` and turned into a delivery URL. The local handler writes to and reads
  from a disk modelled as a map from path to bytes.
* **Rate limiter** (`rate_limiter.py`). `RateLimiter.is_allowed` keeps, per client, the
  timestamps of the calls it let through, prunes them to the sliding window on every
  call, refuses when the pruned log has reached the limit, and otherwise appends the
  current time.

Files:

* `wrappers.dfy` — `Option`, `Result` and the two Python exceptions the code raises
  (`ValueError`, and the `FileNotFoundError` of `open`).
* `config.dfy` — the storage fields of `Settings`, Python truthiness of an optional
  string (`Present`: neither None nor ""), and the defaults.
* `storage_keys.dfy` — key formats, `split(":", 1)`, Cloudinary key parsing and the
  delivery URL, with the round-trip and injectivity lemmas.
* `file_handler.dfy` — the handler values, both selectors and their properties, the
  cloud uploads' metadata, and the local handler as a class over a shared `FileSystem`
  object. The selectors return a `Backend` value; for `LocalBackend` the caller builds a
  `LocalHandler` on the disk, whose `uploadDir` is the same `DefaultUploadDir`. Every
  local handler built this way reads and writes the same disk.
* `rate_limiter.dfy` — the pruning function, the `RateLimiter` class, and the
  scenarios of the limiter's tests as verified client methods.

Behaviour of the code worth knowing, all of it modelled as written:

* Neither selector reads `aws_region`.
* In prod, incomplete credentials raise only when the provider's primary identifier
  (bucket, cloud name) is present. Without it, `get_storage_handler` falls back to local
  disk silently.
* Errors are `ValueError` with the code's messages.
* The limiter is a sliding window: each call prunes the timestamps older than the window.
* Local uploads write the file in place at its final path.
* The Cloudinary URL always uses the `image` path and the `.png` suffix, whatever
  resource type the key records. `CloudinaryUrlIgnoresResourceType` states this.
* Neither the account identifier nor the file name is checked for `/`, so keys of
  different accounts can coincide. `S3KeysCollideAcrossAccounts` exhibits one such pair.

`environment` and `cloud_provider` are `Literal` types that the settings loader
validates, so they are datatypes here. The code's fall-through for an environment that
is neither "dev" nor "prod" therefore cannot be reached.

## Model

| member | source | states |
|---|---|---|
| `Config.DefaultSettings` | settings.py:8-18 | with nothing configured: prod, provider cloudinary, region "us-east-1", and no bucket, key, secret or cloud name present |
| `StorageKeys.IndexOf` | file_handler.py:129 | the index returned holds the first occurrence of the character; None exactly when it does not occur |
| `StorageKeys.SplitOnce` | file_handler.py:129 | `split(c, 1)` into two parts: None exactly when `c` is absent; otherwise the parts rejoin around `c` to the input, and the first part has no `c` |
| `StorageKeys.SplitOnceOfJoin` | file_handler.py:125-129 | splitting `a + c + b` at its first `c` gives back `(a, b)` whenever `a` has no `c` |
| `StorageKeys.JoinInjective` | file_handler.py:71 | joining around a separator that neither first part holds is injective: equal joins iff equal parts |
| `StorageKeys.S3KeyNamesAccount` | file_handler.py:71 | an S3 key `account/filename` splits back at its first `/` into the account and the file name, if the account has no `/` |
| `StorageKeys.LocalKeysSeparateAccounts` | file_handler.py:42-43 | under one upload directory, distinct account/file-name pairs give distinct path strings (for accounts without `/`) |
| `StorageKeys.ParseCloudinaryKey` | file_handler.py:128-129 | raises ValueError exactly when the key has no `:`; otherwise the resource type has no `:` and rejoining the parts gives the key |
| `StorageKeys.CloudinaryKeyRoundTrip` | file_handler.py:123-129 | parsing `rt:pid` gives back `(rt, pid)` when `rt` has no `:`, even when `pid` has some |
| `StorageKeys.CloudinaryUrl` | file_handler.py:135-139 | `get_url` (and the URL `download` fetches) raises exactly when the key has no `:` |
| `StorageKeys.CloudinaryUrlOfKey` | file_handler.py:137-138 | the URL of `rt:pid` is `https://res.cloudinary.com/<cloud>/image/upload/v<version>/<pid>.png` for every `rt` |
| `StorageKeys.CloudinaryUrlIgnoresResourceType` | file_handler.py:128-130 | keys that differ only in resource type give the same URL (video or raw assets are addressed as images) |
| `FileHandler.GetStorageHandler` | file_handler.py:142-155 | only prod with the provider's primary identifier present can raise, with that provider's message; an S3 or Cloudinary handler is only built from the chosen provider's complete credentials; local uses `uploads` |
| `FileHandler.GetHandlerForType` | file_handler.py:158-179 | succeeds iff the type is "local", or "s3" with bucket, key and secret, or "cloudinary" with cloud name, key and secret; the handler's type is the requested one; any other string raises "Unknown storage type: …" |
| `FileHandler.DevAlwaysLocal` | file_handler.py:144-145 | in dev the upload handler is local, whatever the provider or credentials |
| `FileHandler.ProdS3Selection` | file_handler.py:147-150 | prod, s3, bucket present: S3 iff access key and secret are present, else "S3 credentials missing" |
| `FileHandler.ProdCloudinarySelection` | file_handler.py:151-154 | prod, cloudinary, cloud name present: Cloudinary iff API key and secret are present, else "Cloudinary credentials missing" |
| `FileHandler.ProdFallsBackToLocal` | file_handler.py:146-155 | prod without the provider's primary identifier, or with no provider, yields local and no error |
| `FileHandler.DefaultSettingsSelectLocal` | settings.py:13-16 | the default settings send uploads to local disk |
| `FileHandler.RegionNeverChecked` | file_handler.py:147-168 | changing the AWS region changes neither selector's outcome |
| `FileHandler.ResolutionIgnoresPreference` | file_handler.py:158-179 | resolving a stored record does not depend on the environment or the provider preference |
| `FileHandler.UploadHandlerResolvesBack` | file_handler.py:142-179 | the type tag of whichever handler takes an upload resolves, under the same settings, to that same handler |
| `FileHandler.S3Upload` | file_handler.py:70-80 | metadata has type "s3" and key `account/filename`; for an account without `/` the key splits back into account and file name |
| `StorageKeys.S3KeysCollideAcrossAccounts` | file_handler.py:71 | accounts `a/b` and `a` get the same key for files `c` and `b/c` |
| `FileHandler.CloudinaryUpload` | file_handler.py:115-126 | metadata has type "cloudinary" and a key that parses back into the returned resource type and public id |
| `FileHandler.CloudinaryRecordUrl` | file_handler.py:112-139 | a Cloudinary record resolves to a Cloudinary handler with the fixed version, whose URL is the image URL of the public id |
| `FileHandler.LocalHandler.constructor` | file_handler.py:38-39 | a new local handler stores under `uploads` |
| `FileHandler.LocalHandler.Upload` | file_handler.py:41-47 | writes the bytes at `upload_dir/account/filename`, replacing any earlier file there and leaving every other path unchanged, and returns type "local" with that path |
| `FileHandler.LocalHandler.Download` | file_handler.py:49-52 | returns exactly the bytes stored at the path, or FileNotFound when there is none |
| `FileHandler.LocalHandler.GetUrl` | file_handler.py:54-55 | always None |
| `FileHandler.LocalRoundTripScenario` | tests/test_file_handler.py:27-62 | on one disk: key `uploads/account/filename`; a second handler reads back the bytes written; a second upload overwrites; no URL |
| `RateLimiting.Pruned` | rate_limiter.py:14-18 | the pruned log is no longer than the log, holds only timestamps of the log that are inside the window, and keeps every one that is |
| `RateLimiting.PrunedAppend` | rate_limiter.py:14-18 | pruning distributes over concatenation, so each timestamp is judged on its own and order is preserved |
| `RateLimiting.PrunedIdempotent` | rate_limiter.py:14-18 | pruning twice at the same instant equals pruning once |
| `RateLimiting.RateLimiter.constructor` | rate_limiter.py:7-10 | keeps the limit and the window; every client's log starts empty |
| `RateLimiting.RateLimiter.IsAllowed` | rate_limiter.py:12-22 | allowed iff the pruned log is shorter than the limit; the client's new log is the pruned log, plus `now` when allowed; no other client's log changes; no log exceeds the limit; every kept entry except the appended `now` is inside the window |
| `RateLimiting.SameInstantKept` | rate_limiter.py:17 | with a positive window, timestamps equal to `now` are all kept |
| `RateLimiting.AllExpiredPruned` | rate_limiter.py:14-18 | a log whose every timestamp is at least `window` old prunes to empty |
| `RateLimiting.AdmitsOnceWindowPassed` | rate_limiter.py:17-19 | once every logged timestamp is at least `window` old, a call with a positive limit passes |
| `RateLimiting.SameInstantBurst` | tests/test_rate_limiter.py:8-26 | a fresh client at one instant, positive window: the first `requests` calls pass and the next is refused |
| `RateLimiting.ExpiredWindowBurst` | rate_limiter.py:14-22 | with a window of zero or less the log never fills: every call at one instant passes iff the limit is positive |
| `RateLimiting.ResetAfterWindowScenario` | tests/test_rate_limiter.py:28-39 | limit 2, window 1: pass, pass, refuse, then pass 1.1 later |
| `RateLimiting.DifferentClientsScenario` | tests/test_rate_limiter.py:41-50 | limit 1: one client is refused on its second call while another client still passes |

## Left out

- The S3 handler's calls into boto3 are not modelled: client construction, `put_object`, `get_object`, `generate_presigned_url`. So S3 download and URL are not modelled; the upload is modelled by the metadata it returns once the put succeeds.
- The disk is a map keyed by path strings, so paths that name one file (through `..` or an absolute file name, which `os.path.join` lets replace the prefix) stay distinct in the model. Cross-account overwrites through such file names are outside the model.
- The `Exception` that wraps a boto3 `ClientError` in the S3 handler is not modelled; it is raised only by the foreign calls above.
- The Cloudinary SDK calls are not modelled: `cloudinary.config`, and `cloudinary.uploader.upload` with its folder and public-id arguments. The upload's answer (resource type, public id) is a parameter.
- Cloudinary `download` is modelled only up to the URL it fetches, which is `CloudinaryUrl`. The `requests.get` and `raise_for_status` network call is left out.
- `os.makedirs` and directories are left out, and so are `os.path.join`'s absolute-component and separator rules: a path is the parts joined with `/`, and the disk is a map from path to bytes.
- `BaseHandler`'s abstract interface is the `Backend` datatype. S3 and Cloudinary handlers are values holding the fields their `__init__` keeps. Only the local handler, whose effect is on the disk, is a class.
- Building an S3 or Cloudinary handler directly with missing fields (outside the selectors) is not modelled.
- The debug `print` in Cloudinary `get_url` is left out (console output only).
- Reading `time.time()` is replaced by the `now` parameter, and float rounding of the subtraction is not modelled: timestamps are exact reals.
- The module-level limiter instance (10 requests per 60 seconds) and the `check_rate_limit` wrapper that raises HTTP 429 are left out; they are web-framework glue.
- The `rate_limit_requests` and `rate_limit_window` settings are left out, for the same reason.
- Settings loading from the environment and `.env`, and `database_url`, are left out. So are `app.py` (HTTP routes, API-key lookup, database sessions; its upload route does not call the handlers) and `models.py` (table definitions).
