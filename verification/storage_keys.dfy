/** The storage-key strings each backend hands back, Cloudinary's key parsing and its
    delivery URL (file_handler.py). */
module StorageKeys {
  import opened Wrappers

  /** The position of the first `c` in `s`, if there is one. */
  function IndexOf(s: string, c: char): (r: Option<nat>)
    ensures r.None? <==> c !in s
    ensures r.Some? ==> r.value < |s| && s[r.value] == c
    ensures r.Some? ==> forall j :: 0 <= j < r.value ==> s[j] != c
  {
    if s == [] then None
    else if s[0] == c then Some(0)
    else match IndexOf(s[1..], c)
      case None => None
      case Some(i) => Some(i + 1)
  }

  /** Python's `s.split(c, 1)`: the text before the first `c` and the text after it,
      or None when `c` does not occur (the list then has one element). */
  function SplitOnce(s: string, c: char): (r: Option<(string, string)>)
    ensures r.None? <==> c !in s
    ensures r.Some? ==> s == r.value.0 + [c] + r.value.1 && c !in r.value.0
  {
    match IndexOf(s, c)
    case None => None
    case Some(i) =>
      assert s == s[..i] + [c] + s[i + 1..];
      Some((s[..i], s[i + 1..]))
  }

  /** Splitting `a + [c] + b` at its first `c` gives back `a` and `b` whenever `a` has no `c`:
      the separator that was put in is the one that is found. */
  lemma {:induction false} SplitOnceOfJoin(a: string, c: char, b: string)
    requires c !in a
    ensures SplitOnce(a + [c] + b, c) == Some((a, b))
  {
    var s := a + [c] + b;
    assert s[|a|] == c;
    assert c in s;
    var i := IndexOf(s, c).value;
    // no separator inside `a`, so the first one is the one at position |a|
    assert forall j :: 0 <= j < |a| ==> s[j] == a[j];
    assert i == |a|;
    assert s[..i] == a;
    assert s[i + 1..] == b;
  }

  /** Joining two parts around a separator that the first part lacks is injective. */
  lemma JoinInjective(a1: string, b1: string, a2: string, b2: string, c: char)
    requires c !in a1 && c !in a2
    ensures a1 + [c] + b1 == a2 + [c] + b2 <==> a1 == a2 && b1 == b2
  {
    if a1 + [c] + b1 == a2 + [c] + b2 {
      SplitOnceOfJoin(a1, c, b1);
      SplitOnceOfJoin(a2, c, b2);
    }
  }

  /** The object key an S3 upload writes: `{account_id}/{filename}`. */
  function S3Key(accountId: string, filename: string): string
  {
    accountId + "/" + filename
  }

  /** An S3 key names its account: splitting at the first `/` gives back the account
      identifier and the file name, provided the identifier holds no `/`. */
  lemma S3KeyNamesAccount(accountId: string, filename: string)
    requires '/' !in accountId
    ensures SplitOnce(S3Key(accountId, filename), '/') == Some((accountId, filename))
  {
    SplitOnceOfJoin(accountId, '/', filename);
  }

  /** The account identifier is not checked for `/`, so two accounts can share an object
      key: account `a/b` with file `c` and account `a` with file `b/c`. */
  lemma S3KeysCollideAcrossAccounts()
    ensures S3Key("a/b", "c") == S3Key("a", "b/c")
  {
  }

  /** The path a local upload writes, `os.path.join(upload_dir, account_id, filename)`,
      with `/` as the only separator. */
  function LocalKey(uploadDir: string, accountId: string, filename: string): string
  {
    uploadDir + "/" + accountId + "/" + filename
  }

  /** Under one upload directory, files of accounts whose identifiers hold no `/` never share
      a path: the path determines both the account and the file name. */
  lemma LocalKeysSeparateAccounts(uploadDir: string, a1: string, f1: string, a2: string, f2: string)
    requires '/' !in a1 && '/' !in a2
    ensures LocalKey(uploadDir, a1, f1) == LocalKey(uploadDir, a2, f2) <==> a1 == a2 && f1 == f2
  {
    var p := uploadDir + "/";
    assert LocalKey(uploadDir, a1, f1) == p + (a1 + "/" + f1);
    assert LocalKey(uploadDir, a2, f2) == p + (a2 + "/" + f2);
    if LocalKey(uploadDir, a1, f1) == LocalKey(uploadDir, a2, f2) {
      assert a1 + "/" + f1 == (p + (a1 + "/" + f1))[|p|..];
      assert a2 + "/" + f2 == (p + (a2 + "/" + f2))[|p|..];
      JoinInjective(a1, f1, a2, f2, '/');
    }
  }

  /** The key a Cloudinary upload records: `{resource_type}:{public_id}`. */
  function CloudinaryKey(resourceType: string, publicId: string): string
  {
    resourceType + ":" + publicId
  }

  /** `resource_type, public_id = storage_key.split(":", 1)`: a key without `:` makes the
      two-name unpacking raise ValueError. */
  function ParseCloudinaryKey(key: string): (r: Result<(string, string)>)
    ensures r.Err? <==> ':' !in key
    ensures r.Ok? ==> CloudinaryKey(r.value.0, r.value.1) == key && ':' !in r.value.0
  {
    match SplitOnce(key, ':')
    case None => Err(ValueError("not enough values to unpack (expected 2, got 1)"))
    case Some(parts) => Ok(parts)
  }

  /** Parsing recovers what the key was built from, provided the resource type holds no `:`;
      the public id may hold any number of them. */
  lemma CloudinaryKeyRoundTrip(resourceType: string, publicId: string)
    requires ':' !in resourceType
    ensures ParseCloudinaryKey(CloudinaryKey(resourceType, publicId)) == Ok((resourceType, publicId))
  {
    SplitOnceOfJoin(resourceType, ':', publicId);
  }

  const CloudinaryHost := "https://res.cloudinary.com/"

  /** The delivery URL `download` fetches and `get_url` returns: always the `image` path and
      the `.png` suffix, whatever resource type the key records. */
  function CloudinaryUrl(cloudName: string, version: string, key: string): (r: Result<string>)
    ensures r.Err? <==> ':' !in key
  {
    match ParseCloudinaryKey(key)
    case Err(e) => Err(e)
    case Ok((resourceType, publicId)) =>
      Ok(CloudinaryHost + cloudName + "/image/upload/v" + version + "/" + publicId + ".png")
  }

  /** The URL of `rt:pid` is the fixed image URL of `pid`, for every resource type `rt`. */
  lemma CloudinaryUrlOfKey(cloudName: string, version: string, resourceType: string, publicId: string)
    requires ':' !in resourceType
    ensures CloudinaryUrl(cloudName, version, CloudinaryKey(resourceType, publicId))
         == Ok(CloudinaryHost + cloudName + "/image/upload/v" + version + "/" + publicId + ".png")
  {
    CloudinaryKeyRoundTrip(resourceType, publicId);
  }

  /** Two keys that differ only in their resource type give the same URL: a video or raw
      asset is addressed as if it were an image. */
  lemma CloudinaryUrlIgnoresResourceType(cloudName: string, version: string, rt1: string, rt2: string, publicId: string)
    requires ':' !in rt1 && ':' !in rt2
    ensures CloudinaryUrl(cloudName, version, CloudinaryKey(rt1, publicId))
         == CloudinaryUrl(cloudName, version, CloudinaryKey(rt2, publicId))
  {
    CloudinaryUrlOfKey(cloudName, version, rt1, publicId);
    CloudinaryUrlOfKey(cloudName, version, rt2, publicId);
  }
}
