/**
 * The string and URL helpers of `StorageService`
 * (src/services/storage.service.ts) and the bucket it writes to. A URL is
 * reduced to the scheme, host and path the helpers read; the SDK calls
 * become operations on a set of stored keys that may fail.
 */
module Storage {
  import opened Wrappers
  import opened Text
  import opened Domain
  import opened Errors

  /** The parts of a parsed URL the service reads. */
  datatype Url = Url(protocol: string, hostname: string, pathname: string)

  /**
   * `new URL(s)`, reduced to `scheme "://" host path`: a non-empty scheme
   * before the first ':', then "//", then a non-empty host up to the next
   * '/', lower-cased, then the path ("/" when there is none). None is a
   * throw.
   */
  function ParseUrl(s: string): (u: Option<Url>)
    ensures u.Some? ==> u.value.hostname != "" && '/' !in u.value.hostname
    ensures u.Some? ==> forall i :: 0 <= i < |u.value.hostname| ==> !('A' <= u.value.hostname[i] <= 'Z')
    ensures u.Some? ==> |u.value.pathname| >= 1 && u.value.pathname[0] == '/'
    ensures u.Some? ==> u.value.protocol != "" && ':' !in u.value.protocol && StartsWith(s, u.value.protocol + "://")
  {
    var scheme := Before(s, ':');
    var afterScheme := AfterFirst(s, ':');
    if scheme == "" || |scheme| == |s| || !StartsWith(afterScheme, "//") then None
    else
      var rest := afterScheme[2..];
      var host := Before(rest, '/');
      if host == "" then None
      else
        assert s[..|scheme| + 3] == scheme + "://";
        Some(Url(scheme, LowerAscii(host), if |host| < |rest| then rest[|host|..] else "/"))
  }

  function InvalidFileUrl(): ApplicationError {
    NewApplicationError("Invalid file URL", Some(400))
  }

  /** `parts.slice(n)`: empty when `n` is past the end. */
  function Slice(parts: seq<string>, n: nat): (r: seq<string>)
    ensures n <= |parts| ==> r == parts[n..]
    ensures n > |parts| ==> r == []
  {
    if n <= |parts| then parts[n..] else []
  }

  /**
   * `getKeyFromUrl(fileUrl)`: a bare key is returned as it is; a
   * path-style host keeps the whole path; any other Amazon host loses the
   * first path segment; anything else is a 400.
   */
  function GetKeyFromUrl(fileUrl: string): (r: Result<string, ApplicationError>)
    ensures !StartsWith(fileUrl, "http") ==> r == Ok(fileUrl)
    ensures StartsWith(fileUrl, "http") && ParseUrl(fileUrl).None? ==> r == Err(InvalidFileUrl())
    ensures StartsWith(fileUrl, "http") && ParseUrl(fileUrl).Some? ==>
              var u := ParseUrl(fileUrl).value;
              (Contains(u.hostname, "s3.amazonaws.com") ==> r == Ok(u.pathname[1..])) &&
              (!Contains(u.hostname, "s3.amazonaws.com") && EndsWith(u.hostname, "amazonaws.com") ==>
                 r == Ok(AfterFirst(u.pathname[1..], '/'))) &&
              (!Contains(u.hostname, "s3.amazonaws.com") && !EndsWith(u.hostname, "amazonaws.com") ==>
                 r == Err(InvalidFileUrl()))
  {
    if !StartsWith(fileUrl, "http") then Ok(fileUrl)
    else match ParseUrl(fileUrl)
      case None => Err(InvalidFileUrl())
      case Some(u) =>
        var parts := Split(u.pathname, '/');
        PathKeys(u.pathname);
        if Contains(u.hostname, "s3.amazonaws.com") then Ok(Join(Slice(parts, 1), "/"))
        else if EndsWith(u.hostname, "amazonaws.com") then Ok(Join(Slice(parts, 2), "/"))
        else Err(InvalidFileUrl())
  }

  /** The path without its leading '/', and without its first segment too, rebuilt from the split pieces. */
  lemma PathKeys(path: string)
    requires |path| >= 1 && path[0] == '/'
    ensures Join(Slice(Split(path, '/'), 1), "/") == path[1..]
    ensures Join(Slice(Split(path, '/'), 2), "/") == AfterFirst(path[1..], '/')
  {
    var parts := Split(path, '/');
    assert parts == [""] + Split(path[1..], '/');
    JoinSplitTail(path, '/');
    assert Slice(parts, 2) == Split(path[1..], '/')[1..];
    JoinSplitTail(path[1..], '/');
  }

  /** `isValidS3Url(url)`. */
  predicate IsValidS3Url(url: string) {
    ParseUrl(url).Some? && Contains(ParseUrl(url).value.hostname, "amazonaws.com") &&
    |ParseUrl(url).value.pathname| > 1
  }

  /** A URL `getKeyFromUrl` accepts has an Amazon host, though it need not be valid by `isValidS3Url` (its path may be "/"). */
  lemma AcceptedUrlsAreAmazon(url: string)
    requires StartsWith(url, "http") && GetKeyFromUrl(url).Ok?
    ensures ParseUrl(url).Some? && Contains(ParseUrl(url).value.hostname, "amazonaws.com")
    ensures IsValidS3Url(url) <==> |ParseUrl(url).value.pathname| > 1
  {
    var host := ParseUrl(url).value.hostname;
    if Contains(host, "s3.amazonaws.com") {
      ContainsSuffixOf(host, "s3.amazonaws.com", 3);
      assert "s3.amazonaws.com"[3..] == "amazonaws.com";
    } else {
      ContainsSuffix(host, "amazonaws.com");
    }
  }

  /** `generateS3Url(key)` for the configured bucket and region. */
  function GenerateS3Url(bucket: string, region: string, key: string): (url: string)
    ensures StartsWith(url, "https://") && EndsWith(url, "/" + key)
  {
    "https://" + bucket + ".s3." + region + ".amazonaws.com/" + key
  }

  /** The host `generateS3Url` writes. */
  function RegionalHost(bucket: string, region: string): string {
    bucket + ".s3." + region + ".amazonaws.com"
  }

  lemma IndexOfAt(p: string, c: char, q: string)
    requires c !in p
    ensures IndexOf(p + [c] + q, c) == |p|
  {
    IndexOfConcat(p, [c] + q, c);
    assert p + [c] + q == p + ([c] + q);
  }

  lemma RegionalHostHasNoSlash(bucket: string, region: string)
    requires '/' !in bucket && '/' !in region
    ensures '/' !in RegionalHost(bucket, region)
    ensures EndsWith(RegionalHost(bucket, region), "amazonaws.com")
  {
    var host := RegionalHost(bucket, region);
    forall i | 0 <= i < |host| ensures host[i] != '/' {
      if i < |bucket| {
        assert host[i] == bucket[i];
      } else if |bucket| + 4 <= i < |bucket| + 4 + |region| {
        assert host[i] == region[i - |bucket| - 4];
      }
    }
  }

  /** A URL written as scheme, "://", host and path parses back into those three parts, the host lower-cased. */
  lemma ParseComposed(scheme: string, host: string, path: string)
    requires scheme != "" && ':' !in scheme
    requires host != "" && '/' !in host
    requires |path| >= 1 && path[0] == '/'
    ensures ParseUrl(scheme + "://" + host + path) == Some(Url(scheme, LowerAscii(host), path))
  {
    var s := scheme + "://" + host + path;
    var tail := "//" + host + path;
    assert s == scheme + [':'] + tail;
    IndexOfAt(scheme, ':', tail);
    assert Before(s, ':') == scheme;
    assert AfterFirst(s, ':') == tail;
    assert tail[..2] == "//";
    var rest := tail[2..];
    assert rest == host + ['/'] + path[1..];
    IndexOfAt(host, '/', path[1..]);
    assert Before(rest, '/') == host;
    assert rest[|host|..] == path;
  }

  /** Two http(s) URLs that parse alike give the same key or the same error. */
  lemma KeyFollowsParse(a: string, b: string)
    requires StartsWith(a, "http") && StartsWith(b, "http") && ParseUrl(a) == ParseUrl(b)
    ensures GetKeyFromUrl(a) == GetKeyFromUrl(b)
  {
  }

  /**
   * `getKeyFromUrl` reads the host as `new URL` lower-cases it, so the
   * case of the host's letters never changes the key or the error of an
   * http(s) URL.
   */
  lemma HostCaseIgnored(scheme: string, host: string, path: string)
    requires StartsWith(scheme, "http") && ':' !in scheme
    requires host != "" && '/' !in host
    requires |path| >= 1 && path[0] == '/'
    ensures GetKeyFromUrl(scheme + "://" + host + path) == GetKeyFromUrl(scheme + "://" + LowerAscii(host) + path)
  {
    var lowered := LowerAscii(host);
    assert '/' !in lowered by {
      forall i | 0 <= i < |lowered| ensures lowered[i] != '/' {
        assert host[i] != '/';
      }
    }
    assert LowerAscii(lowered) == lowered;
    ParseComposed(scheme, host, path);
    ParseComposed(scheme, lowered, path);
    var s, t := scheme + "://" + host + path, scheme + "://" + lowered + path;
    assert s[..4] == scheme[..4] == t[..4];
    KeyFollowsParse(s, t);
  }

  /** Lower-casing the regional host lower-cases the bucket and the region. */
  lemma LowerRegionalHost(bucket: string, region: string)
    ensures LowerAscii(RegionalHost(bucket, region)) == RegionalHost(LowerAscii(bucket), LowerAscii(region))
  {
    var host, lowered := RegionalHost(bucket, region), RegionalHost(LowerAscii(bucket), LowerAscii(region));
    forall i | 0 <= i < |host|
      ensures LowerAscii(host)[i] == lowered[i]
    {
      if i < |bucket| {
        assert host[i] == bucket[i];
      } else if |bucket| + 4 <= i < |bucket| + 4 + |region| {
        assert host[i] == region[i - |bucket| - 4];
      }
    }
  }

  /** A generated URL parses into the "https" scheme, the lower-cased regional host and the path "/" + key. */
  lemma ParseGenerated(bucket: string, region: string, key: string)
    requires '/' !in RegionalHost(bucket, region)
    ensures ParseUrl(GenerateS3Url(bucket, region, key)) ==
            Some(Url("https", RegionalHost(LowerAscii(bucket), LowerAscii(region)), "/" + key))
  {
    assert GenerateS3Url(bucket, region, key) == "https" + "://" + RegionalHost(bucket, region) + ("/" + key);
    ParseComposed("https", RegionalHost(bucket, region), "/" + key);
    LowerRegionalHost(bucket, region);
  }

  /**
   * Generating a URL and extracting its key loses the key's first segment:
   * the regional host, once lower-cased, ends in "amazonaws.com" without
   * containing "s3.amazonaws.com", so `getKeyFromUrl` takes the branch that
   * drops the first path segment. A key with a '/' never survives the
   * round trip.
   */
  lemma GenerateThenExtract(bucket: string, region: string, key: string)
    requires '/' !in bucket && '/' !in region
    requires !Contains(RegionalHost(LowerAscii(bucket), LowerAscii(region)), "s3.amazonaws.com")
    ensures GetKeyFromUrl(GenerateS3Url(bucket, region, key)) == Ok(AfterFirst(key, '/'))
    ensures '/' in key ==> GetKeyFromUrl(GenerateS3Url(bucket, region, key)) != Ok(key)
  {
    RegionalHostHasNoSlash(bucket, region);
    RegionalHostHasNoSlash(LowerAscii(bucket), LowerAscii(region));
    ParseGenerated(bucket, region, key);
    assert ("/" + key)[1..] == key;
  }

  /**
   * `path.extname(name)` (POSIX): from the last '.' of the last path
   * component, or "" when that component has no '.', starts with its only
   * '.', or is "..".
   */
  function Extname(name: string): string {
    ExtnameScan(name, |name|)
  }

  /** The scan behind `Extname`, over `name[..end]` from the right. */
  function ExtnameScan(name: string, end: nat): string
    requires end <= |name|
    decreases end
  {
    if end == 0 || name[end - 1] == '/' then ""
    else if name[end - 1] == '.' then
      if end == 1 || name[end - 2] == '/' then ""
      else if end == |name| && name[end - 2] == '.' && (end == 2 || name[end - 3] == '/') then ""
      else name[end - 1..]
    else ExtnameScan(name, end - 1)
  }

  /** A non-empty result of the scan is the name from a '.' on, with no '.' or '/' after it. */
  lemma {:induction false} ScanShape(name: string, end: nat)
    requires end <= |name|
    requires forall j :: end <= j < |name| ==> name[j] != '.' && name[j] != '/'
    ensures var ext := ExtnameScan(name, end);
            ext == "" ||
            exists k :: 0 < k < end && name[k] == '.' && ext == name[k..] &&
                        forall j :: k < j < |name| ==> name[j] != '.' && name[j] != '/'
    decreases end
  {
    if end > 0 && name[end - 1] != '/' && name[end - 1] != '.' {
      ScanShape(name, end - 1);
    }
  }

  /** An extension is empty or a '.' followed by neither '.' nor '/', and it ends the name. */
  lemma ExtnameShape(name: string)
    ensures var ext := Extname(name);
            ext == "" || (ext[0] == '.' && '.' !in ext[1..] && '/' !in ext && EndsWith(name, ext))
  {
    var ext := Extname(name);
    ScanShape(name, |name|);
    if ext != "" {
      var k :| 0 < k < |name| && name[k] == '.' && ext == name[k..] &&
               forall j :: k < j < |name| ==> name[j] != '.' && name[j] != '/';
      assert forall j :: 0 <= j < |ext| ==> ext[j] == name[k + j];
      assert name[|name| - |ext|..] == ext;
    }
  }

  /** The object key `uploadToS3` writes: "documents/" + a fresh uuid + the name's extension. */
  function UploadKey(uuid: string, originalname: string): (key: string)
    ensures StartsWith(key, "documents/")
    ensures key == "documents/" + uuid + Extname(originalname)
  {
    "documents/" + uuid + Extname(originalname)
  }

  /** Every upload key is a bare key, which `getKeyFromUrl` returns as it is. */
  lemma UploadKeyIsBare(uuid: string, originalname: string)
    ensures GetKeyFromUrl(UploadKey(uuid, originalname)) == Ok(UploadKey(uuid, originalname))
  {
    var key := UploadKey(uuid, originalname);
    assert key[0] == 'd';
    assert !StartsWith(key, "http");
  }

  /** Through `generateS3Url`, an upload key comes back without its "documents/" prefix. */
  lemma GeneratedUploadKeyLosesPrefix(bucket: string, region: string, uuid: string, originalname: string)
    requires '/' !in bucket && '/' !in region
    requires !Contains(RegionalHost(LowerAscii(bucket), LowerAscii(region)), "s3.amazonaws.com")
    ensures GetKeyFromUrl(GenerateS3Url(bucket, region, UploadKey(uuid, originalname))) == Ok(uuid + Extname(originalname))
  {
    var name := uuid + Extname(originalname);
    var key := UploadKey(uuid, originalname);
    assert key == "documents/" + name;
    DocumentsPrefix(name);
    GenerateThenExtract(bucket, region, key);
  }

  lemma DocumentsPrefix(name: string)
    ensures AfterFirst("documents/" + name, '/') == name
  {
    assert "documents/" + name == "documents" + ['/'] + name;
    IndexOfAt("documents", '/', name);
  }

  /** `validateFileType(file, allowedTypes)`: list membership of the MIME type. */
  predicate ValidateFileType(file: UploadedFile, allowedTypes: seq<string>) {
    file.mimetype in allowedTypes
  }

  /** `validateFileSize(file, maxSize)`: the limit itself is allowed. */
  predicate ValidateFileSize(file: UploadedFile, maxSize: int) {
    file.size <= maxSize
  }

  lemma FileSizeLimitInclusive(file: UploadedFile, maxSize: int)
    ensures file.size == maxSize ==> ValidateFileSize(file, maxSize)
    ensures ValidateFileSize(file, maxSize) ==> ValidateFileSize(file, maxSize + 1)
    ensures maxSize < 0 ==> !ValidateFileSize(file, maxSize)
  {
  }

  /** What `uploadToS3` returns. */
  datatype UploadResult = UploadResult(location: string, key: string, bucket: string)

  /**
   * The bucket behind `StorageService`: the keys it holds. Whether an SDK
   * call fails, and the Location it reports, are inputs.
   */
  class ObjectStore {
    const bucket: string
    const region: string
    var objects: set<string>

    constructor(bucket: string, region: string)
      ensures this.bucket == bucket && this.region == region && objects == {}
    {
      this.bucket := bucket;
      this.region := region;
      objects := {};
    }

    /** `uploadToS3(file)`: stores the object under a fresh key, or throws a 500. */
    method Upload(file: UploadedFile, uuid: string, location: string, fails: bool)
      returns (r: Result<UploadResult, ApplicationError>)
      modifies this
      ensures fails ==> r == Err(NewApplicationError("Failed to upload file", Some(500))) && objects == old(objects)
      ensures !fails ==> r == Ok(UploadResult(location, UploadKey(uuid, file.originalname), bucket)) &&
                         objects == old(objects) + {UploadKey(uuid, file.originalname)}
    {
      if fails {
        return Err(NewApplicationError("Failed to upload file", Some(500)));
      }
      var key := UploadKey(uuid, file.originalname);
      objects := objects + {key};
      r := Ok(UploadResult(location, key, bucket));
    }

    /** `deleteFromS3(key)`: removes the object (deleting an absent key succeeds), or throws a 500. */
    method Delete(key: string, fails: bool) returns (r: Result<(), ApplicationError>)
      modifies this
      ensures fails ==> r == Err(NewApplicationError("Failed to delete file", Some(500))) && objects == old(objects)
      ensures !fails ==> r == Ok(()) && objects == old(objects) - {key}
    {
      if fails {
        return Err(NewApplicationError("Failed to delete file", Some(500)));
      }
      objects := objects - {key};
      r := Ok(());
    }
  }
}
