/** The image glue of `src/utils/fileOperation.ts`: the public id under which a
    file is uploaded, the public id recovered from a delivery URL before a
    deletion, and the image host itself as the set of public ids it holds. */
module FileOperation {
  import opened Responses
  import opened Strings

  const UploadMarker := "upload"
  const ExtractFailed := "Could not extract public ID from URL"
  const DeleteFailed := "Failed to delete file from Cloudinary"
  const UploadFailed := "Failed to upload file to Cloudinary"

  /** The `public_id` an upload asks for: the file name up to its first `.`. */
  function UploadPublicId(fileName: string): (id: string)
    ensures id <= fileName && '.' !in id
    ensures id == fileName || fileName[|id|] == '.'
  {
    SplitHead(fileName, '.');
    Split(fileName, '.')[0]
  }

  /** The last `/`-separated segment of a URL, up to its first `.`. */
  function LastSegmentId(url: string): (id: string)
    ensures '.' !in id && '/' !in id
  {
    var parts := Split(url, '/');
    UploadPublicId(parts[|parts| - 1])
  }

  /** The segments after the first `upload` segment (after none when there is no
      such segment) and before the last one, joined with `/`. */
  function FolderPath(url: string): string
  {
    var parts := Split(url, '/');
    Join(SliceToLast(parts, IndexOf(parts, UploadMarker) + 1), '/')
  }

  /** `folderPath ? folderPath/publicId : publicId`. */
  function FullPublicId(url: string): string
  {
    var folder := FolderPath(url);
    var id := LastSegmentId(url);
    if folder != "" then folder + "/" + id else id
  }

  /** The extraction of lines 46-56, with its one error. */
  function ExtractPublicId(url: string): (r: Result<string>)
    ensures r.Err? <==> FolderPath(url) == "" && LastSegmentId(url) == ""
    ensures r.Err? ==> r.error == Failure(ExtractFailed)
    ensures r.Ok? ==> r.value != ""
  {
    var full := FullPublicId(url);
    if full == "" then Err(Failure(ExtractFailed)) else Ok(full)
  }

  /** What a deletion reports to its caller: the outer `catch` rethrows every
      failure under one message. */
  function DeleteTarget(url: string): (r: Result<string>)
    ensures r.Ok? <==> ExtractPublicId(url).Ok?
    ensures r.Ok? ==> r == ExtractPublicId(url)
    ensures r.Err? ==> r.error == Failure(DeleteFailed)
  {
    match ExtractPublicId(url)
    case Ok(id) => Ok(id)
    case Err(_) => Err(Failure(DeleteFailed))
  }

  /** Without an `upload` segment the folder is every segment but the last. */
  lemma FolderPathWithoutMarker(url: string)
    requires UploadMarker !in Split(url, '/')
    ensures var parts := Split(url, '/'); FolderPath(url) == Join(parts[..|parts| - 1], '/')
  {
  }

  lemma UrlShape(prefix: string, folder: string, fileName: string)
    ensures prefix + "/upload/" + folder + "/" + fileName == prefix + "/" + (UploadMarker + "/" + (folder + "/" + fileName))
  {
    assert "/upload/" == "/" + UploadMarker + "/";
  }

  /** The segments of `prefix/upload/folder/fileName`. */
  lemma {:induction false} SplitOfUrl(prefix: string, folder: string, fileName: string)
    requires '/' !in fileName
    ensures Split(prefix + "/upload/" + folder + "/" + fileName, '/')
         == Split(prefix, '/') + [UploadMarker] + Split(folder, '/') + [fileName]
  {
    var tail := folder + "/" + fileName;
    var rest := UploadMarker + "/" + tail;
    assert Split(tail, '/') == Split(folder, '/') + [fileName] by {
      SplitAround(folder, '/', fileName);
      SplitWithoutSep(fileName, '/');
    }
    assert Split(rest, '/') == [UploadMarker] + Split(tail, '/') by {
      SplitAround(UploadMarker, '/', tail);
      assert Split(UploadMarker, '/') == [UploadMarker] by {
        SplitWithoutSep(UploadMarker, '/');
      }
    }
    assert Split(prefix + "/" + rest, '/') == Split(prefix, '/') + Split(rest, '/') by {
      SplitAround(prefix, '/', rest);
    }
    UrlShape(prefix, folder, fileName);
  }

  /** Extraction from a URL of the form `prefix/upload/folder/fileName`, where the
      prefix has no `upload` segment: the folder comes back whole and the public
      id is the upload rule applied to the file name. */
  lemma {:induction false} ExtractFromUploadUrl(prefix: string, folder: string, fileName: string)
    requires UploadMarker !in Split(prefix, '/')
    requires '/' !in fileName
    ensures var url := prefix + "/upload/" + folder + "/" + fileName;
      FolderPath(url) == folder && LastSegmentId(url) == UploadPublicId(fileName)
  {
    var url := prefix + "/upload/" + folder + "/" + fileName;
    SplitOfUrl(prefix, folder, fileName);
    var p := Split(prefix, '/');
    var f := Split(folder, '/');
    var parts := p + [UploadMarker] + f + [fileName];
    assert parts[|p|] == UploadMarker;
    assert parts[..|p|] == p;
    assert IndexOf(parts, UploadMarker) == |p|;
    assert parts[|p| + 1..|parts| - 1] == f;
    JoinSplit(folder, '/');
  }

  /** The host's delivery URLs start with these segments; the cloud name is a
      placeholder. */
  const DeliveryHost: seq<string> := ["https:", "", "res.cloudinary.com", "cloud", "image"]

  function DeliveryBase(): string
  {
    Join(DeliveryHost, '/')
  }

  lemma DeliveryBaseHasNoMarker()
    ensures UploadMarker !in Split(DeliveryBase(), '/')
  {
    forall i | 0 <= i < |DeliveryHost|
      ensures '/' !in DeliveryHost[i]
    {
    }
    SplitJoin(DeliveryHost, '/');
  }

  /** The decimal digits of `n`, most significant first. */
  function Digits(n: nat): (s: string)
    ensures |s| >= 1 && forall i :: 0 <= i < |s| ==> '0' <= s[i] <= '9'
  {
    if n < 10 then ["0123456789"[n]] else Digits(n / 10) + ["0123456789"[n % 10]]
  }

  /** A segment of the form `v<digits>`, as the host puts one after `upload`. */
  predicate IsVersion(segment: string)
  {
    |segment| >= 2 && segment[0] == 'v' && forall i :: 1 <= i < |segment| ==> '0' <= segment[i] <= '9'
  }

  /** The version segment the host stamps on an upload made at `version`. */
  function VersionSegment(version: nat): (segment: string)
    ensures IsVersion(segment) && '/' !in segment
  {
    "v" + Digits(version)
  }

  /** What follows `upload/` in a delivery URL, up to the file name: the
      version segment, then the folder if there is one. */
  function VersionedFolder(version: nat, folder: string): string
  {
    if folder != "" then VersionSegment(version) + "/" + folder else VersionSegment(version)
  }

  /** The `secure_url` the host returns for an upload into `folder`, stamped
      with `version`. */
  function DeliveryUrl(version: nat, folder: string, fileName: string): string
  {
    DeliveryBase() + "/upload/" + VersionedFolder(version, folder) + "/" + fileName
  }

  /** The public id the host files an upload under: the folder, then the
      `public_id` the upload asked for. */
  function AssetId(folder: string, fileName: string): string
  {
    if folder != "" then folder + "/" + UploadPublicId(fileName) else UploadPublicId(fileName)
  }

  /** Deleting by the URL an upload returned targets the version segment,
      the folder and the upload's `public_id`: the version is read as part of
      the folder. */
  lemma DeleteTargetOfUploadUrl(version: nat, folder: string, fileName: string)
    requires '/' !in fileName
    ensures DeleteTarget(DeliveryUrl(version, folder, fileName))
         == Ok(VersionedFolder(version, folder) + "/" + UploadPublicId(fileName))
  {
    DeliveryBaseHasNoMarker();
    ExtractFromUploadUrl(DeliveryBase(), VersionedFolder(version, folder), fileName);
  }

  /** Deleting by `url` keeps an asset whose id is not the one extracted. */
  lemma DestroyedKeepsOther(assets: set<string>, url: string, id: string, asset: string)
    requires ExtractPublicId(url) == Ok(id) && id != asset
    ensures asset in Destroyed(assets + {asset}, url)
  {
  }

  /** The id a versioned URL yields is longer than the asset's id. */
  lemma VersionedIdIsLonger(version: nat, folder: string, fileName: string)
    ensures |VersionedFolder(version, folder) + "/" + UploadPublicId(fileName)| > |AssetId(folder, fileName)|
  {
  }

  /** As written, deleting an uploaded image by its URL misses it: the id
      destroyed carries the version segment, the asset does not, so the
      asset stays on the host. */
  lemma UploadedImageSurvivesDeletion(assets: set<string>, version: nat, folder: string, fileName: string)
    requires '/' !in fileName
    ensures var uploaded := assets + {AssetId(folder, fileName)};
      AssetId(folder, fileName) in Destroyed(uploaded, DeliveryUrl(version, folder, fileName))
  {
    var url := DeliveryUrl(version, folder, fileName);
    var target := VersionedFolder(version, folder) + "/" + UploadPublicId(fileName);
    assert ExtractPublicId(url) == Ok(target) by {
      DeleteTargetOfUploadUrl(version, folder, fileName);
    }
    assert target != AssetId(folder, fileName) by {
      VersionedIdIsLonger(version, folder, fileName);
    }
    DestroyedKeepsOther(assets, url, target, AssetId(folder, fileName));
  }

  /** The folder segments of a delivery URL, after the version. */
  function FolderSegments(folder: string): seq<string>
  {
    if folder != "" then Split(folder, '/') else []
  }

  lemma VersionedFolderSegments(version: nat, folder: string)
    ensures Split(VersionedFolder(version, folder), '/') == [VersionSegment(version)] + FolderSegments(folder)
  {
    SplitWithoutSep(VersionSegment(version), '/');
    if folder != "" {
      SplitAround(VersionSegment(version), '/', folder);
    }
  }

  /** The segments of `prefix/upload/v<version>/folder/fileName`. */
  lemma SegmentsOfVersionedUrl(prefix: string, version: nat, folder: string, fileName: string)
    requires '/' !in fileName
    ensures Split(prefix + "/upload/" + VersionedFolder(version, folder) + "/" + fileName, '/')
         == Split(prefix, '/') + [UploadMarker, VersionSegment(version)] + FolderSegments(folder) + [fileName]
  {
    SplitOfUrl(prefix, VersionedFolder(version, folder), fileName);
    VersionedFolderSegments(version, folder);
    Regroup(Split(prefix, '/'), UploadMarker, VersionSegment(version), FolderSegments(folder), fileName);
  }

  lemma Regroup<T>(p: seq<T>, a: T, v: T, f: seq<T>, x: T)
    ensures p + [a] + ([v] + f) + [x] == p + [a, v] + f + [x]
  {
  }

  /** The segments of a delivery URL. */
  lemma SegmentsOfDeliveryUrl(version: nat, folder: string, fileName: string)
    requires '/' !in fileName
    ensures Split(DeliveryUrl(version, folder, fileName), '/')
         == Split(DeliveryBase(), '/') + [UploadMarker, VersionSegment(version)] + FolderSegments(folder) + [fileName]
  {
    SegmentsOfVersionedUrl(DeliveryBase(), version, folder, fileName);
  }

  /** The folder path as evidently intended: a version segment right after
      `upload` is not part of the folder. */
  function FolderPathSkippingVersion(url: string): string
  {
    var parts := Split(url, '/');
    var start := IndexOf(parts, UploadMarker) + 1;
    var first := if start + 1 < |parts| && IsVersion(parts[start]) then start + 1 else start;
    Join(SliceToLast(parts, first), '/')
  }

  /** The extraction with the version segment skipped. */
  function ExtractPublicIdSkippingVersion(url: string): (r: Result<string>)
    ensures r.Err? <==> FolderPathSkippingVersion(url) == "" && LastSegmentId(url) == ""
    ensures r.Err? ==> r.error == Failure(ExtractFailed)
  {
    var folder := FolderPathSkippingVersion(url);
    var id := LastSegmentId(url);
    var full := if folder != "" then folder + "/" + id else id;
    if full == "" then Err(Failure(ExtractFailed)) else Ok(full)
  }

  /** The corrected folder path and public id of a URL whose segments are
      known: a prefix without `upload`, then `upload`, a version, the folder
      segments and the file name. */
  lemma SkippingVersionOfSegments(url: string, p: seq<string>, v: string, f: seq<string>, fileName: string)
    requires Split(url, '/') == p + [UploadMarker, v] + f + [fileName]
    requires UploadMarker !in p && IsVersion(v)
    ensures FolderPathSkippingVersion(url) == Join(f, '/')
    ensures LastSegmentId(url) == UploadPublicId(fileName)
  {
    var parts := p + [UploadMarker, v] + f + [fileName];
    assert IndexOf(parts, UploadMarker) == |p| by {
      assert parts[|p|] == UploadMarker;
      assert parts[..|p|] == p;
    }
    assert parts[|p| + 1] == v;
    assert SliceToLast(parts, |p| + 2) == f;
    assert parts[|parts| - 1] == fileName;
  }

  lemma JoinFolderSegments(folder: string)
    ensures Join(FolderSegments(folder), '/') == folder
  {
    if folder != "" {
      JoinSplit(folder, '/');
    }
  }

  /** With the version skipped, deleting by the URL an upload returned targets
      exactly the asset that upload created, which is then gone. */
  lemma CorrectedDeletionRemovesUpload(assets: set<string>, version: nat, folder: string, fileName: string)
    requires '/' !in fileName
    requires folder != "" || UploadPublicId(fileName) != ""
    ensures ExtractPublicIdSkippingVersion(DeliveryUrl(version, folder, fileName)) == Ok(AssetId(folder, fileName))
    ensures AssetId(folder, fileName) !in
      (assets + {AssetId(folder, fileName)}) - {ExtractPublicIdSkippingVersion(DeliveryUrl(version, folder, fileName)).value}
  {
    var url := DeliveryUrl(version, folder, fileName);
    assert FolderPathSkippingVersion(url) == folder && LastSegmentId(url) == UploadPublicId(fileName) by {
      SegmentsOfDeliveryUrl(version, folder, fileName);
      DeliveryBaseHasNoMarker();
      SkippingVersionOfSegments(url, Split(DeliveryBase(), '/'), VersionSegment(version), FolderSegments(folder), fileName);
      JoinFolderSegments(folder);
    }
  }

  /** The image host, seen as the set of public ids it holds. */
  class ImageHost {
    var assets: set<string>

    constructor ()
      ensures assets == {}
    {
      assets := {};
    }
  }

  /** The host's holdings after deleting by `url`. */
  function Destroyed(assets: set<string>, url: string): set<string>
  {
    match ExtractPublicId(url)
    case Ok(id) => assets - {id}
    case Err(_) => assets
  }

  /** What `deleteFileFromCloudinary(url)` resolves or rejects with. */
  function DeleteResult(url: string): (r: Result<()>)
    ensures r.Ok? <==> ExtractPublicId(url).Ok?
    ensures r.Err? ==> r.error == Failure(DeleteFailed)
  {
    if DeleteTarget(url).Ok? then Ok(()) else Err(Failure(DeleteFailed))
  }

  /** `uploadFileBufferToCloudinary(buffer, fileName, folder)`. A missing file
      name (JavaScript `undefined`) makes `fileName.split` throw inside the
      upload, which the outer `catch` rethrows. */
  method UploadFile(host: ImageHost, fileName: Option<string>, folder: string, version: nat) returns (r: Result<string>)
    modifies host
    ensures fileName.None? ==> r == Err(Failure(UploadFailed)) && host.assets == old(host.assets)
    ensures fileName.Some? ==> r == Ok(DeliveryUrl(version, folder, fileName.value))
    ensures fileName.Some? ==> host.assets == old(host.assets) + {AssetId(folder, fileName.value)}
  {
    if fileName.None? {
      return Err(Failure(UploadFailed));
    }
    var publicId := UploadPublicId(fileName.value);
    host.assets := host.assets + {if folder != "" then folder + "/" + publicId else publicId};
    r := Ok(DeliveryUrl(version, folder, fileName.value));
  }

  /** `deleteFileFromCloudinary(url)`. Destroying an id the host does not hold
      is not an error. */
  method DeleteFile(host: ImageHost, url: string) returns (r: Result<()>)
    modifies host
    ensures r == DeleteResult(url)
    ensures host.assets == Destroyed(old(host.assets), url)
  {
    var target := DeleteTarget(url);
    if target.Err? {
      return Err(target.error);
    }
    host.assets := host.assets - {target.value};
    r := Ok(());
  }

  /** The step every update with a file performs: delete the current image
      (when `onlyIfSet`, only if there is one), then upload the new file into
      `folder`. The URL to store, or the error, and the host's new holdings. */
  function Replacement(assets: set<string>, current: string, onlyIfSet: bool, fileName: Option<string>,
                       folder: string, version: nat): (Result<string>, set<string>)
  {
    var deleting := !onlyIfSet || current != "";
    var remaining := if deleting then Destroyed(assets, current) else assets;
    if deleting && DeleteResult(current).Err? then (Err(Failure(DeleteFailed)), remaining)
    else if fileName.None? then (Err(Failure(UploadFailed)), remaining)
    else (Ok(DeliveryUrl(version, folder, fileName.value)), remaining + {AssetId(folder, fileName.value)})
  }

  /** A replacement that succeeds has deleted the old image, when it was due
      for deletion, and holds the new one, whose URL it yields. */
  lemma ReplacementSwapsImages(assets: set<string>, current: string, onlyIfSet: bool, fileName: string, folder: string, version: nat)
    requires Replacement(assets, current, onlyIfSet, Some(fileName), folder, version).0.Ok?
    ensures var (r, assets') := Replacement(assets, current, onlyIfSet, Some(fileName), folder, version);
      && r.value == DeliveryUrl(version, folder, fileName)
      && (onlyIfSet && current == "" ==> assets' == assets + {AssetId(folder, fileName)})
      && (!onlyIfSet || current != "" ==>
            ExtractPublicId(current).Ok? && assets' == assets - {ExtractPublicId(current).value} + {AssetId(folder, fileName)})
  {
  }

  /** Without the check, a record that has no image cannot take a new one: the
      deletion of the empty URL fails first and nothing is uploaded. */
  lemma ReplacingNoImageFails(assets: set<string>, fileName: Option<string>, folder: string, version: nat)
    ensures Replacement(assets, "", false, fileName, folder, version) == (Err(Failure(DeleteFailed)), assets)
  {
    assert Split("", '/') == [""];
  }

  method ReplaceFile(host: ImageHost, current: string, onlyIfSet: bool, fileName: Option<string>, folder: string,
                     version: nat) returns (r: Result<string>)
    modifies host
    ensures (r, host.assets) == Replacement(old(host.assets), current, onlyIfSet, fileName, folder, version)
  {
    if !onlyIfSet || current != "" {
      var deleted := DeleteFile(host, current);
      if deleted.Err? {
        return Err(deleted.error);
      }
    }
    r := UploadFile(host, fileName, folder, version);
  }

  /** Every set image URL among `urls` can be deleted. */
  predicate Deletable(urls: set<string>)
  {
    forall url :: url in urls && url != "" ==> ExtractPublicId(url).Ok?
  }

  /** The host ids the set image URLs among `urls` name. */
  function PublicIds(urls: set<string>): set<string>
  {
    set url | url in urls && url != "" && ExtractPublicId(url).Ok? :: ExtractPublicId(url).value
  }

  lemma PublicIdsUnion(a: set<string>, b: set<string>)
    ensures PublicIds(a + b) == PublicIds(a) + PublicIds(b)
    ensures Deletable(a + b) <==> Deletable(a) && Deletable(b)
  {
  }

  /** Two deletion rounds in a row: after the first succeeds, the second's
      outcome bounds the holdings as one round over both sets would. */
  lemma DeletionRounds(assets: set<string>, between: set<string>, after: set<string>, a: set<string>, b: set<string>)
    requires between == assets - PublicIds(a)
    requires between - PublicIds(b) <= after <= between
    ensures assets - PublicIds(a + b) <= after <= assets
    ensures after == between - PublicIds(b) ==> after == assets - PublicIds(a + b)
  {
    PublicIdsUnion(a, b);
    RemovalRounds(assets, between, after, PublicIds(a), PublicIds(b));
  }

  lemma RemovalRounds(assets: set<string>, between: set<string>, after: set<string>, x: set<string>, y: set<string>)
    requires between == assets - x && between - y <= after <= between
    ensures assets - (x + y) <= after <= assets
    ensures after == between - y ==> after == assets - (x + y)
  {
  }

  lemma PublicIdsGrow(a: set<string>, b: set<string>)
    requires a <= b
    ensures PublicIds(a) <= PublicIds(b)
  {
  }

  lemma PublicIdsOfOne(url: string)
    ensures PublicIds({url}) == if url != "" && ExtractPublicId(url).Ok? then {ExtractPublicId(url).value} else {}
  {
    var e := ExtractPublicId(url);
    if url != "" && e.Ok? {
      assert e.value in PublicIds({url});
      forall x | x in PublicIds({url})
        ensures x == e.value
      {
      }
    } else {
      forall x | x in PublicIds({url})
        ensures false
      {
      }
    }
  }

  /** Deleting one more set URL removes its id. */
  lemma DestroyedOneMore(assets: set<string>, done: set<string>, url: string)
    requires url != ""
    ensures Destroyed(assets - PublicIds(done), url) == assets - PublicIds(done + {url})
  {
    PublicIdsUnion(done, {url});
    PublicIdsOfOne(url);
  }

  /** `for (const x of list) if (x.imageUrl) await deleteFileFromCloudinary(x.imageUrl)`,
      over the image URLs of `list` in no particular order; the first failure
      stops the loop. */
  method DeleteImages(host: ImageHost, urls: set<string>) returns (r: Result<()>)
    modifies host
    ensures r.Ok? <==> Deletable(urls)
    ensures r.Err? ==> r.error == Failure(DeleteFailed)
    ensures r.Ok? ==> host.assets == old(host.assets) - PublicIds(urls)
    ensures r.Err? ==> old(host.assets) - PublicIds(urls) <= host.assets <= old(host.assets)
  {
    var todo := urls;
    ghost var done: set<string> := {};
    while todo != {}
      invariant todo <= urls && done == urls - todo
      invariant Deletable(done)
      invariant host.assets == old(host.assets) - PublicIds(done)
      decreases |todo|
    {
      var url :| url in todo;
      if url != "" {
        DestroyedOneMore(old(host.assets), done, url);
        var deleted := DeleteFile(host, url);
        if deleted.Err? {
          PublicIdsGrow(done, urls);
          return Err(deleted.error);
        }
      }
      todo := todo - {url};
      done := done + {url};
    }
    assert done == urls;
    r := Ok(());
  }
}
