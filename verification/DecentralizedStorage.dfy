/**
 * Content references and the browser-local fallback store
 * (src/utils/decentralizedStorage.js).
 *
 * A content reference is a string whose prefix names the backend that holds
 * the content: `jsonbin_<id>`, `gist_<id>`, `blob_<key>`, or else a raw
 * content hash. The browser's `localStorage` is a `LocalStore` object whose
 * string-to-string map the upload operations update in place; the resolver is
 * a function of that map, so it cannot change it.
 */
module DecentralizedStorage {
  import opened Wrappers
  import opened Strings
  import Json

  /** The gateways `getIPFSGatewayURLs` expands a content identifier over, in order. */
  const IpfsGateways: seq<string> := [
    "https://ipfs.io/ipfs/",
    "https://cloudflare-ipfs.com/ipfs/",
    "https://gateway.pinata.cloud/ipfs/",
    "https://dweb.link/ipfs/"
  ]

  /** The first of the three gateways `getIPFSGatewayURL` lists for a raw hash, and the one it returns. */
  const PinataGateway: string := "https://gateway.pinata.cloud/ipfs/"

  const JsonBinTag: string := "jsonbin_"
  const GistTag: string := "gist_"
  const BlobTag: string := "blob_"
  const MetaTag: string := "meta_"
  const FileTag: string := "file_"
  const FallbackTag: string := "fallback_"
  const IpfsScheme: string := "ipfs://"

  /** Files of this many bytes or more are never sent to the remote paste stores (1 MiB). */
  const RemoteSizeLimit: nat := 1048576

  const DefaultMimeType: string := "application/octet-stream"

  // ------------------------------------------------------------ references

  /** What a reference string denotes, by the first prefix test that succeeds. */
  datatype ContentRef =
    | NoRef
    | JsonBin(binId: string)
    | Gist(gistId: string)
    | Blob(storageKey: string)
    | RawHash(hash: string)

  /** The prefix dispatch of `getIPFSGatewayURL`: empty, then `jsonbin_`, `gist_`, `blob_`, else a raw hash. */
  function ParseRef(hash: string): (r: ContentRef)
    ensures r.NoRef? <==> hash == ""
    ensures r.JsonBin? ==> hash == JsonBinTag + r.binId
    ensures r.Gist? ==> hash == GistTag + r.gistId && !StartsWith(hash, JsonBinTag)
    ensures r.Blob? ==> hash == BlobTag + r.storageKey && !StartsWith(hash, JsonBinTag) && !StartsWith(hash, GistTag)
    ensures r.RawHash? ==> hash == r.hash && !StartsWith(hash, JsonBinTag) && !StartsWith(hash, GistTag) && !StartsWith(hash, BlobTag)
  {
    if hash == "" then NoRef
    else if StartsWith(hash, JsonBinTag) then
      assert hash == hash[..|JsonBinTag|] + hash[|JsonBinTag|..];
      JsonBin(hash[|JsonBinTag|..])
    else if StartsWith(hash, GistTag) then
      assert hash == hash[..|GistTag|] + hash[|GistTag|..];
      Gist(hash[|GistTag|..])
    else if StartsWith(hash, BlobTag) then
      assert hash == hash[..|BlobTag|] + hash[|BlobTag|..];
      Blob(hash[|BlobTag|..])
    else RawHash(hash)
  }

  /** The string an uploader hands out for a reference. */
  function RefText(r: ContentRef): string {
    match r
    case NoRef => ""
    case JsonBin(id) => JsonBinTag + id
    case Gist(id) => GistTag + id
    case Blob(key) => BlobTag + key
    case RawHash(h) => h
  }

  /** A raw hash is only read back as one when no tag test claims it first. */
  predicate WellFormedRef(r: ContentRef) {
    r.RawHash? ==> r.hash != "" && !StartsWith(r.hash, JsonBinTag) && !StartsWith(r.hash, GistTag) && !StartsWith(r.hash, BlobTag)
  }

  /** Reading a reference loses nothing: its text is exactly the string read. */
  lemma ParseRefText(hash: string)
    ensures RefText(ParseRef(hash)) == hash
  {
  }

  /** Every tagged reference, and every well-formed raw hash, is read back as itself. */
  lemma RefTextParse(r: ContentRef)
    requires WellFormedRef(r)
    ensures ParseRef(RefText(r)) == r
  {
    var text := RefText(r);
    match r
    case NoRef =>
    case JsonBin(id) =>
      assert text[..|JsonBinTag|] == JsonBinTag;
      assert text[|JsonBinTag|..] == id;
    case Gist(id) =>
      assert text[0] == 'g';
      assert text[..|GistTag|] == GistTag;
      assert text[|GistTag|..] == id;
    case Blob(key) =>
      assert text[0] == 'b';
      assert text[..|BlobTag|] == BlobTag;
      assert text[|BlobTag|..] == key;
    case RawHash(h) =>
  }

  // ------------------------------------------------------------- resolving

  function JsonBinUrl(binId: string): string {
    "https://api.jsonbin.io/v3/b/" + binId + "/latest"
  }

  function GistUrl(gistId: string): string {
    "https://gist.githubusercontent.com/anonymous/" + gistId + "/raw"
  }

  /** How a stored JSON value reads under `data.url || ""`. */
  function TruthyText(v: Option<Json.Value>): string {
    match v
    case None => ""
    case Some(Str(s)) => s
    case Some(Num(n)) => if n == 0 then "" else Json.Decimal(n)
  }

  /** The `blob_` branch: the `url` member of the JSON object stored under `key`, or `""`. */
  function StoredBlobUrl(entries: map<string, string>, key: string): (url: string)
    ensures key !in entries || entries[key] == "" ==> url == ""
    ensures key in entries && Json.Parse(entries[key]).None? ==> url == ""
    ensures key in entries && Json.Parse(entries[key]).Some? && Json.Lookup(Json.Parse(entries[key]).value, "url").None? ==> url == ""
    ensures key in entries && Json.Parse(entries[key]).Some? ==>
      var member := Json.Lookup(Json.Parse(entries[key]).value, "url");
      member.Some? && member.value.Str? ==> url == member.value.s
  {
    if key !in entries || entries[key] == "" then ""
    else
      var doc := Json.Parse(entries[key]);
      if doc.None? then "" else TruthyText(Json.Lookup(doc.value, "url"))
  }

  /**
   * `getIPFSGatewayURL`: a URL for a reference, reading the local store only
   * in the `blob_` branch. An absent reference is the empty string here.
   */
  function GatewayUrl(hash: string, entries: map<string, string>): (url: string)
    ensures hash == "" ==> url == ""
    ensures hash != "" && !StartsWith(hash, JsonBinTag) && !StartsWith(hash, GistTag) && !StartsWith(hash, BlobTag) ==>
      url == PinataGateway + hash
  {
    match ParseRef(hash)
    case NoRef => ""
    case JsonBin(id) => JsonBinUrl(id)
    case Gist(id) => GistUrl(id)
    case Blob(key) => StoredBlobUrl(entries, key)
    case RawHash(h) => PinataGateway + h
  }

  /** The resolver depends on the store through one key only: the `blob_` reference minus its tag. */
  lemma ResolverReadsOneKey(hash: string, e1: map<string, string>, e2: map<string, string>)
    requires ParseRef(hash).Blob? ==> var k := ParseRef(hash).storageKey; (k in e1 <==> k in e2) && (k in e1 ==> e1[k] == e2[k])
    ensures GatewayUrl(hash, e1) == GatewayUrl(hash, e2)
  {
  }

  /** A `jsonbin_` reference resolves to that bin's latest-version endpoint. */
  lemma JsonBinRefResolves(binId: string, entries: map<string, string>)
    ensures GatewayUrl(JsonBinTag + binId, entries) == JsonBinUrl(binId)
  {
    RefTextParse(JsonBin(binId));
  }

  /** A `gist_` reference resolves to that gist's raw endpoint. */
  lemma GistRefResolves(gistId: string, entries: map<string, string>)
    ensures GatewayUrl(GistTag + gistId, entries) == GistUrl(gistId)
  {
    RefTextParse(Gist(gistId));
  }

  /** A `blob_` reference resolves to the `url` recorded in the JSON object stored under the rest of the reference. */
  lemma BlobRefResolves(key: string, record: Json.Object, url: string, entries: map<string, string>)
    requires key in entries && entries[key] == Json.Stringify(record)
    requires Json.Lookup(record, "url") == Some(Json.Str(url))
    ensures GatewayUrl(BlobTag + key, entries) == url
  {
    RefTextParse(Blob(key));
    Json.RoundTrip(record);
  }

  /** A `blob_` reference whose key is missing from the store resolves to `""`. */
  lemma MissingBlobResolvesEmpty(key: string, entries: map<string, string>)
    requires key !in entries
    ensures GatewayUrl(BlobTag + key, entries) == ""
  {
    RefTextParse(Blob(key));
  }

  /**
   * A `blob_` reference whose stored text does not parse, or parses to an
   * object without a `url` member, resolves to `""`.
   */
  lemma UnreadableBlobResolvesEmpty(key: string, entries: map<string, string>)
    requires key in entries
    requires Json.Parse(entries[key]).None? || Json.Lookup(Json.Parse(entries[key]).value, "url").None?
    ensures GatewayUrl(BlobTag + key, entries) == ""
  {
    RefTextParse(Blob(key));
  }

  /** The metadata record an upload writes has no `url`, so a `blob_` reference to it resolves to `""`. */
  lemma MetaRecordResolvesEmpty(key: string, entries: map<string, string>, file: FileInfo, timestamp: nat, storage: string)
    requires key in entries && entries[key] == Json.Stringify(MetaRecord(file, timestamp, storage))
    ensures GatewayUrl(BlobTag + key, entries) == ""
  {
    Json.RoundTrip(MetaRecord(file, timestamp, storage));
    UnreadableBlobResolvesEmpty(key, entries);
  }

  /** A reference wrapped as `ipfs://<ref>` (as the uploaders' callers do) always takes the raw-hash branch. */
  lemma WrappedRefIsRaw(ref: string, entries: map<string, string>)
    ensures GatewayUrl(IpfsScheme + ref, entries) == PinataGateway + (IpfsScheme + ref)
  {
    var h := IpfsScheme + ref;
    assert h[0] == 'i';
    assert ParseRef(h) == RawHash(h);
  }

  // ------------------------------------------------------ gateway expansion

  /** The content identifier `getIPFSGatewayURLs` keeps: the first path segment after an optional `ipfs://`. */
  function ContentId(ipfsUrl: string): (cid: string)
    ensures '/' !in cid
    ensures StartsWith(ipfsUrl, IpfsScheme) ==> IpfsScheme + cid <= ipfsUrl
    ensures !StartsWith(ipfsUrl, IpfsScheme) ==> cid <= ipfsUrl
    ensures var rest := if StartsWith(ipfsUrl, IpfsScheme) then ipfsUrl[|IpfsScheme|..] else ipfsUrl;
      cid <= rest && (|cid| < |rest| ==> rest[|cid|] == '/')
  {
    if StartsWith(ipfsUrl, IpfsScheme) then
      var cid := FirstSegment(ipfsUrl[|IpfsScheme|..]);
      assert IpfsScheme + cid == ipfsUrl[..|IpfsScheme| + |cid|];
      cid
    else FirstSegment(ipfsUrl)
  }

  /** `getIPFSGatewayURLs`: the identifier expanded over every gateway, in the gateways' order. */
  function GatewayUrls(ipfsUrl: string): (urls: seq<string>)
    ensures ipfsUrl == "" ==> urls == []
    ensures ipfsUrl != "" ==> |urls| == |IpfsGateways|
    ensures ipfsUrl != "" ==> forall i :: 0 <= i < |urls| ==> urls[i] == IpfsGateways[i] + ContentId(ipfsUrl)
  {
    if ipfsUrl == "" then []
    else
      var cid := ContentId(ipfsUrl);
      [IpfsGateways[0] + cid, IpfsGateways[1] + cid, IpfsGateways[2] + cid, IpfsGateways[3] + cid]
  }

  /** The `ipfs://` scheme and any path after the identifier do not change the expansion. */
  lemma GatewayUrlsIgnoreSchemeAndPath(cid: string, path: string)
    requires cid != "" && '/' !in cid && !StartsWith(cid, IpfsScheme)
    ensures GatewayUrls(IpfsScheme + cid + "/" + path) == GatewayUrls(cid)
  {
    var url := IpfsScheme + cid + "/" + path;
    assert url[..|IpfsScheme|] == IpfsScheme;
    var rest := url[|IpfsScheme|..];
    assert rest == cid + "/" + path;
    FirstSegmentStopsAtSlash(cid, path);
    FirstSegmentNoSlash(cid);
  }

  lemma {:induction false} FirstSegmentStopsAtSlash(seg: string, path: string)
    requires '/' !in seg
    ensures FirstSegment(seg + "/" + path) == seg
  {
    if seg != [] {
      assert (seg + "/" + path)[1..] == seg[1..] + "/" + path;
      FirstSegmentStopsAtSlash(seg[1..], path);
      assert [seg[0]] + seg[1..] == seg;
    }
  }

  lemma {:induction false} FirstSegmentNoSlash(seg: string)
    requires '/' !in seg
    ensures FirstSegment(seg) == seg
  {
    if seg != [] {
      FirstSegmentNoSlash(seg[1..]);
      assert [seg[0]] + seg[1..] == seg;
    }
  }

  /** For a raw hash, the resolver's one URL (pinata) is not the head of the expansion (ipfs.io). */
  lemma ResolverDiffersFromFirstGateway(hash: string, entries: map<string, string>)
    requires ParseRef(hash).RawHash?
    ensures GatewayUrl(hash, entries) != GatewayUrls(hash)[0]
  {
    var a := GatewayUrl(hash, entries);
    var b := GatewayUrls(hash)[0];
    assert a[8] == 'g';
    assert b[8] == 'i';
  }

  // ----------------------------------------------------------- local store

  /** The browser's `localStorage`: string keys to string values, updated in place. */
  class LocalStore {
    var entries: map<string, string>

    constructor (initial: map<string, string>)
      ensures entries == initial
    {
      entries := initial;
    }

    /** `localStorage.setItem(key, value)`. */
    method SetItem(key: string, value: string)
      modifies this
      ensures entries == old(entries)[key := value]
    {
      entries := entries[key := value];
    }
  }

  /** The properties of a `File` or `Blob` the uploaders read; a `Blob` has no name. */
  datatype FileInfo = FileInfo(name: Option<string>, mimeType: string, size: nat)

  /**
   * What the browser answers during one local upload: the object URL
   * (`None` when `URL.createObjectURL` throws), the first and second
   * `Date.now()` readings and the random suffix.
   */
  datatype LocalUpload = LocalUpload(objectUrl: Option<string>, firstClock: nat, secondClock: nat, suffix: string)

  /** The record stored under `meta_<id>`, members in the order the source writes them. */
  function MetaRecord(file: FileInfo, timestamp: nat, storage: string): (o: Json.Object)
    ensures Json.Lookup(o, "type") == Some(Json.Str(file.mimeType))
    ensures Json.Lookup(o, "url").None?
  {
    (if file.name.Some? then [("name", Json.Str(file.name.value))] else [])
    + [("type", Json.Str(file.mimeType)), ("size", Json.Num(file.size)),
       ("timestamp", Json.Num(timestamp)), ("storage", Json.Str(storage))]
  }

  datatype StoreUpdate = StoreUpdate(entries: map<string, string>, id: string)

  /** The part of a local upload's id after `blob_`: the first clock reading and the random suffix. */
  function BlobKey(up: LocalUpload): string {
    Json.Decimal(up.firstClock) + "_" + up.suffix
  }

  function BlobId(up: LocalUpload): string {
    BlobTag + BlobKey(up)
  }

  function FallbackId(up: LocalUpload): string {
    FallbackTag + Json.Decimal(up.firstClock) + "_" + up.suffix
  }

  /** The new store and the returned id of `uploadToWeb3Storage`. */
  function LocalUploadResult(entries: map<string, string>, file: FileInfo, up: LocalUpload): (u: StoreUpdate)
    ensures entries.Keys <= u.entries.Keys
    ensures MetaTag + u.id in u.entries
    ensures up.objectUrl.Some? ==> StartsWith(u.id, BlobTag) && BlobTag + u.id in u.entries
    ensures up.objectUrl.None? ==> StartsWith(u.id, FallbackTag)
  {
    match up.objectUrl
    case Some(objectUrl) =>
      var id := BlobId(up);
      assert id[..|BlobTag|] == BlobTag;
      StoreUpdate(entries[BlobTag + id := objectUrl][MetaTag + id := Json.Stringify(MetaRecord(file, up.firstClock, "blob"))], id)
    case None =>
      var id := FallbackId(up);
      assert id[..|FallbackTag|] == FallbackTag;
      StoreUpdate(entries[MetaTag + id := Json.Stringify(MetaRecord(file, up.secondClock, "fallback"))], id)
  }

  /** `uploadToWeb3Storage`: record the object URL and the file's metadata, and return the new id. */
  method UploadToWeb3Storage(store: LocalStore, file: FileInfo, up: LocalUpload) returns (id: string)
    modifies store
    ensures StoreUpdate(store.entries, id) == LocalUploadResult(old(store.entries), file, up)
  {
    if up.objectUrl.Some? {
      id := BlobId(up);
      store.SetItem(BlobTag + id, up.objectUrl.value);
      store.SetItem(MetaTag + id, Json.Stringify(MetaRecord(file, up.firstClock, "blob")));
    } else {
      id := FallbackId(up);
      store.SetItem(MetaTag + id, Json.Stringify(MetaRecord(file, up.secondClock, "fallback")));
    }
  }

  /**
   * A successful local upload returns a `blob_` id and writes exactly the keys
   * `blob_<id>` (the object URL) and `meta_<id>` (a record that reads back as
   * the file's metadata); no other key changes.
   */
  lemma LocalUploadWrites(entries: map<string, string>, file: FileInfo, up: LocalUpload)
    requires up.objectUrl.Some?
    ensures var u := LocalUploadResult(entries, file, up);
      && StartsWith(u.id, BlobTag)
      && u.entries.Keys == entries.Keys + {BlobTag + u.id, MetaTag + u.id}
      && u.entries[BlobTag + u.id] == up.objectUrl.value
      && Json.Parse(u.entries[MetaTag + u.id]) == Some(MetaRecord(file, up.firstClock, "blob"))
      && forall k :: k in entries && k != BlobTag + u.id && k != MetaTag + u.id ==> u.entries[k] == entries[k]
  {
    var id := BlobId(up);
    assert id[..|BlobTag|] == BlobTag;
    assert BlobTag + id != MetaTag + id by { assert (BlobTag + id)[0] != (MetaTag + id)[0]; }
    Json.RoundTrip(MetaRecord(file, up.firstClock, "blob"));
  }

  /** When the object URL cannot be created, only `meta_<id>` is written, under a `fallback_` id. */
  lemma FallbackUploadWrites(entries: map<string, string>, file: FileInfo, up: LocalUpload)
    requires up.objectUrl.None?
    ensures var u := LocalUploadResult(entries, file, up);
      && StartsWith(u.id, FallbackTag)
      && u.entries.Keys == entries.Keys + {MetaTag + u.id}
      && Json.Parse(u.entries[MetaTag + u.id]) == Some(MetaRecord(file, up.secondClock, "fallback"))
      && forall k :: k in entries && k != MetaTag + u.id ==> u.entries[k] == entries[k]
  {
    var id := FallbackId(up);
    assert id[..|FallbackTag|] == FallbackTag;
    Json.RoundTrip(MetaRecord(file, up.secondClock, "fallback"));
  }

  /**
   * The resolver looks a `blob_` id up under the id minus its first `blob_`,
   * a key the upload never writes: resolving the new id gives the same answer
   * as before the upload, and `""` when that key did not exist.
   */
  lemma UploadedBlobIdNotResolved(entries: map<string, string>, file: FileInfo, up: LocalUpload)
    requires up.objectUrl.Some?
    ensures var u := LocalUploadResult(entries, file, up);
      && GatewayUrl(u.id, u.entries) == GatewayUrl(u.id, entries)
      && ParseRef(u.id) == Blob(BlobKey(up))
      && (BlobKey(up) !in entries ==> GatewayUrl(u.id, u.entries) == "")
  {
    var u := LocalUploadResult(entries, file, up);
    var key := BlobKey(up);
    assert u.id == BlobTag + key;
    RefTextParse(Blob(key));
    assert ParseRef(u.id) == Blob(key);
    assert |key| < |BlobTag + u.id| && |key| < |MetaTag + u.id|;
    assert key != BlobTag + u.id && key != MetaTag + u.id;
    ResolverReadsOneKey(u.id, u.entries, entries);
  }

  // --------------------------------------------------------- upload chain

  /** The answer of one remote paste store: the id it assigned, or any failure (thrown, non-OK status). */
  datatype RemoteOutcome = Accepted(id: string) | Rejected

  /** Everything one `uploadToIPFS` call learns from the outside world. */
  datatype Attempt = Attempt(jsonBin: RemoteOutcome, gist: RemoteOutcome, local: LocalUpload)

  datatype Backend = JsonBinBackend(binId: string) | GistBackend(gistId: string) | LocalBackend

  /** The order of `uploadToIPFS`: JSONBin, then Gist, both only below the size limit, then local storage. */
  function ChooseBackend(size: nat, jsonBin: RemoteOutcome, gist: RemoteOutcome): (b: Backend)
    ensures size >= RemoteSizeLimit ==> b == LocalBackend
    ensures b.JsonBinBackend? <==> size < RemoteSizeLimit && jsonBin.Accepted?
    ensures b.JsonBinBackend? ==> b.binId == jsonBin.id
    ensures b.GistBackend? <==> size < RemoteSizeLimit && jsonBin.Rejected? && gist.Accepted?
    ensures b.GistBackend? ==> b.gistId == gist.id
  {
    if size < RemoteSizeLimit && jsonBin.Accepted? then JsonBinBackend(jsonBin.id)
    else if size < RemoteSizeLimit && gist.Accepted? then GistBackend(gist.id)
    else LocalBackend
  }

  /** The new store and the returned reference of `uploadToIPFS`. */
  function IpfsUploadResult(entries: map<string, string>, file: FileInfo, a: Attempt): (u: StoreUpdate)
    ensures entries.Keys <= u.entries.Keys
    ensures !ChooseBackend(file.size, a.jsonBin, a.gist).LocalBackend? ==> u.entries == entries
    ensures ChooseBackend(file.size, a.jsonBin, a.gist).LocalBackend? ==> MetaTag + u.id in u.entries
  {
    match ChooseBackend(file.size, a.jsonBin, a.gist)
    case JsonBinBackend(id) => StoreUpdate(entries, JsonBinTag + id)
    case GistBackend(id) => StoreUpdate(entries, GistTag + id)
    case LocalBackend => LocalUploadResult(entries, file, a.local)
  }

  /** `uploadToIPFS`: try the remote stores in order, stop at the first that accepts, else store locally. */
  method UploadToIpfs(store: LocalStore, file: FileInfo, a: Attempt) returns (ref: string)
    modifies store
    ensures StoreUpdate(store.entries, ref) == IpfsUploadResult(old(store.entries), file, a)
  {
    if file.size < RemoteSizeLimit {
      if a.jsonBin.Accepted? {
        return JsonBinTag + a.jsonBin.id;
      }
    }
    if file.size < RemoteSizeLimit {
      if a.gist.Accepted? {
        return GistTag + a.gist.id;
      }
    }
    ref := UploadToWeb3Storage(store, file, a.local);
  }

  /** A large file never reaches a remote store: the result is the local upload whatever they would answer. */
  lemma LargeFileStaysLocal(entries: map<string, string>, file: FileInfo, a: Attempt)
    requires file.size >= RemoteSizeLimit
    ensures IpfsUploadResult(entries, file, a) == LocalUploadResult(entries, file, a.local)
  {
  }

  /**
   * The reference an upload returns resolves back to where the content went:
   * the bin's or gist's endpoint without touching the store, or (local) the
   * store written as `LocalUploadResult` says.
   */
  lemma UploadedRefResolves(entries: map<string, string>, file: FileInfo, a: Attempt)
    ensures var u := IpfsUploadResult(entries, file, a);
      match ChooseBackend(file.size, a.jsonBin, a.gist)
      case JsonBinBackend(id) => u.entries == entries && GatewayUrl(u.id, u.entries) == JsonBinUrl(id)
      case GistBackend(id) => u.entries == entries && GatewayUrl(u.id, u.entries) == GistUrl(id)
      case LocalBackend =>
        && u == LocalUploadResult(entries, file, a.local)
        && (a.local.objectUrl.Some? ==> ParseRef(u.id) == Blob(BlobKey(a.local)))
        && (a.local.objectUrl.None? ==> GatewayUrl(u.id, u.entries) == PinataGateway + u.id)
  {
    match ChooseBackend(file.size, a.jsonBin, a.gist)
    case JsonBinBackend(id) => JsonBinRefResolves(id, entries);
    case GistBackend(id) => GistRefResolves(id, entries);
    case LocalBackend =>
      var u := LocalUploadResult(entries, file, a.local);
      if a.local.objectUrl.Some? {
        UploadedBlobIdNotResolved(entries, file, a.local);
      } else {
        FallbackRefResolves(a.local, u.entries);
      }
  }

  /** A `fallback_` id carries none of the backend tags, so it resolves as a raw hash through Pinata. */
  lemma FallbackRefResolves(up: LocalUpload, entries: map<string, string>)
    ensures GatewayUrl(FallbackId(up), entries) == PinataGateway + FallbackId(up)
  {
    var id := FallbackId(up);
    assert id[0] == 'f';
    assert !StartsWith(id, JsonBinTag) && !StartsWith(id, GistTag) && !StartsWith(id, BlobTag);
  }

  // ------------------------------------------------------ metadata upload

  /** What `uploadMetadata` returns, without the metadata document itself. */
  datatype MetadataUpload = MetadataUpload(url: string, gateway: string, image: string)

  /** The metadata document is uploaded as a JSON `Blob`, which has no name. */
  function MetadataBlob(documentSize: nat): FileInfo {
    FileInfo(None, "application/json", documentSize)
  }

  /** `uploadMetadata`: upload the document and wrap its reference as `ipfs://<ref>`. */
  method UploadMetadata(store: LocalStore, imageHash: string, documentSize: nat, a: Attempt) returns (result: MetadataUpload)
    modifies store
    ensures var u := IpfsUploadResult(old(store.entries), MetadataBlob(documentSize), a);
      store.entries == u.entries && result.url == IpfsScheme + u.id
    ensures result.image == IpfsScheme + imageHash
    ensures result.gateway == PinataGateway + result.url
  {
    var metadataHash := UploadToIpfs(store, MetadataBlob(documentSize), a);
    var url := IpfsScheme + metadataHash;
    var gateway := GatewayUrl(url, store.entries);
    WrappedRefIsRaw(metadataHash, store.entries);
    assert gateway == PinataGateway + url;
    result := MetadataUpload(url, gateway, IpfsScheme + imageHash);
  }

  /** What `uploadNFTContent` returns that its caller reads. */
  datatype NftContent = NftContent(url: string, gateway: string, imageHash: string, imageUrl: string)

  /** `uploadNFTContent`: upload the image, then the metadata that points at it. */
  method UploadNftContent(store: LocalStore, file: FileInfo, image: Attempt, documentSize: nat, metadata: Attempt)
    returns (content: NftContent)
    modifies store
    ensures var imageUpload := IpfsUploadResult(old(store.entries), file, image);
      var metadataUpload := IpfsUploadResult(imageUpload.entries, MetadataBlob(documentSize), metadata);
      && content.imageHash == imageUpload.id
      && store.entries == metadataUpload.entries
      && content.url == IpfsScheme + metadataUpload.id
    ensures content.imageUrl == PinataGateway + (IpfsScheme + content.imageHash)
    ensures content.gateway == PinataGateway + content.url
  {
    var imageHash := UploadToIpfs(store, file, image);
    var imageUrl := GatewayUrl(IpfsScheme + imageHash, store.entries);
    WrappedRefIsRaw(imageHash, store.entries);
    var meta := UploadMetadata(store, imageHash, documentSize, metadata);
    content := NftContent(meta.url, meta.gateway, imageHash, imageUrl);
  }

  // ------------------------------------------------------ reading back

  datatype LoadError = MetadataUnreadable | FileNotFound

  /** A `data:` URL, or the error `loadFromLocalStorage` throws. */
  datatype LoadResult = DataUrl(url: string) | LoadFailed(error: LoadError)

  /** `metadata.type || "application/octet-stream"`. */
  function MimeTypeOf(record: Json.Object): (mime: string)
    ensures mime != ""
    ensures Json.Lookup(record, "type").None? ==> mime == DefaultMimeType
    ensures var t := Json.Lookup(record, "type");
      t.Some? && t.value.Str? ==> mime == (if t.value.s != "" then t.value.s else DefaultMimeType)
  {
    var t := TruthyText(Json.Lookup(record, "type"));
    if t == "" then DefaultMimeType else t
  }

  /** `loadFromLocalStorage`: the stored base64 data as a `data:` URL, typed by the stored metadata. */
  function LoadFromLocalStorage(entries: map<string, string>, fileId: string): (r: LoadResult)
    ensures r == LoadFailed(MetadataUnreadable) <==> !MetadataReadable(entries, fileId)
    ensures r == LoadFailed(FileNotFound) <==> MetadataReadable(entries, fileId) && !FilePresent(entries, fileId)
    ensures r.DataUrl? <==> MetadataReadable(entries, fileId) && FilePresent(entries, fileId)
    ensures r.DataUrl? && !MetadataStored(entries, fileId) ==>
      r.url == "data:" + DefaultMimeType + ";base64," + entries[FileTag + fileId]
    ensures r.DataUrl? && MetadataStored(entries, fileId) ==>
      r.url == "data:" + MimeTypeOf(Json.Parse(entries[MetaTag + fileId]).value) + ";base64," + entries[FileTag + fileId]
  {
    Json.RoundTrip([]);
    var metaKey := MetaTag + fileId;
    var metaText := if metaKey in entries && entries[metaKey] != "" then entries[metaKey] else "{}";
    var record := Json.Parse(metaText);
    if record.None? then LoadFailed(MetadataUnreadable)
    else if FileTag + fileId !in entries || entries[FileTag + fileId] == "" then LoadFailed(FileNotFound)
    else DataUrl("data:" + MimeTypeOf(record.value) + ";base64," + entries[FileTag + fileId])
  }

  /** `localStorage.getItem("meta_" + id)` is truthy. */
  predicate MetadataStored(entries: map<string, string>, fileId: string) {
    MetaTag + fileId in entries && entries[MetaTag + fileId] != ""
  }

  /** `JSON.parse` of the stored record, or of `"{}"` when there is none, does not throw. */
  predicate MetadataReadable(entries: map<string, string>, fileId: string) {
    !MetadataStored(entries, fileId) || Json.Parse(entries[MetaTag + fileId]).Some?
  }

  /** `localStorage.getItem("file_" + id)` is truthy. */
  predicate FilePresent(entries: map<string, string>, fileId: string) {
    FileTag + fileId in entries && entries[FileTag + fileId] != ""
  }

  /** With no metadata stored, the data URL carries the default media type. */
  lemma LoadWithoutMetadata(entries: map<string, string>, fileId: string)
    requires MetaTag + fileId !in entries
    requires FileTag + fileId in entries && entries[FileTag + fileId] != ""
    ensures LoadFromLocalStorage(entries, fileId) == DataUrl("data:" + DefaultMimeType + ";base64," + entries[FileTag + fileId])
  {
    assert Json.SkipWs("{}") == "{}";
    assert Json.SkipWs("}") == "}";
    assert Json.SkipWs("") == "";
  }

  /** With the record an upload writes, the data URL carries the uploaded file's type (or the default for an untyped file). */
  lemma LoadUsesUploadedType(entries: map<string, string>, fileId: string, file: FileInfo, timestamp: nat, storage: string)
    requires entries[MetaTag + fileId := Json.Stringify(MetaRecord(file, timestamp, storage))] == entries
    requires FileTag + fileId in entries && entries[FileTag + fileId] != ""
    ensures LoadFromLocalStorage(entries, fileId)
            == DataUrl("data:" + (if file.mimeType == "" then DefaultMimeType else file.mimeType) + ";base64," + entries[FileTag + fileId])
  {
    var record := MetaRecord(file, timestamp, storage);
    assert entries[MetaTag + fileId] == Json.Stringify(record);
    assert Json.Stringify(record) != "" by { assert Json.Stringify(record)[0] == '{'; }
    Json.RoundTrip(record);
  }

  /** No upload writes a `file_` key, so a file uploaded into a store without one cannot be loaded back as a data URL. */
  lemma UploadedFileNotLoadable(entries: map<string, string>, file: FileInfo, up: LocalUpload)
    requires var id := LocalUploadResult(entries, file, up).id; FileTag + id !in entries
    ensures var u := LocalUploadResult(entries, file, up); LoadFromLocalStorage(u.entries, u.id).LoadFailed?
  {
    var u := LocalUploadResult(entries, file, up);
    assert (FileTag + u.id)[0] == 'f';
    assert (BlobTag + u.id)[0] == 'b' && (MetaTag + u.id)[0] == 'm';
    assert FileTag + u.id != BlobTag + u.id && FileTag + u.id != MetaTag + u.id;
    assert FileTag + u.id !in u.entries;
  }
}
