/** The pure parts of the tarball routes (lib/index.js:178-371): the binary
    store key, the choice of download location and the download counter. */
module Tarballs {
  import opened Wrappers
  import opened JsObject
  import opened Documents

  /** Why a step of a route failed; the route answers 500 with it. */
  datatype Failure =
    | NotFound(key: string)    // a store or registry read found nothing
    | Conflict(name: string)   // a write whose revision does not match the stored one
    | StoreFailed              // the disk refused a write
    | FetchFailed(url: string) // a network read failed
    | NoSuchVersion(version: string)
    | HashMismatch

  /** The document a route reads: `user/name` on the scoped route. */
  function FullName(scope: Option<string>, name: string): string {
    if scope.Some? then scope.value + "/" + name else name
  }

  /** The binary-store key of an archive (lines 258 and 319). */
  function CacheKey(scope: Option<string>, name: string, version: string): (k: string)
    ensures |k| == |FullName(scope, name)| + 1 + |version|
    ensures k[..|FullName(scope, name)|] == FullName(scope, name) && k[|FullName(scope, name)|] == '-'
    ensures k[|FullName(scope, name)| + 1..] == version
  {
    FullName(scope, name) + "-" + version
  }

  /** For one package the key determines the version. */
  lemma CacheKeyInjectiveInVersion(scope: Option<string>, name: string, v: string, w: string)
    requires CacheKey(scope, name, v) == CacheKey(scope, name, w)
    ensures v == w
  {
    var p := FullName(scope, name) + "-";
    assert v == CacheKey(scope, name, v)[|p|..];
    assert w == CacheKey(scope, name, w)[|p|..];
  }

  /** Across packages it does not: "-" may occur in names and in versions, so
      foo-1.0.0 at 1.0.0 and foo at 1.0.0-1.0.0 share one blob. */
  lemma CacheKeyCollides()
    ensures CacheKey(None, "foo-1.0.0", "1.0.0") == CacheKey(None, "foo", "1.0.0-1.0.0")
    ensures ("foo-1.0.0", "1.0.0") != ("foo", "1.0.0-1.0.0")
  {
  }

  /** `if (dist.info)`: an empty string is falsy like an absent one. */
  predicate HasInfo(dist: Dist) {
    dist.info.Some? && dist.info.value != ""
  }

  /** Where `getTarLocation` (lines 178-191) says the archive is: the tarball
      URL that the version's own metadata at `dist.info` names, or else
      `dist.tarball`. `infoAt` is what the network answers for metadata URLs. */
  function TarLocation(dist: Dist, infoAt: map<string, string>): (r: Result<string, Failure>)
    ensures !HasInfo(dist) ==> r == Ok(dist.tarball)
    ensures HasInfo(dist) ==> (r.Ok? <==> dist.info.value in infoAt)
    ensures HasInfo(dist) && r.Ok? ==> r.value == infoAt[dist.info.value]
  {
    if HasInfo(dist) then
      if dist.info.value in infoAt then Ok(infoAt[dist.info.value]) else Err(FetchFailed(dist.info.value))
    else Ok(dist.tarball)
  }

  /** `downloads ? downloads + 1 : 1`: absent and 0 are both falsy. */
  function Bump(rec: VersionRecord): (r: VersionRecord)
    ensures r.dist == rec.dist && r.downloads.Some?
    ensures rec.downloads.Some? && rec.downloads.value > 0 ==> r.downloads.value == rec.downloads.value + 1
    ensures rec.downloads.None? || rec.downloads.value == 0 ==> r.downloads.value == 1
  {
    if rec.downloads.Some? && rec.downloads.value > 0 then rec.(downloads := Some(rec.downloads.value + 1))
    else rec.(downloads := Some(1))
  }

  /** The document the counter step (lines 296-304) writes back after reading
      `name` from the local store, or None when the step throws: the document
      is missing, or `versions[version]` is undefined. A name that reaches an
      `Object.prototype` member writes the document back as it was. */
  function Counted(store: map<string, Document>, name: string, version: string): (r: Option<Document>)
    ensures r.Some? <==> name in store && !Get(store[name].versions, version).Absent?
    ensures r.Some? ==> r.value.name == store[name].name && r.value.rev == store[name].rev
    ensures r.Some? ==> r.value.versions.Keys == store[name].versions.Keys
    ensures r.Some? ==> forall v | v in r.value.versions && v != version :: r.value.versions[v] == store[name].versions[v]
    ensures r.Some? && version in store[name].versions ==>
      r.value.versions[version] == Bump(store[name].versions[version])
  {
    if name !in store then None
    else
      var doc := store[name];
      match Get(doc.versions, version)
      case Absent => None
      case Inherited(_) => Some(doc)
      case Own(rec) => Some(doc.(versions := doc.versions[version := Bump(rec)]))
  }

  /** The local store after the counter step writes the counted document
      with revision `rev`, or as it was when the step throws or the disk
      refuses the write. */
  function CountedStore(store: map<string, Document>, rev: nat, name: string, version: string, diskOk: bool): map<string, Document> {
    var doc := Counted(store, name, version);
    if doc.Some? && diskOk then store[name := doc.value.(rev := Some(rev))] else store
  }

  /** The scoped route counts under the bare package name (lines 357-365),
      so the document it served, `user/name`, keeps its counters. */
  lemma ScopedCounterLeavesScopedDocument(store: map<string, Document>, rev: nat, user: string, name: string, version: string, diskOk: bool)
    requires FullName(Some(user), name) in store
    ensures var after := CountedStore(store, rev, name, version, diskOk);
      FullName(Some(user), name) in after && after[FullName(Some(user), name)] == store[FullName(Some(user), name)]
  {
    assert |FullName(Some(user), name)| > |name|;
  }

  /** Counting twice adds two to a counted version. */
  lemma CountedTwice(store: map<string, Document>, name: string, version: string, rev: Option<nat>)
    requires name in store && version in store[name].versions
    ensures var once := Counted(store, name, version).value;
      var again := Counted(store[name := once.(rev := rev)], name, version).value;
      again.versions[version].downloads.value == Bump(store[name].versions[version]).downloads.value + 1
  {
    var once := Counted(store, name, version).value;
    assert Bump(store[name].versions[version]).downloads.value > 0;
  }
}
