/** The registry cache's stateful request handling (lib/index.js):
    `getDocument`, `getTarLocation`, `downloadTar` and the two tarball routes.
    The local document store (`skimLocal`) and the binary store (`db`) are
    fields the methods update; the remote skim database (`skimRemote`), the upstream registry
    and the network answers for metadata and archive URLs are fixed inputs.
    Every network read is appended to `fetches`. */
module Server {
  import opened Wrappers
  import opened JsObject
  import opened Documents
  import opened Tarballs

  /** A network read the cache makes. */
  datatype Fetch =
    | RemoteGet(name: string)  // skimRemote.get(name)
    | UpstreamGet(url: string) // axios.get(FAT_REMOTE + "/" + name)
    | InfoGet(url: string)     // the version metadata at dist.info
    | TarballGet(url: string)  // the archive itself

  /** What a tarball route answers first; later sends on the same response are lost. */
  datatype Response = Served(body: seq<bv8>) | Failed(failure: Failure)

  class LocalNpm {
    var local: map<string, Document>  // skimLocal, keyed by document name
    var nextRev: nat                  // the revision the next write receives
    var binary: map<string, seq<bv8>> // the Level store of archives
    var fetches: seq<Fetch>
    const diskOk: bool                // whether the disk accepts writes
    const remote: map<string, Document>
    const upstream: map<string, Document>
    const upstreamBase: string        // FAT_REMOTE
    const infoAt: map<string, string>
    const tarballAt: map<string, seq<bv8>>
    const sha1: seq<bv8> -> string    // hex digest

    /** Every store holds each document under its own name, as CouchDB keys
        documents by `_id`; every stored revision was issued before `nextRev`,
        so the revision a write issues is fresh. */
    ghost predicate Valid()
      reads this
    {
      && (forall k | k in local :: local[k].name == k)
      && (forall k | k in local :: local[k].rev.Some? && local[k].rev.value < nextRev)
      && (forall k | k in remote :: remote[k].name == k)
      && (forall k | k in upstream :: upstream[k].name == k)
    }

    /** Opening the stores: `skimdb` and `binarydb` (lines 43-46) hold what
        earlier runs left in them; `nextRev` is above every stored revision. */
    constructor (local: map<string, Document>, binary: map<string, seq<bv8>>, nextRev: nat,
                 remote: map<string, Document>, upstream: map<string, Document>, upstreamBase: string,
                 infoAt: map<string, string>, tarballAt: map<string, seq<bv8>>,
                 sha1: seq<bv8> -> string, diskOk: bool)
      requires forall k | k in local :: local[k].name == k
      requires forall k | k in local :: local[k].rev.Some? && local[k].rev.value < nextRev
      requires forall k | k in remote :: remote[k].name == k
      requires forall k | k in upstream :: upstream[k].name == k
      ensures Valid()
      ensures this.local == local && this.binary == binary && this.nextRev == nextRev && fetches == []
      ensures this.remote == remote && this.upstream == upstream && this.upstreamBase == upstreamBase
      ensures this.infoAt == infoAt && this.tarballAt == tarballAt && this.sha1 == sha1 && this.diskOk == diskOk
    {
      this.local, this.nextRev, this.binary, fetches := local, nextRev, binary, [];
      this.remote, this.upstream, this.upstreamBase := remote, upstream, upstreamBase;
      this.infoAt, this.tarballAt, this.sha1, this.diskOk := infoAt, tarballAt, sha1, diskOk;
    }

    function UpstreamUrl(name: string): string
      reads this
    {
      upstreamBase + "/" + name
    }

    // ----- the local store -----

    /** `skimLocal.get(name)`. */
    function Read(name: string): (r: Result<Document, Failure>)
      reads this
      ensures r.Ok? <==> name in local
      ensures r.Ok? ==> r.value == local[name]
    {
      if name in local then Ok(local[name]) else Err(NotFound(name))
    }

    /** `skimLocal.post(doc)` / `skimLocal.put(doc)`: the write succeeds when
        the disk accepts it and the document's revision is the stored one
        (none for a new document); the stored copy gets a fresh revision. */
    method Write(doc: Document) returns (ok: bool)
      requires Valid()
      modifies this`local, this`nextRev
      ensures Valid()
      ensures ok <==> diskOk && (if doc.name in old(local) then old(local)[doc.name].rev == doc.rev else doc.rev.None?)
      ensures ok ==> local == old(local)[doc.name := doc.(rev := Some(old(nextRev)))] && nextRev == old(nextRev) + 1
      ensures !ok ==> local == old(local) && nextRev == old(nextRev)
      ensures ok ==> forall k | k in old(local) :: old(local)[k].rev != Some(old(nextRev))
    {
      ok := diskOk && (if doc.name in local then local[doc.name].rev == doc.rev else doc.rev.None?);
      if ok {
        local := local[doc.name := doc.(rev := Some(nextRev))];
        nextRev := nextRev + 1;
      }
    }

    // ----- getDocument (lines 127-162) -----

    /** The registry a local miss is answered from: the remote skim database when it has
        the document and the disk takes the copy, the upstream otherwise. */
    function Source(name: string): Option<Document>
      reads this
    {
      if diskOk && name in remote then Some(remote[name])
      else if diskOk && name in upstream then Some(upstream[name])
      else None
    }

    /** What `getDocument(name)` resolves to. */
    function Resolve(name: string): Result<Document, Failure>
      reads this
    {
      if name in local then Ok(local[name])
      else if Source(name).Some? then Ok(Source(name).value.(rev := Some(nextRev)))
      else if name in upstream then Err(StoreFailed)
      else Err(FetchFailed(UpstreamUrl(name)))
    }

    /** The network reads `getDocument(name)` makes. */
    function ResolveFetches(name: string): seq<Fetch>
      reads this
    {
      if name in local then []
      else if diskOk && name in remote then [RemoteGet(name)]
      else [RemoteGet(name), UpstreamGet(UpstreamUrl(name))]
    }

    /** A local hit is returned as stored with no network read and no write.
        On a miss the remote skim database is tried, then the upstream; the copy is written
        with `_rev` cleared and read back, so afterwards the store holds it. */
    method GetDocument(name: string) returns (r: Result<Document, Failure>)
      requires Valid()
      modifies this`local, this`nextRev, this`fetches
      ensures Valid()
      ensures r == old(Resolve(name))
      ensures fetches == old(fetches) + old(ResolveFetches(name))
      ensures name in old(local) ==> r == Ok(old(local)[name]) && local == old(local) && nextRev == old(nextRev)
      ensures r.Ok? ==> name in local && local[name] == r.value
      ensures name !in old(local) && r.Ok? ==>
        && local == old(local)[name := r.value] && nextRev == old(nextRev) + 1
        && r.value == old(Source(name)).value.(rev := Some(old(nextRev)))
      ensures r.Err? ==> local == old(local) && nextRev == old(nextRev)
      ensures r.Err? <==> name !in old(local) && (!diskOk || (name !in remote && name !in upstream))
    {
      r := Read(name);
      if r.Ok? {
        return;
      }
      fetches := fetches + [RemoteGet(name)];
      if name in remote {
        var ok := Write(remote[name].(rev := None));
        if ok {
          r := Read(name);
          return;
        }
      }
      fetches := fetches + [UpstreamGet(UpstreamUrl(name))];
      if name !in upstream {
        r := Err(FetchFailed(UpstreamUrl(name)));
        return;
      }
      var ok := Write(upstream[name].(rev := None));
      if ok {
        r := Read(name);
      } else {
        r := Err(StoreFailed);
      }
    }

    // ----- the tarball routes (lines 178-211, 254-371) -----

    /** `getTarLocation(dist)`: reads the version metadata when `dist.info` is set. */
    method GetTarLocation(dist: Dist) returns (r: Result<string, Failure>)
      modifies this`fetches
      ensures r == TarLocation(dist, infoAt)
      ensures fetches == old(fetches) + (if HasInfo(dist) then [InfoGet(dist.info.value)] else [])
    {
      if HasInfo(dist) {
        fetches := fetches + [InfoGet(dist.info.value)];
        if dist.info.value in infoAt {
          r := Ok(infoAt[dist.info.value]);
        } else {
          r := Err(FetchFailed(dist.info.value));
        }
      } else {
        r := Ok(dist.tarball);
      }
    }

    /** `downloadTar(id, url)`: the downloaded bytes are stored under `id`
        before they are returned; nothing is stored when either step fails. */
    method DownloadTar(id: string, url: string) returns (r: Result<seq<bv8>, Failure>)
      modifies this`binary, this`fetches
      ensures fetches == old(fetches) + [TarballGet(url)]
      ensures r.Ok? <==> url in tarballAt && diskOk
      ensures r.Ok? ==> r.value == tarballAt[url] && binary == old(binary)[id := r.value]
      ensures r.Err? ==> binary == old(binary)
    {
      fetches := fetches + [TarballGet(url)];
      if url !in tarballAt {
        r := Err(FetchFailed(url));
      } else if !diskOk {
        r := Err(StoreFailed);
      } else {
        binary := binary[id := tarballAt[url]];
        r := Ok(tarballAt[url]);
      }
    }

    /** The network reads of the miss path for `dist`. */
    function MissFetches(dist: Dist): seq<Fetch>
      reads this
    {
      (if HasInfo(dist) then [InfoGet(dist.info.value)] else [])
      + (if TarLocation(dist, infoAt).Ok? then [TarballGet(TarLocation(dist, infoAt).value)] else [])
    }

    /** The binary-store step for a version whose `dist` is known. A stored
        blob is served when its digest is `dist.shasum` and refused with a
        500 otherwise, with no download and no write either way. A missing
        blob is located, downloaded, stored under `id` and served. */
    method ServeArchive(id: string, dist: Dist) returns (resp: Response)
      modifies this`binary, this`fetches
      ensures id in old(binary) ==>
        && binary == old(binary) && fetches == old(fetches)
        && resp == (if sha1(old(binary)[id]) == dist.shasum then Served(old(binary)[id]) else Failed(HashMismatch))
      ensures id !in old(binary) ==>
        && fetches == old(fetches) + MissFetches(dist)
        && (resp.Served? <==> TarLocation(dist, infoAt).Ok? && TarLocation(dist, infoAt).value in tarballAt && diskOk)
        && (resp.Served? ==> resp.body == tarballAt[TarLocation(dist, infoAt).value] && binary == old(binary)[id := resp.body])
        && (resp.Failed? ==> binary == old(binary))
    {
      if id in binary {
        var blob := binary[id];
        if sha1(blob) != dist.shasum {
          resp := Failed(HashMismatch);
        } else {
          resp := Served(blob);
        }
        return;
      }
      var location := GetTarLocation(dist);
      if location.Err? {
        resp := Failed(location.error);
        return;
      }
      var tar := DownloadTar(id, location.value);
      if tar.Ok? {
        resp := Served(tar.value);
      } else {
        resp := Failed(tar.error);
      }
    }

    /** The counter step: read `name` again, bump `versions[version]` and write
        the document back. Fails, changing nothing, when the step throws or
        the write is refused. */
    method CountDownload(name: string, version: string) returns (ok: bool)
      requires Valid()
      modifies this`local, this`nextRev
      ensures Valid()
      ensures ok <==> Counted(old(local), name, version).Some? && diskOk
      ensures ok ==> local == old(local)[name := Counted(old(local), name, version).value.(rev := Some(old(nextRev)))]
      ensures ok ==> nextRev == old(nextRev) + 1
      ensures !ok ==> local == old(local) && nextRev == old(nextRev)
    {
      var doc := Counted(local, name, version);
      if doc.None? {
        return false;
      }
      ok := Write(doc.value);
    }

    /** `GET /tarballs/:name/:version.tgz`, or with `scope` the scoped route
        `GET /tarballs/:user/:package/:version.tgz`. The document is resolved
        under the full name and the blob is keyed by `CacheKey`. Whatever the
        archive step answers, the counter step then runs on the document named
        by the bare `name`, also on the scoped route. A version the document
        does not have answers 500 and skips both steps; a version name that
        reaches an `Object.prototype` member answers 500 without touching the
        binary store and still runs the counter step. */
    method GetTarball(scope: Option<string>, name: string, version: string) returns (resp: Response)
      requires Valid()
      modifies this`local, this`nextRev, this`fetches, this`binary
      ensures Valid()
      ensures old(Resolve(FullName(scope, name))).Err? ==>
        && resp == Failed(old(Resolve(FullName(scope, name))).error)
        && local == old(local) && binary == old(binary) && nextRev == old(nextRev)
        && fetches == old(fetches) + old(ResolveFetches(FullName(scope, name)))
      ensures old(Resolve(FullName(scope, name))).Ok? ==>
        var doc := old(Resolve(FullName(scope, name))).value;
        var id := CacheKey(scope, name, version);
        && (Get(doc.versions, version).Absent? || Get(doc.versions, version).Inherited? ==>
              && resp == Failed(NoSuchVersion(version)) && binary == old(binary)
              && fetches == old(fetches) + old(ResolveFetches(FullName(scope, name))))
        && (version in doc.versions && id in old(binary) ==>
              && binary == old(binary)
              && fetches == old(fetches) + old(ResolveFetches(FullName(scope, name)))
              && resp == (if sha1(old(binary)[id]) == doc.versions[version].dist.shasum then Served(old(binary)[id]) else Failed(HashMismatch)))
        && (version in doc.versions && id !in old(binary) ==>
              var dist := doc.versions[version].dist;
              && fetches == old(fetches) + old(ResolveFetches(FullName(scope, name))) + MissFetches(dist)
              && (resp.Served? <==> TarLocation(dist, infoAt).Ok? && TarLocation(dist, infoAt).value in tarballAt && diskOk)
              && (resp.Served? ==> resp.body == tarballAt[TarLocation(dist, infoAt).value] && binary == old(binary)[id := resp.body])
              && (resp.Failed? ==> binary == old(binary)))
      ensures old(Resolve(FullName(scope, name))).Ok? ==>
        var doc := old(Resolve(FullName(scope, name))).value;
        var stored := old(local)[FullName(scope, name) := doc];
        var rev := if FullName(scope, name) in old(local) then old(nextRev) else old(nextRev) + 1;
        && (Get(doc.versions, version).Absent? ==> local == stored && nextRev == rev)
        && (!Get(doc.versions, version).Absent? ==>
              && local == CountedStore(stored, rev, name, version, diskOk)
              && nextRev == if Counted(stored, name, version).Some? && diskOk then rev + 1 else rev)
    {
      var fullName := FullName(scope, name);
      var id := CacheKey(scope, name, version);
      var found := GetDocument(fullName);
      if found.Err? {
        resp := Failed(found.error);
        return;
      }
      assert local == old(local)[fullName := found.value];
      assert nextRev == if fullName in old(local) then old(nextRev) else old(nextRev) + 1;
      match Get(found.value.versions, version) {
        case Absent =>
          resp := Failed(NoSuchVersion(version));
          return;
        case Inherited(_) =>
          resp := Failed(NoSuchVersion(version));
        case Own(rec) =>
          resp := ServeArchive(id, rec.dist);
      }
      var _ := CountDownload(name, version);
    }
  }
}
