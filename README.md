# local-npm: a Dafny model of the cache-and-fallback core

local-npm is a registry cache that sits between `npm` and the public
registry. This project models its core in Dafny and proves properties of
the model:

- **Version resolution** (`lib/find-version.js`). `findVersion(meta, query)`
  picks one record of a package document in one of three ways. For
  `"latest"` it takes the highest valid version. A query that names a key
  returns that key's record. Any other query is read as a semver range, and
  the highest valid version that satisfies it is returned. Versions are
  ordered by the precedence rules of Semantic Versioning 2.0.0.
- **Metadata rewriting** (`massageMetadata` and `localBase` in `lib/index.js`).
  Keys that are not valid versions are deleted. The tarball and info URLs of
  every other version are pointed at the cache's own base URL. That base is
  the configured URL, with a trailing `:5080` replaced by the configured port.
- **Document resolution** (`getDocument`). A package document is read from
  the local store (`skimLocal`). On a miss it is read from the remote skim
  database (`skimRemote`), then from the upstream registry (`FAT_REMOTE`). The
  copy is written back with its revision cleared and read again.
- **The tarball cache** (`getTarLocation`, `downloadTar`, and the two routes
  `/tarballs/:name/:version.tgz` and `/tarballs/:user/:package/:version.tgz`):
  - archives are kept in a binary store under the key `name-version`;
  - a stored archive whose SHA-1 does not match `dist.shasum` is refused
    with a 500;
  - a missing archive is located, downloaded, stored and served;
  - afterwards a per-version `downloads` counter is bumped in the local
    store.
- **Replication retry** (`replicateSkim`, `restartReplication`, `shutdown`).
  The live sync copies the remote skim database into the local store. When
  `info()` on the remote skim database fails, the retry delay grows by a
  factor of 1.1 from 1000 ms. Every change event of the live sync resets it. Shutdown
  cancels the sync only when one has started.
- **The logger** (`lib/logger.js`):
  - `getLevel` maps a level name to a number;
  - the constructor applies `parseInt(...) || 7`;
  - a message of category `n` is printed when `this.level > n`.

The stores, the remote skim database, the upstream registry and the network are modelled
as maps. They are fields of the class `Server.LocalNpm` where the code
updates them in place. Every network read is appended to a `fetches` log.
Three things are parameters of the model: the SHA-1 digest, the semver
`satisfies` test, and whether the disk accepts writes. JavaScript property
reads are modelled by `JsObject.Get`. It distinguishes a key the object
owns, a member of `Object.prototype` reached by name (`constructor`,
`__proto__`, …), and an absent key.

Some behaviours of the code are worth stating outright:

- Among 1.0.0, 2.0.0-beta and an invalid key, "latest" is 2.0.0-beta:
  precedence compares the major number before the pre-release
  (`FindVersion.LatestPrefersHigherMajor`).
- Build metadata lets two valid keys tie (`Precedence.BuildMetadataTies`),
  so "latest" is only promised to be maximal.
- With no valid key, "latest" reads the property `undefined`, which a key
  literally named "undefined" answers (`FindVersion.LatestWithoutValidKey`).
- A stored archive whose SHA-1 differs from `dist.shasum` is answered with
  500, is not re-fetched, and the counter step still runs
  (`Server.LocalNpm.ServeArchive`, `Server.LocalNpm.GetTarball`).
- `massageMetadata` changes the fetched document in place and returns it.
  That document is not stored again, so the model treats it as a value.

## Model

| member | source | states |
|---|---|---|
| SemVer.Valid | lib/find-version.js:9 | the `valid` test: a string is valid exactly when it parses as `MAJOR.MINOR.PATCH` with optional pre-release and build parts; `ParseFormat` and `FormatParse` state what that means |
| SemVer.ParseFormat | lib/find-version.js:9 | every well-formed version is `valid`, and its canonical text parses back to it |
| SemVer.FormatParse | lib/find-version.js:9 | every `valid` string is exactly the canonical text of the version it parses to (parse and format are inverse) |
| Precedence.Gt | lib/find-version.js:12 | `gt(a, b)` holds only for two valid strings, and then `b` compares below `a` |
| Precedence.CompareAntisymmetric | lib/find-version.js:11-13 | swapping the two versions of a precedence comparison flips its sign |
| Precedence.CompareTransitive | lib/find-version.js:11-13 | "not above" is transitive, so sorting by `gt` is a consistent order |
| Precedence.CompareBelow | lib/find-version.js:11-13 | strictly below, followed by not above, is strictly below |
| Precedence.GtIrreflexive | lib/find-version.js:12 | no version string is `gt` itself |
| Precedence.GtAsymmetric | lib/find-version.js:12 | `gt(a, b)` excludes `gt(b, a)` |
| Precedence.GtAboveMaximum | lib/find-version.js:11-13 | a valid key that is not above `m` lies below every key above `m` |
| Precedence.BuildMetadataTies | lib/find-version.js:11-13 | "1.0.0+a" and "1.0.0+b" are both valid and neither is `gt` the other, so the sort can tie |
| JsObject.Get | lib/find-version.js:14-17 | a property read answers the object's own value exactly when the key is the object's; an inherited member is read only under a key the object lacks, and it is the member of that name |
| FindVersion.Highest | lib/find-version.js:11-13 | the first key after sorting a non-empty set of valid keys by `gt` is in the set and no key exceeds it |
| FindVersion.LatestKey | lib/find-version.js:7-13 | the "latest" key is absent exactly when no key is valid; otherwise it is a valid key that no key exceeds |
| FindVersion.RangeKey | lib/find-version.js:19-25 | the range key is absent exactly when no valid key satisfies the range; otherwise it is a valid satisfying key that no satisfying key exceeds |
| FindVersion.FindVersion | lib/find-version.js:5-27 | an owned result is one of the document's records; an inherited one happens only for a query that is an `Object.prototype` member name, not "latest" and not a key |
| FindVersion.LatestIsHighest | lib/find-version.js:6-15 | with some valid key, "latest" returns the record of a valid key that no key exceeds |
| FindVersion.LatestWithoutValidKey | lib/find-version.js:13-14 | with no valid key, "latest" reads the property "undefined", which is absent unless such a key exists |
| FindVersion.LiteralLatestKeyIgnored | lib/find-version.js:6-9 | a key literally named "latest" is never chosen by the "latest" branch, because it is not valid |
| FindVersion.ExactKeyWins | lib/find-version.js:16-18 | any other query that names a key returns that key's record, valid version or not |
| FindVersion.RangeIsHighestSatisfying | lib/find-version.js:19-26 | any other query returns the record of a valid key that satisfies it and that no satisfying key exceeds; with none, it reads "undefined" |
| FindVersion.LatestPrefersHigherMajor | lib/find-version.js:6-15 | among 1.0.0, 2.0.0-beta and bad, "latest" returns the 2.0.0-beta record |
| FindVersion.PartialQueriesYieldHighestMatch | lib/find-version.js:3-4 | with 1.0.0, 1.2.3 and 2.0.0, the queries "1", "1.2" and "1.2.3" all return the 1.2.3 record |
| Metadata.MassageMetadata | lib/index.js:95-112 | the result keeps name and revision; it has exactly the valid keys; each kept version has its tarball URL `base/tarballs/name/version.tgz` and info URL `base/name/version`, with shasum and downloads unchanged |
| Metadata.MassagedIdempotent | lib/index.js:95-112 | rewriting an already rewritten document changes nothing |
| Metadata.MassagedPointsAtBase | lib/index.js:106-108 | every rewritten tarball and info URL starts with the base |
| Metadata.LocalBase | lib/index.js:26 | a URL ending in ":5080" keeps the text before it and ends in ":" plus the port; any other URL is unchanged |
| Metadata.LocalBaseNamesPort | lib/index.js:26 | a URL ending in ":5080" ends in ":" plus the port afterwards, and the text before is kept; any other URL is unchanged |
| Metadata.LocalBaseDefaultPort | lib/index.js:26 | with port 5080 the base is the URL itself |
| Metadata.LocalBaseIdempotent | lib/index.js:26 | deriving the base from the base changes nothing |
| Tarballs.CacheKey | lib/index.js:319 | the key is the document name (`user/name` on the scoped route), then "-", then the version, and nothing else |
| Tarballs.CacheKeyInjectiveInVersion | lib/index.js:258 | for one package, the binary-store key determines the version |
| Tarballs.CacheKeyCollides | lib/index.js:258 | package foo-1.0.0 at 1.0.0 and package foo at 1.0.0-1.0.0 share one key |
| Tarballs.TarLocation | lib/index.js:178-191 | without a truthy `dist.info`, the location is `dist.tarball`; with one, it is the tarball that the fetched metadata names, and it fails exactly when that fetch fails |
| Tarballs.Bump | lib/index.js:300-302 | a positive counter grows by one; an absent or zero counter becomes 1; `dist` is kept |
| Tarballs.Counted | lib/index.js:296-304 | the counter step writes back exactly when the document exists and the version is present; only that version's record changes, by `Bump`, and an `Object.prototype` member name writes the document back unchanged |
| Tarballs.ScopedCounterLeavesScopedDocument | lib/index.js:357-365 | the scoped route's counter step never changes the scoped document `user/name` |
| Tarballs.CountedTwice | lib/index.js:296-304 | counting a version twice adds two to its counter |
| Server.LocalNpm.constructor | lib/index.js:42-46 | the local and binary stores hold what earlier runs left in them, every stored document under its own name with a revision below the next one to be issued; no network read has happened |
| Server.LocalNpm.Write | lib/index.js:137-139 | a write succeeds exactly when the disk accepts it and the revision matches the stored one (none for a new document); the stored copy gets a revision no stored document had, and every stored revision stays below the next one |
| Server.LocalNpm.GetDocument | lib/index.js:127-162 | a local hit is returned as stored, with no network read and no write; a miss tries the remote skim database and then the upstream, and the copy is stored with a fresh revision and returned; it fails exactly when both sources are missing or the disk refuses; the network reads are logged in order |
| Server.LocalNpm.GetTarLocation | lib/index.js:178-191 | the answer is `TarLocation`; the metadata URL is fetched only when `dist.info` is truthy |
| Server.LocalNpm.DownloadTar | lib/index.js:193-211 | the archive is fetched, stored under the key and returned; it fails exactly when the fetch or the write fails, and then nothing is stored |
| Server.LocalNpm.ServeArchive | lib/index.js:264-294 | a stored archive is served when its SHA-1 equals `dist.shasum` and refused otherwise, with no network read and no write; a missing one is located, downloaded, stored and served, or the failure is answered |
| Server.LocalNpm.CountDownload | lib/index.js:296-304 | the local store afterwards is the counted document with a fresh revision, or unchanged when the step throws or the write is refused |
| Server.LocalNpm.GetTarball | lib/index.js:254-371 | a failed document lookup answers it and changes nothing; a missing version answers 500, makes no network read beyond the lookup and skips the counter; otherwise the archive step runs under `CacheKey` and the counter step runs on the bare name; the revision counter advances by one for each write that succeeds |
| Replication.Round | lib/index.js:420 | `Math.round` on a non-negative number lies within one half of it |
| Replication.FirstRetry | lib/index.js:417-420 | the first retry waits 1100 ms |
| Replication.RetryDelaysIncrease | lib/index.js:417-420 | each further consecutive failure waits strictly longer |
| Replication.ThreeFailures | lib/index.js:408-420 | three failures in a row from start-up schedule retries after 1100, 1210 and 1331 ms |
| Replication.Replicator.constructor | lib/index.js:30 | the timeout starts at 1000 with no sync and no retry scheduled |
| Replication.Replicator.ReplicateSkim | lib/index.js:382-415 | on success a fresh, live sync is stored and the timeout is kept; on failure the timeout grows by 1.1 and a retry is scheduled after its rounding |
| Replication.Replicator.RestartReplication | lib/index.js:417-421 | the timeout is multiplied by 1.1 and a retry is scheduled after `Math.round` of the new value |
| Replication.Replicator.OnChange | lib/index.js:392-393 | a change event resets the timeout to 1000 |
| Replication.Replicator.OnError | lib/index.js:402-406 | an error event leaves the retry state as it was |
| Replication.Replicator.Shutdown | lib/index.js:163-170 | the live sync, when there is one, ends cancelled |
| Logging.Rank | lib/logger.js:10-36 | every category's number is from 1 to 9 |
| Logging.RanksDistinct | lib/logger.js:10-36 | distinct categories have distinct numbers |
| Logging.GetLevel | lib/logger.js:38-51 | every number `getLevel` returns is from 1 to 9 |
| Logging.GetLevelOfLabel | lib/logger.js:38-51 | each category's label, in any letter case, selects that category's number |
| Logging.GetLevelDefault | lib/logger.js:50 | no name, the empty name, and a name that is neither in the table nor a prototype member all give 9 |
| Logging.GetLevelRange | lib/logger.js:38-51 | every number `getLevel` returns is from 1 to 9 |
| Logging.GetLevelNeverOne | lib/logger.js:40 | the `"": 1` entry is never reached |
| Logging.GetLevelBuiltins | lib/logger.js:50 | the only prototype members a lower-cased name reaches are `constructor` and `__proto__` |
| Logging.ParseIntOfText | lib/logger.js:3 | `parseInt` reads back the decimal text of every number |
| Logging.ParseIntOfBuiltin | lib/logger.js:3 | `parseInt` of the text of a prototype member is NaN |
| Logging.NewLogger | lib/logger.js:3 | the level is the parsed number, or 7 when that is NaN or 0 |
| Logging.LoggerForLevel | lib/logger.js:3 | a logger built from any level option has a level from 2 to 9: the table's number, or 7 for a prototype member; so `error` messages are never printed |
| Logging.Emits | lib/logger.js:5 | the gate as written prints exactly what the `>=` gate prints, minus the level's own category |
| Logging.OwnLevelSilenced | lib/logger.js:4-9 | selecting a category's own level name silences that category |
| Logging.LabelLevelEmitsOwnCategory | lib/logger.js:4-9 | with the gate `>=`, the level named after a category prints exactly the categories numbered up to it, and the default level prints errors |

## Left out

- HTTP plumbing is not modelled: routing, status codes beyond "served" or "failed", headers, ETags, `sendBinary`, static files, the proxy routes, and the `/_skimdb` redirect.
- The `/:name` and `/:name/:version` routes are not modelled as handlers. They are `getDocument`, then `massageMetadata`, then `findVersion`, each of which is modelled.
- `getCount`, the welcome page and the replication progress percentage only report. They are not modelled.
- Console and `process.emit` output of the logger and the `console.log` calls in the server are not modelled. Only whether a message passes the gate is.
- Floating point: `startingTimeout` is modelled as an exact real, not an IEEE double. Rounding errors of the double product are not captured.
- Timers and concurrency: `setTimeout` is modelled as a list of scheduled delays. Interleavings of concurrent requests are not modelled (the code does not coalesce them: concurrent misses for one key each download), and `store closing` on shutdown is not modelled.
- The network, the SHA-1 digest and the semver `satisfies` range test are inputs or parameters, not implementations.
- `getTarLocation` and `downloadTar` pass a callback to `axios` as a second argument, which `axios` does not call. The model gives them the behaviour the code evidently intends: the callback runs with the fetched body.
- `downloadTar` stores whatever body the callback receives, even after a fetch error. The model stores nothing on a failed fetch.
- SemVer.Valid follows the grammar of Semantic Versioning 2.0.0. The npm `semver` package's `valid` also trims surrounding white space, accepts a leading `v`, and rejects texts longer than 256 characters and numbers above 2^53 − 1. The package is not part of this model.
- Logging.Lower lower-cases ASCII letters only. The full Unicode `toLowerCase` is not modelled.
- Tarballs.Counted: when the version is a name such as `__proto__`, the JavaScript assignment would set a property on a prototype object. The model writes the document back unchanged instead.
- Documents.Document: `versions` is always present and every version record has a `dist`. In the code, a document without `versions` (an unpublished package) makes `Object.keys(doc.versions)` throw in `massageMetadata` and `findVersion`, so `/:name` answers 500; a record without `dist` throws when its URLs are rewritten. On a tarball route, reading `dist` of such a record gives `undefined` without throwing (index.js:262); the TypeError comes at `dist.shasum` (index.js:271) or `dist.info` (index.js:180), is caught at index.js:281 or 291, the route answers 500, and the counter step still bumps that version's `downloads`. These error paths are not modelled.
- Server.LocalNpm: the live sync started by `replicateSkim` (index.js:386-391) copies the remote skim database's documents, with their revisions, into `skimLocal` in the background, outside any request. In the model the local store changes only through `Write`, and its revisions come from the model's own counter.
- Metadata.LocalBase takes the port as a number and writes its decimal text. A port given on the command line reaches the template as the option's text and is copied unchanged (for example "08080"); that case is not modelled.
- `pouchdb-server-lite.js` and `bin/index.js` configure the stores and parse options. They are not part of this model.
- FindVersion.Highest promises only a maximal key. Among keys of equal precedence, which one the sort puts first depends on the engine's sort algorithm.

## Findings

| source | as written | input that shows it | evidently intended | confidence | as-written member | corrected member |
|---|---|---|---|---|---|---|
| lib/logger.js:5 | a message of category `n` is printed when `this.level > n` | any level option; for example, no option gives level 9, and `error(...)` (category 9) prints nothing. Option "warn" gives 8 and silences warnings | `this.level >= n`, so a level prints its own category and everything below it | medium, not executed | Logging.LoggerForLevel | Logging.LabelLevelEmitsOwnCategory |
