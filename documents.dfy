/** The package documents the registry cache stores and serves. */
module Documents {
  import opened Wrappers

  /** Where a version's archive lives and how to check it. `info`, when present,
      is the URL of the version's own metadata. */
  datatype Dist = Dist(tarball: string, shasum: string, info: Option<string>)

  /** One entry of a document's `versions` table. `downloads` is absent until
      the cache first serves the archive. */
  datatype VersionRecord = VersionRecord(dist: Dist, downloads: Option<nat>)

  /** A package document: its name (the store key), the revision the store
      assigned it (`_rev`, absent once cleared) and the version table. */
  datatype Document = Document(name: string, rev: Option<nat>, versions: map<string, VersionRecord>)
}
