/** `massageMetadata` and `localBase` (lib/index.js): the rewrite that makes a
    package document point at this cache instead of the upstream registry. */
module Metadata {
  import opened Wrappers
  import Numerals
  import opened SemVer
  import opened Documents

  /** The archive URL the cache serves a version's tarball under. */
  function TarballUrl(base: string, name: string, version: string): string {
    base + "/tarballs/" + name + "/" + version + ".tgz"
  }

  /** The URL the cache serves a version's own metadata under. */
  function InfoUrl(base: string, name: string, version: string): string {
    base + "/" + name + "/" + version
  }

  /** One kept version: both URLs point at the cache, the rest is as it was. */
  function Repointed(base: string, name: string, version: string, rec: VersionRecord): VersionRecord {
    rec.(dist := rec.dist.(tarball := TarballUrl(base, name, version), info := Some(InfoUrl(base, name, version))))
  }

  /** The document `massageMetadata(base, doc)` leaves behind. */
  function Massaged(base: string, doc: Document): Document {
    doc.(versions := map k | k in doc.versions && Valid(k) :: Repointed(base, doc.name, k, doc.versions[k]))
  }

  /** The loop of lines 97-110: every key that is not a valid version is
      deleted, every other key has its URLs rewritten; name and revision stay. */
  method MassageMetadata(base: string, doc: Document) returns (r: Document)
    ensures r.name == doc.name && r.rev == doc.rev
    ensures forall k :: k in r.versions <==> k in doc.versions && Valid(k)
    ensures forall k | k in r.versions ::
      && r.versions[k].dist.tarball == TarballUrl(base, doc.name, k)
      && r.versions[k].dist.info == Some(InfoUrl(base, doc.name, k))
      && r.versions[k].dist.shasum == doc.versions[k].dist.shasum
      && r.versions[k].downloads == doc.versions[k].downloads
    ensures r == Massaged(base, doc)
  {
    var versions := doc.versions;
    var pending := doc.versions.Keys;
    while pending != {}
      invariant pending <= doc.versions.Keys
      invariant forall k :: k in versions <==> k in doc.versions && (k in pending || Valid(k))
      invariant forall k | k in versions ::
        versions[k] == if k in pending then doc.versions[k] else Repointed(base, doc.name, k, doc.versions[k])
      decreases pending
    {
      var version :| version in pending;
      if !Valid(version) {
        versions := versions - {version};
      } else {
        versions := versions[version := Repointed(base, doc.name, version, versions[version])];
      }
      pending := pending - {version};
    }
    r := doc.(versions := versions);
  }

  /** Rewriting twice is rewriting once: the kept keys are valid, and the URLs
      depend only on the base, the name and the key. */
  lemma MassagedIdempotent(base: string, doc: Document)
    ensures Massaged(base, Massaged(base, doc)) == Massaged(base, doc)
  {
    var once := Massaged(base, doc);
    var twice := Massaged(base, once);
    assert once.name == doc.name;
    forall k ensures k in twice.versions <==> k in once.versions {
    }
    forall k | k in once.versions ensures twice.versions[k] == once.versions[k] {
      RepointedTwice(base, doc.name, k, doc.versions[k]);
    }
    assert twice.versions == once.versions;
  }

  lemma RepointedTwice(base: string, name: string, version: string, rec: VersionRecord)
    ensures Repointed(base, name, version, Repointed(base, name, version, rec)) == Repointed(base, name, version, rec)
  {
  }

  /** The rewritten URLs all start with the base, as the registry clients require. */
  lemma MassagedPointsAtBase(base: string, doc: Document)
    ensures forall k | k in Massaged(base, doc).versions ::
      && base <= Massaged(base, doc).versions[k].dist.tarball
      && base <= Massaged(base, doc).versions[k].dist.info.value
  {
  }

  // ----- localBase -----

  predicate EndsWith(s: string, suffix: string) {
    |s| >= |suffix| && s[|s| - |suffix|..] == suffix
  }

  /** The text ":" + port, as a template literal writes a number. */
  function PortSuffix(port: nat): string {
    ":" + Numerals.Text(port)
  }

  /** `options.url.replace(/:5080$/, ":" + port)` (line 26): a `$` without the
      `m` flag anchors at the very end of the text. */
  function LocalBase(url: string, port: nat): (r: string)
    ensures EndsWith(url, ":5080") ==> url[..|url| - 5] <= r && EndsWith(r, PortSuffix(port))
    ensures !EndsWith(url, ":5080") ==> r == url
  {
    if EndsWith(url, ":5080") then
      var r := url[..|url| - 5] + PortSuffix(port);
      assert r[|r| - |PortSuffix(port)|..] == PortSuffix(port);
      r
    else url
  }

  lemma DefaultPortText()
    ensures PortSuffix(5080) == ":5080"
  {
    var t := Numerals.Text(5080);
    assert t == Numerals.Text(508) + [Numerals.DigitChar(0)];
    assert Numerals.Text(508) == Numerals.Text(50) + [Numerals.DigitChar(8)];
    assert Numerals.Text(50) == Numerals.Text(5) + [Numerals.DigitChar(0)];
  }

  /** A URL ending in ":5080" ends, afterwards, in the configured port, which
      reads back as that port; the text before it is kept. Any other URL is
      left as it is. */
  lemma LocalBaseNamesPort(url: string, port: nat)
    ensures EndsWith(url, ":5080") ==>
      && EndsWith(LocalBase(url, port), PortSuffix(port))
      && url[..|url| - 5] <= LocalBase(url, port)
      && Numerals.Value(PortSuffix(port)[1..]) == port
    ensures !EndsWith(url, ":5080") ==> LocalBase(url, port) == url
  {
    if EndsWith(url, ":5080") {
      var r := LocalBase(url, port);
      var head := url[..|url| - 5];
      assert r[|r| - |PortSuffix(port)|..] == PortSuffix(port);
      assert PortSuffix(port)[1..] == Numerals.Text(port);
    }
  }

  /** With the default port the URL is unchanged. */
  lemma LocalBaseDefaultPort(url: string)
    ensures LocalBase(url, 5080) == url
  {
    DefaultPortText();
    if EndsWith(url, ":5080") {
      assert url == url[..|url| - 5] + url[|url| - 5..];
    }
  }

  /** A suffix ":" + digits ends in ":5080" only when the digits are exactly "5080". */
  lemma PortSuffixEndsInDefault(port: nat)
    requires EndsWith(PortSuffix(port), ":5080")
    ensures port == 5080
  {
    var t := Numerals.Text(port);
    var s := PortSuffix(port);
    assert s[|s| - 5] == ':';
    assert forall i | 1 <= i < |s| :: s[i] == t[i - 1] && s[i] != ':';
    assert |s| == 5;
    assert t == s[|s| - 4..];
    DefaultPortText();
    assert t == Numerals.Text(5080);
  }

  /** A suffix starting with ':' of a text ending in ":5080" is at least that long. */
  lemma ColonBeforeDefault(r: string, s: string)
    requires EndsWith(r, ":5080") && EndsWith(r, s) && |s| > 0 && s[0] == ':'
    ensures |s| >= 5
  {
    var k := |r| - |s|;
    assert r[k] == ':';
    var tail := r[|r| - 5..];
    assert tail == ":5080";
    assert forall i | 1 <= i < 5 :: tail[i] != ':';
  }

  /** Deriving the base twice gives the same base. */
  lemma LocalBaseIdempotent(url: string, port: nat)
    ensures LocalBase(LocalBase(url, port), port) == LocalBase(url, port)
  {
    var r := LocalBase(url, port);
    if EndsWith(r, ":5080") {
      if EndsWith(url, ":5080") {
        LocalBaseNamesPort(url, port);
        var s := PortSuffix(port);
        ColonBeforeDefault(r, s);
        assert r[|r| - 5..] == s[|s| - 5..];
        PortSuffixEndsInDefault(port);
        LocalBaseDefaultPort(r);
      } else {
        assert false;
      }
    }
  }
}
