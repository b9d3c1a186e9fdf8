/** `findVersion` (lib/find-version.js): which record of a package document
    answers a version query. "latest" picks a highest valid key; any other
    query that names a key picks that key; otherwise the query is a range and a
    highest valid key satisfying it is picked. The range grammar belongs to a
    library outside this model, so `satisfies` is a parameter. */
module FindVersion {
  import opened Wrappers
  import opened Strings
  import Numerals
  import opened SemVer
  import opened Precedence
  import opened JsObject
  import opened Documents

  /** Some key that no key of `keys` exceeds. The source sorts the keys by `gt`
      and takes the first; among keys of equal precedence which one comes
      first depends on the sort, so only maximality is promised. */
  ghost function Highest(keys: set<string>): (k: string)
    requires keys != {} && forall j | j in keys :: Valid(j)
    ensures k in keys && forall j | j in keys :: !Gt(j, k)
    decreases keys
  {
    var x :| x in keys;
    if keys == {x} then
      GtIrreflexive(x);
      x
    else
      var m := Highest(keys - {x});
      if Gt(x, m) then
        HighestStep(keys - {x}, m, x);
        x
      else m
  }

  lemma HighestStep(rest: set<string>, m: string, x: string)
    requires forall j | j in rest :: Valid(j) && !Gt(j, m)
    requires Gt(x, m)
    ensures forall j | j in rest + {x} :: !Gt(j, x)
  {
    forall j | j in rest ensures !Gt(j, x) {
      GtAboveMaximum(j, m, x);
      GtAsymmetric(x, j);
    }
    GtIrreflexive(x);
  }

  /** The first key after filtering by `valid` and sorting by `gt` (lines 7-13). */
  ghost function LatestKey(versions: map<string, VersionRecord>): (k: Option<string>)
    ensures k.None? <==> forall j | j in versions :: !Valid(j)
    ensures k.Some? ==> k.value in versions && Valid(k.value)
    ensures k.Some? ==> forall j | j in versions :: !Gt(j, k.value)
  {
    var candidates := set j | j in versions && Valid(j);
    if candidates == {} then
      assert forall j | j in versions && Valid(j) :: j in candidates;
      None
    else Some(Highest(candidates))
  }

  /** The first key after filtering by `valid` and `satisfies` and sorting by `gt` (lines 19-25). */
  ghost function RangeKey(versions: map<string, VersionRecord>, range: string, satisfies: (string, string) -> bool): (k: Option<string>)
    ensures k.None? <==> forall j | j in versions :: !(Valid(j) && satisfies(j, range))
    ensures k.Some? ==> k.value in versions && Valid(k.value) && satisfies(k.value, range)
    ensures k.Some? ==> forall j | j in versions && satisfies(j, range) :: !Gt(j, k.value)
  {
    var candidates := set j | j in versions && Valid(j) && satisfies(j, range);
    if candidates == {} then
      assert forall j | j in versions && Valid(j) && satisfies(j, range) :: j in candidates;
      None
    else Some(Highest(candidates))
  }

  /** The property key an indexing expression uses: `undefined` reads "undefined". */
  function KeyText(k: Option<string>): string {
    if k.Some? then k.value else UndefinedKey
  }

  /** The record `findVersion(meta, query)` returns. The result is a record of
      the document, a member of Object.prototype read through the query
      itself, or undefined; `meta` is a value, so it is left as it was. */
  ghost function FindVersion(meta: Document, query: string, satisfies: (string, string) -> bool): (r: Property<VersionRecord>)
    ensures r.Own? ==> r.value in meta.versions.Values
    ensures r.Inherited? ==> query != "latest" && query !in meta.versions && query in PrototypeMembers && r.key == query
  {
    if query == "latest" then Get(meta.versions, KeyText(LatestKey(meta.versions)))
    else if !Get(meta.versions, query).Absent? then Get(meta.versions, query)
    else Get(meta.versions, KeyText(RangeKey(meta.versions, query, satisfies)))
  }

  // ----- what the three branches promise -----

  /** "latest" with some valid key: the record of a valid key that no key exceeds. */
  lemma LatestIsHighest(meta: Document, satisfies: (string, string) -> bool)
    requires exists j | j in meta.versions :: Valid(j)
    ensures exists k | k in meta.versions && Valid(k) ::
      && FindVersion(meta, "latest", satisfies) == Own(meta.versions[k])
      && forall j | j in meta.versions :: !Gt(j, k)
  {
    var k := LatestKey(meta.versions).value;
    assert FindVersion(meta, "latest", satisfies) == Own(meta.versions[k]);
  }

  /** "latest" without a valid key reads the key "undefined": undefined unless such a key exists. */
  lemma LatestWithoutValidKey(meta: Document, satisfies: (string, string) -> bool)
    requires forall j | j in meta.versions :: !Valid(j)
    ensures FindVersion(meta, "latest", satisfies) == Get(meta.versions, UndefinedKey)
    ensures UndefinedKey !in meta.versions ==> FindVersion(meta, "latest", satisfies) == Absent
  {
  }

  lemma LatestIsNotValid()
    ensures !Valid("latest")
  {
    assert Cut("latest", '+') == ("latest", None);
    assert Cut("latest", '-') == ("latest", None);
    assert Split("latest", '.') == ["latest"];
  }

  /** The "latest" branch comes first: a key literally named "latest" is never the one read. */
  lemma LiteralLatestKeyIgnored(meta: Document, satisfies: (string, string) -> bool)
    requires "latest" in meta.versions
    ensures LatestKey(meta.versions) != Some("latest")
    ensures UndefinedKey !in meta.versions && (forall j | j in meta.versions :: !Valid(j))
      ==> FindVersion(meta, "latest", satisfies) == Absent
  {
    LatestIsNotValid();
  }

  /** Any other query naming a key returns that key's record, valid version or not. */
  lemma ExactKeyWins(meta: Document, query: string, satisfies: (string, string) -> bool)
    requires query != "latest" && query in meta.versions
    ensures FindVersion(meta, query, satisfies) == Own(meta.versions[query])
  {
  }

  /** Otherwise the query is a range: the record of a valid satisfying key that
      no satisfying key exceeds, or, when none satisfies, whatever "undefined" reads. */
  lemma RangeIsHighestSatisfying(meta: Document, query: string, satisfies: (string, string) -> bool)
    requires query != "latest" && query !in meta.versions && query !in PrototypeMembers
    ensures (exists j | j in meta.versions :: Valid(j) && satisfies(j, query)) ==>
      exists k | k in meta.versions && Valid(k) && satisfies(k, query) ::
        && FindVersion(meta, query, satisfies) == Own(meta.versions[k])
        && forall j | j in meta.versions && satisfies(j, query) :: !Gt(j, k)
    ensures (forall j | j in meta.versions :: !(Valid(j) && satisfies(j, query))) ==>
      FindVersion(meta, query, satisfies) == Get(meta.versions, UndefinedKey)
  {
    var k := RangeKey(meta.versions, query, satisfies);
    if k.Some? {
      assert FindVersion(meta, query, satisfies) == Own(meta.versions[k.value]);
    }
  }

  // ----- worked examples -----

  lemma ExampleKeys()
    ensures Parse("1.0.0") == Some(Version(1, 0, 0, [], []))
    ensures Parse("1.2.3") == Some(Version(1, 2, 3, [], []))
    ensures Parse("2.0.0") == Some(Version(2, 0, 0, [], []))
    ensures Parse("2.0.0-beta") == Some(Version(2, 0, 0, [Alphanumeric("beta")], []))
    ensures !Valid("bad")
  {
    Parses100();
    Parses123();
    Parses200();
    ParsesBeta();
    BadIsNotValid();
  }

  lemma Parses100()
    ensures Parse("1.0.0") == Some(Version(1, 0, 0, [], []))
  {
    assert Format(Version(1, 0, 0, [], [])) == "1.0.0";
    ParsesAs("1.0.0", Version(1, 0, 0, [], []));
  }

  lemma Parses123()
    ensures Parse("1.2.3") == Some(Version(1, 2, 3, [], []))
  {
    assert Format(Version(1, 2, 3, [], [])) == "1.2.3";
    ParsesAs("1.2.3", Version(1, 2, 3, [], []));
  }

  lemma Parses200()
    ensures Parse("2.0.0") == Some(Version(2, 0, 0, [], []))
  {
    assert Format(Version(2, 0, 0, [], [])) == "2.0.0";
    ParsesAs("2.0.0", Version(2, 0, 0, [], []));
  }

  lemma ParsesBeta()
    ensures Parse("2.0.0-beta") == Some(Version(2, 0, 0, [Alphanumeric("beta")], []))
  {
    assert !Numerals.IsDigit("beta"[0]);
    assert Format(Version(2, 0, 0, [Alphanumeric("beta")], [])) == "2.0.0-beta";
    ParsesAs("2.0.0-beta", Version(2, 0, 0, [Alphanumeric("beta")], []));
  }

  lemma BadIsNotValid()
    ensures !Valid("bad")
  {
    assert Cut("bad", '+') == ("bad", None);
    assert Cut("bad", '-') == ("bad", None);
    assert Split("bad", '.') == ["bad"];
  }

  lemma BetaAboveOne()
    ensures Valid("2.0.0-beta") && Gt("2.0.0-beta", "1.0.0") && !Valid("bad")
  {
    Parses100();
    ParsesBeta();
    BadIsNotValid();
  }

  /** Among three keys, one invalid and one below another, "latest" picks the top one. */
  lemma LatestOfThree(lo: string, hi: string, bad: string,
                      a: VersionRecord, b: VersionRecord, c: VersionRecord, satisfies: (string, string) -> bool)
    requires Valid(hi) && Gt(hi, lo) && !Valid(bad)
    ensures FindVersion(Document("foo", None, map[lo := a, hi := b, bad := c]), "latest", satisfies) == Own(b)
  {
    var versions := map[lo := a, hi := b, bad := c];
    var k := LatestKey(versions);
    assert hi in versions;
    if k.value == lo {
      assert false;
    }
    assert k.value == hi;
    assert versions[hi] == b;
  }

  /** Example: among 1.0.0, 2.0.0-beta and bad, "latest" is 2.0.0-beta. */
  lemma LatestPrefersHigherMajor(a: VersionRecord, b: VersionRecord, c: VersionRecord, satisfies: (string, string) -> bool)
    ensures var meta := Document("foo", None, map["1.0.0" := a, "2.0.0-beta" := b, "bad" := c]);
      FindVersion(meta, "latest", satisfies) == Own(b)
  {
    BetaAboveOne();
    LatestOfThree("1.0.0", "2.0.0-beta", "bad", a, b, c, satisfies);
  }

  lemma MinorAboveZero()
    ensures Valid("1.2.3") && Gt("1.2.3", "1.0.0") && Valid("2.0.0")
  {
    Parses100();
    Parses123();
    Parses200();
  }

  /** Among three keys, the higher of the two satisfying ones is the range's answer. */
  lemma RangeOfThree(query: string, lo: string, mid: string, hi: string,
                     a: VersionRecord, b: VersionRecord, c: VersionRecord, satisfies: (string, string) -> bool)
    requires query != lo && query != mid && query != hi && |query| > 0 && '0' <= query[0] <= '9'
    requires Valid(mid) && Gt(mid, lo)
    requires satisfies(mid, query) && !satisfies(hi, query)
    ensures FindVersion(Document("foo", None, map[lo := a, mid := b, hi := c]), query, satisfies) == Own(b)
  {
    var meta := Document("foo", None, map[lo := a, mid := b, hi := c]);
    assert query != "latest" by {
      assert "latest"[0] == 'l';
    }
    DigitKeyNotInherited(query);
    RangeBranch(meta, query, satisfies);
    RangeKeyOfThree(meta.versions, query, lo, mid, hi, satisfies);
    assert meta.versions[mid] == b;
  }

  /** A query that is neither "latest", nor a key, nor a prototype member
      name takes the range branch. */
  lemma RangeBranch(meta: Document, query: string, satisfies: (string, string) -> bool)
    requires query != "latest" && query !in meta.versions && query !in PrototypeMembers
    ensures FindVersion(meta, query, satisfies) == Get(meta.versions, KeyText(RangeKey(meta.versions, query, satisfies)))
  {
  }

  lemma RangeKeyOfThree(versions: map<string, VersionRecord>, query: string, lo: string, mid: string, hi: string,
                        satisfies: (string, string) -> bool)
    requires versions.Keys == {lo, mid, hi}
    requires Valid(mid) && Gt(mid, lo)
    requires satisfies(mid, query) && !satisfies(hi, query)
    ensures RangeKey(versions, query, satisfies) == Some(mid) && mid != hi
  {
    var k := RangeKey(versions, query, satisfies);
    assert mid in versions;
    if k.value == lo {
      assert false;
    }
  }

  /** With 1.2.3 the highest 1.x key, the range "1" yields it. The requires
      are what the range grammar says of these keys and queries. */
  lemma MajorQueryYieldsHighestMatch(a: VersionRecord, b: VersionRecord, c: VersionRecord, satisfies: (string, string) -> bool)
    requires satisfies("1.2.3", "1") && !satisfies("2.0.0", "1")
    ensures FindVersion(Document("foo", None, map["1.0.0" := a, "1.2.3" := b, "2.0.0" := c]), "1", satisfies) == Own(b)
  {
    MinorAboveZero();
    RangeOfThree("1", "1.0.0", "1.2.3", "2.0.0", a, b, c, satisfies);
  }

  /** Likewise the range "1.2". */
  lemma MinorQueryYieldsHighestMatch(a: VersionRecord, b: VersionRecord, c: VersionRecord, satisfies: (string, string) -> bool)
    requires satisfies("1.2.3", "1.2") && !satisfies("2.0.0", "1.2")
    ensures FindVersion(Document("foo", None, map["1.0.0" := a, "1.2.3" := b, "2.0.0" := c]), "1.2", satisfies) == Own(b)
  {
    MinorAboveZero();
    RangeOfThree("1.2", "1.0.0", "1.2.3", "2.0.0", a, b, c, satisfies);
  }

  /** "1", "1.2" and "1.2.3" all yield 1.2.3: the last by exact match, the
      others as ranges (the comment at lines 3-4). */
  lemma PartialQueriesYieldHighestMatch(a: VersionRecord, b: VersionRecord, c: VersionRecord, satisfies: (string, string) -> bool)
    requires satisfies("1.2.3", "1") && satisfies("1.2.3", "1.2")
    requires !satisfies("2.0.0", "1") && !satisfies("2.0.0", "1.2")
    ensures var meta := Document("foo", None, map["1.0.0" := a, "1.2.3" := b, "2.0.0" := c]);
      && FindVersion(meta, "1", satisfies) == Own(b)
      && FindVersion(meta, "1.2", satisfies) == Own(b)
      && FindVersion(meta, "1.2.3", satisfies) == Own(b)
  {
    MajorQueryYieldsHighestMatch(a, b, c, satisfies);
    MinorQueryYieldsHighestMatch(a, b, c, satisfies);
    ExactKeyWins(Document("foo", None, map["1.0.0" := a, "1.2.3" := b, "2.0.0" := c]), "1.2.3", satisfies);
  }
}
