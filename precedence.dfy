/** Precedence of semantic versions (section 11 of Semantic Versioning 2.0.0):
    `Compare` gives -1, 0 or 1, and `Gt` is the `gt` test the registry cache
    sorts version keys with. Build metadata takes no part, so two different
    valid strings may have equal precedence. */
module Precedence {
  import opened Wrappers
  import opened SemVer

  function CompareNat(a: nat, b: nat): int {
    if a < b then -1 else if a == b then 0 else 1
  }

  function CompareChar(a: char, b: char): int {
    if a < b then -1 else if a == b then 0 else 1
  }

  /** Lexicographic comparison; a proper prefix comes first (sections 11.4.3 and 11.4.4). */
  function Lex<T>(a: seq<T>, b: seq<T>, cmp: (T, T) -> int): int {
    if |a| == 0 && |b| == 0 then 0
    else if |a| == 0 then -1
    else if |b| == 0 then 1
    else if cmp(a[0], b[0]) != 0 then cmp(a[0], b[0])
    else Lex(a[1..], b[1..], cmp)
  }

  /** Identifiers: numbers numerically, text in ASCII order, numbers before text (section 11.4.1-11.4.3). */
  function CompareIdent(a: Identifier, b: Identifier): int {
    match (a, b)
    case (Numeric(m), Numeric(n)) => CompareNat(m, n)
    case (Numeric(_), Alphanumeric(_)) => -1
    case (Alphanumeric(_), Numeric(_)) => 1
    case (Alphanumeric(s), Alphanumeric(t)) => Lex(s, t, CompareChar)
  }

  /** A version without pre-release ranks above one with it (section 11.3). */
  function ComparePre(a: seq<Identifier>, b: seq<Identifier>): int {
    if a == [] && b == [] then 0
    else if a == [] then 1
    else if b == [] then -1
    else Lex(a, b, CompareIdent)
  }

  /** Major, minor and patch numerically, then the pre-release (section 11.2). */
  function Compare(v: Version, w: Version): int {
    if v.major != w.major then CompareNat(v.major, w.major)
    else if v.minor != w.minor then CompareNat(v.minor, w.minor)
    else if v.patch != w.patch then CompareNat(v.patch, w.patch)
    else ComparePre(v.pre, w.pre)
  }

  /** The `gt` test on two version strings: both valid and the first of
      higher precedence, that is, the second of lower precedence. */
  predicate Gt(a: string, b: string)
    ensures Gt(a, b) ==> Valid(a) && Valid(b) && Compare(Parse(b).value, Parse(a).value) < 0
  {
    && Valid(a) && Valid(b)
    && (CompareAntisymmetric(Parse(a).value, Parse(b).value);
        Compare(Parse(a).value, Parse(b).value) > 0)
  }

  // ----- Compare is a total preorder -----

  ghost predicate Antisymmetric<T(!new)>(cmp: (T, T) -> int) {
    forall x, y :: cmp(x, y) == -cmp(y, x)
  }

  ghost predicate Transitive<T(!new)>(cmp: (T, T) -> int) {
    forall x, y, z :: cmp(x, y) <= 0 && cmp(y, z) <= 0 ==> cmp(x, z) <= 0
  }

  lemma {:induction false} LexAntisymmetric<T(!new)>(a: seq<T>, b: seq<T>, cmp: (T, T) -> int)
    requires Antisymmetric(cmp)
    ensures Lex(a, b, cmp) == -Lex(b, a, cmp)
  {
    if |a| > 0 && |b| > 0 && cmp(a[0], b[0]) == 0 {
      LexAntisymmetric(a[1..], b[1..], cmp);
    }
  }

  lemma {:induction false} LexTransitive<T(!new)>(a: seq<T>, b: seq<T>, c: seq<T>, cmp: (T, T) -> int)
    requires Antisymmetric(cmp) && Transitive(cmp)
    requires Lex(a, b, cmp) <= 0 && Lex(b, c, cmp) <= 0
    ensures Lex(a, c, cmp) <= 0
  {
    if |a| > 0 && |b| > 0 && |c| > 0 {
      var x, y, z := a[0], b[0], c[0];
      assert cmp(x, z) <= 0;
      if cmp(x, z) == 0 {
        assert cmp(y, x) <= 0;
        assert cmp(z, y) <= 0;
        LexTransitive(a[1..], b[1..], c[1..], cmp);
      }
    }
  }

  lemma CompareCharPreorder()
    ensures Antisymmetric(CompareChar) && Transitive(CompareChar)
  {
  }

  lemma CompareIdentAntisymmetric(a: Identifier, b: Identifier)
    ensures CompareIdent(a, b) == -CompareIdent(b, a)
  {
    if a.Alphanumeric? && b.Alphanumeric? {
      CompareCharPreorder();
      LexAntisymmetric(a.s, b.s, CompareChar);
    }
  }

  lemma CompareIdentTransitive(a: Identifier, b: Identifier, c: Identifier)
    requires CompareIdent(a, b) <= 0 && CompareIdent(b, c) <= 0
    ensures CompareIdent(a, c) <= 0
  {
    if a.Alphanumeric? && b.Alphanumeric? && c.Alphanumeric? {
      CompareCharPreorder();
      LexTransitive(a.s, b.s, c.s, CompareChar);
    }
  }

  lemma CompareIdentPreorder()
    ensures Antisymmetric(CompareIdent) && Transitive(CompareIdent)
  {
    forall a, b ensures CompareIdent(a, b) == -CompareIdent(b, a) {
      CompareIdentAntisymmetric(a, b);
    }
    forall a, b, c | CompareIdent(a, b) <= 0 && CompareIdent(b, c) <= 0
      ensures CompareIdent(a, c) <= 0
    {
      CompareIdentTransitive(a, b, c);
    }
  }

  /** Comparing the other way round flips the sign. */
  lemma CompareAntisymmetric(v: Version, w: Version)
    ensures Compare(v, w) == -Compare(w, v)
  {
    if v.pre != [] && w.pre != [] {
      CompareIdentPreorder();
      LexAntisymmetric(v.pre, w.pre, CompareIdent);
    }
  }

  /** "Not above" is transitive. */
  lemma CompareTransitive(u: Version, v: Version, w: Version)
    requires Compare(u, v) <= 0 && Compare(v, w) <= 0
    ensures Compare(u, w) <= 0
  {
    if (u.major, u.minor, u.patch) == (v.major, v.minor, v.patch) == (w.major, w.minor, w.patch)
      && u.pre != [] && v.pre != [] && w.pre != []
    {
      CompareIdentPreorder();
      LexTransitive(u.pre, v.pre, w.pre, CompareIdent);
    }
  }

  /** Below followed by not above is below. */
  lemma CompareBelow(u: Version, v: Version, w: Version)
    requires Compare(u, v) < 0 && Compare(v, w) <= 0
    ensures Compare(u, w) < 0
  {
    CompareAntisymmetric(u, w);
    CompareAntisymmetric(u, v);
    if Compare(w, u) <= 0 {
      CompareTransitive(v, w, u);
      assert false;
    }
  }

  /** Precedence ignores build metadata, so distinct valid strings can tie:
      neither "1.0.0+a" nor "1.0.0+b" is greater than the other. */
  lemma BuildMetadataTies()
    ensures Valid("1.0.0+a") && Valid("1.0.0+b")
    ensures !Gt("1.0.0+a", "1.0.0+b") && !Gt("1.0.0+b", "1.0.0+a")
  {
    ParsesWithBuildA();
    ParsesWithBuildB();
  }

  lemma ParsesWithBuildA()
    ensures Parse("1.0.0+a") == Some(Version(1, 0, 0, [], ["a"]))
  {
    assert Format(Version(1, 0, 0, [], ["a"])) == "1.0.0+a";
    ParsesAs("1.0.0+a", Version(1, 0, 0, [], ["a"]));
  }

  lemma ParsesWithBuildB()
    ensures Parse("1.0.0+b") == Some(Version(1, 0, 0, [], ["b"]))
  {
    assert Format(Version(1, 0, 0, [], ["b"])) == "1.0.0+b";
    ParsesAs("1.0.0+b", Version(1, 0, 0, [], ["b"]));
  }

  /** No version is above itself. */
  lemma GtIrreflexive(a: string)
    ensures !Gt(a, a)
  {
    if Valid(a) {
      CompareAntisymmetric(Parse(a).value, Parse(a).value);
    }
  }

  /** `Gt` is a strict order on valid strings. */
  lemma GtAsymmetric(a: string, b: string)
    requires Gt(a, b)
    ensures !Gt(b, a)
  {
    CompareAntisymmetric(Parse(a).value, Parse(b).value);
  }

  /** A key that is not above `m` lies below anything above `m`. */
  lemma GtAboveMaximum(j: string, m: string, x: string)
    requires Valid(j) && Gt(x, m) && !Gt(j, m)
    ensures Gt(x, j)
  {
    var pj, pm, px := Parse(j).value, Parse(m).value, Parse(x).value;
    CompareAntisymmetric(px, pj);
    if Compare(px, pj) <= 0 {
      CompareTransitive(px, pj, pm);
      assert false;
    }
  }
}
