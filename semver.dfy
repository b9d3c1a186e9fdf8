/** Syntax of a version string under Semantic Versioning 2.0.0 (sections 2, 9
    and 10): `MAJOR.MINOR.PATCH`, an optional pre-release after `-` and optional
    build metadata after `+`. `Valid` is the `valid` test the registry cache
    applies to every version key; `Parse` and `Format` are proved inverse. */
module SemVer {
  import opened Wrappers
  import opened Numerals
  import opened Strings

  /** A pre-release identifier: numeric ones compare as numbers (section 11.4.1). */
  datatype Identifier = Numeric(n: nat) | Alphanumeric(s: string)

  datatype Version = Version(major: nat, minor: nat, patch: nat, pre: seq<Identifier>, build: seq<string>)

  /** Identifiers use only ASCII alphanumerics and hyphens (section 9). */
  predicate IsIdentChar(c: char) {
    'A' <= c <= 'Z' || 'a' <= c <= 'z' || '0' <= c <= '9' || c == '-'
  }

  /** A non-empty identifier: what build metadata consists of (section 10). */
  predicate IsIdentText(s: string) {
    |s| > 0 && forall i | 0 <= i < |s| :: IsIdentChar(s[i])
  }

  /** A pre-release identifier: numeric ones carry no leading zero (section 9). */
  predicate IsPreText(s: string) {
    IsIdentText(s) && (AllDigits(s) ==> IsCanonical(s))
  }

  /** The versions that have a textual form: an alphanumeric identifier is not all digits. */
  predicate WellFormed(v: Version) {
    && (forall i | 0 <= i < |v.pre| :: v.pre[i].Alphanumeric? ==> IsIdentText(v.pre[i].s) && !AllDigits(v.pre[i].s))
    && (forall i | 0 <= i < |v.build| :: IsIdentText(v.build[i]))
  }

  // ----- identifiers -----

  function IdentOf(s: string): Identifier
    requires IsPreText(s)
  {
    if AllDigits(s) then Numeric(Value(s)) else Alphanumeric(s)
  }

  function IdentText(id: Identifier): string {
    match id
    case Numeric(n) => Text(n)
    case Alphanumeric(s) => s
  }

  function IdentsOf(parts: seq<string>): (ids: seq<Identifier>)
    requires forall i | 0 <= i < |parts| :: IsPreText(parts[i])
    ensures |ids| == |parts|
  {
    seq(|parts|, i requires 0 <= i < |parts| => IdentOf(parts[i]))
  }

  function IdentTexts(ids: seq<Identifier>): (parts: seq<string>)
    ensures |parts| == |ids|
  {
    seq(|ids|, i requires 0 <= i < |ids| => IdentText(ids[i]))
  }

  // ----- reading a version -----

  function ParseCore(core: string): Option<(nat, nat, nat)> {
    var nums := Split(core, '.');
    if |nums| == 3 && IsCanonical(nums[0]) && IsCanonical(nums[1]) && IsCanonical(nums[2])
    then Some((Value(nums[0]), Value(nums[1]), Value(nums[2])))
    else None
  }

  function ParsePre(pre: Option<string>): Option<seq<Identifier>> {
    if pre.None? then Some([])
    else
      var parts := Split(pre.value, '.');
      if forall i | 0 <= i < |parts| :: IsPreText(parts[i]) then Some(IdentsOf(parts)) else None
  }

  function ParseBuild(build: Option<string>): Option<seq<string>> {
    if build.None? then Some([])
    else
      var parts := Split(build.value, '.');
      if forall i | 0 <= i < |parts| :: IsIdentText(parts[i]) then Some(parts) else None
  }

  /** The version a string denotes, or None when it is not a semantic version:
      the first `+` starts the build metadata, the first `-` before it the pre-release. */
  function Parse(s: string): Option<Version> {
    var (main, build) := Cut(s, '+');
    var (core, pre) := Cut(main, '-');
    match (ParseCore(core), ParsePre(pre), ParseBuild(build))
    case (Some(n), Some(p), Some(b)) => Some(Version(n.0, n.1, n.2, p, b))
    case _ => None
  }

  /** The `valid` test the registry cache applies to version keys. */
  predicate Valid(s: string) {
    Parse(s).Some?
  }

  // ----- writing a version -----

  function CoreText(v: Version): string {
    Join([Text(v.major), Text(v.minor), Text(v.patch)], '.')
  }

  function PreBody(pre: seq<Identifier>): Option<string> {
    if pre == [] then None else Some(Join(IdentTexts(pre), '.'))
  }

  function BuildBody(build: seq<string>): Option<string> {
    if build == [] then None else Some(Join(build, '.'))
  }

  /** `text`, followed by `c` and `body` when there is a body. */
  function Attach(text: string, c: char, body: Option<string>): string {
    if body.None? then text else text + [c] + body.value
  }

  /** The canonical text of a version. */
  function Format(v: Version): string {
    Attach(Attach(CoreText(v), '-', PreBody(v.pre)), '+', BuildBody(v.build))
  }

  // ----- Format and Parse are inverse -----

  lemma CutAttach(text: string, c: char, body: Option<string>)
    requires c !in text
    ensures Cut(Attach(text, c, body), c) == (text, body)
  {
    if body.Some? {
      CutJoined(text, c, body.value);
    }
  }

  lemma AttachCut(s: string, c: char)
    ensures Attach(Cut(s, c).0, c, Cut(s, c).1) == s
  {
    CutParts(s, c);
  }

  predicate IsNumeralChar(c: char) {
    IsDigit(c) || c == '.'
  }

  predicate IsPreChar(c: char) {
    IsIdentChar(c) || c == '.'
  }

  lemma CoreRoundTrip(v: Version)
    ensures AllChars(CoreText(v), IsNumeralChar)
    ensures ParseCore(CoreText(v)) == Some((v.major, v.minor, v.patch))
  {
    var ts := [Text(v.major), Text(v.minor), Text(v.patch)];
    forall i | 0 <= i < 3 ensures AllChars(ts[i], IsNumeralChar) && '.' !in ts[i] {
      Excludes(ts[i], IsDigit, '.');
    }
    JoinChars(ts, '.', IsNumeralChar);
    SplitOfJoin(ts, '.');
  }

  lemma IdentRoundTrip(id: Identifier)
    requires id.Alphanumeric? ==> IsIdentText(id.s) && !AllDigits(id.s)
    ensures IsPreText(IdentText(id)) && IdentOf(IdentText(id)) == id
  {
  }

  lemma PreRoundTrip(v: Version)
    requires WellFormed(v)
    ensures PreBody(v.pre).Some? ==> AllChars(PreBody(v.pre).value, IsPreChar)
    ensures ParsePre(PreBody(v.pre)) == Some(v.pre)
  {
    if v.pre != [] {
      var parts := IdentTexts(v.pre);
      forall i | 0 <= i < |parts|
        ensures IsPreText(parts[i]) && IdentOf(parts[i]) == v.pre[i]
        ensures AllChars(parts[i], IsPreChar) && '.' !in parts[i]
      {
        IdentRoundTrip(v.pre[i]);
        Excludes(parts[i], IsIdentChar, '.');
      }
      SplitOfJoin(parts, '.');
      JoinChars(parts, '.', IsPreChar);
      assert IdentsOf(parts) == v.pre;
    }
  }

  lemma BuildRoundTrip(v: Version)
    requires WellFormed(v)
    ensures ParseBuild(BuildBody(v.build)) == Some(v.build)
  {
    if v.build != [] {
      forall i | 0 <= i < |v.build| ensures '.' !in v.build[i] {
        Excludes(v.build[i], IsIdentChar, '.');
      }
      SplitOfJoin(v.build, '.');
    }
  }

  /** Every well-formed version is valid, and reading its text gives it back. */
  lemma ParseFormat(v: Version)
    requires WellFormed(v)
    ensures Parse(Format(v)) == Some(v)
  {
    CoreRoundTrip(v);
    PreRoundTrip(v);
    BuildRoundTrip(v);
    var core := CoreText(v);
    var main := Attach(core, '-', PreBody(v.pre));
    Excludes(core, IsNumeralChar, '-');
    Excludes(core, IsNumeralChar, '+');
    assert '+' !in main by {
      if PreBody(v.pre).Some? {
        Excludes(PreBody(v.pre).value, IsPreChar, '+');
      }
    }
    CutAttach(main, '+', BuildBody(v.build));
    CutAttach(core, '-', PreBody(v.pre));
  }

  /** A concrete string is the text of a concrete well-formed version. */
  lemma ParsesAs(s: string, v: Version)
    requires WellFormed(v) && Format(v) == s
    ensures Parse(s) == Some(v)
  {
    ParseFormat(v);
  }

  lemma CoreOfParse(core: string)
    requires ParseCore(core).Some?
    ensures var n := ParseCore(core).value;
      CoreText(Version(n.0, n.1, n.2, [], [])) == core
  {
    var nums := Split(core, '.');
    TextOfValue(nums[0]);
    TextOfValue(nums[1]);
    TextOfValue(nums[2]);
    JoinOfSplit(core, '.');
    assert [Text(Value(nums[0])), Text(Value(nums[1])), Text(Value(nums[2]))] == nums;
  }

  lemma IdentTextOf(s: string)
    requires IsPreText(s)
    ensures IdentText(IdentOf(s)) == s
    ensures IdentOf(s).Alphanumeric? ==> IsIdentText(IdentOf(s).s) && !AllDigits(IdentOf(s).s)
  {
    if AllDigits(s) {
      TextOfValue(s);
    }
  }

  lemma PreOfParse(pre: Option<string>)
    requires ParsePre(pre).Some?
    ensures var ids := ParsePre(pre).value;
      && PreBody(ids) == pre
      && forall i | 0 <= i < |ids| :: ids[i].Alphanumeric? ==> IsIdentText(ids[i].s) && !AllDigits(ids[i].s)
  {
    if pre.Some? {
      var parts := Split(pre.value, '.');
      var ids := ParsePre(pre).value;
      forall i | 0 <= i < |parts|
        ensures IdentText(ids[i]) == parts[i]
        ensures ids[i].Alphanumeric? ==> IsIdentText(ids[i].s) && !AllDigits(ids[i].s)
      {
        IdentTextOf(parts[i]);
      }
      assert IdentTexts(ids) == parts;
      JoinOfSplit(pre.value, '.');
    }
  }

  lemma BuildOfParse(build: Option<string>)
    requires ParseBuild(build).Some?
    ensures BuildBody(ParseBuild(build).value) == build
  {
    if build.Some? {
      JoinOfSplit(build.value, '.');
    }
  }

  /** A valid version string is the canonical text of the version it denotes. */
  lemma FormatParse(s: string)
    requires Valid(s)
    ensures WellFormed(Parse(s).value) && Format(Parse(s).value) == s
  {
    var (main, build) := Cut(s, '+');
    var (core, pre) := Cut(main, '-');
    CoreOfParse(core);
    PreOfParse(pre);
    BuildOfParse(build);
    AttachCut(main, '-');
    AttachCut(s, '+');
  }
}
