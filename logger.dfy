/** The logger (lib/logger.js): `getLevel` turns the configured level name
    into a number, the constructor turns that into the logger's level with
    `parseInt` and a default, and a message of a category is printed when
    the level is above the category's number. Printing itself is left out. */
module Logging {
  import opened Wrappers
  import opened Numerals
  import opened JsObject

  /** The message categories, one per logging method, with their fixed numbers. */
  datatype Category = Code | Info | Miss | Hit | Cached | Request | Sync | Warn | Error

  function Rank(c: Category): (n: nat)
    ensures 1 <= n <= 9
  {
    match c
    case Code => 1
    case Info => 2
    case Miss => 3
    case Hit => 4
    case Cached => 5
    case Request => 6
    case Sync => 7
    case Warn => 8
    case Error => 9
  }

  /** The label a category prints with, which is also its level name. */
  function Label(c: Category): string {
    match c
    case Code => ""
    case Info => "info"
    case Miss => "miss"
    case Hit => "hit"
    case Cached => "cached"
    case Request => "request"
    case Sync => "sync"
    case Warn => "warn"
    case Error => "error"
  }

  /** Distinct categories have distinct numbers. */
  lemma RanksDistinct()
    ensures forall c, d :: Rank(c) == Rank(d) ==> c == d
  {
    assert Rank(Code) == 1 && Rank(Info) == 2 && Rank(Miss) == 3;
    assert Rank(Hit) == 4 && Rank(Cached) == 5 && Rank(Request) == 6;
    assert Rank(Sync) == 7 && Rank(Warn) == 8 && Rank(Error) == 9;
  }

  // ----- getLevel (lines 38-51) -----

  /** The table `getLevel` reads. */
  const LevelTable: map<string, nat> := map[
    "" := 1, "info" := 2, "miss" := 3, "hit" := 4, "cached" := 5,
    "request" := 6, "sync" := 7, "warn" := 8, "error" := 9
  ]

  /** What `getLevel` returns: a number, or the `Object.prototype` member a
      name reached (a function or an object, which is truthy). */
  datatype LevelValue = Level(n: nat) | Builtin(key: string)

  /** `toLowerCase` on ASCII letters. */
  function Lower(s: string): (r: string)
    ensures |r| == |s|
    ensures forall i | 0 <= i < |s| :: r[i] == if 'A' <= s[i] <= 'Z' then (s[i] as int + 32) as char else s[i]
  {
    seq(|s|, i requires 0 <= i < |s| => if 'A' <= s[i] <= 'Z' then (s[i] as int + 32) as char else s[i])
  }

  /** The key `getLevel` reads: an absent or empty name is falsy and reads "error". */
  function LevelKey(name: Option<string>): string {
    if name.None? || name.value == "" then "error" else Lower(name.value)
  }

  /** `getLevel(name)`: `map[key] || 9`. Every entry of the table is truthy. */
  function GetLevel(name: Option<string>): (r: LevelValue)
    ensures r.Level? ==> 1 <= r.n <= 9
  {
    assert forall k | k in LevelTable :: 1 <= LevelTable[k] <= 9;
    match Get(LevelTable, LevelKey(name))
    case Own(n) => if n == 0 then Level(9) else Level(n)
    case Inherited(k) => Builtin(k)
    case Absent => Level(9)
  }

  /** Each category's label selects its own number, in any letter case. */
  lemma GetLevelOfLabel(c: Category, name: string)
    requires c != Code && Lower(name) == Label(c)
    ensures GetLevel(Some(name)) == Level(Rank(c))
  {
  }

  /** No name, the empty name and any name the table lacks give 9. */
  lemma GetLevelDefault(name: Option<string>)
    requires name.None? || name.value == "" ||
      (LevelKey(name) !in LevelTable && LevelKey(name) !in PrototypeMembers)
    ensures GetLevel(name) == Level(9)
  {
  }

  /** Every number `getLevel` returns is one of the table's, 1 to 9. */
  lemma GetLevelRange(name: Option<string>)
    ensures GetLevel(name).Level? ==> 1 <= GetLevel(name).n <= 9
  {
    assert forall k | k in LevelTable :: 1 <= LevelTable[k] <= 9;
  }

  /** The `"": 1` entry is never read: an empty name is replaced by "error"
      first, and lower-casing a non-empty name leaves it non-empty. */
  lemma {:induction false} GetLevelNeverOne(name: Option<string>)
    ensures GetLevel(name) != Level(1)
  {
    var key := LevelKey(name);
    assert key != "" by {
      if name.Some? && name.value != "" {
        assert |key| == |name.value|;
      }
    }
    assert forall k | k in LevelTable && k != "" :: LevelTable[k] != 1;
  }

  /** The only members of `Object.prototype` a lower-cased name can reach
      are the two whose names have no capital letter. */
  lemma GetLevelBuiltins(name: Option<string>)
    ensures GetLevel(name).Builtin? ==> GetLevel(name).key in {"constructor", "__proto__"}
  {
    var key := LevelKey(name);
    if key in PrototypeMembers && key !in LevelTable {
      assert forall i | 0 <= i < |key| :: !('A' <= key[i] <= 'Z');
      assert "__defineGetter__"[8] == 'G' && "__defineSetter__"[8] == 'S';
      assert "__lookupGetter__"[8] == 'G' && "__lookupSetter__"[8] == 'S';
      assert "hasOwnProperty"[3] == 'O' && "isPrototypeOf"[2] == 'P';
      assert "propertyIsEnumerable"[8] == 'I' && "toLocaleString"[2] == 'L';
      assert "toString"[2] == 'S' && "valueOf"[5] == 'O';
    }
  }

  // ----- the constructor (line 3) -----

  /** The white space `parseInt` skips before the number. */
  predicate IsSpace(c: char) {
    var k := c as int;
    || 9 <= k <= 13 || k == 32 || k == 0xA0 || k == 0x1680 || 0x2000 <= k <= 0x200A
    || k == 0x2028 || k == 0x2029 || k == 0x202F || k == 0x205F || k == 0x3000 || k == 0xFEFF
  }

  function TrimStart(s: string): (r: string)
    ensures |r| <= |s| && (|r| > 0 ==> !IsSpace(r[0]))
  {
    if |s| > 0 && IsSpace(s[0]) then TrimStart(s[1..]) else s
  }

  predicate IsHexDigit(c: char) {
    IsDigit(c) || 'a' <= c <= 'f' || 'A' <= c <= 'F'
  }

  function HexDigitValue(c: char): (d: nat)
    requires IsHexDigit(c)
    ensures d < 16
  {
    if IsDigit(c) then DigitValue(c)
    else if 'a' <= c <= 'f' then c as int - 'a' as int + 10
    else c as int - 'A' as int + 10
  }

  function HexValue(s: string): nat
    requires forall i | 0 <= i < |s| :: IsHexDigit(s[i])
  {
    if |s| == 0 then 0 else HexValue(s[..|s| - 1]) * 16 + HexDigitValue(s[|s| - 1])
  }

  /** The length of the longest prefix of `s` whose characters satisfy `ok`. */
  function PrefixLength(s: string, ok: char -> bool): (n: nat)
    ensures n <= |s|
    ensures forall i | 0 <= i < n :: ok(s[i])
    ensures n < |s| ==> !ok(s[n])
  {
    if |s| > 0 && ok(s[0]) then 1 + PrefixLength(s[1..], ok) else 0
  }

  /** `parseInt(s)` with no radix; None is NaN. Leading white space and one
      sign are skipped, "0x" or "0X" switches to hexadecimal, and the longest
      run of digits that follows is read; none at all is NaN. */
  function ParseInt(s: string): Option<int> {
    var t := TrimStart(s);
    var negative := |t| > 0 && t[0] == '-';
    var u := if |t| > 0 && (t[0] == '-' || t[0] == '+') then t[1..] else t;
    var magnitude: Option<nat> :=
      if |u| >= 2 && u[0] == '0' && (u[1] == 'x' || u[1] == 'X') then
        var n := PrefixLength(u[2..], IsHexDigit);
        if n == 0 then None else Some(HexValue(u[2..][..n]))
      else
        var n := PrefixLength(u, IsDigit);
        if n == 0 then None else Some(Value(u[..n]));
    if magnitude.None? then None
    else
      var m: int := magnitude.value;
      if negative then Some(-m) else Some(m)
  }

  /** `String(v)` for what `getLevel` returns: the decimal text of a number,
      the source text of a built-in function, or "[object Object]". */
  function LevelText(v: LevelValue): string {
    match v
    case Level(n) => Text(n)
    case Builtin(k) =>
      if k == "__proto__" then "[object Object]"
      else "function " + (if k == "constructor" then "Object" else k) + "() { [native code] }"
  }

  /** `parseInt` reads back the decimal text of a number. */
  lemma ParseIntOfText(n: nat)
    ensures ParseInt(Text(n)) == Some(n)
  {
    var s := Text(n);
    assert !IsSpace(s[0]) && s[0] != '-' && s[0] != '+';
    assert TrimStart(s) == s;
    assert |s| >= 2 ==> s[1] != 'x' && s[1] != 'X';
    assert PrefixLength(s, IsDigit) == |s|;
    assert s[..|s|] == s;
  }

  /** ... and finds no number in the text of a built-in. */
  lemma ParseIntOfBuiltin(k: string)
    ensures ParseInt(LevelText(Builtin(k))) == None
  {
    var s := LevelText(Builtin(k));
    assert s[0] == '[' || s[0] == 'f';
    assert TrimStart(s) == s;
    assert PrefixLength(s, IsDigit) == 0;
  }

  /** A logger's state: its level, fixed at construction. */
  datatype Logger = Logger(level: int)

  /** `new Logger(arg)`: `parseInt(arg) || 7`, where NaN and 0 are falsy. */
  function NewLogger(arg: string): (l: Logger)
    ensures ParseInt(arg).Some? && ParseInt(arg).value != 0 ==> l.level == ParseInt(arg).value
    ensures ParseInt(arg).None? || ParseInt(arg).value == 0 ==> l.level == 7
  {
    var p := ParseInt(arg);
    if p.None? || p.value == 0 then Logger(7) else Logger(p.value)
  }

  /** The logger the server builds from its level option (lib/index.js:28). */
  function LoggerFor(name: Option<string>): Logger {
    NewLogger(LevelText(GetLevel(name)))
  }

  /** Whatever the option, the level is a table number from 2 to 9, or 7 when
      the name reached a built-in; so, with the gate as written, no option
      lets `error` messages through. */
  lemma {:induction false} LoggerForLevel(name: Option<string>)
    ensures 2 <= LoggerFor(name).level <= 9
    ensures GetLevel(name).Level? ==> LoggerFor(name).level == GetLevel(name).n
    ensures GetLevel(name).Builtin? ==> LoggerFor(name).level == 7
    ensures !Emits(LoggerFor(name), Error)
  {
    var v := GetLevel(name);
    GetLevelNeverOne(name);
    match v
    case Level(n) =>
      LoggerForNumber(v);
    case Builtin(k) =>
      LoggerForBuiltin(v);
  }

  /** A positive number survives the round trip through its text. */
  lemma LoggerForNumber(v: LevelValue)
    requires v.Level? && v.n > 0
    ensures NewLogger(LevelText(v)).level == v.n
  {
    ParseIntOfText(v.n);
  }

  /** The text of a built-in is NaN to `parseInt`, so the default applies. */
  lemma LoggerForBuiltin(v: LevelValue)
    requires v.Builtin?
    ensures NewLogger(LevelText(v)).level == 7
  {
    ParseIntOfBuiltin(v.key);
  }

  // ----- the gate (lines 4-9) -----

  /** `this.level > level`: whether a message of category `c` is printed. */
  predicate Emits(l: Logger, c: Category)
    ensures Emits(l, c) <==> EmitsIntended(l, c) && l.level != Rank(c)
  {
    l.level > Rank(c)
  }

  /** As written, selecting a category's own level silences that category. */
  lemma OwnLevelSilenced(c: Category)
    requires c != Code
    ensures !Emits(LoggerFor(Some(Label(c))), c)
  {
    assert Lower(Label(c)) == Label(c);
    GetLevelOfLabel(c, Label(c));
    LoggerForLevel(Some(Label(c)));
  }

  /** The gate as evidently intended: a level prints its own category and
      every category numbered below it. */
  predicate EmitsIntended(l: Logger, c: Category) {
    l.level >= Rank(c)
  }

  /** With the intended gate, the level named after a category prints exactly
      the categories up to it; in particular "error" prints errors. */
  lemma LabelLevelEmitsOwnCategory(c: Category, d: Category)
    requires c != Code
    ensures EmitsIntended(LoggerFor(Some(Label(c))), d) <==> Rank(d) <= Rank(c)
    ensures EmitsIntended(LoggerFor(None), Error)
  {
    assert Lower(Label(c)) == Label(c);
    GetLevelOfLabel(c, Label(c));
    LoggerForLevel(Some(Label(c)));
    LoggerForLevel(None);
  }
}
