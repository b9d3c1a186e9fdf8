/** Splitting text at a separator character and joining it back, as the
    version-string syntax needs. */
module Strings {
  import opened Wrappers

  predicate AllChars(s: string, ok: char -> bool) {
    forall k | 0 <= k < |s| :: ok(s[k])
  }

  lemma Excludes(s: string, ok: char -> bool, c: char)
    requires AllChars(s, ok) && !ok(c)
    ensures c !in s
  {
  }

  /** The position of the first `c` in `s`. */
  function IndexOf(s: string, c: char): (i: nat)
    requires c in s
    ensures i < |s| && s[i] == c
    ensures forall k | 0 <= k < i :: s[k] != c
  {
    if s[0] == c then 0 else 1 + IndexOf(s[1..], c)
  }

  lemma IndexOfJoined(a: string, c: char, b: string)
    requires c !in a
    ensures c in a + [c] + b && IndexOf(a + [c] + b, c) == |a|
  {
    var s := a + [c] + b;
    assert s[|a|] == c;
    assert forall k | 0 <= k < |a| :: s[k] == a[k];
  }

  /** The text before the first `c` and, if there is a `c`, the text after it. */
  function Cut(s: string, c: char): (string, Option<string>) {
    if c in s then
      var i := IndexOf(s, c);
      (s[..i], Some(s[i + 1..]))
    else (s, None)
  }

  lemma CutParts(s: string, c: char)
    ensures c !in Cut(s, c).0
    ensures Cut(s, c).1.None? ==> s == Cut(s, c).0
    ensures Cut(s, c).1.Some? ==> s == Cut(s, c).0 + [c] + Cut(s, c).1.value
  {
    if c in s {
      var i := IndexOf(s, c);
      assert s == s[..i] + [c] + s[i + 1..];
    }
  }

  lemma CutJoined(a: string, c: char, b: string)
    requires c !in a
    ensures Cut(a + [c] + b, c) == (a, Some(b))
  {
    IndexOfJoined(a, c, b);
    var s := a + [c] + b;
    assert s[..|a|] == a && s[|a| + 1..] == b;
  }

  function Split(s: string, sep: char): (parts: seq<string>)
    ensures |parts| > 0
    ensures forall i | 0 <= i < |parts| :: sep !in parts[i]
    decreases |s|
  {
    if sep in s then
      var i := IndexOf(s, sep);
      [s[..i]] + Split(s[i + 1..], sep)
    else [s]
  }

  function Join(parts: seq<string>, sep: char): string
    requires |parts| > 0
  {
    if |parts| == 1 then parts[0] else parts[0] + [sep] + Join(parts[1..], sep)
  }

  lemma {:induction false} SplitOfJoin(parts: seq<string>, sep: char)
    requires |parts| > 0
    requires forall i | 0 <= i < |parts| :: sep !in parts[i]
    ensures Split(Join(parts, sep), sep) == parts
  {
    if |parts| > 1 {
      var rest := Join(parts[1..], sep);
      CutJoined(parts[0], sep, rest);
      SplitOfJoin(parts[1..], sep);
      assert parts == [parts[0]] + parts[1..];
    } else {
      assert sep !in parts[0];
    }
  }

  lemma {:induction false} JoinOfSplit(s: string, sep: char)
    ensures Join(Split(s, sep), sep) == s
    decreases |s|
  {
    if sep in s {
      var i := IndexOf(s, sep);
      JoinOfSplit(s[i + 1..], sep);
      var parts := Split(s, sep);
      assert parts[1..] == Split(s[i + 1..], sep);
      assert s == s[..i] + [sep] + s[i + 1..];
    }
  }

  /** Every character of a join is the separator or a character of some part. */
  lemma {:induction false} JoinChars(parts: seq<string>, sep: char, ok: char -> bool)
    requires |parts| > 0 && ok(sep)
    requires forall i | 0 <= i < |parts| :: AllChars(parts[i], ok)
    ensures AllChars(Join(parts, sep), ok)
  {
    if |parts| > 1 {
      JoinChars(parts[1..], sep, ok);
      var rest := Join(parts[1..], sep);
      var s := parts[0] + [sep] + rest;
      assert AllChars(parts[0], ok);
      forall k | 0 <= k < |s| ensures ok(s[k]) {
        if k < |parts[0]| {
          assert s[k] == parts[0][k];
        } else if k > |parts[0]| {
          assert s[k] == rest[k - |parts[0]| - 1];
        }
      }
    } else {
      assert AllChars(parts[0], ok);
    }
  }
}
