/**
 The string operations the repository leans on: splitting on a separator, joining, and
 substring search, on the Go side `strings.Split`, `strings.Join` and `strings.Index`.
 */
module Text {

  // The position of the first c in s, |s| when there is none.
  function FirstOf(s: string, c: char): (i: nat)
    ensures i <= |s|
    ensures c !in s[..i]
    ensures i < |s| ==> s[i] == c
  {
    if s == "" || s[0] == c then 0 else 1 + FirstOf(s[1..], c)
  }

  function Join(parts: seq<string>, sep: char): string
    requires |parts| > 0
  {
    if |parts| == 1 then parts[0] else parts[0] + [sep] + Join(parts[1..], sep)
  }

  predicate Separated(parts: seq<string>, sep: char) {
    forall i | 0 <= i < |parts| :: sep !in parts[i]
  }

  // strings.Split with a one-character separator: the empty string has one (empty) part.
  function Split(s: string, sep: char): (parts: seq<string>)
    ensures |parts| > 0 && Separated(parts, sep)
    ensures Join(parts, sep) == s
    decreases |s|
  {
    var i := FirstOf(s, sep);
    if i == |s| then
      assert s[..i] == s;
      [s]
    else
      assert s == s[..i] + [sep] + s[i + 1..];
      [s[..i]] + Split(s[i + 1..], sep)
  }

  lemma FirstOfAt(s: string, c: char, k: nat)
    requires k <= |s| && c !in s[..k] && (k < |s| ==> s[k] == c)
    ensures FirstOf(s, c) == k
  {
  }

  // Split undoes Join on parts that do not contain the separator.
  lemma {:induction false} SplitJoin(parts: seq<string>, sep: char)
    requires |parts| > 0 && Separated(parts, sep)
    ensures Split(Join(parts, sep), sep) == parts
  {
    var s := Join(parts, sep);
    var k := |parts[0]|;
    assert s[..k] == parts[0];
    if |parts| == 1 {
      FirstOfAt(s, sep, k);
    } else {
      assert s[k] == sep;
      FirstOfAt(s, sep, k);
      assert s[k + 1..] == Join(parts[1..], sep);
      SplitJoin(parts[1..], sep);
    }
  }

  predicate OccursAt(s: string, sub: string, i: nat) {
    i + |sub| <= |s| && s[i..i + |sub|] == sub
  }

  predicate Contains(s: string, sub: string) {
    exists i :: 0 <= i <= |s| && OccursAt(s, sub, i)
  }

  predicate HasPrefix(s: string, prefix: string) {
    prefix <= s
  }

  predicate HasSuffix(s: string, suffix: string) {
    |suffix| <= |s| && s[|s| - |suffix|..] == suffix
  }

  predicate IsDigit(c: char) { '0' <= c <= '9' }

  predicate AllDigits(s: string) {
    forall i | 0 <= i < |s| :: IsDigit(s[i])
  }

  // Lower case, of the letters of ASCII.
  function Lower(c: char): char {
    if 'A' <= c <= 'Z' then (c as int + 32) as char else c
  }
}
