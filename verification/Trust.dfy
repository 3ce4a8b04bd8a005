/**
 Trust scopes: which declared scope decides for a repository, by glob patterns over its path.
 */
module Trust {
  import opened Text

  /******* The meaning of a pattern *******/

  // The literal parts with a run of characters between each two.
  ghost function Weave(parts: seq<string>, runs: seq<string>): string
    requires |parts| == |runs| + 1
  {
    if runs == [] then parts[0] else parts[0] + runs[0] + Weave(parts[1..], runs[1..])
  }

  // "*" stands for any run of characters within one segment.
  ghost predicate SegmentMatches(pat: string, s: string) {
    Woven(Split(pat, '*'), s)
  }

  ghost predicate Woven(parts: seq<string>, s: string)
    requires |parts| > 0
  {
    exists runs: seq<string> :: |parts| == |runs| + 1 && s == Weave(parts, runs)
  }

  ghost function Flatten(blocks: seq<seq<string>>): seq<string> {
    if blocks == [] then [] else blocks[0] + Flatten(blocks[1..])
  }

  ghost predicate BlockMatches(pat: string, block: seq<string>) {
    pat == "**" || (|block| == 1 && SegmentMatches(pat, block[0]))
  }

  // "**" stands for zero or more whole segments; every other segment pattern for exactly one.
  ghost predicate Decomposes(pat: seq<string>, parts: seq<string>, blocks: seq<seq<string>>) {
    && |blocks| == |pat|
    && Flatten(blocks) == parts
    && forall i :: 0 <= i < |pat| ==> BlockMatches(pat[i], blocks[i])
  }

  ghost predicate PathMatches(pat: seq<string>, parts: seq<string>) {
    exists blocks :: Decomposes(pat, parts, blocks)
  }

  /******* One segment: the greedy leftmost search *******/

  // strings.Index: the first occurrence.
  method Index(s: string, sub: string) returns (i: int)
    ensures i >= 0 ==> OccursAt(s, sub, i) && forall j: nat :: j < i ==> !OccursAt(s, sub, j)
    ensures i < 0 ==> forall j: nat :: !OccursAt(s, sub, j)
  {
    i := 0;
    while i + |sub| <= |s|
      invariant 0 <= i
      invariant forall j: nat :: j < i ==> !OccursAt(s, sub, j)
    {
      if s[i..i + |sub|] == sub {
        return i;
      }
      i := i + 1;
    }
    i := -1;
  }

  // The rest of a pattern after a "*": some run, then the parts woven together.
  ghost predicate Tail(parts: seq<string>, s: string)
    requires |parts| > 0
  {
    exists k :: 0 <= k <= |s| && Woven(parts, s[k..])
  }

  lemma WovenUncons(parts: seq<string>, s: string)
    requires |parts| > 1 && Woven(parts, s)
    ensures HasPrefix(s, parts[0]) && Tail(parts[1..], s[|parts[0]|..])
  {
    var runs :| |parts| == |runs| + 1 && s == Weave(parts, runs);
    var inner := Weave(parts[1..], runs[1..]);
    assert s == parts[0] + (runs[0] + inner);
    var rest := s[|parts[0]|..];
    assert rest == runs[0] + inner;
    assert rest[|runs[0]|..] == inner;
    assert Woven(parts[1..], rest[|runs[0]|..]);
  }

  lemma WovenCons(parts: seq<string>, s: string)
    requires |parts| > 1 && HasPrefix(s, parts[0]) && Tail(parts[1..], s[|parts[0]|..])
    ensures Woven(parts, s)
  {
    var rest := s[|parts[0]|..];
    var k :| 0 <= k <= |rest| && Woven(parts[1..], rest[k..]);
    var runs :| |parts[1..]| == |runs| + 1 && rest[k..] == Weave(parts[1..], runs);
    var all := [rest[..k]] + runs;
    assert all[1..] == runs;
    assert rest == rest[..k] + rest[k..];
    assert s == Weave(parts, all);
  }

  lemma WovenOne(parts: seq<string>, s: string)
    requires |parts| == 1
    ensures Woven(parts, s) <==> s == parts[0]
  {
    if s == parts[0] {
      assert s == Weave(parts, []);
    }
  }

  // A run may swallow more: what matches further right matches here too.
  lemma TailAbsorbs(parts: seq<string>, s: string, i: nat, j: nat)
    requires |parts| > 0 && i <= j <= |s| && Tail(parts, s[j..])
    ensures Tail(parts, s[i..])
  {
    var k :| 0 <= k <= |s[j..]| && Woven(parts, s[j..][k..]);
    assert s[i..][j - i + k..] == s[j..][k..];
  }

  // Where a tail can start, its first part occurs.
  lemma TailOccurs(parts: seq<string>, s: string) returns (k: nat)
    requires |parts| > 1 && Tail(parts, s)
    ensures OccursAt(s, parts[0], k) && Tail(parts[1..], s[k + |parts[0]|..])
  {
    k :| 0 <= k <= |s| && Woven(parts, s[k..]);
    WovenUncons(parts, s[k..]);
    assert s[k..][..|parts[0]|] == parts[0];
    assert s[k..][|parts[0]|..] == s[k + |parts[0]|..];
  }

  lemma TailFrom(parts: seq<string>, s: string, i: nat)
    requires |parts| > 1 && OccursAt(s, parts[0], i) && Tail(parts[1..], s[i + |parts[0]|..])
    ensures Tail(parts, s)
  {
    assert s[i..][|parts[0]|..] == s[i + |parts[0]|..];
    assert s[i..][..|parts[0]|] == parts[0];
    WovenCons(parts, s[i..]);
  }

  // Taking the leftmost occurrence of the next part loses no match.
  lemma LeftmostSuffices(parts: seq<string>, s: string, i: nat)
    requires |parts| > 1 && OccursAt(s, parts[0], i)
    requires forall j: nat :: j < i ==> !OccursAt(s, parts[0], j)
    ensures Tail(parts, s) <==> Tail(parts[1..], s[i + |parts[0]|..])
  {
    if Tail(parts, s) {
      var k := TailOccurs(parts, s);
      TailAbsorbs(parts[1..], s, i + |parts[0]|, k + |parts[0]|);
    }
    if Tail(parts[1..], s[i + |parts[0]|..]) {
      TailFrom(parts, s, i);
    }
  }

  lemma NoOccurrence(parts: seq<string>, s: string)
    requires |parts| > 1 && forall j: nat :: !OccursAt(s, parts[0], j)
    ensures !Tail(parts, s)
  {
    if Tail(parts, s) {
      var k := TailOccurs(parts, s);
    }
  }

  lemma LastIsSuffix(parts: seq<string>, s: string)
    requires |parts| == 1
    ensures Tail(parts, s) <==> HasSuffix(s, parts[0])
  {
    if Tail(parts, s) {
      var k :| 0 <= k <= |s| && Woven(parts, s[k..]);
      WovenOne(parts, s[k..]);
      assert k == |s| - |parts[0]|;
    }
    if HasSuffix(s, parts[0]) {
      var k := |s| - |parts[0]|;
      WovenOne(parts, s[k..]);
    }
  }

  method MatchSegment(pat: string, s: string) returns (r: bool)
    ensures r <==> SegmentMatches(pat, s)
  {
    var parts := Split(pat, '*');
    if |parts| == 1 {
      WovenOne(parts, s);
      return pat == s;
    }
    if Woven(parts, s) { WovenUncons(parts, s); }
    if !HasPrefix(s, parts[0]) {
      return false;
    }
    if Tail(parts[1..], s[|parts[0]|..]) { WovenCons(parts, s); }
    r := MatchTail(parts[1..], s[|parts[0]|..]);
  }

  // The parts after the first "*", leftmost first, the last one as a suffix.
  method MatchTail(parts: seq<string>, s: string) returns (r: bool)
    requires |parts| > 0
    ensures r <==> Tail(parts, s)
  {
    var rest := s;
    var m := 0;
    while m < |parts| - 1
      invariant 0 <= m <= |parts| - 1
      invariant Tail(parts, s) <==> Tail(parts[m..], rest)
    {
      var left := parts[m..];
      assert left[0] == parts[m] && left[1..] == parts[m + 1..];
      var i := Index(rest, parts[m]);
      if i < 0 {
        NoOccurrence(left, rest);
        return false;
      }
      LeftmostSuffices(left, rest, i);
      rest := rest[i + |parts[m]|..];
      m := m + 1;
    }
    LastIsSuffix(parts[m..], rest);
    r := HasSuffix(rest, parts[m]);
  }

  /******* Whole paths *******/

  lemma PathCons(pat: seq<string>, parts: seq<string>, n: nat)
    requires pat != [] && n <= |parts|
    requires BlockMatches(pat[0], parts[..n]) && PathMatches(pat[1..], parts[n..])
    ensures PathMatches(pat, parts)
  {
    var rest :| Decomposes(pat[1..], parts[n..], rest);
    var blocks := [parts[..n]] + rest;
    assert blocks[1..] == rest && parts == parts[..n] + parts[n..];
    assert Decomposes(pat, parts, blocks);
  }

  lemma PathUncons(pat: seq<string>, parts: seq<string>) returns (n: nat)
    requires pat != [] && PathMatches(pat, parts)
    ensures n <= |parts| && BlockMatches(pat[0], parts[..n]) && PathMatches(pat[1..], parts[n..])
  {
    var blocks :| Decomposes(pat, parts, blocks);
    n := |blocks[0]|;
    assert parts[..n] == blocks[0] && parts[n..] == Flatten(blocks[1..]);
    assert BlockMatches(pat[0], blocks[0]);
    forall i | 0 <= i < |pat[1..]| ensures BlockMatches(pat[1..][i], blocks[1..][i]) {
      assert BlockMatches(pat[i + 1], blocks[i + 1]);
    }
    assert Decomposes(pat[1..], parts[n..], blocks[1..]);
  }

  method MatchSegments(pat: seq<string>, parts: seq<string>) returns (r: bool)
    ensures r <==> PathMatches(pat, parts)
    decreases |pat|
  {
    if |pat| == 0 {
      if parts == [] { assert Decomposes(pat, parts, []); }
      return |parts| == 0;
    }
    if pat[0] == "**" {
      var skip := 0;
      while skip <= |parts|
        invariant 0 <= skip <= |parts| + 1
        invariant forall n :: 0 <= n < skip ==> !PathMatches(pat[1..], parts[n..])
      {
        var rest := MatchSegments(pat[1..], parts[skip..]);
        if rest {
          PathCons(pat, parts, skip);
          return true;
        }
        skip := skip + 1;
      }
      if PathMatches(pat, parts) {
        ghost var n := PathUncons(pat, parts);
      }
      return false;
    }
    if PathMatches(pat, parts) {
      ghost var n := PathUncons(pat, parts);
      assert n == 1 && parts[..1][0] == parts[0];
    }
    if |parts| == 0 {
      return false;
    }
    var first := MatchSegment(pat[0], parts[0]);
    if !first {
      return false;
    }
    r := MatchSegments(pat[1..], parts[1..]);
    if r {
      PathCons(pat, parts, 1);
    }
  }

  method MatchPattern(pattern: string, path: string) returns (r: bool)
    ensures r <==> PathMatches(Split(pattern, '/'), Split(path, '/'))
  {
    r := MatchSegments(Split(pattern, '/'), Split(path, '/'));
  }

  /******* The decision *******/

  datatype Scope = Scope(name: string, repositories: seq<string>, allowUnsigned: bool, roots: seq<string>)

  // `roots` are those whose keys may have signed.
  datatype Decision = Decision(allowUnsigned: bool, scope: string, roots: set<string>)

  ghost predicate Covers(s: Scope, repo: string) {
    exists i :: 0 <= i < |s.repositories| && PathMatches(Split(s.repositories[i], '/'), Split(repo, '/'))
  }

  method ScopeCovers(s: Scope, repo: string) returns (r: bool)
    ensures r <==> Covers(s, repo)
  {
    var i := 0;
    while i < |s.repositories|
      invariant 0 <= i <= |s.repositories|
      invariant forall j :: 0 <= j < i ==> !PathMatches(Split(s.repositories[j], '/'), Split(repo, '/'))
    {
      var hit := MatchPattern(s.repositories[i], repo);
      if hit {
        return true;
      }
      i := i + 1;
    }
    r := false;
  }

  // The k-th scope is the first to cover the repository.
  ghost predicate FirstCovering(scopes: seq<Scope>, repo: string, k: nat) {
    && k < |scopes| && Covers(scopes[k], repo)
    && (forall j :: 0 <= j < k ==> !Covers(scopes[j], repo))
  }

  // The first scope with a matching pattern decides - name, unsigned content, and its own roots or all of
  // them; without one, every root is required and nothing unsigned passes.
  method Decide(all: set<string>, scopes: seq<Scope>, repo: string) returns (d: Decision)
    ensures forall k: nat :: FirstCovering(scopes, repo, k) ==>
              && d.scope == scopes[k].name && d.allowUnsigned == scopes[k].allowUnsigned
              && (scopes[k].roots == [] ==> d.roots == all)
              && (scopes[k].roots != [] ==> forall r :: r in d.roots <==> r in scopes[k].roots && r in all)
    ensures (forall k :: 0 <= k < |scopes| ==> !Covers(scopes[k], repo)) ==> !d.allowUnsigned && d.scope == "" && d.roots == all
    ensures (exists k: nat :: FirstCovering(scopes, repo, k)) || forall k :: 0 <= k < |scopes| ==> !Covers(scopes[k], repo)
  {
    var k := 0;
    while k < |scopes|
      invariant 0 <= k <= |scopes|
      invariant forall j :: 0 <= j < k ==> !Covers(scopes[j], repo)
    {
      var s := scopes[k];
      var hit := ScopeCovers(s, repo);
      if hit {
        assert FirstCovering(scopes, repo, k);
        d := Decision(s.allowUnsigned, s.name, all);
        if s.roots != [] {
          var roots := Merge(all, s.roots);
          d := d.(roots := roots);
        }
        return;
      }
      k := k + 1;
    }
    d := Decision(false, "", all);
  }

  // The configured ones among the named roots; a name that is not configured is skipped.
  method Merge(all: set<string>, names: seq<string>) returns (roots: set<string>)
    ensures forall r :: r in roots <==> r in names && r in all
  {
    roots := {};
    for i := 0 to |names|
      invariant forall r :: r in roots <==> r in names[..i] && r in all
    {
      if names[i] in all {
        roots := roots + {names[i]};
      }
    }
  }
}
