/**
 Where a nominal reference lands: under its canonical source host, below an optional base prefix.
 */
module Relocate {
  import opened Wrappers
  import opened Text

  function ToLower(s: string): (r: string)
    ensures |r| == |s| && forall i :: 0 <= i < |s| ==> r[i] == Lower(s[i])
  {
    seq(|s|, i requires 0 <= i < |s| => Lower(s[i]))
  }

  // The two Docker Hub aliases, and nothing else.
  function Canonical(host: string): string {
    if host == "index.docker.io" || host == "registry-1.docker.io" then "docker.io" else host
  }

  // A port is written with an underscore, since a repository name cannot hold a colon.
  function FoldPort(host: string): Option<string> {
    var colon := FirstOf(host, ':');
    if colon == |host| then Some(host)
    else
      var port := host[colon + 1..];
      if port == "" || !AllDigits(port) then None else Some(host[..colon] + "_" + port)
  }

  datatype Location = Location(host: string, repo: string)

  // The canonical host and the repository of a reference; None when it cannot be relocated.
  function SplitRef(ref: string): Option<Location> {
    if ref == "" || Contains(ref, "://") || HasPrefix(ref, "[") || '@' in ref then None else
    var slash := FirstOf(ref, '/');
    if slash == 0 || slash == |ref| then None else
    var repo, host := ref[slash + 1..], ToLower(ref[..slash]);
    if ':' in repo || repo == "" || HasPrefix(repo, "/") || HasSuffix(repo, "/") || Contains(repo, "//") then None
    else if '.' !in host && ':' !in host && host != "localhost" then None
    else
      var folded := FoldPort(host);
      if folded.None? then None else Some(Location(Canonical(folded.value), repo))
  }

  function Under(base: string, path: string): string {
    if base == "" then path else base + "/" + path
  }

  function PathWithBase(base: string, ref: string): Option<string> {
    var l := SplitRef(ref);
    if l.None? then None else Some(Under(base, l.value.host + "/" + l.value.repo))
  }

  // What only a host looks like: a dot, a port, or the local machine.
  predicate HostLike(segment: string) {
    '.' in segment || '_' in segment || segment == "localhost"
  }

  function FirstSegment(path: string): string {
    path[..FirstOf(path, '/')]
  }

  lemma FirstSegmentOf(a: string, b: string)
    requires '/' !in a
    ensures FirstSegment(a + "/" + b) == a
  {
    var s := a + "/" + b;
    assert s[..|a|] == a && s[|a|] == '/';
    FirstOfAt(s, '/', |a|);
  }

  lemma LowerKeeps(s: string, c: char)
    requires c in {'.', ':', '/', '_'}
    ensures c in ToLower(s) <==> c in s
  {
    if c in s {
      var i :| 0 <= i < |s| && s[i] == c;
      assert ToLower(s)[i] == c;
    }
  }

  lemma FoldedHost(host: string)
    requires '/' !in host && ('.' in host || ':' in host || host == "localhost") && FoldPort(host).Some?
    ensures var h := Canonical(FoldPort(host).value); '/' !in h && HostLike(h)
  {
    var colon := FirstOf(host, ':');
    if colon == |host| {
      assert host[..colon] == host;
    } else {
      var folded := FoldPort(host).value;
      assert folded[colon] == '_';
      assert '/' !in host[..colon] && '/' !in host[colon + 1..];
    }
  }

  // A relocated path without a base begins with something only a host looks like.
  lemma RelocatedStartsWithHost(ref: string)
    requires PathWithBase("", ref).Some?
    ensures HostLike(FirstSegment(PathWithBase("", ref).value))
  {
    var slash := FirstOf(ref, '/');
    var host := ToLower(ref[..slash]);
    LowerKeeps(ref[..slash], '/');
    FoldedHost(host);
    var l := SplitRef(ref).value;
    FirstSegmentOf(l.host, l.repo);
  }

  // A host name and a repository as registries write them.
  predicate PlainHost(host: string) {
    host != "" && host[0] != '[' && '/' !in host && ':' !in host && '@' !in host
  }

  predicate PlainRepo(repo: string) {
    repo != "" && ':' !in repo && '@' !in repo && repo[0] != '/' && repo[|repo| - 1] != '/' && !Contains(repo, "//")
  }

  // The host is folded to lower case, the two aliases to their registry, a port to an underscore; the
  // repository is kept as it is.
  lemma Relocates(base: string, host: string, port: string, repo: string)
    requires PlainHost(host) && PlainRepo(repo) && AllDigits(port)
    requires port == "" ==> '.' in host || ToLower(host) == "localhost"
    ensures port == "" ==>
              var low := ToLower(host);
              PathWithBase(base, host + "/" + repo)
              == Some(Under(base, (if low == "index.docker.io" || low == "registry-1.docker.io" then "docker.io" else low) + "/" + repo))
    ensures port != "" ==>
              PathWithBase(base, host + ":" + port + "/" + repo) == Some(Under(base, ToLower(host) + "_" + port + "/" + repo))
  {
    LowerKeeps(host, '.');
    LowerKeeps(host, ':');
    if port == "" {
      SplitsAt(host, repo);
      FirstOfAt(ToLower(host), ':', |host|);
    } else {
      WithPort(host, port);
      SplitsAt(host + ":" + port, repo);
      FoldsPort(ToLower(host), port);
    }
  }

  lemma WithPort(host: string, port: string)
    requires PlainHost(host) && port != "" && AllDigits(port)
    ensures var h := host + ":" + port;
            ToLower(h) == ToLower(host) + ":" + port && '/' !in h && '@' !in h && h[0] != '[' && ':' in ToLower(h)
    ensures forall i :: 0 <= i < |host + ":" + port| && (host + ":" + port)[i] == ':' ==> i == |host|
  {
    var h := host + ":" + port;
    assert forall i :: 0 <= i < |port| ==> IsDigit(port[i]) && Lower(port[i]) == port[i];
    assert ToLower(h)[|host|] == ':';
    forall c | c == '/' || c == '@' ensures c !in h {
      assert c !in port;
    }
  }

  lemma FoldsPort(low: string, port: string)
    requires ':' !in low && port != "" && AllDigits(port)
    ensures FoldPort(low + ":" + port) == Some(low + "_" + port) && Canonical(low + "_" + port) == low + "_" + port
  {
    var h := low + ":" + port;
    assert h[..|low|] == low && h[|low|] == ':' && h[|low| + 1..] == port;
    FirstOfAt(h, ':', |low|);
    assert (low + "_" + port)[|low|] == '_';
    assert '_' !in "index.docker.io" && '_' !in "registry-1.docker.io";
  }

  // A reference is cut after its host; a colon in the host is followed by a digit.
  lemma SplitsAt(host: string, repo: string)
    requires host != "" && '/' !in host && '@' !in host && host[0] != '[' && host[|host| - 1] != ':' && PlainRepo(repo)
    ensures var ref := host + "/" + repo;
            && ref != "" && !Contains(ref, "://") && !HasPrefix(ref, "[") && '@' !in ref
            && FirstOf(ref, '/') == |host| && ref[..|host|] == host && ref[|host| + 1..] == repo
            && !HasPrefix(repo, "/") && !HasSuffix(repo, "/")
  {
    var ref := host + "/" + repo;
    assert ref[..|host|] == host && ref[|host|] == '/' && ref[|host| + 1..] == repo;
    FirstOfAt(ref, '/', |host|);
    forall i | 0 <= i <= |ref| ensures !OccursAt(ref, "://", i) {
      if i + 3 <= |ref| {
        var three := ref[i..i + 3];
        assert three[0] == ref[i] && three[1] == ref[i + 1];
        assert i > |host| ==> ref[i] in repo;
      }
    }
  }

  // Two references share a place exactly when they agree on canonical host and repository.
  lemma SamePlaceIff(base: string, a: string, b: string)
    requires SplitRef(a).Some? && SplitRef(b).Some?
    ensures PathWithBase(base, a) == PathWithBase(base, b) <==> SplitRef(a) == SplitRef(b)
  {
    var x, y := SplitRef(a).value, SplitRef(b).value;
    HostHasNoSlash(a);
    HostHasNoSlash(b);
    var p, q := x.host + "/" + x.repo, y.host + "/" + y.repo;
    FirstSegmentOf(x.host, x.repo);
    FirstSegmentOf(y.host, y.repo);
    assert p[|x.host| + 1..] == x.repo && q[|y.host| + 1..] == y.repo;
    if base != "" && Under(base, p) == Under(base, q) {
      assert Under(base, p)[|base| + 1..] == p && Under(base, q)[|base| + 1..] == q;
    }
  }

  lemma HostHasNoSlash(ref: string)
    requires SplitRef(ref).Some?
    ensures '/' !in SplitRef(ref).value.host
  {
    var slash := FirstOf(ref, '/');
    LowerKeeps(ref[..slash], '/');
    FoldedHost(ToLower(ref[..slash]));
  }
}
