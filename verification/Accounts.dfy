/**
 The account store: accounts, and the short-lived cache of successful password checks that
 must answer like the password check itself.
 */
module Accounts {
  import opened Wrappers

  datatype Role = Admin | Operator | Viewer

  datatype Account = Account(name: string, role: Role, hash: string, lastLogin: int)

  // One cached success. The SHA-256 of a credential is represented by what is hashed.
  datatype Verified = Verified(sum: string, name: string, expires: int)

  datatype Outcome = Done | SaveFailed | Exists | NotFound | LastAdmin | Invalid

  const CacheCap := 1024
  const CacheTTL := 60_000_000_000

  function CredSum(name: string, password: string): string {
    name + "\0" + password
  }

  // The account a name designates: the first one in the table.
  function Find(accounts: seq<Account>, name: string): (i: nat)
    ensures i <= |accounts|
    ensures i < |accounts| ==> accounts[i].name == name
    ensures forall j | 0 <= j < i :: accounts[j].name != name
  {
    if accounts == [] || accounts[0].name == name then 0 else 1 + Find(accounts[1..], name)
  }

  lemma FindIs(accounts: seq<Account>, name: string, i: nat)
    requires i <= |accounts| && (i < |accounts| ==> accounts[i].name == name)
    requires forall j | 0 <= j < i :: accounts[j].name != name
    ensures Find(accounts, name) == i
  {
  }

  predicate Known(accounts: seq<Account>, name: string) {
    Find(accounts, name) < |accounts|
  }

  // The uncached check of a credential against the current table.
  predicate Authentic(check: (string, string) -> bool, accounts: seq<Account>, name: string, password: string) {
    var i := Find(accounts, name);
    i < |accounts| && check(password, accounts[i].hash)
  }

  predicate HasAdmin(accounts: seq<Account>) {
    exists i :: 0 <= i < |accounts| && accounts[i].role == Admin
  }

  // A cached success is one the check would grant right now.
  ghost predicate Sound(check: (string, string) -> bool, accounts: seq<Account>, e: Verified) {
    exists password :: e.sum == CredSum(e.name, password) && Authentic(check, accounts, e.name, password)
  }

  // A success of this credential is still remembered.
  predicate Fresh(verified: seq<Verified>, name: string, password: string, now: int) {
    exists e :: e in verified && now <= e.expires && e.sum == CredSum(name, password) && e.name == name
  }

  lemma SameNameSamePassword(name: string, a: string, b: string)
    requires CredSum(name, a) == CredSum(name, b)
    ensures a == b
  {
    assert CredSum(name, a)[|name| + 1..] == a;
    assert CredSum(name, b)[|name| + 1..] == b;
  }

  // Changing other accounts does not change what a name designates.
  lemma SoundAfter(check: (string, string) -> bool, before: seq<Account>, after: seq<Account>, e: Verified)
    requires Sound(check, before, e)
    requires Known(before, e.name) ==>
               Known(after, e.name) && after[Find(after, e.name)].hash == before[Find(before, e.name)].hash
    ensures Sound(check, after, e)
  {
    var password :| e.sum == CredSum(e.name, password) && Authentic(check, before, e.name, password);
    assert Authentic(check, after, e.name, password);
  }

  // Removing one account shifts the others without changing what their names designate.
  lemma FindAfterRemoval(accounts: seq<Account>, i: nat, name: string)
    requires i < |accounts| && accounts[i].name != name
    ensures var after := accounts[..i] + accounts[i + 1..];
            && (Known(accounts, name) <==> Known(after, name))
            && (Known(accounts, name) ==> after[Find(after, name)] == accounts[Find(accounts, name)])
  {
    var after := accounts[..i] + accounts[i + 1..];
    var k := Find(accounts, name);
    FindIs(after, name, if k <= i then k else k - 1);
  }

  lemma FindAfterUpdate(accounts: seq<Account>, i: nat, a: Account, name: string)
    requires i < |accounts| && a.name == accounts[i].name
    ensures Find(accounts[i := a], name) == Find(accounts, name)
  {
    FindIs(accounts[i := a], name, Find(accounts, name));
  }

  class Store {
    var accounts: seq<Account>
    var verified: seq<Verified>
    const check: (string, string) -> bool

    ghost predicate Valid()
      reads this
    {
      && |verified| <= CacheCap
      && forall e :: e in verified ==> Sound(check, accounts, e)
    }

    constructor (accounts: seq<Account>, check: (string, string) -> bool)
      ensures Valid() && this.accounts == accounts && this.check == check && verified == []
    {
      this.accounts := accounts;
      this.check := check;
      verified := [];
    }

    // The number of administrators other than `except`.
    method AdminsOtherThan(except: string) returns (n: nat)
      ensures n == 0 <==> forall i | 0 <= i < |accounts| :: accounts[i].role == Admin ==> accounts[i].name == except
    {
      n := 0;
      for i := 0 to |accounts|
        invariant n == 0 <==> forall j | 0 <= j < i :: accounts[j].role == Admin ==> accounts[j].name == except
      {
        if accounts[i].role == Admin && accounts[i].name != except {
          n := n + 1;
        }
      }
    }

    // Drop every cached verification of one name.
    method ForgetVerified(name: string)
      modifies this`verified
      ensures |verified| <= |old(verified)|
      ensures forall e :: e in verified <==> e in old(verified) && e.name != name
    {
      var live := [];
      for i := 0 to |verified|
        invariant |live| <= i && verified == old(verified)
        invariant forall e :: e in live <==> e in verified[..i] && e.name != name
      {
        if verified[i].name != name {
          live := live + [verified[i]];
        }
      }
      assert verified[..|verified|] == verified;
      verified := live;
    }

    // Record one success, after dropping expired entries and, when still full, all of them.
    method Remember(sum: string, name: string, now: int)
      requires |verified| <= CacheCap
      modifies this`verified
      ensures |verified| <= 1024
      ensures Verified(sum, name, now + CacheTTL) in verified
      ensures forall e :: e in verified ==>
                e == Verified(sum, name, now + CacheTTL) || (e in old(verified) && now <= e.expires)
      ensures |old(verified)| < 1024 ==>
                forall e :: e in old(verified) && now <= e.expires ==> e in verified
    {
      var live := [];
      for i := 0 to |verified|
        invariant |live| <= i && verified == old(verified)
        invariant forall e :: e in live <==> e in verified[..i] && now <= e.expires
      {
        if now <= verified[i].expires {
          live := live + [verified[i]];
        }
      }
      assert verified[..|verified|] == verified;
      if |live| >= CacheCap {
        live := [];
      }
      verified := live + [Verified(sum, name, now + CacheTTL)];
    }

    // Answer from the cache. An entry whose account vanished cannot be met.
    method Cached(sum: string, name: string, now: int) returns (hit: Option<Account>)
      requires Valid()
      ensures hit.Some? ==> Known(accounts, name) && hit.value == accounts[Find(accounts, name)]
      ensures hit.Some? ==> forall password :: sum == CredSum(name, password) ==>
                              Authentic(check, accounts, name, password)
      ensures hit.Some? <==> exists e :: e in verified && now <= e.expires && e.sum == sum && e.name == name
    {
      for i := 0 to |verified|
        invariant forall j | 0 <= j < i ::
                    verified[j].expires < now || verified[j].sum != sum || verified[j].name != name
      {
        var e := verified[i];
        if now > e.expires || e.sum != sum || e.name != name {
          continue;
        }
        assert Sound(check, accounts, e);
        forall password | sum == CredSum(name, password) ensures Authentic(check, accounts, name, password) {
          var known :| e.sum == CredSum(e.name, known) && Authentic(check, accounts, e.name, known);
          SameNameSamePassword(name, password, known);
        }
        var j := Find(accounts, name);
        if j < |accounts| {
          assert e in verified;
          return Some(accounts[j]);
        }
        assert false;
      }
      hit := None;
    }

    // The verdict is that of the uncached check, and a success carries the current account. The hash is
    // computed - for unknown names too - exactly unless a success is still remembered; a computed
    // success is remembered for a minute.
    method VerifyPassword(name: string, password: string, now: int) returns (acct: Option<Account>, computed: bool)
      requires Valid()
      modifies this
      ensures Valid()
      ensures acct.Some? <==> Authentic(check, old(accounts), name, password)
      ensures acct.Some? ==>
                var current := old(accounts)[Find(old(accounts), name)];
                acct.value.name == name && acct.value.role == current.role && acct.value.hash == current.hash
      ensures |accounts| == |old(accounts)|
      ensures forall i | 0 <= i < |accounts| :: accounts[i].(lastLogin := 0) == old(accounts)[i].(lastLogin := 0)
      ensures computed <==> !Fresh(old(verified), name, password, now)
      ensures !computed || acct.None? ==> accounts == old(accounts) && verified == old(verified)
      ensures computed && acct.Some? ==> acct.value.lastLogin == now && acct.value == accounts[Find(old(accounts), name)]
      ensures computed && acct.Some? ==> forall t | now <= t <= now + 60_000_000_000 :: Fresh(verified, name, password, t)
    {
      var sum := CredSum(name, password);
      acct := Cached(sum, name, now);
      computed := acct.None?;
      if acct.Some? {
        return;
      }
      var i := Find(accounts, name);
      if i == |accounts| || !check(password, accounts[i].hash) {
        return;
      }
      var logged := accounts[i].(lastLogin := now);
      RetouchKeepsSound(i, logged);
      accounts := accounts[i := logged];
      FindAfterUpdate(old(accounts), i, logged, name);
      assert Authentic(check, accounts, name, password);
      assert Sound(check, accounts, Verified(sum, name, now + CacheTTL));
      Remember(sum, name, now);
      acct := Some(accounts[i]);
    }

    lemma RetouchKeepsSound(i: nat, a: Account)
      requires i < |accounts| && a.name == accounts[i].name && a.hash == accounts[i].hash
      ensures forall e :: Sound(check, accounts, e) ==> Sound(check, accounts[i := a], e)
    {
      forall e | Sound(check, accounts, e) ensures Sound(check, accounts[i := a], e) {
        FindAfterUpdate(accounts, i, a, e.name);
        SoundAfter(check, accounts, accounts[i := a], e);
      }
    }

    // `hashed` is what hashing the password produced, None when hashing failed.
    method AddAccount(name: string, role: Role, hashed: Option<string>, now: int, saved: bool) returns (r: Outcome)
      requires Valid()
      modifies this`accounts
      ensures Valid() && (HasAdmin(old(accounts)) ==> HasAdmin(accounts))
      ensures r.Invalid? <==> name == "" || hashed.None?
      ensures r.Exists? <==> name != "" && hashed.Some? && Known(old(accounts), name)
      ensures r.Invalid? || r.Exists? || r == if saved then Done else SaveFailed
      ensures r.Done? || r.SaveFailed? ==>
                && hashed.Some? && !Known(old(accounts), name)
                && accounts == old(accounts) + [Account(name, role, hashed.value, 0)]
      ensures !r.Done? && !r.SaveFailed? ==> accounts == old(accounts)
    {
      if name == "" || hashed.None? {
        return Invalid;
      }
      if Find(accounts, name) < |accounts| {
        return Exists;
      }
      ghost var before := accounts;
      accounts := accounts + [Account(name, role, hashed.value, 0)];
      forall e | e in verified ensures Sound(check, accounts, e) {
        var k := Find(before, e.name);
        if k < |before| {
          FindIs(accounts, e.name, k);
        }
        SoundAfter(check, before, accounts, e);
      }
      if HasAdmin(before) {
        var i :| 0 <= i < |before| && before[i].role == Admin;
        assert accounts[i].role == Admin;
      }
      r := if saved then Done else SaveFailed;
    }

    method DeleteAccount(name: string, saved: bool) returns (r: Outcome)
      requires Valid()
      modifies this
      ensures Valid() && (HasAdmin(old(accounts)) ==> HasAdmin(accounts))
      ensures r.LastAdmin? <==>
                var i := Find(old(accounts), name);
                && i < |old(accounts)| && old(accounts)[i].role == Admin
                && forall k | 0 <= k < |old(accounts)| ::
                     old(accounts)[k].role == Admin ==> old(accounts)[k].name == name
      ensures r.NotFound? <==> !Known(old(accounts), name)
      ensures r.NotFound? || r.LastAdmin? || r == if saved then Done else SaveFailed
      ensures r.Done? || r.SaveFailed? ==>
                var i := Find(old(accounts), name);
                && i < |old(accounts)| && accounts == old(accounts)[..i] + old(accounts)[i + 1..]
                && forall e :: e in verified <==> e in old(verified) && e.name != name
      ensures !r.Done? && !r.SaveFailed? ==> accounts == old(accounts) && verified == old(verified)
    {
      var i := Find(accounts, name);
      if i == |accounts| {
        return NotFound;
      }
      var others := AdminsOtherThan(name);
      if accounts[i].role == Admin && others == 0 {
        return LastAdmin;
      }
      ghost var before := accounts;
      accounts := accounts[..i] + accounts[i + 1..];
      ForgetVerified(name);
      forall e | e in verified ensures Sound(check, accounts, e) {
        FindAfterRemoval(before, i, e.name);
        SoundAfter(check, before, accounts, e);
      }
      if HasAdmin(before) {
        var k :| 0 <= k < |before| && before[k].role == Admin && k != i;
        assert accounts[if k < i then k else k - 1] == before[k];
      }
      r := if saved then Done else SaveFailed;
    }

    method SetRole(name: string, role: Role, saved: bool) returns (r: Outcome)
      requires Valid()
      modifies this`accounts
      ensures Valid() && (HasAdmin(old(accounts)) ==> HasAdmin(accounts))
      ensures r.LastAdmin? <==>
                var i := Find(old(accounts), name);
                && i < |old(accounts)| && old(accounts)[i].role == Admin && role != Admin
                && forall k | 0 <= k < |old(accounts)| ::
                     old(accounts)[k].role == Admin ==> old(accounts)[k].name == name
      ensures r.NotFound? <==> !Known(old(accounts), name)
      ensures r.NotFound? || r.LastAdmin? || r == if saved || old(accounts)[Find(old(accounts), name)].role == role then Done else SaveFailed
      ensures r.Done? || r.SaveFailed? ==>
                var i := Find(old(accounts), name);
                i < |old(accounts)| && accounts == old(accounts)[i := old(accounts)[i].(role := role)]
      ensures !r.Done? && !r.SaveFailed? ==> accounts == old(accounts)
    {
      var i := Find(accounts, name);
      if i == |accounts| {
        return NotFound;
      }
      if accounts[i].role == role {
        assert accounts == accounts[i := accounts[i].(role := role)];
        return Done;
      }
      var others := AdminsOtherThan(name);
      if accounts[i].role == Admin && others == 0 {
        return LastAdmin;
      }
      ghost var before := accounts;
      var changed := accounts[i].(role := role);
      RetouchKeepsSound(i, changed);
      accounts := accounts[i := changed];
      if HasAdmin(before) {
        var k :| 0 <= k < |before| && before[k].role == Admin && k != i;
        assert accounts[k] == before[k];
      }
      r := if saved then Done else SaveFailed;
    }

    // The replaced password stops verifying at once.
    method SetPassword(name: string, hashed: Option<string>, saved: bool) returns (r: Outcome)
      requires Valid()
      modifies this
      ensures Valid() && (HasAdmin(old(accounts)) ==> HasAdmin(accounts))
      ensures r.NotFound? <==> hashed.Some? && !Known(old(accounts), name)
      ensures r.Invalid? <==> hashed.None?
      ensures r.NotFound? || r.Invalid? || r == if saved then Done else SaveFailed
      ensures r.Done? || r.SaveFailed? ==>
                var i := Find(old(accounts), name);
                && i < |old(accounts)| && hashed.Some?
                && accounts == old(accounts)[i := old(accounts)[i].(hash := hashed.value)]
                && forall e :: e in verified <==> e in old(verified) && e.name != name
      ensures !r.Done? && !r.SaveFailed? ==> accounts == old(accounts) && verified == old(verified)
    {
      if hashed.None? {
        return Invalid;
      }
      var i := Find(accounts, name);
      if i == |accounts| {
        return NotFound;
      }
      ghost var before := accounts;
      var changed := accounts[i].(hash := hashed.value);
      accounts := accounts[i := changed];
      ForgetVerified(name);
      forall e | e in verified ensures Sound(check, accounts, e) {
        FindAfterUpdate(before, i, changed, e.name);
        SoundAfter(check, before, accounts, e);
      }
      if HasAdmin(before) {
        var k :| 0 <= k < |before| && before[k].role == Admin;
        assert accounts[k].role == Admin;
      }
      r := if saved then Done else SaveFailed;
    }
  }
}
