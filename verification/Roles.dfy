/** Mapping of OAuth roles to PostgreSQL service accounts (internal/auth/roles.go). */
module Roles {
  import opened Options
  import opened Strings

  datatype ServiceAccount = ServiceAccount(username: string, password: string, role: string)

  type Accounts = map<string, ServiceAccount>

  const PREFIX := "ROLE_MAPPING_"

  function TrimPrefix(s: string, prefix: string): string {
    if prefix <= s then s[|prefix|..] else s
  }

  /** What loadFromEnvironment makes of one environment variable, if it is a valid mapping: the key is
      lowercased but not trimmed, the credentials are trimmed. */
  function ParseEntry(env: string): Option<ServiceAccount> {
    if !(PREFIX <= env) then None
    else match SplitAt(env, '=')
      case None => None
      case Some((name, value)) =>
        match SplitAt(value, ':')
        case None => None
        case Some((user, pass)) =>
          var username, password := TrimSpace(user), TrimSpace(pass);
          if username == "" || password == "" then None
          else Some(ServiceAccount(username, password, ToLower(TrimPrefix(name, PREFIX))))
  }

  predicate Defines(env: string, role: string) {
    ParseEntry(env).Some? && ParseEntry(env).value.role == role
  }

  /** `account` is the entry for the role among the first `n` variables: the last valid one wins. */
  predicate LastDefinition(envs: seq<string>, n: nat, role: string, account: ServiceAccount)
    requires n <= |envs|
  {
    exists i :: 0 <= i < n && ParseEntry(envs[i]) == Some(account) && account.role == role
                && forall j :: i < j < n ==> !Defines(envs[j], role)
  }

  predicate Undefined(envs: seq<string>, n: nat, role: string)
    requires n <= |envs|
  {
    forall i :: 0 <= i < n ==> !Defines(envs[i], role)
  }

  /** The map holds exactly the last valid entry of every role. */
  ghost predicate LoadedFrom(accounts: Accounts, envs: seq<string>, n: nat)
    requires n <= |envs|
  {
    forall role ::
      if role in accounts then LastDefinition(envs, n, role, accounts[role]) else Undefined(envs, n, role)
  }

  /** How a role claimed in a token is looked up. */
  function Normalize(role: string): string {
    ToLower(TrimSpace(role))
  }

  /** A role is looked up in lower case, without the white space around it. */
  lemma NormalizeIs(lead: string, role: string, trail: string)
    requires role != [] && TrimmedTo(lead + role + trail, lead, role, trail)
    ensures Normalize(lead + role + trail) == ToLower(role)
  {
    TrimSpaceOf(lead, role, trail);
  }

  /** The first role of the list that is mapped, and else the default. */
  predicate MapsTo(accounts: Accounts, defaultRole: string, roles: seq<string>, account: Option<ServiceAccount>) {
    if exists i :: 0 <= i < |roles| && Normalize(roles[i]) in accounts then
      exists i :: 0 <= i < |roles| && Normalize(roles[i]) in accounts && account == Some(accounts[Normalize(roles[i])])
                  && forall j :: 0 <= j < i ==> Normalize(roles[j]) !in accounts
    else
      account == if defaultRole != "" && defaultRole in accounts then Some(accounts[defaultRole]) else None
  }

  lemma MapsToOneAccount(accounts: Accounts, defaultRole: string, roles: seq<string>, a: Option<ServiceAccount>,
                         b: Option<ServiceAccount>)
    requires MapsTo(accounts, defaultRole, roles, a) && MapsTo(accounts, defaultRole, roles, b)
    ensures a == b
  {
    if i :| 0 <= i < |roles| && Normalize(roles[i]) in accounts && a == Some(accounts[Normalize(roles[i])])
            && forall j :: 0 <= j < i ==> Normalize(roles[j]) !in accounts
    {
      var k :| 0 <= k < |roles| && Normalize(roles[k]) in accounts && b == Some(accounts[Normalize(roles[k])])
               && forall j :: 0 <= j < k ==> Normalize(roles[j]) !in accounts;
      assert i == k;
    }
  }

  /** A variable written as documented means what it says: everything up to the first '=' names the
      role and everything up to the first ':' is the user, so a password may contain either. */
  lemma EntryRoundTrip(role: string, user: string, pass: string)
    requires '=' !in role && ':' !in user
    ensures ParseEntry(PREFIX + role + "=" + user + ":" + pass) ==
      if TrimSpace(user) == "" || TrimSpace(pass) == "" then None
      else Some(ServiceAccount(TrimSpace(user), TrimSpace(pass), ToLower(role)))
  {
    var env := PREFIX + role + "=" + user + ":" + pass;
    var name, value := PREFIX + role, user + ":" + pass;
    assert env == name + ['='] + value;
    assert '=' !in name by { assert forall i :: 0 <= i < |PREFIX| ==> PREFIX[i] != '='; }
    SplitJoined(name, '=', value);
    SplitJoined(user, ':', pass);
    assert value == user + [':'] + pass;
    assert name[|PREFIX|..] == role;
  }

  /** A variable that says which account a role has: neither of its credentials is blank. */
  predicate IsMapping(env: string, role: string, user: string, pass: string) {
    && '=' !in role && ':' !in user && !AllWhite(user) && !AllWhite(pass)
    && env == "ROLE_MAPPING_" + role + "=" + user + ":" + pass
  }

  function AccountOf(role: string, user: string, pass: string): ServiceAccount {
    ServiceAccount(TrimSpace(user), TrimSpace(pass), ToLower(role))
  }

  /** These variables are read, as what they say, and no others. */
  lemma ParseEntryIs(env: string)
    ensures ParseEntry(env).Some? <==> exists role, user, pass :: IsMapping(env, role, user, pass)
    ensures forall role, user, pass :: IsMapping(env, role, user, pass) ==>
      ParseEntry(env) == Some(AccountOf(role, user, pass))
  {
    forall role, user, pass | IsMapping(env, role, user, pass)
      ensures ParseEntry(env) == Some(AccountOf(role, user, pass))
    {
      EntryRoundTrip(role, user, pass);
      TrimSpaceIs(user);
      TrimSpaceIs(pass);
    }
    if ParseEntry(env).Some? {
      var role, user, pass := PartsOfEntry(env);
      assert IsMapping(env, role, user, pass);
    }
  }

  lemma PartsOfEntry(env: string) returns (role: string, user: string, pass: string)
    requires ParseEntry(env).Some?
    ensures IsMapping(env, role, user, pass)
  {
    SplitAtFirst(env, '=');
    var (name, value) := SplitAt(env, '=').value;
    SplitAtFirst(value, ':');
    user, pass := SplitAt(value, ':').value.0, SplitAt(value, ':').value.1;
    PrefixOfName(env, name, value);
    role := name[|PREFIX|..];
    EntryOfParts(env, name, value, role, user, pass);
    TrimSpaceIs(user);
    TrimSpaceIs(pass);
  }

  lemma EntryOfParts(env: string, name: string, value: string, role: string, user: string, pass: string)
    requires env == name + ['='] + value && value == user + [':'] + pass && name == PREFIX + role
    ensures env == PREFIX + role + "=" + user + ":" + pass
  {
  }

  /** A prefix without the separator is a prefix of what stands before it. */
  lemma PrefixOfName(env: string, name: string, value: string)
    requires PREFIX <= env == name + ['='] + value
    ensures PREFIX <= name && name == PREFIX + name[|PREFIX|..]
  {
    assert forall i :: 0 <= i < |PREFIX| ==> PREFIX[i] != '=';
    assert forall i :: 0 <= i < |PREFIX| ==> env[i] == PREFIX[i];
    assert env[|name|] == '=';
  }

  /** The map has a role exactly if some variable maps it, in whatever case, and then the account of the last
      one that does. */
  ghost predicate LoadedExactly(accounts: Accounts, envs: seq<string>) {
    && (forall i, role, user, pass :: 0 <= i < |envs| && IsMapping(envs[i], role, user, pass) ==>
         ToLower(role) in accounts)
    && (forall key :: key in accounts ==> exists i, role, user, pass ::
          && 0 <= i < |envs| && IsMapping(envs[i], role, user, pass)
          && ToLower(role) == key && accounts[key] == AccountOf(role, user, pass)
          && forall j, r, u, p :: i < j < |envs| && IsMapping(envs[j], r, u, p) ==> ToLower(r) != key)
  }

  lemma LoadedIsExact(accounts: Accounts, envs: seq<string>)
    requires LoadedFrom(accounts, envs, |envs|)
    ensures LoadedExactly(accounts, envs)
  {
    forall i, role, user, pass | 0 <= i < |envs| && IsMapping(envs[i], role, user, pass)
      ensures ToLower(role) in accounts
    {
      ParseEntryIs(envs[i]);
      assert Defines(envs[i], ToLower(role));
    }
    forall key | key in accounts ensures exists i, role, user, pass ::
      && 0 <= i < |envs| && IsMapping(envs[i], role, user, pass)
      && ToLower(role) == key && accounts[key] == AccountOf(role, user, pass)
      && forall j, r, u, p :: i < j < |envs| && IsMapping(envs[j], r, u, p) ==> ToLower(r) != key
    {
      LastIsExact(envs, key, accounts[key]);
    }
  }

  lemma LastIsExact(envs: seq<string>, key: string, account: ServiceAccount)
    requires LastDefinition(envs, |envs|, key, account)
    ensures exists i, role, user, pass ::
      && 0 <= i < |envs| && IsMapping(envs[i], role, user, pass)
      && ToLower(role) == key && account == AccountOf(role, user, pass)
      && forall j, r, u, p :: i < j < |envs| && IsMapping(envs[j], r, u, p) ==> ToLower(r) != key
  {
    var i :| 0 <= i < |envs| && ParseEntry(envs[i]) == Some(account) && account.role == key
             && forall j :: i < j < |envs| ==> !Defines(envs[j], key);
    var role, user, pass := PartsOfEntry(envs[i]);
    ParseEntryIs(envs[i]);
    forall j, r, u, p | i < j < |envs| && IsMapping(envs[j], r, u, p) ensures ToLower(r) != key {
      ParseEntryIs(envs[j]);
      assert !Defines(envs[j], key);
    }
    assert IsMapping(envs[i], role, user, pass) && account == AccountOf(role, user, pass);
  }

  /** Every key ever loaded or added is in lower case. */
  predicate LowerKeys(accounts: Accounts) {
    forall role :: role in accounts ==> ToLower(role) == role
  }

  lemma LoadedKeysAreLower(accounts: Accounts, envs: seq<string>)
    requires LoadedFrom(accounts, envs, |envs|)
    ensures LowerKeys(accounts)
  {
    forall role | role in accounts ensures ToLower(role) == role {
      assert LastDefinition(envs, |envs|, role, accounts[role]);
      var i :| 0 <= i < |envs| && ParseEntry(envs[i]) == Some(accounts[role]) && accounts[role].role == role;
      var (name, _) := SplitAt(envs[i], '=').value;
      LowerKeepsTrimmed(TrimPrefix(name, PREFIX));
    }
  }

  /** A mapped key can be claimed by some token exactly when it has no white space at its ends: keys
      are loaded untrimmed and looked up trimmed. */
  lemma ReachableExactlyIfTrimmed(accounts: Accounts, key: string)
    requires LowerKeys(accounts) && key in accounts
    ensures (exists role :: Normalize(role) == key) <==> Trimmed(key)
  {
    if Trimmed(key) {
      TrimSpaceTrims(key);
      assert Normalize(key) == key;
    }
    forall role ensures Trimmed(Normalize(role)) {
      TrimSpaceTrims(role);
      LowerKeepsTrimmed(TrimSpace(role));
    }
  }

  /** A default role written with a capital letter is never found, whatever is mapped. */
  lemma DefaultUsableOnlyInLowerCase(accounts: Accounts, defaultRole: string, account: Option<ServiceAccount>)
    requires LowerKeys(accounts) && MapsTo(accounts, defaultRole, [], account) && account.Some?
    ensures ToLower(defaultRole) == defaultRole
  {
  }

  function WithEntry(accounts: Accounts, entry: Option<ServiceAccount>): Accounts {
    if entry.Some? then accounts[entry.value.role := entry.value] else accounts
  }

  lemma LoadedOn(accounts: Accounts, envs: seq<string>, n: nat)
    requires n < |envs| && LoadedFrom(accounts, envs, n)
    ensures LoadedFrom(WithEntry(accounts, ParseEntry(envs[n])), envs, n + 1)
  {
    var accounts' := WithEntry(accounts, ParseEntry(envs[n]));
    forall role
      ensures if role in accounts' then LastDefinition(envs, n + 1, role, accounts'[role])
              else Undefined(envs, n + 1, role)
    {
      RoleLoadedOn(accounts, envs, n, role);
    }
  }

  lemma RoleLoadedOn(accounts: Accounts, envs: seq<string>, n: nat, role: string)
    requires n < |envs|
    requires if role in accounts then LastDefinition(envs, n, role, accounts[role]) else Undefined(envs, n, role)
    ensures var accounts' := WithEntry(accounts, ParseEntry(envs[n]));
      if role in accounts' then LastDefinition(envs, n + 1, role, accounts'[role]) else Undefined(envs, n + 1, role)
  {
    var accounts' := WithEntry(accounts, ParseEntry(envs[n]));
    if Defines(envs[n], role) {
      assert ParseEntry(envs[n]) == Some(accounts'[role]);
    } else if role in accounts {
      StillLastDefinition(envs, n, role, accounts[role]);
    }
  }

  lemma StillLastDefinition(envs: seq<string>, n: nat, role: string, account: ServiceAccount)
    requires n < |envs| && LastDefinition(envs, n, role, account) && !Defines(envs[n], role)
    ensures LastDefinition(envs, n + 1, role, account)
  {
    var i :| 0 <= i < n && ParseEntry(envs[i]) == Some(account) && account.role == role
             && forall j :: i < j < n ==> !Defines(envs[j], role);
    forall j | i < j < n + 1 ensures !Defines(envs[j], role) {
    }
    assert ParseEntry(envs[i]) == Some(account);
  }

  class RoleMapper {
    var roleToAccount: Accounts
    const defaultRole: string

    constructor (defaultRole: string)
      ensures roleToAccount == map[] && this.defaultRole == defaultRole
    {
      roleToAccount := map[];
      this.defaultRole := defaultRole;
    }

    method LoadFromEnvironment(envs: seq<string>) returns (ok: bool)
      requires roleToAccount == map[]
      modifies this
      ensures LoadedFrom(roleToAccount, envs, |envs|) && LoadedExactly(roleToAccount, envs)
      ensures ok <==> roleToAccount != map[]
    {
      var loaded := 0;
      for n := 0 to |envs|
        invariant LoadedFrom(roleToAccount, envs, n)
        invariant loaded == 0 <==> roleToAccount == map[]
        invariant loaded >= 0
      {
        var entry := ParseEntry(envs[n]);
        LoadedOn(roleToAccount, envs, n);
        if entry.Some? {
          roleToAccount := roleToAccount[entry.value.role := entry.value];
          assert entry.value.role in roleToAccount;
          loaded := loaded + 1;
        }
      }
      LoadedIsExact(roleToAccount, envs);
      ok := loaded != 0;
    }

    method MapRoleToServiceAccount(roles: seq<string>) returns (account: Option<ServiceAccount>)
      ensures MapsTo(roleToAccount, defaultRole, roles, account)
    {
      if |roles| == 0 {
        account := HandleNoRoles();
        return;
      }
      for i := 0 to |roles|
        invariant forall j :: 0 <= j < i ==> Normalize(roles[j]) !in roleToAccount
      {
        var normalized := Normalize(roles[i]);
        if normalized in roleToAccount {
          return Some(roleToAccount[normalized]);
        }
      }
      account := HandleNoRoles();
    }

    method HandleNoRoles() returns (account: Option<ServiceAccount>)
      ensures account.Some? <==> defaultRole != "" && defaultRole in roleToAccount
      ensures account.Some? ==> account.value == roleToAccount[defaultRole]
    {
      if defaultRole == "" || defaultRole !in roleToAccount {
        return None;
      }
      account := Some(roleToAccount[defaultRole]);
    }

    method AddRoleMapping(role: string, username: string, password: string)
      requires LowerKeys(roleToAccount)
      modifies this
      ensures roleToAccount ==
        old(roleToAccount)[Normalize(role) := ServiceAccount(username, password, Normalize(role))]
      ensures LowerKeys(roleToAccount)
      ensures forall d :: MapsTo(roleToAccount, d, [role], Some(ServiceAccount(username, password, Normalize(role))))
    {
      LowerKeepsTrimmed(TrimSpace(role));
      roleToAccount := roleToAccount[Normalize(role) := ServiceAccount(username, password, Normalize(role))];
      assert [role][0] == role;
    }
  }
}
