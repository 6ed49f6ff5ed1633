/**
  The daemon's actions on its configuration and its OAuth tables, on the mutable
  objects; each is proved to be the step that `RegistryChange` describes. The
  file is what `Save` writes and what `Reload` is given, decoded.
 */
module Daemon {
  import opened GoText
  import opened Expand
  import opened Config
  import opened OAuthStore
  import opened RegistryChange
  import CredentialBinding
  import R = Registry

  method ResolveUrl(server: MCPServer, env: Environment) returns (url: Text)
    ensures url == ResolvedUrl(server, env)
  {
    var expansion := ExpandEnvStrict(server.url, env);
    return expansion.text;
  }

  /** Save validates, and loads what it has written; a valid configuration in normal form passes both. */
  method Save(candidate: Config, env: Environment) returns (ok: bool)
    requires IsNormal(candidate.View())
    ensures ok <==> IsValid(candidate.View(), env)
  {
    ok := candidate.Validate(env);
    if !ok {
      return false;
    }
    NormalReloadsAsItself(candidate.View());
    var written := candidate.Clone();
    ok := written.Normalize(env);
  }

  /** The endpoints of the next configuration, by name. */
  method NextUrls(servers: seq<MCPServer>, env: Environment) returns (urls: map<Text, Text>)
    requires ServersAreApart(servers)
    ensures forall n :: n in urls <==> IsConfigured(servers, n)
    ensures forall n :: n in urls ==> UrlOf(servers, n, env) == Some(urls[n])
  {
    urls := map[];
    for i := 0 to |servers|
      invariant forall k :: 0 <= k < i ==> servers[k].name in urls && urls[servers[k].name] == ResolvedUrl(servers[k], env)
      invariant forall n :: n in urls ==> exists k :: 0 <= k < i && servers[k].name == n
    {
      var url := ResolveUrl(servers[i], env);
      NamesAreUnique(servers, i);
      urls := urls[servers[i].name := url];
    }
    forall n | n in urls
      ensures IsConfigured(servers, n) && UrlOf(servers, n, env) == Some(urls[n])
    {
      var k :| 0 <= k < |servers| && servers[k].name == n;
      NameIsPosition(servers, k);
    }
  }

  method ForgetRepointedOAuthState(store: Store, previous: seq<MCPServer>, next: seq<MCPServer>, env: Environment)
    requires ServersAreApart(next)
    modifies store
    ensures store.View() == ForgetRepointed(old(store.View()), previous, next, env)
  {
    var nextUrl := NextUrls(next, env);
    for i := 0 to |previous|
      invariant ForgetRepointed(store.View(), previous[i..], next, env) == ForgetRepointed(old(store.View()), previous, next, env)
    {
      assert previous[i..][0] == previous[i] && previous[i..][1..] == previous[i + 1..];
      var server := previous[i];
      var url := ResolveUrl(server, env);
      assert UrlOf(next, server.name, env).Some? == (server.name in nextUrl);
      if server.name !in nextUrl || nextUrl[server.name] == url {
        continue;
      }
      store.ForgetServer(server, env);
    }
  }

  class Server {
    var cfg: Config
    const store: Store
    const registry: R.Registry

    function View(): State
      reads this, cfg, store
    {
      State(cfg.View(), store.View())
    }

    constructor (c: Settings, rows: Rows, backoff: seq<int>)
      ensures fresh(cfg) && fresh(store) && fresh(registry)
      ensures View() == State(c, rows) && registry.View() == R.Start(c, backoff)
    {
      var config := new Config(c);
      var tables := new Store(rows);
      var servers := new R.Registry(c, backoff);
      cfg, store, registry := config, tables, servers;
    }

    method AddServer(item: MCPServer, id: Text, secret: Text, env: Environment) returns (changed: bool)
      requires WellFormed(cfg.View(), env) && cfg.allowRegistryWrites
      modifies this, store
      ensures changed <==> Outcome(old(View()), Action.AddServer(item, id, secret), env).Some?
      ensures View() == Next(old(View()), Action.AddServer(item, id, secret), env)
      ensures !changed ==> cfg == old(cfg)
    {
      if item.name == "" {
        return false;
      }
      var previous := FindServer(cfg.servers, item.name);
      var candidate := cfg.Clone();
      changed := candidate.UpsertServer(item, env);
      if !changed {
        return;
      }
      UpsertKeepsNormalForm(cfg.View(), item, env);
      changed := Save(candidate, env);  // accepts what the upsert has accepted
      var url := ResolveUrl(item, env);
      if previous.Some? {
        var before := ResolveUrl(previous.value, env);
        if before != url {
          store.ForgetServer(previous.value, env);
        }
      }
      if id != "" {
        store.SaveOAuthClient(item.name, Client(id, secret, url));
      }
      cfg := candidate;
    }

    method RemoveServer(name: Text, env: Environment) returns (changed: bool)
      requires WellFormed(cfg.View(), env) && cfg.allowRegistryWrites
      modifies this, store
      ensures changed <==> Outcome(old(View()), Action.RemoveServer(name), env).Some?
      ensures View() == Next(old(View()), Action.RemoveServer(name), env)
      ensures !changed ==> cfg == old(cfg)
    {
      if name == "" {
        return false;
      }
      var removed := FindServer(cfg.servers, name);
      var candidate := cfg.Clone();
      changed := candidate.RemoveServer(name);
      ConfiguredIff(cfg.servers, name);
      if !changed {
        return;
      }
      RemoveKeepsValidity(cfg.View(), name, env);
      changed := Save(candidate, env);  // a removal cannot make it invalid
      if removed.Some? {
        store.ForgetServer(removed.value, env);
      }
      cfg := candidate;
    }

    method SetAuth(name: Text, headers: map<Text, Text>, id: Text, secret: Text, env: Environment) returns (changed: bool)
      requires WellFormed(cfg.View(), env) && cfg.allowRegistryWrites
      modifies this, store
      ensures changed <==> Outcome(old(View()), Action.SetAuth(name, headers, id, secret), env).Some?
      ensures View() == Next(old(View()), Action.SetAuth(name, headers, id, secret), env)
      ensures !changed ==> cfg == old(cfg)
    {
      if name == "" {
        return false;
      }
      var candidate := cfg.Clone();
      var updated := MergeHeaders(candidate, name, headers);
      if !updated {
        return false;
      }
      CredentialBinding.HeadersKeepNormalForm(cfg.View(), name, headers);
      changed := Save(candidate, env);
      if !changed {
        return;
      }
      var p := Position(cfg.servers, name);
      var url := ResolveUrl(cfg.servers[p], env);
      if id != "" {
        store.SaveOAuthClient(name, Client(id, secret, url));
      }
      cfg := candidate;
    }

    method Reload(decoded: Settings, env: Environment) returns (changed: bool)
      requires WellFormed(cfg.View(), env)
      modifies this, store
      ensures changed <==> Outcome(old(View()), Action.Reload(decoded), env).Some?
      ensures View() == Next(old(View()), Action.Reload(decoded), env)
      ensures !changed ==> cfg == old(cfg)
    {
      var next := new Config(decoded);
      changed := next.Normalize(env);
      if !changed {
        return;
      }
      ForgetRepointedOAuthState(store, cfg.servers, next.servers, env);
      cfg := next;
    }

    /** Registry writes are gated; an error leaves everything as it was. */
    method ChangeConfig(request: Action, env: Environment) returns (changed: bool)
      requires WellFormed(cfg.View(), env) && !request.Login? && !request.Logout?
      modifies this, store
      ensures changed <==> Outcome(old(View()), request, env).Some?
      ensures View() == Next(old(View()), request, env)
      ensures !changed ==> cfg == old(cfg)
    {
      if !request.Reload? && !cfg.allowRegistryWrites {
        return false;
      }
      match request
      case AddServer(item, id, secret) => changed := AddServer(item, id, secret, env);
      case RemoveServer(name) => changed := RemoveServer(name, env);
      case SetAuth(name, headers, id, secret) => changed := SetAuth(name, headers, id, secret, env);
      case Reload(decoded) => changed := Reload(decoded, env);
    }

    /** applyRegistryChange: the registry follows the configuration. */
    method ApplyRegistryChange(request: Action, env: Environment) returns (changed: bool)
      requires WellFormed(cfg.View(), env) && !request.Login? && !request.Logout?
      modifies this, store, registry
      ensures changed <==> Outcome(old(View()), request, env).Some?
      ensures View() == Next(old(View()), request, env)
      ensures WellFormed(cfg.View(), env)
      ensures registry.View() == if changed then R.Updated(old(registry.View()), cfg.View()) else old(registry.View())
    {
      CredentialBinding.StepKeepsConfig(View(), request, env);
      changed := ChangeConfig(request, env);
      if changed {
        registry.UpdateConfig(cfg.View());
      }
    }

    method Logout(key: Text, full: bool, env: Environment) returns (ok: bool)
      modifies store
      ensures ok <==> Outcome(old(View()), Action.Logout(key, full), env).Some?
      ensures View() == Next(old(View()), Action.Logout(key, full), env)
    {
      if key == "" {
        return false;
      }
      var server := FindServer(cfg.servers, key);
      if server.None? {
        return false;
      }
      var url := ResolveUrl(server.value, env);
      var keys := [Bound(server.value.name, url), Legacy(server.value.name)];
      store.DeleteTokens(keys);
      assert (set k | k in keys) == {TokenKey(server.value, env), Legacy(server.value.name)};
      if full {
        store.DeleteOAuthClient(server.value.name);
      }
      return true;
    }

    /** What using OAuth at a server stores: `token` and `id` are what the exchange brought, if anything. */
    method Login(key: Text, token: Option<Text>, id: Text, secret: Text, env: Environment) returns (ok: bool)
      modifies store
      ensures ok <==> Outcome(old(View()), Action.Login(key, token, id, secret), env).Some?
      ensures View() == Next(old(View()), Action.Login(key, token, id, secret), env)
    {
      var found := FindServer(cfg.servers, key);
      if found.None? || found.value.transport == "stdio" {
        return false;
      }
      var server := found.value;
      var url := ResolveUrl(server, env);
      var moved := store.AdoptToken(Legacy(server.name), Bound(server.name, url));
      if token.Some? {
        store.SaveToken(Bound(server.name, url), OAuthStore.Token(token.value, url));
      }
      if id != "" {
        store.SaveOAuthClient(server.name, Client(id, secret, url));
      }
      return true;
    }
  }

  /** The loop of set_auth: the headers of the first server of that name. */
  method MergeHeaders(candidate: Config, name: Text, headers: map<Text, Text>) returns (updated: bool)
    modifies candidate`servers
    ensures updated <==> IsConfigured(old(candidate.servers), name)
    ensures candidate.View() == WithHeaders(old(candidate.View()), name, headers)
  {
    for i := 0 to |candidate.servers|
      invariant candidate.servers == old(candidate.servers)
      invariant forall k :: 0 <= k < i ==> candidate.servers[k].name != name
    {
      if candidate.servers[i].name == name {
        candidate.servers := candidate.servers[i := candidate.servers[i].(headers := candidate.servers[i].headers + headers)];
        return true;
      }
    }
    return false;
  }
}
