/** Stored credentials stay with the endpoint they were obtained for: one step, and whole runs. */
module CredentialBinding {
  import opened GoText
  import opened Expand
  import opened Config
  import opened OAuthStore
  import opened RegistryChange

  // ------------------------------------------------------------- what is forgotten

  predicate Owns(server: MCPServer, key: Key, env: Environment) {
    (key == Legacy(server.name) || key == TokenKey(server, env)) && key != EMPTY_KEY
  }

  lemma ForgetDropsOwn(rows: Rows, server: MCPServer, env: Environment)
    ensures
      var left := Forget(rows, server, env);
      && (forall n :: n in left.clients <==> n in rows.clients && n != server.name)
      && (forall n :: n in left.clients ==> left.clients[n] == rows.clients[n])
      && (forall k :: k in left.tokens <==> k in rows.tokens && !Owns(server, k, env))
      && (forall k :: k in left.tokens ==> left.tokens[k] == rows.tokens[k])
  {
  }

  ghost predicate IsDropped(previous: seq<MCPServer>, next: seq<MCPServer>, n: Text, env: Environment) {
    exists i :: 0 <= i < |previous| && previous[i].name == n && IsRepointed(previous[i], next, env)
  }

  ghost predicate IsDroppedKey(previous: seq<MCPServer>, next: seq<MCPServer>, k: Key, env: Environment) {
    exists i :: 0 <= i < |previous| && Owns(previous[i], k, env) && IsRepointed(previous[i], next, env)
  }

  lemma DroppedAtHead(previous: seq<MCPServer>, next: seq<MCPServer>, n: Text, env: Environment)
    requires previous != []
    ensures IsDropped(previous, next, n, env) <==>
              (previous[0].name == n && IsRepointed(previous[0], next, env)) || IsDropped(previous[1..], next, n, env)
  {
    assert forall i :: 1 <= i < |previous| ==> previous[i] == previous[1..][i - 1];
    assert forall i :: 0 <= i < |previous| - 1 ==> previous[1..][i] == previous[i + 1];
  }

  lemma DroppedKeyAtHead(previous: seq<MCPServer>, next: seq<MCPServer>, k: Key, env: Environment)
    requires previous != []
    ensures IsDroppedKey(previous, next, k, env) <==>
              (Owns(previous[0], k, env) && IsRepointed(previous[0], next, env)) || IsDroppedKey(previous[1..], next, k, env)
  {
    assert forall i :: 1 <= i < |previous| ==> previous[i] == previous[1..][i - 1];
    assert forall i :: 0 <= i < |previous| - 1 ==> previous[1..][i] == previous[i + 1];
  }

  /** A reload drops exactly the rows of the servers that were re-pointed. */
  lemma {:induction false} ForgetRepointedClients(rows: Rows, previous: seq<MCPServer>, next: seq<MCPServer>, n: Text,
                                                  env: Environment)
    ensures
      var left := ForgetRepointed(rows, previous, next, env);
      && (n in left.clients <==> n in rows.clients && !IsDropped(previous, next, n, env))
      && (n in left.clients ==> left.clients[n] == rows.clients[n])
    decreases |previous|
  {
    if previous != [] {
      var rest := previous[1..];
      var kept := if IsRepointed(previous[0], next, env) then Forget(rows, previous[0], env) else rows;
      ForgetRepointedClients(kept, rest, next, n, env);
      DroppedAtHead(previous, next, n, env);
    }
  }

  lemma {:induction false} ForgetRepointedTokens(rows: Rows, previous: seq<MCPServer>, next: seq<MCPServer>, k: Key,
                                                 env: Environment)
    ensures
      var left := ForgetRepointed(rows, previous, next, env);
      && (k in left.tokens <==> k in rows.tokens && !IsDroppedKey(previous, next, k, env))
      && (k in left.tokens ==> left.tokens[k] == rows.tokens[k])
    decreases |previous|
  {
    if previous != [] {
      var rest := previous[1..];
      var kept := if IsRepointed(previous[0], next, env) then Forget(rows, previous[0], env) else rows;
      ForgetDropsOwn(rows, previous[0], env);
      ForgetRepointedTokens(kept, rest, next, k, env);
      DroppedKeyAtHead(previous, next, k, env);
    }
  }

  // ------------------------------------------------------------------ add_server

  /**
    The lookup by name or alias finds the very server that is replaced, because
    an accepted item has no identifier of anybody else.
   */
  lemma PreviousIsReplaced(c: Settings, item: MCPServer, env: Environment)
    requires WellFormed(c, env) && AcceptsUpsert(c, item, env)
    ensures
      var previous := ServerFor(c.servers, item.name);
      && (previous.Some? <==> IsConfigured(c.servers, item.name))
      && (previous.Some? ==>
            previous.value.name == item.name
            && UrlOf(c.servers, item.name, env) == Some(ResolvedUrl(previous.value, env)))
  {
    UpsertAcceptedIff(c, item, env);
    var previous := ServerFor(c.servers, item.name);
    if IsConfigured(c.servers, item.name) {
      NameLookup(c.servers, item.name);
    } else {
      ConfiguredIff(c.servers, item.name);
      assert item.name in IdsOf(item);
      NoAnswer(c.servers, item.name);
    }
  }

  // ------------------------------------------------------------------------ steps

  ghost predicate Bindings(servers: seq<MCPServer>, rows: Rows, env: Environment) {
    ClientsAreBound(servers, rows, env) && TokensAreBound(servers, rows, env)
  }

  /** Every name stands for what it stood for, or for nothing. */
  ghost predicate NothingMoves(before: seq<MCPServer>, after: seq<MCPServer>, env: Environment) {
    forall n :: IsConfigured(after, n) ==> UrlOf(after, n, env) == UrlOf(before, n, env)
  }

  lemma HeadersKeepNormalForm(c: Settings, name: Text, headers: map<Text, Text>)
    requires IsNormal(c)
    ensures IsNormal(WithHeaders(c, name, headers))
  {
    var p := Position(c.servers, name);
    assert forall i :: 0 <= i < |c.servers| && i != p ==> WithHeaders(c, name, headers).servers[i] == c.servers[i];
  }

  lemma StepKeepsConfig(s: State, a: Action, env: Environment)
    requires WellFormed(s.config, env)
    ensures WellFormed(Next(s, a, env).config, env)
  {
    if Outcome(s, a, env).Some? {
      match a
      case AddServer(item, _, _) => UpsertKeepsNormalForm(s.config, item, env);
      case RemoveServer(name) => RemoveKeepsValidity(s.config, name, env);
      case SetAuth(name, headers, _, _) => HeadersKeepNormalForm(s.config, name, headers);
      case Reload(decoded) => LoadedIsNormal(decoded, env);
      case _ =>
    }
  }

  lemma AddMoves(s: State, item: MCPServer, n: Text, env: Environment)
    requires Upserted(s.config, item).Some?
    ensures UrlOf(Upserted(s.config, item).value.servers, n, env) ==
              if n == item.name then Some(ResolvedUrl(item, env)) else UrlOf(s.config.servers, n, env)
  {
    UrlsAfterUpsert(s.config.servers, Stored(item).value, n, env);
  }

  /** Only the name itself comes to stand for something else. */
  ghost predicate OnlyMoves(before: seq<MCPServer>, after: seq<MCPServer>, name: Text, url: Text, env: Environment) {
    forall n :: UrlOf(after, n, env) == if n == name then Some(url) else UrlOf(before, n, env)
  }

  lemma AddedClients(before: seq<MCPServer>, after: seq<MCPServer>, rows: Rows, kept: Rows,
                     name: Text, url: Text, id: Text, secret: Text, env: Environment)
    requires OnlyMoves(before, after, name, url, env) && ClientsAreBound(before, rows, env)
    requires kept.clients ==
      if IsConfigured(before, name) && UrlOf(before, name, env) != Some(url) then rows.clients - {name} else rows.clients
    ensures ClientsAreBound(after, WithClient(kept, name, id, secret, url), env) <==>
              IsConfigured(before, name) || id != "" || (name in rows.clients ==> rows.clients[name].savedFor == url)
  {
    var clients := WithClient(kept, name, id, secret, url).clients;
    assert UrlOf(after, name, env) == Some(url) && IsConfigured(after, name);
    forall n | n in clients && n != name && IsConfigured(after, n)
      ensures UrlOf(after, n, env) == Some(clients[n].savedFor)
    {
      assert n in rows.clients && UrlOf(after, n, env) == UrlOf(before, n, env);
    }
    assert ClientsAreBound(after, WithClient(kept, name, id, secret, url), env) <==>
        (name in clients ==> clients[name].savedFor == url);
  }

  lemma AddedTokens(before: seq<MCPServer>, after: seq<MCPServer>, rows: Rows, kept: Rows,
                    name: Text, url: Text, env: Environment)
    requires OnlyMoves(before, after, name, url, env) && TokensAreBound(before, rows, env)
    requires forall k :: k in kept.tokens ==> k in rows.tokens && kept.tokens[k] == rows.tokens[k]
    requires if IsConfigured(before, name) && UrlOf(before, name, env) != Some(url) then Legacy(name) !in kept.tokens
             else kept.tokens == rows.tokens
    ensures TokensAreBound(after, kept, env) <==>
              IsConfigured(before, name)
              || (Legacy(name) in rows.tokens ==> rows.tokens[Legacy(name)].issuedFor == url)
  {
    assert UrlOf(after, name, env) == Some(url) && IsConfigured(after, name);
    forall k | k in kept.tokens && k != Legacy(name)
      ensures TokenIsBound(after, k, kept.tokens[k], env)
    {
      assert TokenIsBound(before, k, rows.tokens[k], env);
      assert k.Legacy? ==> UrlOf(after, k.name, env) == UrlOf(before, k.name, env);
    }
    if Legacy(name) in rows.tokens {
      assert TokenIsBound(before, Legacy(name), rows.tokens[Legacy(name)], env);
    }
    assert TokensAreBound(after, kept, env) <==>
        (Legacy(name) in kept.tokens ==> kept.tokens[Legacy(name)].issuedFor == url);
  }

  lemma AddIntroduces(before: seq<MCPServer>, after: seq<MCPServer>, rows: Rows, name: Text, url: Text,
                      saved: set<Text>, env: Environment)
    requires OnlyMoves(before, after, name, url, env)
    ensures NothingStale(before, after, rows, saved, env) <==>
              IsConfigured(before, name) || NothingStaleFor(name, Some(url), rows, saved)
  {
    assert UrlOf(after, name, env) == Some(url) && IsConfigured(after, name);
    forall n | n != name
      ensures IsConfigured(after, n) == IsConfigured(before, n)
    {
      assert UrlOf(after, n, env) == UrlOf(before, n, env);
    }
  }

  lemma AddKeepsBindings(s: State, item: MCPServer, id: Text, secret: Text, env: Environment)
    requires Inv(s, env) && Outcome(s, AddServer(item, id, secret), env).Some?
    ensures
      var s' := AfterAdd(s, item, id, secret, env);
      Bindings(s'.config.servers, s'.rows, env) <==> NoStaleRows(s, AddServer(item, id, secret), env)
  {
    var before, after := s.config.servers, Upserted(s.config, item).value.servers;
    var url := ResolvedUrl(item, env);
    forall n
      ensures UrlOf(after, n, env) == if n == item.name then Some(url) else UrlOf(before, n, env)
    {
      AddMoves(s, item, n, env);
    }
    AddIntroduces(before, after, s.rows, item.name, url, Saved(AddServer(item, id, secret)), env);
    PreviousIsReplaced(s.config, item, env);
    var previous := ServerFor(before, item.name);
    var kept := s.rows;
    if previous.Some? && ResolvedUrl(previous.value, env) != url {
      ForgetDropsOwn(s.rows, previous.value, env);
      kept := Forget(s.rows, previous.value, env);
    }
    AddedClients(before, after, s.rows, kept, item.name, url, id, secret, env);
    AddedTokens(before, after, s.rows, kept, item.name, url, env);
  }

  /** Some rows are gone, and no name has moved. */
  lemma FewerRowsStayBound(before: seq<MCPServer>, after: seq<MCPServer>, rows: Rows, left: Rows, env: Environment)
    requires Bindings(before, rows, env) && NothingMoves(before, after, env)
    requires forall n :: n in left.clients ==> n in rows.clients && left.clients[n] == rows.clients[n]
    requires forall k :: k in left.tokens ==> k in rows.tokens && left.tokens[k] == rows.tokens[k]
    ensures Bindings(after, left, env)
  {
    forall k | k in left.tokens
      ensures TokenIsBound(after, k, left.tokens[k], env)
    {
      assert TokenIsBound(before, k, rows.tokens[k], env);
    }
  }

  lemma SavedClientIsBound(servers: seq<MCPServer>, rows: Rows, name: Text, id: Text, secret: Text, url: Text, env: Environment)
    requires Bindings(servers, rows, env) && UrlOf(servers, name, env) == Some(url)
    ensures Bindings(servers, WithClient(rows, name, id, secret, url), env)
  {
    var with := WithClient(rows, name, id, secret, url);
    assert with.tokens == rows.tokens;
    assert forall n :: n in with.clients && n != name ==> n in rows.clients && with.clients[n] == rows.clients[n];
  }

  lemma LoginKeepsBindings(servers: seq<MCPServer>, rows: Rows, server: MCPServer, token: Option<Text>,
                           id: Text, secret: Text, env: Environment)
    requires Bindings(servers, rows, env) && UrlOf(servers, server.name, env) == Some(ResolvedUrl(server, env))
    ensures Bindings(servers, AfterLogin(rows, server, token, id, secret, env), env)
  {
    var url := ResolvedUrl(server, env);
    var legacy, key := Legacy(server.name), TokenKey(server, env);
    var adopted := Adopted(rows, legacy, key);
    if Adopts(rows, legacy, key) {
      assert TokenIsBound(servers, legacy, rows.tokens[legacy], env);
    }
    forall k | k in adopted.tokens
      ensures TokenIsBound(servers, k, adopted.tokens[k], env)
    {
      assert k != key ==> k in rows.tokens && TokenIsBound(servers, k, rows.tokens[k], env);
      assert key in rows.tokens ==> TokenIsBound(servers, key, rows.tokens[key], env);
    }
    var kept :=
      if token.Some? then adopted.(tokens := adopted.tokens[key := OAuthStore.Token(token.value, url)]) else adopted;
    assert Bindings(servers, kept, env);
    SavedClientIsBound(servers, kept, server.name, id, secret, url, env);
  }

  lemma RemoveKeepsBindings(s: State, name: Text, env: Environment)
    requires Inv(s, env) && IsConfigured(s.config.servers, name)
    ensures
      var s' := AfterRemove(s, name, env);
      Bindings(s'.config.servers, s'.rows, env) && NothingMoves(s.config.servers, s'.config.servers, env)
  {
    var before, after := s.config.servers, Removed(s.config, name).servers;
    forall n | IsConfigured(after, n)
      ensures UrlOf(after, n, env) == UrlOf(before, n, env)
    {
      UrlsAfterRemove(before, name, n, env);
    }
    var removed := ServerFor(before, name);
    if removed.Some? {
      ForgetDropsOwn(s.rows, removed.value, env);
    }
    FewerRowsStayBound(before, after, s.rows, AfterRemove(s, name, env).rows, env);
  }

  lemma SetAuthKeepsBindings(s: State, name: Text, headers: map<Text, Text>, id: Text, secret: Text, env: Environment)
    requires Inv(s, env) && IsConfigured(s.config.servers, name)
    ensures
      var s' := AfterSetAuth(s, name, headers, id, secret, env);
      Bindings(s'.config.servers, s'.rows, env) && NothingMoves(s.config.servers, s'.config.servers, env)
  {
    var before, after := s.config.servers, WithHeaders(s.config, name, headers).servers;
    forall n
      ensures UrlOf(after, n, env) == UrlOf(before, n, env)
    {
      UrlsAfterHeaders(s.config, name, headers, n, env);
    }
    FewerRowsStayBound(before, after, s.rows, s.rows, env);
    SavedClientIsBound(after, s.rows, name, id, secret, UrlOf(before, name, env).value, env);
  }

  lemma DroppedIff(before: seq<MCPServer>, after: seq<MCPServer>, n: Text, env: Environment)
    requires ServersAreApart(before)
    ensures IsDropped(before, after, n, env) <==>
              IsConfigured(before, n) && IsConfigured(after, n) && UrlOf(after, n, env) != UrlOf(before, n, env)
  {
    var p := Position(before, n);
    if p < |before| {
      NamesAreUnique(before, p);
    }
  }

  lemma LegacyDroppedIff(before: seq<MCPServer>, after: seq<MCPServer>, n: Text, env: Environment)
    requires n != ""
    ensures IsDroppedKey(before, after, Legacy(n), env) <==> IsDropped(before, after, n, env)
  {
    assert forall i :: 0 <= i < |before| ==> (Owns(before[i], Legacy(n), env) <==> before[i].name == n);
  }

  lemma ReloadedClients(before: seq<MCPServer>, after: seq<MCPServer>, rows: Rows, env: Environment)
    requires ServersAreApart(before) && ClientsAreBound(before, rows, env)
    ensures ClientsAreBound(after, ForgetRepointed(rows, before, after, env), env) <==>
              forall n :: n in rows.clients && !IsConfigured(before, n) && IsConfigured(after, n) ==>
                UrlOf(after, n, env) == Some(rows.clients[n].savedFor)
  {
    var left := ForgetRepointed(rows, before, after, env);
    forall n
      ensures n in left.clients <==> n in rows.clients && !IsDropped(before, after, n, env)
      ensures n in left.clients ==> left.clients[n] == rows.clients[n]
      ensures IsDropped(before, after, n, env) <==>
                IsConfigured(before, n) && IsConfigured(after, n) && UrlOf(after, n, env) != UrlOf(before, n, env)
    {
      ForgetRepointedClients(rows, before, after, n, env);
      DroppedIff(before, after, n, env);
    }
  }

  lemma ReloadedTokens(before: seq<MCPServer>, after: seq<MCPServer>, rows: Rows, env: Environment)
    requires ServersAreApart(before) && TokensAreBound(before, rows, env) && !IsConfigured(after, "")
    ensures TokensAreBound(after, ForgetRepointed(rows, before, after, env), env) <==>
              forall n :: Legacy(n) in rows.tokens && !IsConfigured(before, n) && IsConfigured(after, n) ==>
                UrlOf(after, n, env) == Some(rows.tokens[Legacy(n)].issuedFor)
  {
    var left := ForgetRepointed(rows, before, after, env);
    forall k | k in left.tokens && k.Bound?
      ensures TokenIsBound(after, k, left.tokens[k], env)
    {
      ForgetRepointedTokens(rows, before, after, k, env);
      assert TokenIsBound(before, k, rows.tokens[k], env);
    }
    forall n | IsConfigured(after, n)
      ensures Legacy(n) in left.tokens <==> Legacy(n) in rows.tokens && !IsDropped(before, after, n, env)
      ensures Legacy(n) in left.tokens ==> left.tokens[Legacy(n)] == rows.tokens[Legacy(n)]
      ensures Legacy(n) in rows.tokens && IsConfigured(before, n) ==>
                UrlOf(before, n, env) == Some(rows.tokens[Legacy(n)].issuedFor)
      ensures IsDropped(before, after, n, env) <==> IsConfigured(before, n) && UrlOf(after, n, env) != UrlOf(before, n, env)
    {
      ForgetRepointedTokens(rows, before, after, Legacy(n), env);
      LegacyDroppedIff(before, after, n, env);
      DroppedIff(before, after, n, env);
      if Legacy(n) in rows.tokens {
        assert TokenIsBound(before, Legacy(n), rows.tokens[Legacy(n)], env);
      }
    }
    assert TokensAreBound(after, left, env) <==>
        forall n :: Legacy(n) in left.tokens ==> TokenIsBound(after, Legacy(n), left.tokens[Legacy(n)], env);
  }

  lemma ReloadKeepsBindings(before: seq<MCPServer>, after: seq<MCPServer>, rows: Rows, env: Environment)
    requires ServersAreApart(before) && Bindings(before, rows, env) && !IsConfigured(after, "")
    ensures Bindings(after, ForgetRepointed(rows, before, after, env), env) <==> NothingStale(before, after, rows, {}, env)
  {
    ReloadedClients(before, after, rows, env);
    ReloadedTokens(before, after, rows, env);
  }

  lemma EmptyNameIsNotConfigured(c: Settings, env: Environment)
    requires IsValid(c, env)
    ensures !IsConfigured(c.servers, "")
  {
    forall i | 0 <= i < |c.servers|
      ensures c.servers[i].name != ""
    {
      assert IsSound(c.servers[i], env);
    }
  }

  /**
    A step keeps every credential with its endpoint exactly when it introduces
    no name for which rows of another endpoint are left over. StoredRows says
    what that means for somebody who sees only the tables.
   */
  lemma StepKeepsBindingsIff(s: State, a: Action, env: Environment)
    requires Inv(s, env)
    ensures Inv(Next(s, a, env), env) <==> NoStaleRows(s, a, env)
  {
    StepKeepsConfig(s, a, env);
    var servers := s.config.servers;
    if Outcome(s, a, env).Some? {
      match a
      case AddServer(item, id, secret) => AddKeepsBindings(s, item, id, secret, env);
      case RemoveServer(name) => RemoveKeepsBindings(s, name, env);
      case SetAuth(name, headers, id, secret) => SetAuthKeepsBindings(s, name, headers, id, secret, env);
      case Reload(decoded) =>
        EmptyNameIsNotConfigured(NormalizedSettings(decoded), env);
        ReloadKeepsBindings(servers, NormalizedSettings(decoded).servers, s.rows, env);
      case Login(key, token, id, secret) =>
        LookedUpIsConfigured(servers, key, env);
        LoginKeepsBindings(servers, s.rows, ServerFor(servers, key).value, token, id, secret, env);
      case Logout(key, full) =>
        FewerRowsStayBound(servers, servers, s.rows, AfterLogout(s.rows, ServerFor(servers, key).value, full, env), env);
    }
  }

  // ------------------------------------------------------------------------- runs

  ghost function Run(s: State, actions: seq<Action>, env: Environment): State
    decreases |actions|
  {
    if actions == [] then s else Run(Next(s, actions[0], env), actions[1..], env)
  }

  ghost predicate KeepsNames(s: State, a: Action, env: Environment) {
    a.RemoveServer? ||
    forall n :: IsConfigured(s.config.servers, n) ==> IsConfigured(Next(s, a, env).config.servers, n)
  }

  /** A name leaves the configuration only by remove_server. */
  ghost predicate NamesLeaveByRemoval(s: State, actions: seq<Action>, env: Environment)
    decreases |actions|
  {
    actions != [] ==> KeepsNames(s, actions[0], env) && NamesLeaveByRemoval(Next(s, actions[0], env), actions[1..], env)
  }

  lemma RemoveKeepsOwnership(s: State, name: Text, env: Environment)
    requires Inv(s, env) && RowsAreOwned(s) && IsConfigured(s.config.servers, name)
    ensures RowsAreOwned(AfterRemove(s, name, env))
  {
    var before, after := s.config.servers, Removed(s.config, name).servers;
    EmptyNameIsNotConfigured(s.config, env);
    NameLookup(before, name);
    ForgetDropsOwn(s.rows, ServerFor(before, name).value, env);
    forall n | n != name && IsConfigured(before, n)
      ensures IsConfigured(after, n)
    {
      UrlsAfterRemove(before, name, n, env);
    }
  }

  lemma ReloadKeepsOwnership(s: State, next: Settings, env: Environment)
    requires RowsAreOwned(s)
    requires forall n :: IsConfigured(s.config.servers, n) ==> IsConfigured(next.servers, n)
    ensures RowsAreOwned(State(next, ForgetRepointed(s.rows, s.config.servers, next.servers, env)))
  {
    forall n
      ensures
        var left := ForgetRepointed(s.rows, s.config.servers, next.servers, env);
        (n in left.clients ==> n in s.rows.clients) && (Legacy(n) in left.tokens ==> Legacy(n) in s.rows.tokens)
    {
      ForgetRepointedClients(s.rows, s.config.servers, next.servers, n, env);
      ForgetRepointedTokens(s.rows, s.config.servers, next.servers, Legacy(n), env);
    }
  }

  lemma AddKeepsOwnership(s: State, item: MCPServer, id: Text, secret: Text, env: Environment)
    requires RowsAreOwned(s) && Upserted(s.config, item).Some?
    ensures RowsAreOwned(AfterAdd(s, item, id, secret, env))
  {
    var after := AfterAdd(s, item, id, secret, env).config.servers;
    forall n | n == item.name || IsConfigured(s.config.servers, n)
      ensures IsConfigured(after, n)
    {
      AddMoves(s, item, n, env);
    }
  }

  lemma SetAuthKeepsOwnership(s: State, name: Text, headers: map<Text, Text>, id: Text, secret: Text, env: Environment)
    requires RowsAreOwned(s) && IsConfigured(s.config.servers, name)
    requires forall n :: IsConfigured(s.config.servers, n) ==> IsConfigured(WithHeaders(s.config, name, headers).servers, n)
    ensures RowsAreOwned(AfterSetAuth(s, name, headers, id, secret, env))
  {
  }

  lemma LoginKeepsOwnership(s: State, server: MCPServer, token: Option<Text>, id: Text, secret: Text, env: Environment)
    requires RowsAreOwned(s) && IsConfigured(s.config.servers, server.name)
    ensures RowsAreOwned(s.(rows := AfterLogin(s.rows, server, token, id, secret, env)))
  {
  }

  lemma LogoutKeepsOwnership(s: State, server: MCPServer, full: bool, env: Environment)
    requires RowsAreOwned(s)
    ensures RowsAreOwned(s.(rows := AfterLogout(s.rows, server, full, env)))
  {
  }

  lemma StepKeepsOwnership(s: State, a: Action, env: Environment)
    requires Inv(s, env) && RowsAreOwned(s) && KeepsNames(s, a, env)
    ensures RowsAreOwned(Next(s, a, env))
  {
    if Outcome(s, a, env).Some? {
      match a
      case AddServer(item, id, secret) => AddKeepsOwnership(s, item, id, secret, env);
      case RemoveServer(name) => RemoveKeepsOwnership(s, name, env);
      case SetAuth(name, headers, id, secret) => SetAuthKeepsOwnership(s, name, headers, id, secret, env);
      case Reload(decoded) => ReloadKeepsOwnership(s, NormalizedSettings(decoded), env);
      case Login(key, token, id, secret) =>
        LookedUpIsConfigured(s.config.servers, key, env);
        LoginKeepsOwnership(s, ServerFor(s.config.servers, key).value, token, id, secret, env);
      case Logout(key, full) => LogoutKeepsOwnership(s, ServerFor(s.config.servers, key).value, full, env);
    }
  }

  /**
    Over every run in which names leave only by remove_server, each stored client
    was saved, and each token that would be used was issued, for the endpoint
    that its server has now.
   */
  lemma {:induction false} CredentialsStayWithTheirEndpoint(s: State, actions: seq<Action>, env: Environment)
    requires Inv(s, env) && RowsAreOwned(s) && NamesLeaveByRemoval(s, actions, env)
    ensures Inv(Run(s, actions, env), env) && RowsAreOwned(Run(s, actions, env))
    decreases |actions|
  {
    if actions != [] {
      StepKeepsBindingsIff(s, actions[0], env);
      StepKeepsOwnership(s, actions[0], env);
      CredentialsStayWithTheirEndpoint(Next(s, actions[0], env), actions[1..], env);
    }
  }

  /** What the invariant says of a configured server: its own client, and the token found after adoption. */
  lemma UsedCredentialsFitTheEndpoint(s: State, server: MCPServer, env: Environment)
    requires Inv(s, env) && server in s.config.servers
    ensures server.name in s.rows.clients ==> s.rows.clients[server.name].savedFor == ResolvedUrl(server, env)
    ensures
      var tokens := Adopted(s.rows, Legacy(server.name), TokenKey(server, env)).tokens;
      TokenKey(server, env) in tokens ==> tokens[TokenKey(server, env)].issuedFor == ResolvedUrl(server, env)
  {
    var i :| 0 <= i < |s.config.servers| && s.config.servers[i] == server;
    NameIsPosition(s.config.servers, i);
    LoginKeepsBindings(s.config.servers, s.rows, server, None, "", "", env);
    var tokens := AfterLogin(s.rows, server, None, "", "", env).tokens;
    if TokenKey(server, env) in tokens {
      assert TokenIsBound(s.config.servers, TokenKey(server, env), tokens[TokenKey(server, env)], env);
    }
  }

  // ------------------------------------------------------- what a step leaves alone

  /** The server that a request names. */
  predicate Names(s: State, a: Action, n: Text) {
    match a
    case AddServer(item, _, _) => n == item.name
    case RemoveServer(name) => n == name
    case SetAuth(name, _, _, _) => n == name
    case Reload(_) => false
    case Login(key, _, _, _) => ServerFor(s.config.servers, key).Some? && n == ServerFor(s.config.servers, key).value.name
    case Logout(key, _) => ServerFor(s.config.servers, key).Some? && n == ServerFor(s.config.servers, key).value.name
  }

  ghost predicate SameRows(a: Rows, b: Rows, n: Text) {
    && (n in a.clients <==> n in b.clients) && (n in a.clients ==> a.clients[n] == b.clients[n])
    && (forall k: Key :: k.name == n ==> (k in a.tokens <==> k in b.tokens) && (k in a.tokens ==> a.tokens[k] == b.tokens[k]))
  }

  lemma ForgetSparesOthers(rows: Rows, server: MCPServer, n: Text, env: Environment)
    requires n != server.name
    ensures SameRows(rows, Forget(rows, server, env), n)
  {
    ForgetDropsOwn(rows, server, env);
  }

  lemma ForgetRepointedSparesOthers(rows: Rows, previous: seq<MCPServer>, next: seq<MCPServer>, n: Text,
                                    env: Environment)
    requires !IsDropped(previous, next, n, env)
    ensures SameRows(rows, ForgetRepointed(rows, previous, next, env), n)
  {
    ForgetRepointedClients(rows, previous, next, n, env);
    forall k: Key | k.name == n
      ensures !IsDroppedKey(previous, next, k, env)
    {
      assert forall i :: 0 <= i < |previous| && Owns(previous[i], k, env) ==> previous[i].name == n;
    }
    forall k: Key | k.name == n
      ensures
        var left := ForgetRepointed(rows, previous, next, env).tokens;
        (k in rows.tokens <==> k in left) && (k in rows.tokens ==> rows.tokens[k] == left[k])
    {
      ForgetRepointedTokens(rows, previous, next, k, env);
    }
  }

  lemma SavingSparesOthers(rows: Rows, left: Rows, name: Text, id: Text, secret: Text, url: Text, n: Text)
    requires SameRows(rows, left, n) && n != name
    ensures SameRows(rows, WithClient(left, name, id, secret, url), n)
  {
  }

  lemma AddSparesOthers(s: State, item: MCPServer, id: Text, secret: Text, n: Text, env: Environment)
    requires WellFormed(s.config, env) && AcceptsUpsert(s.config, item, env) && n != item.name
    ensures SameRows(s.rows, AfterAdd(s, item, id, secret, env).rows, n)
  {
    PreviousIsReplaced(s.config, item, env);
    var previous := ServerFor(s.config.servers, item.name);
    var url := ResolvedUrl(item, env);
    var left := s.rows;
    if previous.Some? && ResolvedUrl(previous.value, env) != url {
      left := Forget(s.rows, previous.value, env);
      ForgetSparesOthers(s.rows, previous.value, n, env);
    }
    SavingSparesOthers(s.rows, left, item.name, id, secret, url, n);
  }

  lemma RemoveSparesOthers(s: State, name: Text, n: Text, env: Environment)
    requires WellFormed(s.config, env) && IsConfigured(s.config.servers, name) && n != name
    ensures SameRows(s.rows, AfterRemove(s, name, env).rows, n)
  {
    NameLookup(s.config.servers, name);
    ForgetSparesOthers(s.rows, ServerFor(s.config.servers, name).value, n, env);
  }

  lemma LoginSparesOthers(rows: Rows, server: MCPServer, token: Option<Text>, id: Text, secret: Text, n: Text,
                          env: Environment)
    requires n != server.name
    ensures SameRows(rows, AfterLogin(rows, server, token, id, secret, env), n)
  {
  }

  lemma LogoutSparesOthers(rows: Rows, server: MCPServer, full: bool, n: Text, env: Environment)
    requires n != server.name
    ensures SameRows(rows, AfterLogout(rows, server, full, env), n)
  {
  }

  lemma ReloadSparesOthers(rows: Rows, before: seq<MCPServer>, after: seq<MCPServer>, n: Text, env: Environment)
    requires ServersAreApart(before)
    requires IsConfigured(before, n) && IsConfigured(after, n) ==> UrlOf(after, n, env) == UrlOf(before, n, env)
    ensures SameRows(rows, ForgetRepointed(rows, before, after, env), n)
  {
    DroppedIff(before, after, n, env);
    ForgetRepointedSparesOthers(rows, before, after, n, env);
  }

  lemma AddStepSpares(s: State, a: Action, n: Text, env: Environment)
    requires WellFormed(s.config, env) && !Names(s, a, n) && a.AddServer? && Outcome(s, a, env).Some?
    ensures SameRows(s.rows, Next(s, a, env).rows, n)
  {
    AddSparesOthers(s, a.item, a.clientId, a.clientSecret, n, env);
  }

  lemma RemoveStepSpares(s: State, a: Action, n: Text, env: Environment)
    requires WellFormed(s.config, env) && !Names(s, a, n) && a.RemoveServer? && Outcome(s, a, env).Some?
    ensures SameRows(s.rows, Next(s, a, env).rows, n)
  {
    RemoveSparesOthers(s, a.name, n, env);
  }

  lemma SetAuthStepSpares(s: State, a: Action, n: Text, env: Environment)
    requires !Names(s, a, n) && a.SetAuth? && Outcome(s, a, env).Some?
    ensures SameRows(s.rows, Next(s, a, env).rows, n)
  {
    var url := UrlOf(s.config.servers, a.name, env).value;
    SavingSparesOthers(s.rows, s.rows, a.name, a.clientId, a.clientSecret, url, n);
  }

  lemma OAuthStepSpares(s: State, a: Action, n: Text, env: Environment)
    requires !Names(s, a, n) && (a.Login? || a.Logout?) && Outcome(s, a, env).Some?
    ensures SameRows(s.rows, Next(s, a, env).rows, n)
  {
    var server := ServerFor(s.config.servers, a.key).value;
    if a.Login? {
      LoginSparesOthers(s.rows, server, a.token, a.clientId, a.clientSecret, n, env);
    } else {
      LogoutSparesOthers(s.rows, server, a.full, n, env);
    }
  }

  /** The rows of every server that is neither named by the request nor re-pointed stay as they are. */
  lemma StepSparesOthers(s: State, a: Action, n: Text, env: Environment)
    requires WellFormed(s.config, env) && !Names(s, a, n)
    requires
      var before, after := s.config.servers, Next(s, a, env).config.servers;
      IsConfigured(before, n) && IsConfigured(after, n) ==> UrlOf(after, n, env) == UrlOf(before, n, env)
    ensures SameRows(s.rows, Next(s, a, env).rows, n)
  {
    if Outcome(s, a, env).Some? {
      match a
      case AddServer(_, _, _) => AddStepSpares(s, a, n, env);
      case RemoveServer(_) => RemoveStepSpares(s, a, n, env);
      case SetAuth(_, _, _, _) => SetAuthStepSpares(s, a, n, env);
      case Reload(decoded) => ReloadSparesOthers(s.rows, s.config.servers, NormalizedSettings(decoded).servers, n, env);
      case Login(_, _, _, _) => OAuthStepSpares(s, a, n, env);
      case Logout(_, _) => OAuthStepSpares(s, a, n, env);
    }
  }

  ghost predicate IsForgotten(rows: Rows, n: Text, url: Text) {
    n !in rows.clients && Legacy(n) !in rows.tokens && Bound(n, url) !in rows.tokens
  }

  lemma AddForgets(s: State, item: MCPServer, id: Text, secret: Text, env: Environment)
    requires WellFormed(s.config, env) && AcceptsUpsert(s.config, item, env) && item.name != ""
    requires IsConfigured(s.config.servers, item.name)
    requires UrlOf(s.config.servers, item.name, env) != Some(ResolvedUrl(item, env))
    ensures
      var rows := AfterAdd(s, item, id, secret, env).rows;
      IsForgotten(WithoutClients(rows, Saved(AddServer(item, id, secret))), item.name,
                  UrlOf(s.config.servers, item.name, env).value)
  {
    PreviousIsReplaced(s.config, item, env);
    ForgetDropsOwn(s.rows, ServerFor(s.config.servers, item.name).value, env);
  }

  lemma RemoveForgets(s: State, name: Text, env: Environment)
    requires WellFormed(s.config, env) && IsConfigured(s.config.servers, name) && name != ""
    ensures IsForgotten(AfterRemove(s, name, env).rows, name, UrlOf(s.config.servers, name, env).value)
  {
    NameLookup(s.config.servers, name);
    ForgetDropsOwn(s.rows, ServerFor(s.config.servers, name).value, env);
  }

  lemma ReloadForgets(rows: Rows, before: seq<MCPServer>, after: seq<MCPServer>, n: Text, env: Environment)
    requires ServersAreApart(before) && IsConfigured(before, n) && IsConfigured(after, n) && n != ""
    requires UrlOf(after, n, env) != UrlOf(before, n, env)
    ensures IsForgotten(ForgetRepointed(rows, before, after, env), n, UrlOf(before, n, env).value)
  {
    var p := Position(before, n);
    assert Owns(before[p], Legacy(n), env) && Owns(before[p], TokenKey(before[p], env), env);
    DroppedIff(before, after, n, env);
    ForgetRepointedClients(rows, before, after, n, env);
    ForgetRepointedTokens(rows, before, after, Legacy(n), env);
    ForgetRepointedTokens(rows, before, after, TokenKey(before[p], env), env);
  }

  lemma AddLeaves(s: State, a: Action, n: Text, env: Environment)
    requires WellFormed(s.config, env) && IsConfigured(s.config.servers, n) && n != "" && a.AddServer?
    requires UrlOf(Next(s, a, env).config.servers, n, env) != UrlOf(s.config.servers, n, env)
    ensures IsForgotten(WithoutClients(Next(s, a, env).rows, Saved(a)), n, UrlOf(s.config.servers, n, env).value)
  {
    assert Next(s, a, env) == AfterAdd(s, a.item, a.clientId, a.clientSecret, env);
    AddMoves(s, a.item, n, env);
    AddForgets(s, a.item, a.clientId, a.clientSecret, env);
  }

  lemma RemoveLeaves(s: State, a: Action, n: Text, env: Environment)
    requires WellFormed(s.config, env) && IsConfigured(s.config.servers, n) && n != "" && a.RemoveServer?
    requires UrlOf(Next(s, a, env).config.servers, n, env) != UrlOf(s.config.servers, n, env)
    ensures IsForgotten(WithoutClients(Next(s, a, env).rows, Saved(a)), n, UrlOf(s.config.servers, n, env).value)
  {
    assert Next(s, a, env) == AfterRemove(s, a.name, env);
    UrlsAfterRemove(s.config.servers, a.name, n, env);
    RemoveForgets(s, a.name, env);
    NoClientsTaken(Next(s, a, env).rows);
  }

  /** The other actions leave every name at its endpoint. */
  lemma OthersLeaveNothing(s: State, a: Action, n: Text, env: Environment)
    requires a.SetAuth? || a.Login? || a.Logout?
    ensures UrlOf(Next(s, a, env).config.servers, n, env) == UrlOf(s.config.servers, n, env)
  {
    if a.SetAuth? && Outcome(s, a, env).Some? {
      UrlsAfterHeaders(s.config, a.name, a.headers, n, env);
    }
  }

  /**
    When a server leaves its endpoint, everything that was kept for it there is
    gone, unless a reload dropped the name: then nothing is forgotten. A client
    that comes with the request is kept.
   */
  lemma LeftEndpointIsForgotten(s: State, a: Action, n: Text, env: Environment)
    requires WellFormed(s.config, env) && IsConfigured(s.config.servers, n)
    requires UrlOf(Next(s, a, env).config.servers, n, env) != UrlOf(s.config.servers, n, env)
    ensures
      var rows := Next(s, a, env).rows;
      if a.Reload? && !IsConfigured(Next(s, a, env).config.servers, n) then SameRows(s.rows, rows, n)
      else IsForgotten(WithoutClients(rows, Saved(a)), n, UrlOf(s.config.servers, n, env).value)
  {
    EmptyNameIsNotConfigured(s.config, env);
    match a
    case AddServer(_, _, _) => AddLeaves(s, a, n, env);
    case RemoveServer(_) => RemoveLeaves(s, a, n, env);
    case Reload(decoded) => ReloadLeaves(s, decoded, n, env);
    case _ => OthersLeaveNothing(s, a, n, env);
  }

  function WithoutClients(rows: Rows, names: set<Text>): Rows {
    rows.(clients := rows.clients - names)
  }

  lemma NoClientsTaken(rows: Rows)
    ensures WithoutClients(rows, {}) == rows
  {
  }

  lemma ReloadLeaves(s: State, decoded: Settings, n: Text, env: Environment)
    requires WellFormed(s.config, env) && IsConfigured(s.config.servers, n) && n != "" && Loads(decoded, env)
    requires UrlOf(NormalizedSettings(decoded).servers, n, env) != UrlOf(s.config.servers, n, env)
    ensures
      var after := NormalizedSettings(decoded).servers;
      var rows := ForgetRepointed(s.rows, s.config.servers, after, env);
      if !IsConfigured(after, n) then SameRows(s.rows, rows, n)
      else IsForgotten(WithoutClients(rows, Saved(Reload(decoded))), n, UrlOf(s.config.servers, n, env).value)
  {
    var after := NormalizedSettings(decoded).servers;
    if IsConfigured(after, n) {
      ReloadForgets(s.rows, s.config.servers, after, n, env);
      NoClientsTaken(ForgetRepointed(s.rows, s.config.servers, after, env));
    } else {
      ReloadSparesOthers(s.rows, s.config.servers, after, n, env);
    }
  }

  // ------------------------------------------- dropping a name by editing the file

  function Only(servers: seq<MCPServer>): Settings {
    Settings(DEFAULT_HISTORY_SIZE, true, servers, [])
  }

  lemma ReloadReplaces(s: State, next: Settings, env: Environment)
    requires WellFormed(next, env)
    requires forall i :: 0 <= i < |s.config.servers| ==> !IsConfigured(next.servers, s.config.servers[i].name)
    ensures Next(s, Reload(next), env) == State(next, s.rows)
  {
    NormalReloadsAsItself(next);
    NothingIsForgotten(s.rows, s.config.servers, next.servers, env);
  }

  lemma {:induction false} NothingIsForgotten(rows: Rows, previous: seq<MCPServer>, next: seq<MCPServer>, env: Environment)
    requires forall i :: 0 <= i < |previous| ==> !IsConfigured(next, previous[i].name)
    ensures ForgetRepointed(rows, previous, next, env) == rows
    decreases |previous|
  {
    if previous != [] {
      assert !IsConfigured(next, previous[0].name);
      NothingIsForgotten(rows, previous[1..], next, env);
    }
  }

  function Before(server: MCPServer, client: Client): State {
    State(Only([server]), Rows(map[], map[server.name := client]))
  }

  /** The name is taken out of the file, and comes back at another endpoint. */
  function DropAndReturn(server: MCPServer): seq<Action> {
    [Reload(Only([])), Reload(Only([server]))]
  }

  lemma DropAndReturnKeepsRows(s: State, server: MCPServer, env: Environment)
    requires WellFormed(Only([server]), env)
    ensures Run(s, DropAndReturn(server), env) == State(Only([server]), s.rows)
  {
    ReloadReplaces(s, Only([]), env);
    ReloadReplaces(State(Only([]), s.rows), Only([server]), env);
    RunOfTwo(s, Reload(Only([])), Reload(Only([server])), env);
  }

  lemma RunOfTwo(s: State, a: Action, b: Action, env: Environment)
    ensures Run(s, [a, b], env) == Next(Next(s, a, env), b, env)
  {
    assert [a, b][1..] == [b] && [b][1..] == [];
    assert Run(Next(s, a, env), [b], env) == Run(Next(Next(s, a, env), b, env), [], env);
  }

  lemma BeforeIsBound(server: MCPServer, client: Client, env: Environment)
    requires WellFormed(Only([server]), env) && client.savedFor == ResolvedUrl(server, env)
    ensures Inv(Before(server, client), env) && RowsAreOwned(Before(server, client))
  {
    NameIsPosition([server], 0);
  }

  /** The old client is then used at the new endpoint: the premise of the run theorem is needed. */
  lemma DroppedNameBringsItsClientBack(first: MCPServer, second: MCPServer, client: Client, env: Environment)
    requires WellFormed(Only([first]), env) && WellFormed(Only([second]), env) && first.name == second.name
    requires client.savedFor == ResolvedUrl(first, env) != ResolvedUrl(second, env)
    ensures Inv(Before(first, client), env) && RowsAreOwned(Before(first, client))
    ensures !Inv(Run(Before(first, client), DropAndReturn(second), env), env)
  {
    BeforeIsBound(first, client, env);
    DropAndReturnKeepsRows(Before(first, client), second, env);
    NameIsPosition([second], 0);
    assert !ClientsAreBound([second], Before(first, client).rows, env) by {
      assert first.name in Before(first, client).rows.clients && IsConfigured([second], first.name);
    }
  }

  function Notes(transport: Text, url: Text): MCPServer {
    MCPServer("notes", "notes", url, transport, map[], "", "", [], map[])
  }

  lemma {:induction false} DoubledPlain(s: Text)
    requires '$' !in s
    ensures Doubled(s) == s
  {
    if s != [] {
      assert forall c :: c in s[1..] ==> c in s;
      DoubledPlain(s[1..]);
      assert [s[0]] + s[1..] == s;
    }
  }

  lemma NotesIsSound(transport: Text, url: Text, env: Environment)
    requires TransportOf(transport) == Some(transport) && transport != "stdio"
    requires url != [] && IsVisibleAscii(url[0]) && '$' !in url
    ensures IsSound(Notes(transport, url), env) && ResolvedUrl(Notes(transport, url), env) == url
    ensures NormalizeTransport(transport) == Some(transport)
  {
    DoubledPlain(url);
    DoublingProtects(url, env);
    VisibleStartIsNotBlank(url);
    NormalTransportStays(transport);
  }

  lemma OnlySound(server: MCPServer, env: Environment)
    requires IsSound(server, env) && server.alias != "" && NormalizeTransport(server.transport) == Some(server.transport)
    ensures WellFormed(Only([server]), env)
  {
  }

  lemma DroppedNotes(transport: Text, one: Text, two: Text, client: Client, env: Environment)
    requires TransportOf(transport) == Some(transport) && transport != "stdio" && one != two
    requires one != [] && IsVisibleAscii(one[0]) && '$' !in one && client.savedFor == one
    requires two != [] && IsVisibleAscii(two[0]) && '$' !in two
    ensures Inv(Before(Notes(transport, one), client), env)
    ensures !Inv(Run(Before(Notes(transport, one), client), DropAndReturn(Notes(transport, two)), env), env)
  {
    var first, second := Notes(transport, one), Notes(transport, two);
    NotesIsSound(transport, one, env);
    NotesIsSound(transport, two, env);
    OnlySound(first, env);
    OnlySound(second, env);
    DroppedNameBringsItsClientBack(first, second, client, env);
  }

  /** One input: the server "notes" is dropped at http://a and comes back at http://b. */
  lemma DroppedNameExample(transport: Text, one: Text, two: Text, client: Client, env: Environment)
    requires transport == "http" && one == "http://a" && two == "http://b" && client == Client("id", "secret", one)
    ensures Inv(Before(Notes(transport, one), client), env)
    ensures !Inv(Run(Before(Notes(transport, one), client), DropAndReturn(Notes(transport, two)), env), env)
  {
    DroppedNotes(transport, one, two, client, env);
  }
}
