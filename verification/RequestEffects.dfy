/**
  When each request is accepted, and everything that it changes: the entry in
  the configuration, the client, and every token, told key by key.
 */
module RequestEffects {
  import opened GoText
  import opened Expand
  import opened Config
  import opened OAuthStore
  import opened RegistryChange
  import opened CredentialBinding

  function TokenAt(rows: Rows, key: Key): Option<Text> {
    if key in rows.tokens then Some(rows.tokens[key].value) else None
  }

  /** The id and the secret that are stored under the name. */
  function ClientAt(rows: Rows, name: Text): Option<(Text, Text)> {
    if name in rows.clients then Some((rows.clients[name].id, rows.clients[name].secret)) else None
  }

  /** Apart from the name's own client and these tokens, both tables are as before. */
  ghost predicate OnlyChanges(before: Rows, after: Rows, name: Text, keys: set<Key>) {
    && (forall n :: n != name ==> ClientAt(after, n) == ClientAt(before, n))
    && (forall k :: k !in keys ==> TokenAt(after, k) == TokenAt(before, k))
  }

  // ------------------------------------------------------------------ login and logout

  lemma ReachedServer(c: Settings, key: Text, env: Environment)
    requires WellFormed(c, env) && ServerFor(c.servers, key).Some?
    ensures ServerFor(c.servers, key).value.name != ""
  {
    LookedUpIsConfigured(c.servers, key, env);
    EmptyNameIsNotConfigured(c, env);
  }

  /** Nothing is stored any more that would be used at the server, except its client if that was not asked for. */
  ghost predicate IsLoggedOut(before: Rows, after: Rows, server: MCPServer, full: bool, env: Environment) {
    && TokenAt(after, TokenKey(server, env)) == None && TokenAt(after, Legacy(server.name)) == None
    && ClientAt(after, server.name) == (if full then None else ClientAt(before, server.name))
    && (HasCredentials(after, server, env) <==> !full && server.name in before.clients)
    && OnlyChanges(before, after, server.name, {TokenKey(server, env), Legacy(server.name)})
  }

  lemma LogoutRows(rows: Rows, server: MCPServer, full: bool, env: Environment)
    requires server.name != ""
    ensures IsLoggedOut(rows, AfterLogout(rows, server, full, env), server, full, env)
  {
  }

  lemma NextLogout(s: State, key: Text, full: bool, server: MCPServer, env: Environment)
    requires key != "" && ServerFor(s.config.servers, key) == Some(server)
    ensures Next(s, Logout(key, full), env) == State(s.config, AfterLogout(s.rows, server, full, env))
  {
  }

  /** A logout from the server that the key reaches forgets all that is kept for it at its endpoint. */
  lemma LogoutForgets(s: State, key: Text, full: bool, server: MCPServer, env: Environment)
    requires WellFormed(s.config, env) && key != "" && ServerFor(s.config.servers, key) == Some(server)
    ensures Next(s, Logout(key, full), env).config == s.config
    ensures IsLoggedOut(s.rows, Next(s, Logout(key, full), env).rows, server, full, env)
  {
    ReachedServer(s.config, key, env);
    NextLogout(s, key, full, server, env);
    LogoutRows(s.rows, server, full, env);
  }

  /** The token that the exchange brought is stored, else the bound one stays, else the legacy one is adopted. */
  ghost predicate IsLoggedIn(before: Rows, after: Rows, server: MCPServer, token: Option<Text>, id: Text, secret: Text,
                             env: Environment) {
    var bound, legacy := TokenKey(server, env), Legacy(server.name);
    && TokenAt(after, bound) ==
         (if token.Some? then token else if bound in before.tokens then TokenAt(before, bound) else TokenAt(before, legacy))
    && TokenAt(after, legacy) == (if bound in before.tokens then TokenAt(before, legacy) else None)
    && ClientAt(after, server.name) == (if id != "" then Some((id, secret)) else ClientAt(before, server.name))
    && OnlyChanges(before, after, server.name, {bound, legacy})
  }

  lemma ClientStored(rows: Rows, name: Text, id: Text, secret: Text, url: Text)
    ensures
      var after := WithClient(rows, name, id, secret, url);
      && ClientAt(after, name) == (if id != "" then Some((id, secret)) else ClientAt(rows, name))
      && after.tokens == rows.tokens && forall n :: n != name ==> ClientAt(after, n) == ClientAt(rows, n)
  {
  }

  lemma LoginRows(rows: Rows, server: MCPServer, token: Option<Text>, id: Text, secret: Text, env: Environment)
    requires server.name != ""
    ensures IsLoggedIn(rows, AfterLogin(rows, server, token, id, secret, env), server, token, id, secret, env)
  {
    var bound, url := TokenKey(server, env), ResolvedUrl(server, env);
    var adopted := Adopted(rows, Legacy(server.name), bound);
    var kept :=
      if token.Some? then adopted.(tokens := adopted.tokens[bound := OAuthStore.Token(token.value, url)]) else adopted;
    ClientStored(kept, server.name, id, secret, url);
  }

  lemma NextLogin(s: State, key: Text, token: Option<Text>, id: Text, secret: Text, server: MCPServer, env: Environment)
    requires ServerFor(s.config.servers, key) == Some(server) && server.transport != "stdio"
    ensures Next(s, Login(key, token, id, secret), env) ==
            State(s.config, AfterLogin(s.rows, server, token, id, secret, env))
  {
  }

  /** What using OAuth at the server that the key reaches leaves in the tables. */
  lemma LoginStores(s: State, key: Text, token: Option<Text>, id: Text, secret: Text, server: MCPServer, env: Environment)
    requires WellFormed(s.config, env) && ServerFor(s.config.servers, key) == Some(server) && server.transport != "stdio"
    ensures Next(s, Login(key, token, id, secret), env).config == s.config
    ensures IsLoggedIn(s.rows, Next(s, Login(key, token, id, secret), env).rows, server, token, id, secret, env)
  {
    ReachedServer(s.config, key, env);
    NextLogin(s, key, token, id, secret, server, env);
    LoginRows(s.rows, server, token, id, secret, env);
  }

  // --------------------------------------------------------- changes of the configuration

  /** The name stands for another endpoint than before. */
  predicate Moves(before: seq<MCPServer>, after: seq<MCPServer>, n: Text, env: Environment) {
    IsConfigured(before, n) && IsConfigured(after, n) && UrlOf(after, n, env) != UrlOf(before, n, env)
  }

  /** The keys under which tokens are kept for the name at its endpoint. */
  function KeysOf(servers: seq<MCPServer>, n: Text, env: Environment): set<Key>
    requires IsConfigured(servers, n)
  {
    {Legacy(n), Bound(n, UrlOf(servers, n, env).value)}
  }

  lemma ForgetsKeys(rows: Rows, servers: seq<MCPServer>, server: MCPServer, env: Environment)
    requires server.name != "" && UrlOf(servers, server.name, env) == Some(ResolvedUrl(server, env))
    ensures
      var left := Forget(rows, server, env);
      && ClientAt(left, server.name) == None
      && (forall k :: k in KeysOf(servers, server.name, env) ==> TokenAt(left, k) == None)
      && OnlyChanges(rows, left, server.name, KeysOf(servers, server.name, env))
  {
  }

  /** The credentials of a name are dropped if it moves, and then its new client is stored. */
  ghost predicate IsStored(before: Rows, after: Rows, name: Text, dropped: set<Key>, id: Text, secret: Text) {
    && ClientAt(after, name) ==
         (if id != "" then Some((id, secret)) else if dropped != {} then None else ClientAt(before, name))
    && (forall k :: k in dropped ==> TokenAt(after, k) == None)
    && OnlyChanges(before, after, name, dropped)
  }

  lemma KeptAndStored(rows: Rows, kept: Rows, name: Text, dropped: set<Key>, id: Text, secret: Text, url: Text)
    requires if dropped == {} then kept == rows
             else
               && ClientAt(kept, name) == None && (forall k :: k in dropped ==> TokenAt(kept, k) == None)
               && OnlyChanges(rows, kept, name, dropped)
    ensures IsStored(rows, WithClient(kept, name, id, secret, url), name, dropped, id, secret)
  {
    ClientStored(kept, name, id, secret, url);
  }

  lemma NextAdd(s: State, item: MCPServer, id: Text, secret: Text, env: Environment)
    requires Outcome(s, AddServer(item, id, secret), env).Some?
    ensures Upserted(s.config, item).Some? && AcceptsUpsert(s.config, item, env)
    ensures Next(s, AddServer(item, id, secret), env) == AfterAdd(s, item, id, secret, env)
  {
  }

  /** What the server stood for before, and what it stands for now. */
  lemma AddedUrls(s: State, item: MCPServer, id: Text, secret: Text, env: Environment)
    requires WellFormed(s.config, env) && Outcome(s, AddServer(item, id, secret), env).Some?
    ensures
      var previous := ServerFor(s.config.servers, item.name);
      && (Moves(s.config.servers, Next(s, AddServer(item, id, secret), env).config.servers, item.name, env) <==>
            previous.Some? && ResolvedUrl(previous.value, env) != ResolvedUrl(item, env))
      && (previous.Some? ==>
            && previous.value.name == item.name != "" && IsConfigured(s.config.servers, item.name)
            && UrlOf(s.config.servers, item.name, env) == Some(ResolvedUrl(previous.value, env)))
  {
    NextAdd(s, item, id, secret, env);
    PreviousIsReplaced(s.config, item, env);
    AddMoves(s, item, item.name, env);
    EmptyNameIsNotConfigured(s.config, env);
  }

  /** A server that is added or replaced is found under its name; its old credentials go iff it moves. */
  lemma AddStores(s: State, item: MCPServer, id: Text, secret: Text, env: Environment)
    requires WellFormed(s.config, env) && Outcome(s, AddServer(item, id, secret), env).Some?
    ensures
      var before, after := s.config.servers, Next(s, AddServer(item, id, secret), env);
      var dropped :=
        if Moves(before, after.config.servers, item.name, env) then KeysOf(before, item.name, env) else {};
      && ServerFor(after.config.servers, item.name) == Stored(item)
      && IsStored(s.rows, after.rows, item.name, dropped, id, secret)
  {
    NextAdd(s, item, id, secret, env);
    UpsertIsFound(s.config, item, item.name, env);
    AddedUrls(s, item, id, secret, env);
    AddedRows(s, item, id, secret, env);
  }

  lemma AddedRows(s: State, item: MCPServer, id: Text, secret: Text, env: Environment)
    requires Upserted(s.config, item).Some?
    requires
      var previous := ServerFor(s.config.servers, item.name);
      previous.Some? ==>
        && previous.value.name == item.name != "" && IsConfigured(s.config.servers, item.name)
        && UrlOf(s.config.servers, item.name, env) == Some(ResolvedUrl(previous.value, env))
    ensures
      var previous := ServerFor(s.config.servers, item.name);
      var dropped := if previous.Some? && ResolvedUrl(previous.value, env) != ResolvedUrl(item, env)
                     then KeysOf(s.config.servers, item.name, env) else {};
      IsStored(s.rows, AfterAdd(s, item, id, secret, env).rows, item.name, dropped, id, secret)
  {
    var previous, url := ServerFor(s.config.servers, item.name), ResolvedUrl(item, env);
    if previous.Some? && ResolvedUrl(previous.value, env) != url {
      var dropped := KeysOf(s.config.servers, item.name, env);
      ForgetsKeys(s.rows, s.config.servers, previous.value, env);
      assert Legacy(item.name) in dropped;
      KeptAndStored(s.rows, Forget(s.rows, previous.value, env), item.name, dropped, id, secret, url);
    } else {
      KeptAndStored(s.rows, s.rows, item.name, {}, id, secret, url);
    }
  }

  /** A server that is removed takes its credentials with it. */
  lemma RemoveDrops(s: State, name: Text, env: Environment)
    requires WellFormed(s.config, env) && Outcome(s, RemoveServer(name), env).Some?
    ensures
      var before, after := s.config.servers, Next(s, RemoveServer(name), env);
      && after.config == s.config.(servers := Others(before, name))
      && ClientAt(after.rows, name) == None
      && (forall k :: k in KeysOf(before, name, env) ==> TokenAt(after.rows, k) == None)
      && OnlyChanges(s.rows, after.rows, name, KeysOf(before, name, env))
  {
    RemoveKeepsOthers(s.config, name, env);
    NameLookup(s.config.servers, name);
    ForgetsKeys(s.rows, s.config.servers, ServerFor(s.config.servers, name).value, env);
  }

  /** The server with other headers. */
  ghost predicate HasMerged(after: MCPServer, before: MCPServer, headers: map<Text, Text>) {
    && after == before.(headers := after.headers)
    && (forall h :: h in after.headers <==> h in before.headers || h in headers)
    && (forall h :: h in after.headers ==> after.headers[h] == if h in headers then headers[h] else before.headers[h])
  }

  /** Of all servers, only the one of that name has other headers. */
  ghost predicate OnlyHeadersMerge(before: seq<MCPServer>, after: seq<MCPServer>, name: Text, headers: map<Text, Text>) {
    && |after| == |before|
    && forall i :: 0 <= i < |before| ==>
         if before[i].name == name then HasMerged(after[i], before[i], headers) else after[i] == before[i]
  }

  lemma HeadersMerge(c: Settings, name: Text, headers: map<Text, Text>)
    requires ServersAreApart(c.servers)
    ensures
      var after := WithHeaders(c, name, headers);
      after == c.(servers := after.servers) && OnlyHeadersMerge(c.servers, after.servers, name, headers)
  {
    NamesAreUnique(c.servers, Position(c.servers, name));
  }

  lemma NextSetAuth(s: State, name: Text, headers: map<Text, Text>, id: Text, secret: Text, env: Environment)
    requires Outcome(s, SetAuth(name, headers, id, secret), env).Some?
    ensures IsConfigured(s.config.servers, name)
    ensures Next(s, SetAuth(name, headers, id, secret), env) ==
            State(WithHeaders(s.config, name, headers),
                  WithClient(s.rows, name, id, secret, UrlOf(s.config.servers, name, env).value))
  {
  }

  /** set_auth merges the headers into those of the one server, stores a client, and touches no token. */
  lemma SetAuthStores(s: State, name: Text, headers: map<Text, Text>, id: Text, secret: Text, env: Environment)
    requires WellFormed(s.config, env) && Outcome(s, SetAuth(name, headers, id, secret), env).Some?
    ensures
      var after := Next(s, SetAuth(name, headers, id, secret), env);
      && after.config == s.config.(servers := after.config.servers)
      && OnlyHeadersMerge(s.config.servers, after.config.servers, name, headers)
      && IsStored(s.rows, after.rows, name, {}, id, secret)
  {
    NextSetAuth(s, name, headers, id, secret, env);
    HeadersMerge(s.config, name, headers);
    KeptAndStored(s.rows, s.rows, name, {}, id, secret, UrlOf(s.config.servers, name, env).value);
  }

  /** A reload drops the credentials of the names that move, and nothing else. */
  lemma ReloadDrops(s: State, decoded: Settings, n: Text, k: Key, env: Environment)
    requires WellFormed(s.config, env) && Loads(decoded, env)
    ensures
      var before, after := s.config.servers, Next(s, Reload(decoded), env);
      && after.config == NormalizedSettings(decoded)
      && ClientAt(after.rows, n) ==
           (if Moves(before, after.config.servers, n, env) then None else ClientAt(s.rows, n))
      && TokenAt(after.rows, k) ==
           (if Moves(before, after.config.servers, k.name, env) && k in KeysOf(before, k.name, env) then None
            else TokenAt(s.rows, k))
  {
    var before, next := s.config.servers, NormalizedSettings(decoded).servers;
    EmptyNameIsNotConfigured(s.config, env);
    ForgetRepointedClients(s.rows, before, next, n, env);
    DroppedIff(before, next, n, env);
    ForgetRepointedTokens(s.rows, before, next, k, env);
    DroppedKeyIff(before, next, k, env);
  }

  lemma RepointedMoves(before: seq<MCPServer>, after: seq<MCPServer>, i: nat, k: Key, env: Environment)
    requires ServersAreApart(before) && i < |before| && before[i].name != ""
    requires Owns(before[i], k, env) && IsRepointed(before[i], after, env)
    ensures Moves(before, after, k.name, env) && k in KeysOf(before, k.name, env)
  {
    NameIsPosition(before, i);
    assert k.name == before[i].name && UrlOf(before, k.name, env) == Some(ResolvedUrl(before[i], env));
  }

  lemma MovedIsDropped(before: seq<MCPServer>, after: seq<MCPServer>, k: Key, env: Environment)
    requires k.name != "" && Moves(before, after, k.name, env) && k in KeysOf(before, k.name, env)
    ensures IsDroppedKey(before, after, k, env)
  {
    var p := Position(before, k.name);
    assert Owns(before[p], k, env) && IsRepointed(before[p], after, env);
  }

  lemma DroppedKeyIff(before: seq<MCPServer>, after: seq<MCPServer>, k: Key, env: Environment)
    requires ServersAreApart(before) && !IsConfigured(before, "")
    ensures IsDroppedKey(before, after, k, env) <==> Moves(before, after, k.name, env) && k in KeysOf(before, k.name, env)
  {
    if IsDroppedKey(before, after, k, env) {
      var i :| 0 <= i < |before| && Owns(before[i], k, env) && IsRepointed(before[i], after, env);
      NameIsPosition(before, i);
      RepointedMoves(before, after, i, k, env);
    } else if Moves(before, after, k.name, env) && k in KeysOf(before, k.name, env) {
      MovedIsDropped(before, after, k, env);
    }
  }

  // ------------------------------------------------------------ when requests succeed

  /** An item is accepted iff writes are allowed, it is sound by itself, and nobody else has one of its names. */
  lemma AddSucceedsIff(s: State, item: MCPServer, id: Text, secret: Text, env: Environment)
    requires WellFormed(s.config, env)
    ensures Outcome(s, AddServer(item, id, secret), env).Some? <==>
              s.config.allowRegistryWrites && IsSound(item, env) && ClashesWithNobody(s.config, item)
  {
    UpsertAcceptedIff(s.config, item, env);
    SoundPerTransport(item, env);
  }

  lemma RemoveSucceedsIff(s: State, name: Text, env: Environment)
    requires WellFormed(s.config, env)
    ensures Outcome(s, RemoveServer(name), env).Some? <==>
              s.config.allowRegistryWrites && exists server :: server in s.config.servers && server.name == name
  {
    EmptyNameIsNotConfigured(s.config, env);
    ConfiguredIff(s.config.servers, name);
  }

  /** Headers are refused for one reason: a stdio server has none. */
  lemma SetAuthSucceedsIff(s: State, name: Text, headers: map<Text, Text>, id: Text, secret: Text, env: Environment)
    requires WellFormed(s.config, env)
    ensures Outcome(s, SetAuth(name, headers, id, secret), env).Some? <==>
              && s.config.allowRegistryWrites
              && exists server :: server in s.config.servers && server.name == name
                                  && (server.transport == "stdio" ==> headers == map[])
  {
    EmptyNameIsNotConfigured(s.config, env);
    var servers, p := s.config.servers, Position(s.config.servers, name);
    if p < |servers| {
      NamesAreUnique(servers, p);
      HeadersAreValidIff(s.config, name, headers, env);
      assert servers[p] in servers;
    }
  }

  lemma HeadersAreValidIff(c: Settings, name: Text, headers: map<Text, Text>, env: Environment)
    requires WellFormed(c, env) && IsConfigured(c.servers, name)
    ensures IsValid(WithHeaders(c, name, headers), env) <==>
              (c.servers[Position(c.servers, name)].transport == "stdio" ==> headers == map[])
  {
    var p := Position(c.servers, name);
    var after := WithHeaders(c, name, headers);
    HeadersKeepNames(c, name, headers, env);
    HeadersAreSoundIff(c.servers[p], c.servers[p].headers + headers, headers, env);
    OneSoundness(c, after, p, env);
  }

  lemma OneSoundness(c: Settings, after: Settings, p: nat, env: Environment)
    requires IsValid(c, env) && p < |c.servers| == |after.servers| && after == c.(servers := after.servers)
    requires forall i :: 0 <= i < |c.servers| && i != p ==> after.servers[i] == c.servers[i]
    requires ServersAreApart(after.servers) && KindsAreApart(after.servers, after.httpServices)
    ensures IsValid(after, env) <==> IsSound(after.servers[p], env)
  {
  }

  lemma HeadersKeepNames(c: Settings, name: Text, headers: map<Text, Text>, env: Environment)
    requires IsValid(c, env) && IsConfigured(c.servers, name)
    ensures
      var p, after := Position(c.servers, name), WithHeaders(c, name, headers);
      && after.servers[p] == c.servers[p].(headers := c.servers[p].headers + headers) && |after.servers| == |c.servers|
      && (forall i :: 0 <= i < |c.servers| && i != p ==> after.servers[i] == c.servers[i])
      && ServersAreApart(after.servers) && KindsAreApart(after.servers, after.httpServices)
  {
    var after := WithHeaders(c, name, headers).servers;
    SameIdsStayApart(c.servers, after, c.httpServices);
  }

  lemma SameIdsStayApart(servers: seq<MCPServer>, after: seq<MCPServer>, services: seq<HTTPService>)
    requires ServersAreApart(servers) && KindsAreApart(servers, services)
    requires |after| == |servers| && forall i :: 0 <= i < |servers| ==> IdsOf(after[i]) == IdsOf(servers[i])
    ensures ServersAreApart(after) && KindsAreApart(after, services)
  {
    forall i, j | 0 <= i < j < |after|
      ensures IdsOf(after[i]) !! IdsOf(after[j])
    {
      assert IdsOf(servers[i]) !! IdsOf(servers[j]);
    }
    forall i, j | 0 <= i < |after| && 0 <= j < |services|
      ensures IdsOf(after[i]) !! ServiceIds(services[j])
    {
      assert IdsOf(servers[i]) !! ServiceIds(services[j]);
    }
  }

  lemma HeadersAreSoundIff(server: MCPServer, merged: map<Text, Text>, headers: map<Text, Text>, env: Environment)
    requires IsSound(server, env) && NormalizeTransport(server.transport) == Some(server.transport)
    requires merged == server.headers + headers
    ensures IsSound(server.(headers := merged), env) <==> (server.transport == "stdio" ==> headers == map[])
  {
    var after := server.(headers := merged);
    SoundPerTransport(server, env);
    SoundPerTransport(after, env);
    SameUrl(server, after, env);
    if server.transport == "stdio" {
      assert merged == headers;
    }
  }

  /** With writes switched off, nothing but a reload changes the configuration, in any run. */
  lemma {:induction false} ReadOnlyRunsKeepTheConfiguration(s: State, actions: seq<Action>, env: Environment)
    requires !s.config.allowRegistryWrites && forall a :: a in actions ==> !a.Reload?
    ensures CredentialBinding.Run(s, actions, env).config == s.config
    decreases |actions|
  {
    if actions != [] {
      assert actions[0] in actions && forall a :: a in actions[1..] ==> a in actions;
      assert Next(s, actions[0], env).config == s.config;
      ReadOnlyRunsKeepTheConfiguration(Next(s, actions[0], env), actions[1..], env);
    }
  }
}
