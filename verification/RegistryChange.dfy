/**
  The actions that change the configuration or the OAuth tables, one step each,
  and what they keep: credentials stay with the endpoint they were obtained for.
 */
module RegistryChange {
  import opened GoText
  import opened Expand
  import opened Config
  import opened OAuthStore

  datatype State = State(config: Settings, rows: Rows)

  datatype Action =
    | AddServer(item: MCPServer, clientId: Text, clientSecret: Text)
    | RemoveServer(name: Text)
    | SetAuth(name: Text, headers: map<Text, Text>, clientId: Text, clientSecret: Text)
    | Reload(decoded: Settings)
    | Login(key: Text, token: Option<Text>, clientId: Text, clientSecret: Text)
    | Logout(key: Text, full: bool)

  /** The endpoint that a name stands for. */
  function UrlOf(servers: seq<MCPServer>, name: Text, env: Environment): Option<Text> {
    var p := Position(servers, name);
    if p < |servers| then Some(ResolvedUrl(servers[p], env)) else None
  }

  predicate IsConfigured(servers: seq<MCPServer>, name: Text) {
    Position(servers, name) < |servers|
  }

  // ------------------------------------------------------------------ the actions

  function WithClient(rows: Rows, name: Text, id: Text, secret: Text, url: Text): Rows {
    if id == "" then rows else rows.(clients := rows.clients[name := Client(id, secret, url)])
  }

  function AfterAdd(s: State, item: MCPServer, id: Text, secret: Text, env: Environment): State
    requires Upserted(s.config, item).Some?
  {
    var previous := ServerFor(s.config.servers, item.name);
    var url := ResolvedUrl(item, env);
    var rows :=
      if previous.Some? && ResolvedUrl(previous.value, env) != url then Forget(s.rows, previous.value, env) else s.rows;
    State(Upserted(s.config, item).value, WithClient(rows, item.name, id, secret, url))
  }

  function AfterRemove(s: State, name: Text, env: Environment): State {
    var removed := ServerFor(s.config.servers, name);
    State(Removed(s.config, name), if removed.Some? then Forget(s.rows, removed.value, env) else s.rows)
  }

  function WithHeaders(c: Settings, name: Text, headers: map<Text, Text>): Settings {
    var p := Position(c.servers, name);
    if p < |c.servers| then
      c.(servers := c.servers[p := c.servers[p].(headers := c.servers[p].headers + headers)])
    else c
  }

  function AfterSetAuth(s: State, name: Text, headers: map<Text, Text>, id: Text, secret: Text, env: Environment): State
    requires IsConfigured(s.config.servers, name)
  {
    State(WithHeaders(s.config, name, headers),
          WithClient(s.rows, name, id, secret, UrlOf(s.config.servers, name, env).value))
  }

  predicate IsRepointed(server: MCPServer, next: seq<MCPServer>, env: Environment) {
    var url := UrlOf(next, server.name, env);
    url.Some? && url.value != ResolvedUrl(server, env)
  }

  /** forgetRepointedOAuthState, server after server. */
  function ForgetRepointed(rows: Rows, previous: seq<MCPServer>, next: seq<MCPServer>, env: Environment): Rows
    decreases |previous|
  {
    if previous == [] then rows
    else
      ForgetRepointed(if IsRepointed(previous[0], next, env) then Forget(rows, previous[0], env) else rows,
                      previous[1..], next, env)
  }

  function AfterLogin(rows: Rows, server: MCPServer, token: Option<Text>, id: Text, secret: Text, env: Environment): Rows {
    var url := ResolvedUrl(server, env);
    var adopted := Adopted(rows, Legacy(server.name), TokenKey(server, env));
    var kept :=
      if token.Some? then adopted.(tokens := adopted.tokens[TokenKey(server, env) := OAuthStore.Token(token.value, url)])
      else adopted;
    WithClient(kept, server.name, id, secret, url)
  }

  function AfterLogout(rows: Rows, server: MCPServer, full: bool, env: Environment): Rows {
    var left := WithoutTokens(rows, {TokenKey(server, env), Legacy(server.name)});
    if full then left.(clients := left.clients - {server.name}) else left
  }

  /** None is an error response: nothing changes. Login stands for every use of OAuth at a server. */
  ghost function Outcome(s: State, a: Action, env: Environment): Option<State> {
    var c := s.config;
    match a
    case AddServer(item, id, secret) =>
      if c.allowRegistryWrites && item.name != "" && AcceptsUpsert(c, item, env)
      then Some(AfterAdd(s, item, id, secret, env)) else None
    case RemoveServer(name) =>
      if c.allowRegistryWrites && name != "" && IsConfigured(c.servers, name) then Some(AfterRemove(s, name, env)) else None
    case SetAuth(name, headers, id, secret) =>
      if && c.allowRegistryWrites && name != "" && IsConfigured(c.servers, name)
         && IsValid(WithHeaders(c, name, headers), env)
      then Some(AfterSetAuth(s, name, headers, id, secret, env)) else None
    case Reload(decoded) =>
      if Loads(decoded, env) then
        var next := NormalizedSettings(decoded);
        Some(State(next, ForgetRepointed(s.rows, c.servers, next.servers, env)))
      else None
    case Login(key, token, id, secret) =>
      var server := ServerFor(c.servers, key);
      if server.Some? && server.value.transport != "stdio"
      then Some(s.(rows := AfterLogin(s.rows, server.value, token, id, secret, env))) else None
    case Logout(key, full) =>
      var server := ServerFor(c.servers, key);
      if key != "" && server.Some? then Some(s.(rows := AfterLogout(s.rows, server.value, full, env))) else None
  }

  ghost function Next(s: State, a: Action, env: Environment): State {
    match Outcome(s, a, env)
    case None => s
    case Some(s') => s'
  }

  // ------------------------------------------------------------------- invariants

  /** Nothing that is stored for a configured name was obtained for another endpoint. */
  ghost predicate ClientsAreBound(servers: seq<MCPServer>, rows: Rows, env: Environment) {
    forall n :: n in rows.clients && IsConfigured(servers, n) ==> UrlOf(servers, n, env) == Some(rows.clients[n].savedFor)
  }

  predicate TokenIsBound(servers: seq<MCPServer>, key: Key, token: OAuthStore.Token, env: Environment) {
    match key
    case Bound(_, url) => token.issuedFor == url
    case Legacy(n) => IsConfigured(servers, n) ==> UrlOf(servers, n, env) == Some(token.issuedFor)
  }

  ghost predicate TokensAreBound(servers: seq<MCPServer>, rows: Rows, env: Environment) {
    forall k :: k in rows.tokens ==> TokenIsBound(servers, k, rows.tokens[k], env)
  }

  ghost predicate Inv(s: State, env: Environment) {
    && WellFormed(s.config, env)
    && ClientsAreBound(s.config.servers, s.rows, env)
    && TokensAreBound(s.config.servers, s.rows, env)
  }

  /** Every row that is kept by name alone belongs to a configured name. */
  ghost predicate RowsAreOwned(s: State) {
    && (forall n :: n in s.rows.clients ==> IsConfigured(s.config.servers, n))
    && (forall n :: Legacy(n) in s.rows.tokens ==> IsConfigured(s.config.servers, n))
  }

  /** The name for which an action that may introduce it saves a client of its own. */
  function Saved(a: Action): set<Text> {
    if a.AddServer? && a.clientId != "" then {a.item.name} else {}
  }

  /** Nothing is stored under the name for another endpoint, except a client that is saved anew. */
  predicate NothingStaleFor(n: Text, url: Option<Text>, rows: Rows, saved: set<Text>) {
    && (n in rows.clients && n !in saved ==> url == Some(rows.clients[n].savedFor))
    && (Legacy(n) in rows.tokens ==> url == Some(rows.tokens[Legacy(n)].issuedFor))
  }

  /**
    No name that is introduced has rows left over from an earlier server of that
    name at another endpoint.
   */
  ghost predicate NothingStale(before: seq<MCPServer>, after: seq<MCPServer>, rows: Rows, saved: set<Text>, env: Environment) {
    forall n :: !IsConfigured(before, n) && IsConfigured(after, n) ==>
      NothingStaleFor(n, UrlOf(after, n, env), rows, saved)
  }

  ghost predicate NoStaleRows(s: State, a: Action, env: Environment) {
    NothingStale(s.config.servers, Next(s, a, env).config.servers, s.rows, Saved(a), env)
  }

  /** Nothing is stored under the name at all, except a client that is saved anew. */
  predicate NothingLeftOverFor(n: Text, rows: Rows, saved: set<Text>) {
    && (n in rows.clients ==> n in saved)
    && Legacy(n) !in rows.tokens
  }

  /** No name that is introduced has rows left over from an earlier server of that name. */
  ghost predicate NothingLeftOver(before: seq<MCPServer>, after: seq<MCPServer>, rows: Rows, saved: set<Text>) {
    forall n :: !IsConfigured(before, n) && IsConfigured(after, n) ==> NothingLeftOverFor(n, rows, saved)
  }

  /** The check on the configuration and the tables alone, before the action. */
  ghost predicate LeavesNothingOver(s: State, a: Action, env: Environment) {
    NothingLeftOver(s.config.servers, Next(s, a, env).config.servers, s.rows, Saved(a))
  }

  // ------------------------------------------------------------ what names stand for

  lemma NameIsPosition(servers: seq<MCPServer>, i: nat)
    requires ServersAreApart(servers) && i < |servers|
    ensures Position(servers, servers[i].name) == i
  {
    NamesAreUnique(servers, i);
  }

  lemma ConfiguredIff(servers: seq<MCPServer>, name: Text)
    ensures IsConfigured(servers, name) <==> exists s :: s in servers && s.name == name
  {
  }

  /** A name is looked up as the server of that name, though aliases are looked at too. */
  lemma NameLookup(servers: seq<MCPServer>, name: Text)
    requires ServersAreApart(servers) && (forall s :: s in servers ==> s.alias != "")
    requires IsConfigured(servers, name)
    ensures ServerFor(servers, name) == Some(servers[Position(servers, name)])
  {
    ServerForIsTheMatch(servers, name, Position(servers, name));
  }

  lemma LookedUpIsConfigured(servers: seq<MCPServer>, key: Text, env: Environment)
    requires ServersAreApart(servers) && ServerFor(servers, key).Some?
    ensures
      var server := ServerFor(servers, key).value;
      server in servers && UrlOf(servers, server.name, env) == Some(ResolvedUrl(server, env))
  {
    ServerForFinds(servers, key);
    var i :| 0 <= i < |servers| && servers[i] == ServerFor(servers, key).value;
    NameIsPosition(servers, i);
  }

  lemma UrlsAfterUpsert(servers: seq<MCPServer>, item: MCPServer, n: Text, env: Environment)
    ensures UrlOf(WithServer(servers, item), n, env) ==
              if n == item.name then Some(ResolvedUrl(item, env)) else UrlOf(servers, n, env)
  {
    var after := WithServer(servers, item);
    var p := Position(servers, item.name);
    assert after[p] == item;
    assert forall i :: 0 <= i < |after| && i != p ==> after[i] == servers[i];
    SamePosition(servers, after, p, n);
  }

  lemma SamePosition(servers: seq<MCPServer>, after: seq<MCPServer>, p: nat, n: Text)
    requires p <= |servers| && |after| == (if p < |servers| then |servers| else p + 1)
    requires forall i :: 0 <= i < |after| && i != p ==> after[i] == servers[i]
    requires p < |servers| ==> servers[p].name == after[p].name
    requires forall i :: 0 <= i < p ==> servers[i].name != after[p].name
    ensures n == after[p].name ==> Position(after, n) == p
    ensures n != after[p].name ==> IsConfigured(after, n) == IsConfigured(servers, n)
    ensures n != after[p].name && IsConfigured(servers, n) ==>
              Position(after, n) == Position(servers, n) && Position(after, n) != p
  {
  }

  lemma WithoutTail(servers: seq<MCPServer>, name: Text)
    requires servers != [] && servers[0].name != name
    ensures WithoutServer(servers, name) == [servers[0]] + WithoutServer(servers[1..], name)
  {
    var tail, p := servers[1..], Position(servers[1..], name);
    assert servers == [servers[0]] + tail;
    if p < |tail| {
      assert servers[..p + 1] == [servers[0]] + tail[..p];
      assert servers[p + 2..] == tail[p + 1..];
    }
  }

  lemma UrlOfHead(server: MCPServer, tail: seq<MCPServer>, n: Text, env: Environment)
    ensures UrlOf([server] + tail, n, env) == if server.name == n then Some(ResolvedUrl(server, env)) else UrlOf(tail, n, env)
  {
    assert ([server] + tail)[1..] == tail;
  }

  lemma {:induction false} UrlsAfterRemove(servers: seq<MCPServer>, name: Text, n: Text, env: Environment)
    requires ServersAreApart(servers)
    ensures UrlOf(WithoutServer(servers, name), n, env) == if n == name then None else UrlOf(servers, n, env)
    decreases |servers|
  {
    if servers != [] {
      var tail := servers[1..];
      assert servers == [servers[0]] + tail;
      UrlOfHead(servers[0], tail, n, env);
      if servers[0].name == name {
        assert WithoutServer(servers, name) == tail;
        NamesAreUnique(servers, 0);
        assert forall i :: 0 <= i < |tail| ==> tail[i] == servers[i + 1];
      } else {
        assert ServersAreApart(tail);
        UrlsAfterRemove(tail, name, n, env);
        WithoutTail(servers, name);
        UrlOfHead(servers[0], WithoutServer(tail, name), n, env);
      }
    }
  }

  lemma UrlsAfterHeaders(c: Settings, name: Text, headers: map<Text, Text>, n: Text, env: Environment)
    requires IsConfigured(c.servers, name)
    ensures UrlOf(WithHeaders(c, name, headers).servers, n, env) == UrlOf(c.servers, n, env)
  {
    var p := Position(c.servers, name);
    var after := WithHeaders(c, name, headers).servers;
    SamePosition(c.servers, after, p, n);
    assert after[p].url == c.servers[p].url;
  }
}
