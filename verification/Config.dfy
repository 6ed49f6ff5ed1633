/**
  The configuration: MCP servers and HTTP services that share one namespace of
  names and aliases, and the operations that change it.

  `Settings` is what a configuration says; the class is the object that the
  program edits. What is checked of one HTTP service beyond its names and its
  base URL is one flag here.
 */
module Config {
  import opened GoText
  import opened Expand

  datatype MCPServer = MCPServer(
    name: Text, alias: Text, url: Text, transport: Text,
    headers: map<Text, Text>, headersHelper: Text,
    command: Text, args: seq<Text>, env: map<Text, Text>)

  datatype HTTPService = HTTPService(name: Text, alias: Text, baseUrl: Text, restIsSound: bool)

  datatype Settings = Settings(
    historySize: int, allowRegistryWrites: bool, servers: seq<MCPServer>, httpServices: seq<HTTPService>)

  const DEFAULT_HISTORY_SIZE := 1000

  function TransportOf(word: Text): Option<Text> {
    if word == "" || word == "http" || word == "streamable-http" then Some("http")
    else if word == "sse" then Some("sse")
    else if word == "stdio" then Some("stdio")
    else None
  }

  function NormalizeTransport(value: Text): Option<Text> {
    TransportOf(TrimSpace(ToLower(value)))
  }

  function ResolvedUrl(server: MCPServer, env: Environment): Text {
    Expanded(server.url, env).text
  }

  /** The names under which an entry can be reached. */
  function Identifiers(name: Text, alias: Text): set<Text> {
    {name, if alias == "" then name else alias}
  }

  function IdsOf(server: MCPServer): set<Text> {
    Identifiers(server.name, server.alias)
  }

  function ServiceIds(service: HTTPService): set<Text> {
    Identifiers(service.name, service.alias)
  }

  // -------------------------------------------------------------- what is accepted

  datatype Problem =
    | NoName | UnknownTransport | NoCommand | UrlWithStdio | HeadersWithStdio | NoUrl | CommandWithoutStdio

  /** What is wrong with one server on its own, given its transport in normal form and whether it has a URL. */
  function ProblemWith(server: MCPServer, transport: Option<Text>, hasUrl: bool): Option<Problem> {
    if server.name == "" then Some(NoName)
    else if transport.None? then Some(UnknownTransport)
    else if transport.value == "stdio" then
      if server.command == "" then Some(NoCommand)
      else if server.url != "" then Some(UrlWithStdio)
      else if server.headers != map[] || server.headersHelper != "" then Some(HeadersWithStdio)
      else None
    else if !hasUrl then Some(NoUrl)
    else if server.command != "" || server.args != [] || server.env != map[] then Some(CommandWithoutStdio)
    else None
  }

  function ProblemOf(server: MCPServer, env: Environment): Option<Problem> {
    ProblemWith(server, NormalizeTransport(server.transport), TrimSpace(ResolvedUrl(server, env)) != "")
  }

  predicate IsSound(server: MCPServer, env: Environment) {
    ProblemOf(server, env) == None
  }

  /** What soundness comes to: a command and nothing else for stdio, a URL and no command for the others. */
  lemma SoundPerTransport(server: MCPServer, env: Environment)
    ensures
      var transport := NormalizeTransport(server.transport);
      IsSound(server, env) <==>
        && server.name != "" && transport.Some?
        && (transport == Some("stdio") ==>
              server.command != "" && server.url == "" && server.headers == map[] && server.headersHelper == "")
        && (transport != Some("stdio") ==>
              TrimSpace(ResolvedUrl(server, env)) != "" && server.command == "" && server.args == [] && server.env == map[])
  {
  }

  predicate IsSoundService(service: HTTPService, env: Environment) {
    TrimSpace(service.name) != "" && Expanded(service.baseUrl, env).missing == "" && service.restIsSound
  }

  ghost predicate ServersAreApart(servers: seq<MCPServer>) {
    forall i, j :: 0 <= i < j < |servers| ==> IdsOf(servers[i]) !! IdsOf(servers[j])
  }

  ghost predicate ServicesAreApart(services: seq<HTTPService>) {
    forall i, j :: 0 <= i < j < |services| ==> ServiceIds(services[i]) !! ServiceIds(services[j])
  }

  ghost predicate KindsAreApart(servers: seq<MCPServer>, services: seq<HTTPService>) {
    forall i, j :: 0 <= i < |servers| && 0 <= j < |services| ==> IdsOf(servers[i]) !! ServiceIds(services[j])
  }

  ghost predicate IsValid(c: Settings, env: Environment) {
    && c.historySize >= 0
    && (forall i :: 0 <= i < |c.servers| ==> IsSound(c.servers[i], env))
    && (forall i :: 0 <= i < |c.httpServices| ==> IsSoundService(c.httpServices[i], env))
    && ServersAreApart(c.servers)
    && ServicesAreApart(c.httpServices)
    && KindsAreApart(c.servers, c.httpServices)
  }

  /** What Load and UpsertServer see to: transports in normal form, and every alias set. */
  ghost predicate IsNormal(c: Settings) {
    && c.historySize != 0
    && (forall i :: 0 <= i < |c.servers| ==>
          NormalizeTransport(c.servers[i].transport) == Some(c.servers[i].transport) && c.servers[i].alias != "")
    && (forall i :: 0 <= i < |c.httpServices| ==> c.httpServices[i].alias != "")
  }

  ghost predicate WellFormed(c: Settings, env: Environment) {
    IsValid(c, env) && IsNormal(c)
  }

  function ServersIds(servers: seq<MCPServer>): set<Text> {
    set i, id | 0 <= i < |servers| && id in IdsOf(servers[i]) :: id
  }

  function ServicesIds(services: seq<HTTPService>): set<Text> {
    set i, id | 0 <= i < |services| && id in ServiceIds(services[i]) :: id
  }

  // -------------------------------------------------------------------- lookups

  predicate Answers(server: MCPServer, key: Text) {
    server.name == key || server.alias == key
  }

  predicate ServiceAnswers(service: HTTPService, key: Text) {
    service.name == key || service.alias == key
  }

  /** The first server that answers to the key. */
  method FindServer(servers: seq<MCPServer>, key: Text) returns (found: Option<MCPServer>)
    ensures found == ServerFor(servers, key)
  {
    for i := 0 to |servers|
      invariant forall k :: 0 <= k < i ==> !Answers(servers[k], key)
    {
      if Answers(servers[i], key) {
        FirstAnswer(servers, key, i);
        return Some(servers[i]);
      }
    }
    NoAnswer(servers, key);
    return None;
  }

  function ServerFor(servers: seq<MCPServer>, key: Text): Option<MCPServer> {
    if servers == [] then None
    else if Answers(servers[0], key) then Some(servers[0])
    else ServerFor(servers[1..], key)
  }

  function ServiceFor(services: seq<HTTPService>, key: Text): Option<HTTPService> {
    if services == [] then None
    else if ServiceAnswers(services[0], key) then Some(services[0])
    else ServiceFor(services[1..], key)
  }

  lemma {:induction false} FirstAnswer(servers: seq<MCPServer>, key: Text, i: nat)
    requires i < |servers| && Answers(servers[i], key)
    requires forall k :: 0 <= k < i ==> !Answers(servers[k], key)
    ensures ServerFor(servers, key) == Some(servers[i])
  {
    if i > 0 {
      FirstAnswer(servers[1..], key, i - 1);
    }
  }

  lemma {:induction false} NoAnswer(servers: seq<MCPServer>, key: Text)
    requires forall k :: 0 <= k < |servers| ==> !Answers(servers[k], key)
    ensures ServerFor(servers, key) == None
  {
    if servers != [] {
      NoAnswer(servers[1..], key);
    }
  }

  lemma {:induction false} FirstServiceAnswer(services: seq<HTTPService>, key: Text, i: nat)
    requires i < |services| && ServiceAnswers(services[i], key)
    requires forall k :: 0 <= k < i ==> !ServiceAnswers(services[k], key)
    ensures ServiceFor(services, key) == Some(services[i])
  {
    if i > 0 {
      FirstServiceAnswer(services[1..], key, i - 1);
    }
  }

  lemma {:induction false} NoServiceAnswer(services: seq<HTTPService>, key: Text)
    requires forall k :: 0 <= k < |services| ==> !ServiceAnswers(services[k], key)
    ensures ServiceFor(services, key) == None
  {
    if services != [] {
      NoServiceAnswer(services[1..], key);
    }
  }

  method FindHTTPService(services: seq<HTTPService>, key: Text) returns (found: Option<HTTPService>)
    ensures found == ServiceFor(services, key)
  {
    for i := 0 to |services|
      invariant forall k :: 0 <= k < i ==> !ServiceAnswers(services[k], key)
    {
      if ServiceAnswers(services[i], key) {
        FirstServiceAnswer(services, key, i);
        return Some(services[i]);
      }
    }
    NoServiceAnswer(services, key);
    return None;
  }

  /** canonicalServerName. */
  function CanonicalName(c: Settings, key: Text): Text {
    match ServerFor(c.servers, key)
    case Some(server) => server.name
    case None =>
      match ServiceFor(c.httpServices, key)
      case Some(service) => service.name
      case None => key
  }

  lemma {:induction false} ServerForFinds(servers: seq<MCPServer>, key: Text)
    ensures ServerFor(servers, key).Some? ==>
              ServerFor(servers, key).value in servers && Answers(ServerFor(servers, key).value, key)
    ensures ServerFor(servers, key).None? ==> forall s :: s in servers ==> !Answers(s, key)
  {
    if servers != [] {
      ServerForFinds(servers[1..], key);
      assert forall s :: s in servers ==> s == servers[0] || s in servers[1..];
    }
  }

  /** Whatever server answers is the one that is found. */
  lemma ServerForIsTheMatch(servers: seq<MCPServer>, key: Text, i: nat)
    requires ServersAreApart(servers) && (forall s :: s in servers ==> s.alias != "")
    requires i < |servers| && Answers(servers[i], key)
    ensures ServerFor(servers, key) == Some(servers[i])
  {
    forall k | 0 <= k < i
      ensures !Answers(servers[k], key)
    {
      assert IdsOf(servers[k]) !! IdsOf(servers[i]) && key in IdsOf(servers[i]);
    }
    FirstAnswer(servers, key, i);
  }

  lemma ServiceForIsTheMatch(services: seq<HTTPService>, key: Text, i: nat)
    requires ServicesAreApart(services) && (forall s :: s in services ==> s.alias != "")
    requires i < |services| && ServiceAnswers(services[i], key)
    ensures ServiceFor(services, key) == Some(services[i])
  {
    forall k | 0 <= k < i
      ensures !ServiceAnswers(services[k], key)
    {
      assert ServiceIds(services[k]) !! ServiceIds(services[i]) && key in ServiceIds(services[i]);
    }
    FirstServiceAnswer(services, key, i);
  }

  /**
    In an accepted configuration the order of the entries does not matter: no
    key reaches two entries, of whichever kind.
   */
  lemma LookupIgnoresOrder(c: Settings, d: Settings, key: Text, env: Environment)
    requires IsValid(c, env) && IsNormal(c)
    requires multiset(c.servers) == multiset(d.servers) && multiset(c.httpServices) == multiset(d.httpServices)
    ensures ServerFor(c.servers, key) == ServerFor(d.servers, key)
    ensures ServiceFor(c.httpServices, key) == ServiceFor(d.httpServices, key)
    ensures ServerFor(c.servers, key).None? || ServiceFor(c.httpServices, key).None?
    ensures CanonicalName(c, key) == CanonicalName(d, key)
  {
    SameServer(c.servers, d.servers, key);
    SameService(c.httpServices, d.httpServices, key);
    ServerForFinds(c.servers, key);
    ServiceForFinds(c.httpServices, key);
    if ServerFor(c.servers, key).Some? {
      assert key in IdsOf(ServerFor(c.servers, key).value);
      forall s | s in c.httpServices
        ensures !ServiceAnswers(s, key)
      {
        assert IdsOf(ServerFor(c.servers, key).value) !! ServiceIds(s);
      }
    }
  }

  lemma {:induction false} ServiceForFinds(services: seq<HTTPService>, key: Text)
    ensures ServiceFor(services, key).Some? ==>
              ServiceFor(services, key).value in services && ServiceAnswers(ServiceFor(services, key).value, key)
    ensures ServiceFor(services, key).None? ==> forall s :: s in services ==> !ServiceAnswers(s, key)
  {
    if services != [] {
      ServiceForFinds(services[1..], key);
      assert forall s :: s in services ==> s == services[0] || s in services[1..];
    }
  }

  lemma SameServer(a: seq<MCPServer>, b: seq<MCPServer>, key: Text)
    requires ServersAreApart(a) && (forall s :: s in a ==> s.alias != "")
    requires multiset(a) == multiset(b)
    ensures ServerFor(a, key) == ServerFor(b, key)
  {
    ServerForFinds(a, key);
    ServerForFinds(b, key);
    assert forall s :: s in b ==> s in multiset(a);
    assert forall s :: s in a ==> s in multiset(b);
    if ServerFor(b, key).Some? {
      var i :| 0 <= i < |a| && a[i] == ServerFor(b, key).value;
      ServerForIsTheMatch(a, key, i);
    }
  }

  lemma SameService(a: seq<HTTPService>, b: seq<HTTPService>, key: Text)
    requires ServicesAreApart(a) && (forall s :: s in a ==> s.alias != "")
    requires multiset(a) == multiset(b)
    ensures ServiceFor(a, key) == ServiceFor(b, key)
  {
    ServiceForFinds(a, key);
    ServiceForFinds(b, key);
    assert forall s :: s in b ==> s in multiset(a);
    assert forall s :: s in a ==> s in multiset(b);
    if ServiceFor(b, key).Some? {
      var i :| 0 <= i < |a| && a[i] == ServiceFor(b, key).value;
      ServiceForIsTheMatch(a, key, i);
    }
  }

  /** Every entry is reached under its name and its alias, whichever kind it is, and nothing else answers to them. */
  lemma NamesReachTheirEntries(c: Settings, i: nat, key: Text, env: Environment)
    requires IsValid(c, env) && IsNormal(c)
    ensures i < |c.servers| && key in {c.servers[i].name, c.servers[i].alias} ==>
              ServerFor(c.servers, key) == Some(c.servers[i]) && ServiceFor(c.httpServices, key) == None
              && CanonicalName(c, key) == c.servers[i].name
    ensures i < |c.httpServices| && key in {c.httpServices[i].name, c.httpServices[i].alias} ==>
              ServiceFor(c.httpServices, key) == Some(c.httpServices[i]) && ServerFor(c.servers, key) == None
              && CanonicalName(c, key) == c.httpServices[i].name
  {
    LookupIgnoresOrder(c, c, key, env);
    if i < |c.servers| && key in {c.servers[i].name, c.servers[i].alias} {
      ServerForIsTheMatch(c.servers, key, i);
    }
    if i < |c.httpServices| && key in {c.httpServices[i].name, c.httpServices[i].alias} {
      ServiceForIsTheMatch(c.httpServices, key, i);
    }
  }

  /** History is kept under one identifier: the canonical name is its own canonical name. */
  lemma CanonicalNameIsCanonical(c: Settings, key: Text, env: Environment)
    requires IsValid(c, env) && IsNormal(c)
    ensures CanonicalName(c, CanonicalName(c, key)) == CanonicalName(c, key)
  {
    ServerForFinds(c.servers, key);
    ServiceForFinds(c.httpServices, key);
    if ServerFor(c.servers, key).Some? {
      var i :| 0 <= i < |c.servers| && c.servers[i] == ServerFor(c.servers, key).value;
      ServerForIsTheMatch(c.servers, c.servers[i].name, i);
    } else if ServiceFor(c.httpServices, key).Some? {
      var i :| 0 <= i < |c.httpServices| && c.httpServices[i] == ServiceFor(c.httpServices, key).value;
      var name := c.httpServices[i].name;
      ServiceForIsTheMatch(c.httpServices, name, i);
      LookupIgnoresOrder(c, c, name, env);
    }
  }

  // ---------------------------------------------------------- changes, as functions

  /** Where the first server with this very name is, or the length. */
  function Position(servers: seq<MCPServer>, name: Text): (p: nat)
    ensures p <= |servers|
    ensures p < |servers| ==> servers[p].name == name
    ensures forall k :: 0 <= k < p ==> servers[k].name != name
  {
    if servers == [] || servers[0].name == name then 0 else 1 + Position(servers[1..], name)
  }

  function WithServer(servers: seq<MCPServer>, item: MCPServer): seq<MCPServer> {
    var p := Position(servers, item.name);
    if p < |servers| then servers[p := item] else servers + [item]
  }

  function WithoutServer(servers: seq<MCPServer>, name: Text): seq<MCPServer> {
    var p := Position(servers, name);
    if p < |servers| then servers[..p] + servers[p + 1..] else servers
  }

  /** A server as UpsertServer stores it and as Load reads it: in normal form. */
  function Stored(item: MCPServer): Option<MCPServer> {
    match NormalizeTransport(item.transport)
    case None => None
    case Some(transport) => Some(item.(transport := transport, alias := if item.alias == "" then item.name else item.alias))
  }

  function Upserted(c: Settings, item: MCPServer): Option<Settings> {
    match Stored(item)
    case None => None
    case Some(stored) => Some(c.(servers := WithServer(c.servers, stored)))
  }

  function Removed(c: Settings, name: Text): Settings {
    c.(servers := WithoutServer(c.servers, name))
  }

  ghost predicate AcceptsUpsert(c: Settings, item: MCPServer, env: Environment) {
    Upserted(c, item).Some? && IsValid(Upserted(c, item).value, env)
  }

  /** Load's defaults. */
  function NormalizedService(service: HTTPService): HTTPService {
    service.(alias := if service.alias == "" then service.name else service.alias)
  }

  predicate HasKnownTransports(c: Settings) {
    forall i :: 0 <= i < |c.servers| ==> Stored(c.servers[i]).Some?
  }

  function NormalizedSettings(c: Settings): Settings
    requires HasKnownTransports(c)
  {
    c.(historySize := if c.historySize == 0 then DEFAULT_HISTORY_SIZE else c.historySize,
       servers := seq(|c.servers|, i requires 0 <= i < |c.servers| => Stored(c.servers[i]).value),
       httpServices := seq(|c.httpServices|, i requires 0 <= i < |c.httpServices| => NormalizedService(c.httpServices[i])))
  }

  ghost predicate Loads(c: Settings, env: Environment) {
    HasKnownTransports(c) && IsValid(NormalizedSettings(c), env)
  }

  lemma TransportIsNormalOnce(value: Text)
    requires NormalizeTransport(value).Some?
    ensures NormalizeTransport(NormalizeTransport(value).value) == NormalizeTransport(value)
  {
    NormalTransportStays(NormalizeTransport(value).value);
  }

  lemma NormalTransportStays(word: Text)
    requires TransportOf(word) == Some(word)
    ensures NormalizeTransport(word) == Some(word)
  {
    KnownWordIsPlain(word);
    PlainWordStays(word);
  }

  lemma KnownWordIsPlain(word: Text)
    requires TransportOf(word) == Some(word)
    ensures forall i :: 0 <= i < |word| ==> 97 <= word[i] as int <= 122
  {
  }

  lemma PlainWordStays(word: Text)
    requires forall i :: 0 <= i < |word| ==> 97 <= word[i] as int <= 122
    ensures TrimSpace(ToLower(word)) == word
  {
    LowerCaseStays(word);
    TrimSpaceIsIdentity(word);
  }

  /** Which words name a transport, in whatever case and with whatever blanks around them. */
  lemma TransportWords(value: Text)
    ensures
      var word, transport := TrimSpace(ToLower(value)), NormalizeTransport(value);
      && (transport == Some("http") <==> word in {"", "http", "streamable-http"})
      && (transport == Some("sse") <==> word == "sse")
      && (transport == Some("stdio") <==> word == "stdio")
      && (transport.Some? ==> transport.value in {"http", "sse", "stdio"})
  {
  }

  /** Apart from the transport and an alias that was not set, a server is stored as it is given. */
  lemma StoredKeepsTheRest(item: MCPServer)
    requires Stored(item).Some?
    ensures
      var stored := Stored(item).value;
      && stored.(transport := item.transport, alias := item.alias) == item
      && NormalizeTransport(item.transport) == Some(stored.transport)
      && (if item.alias == "" then stored.alias == item.name else stored.alias == item.alias)
  {
  }

  /** So does loading keep everything else, and the history that it leaves is bounded. */
  lemma LoadingKeepsTheRest(c: Settings, env: Environment)
    requires Loads(c, env)
    ensures
      var d := NormalizedSettings(c);
      && d.allowRegistryWrites == c.allowRegistryWrites
      && d.historySize == (if c.historySize == 0 then 1000 else c.historySize) && d.historySize > 0
      && |d.servers| == |c.servers| && |d.httpServices| == |c.httpServices|
      && (forall i :: 0 <= i < |c.servers| ==> Some(d.servers[i]) == Stored(c.servers[i]))
      && (forall i :: 0 <= i < |c.httpServices| ==>
            && d.httpServices[i].(alias := c.httpServices[i].alias) == c.httpServices[i]
            && (c.httpServices[i].alias != "" ==> d.httpServices[i].alias == c.httpServices[i].alias)
            && (c.httpServices[i].alias == "" ==> d.httpServices[i].alias == c.httpServices[i].name))
  {
  }

  /** A loaded configuration is in normal form, and writing it and loading it again changes nothing. */
  lemma LoadedIsNormal(c: Settings, env: Environment)
    requires Loads(c, env)
    ensures IsNormal(NormalizedSettings(c))
    ensures Loads(NormalizedSettings(c), env) && NormalizedSettings(NormalizedSettings(c)) == NormalizedSettings(c)
  {
    var d := NormalizedSettings(c);
    forall i | 0 <= i < |d.servers|
      ensures NormalizeTransport(d.servers[i].transport) == Some(d.servers[i].transport) && d.servers[i].alias != ""
    {
      TransportIsNormalOnce(c.servers[i].transport);
      assert IsSound(d.servers[i], env);
    }
    forall i | 0 <= i < |d.httpServices|
      ensures d.httpServices[i].alias != ""
    {
      assert IsSoundService(d.httpServices[i], env);
    }
    NormalReloadsAsItself(d);
  }

  /** What an action has saved is what the next reload finds. */
  lemma NormalReloadsAsItself(c: Settings)
    requires IsNormal(c)
    ensures HasKnownTransports(c) && NormalizedSettings(c) == c
  {
    var d := NormalizedSettings(c);
    assert forall i :: 0 <= i < |c.servers| ==> d.servers[i] == c.servers[i];
    assert d.servers == c.servers;
    assert d.httpServices == c.httpServices;
  }

  // ------------------------------------------------------------- laws of the changes

  /** The servers with another name, in order. */
  function Others(servers: seq<MCPServer>, name: Text): seq<MCPServer> {
    if servers == [] then []
    else (if servers[0].name == name then [] else [servers[0]]) + Others(servers[1..], name)
  }

  lemma {:induction false} OthersOfConcat(a: seq<MCPServer>, b: seq<MCPServer>, name: Text)
    ensures Others(a + b, name) == Others(a, name) + Others(b, name)
  {
    if a == [] {
      assert a + b == b;
    } else {
      OthersOfConcat(a[1..], b, name);
      TailOfConcat(a, b);
      Associative(if a[0].name == name then [] else [a[0]], Others(a[1..], name), Others(b, name));
    }
  }

  lemma {:induction false} OthersOfApart(servers: seq<MCPServer>, name: Text)
    requires forall s :: s in servers ==> s.name != name
    ensures Others(servers, name) == servers
  {
    if servers != [] {
      OthersOfApart(servers[1..], name);
      assert [servers[0]] + servers[1..] == servers;
    }
  }

  lemma SplitAt(servers: seq<MCPServer>, p: nat)
    requires p < |servers|
    ensures servers == servers[..p] + ([servers[p]] + servers[p + 1..])
  {
  }

  lemma OthersOfOne(server: MCPServer, rest: seq<MCPServer>, name: Text)
    requires server.name == name
    ensures Others([server] + rest, name) == Others(rest, name)
  {
    assert ([server] + rest)[1..] == rest;
  }

  /** An upsert leaves every other server where it was in the order. */
  lemma UpsertKeepsOthers(servers: seq<MCPServer>, item: MCPServer)
    ensures Others(WithServer(servers, item), item.name) == Others(servers, item.name)
    ensures item in WithServer(servers, item)
  {
    var p := Position(servers, item.name);
    if p < |servers| {
      SplitAt(servers, p);
      assert servers[p := item] == servers[..p] + ([item] + servers[p + 1..]);
      OthersOfConcat(servers[..p], [servers[p]] + servers[p + 1..], item.name);
      OthersOfConcat(servers[..p], [item] + servers[p + 1..], item.name);
      OthersOfOne(servers[p], servers[p + 1..], item.name);
      OthersOfOne(item, servers[p + 1..], item.name);
      assert servers[p := item][p] == item;
    } else {
      OthersOfConcat(servers, [item], item.name);
      OthersOfOne(item, [], item.name);
      assert [item] + [] == [item];
      assert WithServer(servers, item)[|servers|] == item;
    }
  }

  lemma OthersOfUnique(servers: seq<MCPServer>, p: nat, name: Text)
    requires p < |servers| && servers[p].name == name
    requires forall i :: 0 <= i < |servers| && i != p ==> servers[i].name != name
    ensures Others(servers, name) == servers[..p] + servers[p + 1..]
  {
    SplitAt(servers, p);
    OthersOfConcat(servers[..p], [servers[p]] + servers[p + 1..], name);
    OthersOfOne(servers[p], servers[p + 1..], name);
    OthersOfApart(servers[..p], name);
    OthersOfApart(servers[p + 1..], name);
  }

  /** A removal takes exactly the server of that name out, and keeps the order of the rest. */
  lemma RemoveKeepsOthers(c: Settings, name: Text, env: Environment)
    requires IsValid(c, env)
    ensures WithoutServer(c.servers, name) == Others(c.servers, name)
  {
    var p := Position(c.servers, name);
    if p < |c.servers| {
      NamesAreUnique(c.servers, p);
      OthersOfUnique(c.servers, p, name);
    } else {
      OthersOfApart(c.servers, name);
    }
  }

  lemma RemoveKeepsValidity(c: Settings, name: Text, env: Environment)
    requires IsValid(c, env)
    ensures IsValid(Removed(c, name), env)
    ensures IsNormal(c) ==> IsNormal(Removed(c, name))
  {
    RemovedAt(c.servers, name);
    RemovedAreApart(c, WithoutServer(c.servers, name), Position(c.servers, name));
  }

  lemma CutAt<T>(s: seq<T>, p: nat)
    requires p < |s|
    ensures
      var rest := s[..p] + s[p + 1..];
      |rest| == |s| - 1 && forall i :: 0 <= i < |rest| ==> rest[i] == s[if i < p then i else i + 1]
  {
  }

  lemma RemovedAt(servers: seq<MCPServer>, name: Text)
    ensures
      var rest, p := WithoutServer(servers, name), Position(servers, name);
      && |rest| == (if p < |servers| then |servers| - 1 else |servers|)
      && forall i :: 0 <= i < |rest| ==> rest[i] == servers[if i < p then i else i + 1]
  {
    if Position(servers, name) < |servers| {
      CutAt(servers, Position(servers, name));
    }
  }

  lemma RemovedAreApart(c: Settings, rest: seq<MCPServer>, p: nat)
    requires p <= |c.servers| && |rest| == (if p < |c.servers| then |c.servers| - 1 else |c.servers|)
    requires forall i :: 0 <= i < |rest| ==> rest[i] == c.servers[if i < p then i else i + 1]
    requires ServersAreApart(c.servers) && KindsAreApart(c.servers, c.httpServices)
    ensures ServersAreApart(rest) && KindsAreApart(rest, c.httpServices)
  {
    forall i, j | 0 <= i < j < |rest|
      ensures IdsOf(rest[i]) !! IdsOf(rest[j])
    {
    }
  }

  /** Adding a server of a new name and removing it again changes nothing. */
  lemma RemoveUndoesUpsert(c: Settings, item: MCPServer)
    requires forall s :: s in c.servers ==> s.name != item.name
    requires Upserted(c, item).Some?
    ensures Removed(Upserted(c, item).value, item.name) == c
  {
    var servers := c.servers;
    var stored := Stored(item).value;
    assert Position(servers, item.name) == |servers|;
    var added := servers + [stored];
    assert forall k :: 0 <= k < |servers| ==> added[k] == servers[k] && servers[k] in servers;
    assert added[|servers|].name == item.name;
    assert added[..|servers|] + added[|servers| + 1..] == servers;
  }

  /** No identifier of the item belongs to a server of another name, or to a service. */
  ghost predicate ClashesWithNobody(c: Settings, item: MCPServer) {
    && (forall s :: s in c.servers && s.name != item.name ==> IdsOf(s) !! IdsOf(item))
    && (forall s :: s in c.httpServices ==> ServiceIds(s) !! IdsOf(item))
  }

  /** Exactly when an upsert into an accepted configuration is accepted. */
  lemma UpsertAcceptedIff(c: Settings, item: MCPServer, env: Environment)
    requires IsValid(c, env)
    ensures AcceptsUpsert(c, item, env) <==> IsSound(item, env) && ClashesWithNobody(c, item)
  {
    if Stored(item).Some? {
      var stored := Stored(item).value;
      StoredIsSound(item, env);
      assert ClashesWithNobody(c, stored) == ClashesWithNobody(c, item);
      if IsValid(c.(servers := WithServer(c.servers, stored)), env) {
        AcceptedItemFits(c, stored, env);
      }
      if IsSound(stored, env) && ClashesWithNobody(c, stored) {
        FittingItemIsAccepted(c, stored, env);
      }
    }
  }

  lemma StoredIsSound(item: MCPServer, env: Environment)
    requires Stored(item).Some?
    ensures IsSound(Stored(item).value, env) <==> IsSound(item, env)
    ensures IdsOf(Stored(item).value) == IdsOf(item)
  {
    TransportIsNormalOnce(item.transport);
    SameProblem(item, Stored(item).value, env);
  }

  lemma SameUrl(a: MCPServer, b: MCPServer, env: Environment)
    requires a.url == b.url
    ensures ResolvedUrl(a, env) == ResolvedUrl(b, env)
  {
  }

  lemma SameProblemWith(a: MCPServer, b: MCPServer, transport: Option<Text>, hasUrl: bool)
    requires b == a.(transport := b.transport, alias := b.alias)
    ensures ProblemWith(a, transport, hasUrl) == ProblemWith(b, transport, hasUrl)
  {
  }

  /** Nothing but the normal form of the transport matters. */
  lemma SameProblem(a: MCPServer, b: MCPServer, env: Environment)
    requires NormalizeTransport(a.transport) == NormalizeTransport(b.transport)
    requires b == a.(transport := b.transport, alias := b.alias)
    ensures ProblemOf(a, env) == ProblemOf(b, env)
  {
    SameUrl(a, b, env);
    SameProblemWith(a, b, NormalizeTransport(a.transport), TrimSpace(ResolvedUrl(a, env)) != "");
  }

  lemma WithServerAt(servers: seq<MCPServer>, item: MCPServer)
    ensures
      var after, p := WithServer(servers, item), Position(servers, item.name);
      && |after| == (if p < |servers| then |servers| else |servers| + 1) && after[p] == item
      && forall i :: 0 <= i < |after| && i != p ==> after[i] == servers[i]
  {
  }

  lemma AcceptedItemFits(c: Settings, item: MCPServer, env: Environment)
    requires IsValid(c, env) && IsValid(c.(servers := WithServer(c.servers, item)), env)
    ensures IsSound(item, env) && ClashesWithNobody(c, item)
  {
    var p := Position(c.servers, item.name);
    WithServerAt(c.servers, item);
    ItemIsApart(c, c.(servers := WithServer(c.servers, item)), p, item);
  }

  lemma FittingItemIsAccepted(c: Settings, item: MCPServer, env: Environment)
    requires IsValid(c, env) && IsSound(item, env) && ClashesWithNobody(c, item)
    ensures IsValid(c.(servers := WithServer(c.servers, item)), env)
  {
    var p := Position(c.servers, item.name);
    WithServerAt(c.servers, item);
    NamesAreUnique(c.servers, p);
    NewServersAreApart(c, c.(servers := WithServer(c.servers, item)), p, item);
    AllStaySound(c.servers, WithServer(c.servers, item), p, env);
  }

  lemma AllStaySound(servers: seq<MCPServer>, after: seq<MCPServer>, p: nat, env: Environment)
    requires forall i :: 0 <= i < |servers| ==> IsSound(servers[i], env)
    requires |servers| <= |after| && p < |after| <= |servers| + 1 && (|after| == |servers| + 1 ==> p == |servers|)
    requires IsSound(after[p], env) && forall i :: 0 <= i < |after| && i != p ==> after[i] == servers[i]
    ensures forall i :: 0 <= i < |after| ==> IsSound(after[i], env)
  {
  }

  lemma NamesAreUnique(servers: seq<MCPServer>, p: nat)
    requires ServersAreApart(servers)
    ensures p < |servers| ==> forall i :: 0 <= i < |servers| && i != p ==> servers[i].name != servers[p].name
  {
    if p < |servers| {
      forall i | 0 <= i < |servers| && i != p
        ensures servers[i].name != servers[p].name
      {
        assert servers[i].name in IdsOf(servers[i]) && servers[p].name in IdsOf(servers[p]);
        assert IdsOf(servers[i]) !! IdsOf(servers[p]);
      }
    }
  }

  lemma ItemIsApart(c: Settings, d: Settings, p: nat, item: MCPServer)
    requires p <= |c.servers| && |d.servers| == (if p < |c.servers| then |c.servers| else |c.servers| + 1)
    requires p < |c.servers| ==> c.servers[p].name == item.name
    requires d.servers[p] == item && d.httpServices == c.httpServices
    requires forall i :: 0 <= i < |d.servers| && i != p ==> d.servers[i] == c.servers[i]
    requires ServersAreApart(d.servers) && KindsAreApart(d.servers, d.httpServices)
    ensures ClashesWithNobody(c, item)
  {
    forall s | s in c.servers && s.name != item.name
      ensures IdsOf(s) !! IdsOf(item)
    {
      var i :| 0 <= i < |c.servers| && c.servers[i] == s;
      assert IdsOf(d.servers[i]) !! IdsOf(d.servers[p]);
    }
    forall s | s in c.httpServices
      ensures ServiceIds(s) !! IdsOf(item)
    {
      var i :| 0 <= i < |c.httpServices| && c.httpServices[i] == s;
      assert IdsOf(d.servers[p]) !! ServiceIds(d.httpServices[i]);
    }
  }

  lemma NewServersAreApart(c: Settings, d: Settings, p: nat, item: MCPServer)
    requires p <= |c.servers| && |d.servers| == (if p < |c.servers| then |c.servers| else |c.servers| + 1)
    requires d.servers[p] == item && d.httpServices == c.httpServices
    requires forall i :: 0 <= i < |d.servers| && i != p ==> d.servers[i] == c.servers[i]
    requires forall i :: 0 <= i < |c.servers| && i != p ==> c.servers[i].name != item.name
    requires ServersAreApart(c.servers) && KindsAreApart(c.servers, c.httpServices)
    requires ClashesWithNobody(c, item)
    ensures ServersAreApart(d.servers) && KindsAreApart(d.servers, d.httpServices)
  {
    forall i, j | 0 <= i < j < |d.servers|
      ensures IdsOf(d.servers[i]) !! IdsOf(d.servers[j])
    {
      if i == p {
        assert c.servers[j] in c.servers;
      } else if j == p {
        assert c.servers[i] in c.servers;
      }
    }
    forall i, j | 0 <= i < |d.servers| && 0 <= j < |d.httpServices|
      ensures IdsOf(d.servers[i]) !! ServiceIds(d.httpServices[j])
    {
      assert c.httpServices[j] in c.httpServices;
    }
  }

  lemma UpsertKeepsNormalForm(c: Settings, item: MCPServer, env: Environment)
    requires IsNormal(c) && AcceptsUpsert(c, item, env)
    ensures IsNormal(Upserted(c, item).value)
  {
    var d := Upserted(c, item).value;
    var p := Position(c.servers, item.name);
    TransportIsNormalOnce(item.transport);
    assert d.servers[p] == Stored(item).value && IsSound(d.servers[p], env);
    assert forall i :: 0 <= i < |d.servers| && i != p ==> d.servers[i] == c.servers[i];
  }

  /** After an accepted upsert the item is reached under its identifiers, and everybody else as before. */
  lemma UpsertIsFound(c: Settings, item: MCPServer, key: Text, env: Environment)
    requires IsNormal(c) && AcceptsUpsert(c, item, env)
    ensures
      var d := Upserted(c, item).value;
      && (key in IdsOf(item) ==> ServerFor(d.servers, key) == Stored(item))
      && (ServerFor(c.servers, key).Some? && ServerFor(c.servers, key).value.name != item.name ==>
            ServerFor(d.servers, key) == ServerFor(c.servers, key))
  {
    UpsertKeepsNormalForm(c, item, env);
    LookupAfter(c.servers, Upserted(c, item).value.servers, Stored(item).value, key);
  }

  lemma LookupAfter(servers: seq<MCPServer>, after: seq<MCPServer>, item: MCPServer, key: Text)
    requires after == WithServer(servers, item)
    requires ServersAreApart(after) && (forall s :: s in after ==> s.alias != "")
    ensures key in IdsOf(item) ==> ServerFor(after, key) == Some(item)
    ensures ServerFor(servers, key).Some? && ServerFor(servers, key).value.name != item.name ==>
              ServerFor(after, key) == ServerFor(servers, key)
  {
    var p := Position(servers, item.name);
    assert after[p] == item;
    if key in IdsOf(item) {
      assert item in after;
      ServerForIsTheMatch(after, key, p);
    }
    ServerForFinds(servers, key);
    if ServerFor(servers, key).Some? && ServerFor(servers, key).value.name != item.name {
      var i :| 0 <= i < |servers| && servers[i] == ServerFor(servers, key).value;
      assert after[i] == servers[i];
      ServerForIsTheMatch(after, key, i);
    }
  }

  // ------------------------------------------------------------- the mutable object

  class Config {
    var historySize: int
    var allowRegistryWrites: bool
    var servers: seq<MCPServer>
    var httpServices: seq<HTTPService>

    function View(): Settings
      reads this
    {
      Settings(historySize, allowRegistryWrites, servers, httpServices)
    }

    constructor (c: Settings)
      ensures View() == c
    {
      historySize, allowRegistryWrites, servers, httpServices :=
        c.historySize, c.allowRegistryWrites, c.servers, c.httpServices;
    }

    method Clone() returns (clone: Config)
      ensures fresh(clone) && clone.View() == View()
    {
      clone := new Config(View());
    }

    /** Load, from the decoded file on; false is an error. */
    method Normalize(env: Environment) returns (ok: bool)
      modifies this
      ensures ok <==> Loads(old(View()), env)
      ensures ok ==> View() == NormalizedSettings(old(View()))
    {
      if historySize == 0 {
        historySize := DEFAULT_HISTORY_SIZE;
      }
      ok := NormalizeServers();
      if !ok {
        return false;
      }
      NormalizeServices();
      assert View() == NormalizedSettings(old(View()));
      ok := Validate(env);
    }

    method NormalizeServers() returns (ok: bool)
      modifies this`servers
      ensures ok <==> HasKnownTransports(old(View()))
      ensures ok ==> |servers| == |old(servers)| && forall k :: 0 <= k < |servers| ==> Some(servers[k]) == Stored(old(servers)[k])
    {
      for i := 0 to |servers|
        invariant |servers| == |old(servers)|
        invariant forall k :: i <= k < |servers| ==> servers[k] == old(servers)[k]
        invariant forall k :: 0 <= k < i ==> Some(servers[k]) == Stored(old(servers)[k])
      {
        var stored := NormalizeServer(servers[i]);
        if stored.None? {
          return false;
        }
        servers := servers[i := stored.value];
      }
      return true;
    }

    method NormalizeServices()
      modifies this`httpServices
      ensures |httpServices| == |old(httpServices)|
      ensures forall k :: 0 <= k < |httpServices| ==> httpServices[k] == NormalizedService(old(httpServices)[k])
    {
      for i := 0 to |httpServices|
        invariant |httpServices| == |old(httpServices)|
        invariant forall k :: i <= k < |httpServices| ==> httpServices[k] == old(httpServices)[k]
        invariant forall k :: 0 <= k < i ==> httpServices[k] == NormalizedService(old(httpServices)[k])
      {
        if httpServices[i].alias == "" {
          httpServices := httpServices[i := httpServices[i].(alias := httpServices[i].name)];
        }
      }
    }

    /** validate: true means that no error is returned. */
    method Validate(env: Environment) returns (ok: bool)
      ensures ok <==> IsValid(View(), env)
    {
      if historySize < 0 {
        return false;
      }
      var seen, aliases;
      ok, seen, aliases := ValidateServers(env);
      if ok {
        ok := ValidateHTTPServices(env, seen, aliases);
      }
    }

    method ValidateServers(env: Environment) returns (ok: bool, seen: set<Text>, aliases: set<Text>)
      ensures ok <==> (forall i :: 0 <= i < |servers| ==> IsSound(servers[i], env)) && ServersAreApart(servers)
      ensures ok ==> seen + aliases == ServersIds(servers)
    {
      seen, aliases := {}, {};
      ok := true;
      for i := 0 to |servers|
        invariant ok && seen + aliases == ServersIds(servers[..i])
        invariant forall k :: 0 <= k < i ==> IsSound(servers[k], env)
        invariant ServersAreApart(servers[..i])
      {
        ok, seen, aliases := ClaimIdentifiers(i, env, seen, aliases);
        if !ok {
          return;
        }
        SoundUpTo(servers, i, env);
      }
      assert servers[..|servers|] == servers;
    }

    /** One round of that loop. */
    method ClaimIdentifiers(i: nat, env: Environment, seen: set<Text>, aliases: set<Text>)
      returns (ok: bool, seen': set<Text>, aliases': set<Text>)
      requires i < |servers| && seen + aliases == ServersIds(servers[..i]) && ServersAreApart(servers[..i])
      ensures ok ==> IsSound(servers[i], env) && ServersAreApart(servers[..i + 1])
      ensures ok ==> seen' + aliases' == ServersIds(servers[..i + 1])
      ensures !ok ==> !IsSound(servers[i], env) || !ServersAreApart(servers)
    {
      var s := servers[i];
      var problem := CheckServer(s, env);
      if problem.Some? {
        return false, seen, aliases;
      }
      var alias := if s.alias == "" then s.name else s.alias;
      if s.name in seen || s.name in aliases || (alias != s.name && (alias in seen || alias in aliases)) {
        ServerClash(servers, i);
        return false, seen, aliases;
      }
      ServerFits(servers, i);
      AddIdentifiers(seen, aliases, s.name, alias);
      return true, seen + {s.name}, aliases + {alias};
    }

    method ValidateHTTPServices(env: Environment, seen: set<Text>, aliases: set<Text>) returns (ok: bool)
      requires seen + aliases == ServersIds(servers)
      ensures ok <==>
                && (forall i :: 0 <= i < |httpServices| ==> IsSoundService(httpServices[i], env))
                && ServicesAreApart(httpServices)
                && KindsAreApart(servers, httpServices)
    {
      var names, taken := seen, aliases;
      for i := 0 to |httpServices|
        invariant names + taken == ServersIds(servers) + ServicesIds(httpServices[..i])
        invariant forall k :: 0 <= k < i ==> IsSoundService(httpServices[k], env)
        invariant ServicesAreApart(httpServices[..i])
        invariant KindsAreApart(servers, httpServices[..i])
      {
        var service := httpServices[i];
        if TrimSpace(service.name) == "" {
          return false;
        }
        var alias := if service.alias == "" then service.name else service.alias;
        if service.name in names || service.name in taken || (alias != service.name && (alias in names || alias in taken)) {
          ServiceClash(servers, httpServices, i);
          return false;
        }
        ServiceFits(servers, httpServices, i);
        AddIdentifiers(names, taken, service.name, alias);
        names := names + {service.name};
        taken := taken + {alias};
        var sound := CheckService(service, env);
        if !sound {
          return false;
        }
        SoundServicesUpTo(httpServices, i, env);
      }
      assert httpServices[..|httpServices|] == httpServices;
      return true;
    }

    /** All or nothing: on an error the configuration is as before. */
    method UpsertServer(item: MCPServer, env: Environment) returns (ok: bool)
      modifies this
      ensures ok <==> AcceptsUpsert(old(View()), item, env)
      ensures View() == if ok then Upserted(old(View()), item).value else old(View())
    {
      var stored := NormalizeServer(item);
      if stored.None? {
        return false;
      }
      ok := Replace(stored.value, env);
    }

    method Replace(item: MCPServer, env: Environment) returns (ok: bool)
      modifies this
      ensures ok <==> IsValid(old(View()).(servers := WithServer(old(servers), item)), env)
      ensures View() == if ok then old(View()).(servers := WithServer(old(servers), item)) else old(View())
    {
      var candidate := Clone();
      for i := 0 to |candidate.servers|
        invariant candidate.View() == View() == old(View())
        invariant forall k :: 0 <= k < i ==> candidate.servers[k].name != item.name
      {
        if candidate.servers[i].name == item.name {
          assert Position(servers, item.name) == i;
          candidate.servers := candidate.servers[i := item];
          ok := AssignIfValid(candidate, env);
          return;
        }
      }
      assert Position(servers, item.name) == |servers|;
      candidate.servers := candidate.servers + [item];
      ok := AssignIfValid(candidate, env);
    }

    method AssignIfValid(candidate: Config, env: Environment) returns (ok: bool)
      modifies this
      ensures ok <==> IsValid(old(candidate.View()), env)
      ensures View() == if ok then old(candidate.View()) else old(View())
    {
      ok := candidate.Validate(env);
      if ok {
        historySize, allowRegistryWrites := candidate.historySize, candidate.allowRegistryWrites;
        servers, httpServices := candidate.servers, candidate.httpServices;
      }
    }

    method RemoveServer(name: Text) returns (found: bool)
      modifies this`servers
      ensures found <==> exists s :: s in old(servers) && s.name == name
      ensures View() == Removed(old(View()), name)
    {
      for i := 0 to |servers|
        invariant servers == old(servers)
        invariant forall k :: 0 <= k < i ==> servers[k].name != name
      {
        if servers[i].name == name {
          servers := servers[..i] + servers[i + 1..];
          return true;
        }
      }
      return false;
    }
  }

  method NormalizeServer(item: MCPServer) returns (stored: Option<MCPServer>)
    ensures stored == Stored(item)
  {
    var transport := NormalizeTransport(item.transport);
    if transport.None? {
      return None;
    }
    var s := item.(transport := transport.value);
    if s.alias == "" {
      s := s.(alias := s.name);
    }
    return Some(s);
  }

  // ------------------------------------------------------- what the checks amount to

  method CheckServer(s: MCPServer, env: Environment) returns (problem: Option<Problem>)
    ensures problem == ProblemOf(s, env)
  {
    if s.name == "" {
      return Some(NoName);
    }
    var transport := NormalizeTransport(s.transport);
    if transport.None? {
      return Some(UnknownTransport);
    }
    if transport.value == "stdio" {
      if s.command == "" {
        return Some(NoCommand);
      }
      if s.url != "" {
        return Some(UrlWithStdio);
      }
      return if s.headers != map[] || s.headersHelper != "" then Some(HeadersWithStdio) else None;
    }
    var url := ExpandEnvStrict(s.url, env);
    if TrimSpace(url.text) == "" {
      return Some(NoUrl);
    }
    return if s.command != "" || s.args != [] || s.env != map[] then Some(CommandWithoutStdio) else None;
  }

  lemma SoundUpTo(servers: seq<MCPServer>, i: nat, env: Environment)
    requires i < |servers| && IsSound(servers[i], env) && forall k :: 0 <= k < i ==> IsSound(servers[k], env)
    ensures forall k :: 0 <= k < i + 1 ==> IsSound(servers[k], env)
  {
  }

  method CheckService(service: HTTPService, env: Environment) returns (sound: bool)
    requires TrimSpace(service.name) != ""
    ensures sound <==> IsSoundService(service, env)
  {
    var expansion := ExpandEnvStrict(service.baseUrl, env);
    return expansion.missing == "" && service.restIsSound;
  }

  lemma SoundServicesUpTo(services: seq<HTTPService>, i: nat, env: Environment)
    requires i < |services| && IsSoundService(services[i], env)
    requires forall k :: 0 <= k < i ==> IsSoundService(services[k], env)
    ensures forall k :: 0 <= k < i + 1 ==> IsSoundService(services[k], env)
  {
  }

  lemma AddIdentifiers(seen: set<Text>, aliases: set<Text>, name: Text, alias: Text)
    ensures (seen + {name}) + (aliases + {alias}) == (seen + aliases) + {name, alias}
  {
  }

  lemma ServerClash(servers: seq<MCPServer>, i: nat)
    requires i < |servers| && !(IdsOf(servers[i]) !! ServersIds(servers[..i]))
    ensures !ServersAreApart(servers)
  {
    var id :| id in IdsOf(servers[i]) && id in ServersIds(servers[..i]);
    var k :| 0 <= k < i && id in IdsOf(servers[k]);
    assert !(IdsOf(servers[k]) !! IdsOf(servers[i]));
  }

  lemma ServerFits(servers: seq<MCPServer>, i: nat)
    requires i < |servers| && IdsOf(servers[i]) !! ServersIds(servers[..i]) && ServersAreApart(servers[..i])
    ensures ServersAreApart(servers[..i + 1])
    ensures ServersIds(servers[..i + 1]) == ServersIds(servers[..i]) + IdsOf(servers[i])
  {
    var before, now := servers[..i], servers[..i + 1];
    assert forall k :: 0 <= k < i ==> now[k] == before[k];
    forall k | 0 <= k < i
      ensures IdsOf(now[k]) !! IdsOf(now[i])
    {
      assert IdsOf(before[k]) <= ServersIds(before);
    }
  }

  lemma ServiceClash(servers: seq<MCPServer>, services: seq<HTTPService>, i: nat)
    requires i < |services| && !(ServiceIds(services[i]) !! ServersIds(servers) + ServicesIds(services[..i]))
    ensures !(ServicesAreApart(services) && KindsAreApart(servers, services))
  {
    var id :| id in ServiceIds(services[i]) && id in ServersIds(servers) + ServicesIds(services[..i]);
    if id in ServersIds(servers) {
      var k :| 0 <= k < |servers| && id in IdsOf(servers[k]);
      assert !(IdsOf(servers[k]) !! ServiceIds(services[i]));
    } else {
      var k :| 0 <= k < i && id in ServiceIds(services[k]);
      assert !(ServiceIds(services[k]) !! ServiceIds(services[i]));
    }
  }

  lemma ServiceFits(servers: seq<MCPServer>, services: seq<HTTPService>, i: nat)
    requires i < |services| && ServiceIds(services[i]) !! ServersIds(servers) + ServicesIds(services[..i])
    requires ServicesAreApart(services[..i]) && KindsAreApart(servers, services[..i])
    ensures ServicesAreApart(services[..i + 1]) && KindsAreApart(servers, services[..i + 1])
    ensures ServicesIds(services[..i + 1]) == ServicesIds(services[..i]) + ServiceIds(services[i])
  {
    var before, now := services[..i], services[..i + 1];
    assert forall k :: 0 <= k < i ==> now[k] == before[k];
    forall k | 0 <= k < i
      ensures ServiceIds(now[k]) !! ServiceIds(now[i])
    {
      assert ServiceIds(before[k]) <= ServicesIds(before);
    }
    forall k | 0 <= k < |servers|
      ensures IdsOf(servers[k]) !! ServiceIds(now[i])
    {
      assert IdsOf(servers[k]) <= ServersIds(servers);
    }
  }
}
