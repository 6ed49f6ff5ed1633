/**
  The OAuth tables of the store: tokens, keyed by a server name with its
  endpoint or, from older releases, by the bare name; and client credentials,
  keyed by name.

  Each row remembers for which endpoint it was obtained. That is history: no
  operation looks at it.
 */
module OAuthStore {
  import opened GoText
  import opened Config
  import opened Expand

  /** TokenStoreKey and the bare-name key; the digest of the URL is taken to be injective. */
  datatype Key = Bound(name: Text, url: Text) | Legacy(name: Text)

  datatype Token = Token(value: Text, issuedFor: Text)

  datatype Client = Client(id: Text, secret: Text, savedFor: Text)

  datatype Rows = Rows(tokens: map<Key, Token>, clients: map<Text, Client>)

  function TokenKey(server: MCPServer, env: Environment): Key {
    Bound(server.name, ResolvedUrl(server, env))
  }

  const EMPTY_KEY := Legacy("")

  // ------------------------------------------------------------ what each operation does

  function WithoutTokens(rows: Rows, keys: set<Key>): Rows {
    rows.(tokens := rows.tokens - (keys - {EMPTY_KEY}))
  }

  /** Everything that is kept for a server at its present endpoint. */
  function Forget(rows: Rows, server: MCPServer, env: Environment): Rows {
    Rows(WithoutTokens(rows, {Legacy(server.name), TokenKey(server, env)}).tokens, rows.clients - {server.name})
  }

  predicate Adopts(rows: Rows, legacy: Key, key: Key) {
    legacy != EMPTY_KEY && key != EMPTY_KEY && legacy != key && legacy in rows.tokens && key !in rows.tokens
  }

  function Adopted(rows: Rows, legacy: Key, key: Key): Rows {
    if Adopts(rows, legacy, key) then rows.(tokens := (rows.tokens - {legacy})[key := rows.tokens[legacy]]) else rows
  }

  // --------------------------------------------------------------------- the store

  class Store {
    var tokens: map<Key, Token>
    var clients: map<Text, Client>

    function View(): Rows
      reads this
    {
      Rows(tokens, clients)
    }

    constructor (rows: Rows)
      ensures View() == rows
    {
      tokens, clients := rows.tokens, rows.clients;
    }

    method SaveToken(key: Key, token: Token)
      modifies this`tokens
      ensures tokens == old(tokens)[key := token]
    {
      tokens := tokens[key := token];
    }

    method SaveOAuthClient(name: Text, client: Client)
      modifies this`clients
      ensures clients == old(clients)[name := client]
    {
      clients := clients[name := client];
    }

    method DeleteOAuthClient(name: Text)
      modifies this`clients
      ensures clients == old(clients) - {name}
    {
      clients := clients - {name};
    }

    method DeleteTokens(keys: seq<Key>)
      modifies this`tokens
      ensures View() == WithoutTokens(old(View()), set k | k in keys)
    {
      ghost var gone: set<Key> := {};
      for i := 0 to |keys|
        invariant gone == (set k | k in keys[..i]) - {EMPTY_KEY}
        invariant tokens == old(tokens) - gone
      {
        assert keys[..i + 1] == keys[..i] + [keys[i]];
        if keys[i] == EMPTY_KEY {
          continue;
        }
        gone := gone + {keys[i]};
        tokens := tokens - {keys[i]};
      }
      assert keys[..|keys|] == keys;
    }

    /** Moves the row, unless the new key has one already; true iff a row moved. */
    method AdoptToken(legacy: Key, key: Key) returns (moved: bool)
      modifies this`tokens
      ensures moved == Adopts(old(View()), legacy, key)
      ensures View() == Adopted(old(View()), legacy, key)
    {
      if legacy == EMPTY_KEY || key == EMPTY_KEY || legacy == key {
        return false;
      }
      if legacy in tokens && key !in tokens {
        tokens := (tokens - {legacy})[key := tokens[legacy]];
        return true;
      }
      return false;
    }

    /** DeleteTokens and DeleteOAuthClient, as the registry actions use them. */
    method ForgetServer(server: MCPServer, env: Environment)
      modifies this
      ensures View() == Forget(old(View()), server, env)
    {
      var url := ExpandEnvStrict(server.url, env);
      var keys := [Legacy(server.name), Bound(server.name, url.text)];
      DeleteTokens(keys);
      assert (set k | k in keys) == {Legacy(server.name), TokenKey(server, env)};
      DeleteOAuthClient(server.name);
    }
  }

  /** Something is stored that would be used at the server: a client, or a token that is or can be bound. */
  predicate HasCredentials(rows: Rows, server: MCPServer, env: Environment) {
    server.name in rows.clients || TokenKey(server, env) in rows.tokens || Legacy(server.name) in rows.tokens
  }

  /** hasOAuthState: asking adopts the legacy token first, and only that changes. */
  method HasOAuthState(store: Store, server: MCPServer, env: Environment) returns (has: bool)
    modifies store
    ensures store.View() == Adopted(old(store.View()), Legacy(server.name), TokenKey(server, env))
    ensures has <==> (server.name != "" && server.name in store.clients) || TokenKey(server, env) in store.tokens
    ensures server.name != "" ==> (has <==> HasCredentials(old(store.View()), server, env))
  {
    var url := ExpandEnvStrict(server.url, env);
    var key := Bound(server.name, url.text);
    var moved := store.AdoptToken(Legacy(server.name), key);
    return (server.name != "" && server.name in store.clients) || key in store.tokens;
  }

  /** The token that is used at an endpoint after the migration is the bound one, else the legacy one. */
  lemma AdoptionKeepsTheToken(rows: Rows, server: MCPServer, env: Environment)
    requires server.name != ""
    ensures
      var key, legacy := TokenKey(server, env), Legacy(server.name);
      var after := Adopted(rows, legacy, key);
      && (key in after.tokens <==> key in rows.tokens || legacy in rows.tokens)
      && (key in rows.tokens ==> after == rows)
      && (key !in rows.tokens && legacy in rows.tokens ==> after.tokens[key] == rows.tokens[legacy] && legacy !in after.tokens)
      && Adopted(after, legacy, key) == after
  {
  }
}
