/**
  The tables do not say for which endpoint a row was obtained. Which changes of
  the configuration are safe, then, as far as anybody can tell from the tables?
 */
module StoredRows {
  import opened GoText
  import opened Expand
  import opened Config
  import opened OAuthStore
  import opened RegistryChange
  import opened CredentialBinding

  // ------------------------------------------------------ history is not looked at

  /** The same rows, up to the history of where they were obtained. */
  ghost predicate SameTables(a: Rows, b: Rows) {
    && a.clients.Keys == b.clients.Keys && a.tokens.Keys == b.tokens.Keys
    && (forall n :: n in a.clients ==> a.clients[n].id == b.clients[n].id && a.clients[n].secret == b.clients[n].secret)
    && (forall k :: k in a.tokens ==> a.tokens[k].value == b.tokens[k].value)
  }

  /** What an observer of the file and the database can tell is the same. */
  ghost predicate SameStored(s: State, t: State) {
    s.config == t.config && SameTables(s.rows, t.rows)
  }

  lemma ForgetAlike(a: Rows, b: Rows, server: MCPServer, env: Environment)
    requires SameTables(a, b)
    ensures SameTables(Forget(a, server, env), Forget(b, server, env))
  {
    ForgetDropsOwn(a, server, env);
    ForgetDropsOwn(b, server, env);
  }

  lemma {:induction false} ForgetRepointedAlike(a: Rows, b: Rows, previous: seq<MCPServer>, next: seq<MCPServer>,
                                                env: Environment)
    requires SameTables(a, b)
    ensures SameTables(ForgetRepointed(a, previous, next, env), ForgetRepointed(b, previous, next, env))
    decreases |previous|
  {
    if previous != [] {
      if IsRepointed(previous[0], next, env) {
        ForgetAlike(a, b, previous[0], env);
        ForgetRepointedAlike(Forget(a, previous[0], env), Forget(b, previous[0], env), previous[1..], next, env);
      } else {
        ForgetRepointedAlike(a, b, previous[1..], next, env);
      }
    }
  }

  lemma SaveAlike(a: Rows, b: Rows, name: Text, id: Text, secret: Text, url: Text)
    requires SameTables(a, b)
    ensures SameTables(WithClient(a, name, id, secret, url), WithClient(b, name, id, secret, url))
  {
  }

  lemma AdoptAlike(a: Rows, b: Rows, legacy: Key, key: Key)
    requires SameTables(a, b)
    ensures SameTables(Adopted(a, legacy, key), Adopted(b, legacy, key))
  {
  }

  lemma LoginAlike(a: Rows, b: Rows, server: MCPServer, token: Option<Text>, id: Text, secret: Text, env: Environment)
    requires SameTables(a, b)
    ensures SameTables(AfterLogin(a, server, token, id, secret, env), AfterLogin(b, server, token, id, secret, env))
  {
    var url, key := ResolvedUrl(server, env), TokenKey(server, env);
    AdoptAlike(a, b, Legacy(server.name), key);
    var a', b' := Adopted(a, Legacy(server.name), key), Adopted(b, Legacy(server.name), key);
    if token.Some? {
      var issued := OAuthStore.Token(token.value, url);
      a', b' := a'.(tokens := a'.tokens[key := issued]), b'.(tokens := b'.tokens[key := issued]);
    }
    SaveAlike(a', b', server.name, id, secret, url);
  }

  lemma LogoutAlike(a: Rows, b: Rows, server: MCPServer, full: bool, env: Environment)
    requires SameTables(a, b)
    ensures SameTables(AfterLogout(a, server, full, env), AfterLogout(b, server, full, env))
  {
  }

  lemma AddAlike(s: State, t: State, item: MCPServer, id: Text, secret: Text, env: Environment)
    requires SameStored(s, t) && Upserted(s.config, item).Some?
    ensures SameStored(AfterAdd(s, item, id, secret, env), AfterAdd(t, item, id, secret, env))
  {
    var previous := ServerFor(s.config.servers, item.name);
    var url := ResolvedUrl(item, env);
    if previous.Some? && ResolvedUrl(previous.value, env) != url {
      ForgetAlike(s.rows, t.rows, previous.value, env);
      SaveAlike(Forget(s.rows, previous.value, env), Forget(t.rows, previous.value, env), item.name, id, secret, url);
    } else {
      SaveAlike(s.rows, t.rows, item.name, id, secret, url);
    }
  }

  lemma RemoveAlike(s: State, t: State, name: Text, env: Environment)
    requires SameStored(s, t)
    ensures SameStored(AfterRemove(s, name, env), AfterRemove(t, name, env))
  {
    var removed := ServerFor(s.config.servers, name);
    if removed.Some? {
      ForgetAlike(s.rows, t.rows, removed.value, env);
    }
  }

  /** No action looks at the history: states that store the same still store the same after it. */
  lemma HistoryIsNotLookedAt(s: State, t: State, a: Action, env: Environment)
    requires SameStored(s, t)
    ensures SameStored(Next(s, a, env), Next(t, a, env))
  {
    if Outcome(s, a, env).Some? {
      match a
      case AddServer(item, id, secret) => AddAlike(s, t, item, id, secret, env);
      case RemoveServer(name) => RemoveAlike(s, t, name, env);
      case SetAuth(name, _, id, secret) =>
        SaveAlike(s.rows, t.rows, name, id, secret, UrlOf(s.config.servers, name, env).value);
      case Reload(decoded) =>
        ForgetRepointedAlike(s.rows, t.rows, s.config.servers, NormalizedSettings(decoded).servers, env);
      case Login(key, token, id, secret) =>
        LoginAlike(s.rows, t.rows, ServerFor(s.config.servers, key).value, token, id, secret, env);
      case Logout(key, full) =>
        LogoutAlike(s.rows, t.rows, ServerFor(s.config.servers, key).value, full, env);
    }
  }

  // ------------------------------------------------------- the worst possible history

  /** Where a row kept under the name may have come from: from elsewhere, if the name stands for nothing yet. */
  function WorstUrl(before: seq<MCPServer>, after: seq<MCPServer>, n: Text, env: Environment): Text {
    match UrlOf(before, n, env)
    case Some(url) => url
    case None =>
      match UrlOf(after, n, env)
      case Some(url) => url + "x"
      case None => ""
  }

  /** The same tables, with a history that fits the present configuration and misfits every name still to come. */
  ghost function WorstRows(rows: Rows, before: seq<MCPServer>, after: seq<MCPServer>, env: Environment): Rows {
    Rows(
      map k | k in rows.tokens ::
        OAuthStore.Token(rows.tokens[k].value, if k.Bound? then k.url else WorstUrl(before, after, k.name, env)),
      map n | n in rows.clients ::
        Client(rows.clients[n].id, rows.clients[n].secret, WorstUrl(before, after, n, env)))
  }

  lemma WorstRowsAreBound(rows: Rows, before: seq<MCPServer>, after: seq<MCPServer>, env: Environment)
    ensures
      var worst := WorstRows(rows, before, after, env);
      SameTables(rows, worst) && Bindings(before, worst, env)
  {
    var worst := WorstRows(rows, before, after, env);
    forall k | k in worst.tokens
      ensures TokenIsBound(before, k, worst.tokens[k], env)
    {
    }
  }

  /** With that history, whatever is left over is stale. */
  lemma LeftOverIsStale(rows: Rows, before: seq<MCPServer>, after: seq<MCPServer>, saved: set<Text>, n: Text, env: Environment)
    requires !IsConfigured(before, n) && IsConfigured(after, n) && !NothingLeftOverFor(n, rows, saved)
    ensures !NothingStale(before, after, WorstRows(rows, before, after, env), saved, env)
  {
    var url := UrlOf(after, n, env);
    assert |url.value + "x"| == |url.value| + 1;
    assert !NothingStaleFor(n, url, WorstRows(rows, before, after, env), saved);
  }

  lemma NothingLeftOverIsNotStale(s: State, a: Action, env: Environment)
    requires LeavesNothingOver(s, a, env)
    ensures NoStaleRows(s, a, env)
  {
    var before, after := s.config.servers, Next(s, a, env).config.servers;
    forall n | !IsConfigured(before, n) && IsConfigured(after, n)
      ensures NothingStaleFor(n, UrlOf(after, n, env), s.rows, Saved(a))
    {
      assert NothingLeftOverFor(n, s.rows, Saved(a));
    }
  }

  lemma LeftOverAlike(s: State, t: State, a: Action, env: Environment)
    requires SameStored(s, t) && LeavesNothingOver(s, a, env)
    ensures LeavesNothingOver(t, a, env)
  {
    HistoryIsNotLookedAt(s, t, a, env);
    forall n | !IsConfigured(t.config.servers, n) && IsConfigured(Next(t, a, env).config.servers, n)
      ensures NothingLeftOverFor(n, t.rows, Saved(a))
    {
      assert NothingLeftOverFor(n, s.rows, Saved(a));
    }
  }

  // --------------------------------------------------------------------- one step

  lemma CheckedStepIsBound(s: State, a: Action, env: Environment)
    requires Inv(s, env) && LeavesNothingOver(s, a, env)
    ensures Inv(Next(s, a, env), env)
  {
    NothingLeftOverIsNotStale(s, a, env);
    StepKeepsBindingsIff(s, a, env);
  }

  /** Whatever the history of the tables, the action keeps every credential with its endpoint. */
  ghost predicate IsSafe(s: State, a: Action, env: Environment) {
    forall t :: SameStored(s, t) && Inv(t, env) ==> Inv(Next(t, a, env), env)
  }

  lemma SafeLeavesNothingOver(s: State, a: Action, env: Environment)
    requires WellFormed(s.config, env) && IsSafe(s, a, env)
    ensures LeavesNothingOver(s, a, env)
  {
    var before, after := s.config.servers, Next(s, a, env).config.servers;
    forall n | !IsConfigured(before, n) && IsConfigured(after, n)
      ensures NothingLeftOverFor(n, s.rows, Saved(a))
    {
      if !NothingLeftOverFor(n, s.rows, Saved(a)) {
        var t := State(s.config, WorstRows(s.rows, before, after, env));
        WorstRowsAreBound(s.rows, before, after, env);
        HistoryIsNotLookedAt(s, t, a, env);
        LeftOverIsStale(s.rows, before, after, Saved(a), n, env);
        StepKeepsBindingsIff(t, a, env);
        assert false;
      }
    }
  }

  /**
    What can be checked before the call: an action is safe exactly when it
    introduces no name for which the tables hold a client, other than one that
    comes with the request, or a legacy token.
   */
  lemma SafeIffNothingLeftOver(s: State, a: Action, env: Environment)
    requires WellFormed(s.config, env)
    ensures IsSafe(s, a, env) <==> LeavesNothingOver(s, a, env)
  {
    if LeavesNothingOver(s, a, env) {
      forall t | SameStored(s, t) && Inv(t, env)
        ensures Inv(Next(t, a, env), env)
      {
        LeftOverAlike(s, t, a, env);
        CheckedStepIsBound(t, a, env);
      }
    } else if IsSafe(s, a, env) {
      SafeLeavesNothingOver(s, a, env);
      assert false;
    }
  }

  // ------------------------------------------------------------------------- runs

  ghost predicate NeverLeavesOver(s: State, actions: seq<Action>, env: Environment)
    decreases |actions|
  {
    actions != [] ==> LeavesNothingOver(s, actions[0], env) && NeverLeavesOver(Next(s, actions[0], env), actions[1..], env)
  }

  lemma OwnedRowsAreNotLeftOver(s: State, a: Action, env: Environment)
    requires RowsAreOwned(s)
    ensures LeavesNothingOver(s, a, env)
  {
    forall n | !IsConfigured(s.config.servers, n)
      ensures NothingLeftOverFor(n, s.rows, Saved(a))
    {
    }
  }

  /** A run whose every action passes the check ends with every credential at its endpoint. */
  lemma {:induction false} CheckedRunsAreSafe(s: State, actions: seq<Action>, env: Environment)
    requires Inv(s, env) && NeverLeavesOver(s, actions, env)
    ensures Inv(Run(s, actions, env), env)
    decreases |actions|
  {
    if actions != [] {
      CheckedStepIsBound(s, actions[0], env);
      CheckedRunsAreSafe(Next(s, actions[0], env), actions[1..], env);
    }
  }

  /** Where names leave by remove_server only, every action passes the check. */
  lemma {:induction false} RemovalLeavesNothingOver(s: State, actions: seq<Action>, env: Environment)
    requires Inv(s, env) && RowsAreOwned(s) && NamesLeaveByRemoval(s, actions, env)
    ensures NeverLeavesOver(s, actions, env)
    decreases |actions|
  {
    if actions != [] {
      OwnedRowsAreNotLeftOver(s, actions[0], env);
      CheckedStepIsBound(s, actions[0], env);
      StepKeepsOwnership(s, actions[0], env);
      RemovalLeavesNothingOver(Next(s, actions[0], env), actions[1..], env);
    }
  }
}
