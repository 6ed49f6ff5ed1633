/**
  What a registry run leaves behind, told from its log: which tools are cached,
  and which retries are due.
 */
module RegistryRuns {
  import opened GoText
  import opened Expand
  import opened Config
  import opened ServerHealth
  import R = Registry

  // ---------------------------------------------------------- what the log is made of

  /** What upstream answers to an attempt that the step makes. */
  function AttemptIn(step: R.Step, n: Text): R.Attempt
    requires !step.Update?
  {
    match step
    case Refresh(upstream) => upstream(n)
    case Tick(_, upstream) => upstream(n)
    case RefreshOne(_, attempt) => attempt
    case RetryFires(_, _, attempt) => attempt
  }

  function TriedNames(log: seq<R.Entry>): seq<Text> {
    if log == [] then []
    else
      var e := log[|log| - 1];
      TriedNames(log[..|log| - 1]) + (if e.Tried? then [e.name] else [])
  }

  lemma TriedNamesAppend(log: seq<R.Entry>, e: R.Entry)
    ensures TriedNames(log + [e]) == TriedNames(log) + (if e.Tried? then [e.name] else [])
  {
    assert (log + [e])[..|log|] == log;
  }

  /** From one state to the other, attempts were made, each answered as the step has it. */
  ghost predicate Attempts(r: R.Snapshot, r': R.Snapshot, step: R.Step)
    requires !step.Update?
  {
    && r.log <= r'.log
    && (forall i :: |r.log| <= i < |r'.log| ==>
          r'.log[i].Tried? && r'.log[i].answer == AttemptIn(step, r'.log[i].name).answer
          && r'.log[i].at == AttemptIn(step, r'.log[i].name).now)
    && (r.attempted == TriedNames(r.log) ==> r'.attempted == TriedNames(r'.log))
  }

  lemma OneAttempt(r: R.Snapshot, name: Text, step: R.Step)
    requires !step.Update? && ChannelInv(R.StateOf(r, name))
    ensures Attempts(r, R.AfterRefresh(r, name, AttemptIn(step, name)), step)
  {
    TriedNamesAppend(r.log, R.Recorded(R.StateOf(r, name), name, AttemptIn(step, name), r.backoff));
  }

  lemma AttemptsTwice(r: R.Snapshot, r1: R.Snapshot, r2: R.Snapshot, step: R.Step)
    requires !step.Update? && Attempts(r, r1, step) && Attempts(r1, r2, step)
    ensures Attempts(r, r2, step)
  {
    assert forall i :: |r.log| <= i < |r1.log| ==> r2.log[i] == r1.log[i];
  }

  lemma {:induction false} AllAttempt(r: R.Snapshot, servers: seq<MCPServer>, step: R.Step)
    requires R.StatesAreOpen(r) && step.Refresh?
    ensures Attempts(r, R.AfterAll(r, servers, step.upstream), step)
    decreases |servers|
  {
    if servers != [] {
      var name := servers[0].name;
      R.AttemptKeepsChannels(R.StateOf(r, name), step.upstream(name), r.backoff);
      var r1 := R.AfterRefresh(r, name, step.upstream(name));
      OneAttempt(r, name, step);
      AllAttempt(r1, servers[1..], step);
      AttemptsTwice(r, r1, R.AfterAll(r1, servers[1..], step.upstream), step);
    }
  }

  lemma {:induction false} TickAttempts(r: R.Snapshot, servers: seq<MCPServer>, step: R.Step)
    requires R.StatesAreOpen(r) && step.Tick?
    ensures Attempts(r, R.AfterTick(r, servers, step.now, step.upstream), step)
    decreases |servers|
  {
    if servers != [] {
      var name := servers[0].name;
      R.AttemptKeepsChannels(R.StateOf(r, name), step.upstream(name), r.backoff);
      if SkipsTick(R.StateOf(r, name), step.now) {
        TickAttempts(r, servers[1..], step);
      } else {
        var r1 := R.AfterRefresh(r, name, step.upstream(name));
        OneAttempt(r, name, step);
        TickAttempts(r1, servers[1..], step);
        AttemptsTwice(r, r1, R.AfterTick(r1, servers[1..], step.now, step.upstream), step);
      }
    }
  }

  /** The log says of every attempt what upstream answered to it, and of every update what it kept. */
  lemma StepIsLogged(r: R.Snapshot, step: R.Step)
    requires R.StatesAreOpen(r)
    ensures
      var r' := R.Next(r, step);
      if step.Update? then
        r'.log == r.log + [R.Reconfigured(set i | 0 <= i < |step.config.servers| :: step.config.servers[i].name)]
        && r'.attempted == r.attempted
      else Attempts(r, r', step)
  {
    match step
    case Update(_) =>
    case Refresh(_) => AllAttempt(r, r.config.servers, step);
    case Tick(_, _) => TickAttempts(r, r.config.servers, step);
    case RefreshOne(key, _) =>
      var server := ServerFor(r.config.servers, key);
      if server.Some? {
        OneAttempt(r, server.value.name, step);
      }
    case RetryFires(name, _, _) =>
      var server := ServerFor(r.config.servers, name);
      if server.Some? {
        OneAttempt(r.(waiting := r.waiting - {name}), server.value.name, step);
      }
  }

  /** Nothing but an update changes which servers and services there are. */
  lemma OnlyUpdatesReconfigure(r: R.Snapshot, step: R.Step, env: Environment)
    requires R.Inv(r, env) && R.Enabled(r, step, env)
    ensures R.Next(r, step).config == if step.Update? then step.config else r.config
  {
    match step
    case Refresh(upstream) => R.AllKeepInv(r, r.config.servers, upstream, env);
    case Tick(now, upstream) => R.TickKeepsInv(r, r.config.servers, now, upstream, env);
    case _ =>
  }

  // ------------------------------------------------------------- what the log tells

  /** The answer to the last attempt at the server, since the last update of the configuration. */
  function LastAnswer(log: seq<R.Entry>, n: Text): Option<R.Answer> {
    if log == [] then None
    else
      match log[|log| - 1]
      case Tried(name, answer, _, _) => if name == n then Some(answer) else LastAnswer(log[..|log| - 1], n)
      case Reconfigured(_) => None
  }

  /** When the retry is due that the last attempt at the server scheduled, if it did, since its record was made. */
  function DueAt(log: seq<R.Entry>, n: Text): Option<int> {
    if log == [] then None
    else
      match log[|log| - 1]
      case Tried(name, _, at, delay) =>
        if name != n then DueAt(log[..|log| - 1], n) else if delay.Some? then Some(at + delay.value) else None
      case Reconfigured(kept) => if n in kept then DueAt(log[..|log| - 1], n) else None
  }

  lemma TellAppend(log: seq<R.Entry>, e: R.Entry, n: Text)
    ensures LastAnswer(log + [e], n) ==
              if e.Reconfigured? then None else if e.name == n then Some(e.answer) else LastAnswer(log, n)
    ensures DueAt(log + [e], n) ==
              if e.Tried? && e.name == n then (if e.delay.Some? then Some(e.at + e.delay.value) else None)
              else if e.Reconfigured? && n !in e.kept then None
              else DueAt(log, n)
  {
    assert (log + [e])[..|log|] == log;
  }

  /** The tools of a server are those of its last answer, and none if that was a failure. */
  ghost predicate ToolsAreTold(r: R.Snapshot, n: Text) {
    match LastAnswer(r.log, n)
    case Some(Tools(tools)) => n in r.cache && r.cache[n] == R.Fetched(tools)
    case _ => n !in r.cache
  }

  ghost predicate RetryIsTold(r: R.Snapshot, n: Text) {
    var due := DueAt(r.log, n);
    due.Some? ==> n in r.waiting && R.StateOf(r, n).pendingRetryAt == due.value
  }

  ghost predicate IsTold(r: R.Snapshot, n: Text) {
    (n in R.NamesOf(r.config.servers) ==> ToolsAreTold(r, n)) && RetryIsTold(r, n)
  }

  lemma RefreshTells(r: R.Snapshot, name: Text, attempt: R.Attempt, n: Text)
    requires ChannelInv(R.StateOf(r, name)) && (n != name ==> IsTold(r, n))
    ensures IsTold(R.AfterRefresh(r, name, attempt), n)
  {
    var h := R.StateOf(r, name);
    TellAppend(r.log, R.Recorded(h, name, attempt, r.backoff), n);
    R.AttemptDecides(h, attempt, r.backoff);
  }

  lemma CachingTells(r: R.Snapshot, n: Text, env: Environment)
    requires WellFormed(r.config, env) && IsTold(r, n)
    ensures IsTold(R.Cached(r), n)
  {
    R.ServicesAreCached(r.cache, r.config.httpServices);
    R.NamesAreApart(r.config, env);
  }

  lemma {:induction false} AllTell(r: R.Snapshot, servers: seq<MCPServer>, upstream: R.Upstream, n: Text)
    requires R.StatesAreOpen(r) && IsTold(r, n)
    ensures IsTold(R.AfterAll(r, servers, upstream), n)
    decreases |servers|
  {
    if servers != [] {
      var name := servers[0].name;
      R.AttemptKeepsChannels(R.StateOf(r, name), upstream(name), r.backoff);
      RefreshTells(r, name, upstream(name), n);
      AllTell(R.AfterRefresh(r, name, upstream(name)), servers[1..], upstream, n);
    }
  }

  lemma {:induction false} TickTells(r: R.Snapshot, servers: seq<MCPServer>, now: R.Instant, upstream: R.Upstream, n: Text)
    requires R.StatesAreOpen(r) && IsTold(r, n)
    ensures IsTold(R.AfterTick(r, servers, now, upstream), n)
    decreases |servers|
  {
    if servers != [] {
      var name := servers[0].name;
      R.AttemptKeepsChannels(R.StateOf(r, name), upstream(name), r.backoff);
      RefreshTells(r, name, upstream(name), n);
      TickTells(if SkipsTick(R.StateOf(r, name), now) then r else R.AfterRefresh(r, name, upstream(name)),
                servers[1..], now, upstream, n);
    }
  }

  lemma UpdateTells(r: R.Snapshot, config: Settings, n: Text)
    requires IsTold(r, n)
    ensures IsTold(R.Updated(r, config), n)
  {
    TellAppend(r.log, R.Reconfigured(R.NamesOf(config.servers)), n);
  }

  lemma StepTells(r: R.Snapshot, step: R.Step, n: Text, env: Environment)
    requires R.Inv(r, env) && R.Enabled(r, step, env) && IsTold(r, n)
    ensures IsTold(R.Next(r, step), n)
  {
    match step
    case Update(config) => UpdateTells(r, config, n);
    case Refresh(upstream) =>
      AllTell(r, r.config.servers, upstream, n);
      R.AllKeepInv(r, r.config.servers, upstream, env);
      CachingTells(R.AfterAll(r, r.config.servers, upstream), n, env);
    case Tick(now, upstream) =>
      TickTells(r, r.config.servers, now, upstream, n);
      R.TickKeepsInv(r, r.config.servers, now, upstream, env);
      CachingTells(R.AfterTick(r, r.config.servers, now, upstream), n, env);
    case RefreshOne(key, attempt) =>
      var server := ServerFor(r.config.servers, key);
      if server.Some? {
        RefreshTells(r, server.value.name, attempt, n);
      }
    case RetryFires(name, now, attempt) =>
      R.RetryReachesItsServer(r, name, env);
      R.RetryIsARefresh(r, name, now, attempt, ServerFor(r.config.servers, name).value);
      RefreshTells(r.(waiting := r.waiting - {name}), name, attempt, n);
  }

  lemma {:induction false} RunTells(r: R.Snapshot, steps: seq<R.Step>, n: Text, env: Environment)
    requires R.Inv(r, env) && R.IsRun(r, steps, env) && IsTold(r, n)
    ensures IsTold(R.Run(r, steps, env), n)
    decreases |steps|
  {
    if steps != [] {
      R.RunHead(r, steps, env);
      StepTells(r, steps[0], n, env);
      RunTells(R.Next(r, steps[0]), steps[1..], n, env);
    }
  }

  /** After every run, the tools listed for a server are those that its last attempt brought. */
  lemma ToolsFollowTheRun(config: Settings, backoff: seq<int>, steps: seq<R.Step>, n: Text, env: Environment)
    requires WellFormed(config, env) && R.IsRun(R.Start(config, backoff), steps, env)
    ensures
      var r := R.Run(R.Start(config, backoff), steps, env);
      n in R.NamesOf(r.config.servers) ==> ToolsAreTold(r, n)
  {
    RunTells(R.Start(config, backoff), steps, n, env);
  }

  lemma DueIsEnabled(r: R.Snapshot, n: Text, now: R.Instant, attempt: R.Attempt, env: Environment)
    requires RetryIsTold(r, n) && DueAt(r.log, n).Some?
    ensures R.Enabled(r, R.RetryFires(n, now, attempt), env) <==> DueAt(r.log, n).value <= now
  {
  }

  /** After every run, the retry that the last failure scheduled can fire from its deadline on, and not before. */
  lemma RetriesAreDue(config: Settings, backoff: seq<int>, steps: seq<R.Step>, r: R.Snapshot, n: Text, now: R.Instant,
                      attempt: R.Attempt, env: Environment)
    requires WellFormed(config, env) && R.IsRun(R.Start(config, backoff), steps, env)
    requires r == R.Run(R.Start(config, backoff), steps, env) && DueAt(r.log, n).Some?
    ensures R.Enabled(r, R.RetryFires(n, now, attempt), env) <==> DueAt(r.log, n).value <= now
  {
    RunTells(R.Start(config, backoff), steps, n, env);
    DueIsEnabled(r, n, now, attempt, env);
  }

  // ------------------------------------------------------------------ service tools

  lemma {:induction false} ServiceIsListed(cache: map<Text, R.ToolList>, services: seq<HTTPService>, i: nat)
    requires i < |services| && forall j :: i < j < |services| ==> services[j].name != services[i].name
    ensures
      var after := R.WithServices(cache, services);
      services[i].name in after && after[services[i].name] == R.Derived(services[i])
    decreases |services|
  {
    var tail := services[1..];
    var first := cache[services[0].name := R.Derived(services[0])];
    if i == 0 {
      R.ServicesAreCached(first, tail);
    } else {
      ServiceIsListed(first, tail, i - 1);
    }
  }

  /** After a refresh and after a tick, every service is listed with its own tools. */
  lemma ServicesAreListed(r: R.Snapshot, step: R.Step, i: nat, env: Environment)
    requires R.Inv(r, env) && (step.Refresh? || step.Tick?) && i < |r.config.httpServices|
    ensures
      var service, cache := r.config.httpServices[i], R.Next(r, step).cache;
      service.name in cache && cache[service.name] == R.Derived(service)
  {
    var services := r.config.httpServices;
    forall j | i < j < |services|
      ensures services[j].name != services[i].name
    {
      assert services[i].name in ServiceIds(services[i]) && services[j].name in ServiceIds(services[j]);
      assert ServiceIds(services[i]) !! ServiceIds(services[j]);
    }
    if step.Refresh? {
      R.AllKeepInv(r, r.config.servers, step.upstream, env);
      ServiceIsListed(R.AfterAll(r, r.config.servers, step.upstream).cache, services, i);
    } else {
      R.TickKeepsInv(r, r.config.servers, step.now, step.upstream, env);
      ServiceIsListed(R.AfterTick(r, r.config.servers, step.now, step.upstream).cache, services, i);
    }
  }
}
