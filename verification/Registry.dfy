/**
  The registry: health records and tool lists by server name, kept up to date by
  user refreshes, the background ticker and backoff retries.

  Each refresh of a server and each configuration update is one step. What an
  upstream answers, and when, is given by a function of the server name.
 */
module Registry {
  import opened GoText
  import opened Expand
  import opened Config
  import opened ServerHealth

  type Instant = t: int | t > 0 witness 1

  datatype Answer = Tools(tools: seq<Text>) | Unavailable(error: Text, authRequired: bool)

  datatype Attempt = Attempt(answer: Answer, now: Instant)

  type Upstream = Text -> Attempt

  /** Tools of an MCP server are fetched; those of an HTTP service follow from its configuration. */
  datatype ToolList = Fetched(tools: seq<Text>) | Derived(service: HTTPService)

  /**
    One event in the life of the records: an attempt, with its answer, its instant
    and the delay of the retry that it scheduled, or an update, with the names that stay.
   */
  datatype Entry = Tried(name: Text, answer: Answer, at: Instant, delay: Option<int>) | Reconfigured(kept: set<Text>)

  function AsOutcome(answer: Answer): Outcome {
    match answer
    case Tools(_) => Success
    case Unavailable(_, auth) => Failure(auth)
  }

  /** `waiting` names the servers whose retry timer is running; `attempted` and `log` are history. */
  datatype Snapshot = Snapshot(
    config: Settings, backoff: seq<int>, states: map<Text, Health>, cache: map<Text, ToolList>,
    waiting: set<Text>, attempted: seq<Text>, log: seq<Entry>)

  function StateOf(r: Snapshot, name: Text): Health {
    if name in r.states then r.states[name] else NEW
  }

  // ---------------------------------------------------------------- one attempt

  function OperationOf(attempt: Attempt): Operation {
    match attempt.answer
    case Tools(_) => RecordSuccess(attempt.now)
    case Unavailable(error, auth) => RecordFailure(Some(error), auth, attempt.now)
  }

  /** The record after an attempt, with the retry that is scheduled for a failure that needs no login. */
  function AfterAttempt(h: Health, attempt: Attempt, backoff: seq<int>): Health
    requires ChannelInv(h)
  {
    var recorded := Apply(h, OperationOf(attempt));
    if Schedules(h, attempt, backoff) then
      OperationKeepsChannels(h, OperationOf(attempt));
      Apply(recorded, ScheduleRetry(BackoffDelay(backoff, h.attemptCount), attempt.now))
    else recorded
  }

  predicate Schedules(h: Health, attempt: Attempt, backoff: seq<int>) {
    && attempt.answer.Unavailable? && !attempt.answer.authRequired
    && BackoffDelay(backoff, h.attemptCount) > 0
  }

  /** What the log says of an attempt; the delay is read off the deadline that was set. */
  function Recorded(h: Health, name: Text, attempt: Attempt, backoff: seq<int>): Entry
    requires ChannelInv(h)
  {
    Tried(name, attempt.answer, attempt.now,
          if Schedules(h, attempt, backoff) then Some(AfterAttempt(h, attempt, backoff).pendingRetryAt - attempt.now) else None)
  }

  /** refreshServer. */
  function AfterRefresh(r: Snapshot, name: Text, attempt: Attempt): Snapshot
    requires ChannelInv(StateOf(r, name))
  {
    var h := StateOf(r, name);
    r.(states := r.states[name := AfterAttempt(h, attempt, r.backoff)],
       cache := if attempt.answer.Tools? then r.cache[name := Fetched(attempt.answer.tools)] else r.cache - {name},
       waiting := if attempt.answer.Tools? then r.waiting - {name}
                  else if Schedules(h, attempt, r.backoff) then r.waiting + {name}
                  else r.waiting,
       attempted := r.attempted + [name],
       log := r.log + [Recorded(h, name, attempt, r.backoff)])
  }

  /** An attempt takes a record whose channels are in order to another such record. */
  lemma AttemptKeepsChannels(h: Health, attempt: Attempt, backoff: seq<int>)
    requires ChannelInv(h)
    ensures ChannelInv(AfterAttempt(h, attempt, backoff))
  {
    OperationKeepsChannels(h, OperationOf(attempt));
    if Schedules(h, attempt, backoff) {
      OperationKeepsChannels(Apply(h, OperationOf(attempt)), ScheduleRetry(BackoffDelay(backoff, h.attemptCount), attempt.now));
    }
  }

  /** What an attempt does to the status, and when the next retry is due. */
  lemma AttemptDecides(h: Health, attempt: Attempt, backoff: seq<int>)
    requires ChannelInv(h)
    ensures
      var h' := AfterAttempt(h, attempt, backoff);
      match attempt.answer
      case Tools(_) => h'.status == Healthy && h'.attemptCount == 0 && h'.retryCancel.None?
      case Unavailable(_, true) =>
        h'.status == AuthRequired && h'.attemptCount == h.attemptCount + 1
        && h'.retryCancel == h.retryCancel && h'.pendingRetryAt == h.pendingRetryAt
      case Unavailable(_, false) =>
        && h'.status == (if h.attemptCount == 0 then Degraded else Failed) && h'.attemptCount == h.attemptCount + 1
        && var delay := BackoffDelay(backoff, h.attemptCount);
           if delay > 0 then h'.retryCancel.Some? && h'.pendingRetryAt == attempt.now + delay
           else h'.retryCancel == h.retryCancel && h'.pendingRetryAt == h.pendingRetryAt
  {
  }

  // ------------------------------------------------------------------ whole steps

  datatype Step =
    | Update(config: Settings)
    | Refresh(upstream: Upstream)
    | Tick(now: Instant, upstream: Upstream)
    | RefreshOne(key: Text, attempt: Attempt)
    | RetryFires(name: Text, now: Instant, attempt: Attempt)

  ghost predicate StatesAreOpen(r: Snapshot) {
    forall n :: n in r.states ==> ChannelInv(r.states[n])
  }

  function NamesOf(servers: seq<MCPServer>): set<Text> {
    set i | 0 <= i < |servers| :: servers[i].name
  }

  function ServiceNames(services: seq<HTTPService>): set<Text> {
    set i | 0 <= i < |services| :: services[i].name
  }

  /** Refresh: every server in turn. */
  function AfterAll(r: Snapshot, servers: seq<MCPServer>, upstream: Upstream): (r': Snapshot)
    requires StatesAreOpen(r)
    ensures StatesAreOpen(r')
    decreases |servers|
  {
    if servers == [] then r
    else
      var name := servers[0].name;
      AttemptKeepsChannels(StateOf(r, name), upstream(name), r.backoff);
      AfterAll(AfterRefresh(r, name, upstream(name)), servers[1..], upstream)
  }

  /** RefreshPeriodic: the servers that a timer can help. */
  function AfterTick(r: Snapshot, servers: seq<MCPServer>, now: Instant, upstream: Upstream): (r': Snapshot)
    requires StatesAreOpen(r)
    ensures StatesAreOpen(r')
    decreases |servers|
  {
    if servers == [] then r
    else
      var name := servers[0].name;
      AttemptKeepsChannels(StateOf(r, name), upstream(name), r.backoff);
      AfterTick(if SkipsTick(StateOf(r, name), now) then r else AfterRefresh(r, name, upstream(name)),
                servers[1..], now, upstream)
  }

  /** cacheHTTPServices, service after service. */
  function WithServices(cache: map<Text, ToolList>, services: seq<HTTPService>): map<Text, ToolList>
    decreases |services|
  {
    if services == [] then cache
    else WithServices(cache[services[0].name := Derived(services[0])], services[1..])
  }

  function Cached(r: Snapshot): Snapshot {
    r.(cache := WithServices(r.cache, r.config.httpServices))
  }

  /** UpdateConfig: servers that stay configured keep their record, and nothing is cached. */
  function Updated(r: Snapshot, config: Settings): Snapshot {
    r.(config := config,
       states := map n | n in NamesOf(config.servers) :: StateOf(r, n),
       cache := map[],
       waiting := r.waiting * NamesOf(config.servers),
       log := r.log + [Reconfigured(NamesOf(config.servers))])
  }

  /** A retry fires when its timer has run, which is not before the deadline. */
  ghost predicate Enabled(r: Snapshot, step: Step, env: Environment) {
    match step
    case Update(config) => WellFormed(config, env)
    case RetryFires(name, now, _) => name in r.waiting && StateOf(r, name).pendingRetryAt <= now
    case _ => true
  }

  function Next(r: Snapshot, step: Step): Snapshot
    requires StatesAreOpen(r)
  {
    match step
    case Update(config) => Updated(r, config)
    case Refresh(upstream) => Cached(AfterAll(r, r.config.servers, upstream))
    case Tick(now, upstream) => Cached(AfterTick(r, r.config.servers, now, upstream))
    case RefreshOne(key, attempt) =>
      var server := ServerFor(r.config.servers, key);
      if server.None? then r else AfterRefresh(r, server.value.name, attempt)
    case RetryFires(name, _, attempt) =>
      var fired := r.(waiting := r.waiting - {name});
      var server := ServerFor(r.config.servers, name);
      if server.None? then fired else AfterRefresh(fired, server.value.name, attempt)
  }

  /** NewRegistry. */
  function Start(config: Settings, backoff: seq<int>): Snapshot {
    Snapshot(config, backoff, map n | n in NamesOf(config.servers) :: NEW, map[], {}, [], [])
  }

  // ------------------------------------------------------------------- invariant

  /** Tools are cached for configured entries only, and for MCP servers only while they are healthy. */
  ghost predicate CacheInv(r: Snapshot) {
    && r.cache.Keys <= NamesOf(r.config.servers) + ServiceNames(r.config.httpServices)
    && forall n :: n in r.cache && n in r.states ==> r.states[n].status == Healthy
  }

  ghost predicate RetryInv(r: Snapshot) {
    forall n :: n in r.waiting ==> n in r.states && r.states[n].retryCancel.Some?
  }

  ghost predicate Inv(r: Snapshot, env: Environment) {
    && WellFormed(r.config, env)
    && r.states.Keys == NamesOf(r.config.servers)
    && StatesAreOpen(r) && CacheInv(r) && RetryInv(r)
  }

  lemma RefreshKeepsCache(r: Snapshot, name: Text, attempt: Attempt)
    requires CacheInv(r) && StatesAreOpen(r) && name in r.states && name in NamesOf(r.config.servers)
    ensures CacheInv(AfterRefresh(r, name, attempt))
  {
    AttemptDecides(r.states[name], attempt, r.backoff);
  }

  lemma RefreshKeepsRetries(r: Snapshot, name: Text, attempt: Attempt)
    requires RetryInv(r) && StatesAreOpen(r) && name in r.states
    ensures RetryInv(AfterRefresh(r, name, attempt))
  {
    AttemptDecides(r.states[name], attempt, r.backoff);
  }

  lemma RefreshKeepsInv(r: Snapshot, name: Text, attempt: Attempt, env: Environment)
    requires Inv(r, env) && name in NamesOf(r.config.servers)
    ensures Inv(AfterRefresh(r, name, attempt), env)
  {
    AttemptKeepsChannels(r.states[name], attempt, r.backoff);
    RefreshKeepsCache(r, name, attempt);
    RefreshKeepsRetries(r, name, attempt);
    assert r.states.Keys + {name} == r.states.Keys;
  }

  lemma {:induction false} AllKeepInv(r: Snapshot, servers: seq<MCPServer>, upstream: Upstream, env: Environment)
    requires Inv(r, env) && NamesOf(servers) <= NamesOf(r.config.servers)
    ensures Inv(AfterAll(r, servers, upstream), env) && AfterAll(r, servers, upstream).config == r.config
    decreases |servers|
  {
    if servers != [] {
      var name := servers[0].name;
      assert name in NamesOf(servers);
      RefreshKeepsInv(r, name, upstream(name), env);
      TailNames(servers);
      AllKeepInv(AfterRefresh(r, name, upstream(name)), servers[1..], upstream, env);
    }
  }

  lemma {:induction false} TickKeepsInv(r: Snapshot, servers: seq<MCPServer>, now: Instant, upstream: Upstream, env: Environment)
    requires Inv(r, env) && NamesOf(servers) <= NamesOf(r.config.servers)
    ensures Inv(AfterTick(r, servers, now, upstream), env) && AfterTick(r, servers, now, upstream).config == r.config
    decreases |servers|
  {
    if servers != [] {
      var name := servers[0].name;
      assert name in NamesOf(servers);
      RefreshKeepsInv(r, name, upstream(name), env);
      TailNames(servers);
      TickKeepsInv(if SkipsTick(StateOf(r, name), now) then r else AfterRefresh(r, name, upstream(name)),
                   servers[1..], now, upstream, env);
    }
  }

  lemma TailNames(servers: seq<MCPServer>)
    requires servers != []
    ensures NamesOf(servers) == {servers[0].name} + NamesOf(servers[1..])
  {
    var tail := servers[1..];
    assert forall i :: 1 <= i < |servers| ==> servers[i] == tail[i - 1];
    assert forall i :: 0 <= i < |tail| ==> tail[i] == servers[i + 1];
  }

  lemma {:induction false} ServicesAreCached(cache: map<Text, ToolList>, services: seq<HTTPService>)
    ensures
      var after := WithServices(cache, services);
      && after.Keys == cache.Keys + ServiceNames(services)
      && forall n :: n in cache && n !in ServiceNames(services) ==> after[n] == cache[n]
    decreases |services|
  {
    if services != [] {
      var tail := services[1..];
      assert forall i :: 1 <= i < |services| ==> services[i] == tail[i - 1];
      assert forall i :: 0 <= i < |tail| ==> tail[i] == services[i + 1];
      assert ServiceNames(services) == {services[0].name} + ServiceNames(tail);
      ServicesAreCached(cache[services[0].name := Derived(services[0])], tail);
    }
  }

  /** No service has the name of a server, so its tools never stand in for a server's. */
  lemma NamesAreApart(c: Settings, env: Environment)
    requires IsValid(c, env)
    ensures NamesOf(c.servers) !! ServiceNames(c.httpServices)
  {
    forall i, j | 0 <= i < |c.servers| && 0 <= j < |c.httpServices|
      ensures c.servers[i].name != c.httpServices[j].name
    {
      assert c.servers[i].name in IdsOf(c.servers[i]) && c.httpServices[j].name in ServiceIds(c.httpServices[j]);
      assert IdsOf(c.servers[i]) !! ServiceIds(c.httpServices[j]);
    }
  }

  lemma CachedKeepsInv(r: Snapshot, env: Environment)
    requires Inv(r, env)
    ensures Inv(Cached(r), env)
  {
    ServicesAreCached(r.cache, r.config.httpServices);
    NamesAreApart(r.config, env);
  }

  /** The server that a name or alias reaches. */
  lemma ReachedIsConfigured(r: Snapshot, key: Text)
    requires ServerFor(r.config.servers, key).Some?
    ensures ServerFor(r.config.servers, key).value.name in NamesOf(r.config.servers)
  {
    ServerForFinds(r.config.servers, key);
  }

  lemma StepKeepsInv(r: Snapshot, step: Step, env: Environment)
    requires Inv(r, env) && Enabled(r, step, env)
    ensures Inv(Next(r, step), env)
  {
    match step
    case Update(config) =>
    case Refresh(upstream) =>
      AllKeepInv(r, r.config.servers, upstream, env);
      CachedKeepsInv(AfterAll(r, r.config.servers, upstream), env);
    case Tick(now, upstream) =>
      TickKeepsInv(r, r.config.servers, now, upstream, env);
      CachedKeepsInv(AfterTick(r, r.config.servers, now, upstream), env);
    case RefreshOne(key, attempt) =>
      if ServerFor(r.config.servers, key).Some? {
        ReachedIsConfigured(r, key);
        RefreshKeepsInv(r, ServerFor(r.config.servers, key).value.name, attempt, env);
      }
    case RetryFires(name, _, attempt) =>
      var fired := r.(waiting := r.waiting - {name});
      if ServerFor(r.config.servers, name).Some? {
        ReachedIsConfigured(r, name);
        RefreshKeepsInv(fired, ServerFor(r.config.servers, name).value.name, attempt, env);
      }
  }

  // ------------------------------------------------------------------------- runs

  ghost predicate IsRun(r: Snapshot, steps: seq<Step>, env: Environment)
    requires Inv(r, env)
    decreases |steps|
  {
    steps != [] ==>
      && Enabled(r, steps[0], env)
      && (StepKeepsInv(r, steps[0], env); IsRun(Next(r, steps[0]), steps[1..], env))
  }

  ghost function Run(r: Snapshot, steps: seq<Step>, env: Environment): Snapshot
    requires Inv(r, env) && IsRun(r, steps, env)
    decreases |steps|
  {
    if steps == [] then r
    else
      StepKeepsInv(r, steps[0], env);
      Run(Next(r, steps[0]), steps[1..], env)
  }

  lemma StartIsInv(config: Settings, backoff: seq<int>, env: Environment)
    requires WellFormed(config, env)
    ensures Inv(Start(config, backoff), env)
  {
  }

  lemma RunHead(r: Snapshot, steps: seq<Step>, env: Environment)
    requires Inv(r, env) && IsRun(r, steps, env) && steps != []
    ensures Inv(Next(r, steps[0]), env) && IsRun(Next(r, steps[0]), steps[1..], env)
    ensures Run(r, steps, env) == Run(Next(r, steps[0]), steps[1..], env)
  {
    StepKeepsInv(r, steps[0], env);
  }

  /** In every reachable registry, what is cached is configured, and a cached MCP server is healthy. */
  lemma {:induction false} EveryRunKeepsInv(r: Snapshot, steps: seq<Step>, env: Environment)
    requires Inv(r, env) && IsRun(r, steps, env)
    ensures Inv(Run(r, steps, env), env)
    decreases |steps|
  {
    if steps != [] {
      RunHead(r, steps, env);
      EveryRunKeepsInv(Next(r, steps[0]), steps[1..], env);
    }
  }

  // ------------------------------------------------------------- who is attempted

  function NameList(servers: seq<MCPServer>): seq<Text> {
    if servers == [] then [] else [servers[0].name] + NameList(servers[1..])
  }

  /** A user refresh attempts every server, whatever its state. */
  lemma {:induction false} RefreshAttemptsEveryone(r: Snapshot, servers: seq<MCPServer>, upstream: Upstream)
    requires StatesAreOpen(r)
    ensures AfterAll(r, servers, upstream).attempted == r.attempted + NameList(servers)
    decreases |servers|
  {
    if servers != [] {
      var name := servers[0].name;
      AttemptKeepsChannels(StateOf(r, name), upstream(name), r.backoff);
      var r1 := AfterRefresh(r, name, upstream(name));
      RefreshAttemptsEveryone(r1, servers[1..], upstream);
      Associative(r.attempted, [name], NameList(servers[1..]));
    }
  }

  /** The servers that the ticker does not leave alone, in order. */
  function Due(r: Snapshot, servers: seq<MCPServer>, now: Instant): seq<Text> {
    if servers == [] then []
    else (if SkipsTick(StateOf(r, servers[0].name), now) then [] else [servers[0].name]) + Due(r, servers[1..], now)
  }

  lemma {:induction false} DueLooksAtNames(r: Snapshot, r': Snapshot, servers: seq<MCPServer>, now: Instant)
    requires forall i :: 0 <= i < |servers| ==> StateOf(r, servers[i].name) == StateOf(r', servers[i].name)
    ensures Due(r, servers, now) == Due(r', servers, now)
    decreases |servers|
  {
    if servers != [] {
      DueLooksAtNames(r, r', servers[1..], now);
    }
  }

  /** What is due is decided by the records before the tick: an attempt says nothing of other servers. */
  lemma {:induction false} TickAttemptsTheDue(r: Snapshot, servers: seq<MCPServer>, now: Instant, upstream: Upstream)
    requires StatesAreOpen(r) && ServersAreApart(servers)
    ensures AfterTick(r, servers, now, upstream).attempted == r.attempted + Due(r, servers, now)
    decreases |servers|
  {
    if servers != [] {
      var name, tail := servers[0].name, servers[1..];
      assert ServersAreApart(tail);
      if SkipsTick(StateOf(r, name), now) {
        TickAttemptsTheDue(r, tail, now, upstream);
        assert [] + Due(r, tail, now) == Due(r, tail, now);
      } else {
        AttemptKeepsChannels(StateOf(r, name), upstream(name), r.backoff);
        var r1 := AfterRefresh(r, name, upstream(name));
        TickAttemptsTheDue(r1, tail, now, upstream);
        NamesAreUnique(servers, 0);
        assert forall i :: 0 <= i < |tail| ==> tail[i] == servers[i + 1];
        DueLooksAtNames(r, r1, tail, now);
        Associative(r.attempted, [name], Due(r, tail, now));
      }
    }
  }

  /** RefreshPeriodic attempts exactly the servers that need no login and wait for no retry. */
  lemma TickAttemptsExactly(r: Snapshot, now: Instant, upstream: Upstream, env: Environment)
    requires Inv(r, env)
    ensures Next(r, Tick(now, upstream)).attempted == r.attempted + Due(r, r.config.servers, now)
    ensures forall n :: n in Due(r, r.config.servers, now) <==>
              n in r.states && r.states[n].status != AuthRequired
              && !(r.states[n].retryCancel.Some? && r.states[n].pendingRetryAt > now)
  {
    TickAttemptsTheDue(r, r.config.servers, now, upstream);
    DueIff(r, r.config.servers, now);
  }

  lemma {:induction false} DueIff(r: Snapshot, servers: seq<MCPServer>, now: Instant)
    ensures forall n :: n in Due(r, servers, now) <==> n in NamesOf(servers) && !SkipsTick(StateOf(r, n), now)
    decreases |servers|
  {
    if servers != [] {
      TailNames(servers);
      DueIff(r, servers[1..], now);
    }
  }

  lemma UserRefreshAttemptsAll(r: Snapshot, upstream: Upstream)
    requires StatesAreOpen(r)
    ensures Next(r, Refresh(upstream)).attempted == r.attempted + NameList(r.config.servers)
  {
    RefreshAttemptsEveryone(r, r.config.servers, upstream);
  }

  /** Neither does a refresh of one server look at its state. */
  lemma UserRefreshAttemptsOne(r: Snapshot, key: Text, attempt: Attempt, server: MCPServer)
    requires StatesAreOpen(r) && ServerFor(r.config.servers, key) == Some(server)
    ensures Next(r, RefreshOne(key, attempt)).attempted == r.attempted + [server.name]
    ensures Next(r, RefreshOne(key, attempt)) == AfterRefresh(r, server.name, attempt)
  {
  }

  // ------------------------------------------------------ what timers leave alone

  predicate IsTimed(step: Step) {
    step.Tick? || step.RetryFires?
  }

  /** The attempts that a step has added do not concern `n`. */
  ghost predicate LeavesAlone(r: Snapshot, r': Snapshot, n: Text) {
    && |r.attempted| <= |r'.attempted| && r'.attempted[..|r.attempted|] == r.attempted
    && n !in r'.attempted[|r.attempted|..]
  }

  /** Neither do they change its record or its retry. */
  ghost predicate IsUntouched(r: Snapshot, r': Snapshot, n: Text) {
    && LeavesAlone(r, r', n)
    && (n in r.states <==> n in r'.states) && StateOf(r, n) == StateOf(r', n) && (n in r.waiting <==> n in r'.waiting)
  }

  lemma LeavesAloneTwice(r: Snapshot, r1: Snapshot, r2: Snapshot, n: Text)
    requires LeavesAlone(r, r1, n) && LeavesAlone(r1, r2, n)
    ensures LeavesAlone(r, r2, n)
  {
    var k, k1 := |r.attempted|, |r1.attempted|;
    assert r2.attempted[..k] == r2.attempted[..k1][..k];
    assert r2.attempted[k..] == r2.attempted[..k1][k..] + r2.attempted[k1..];
  }

  lemma OtherAttempt(r: Snapshot, name: Text, attempt: Attempt, n: Text)
    requires ChannelInv(StateOf(r, name)) && name != n
    ensures IsUntouched(r, AfterRefresh(r, name, attempt), n)
  {
  }

  lemma {:induction false} TickLeavesSkipped(r: Snapshot, servers: seq<MCPServer>, now: Instant, upstream: Upstream, n: Text)
    requires StatesAreOpen(r) && SkipsTick(StateOf(r, n), now)
    ensures IsUntouched(r, AfterTick(r, servers, now, upstream), n)
    decreases |servers|
  {
    if servers != [] {
      var name := servers[0].name;
      if SkipsTick(StateOf(r, name), now) {
        TickLeavesSkipped(r, servers[1..], now, upstream, n);
      } else {
        AttemptKeepsChannels(StateOf(r, name), upstream(name), r.backoff);
        var r1 := AfterRefresh(r, name, upstream(name));
        OtherAttempt(r, name, upstream(name), n);
        TickLeavesSkipped(r1, servers[1..], now, upstream, n);
        LeavesAloneTwice(r, r1, AfterTick(r1, servers[1..], now, upstream), n);
      }
    }
  }

  /** A retry is for the server of its name, even though aliases are looked at too. */
  lemma RetryReachesItsServer(r: Snapshot, name: Text, env: Environment)
    requires Inv(r, env) && name in r.waiting
    ensures ServerFor(r.config.servers, name).Some? && ServerFor(r.config.servers, name).value.name == name
  {
    var i :| 0 <= i < |r.config.servers| && r.config.servers[i].name == name;
    ServerForIsTheMatch(r.config.servers, name, i);
  }

  lemma RetryIsARefresh(r: Snapshot, n: Text, now: Instant, attempt: Attempt, server: MCPServer)
    requires StatesAreOpen(r) && ServerFor(r.config.servers, n) == Some(server)
    ensures Next(r, RetryFires(n, now, attempt)) == AfterRefresh(r.(waiting := r.waiting - {n}), server.name, attempt)
  {
  }

  /**
    A timed step that cannot be for a server with this record: a tick that skips
    it, or a retry that is another one's or not due.
   */
  predicate PassesBy(h: Health, waits: bool, step: Step, n: Text) {
    match step
    case Tick(now, _) => SkipsTick(h, now)
    case RetryFires(name, now, _) => name == n ==> !waits || h.pendingRetryAt > now
    case _ => false
  }

  lemma PassingStepLeavesAlone(r: Snapshot, step: Step, n: Text, env: Environment)
    requires Inv(r, env) && Enabled(r, step, env) && PassesBy(StateOf(r, n), n in r.waiting, step, n)
    ensures IsUntouched(r, Next(r, step), n)
  {
    match step
    case Tick(now, upstream) => TickLeavesSkipped(r, r.config.servers, now, upstream, n);
    case RetryFires(name, now, attempt) =>
      RetryReachesItsServer(r, name, env);
      RetryIsARefresh(r, name, now, attempt, ServerFor(r.config.servers, name).value);
      OtherAttempt(r.(waiting := r.waiting - {name}), name, attempt, n);
  }

  lemma UntouchedTwice(r: Snapshot, r1: Snapshot, r2: Snapshot, n: Text)
    requires IsUntouched(r, r1, n) && IsUntouched(r1, r2, n)
    ensures IsUntouched(r, r2, n)
  {
    LeavesAloneTwice(r, r1, r2, n);
  }

  lemma StillUntouched(first: Snapshot, r: Snapshot, step: Step, n: Text, env: Environment)
    requires Inv(r, env) && Enabled(r, step, env) && IsUntouched(first, r, n)
    requires PassesBy(StateOf(first, n), n in first.waiting, step, n)
    ensures IsUntouched(first, Next(r, step), n)
  {
    PassingStepLeavesAlone(r, step, n, env);
    UntouchedTwice(first, r, Next(r, step), n);
  }

  ghost predicate AllPassBy(h: Health, waits: bool, steps: seq<Step>, n: Text) {
    forall i :: 0 <= i < |steps| ==> PassesBy(h, waits, steps[i], n)
  }

  /** A run of such steps leaves the server as it was at first. */
  lemma {:induction false} PassingRunLeavesAlone(first: Snapshot, r: Snapshot, steps: seq<Step>, n: Text, env: Environment)
    requires Inv(r, env) && IsRun(r, steps, env) && IsUntouched(first, r, n)
    requires AllPassBy(StateOf(first, n), n in first.waiting, steps, n)
    ensures IsUntouched(first, Run(r, steps, env), n)
    decreases |steps|
  {
    if steps != [] {
      RunHead(r, steps, env);
      assert PassesBy(StateOf(first, n), n in first.waiting, steps[0], n);
      StillUntouched(first, r, steps[0], n, env);
      PassingRunLeavesAlone(first, Next(r, steps[0]), steps[1..], n, env);
    }
  }

  // ------------------------------------------------------- waiting for a human

  /** A timer leaves the server alone: it needs a login, and no retry is on its way. */
  predicate IsParked(r: Snapshot, n: Text) {
    n in r.states && r.states[n].status == AuthRequired && n !in r.waiting
  }

  /**
    With no retry outstanding, no run of ticks, nor of retries of other servers,
    attempts a server that needs a login.
   */
  lemma ParkedServerStaysParked(r: Snapshot, steps: seq<Step>, n: Text, env: Environment)
    requires Inv(r, env) && IsRun(r, steps, env) && IsParked(r, n)
    requires forall i :: 0 <= i < |steps| ==> IsTimed(steps[i])
    ensures IsParked(Run(r, steps, env), n) && LeavesAlone(r, Run(r, steps, env), n)
  {
    PassingRunLeavesAlone(r, r, steps, n, env);
  }

  /** The premise is needed: an authorization failure does not cancel the retry of an earlier failure ... */
  lemma AuthFailureLeavesRetry(r: Snapshot, n: Text, failure: Attempt, env: Environment)
    requires Inv(r, env) && n in r.waiting
    requires failure.answer.Unavailable? && failure.answer.authRequired
    ensures
      var failed := Next(r, RefreshOne(n, failure));
      n in failed.states && failed.states[n].status == AuthRequired && n in failed.waiting
  {
    RetryReachesItsServer(r, n, env);
    AttemptDecides(r.states[n], failure, r.backoff);
    UserRefreshAttemptsOne(r, n, failure, ServerFor(r.config.servers, n).value);
  }

  /** ... and a retry attempts its server whatever the status is. */
  lemma RetryAttemptsItsServer(r: Snapshot, n: Text, now: Instant, attempt: Attempt, env: Environment)
    requires Inv(r, env) && n in r.waiting
    ensures Next(r, RetryFires(n, now, attempt)).attempted == r.attempted + [n]
  {
    RetryReachesItsServer(r, n, env);
    RetryIsARefresh(r, n, now, attempt, ServerFor(r.config.servers, n).value);
  }

  // ---------------------------------------------------------- waiting for a deadline

  predicate IsBackingOff(r: Snapshot, n: Text, deadline: int) {
    n in r.states && r.states[n].retryCancel.Some? && r.states[n].pendingRetryAt == deadline
  }

  function InstantOf(step: Step): Instant
    requires IsTimed(step)
  {
    step.now
  }

  /** No run of timed steps before the deadline of its retry attempts the server. */
  lemma BackoffIsRespected(r: Snapshot, steps: seq<Step>, n: Text, deadline: int, env: Environment)
    requires Inv(r, env) && IsRun(r, steps, env) && IsBackingOff(r, n, deadline)
    requires forall i :: 0 <= i < |steps| ==> IsTimed(steps[i]) && InstantOf(steps[i]) < deadline
    ensures IsBackingOff(Run(r, steps, env), n, deadline) && LeavesAlone(r, Run(r, steps, env), n)
  {
    PassingRunLeavesAlone(r, r, steps, n, env);
  }

  // ----------------------------------------------------------- the mutable object

  /** Health records are held as values; `waiting` stands for the retry goroutines. */
  class Registry {
    var cfg: Settings
    const backoff: seq<int>
    var toolCache: map<Text, ToolList>
    var states: map<Text, Health>
    var waiting: set<Text>
    ghost var attempted: seq<Text>
    ghost var log: seq<Entry>

    ghost function View(): Snapshot
      reads this
    {
      Snapshot(cfg, backoff, states, toolCache, waiting, attempted, log)
    }

    /** NewRegistryWithBackoff. */
    constructor (config: Settings, schedule: seq<int>)
      ensures View() == Start(config, schedule)
    {
      cfg, backoff, toolCache, waiting, attempted, log := config, schedule, map[], {}, [], [];
      new;
      states := map[];
      for i := 0 to |cfg.servers|
        invariant cfg == config && toolCache == map[] && waiting == {} && attempted == [] && log == []
        invariant states == map n | n in NamesOf(cfg.servers[..i]) :: NEW
      {
        NamesUpTo(cfg.servers, i);
        states := states[cfg.servers[i].name := NEW];
      }
      assert cfg.servers[..|cfg.servers|] == cfg.servers;
    }

    method UpdateConfig(config: Settings)
      modifies this
      ensures View() == Updated(old(View()), config)
    {
      cfg := config;
      toolCache := map[];
      var keep: map<Text, Health> := map[];
      for i := 0 to |config.servers|
        invariant keep == map n | n in NamesOf(config.servers[..i]) :: StateOf(old(View()), n)
        invariant cfg == config && toolCache == map[] && states == old(states)
        invariant waiting == old(waiting) && attempted == old(attempted) && log == old(log)
      {
        NamesUpTo(config.servers, i);
        var name := config.servers[i].name;
        keep := keep[name := if name in states then states[name] else NEW];
      }
      assert config.servers[..|config.servers|] == config.servers;
      waiting := waiting * keep.Keys;  // every other record has its retry cancelled
      states := keep;
      log := log + [Reconfigured(NamesOf(config.servers))];
    }

    method StateFor(name: Text) returns (st: Health)
      modifies this`states
      ensures st == StateOf(old(View()), name)
      ensures states == old(states)[name := st]
    {
      if name !in states {
        states := states[name := NEW];
      }
      st := states[name];
    }

    /** refreshServer, given what the upstream answers. */
    method RefreshOneServer(name: Text, attempt: Attempt)
      requires ChannelInv(StateOf(View(), name))
      modifies this
      ensures View() == AfterRefresh(old(View()), name, attempt)
    {
      var state := StateFor(name);
      attempted := attempted + [name];
      log := log + [Recorded(state, name, attempt, backoff)];
      match attempt.answer
      case Unavailable(error, auth) =>
        RecordUnavailable(name, attempt);
        toolCache := toolCache - {name};
      case Tools(tools) =>
        states := states[name := Apply(state, Operation.RecordSuccess(attempt.now))];
        waiting := waiting - {name};
        toolCache := toolCache[name := Fetched(tools)];
    }

    /** The failure branch: the record, and a retry unless a login is needed. */
    method RecordUnavailable(name: Text, attempt: Attempt)
      requires name in states && ChannelInv(states[name]) && attempt.answer.Unavailable?
      modifies this`states, this`waiting
      ensures states == old(states)[name := AfterAttempt(old(states)[name], attempt, backoff)]
      ensures waiting == if Schedules(old(states)[name], attempt, backoff) then old(waiting) + {name} else old(waiting)
    {
      var state := states[name];
      var failure := Operation.RecordFailure(Some(attempt.answer.error), attempt.answer.authRequired, attempt.now);
      OperationKeepsChannels(state, failure);
      states := states[name := Apply(state, failure)];
      if !attempt.answer.authRequired {
        ScheduleBackoffRetry(name, state.attemptCount, attempt.now);
      }
    }

    method ScheduleBackoffRetry(name: Text, index: nat, now: Instant)
      requires name in states && ChannelInv(states[name])
      modifies this`states, this`waiting
      ensures
        var delay := BackoffDelay(backoff, index);
        && states == (if delay <= 0 then old(states)
                      else old(states)[name := Apply(old(states)[name], Operation.ScheduleRetry(delay, now))])
        && waiting == if delay <= 0 then old(waiting) else old(waiting) + {name}
    {
      var delay := BackoffDelay(backoff, index);
      if delay <= 0 {
        return;
      }
      var state := StateFor(name);
      states := states[name := Apply(state, Operation.ScheduleRetry(delay, now))];
      waiting := waiting + {name};
    }

    method CacheHTTPServices()
      modifies this`toolCache
      ensures View() == Cached(old(View()))
    {
      for i := 0 to |cfg.httpServices|
        invariant WithServices(toolCache, cfg.httpServices[i..]) == WithServices(old(toolCache), cfg.httpServices)
      {
        var service := cfg.httpServices[i];
        assert cfg.httpServices[i..][0] == service && cfg.httpServices[i..][1..] == cfg.httpServices[i + 1..];
        toolCache := toolCache[service.name := Derived(service)];
      }
    }

    method Refresh(upstream: Upstream)
      requires StatesAreOpen(View())
      modifies this
      ensures View() == Next(old(View()), Step.Refresh(upstream))
    {
      for i := 0 to |cfg.servers|
        invariant StatesAreOpen(View()) && cfg == old(cfg)
        invariant AfterAll(View(), cfg.servers[i..], upstream) == AfterAll(old(View()), cfg.servers, upstream)
      {
        var name := cfg.servers[i].name;
        assert cfg.servers[i..][0] == cfg.servers[i] && cfg.servers[i..][1..] == cfg.servers[i + 1..];
        AttemptKeepsChannels(StateOf(View(), name), upstream(name), backoff);
        RefreshOneServer(name, upstream(name));
      }
      CacheHTTPServices();
    }

    method TickOne(name: Text, now: Instant, attempt: Attempt)
      requires StatesAreOpen(View())
      modifies this
      ensures View() == if SkipsTick(StateOf(old(View()), name), now) then old(View())
                        else AfterRefresh(old(View()), name, attempt)
      ensures StatesAreOpen(View())
    {
      ghost var before := View();
      var state := StateFor(name);
      if SkipsTick(state, now) {
        assert states == before.states;
        return;
      }
      assert AfterRefresh(View(), name, attempt) == AfterRefresh(before, name, attempt);
      AttemptKeepsChannels(state, attempt, backoff);
      RefreshOneServer(name, attempt);
    }

    method RefreshPeriodic(now: Instant, upstream: Upstream)
      requires StatesAreOpen(View())
      modifies this
      ensures View() == Next(old(View()), Tick(now, upstream))
    {
      ghost var start := View();
      for i := 0 to |cfg.servers|
        invariant StatesAreOpen(View()) && cfg == old(cfg)
        invariant AfterTick(View(), cfg.servers[i..], now, upstream) == AfterTick(start, cfg.servers, now, upstream)
      {
        var name := cfg.servers[i].name;
        assert cfg.servers[i..][0] == cfg.servers[i] && cfg.servers[i..][1..] == cfg.servers[i + 1..];
        TickOne(name, now, upstream(name));
      }
      CacheHTTPServices();
    }

    method RefreshServer(key: Text, attempt: Attempt) returns (known: bool)
      requires StatesAreOpen(View())
      modifies this
      ensures known <==> ServerFor(old(cfg).servers, key).Some?
      ensures View() == Next(old(View()), RefreshOne(key, attempt))
    {
      var server := FindServer(cfg.servers, key);
      if server.None? {
        return false;
      }
      RefreshOneServer(server.value.name, attempt);
      return true;
    }

    /** A retry goroutine whose timer has fired: the server is looked up anew. */
    method FireRetry(name: Text, now: Instant, attempt: Attempt)
      requires StatesAreOpen(View())
      modifies this
      ensures View() == Next(old(View()), RetryFires(name, now, attempt))
    {
      waiting := waiting - {name};
      var current := FindServer(cfg.servers, name);
      if current.Some? {
        RefreshOneServer(current.value.name, attempt);
      }
    }
  }

  lemma NamesUpTo(servers: seq<MCPServer>, i: nat)
    requires i < |servers|
    ensures NamesOf(servers[..i + 1]) == NamesOf(servers[..i]) + {servers[i].name}
  {
    assert servers[..i + 1] == servers[..i] + [servers[i]];
  }
}
