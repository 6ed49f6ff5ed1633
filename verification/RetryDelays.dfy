/**
  What a registry run does to one server, told from its log alone: status and
  failure count follow the outcomes, and the retries that are really scheduled
  back off.
 */
module RetryDelays {
  import opened GoText
  import opened Expand
  import opened Config
  import opened ServerHealth
  import R = Registry

  // ----------------------------------------------------- one record, failing repeatedly

  predicate AllFail(attempts: seq<R.Attempt>) {
    forall i :: 0 <= i < |attempts| ==> attempts[i].answer.Unavailable?
  }

  /** The delays, from the attempt to the deadline, of the retries that the attempts schedule. */
  function MachineDelays(h: Health, attempts: seq<R.Attempt>, backoff: seq<int>): seq<int>
    requires ChannelInv(h)
    decreases |attempts|
  {
    if attempts == [] then []
    else
      R.AttemptKeepsChannels(h, attempts[0], backoff);
      var h' := R.AfterAttempt(h, attempts[0], backoff);
      (if R.Schedules(h, attempts[0], backoff) then [h'.pendingRetryAt - attempts[0].now] else [])
      + MachineDelays(h', attempts[1..], backoff)
  }

  /** Which of the failing attempts were authorization failures. */
  function AuthFailures(attempts: seq<R.Attempt>): seq<bool>
    requires AllFail(attempts)
  {
    seq(|attempts|, i requires 0 <= i < |attempts| => attempts[i].answer.authRequired)
  }

  /** The machine's delays depend on nothing but the failure count and the kinds of failure. */
  lemma {:induction false} MachineDelaysAreScheduled(h: Health, attempts: seq<R.Attempt>, backoff: seq<int>)
    requires ChannelInv(h) && AllFail(attempts)
    ensures MachineDelays(h, attempts, backoff) == ScheduledDelays(h.attemptCount, AuthFailures(attempts), backoff)
    decreases |attempts|
  {
    if attempts != [] {
      R.AttemptKeepsChannels(h, attempts[0], backoff);
      R.AttemptDecides(h, attempts[0], backoff);
      MachineDelaysAreScheduled(R.AfterAttempt(h, attempts[0], backoff), attempts[1..], backoff);
      assert AuthFailures(attempts)[1..] == AuthFailures(attempts[1..]);
    }
  }

  /** So within one run of failures they never shrink, and never exceed the last entry of the schedule. */
  lemma MachineDelaysGrow(h: Health, attempts: seq<R.Attempt>, backoff: seq<int>)
    requires ChannelInv(h) && AllFail(attempts) && Nondecreasing(backoff)
    ensures
      var delays := MachineDelays(h, attempts, backoff);
      if backoff == [] then delays == []
      else GrowWithin(delays, BackoffDelay(backoff, h.attemptCount), backoff[|backoff| - 1])
  {
    MachineDelaysAreScheduled(h, attempts, backoff);
    DelaysGrowWithinAFailureRun(h.attemptCount, AuthFailures(attempts), backoff);
  }

  // ------------------------------------------------------------------- whole runs

  /** The outcomes of one server since its record was made. */
  function OutcomesOf(log: seq<R.Entry>, n: Text): seq<Outcome> {
    if log == [] then []
    else Extended(OutcomesOf(log[..|log| - 1], n), log[|log| - 1], n)
  }

  function Extended(before: seq<Outcome>, e: R.Entry, n: Text): seq<Outcome> {
    match e
    case Tried(name, answer, _, _) => if name == n then before + [R.AsOutcome(answer)] else before
    case Reconfigured(kept) => if n in kept then before else []
  }

  /** The delay that an attempt with this outcome schedules after those outcomes. */
  function DelayAfter(before: seq<Outcome>, outcome: Outcome, backoff: seq<int>): Option<int> {
    var delay := BackoffDelay(backoff, TrailingFailures(before));
    if outcome == Failure(false) && delay > 0 then Some(delay) else None
  }

  predicate Follows(h: Health, outcomes: seq<Outcome>) {
    h.status == StatusOf(outcomes) && h.attemptCount == TrailingFailures(outcomes)
  }

  predicate DelayFollows(before: seq<R.Entry>, e: R.Entry, backoff: seq<int>) {
    e.Tried? ==> e.delay == DelayAfter(OutcomesOf(before, e.name), R.AsOutcome(e.answer), backoff)
  }

  ghost predicate RecordsFollow(r: R.Snapshot) {
    forall n :: Follows(R.StateOf(r, n), OutcomesOf(r.log, n))
  }

  ghost predicate DelaysFollow(log: seq<R.Entry>, backoff: seq<int>) {
    forall i :: 0 <= i < |log| ==> DelayFollows(log[..i], log[i], backoff)
  }

  ghost predicate TraceInv(r: R.Snapshot) {
    R.StatesAreOpen(r) && RecordsFollow(r) && DelaysFollow(r.log, r.backoff)
  }

  lemma OutcomesOfAppend(log: seq<R.Entry>, e: R.Entry, n: Text)
    ensures OutcomesOf(log + [e], n) == Extended(OutcomesOf(log, n), e, n)
  {
    assert (log + [e])[..|log|] == log;
  }

  lemma DelaysFollowAppend(log: seq<R.Entry>, e: R.Entry, backoff: seq<int>)
    requires DelaysFollow(log, backoff) && DelayFollows(log, e, backoff)
    ensures DelaysFollow(log + [e], backoff)
  {
    var longer := log + [e];
    forall i | 0 <= i < |longer|
      ensures DelayFollows(longer[..i], longer[i], backoff)
    {
      assert longer[..i] == log[..i];
      assert log[..|log|] == log;
    }
  }

  lemma AttemptFollows(h: Health, name: Text, attempt: R.Attempt, backoff: seq<int>, outcomes: seq<Outcome>)
    requires ChannelInv(h) && Follows(h, outcomes)
    ensures
      var e := R.Recorded(h, name, attempt, backoff);
      && Follows(R.AfterAttempt(h, attempt, backoff), outcomes + [R.AsOutcome(e.answer)])
      && e.delay == DelayAfter(outcomes, R.AsOutcome(e.answer), backoff)
  {
    R.AttemptDecides(h, attempt, backoff);
    var e := R.Recorded(h, name, attempt, backoff);
    assert (outcomes + [R.AsOutcome(e.answer)])[..|outcomes|] == outcomes;
  }

  lemma RefreshKeepsRecords(r: R.Snapshot, name: Text, attempt: R.Attempt, n: Text)
    requires R.StatesAreOpen(r) && Follows(R.StateOf(r, name), OutcomesOf(r.log, name))
    requires Follows(R.StateOf(r, n), OutcomesOf(r.log, n))
    ensures
      var r' := R.AfterRefresh(r, name, attempt);
      Follows(R.StateOf(r', n), OutcomesOf(r'.log, n))
  {
    var e := R.Recorded(R.StateOf(r, name), name, attempt, r.backoff);
    OutcomesOfAppend(r.log, e, n);
    AttemptFollows(R.StateOf(r, name), name, attempt, r.backoff, OutcomesOf(r.log, name));
  }

  lemma RefreshKeepsDelays(r: R.Snapshot, name: Text, attempt: R.Attempt)
    requires R.StatesAreOpen(r) && Follows(R.StateOf(r, name), OutcomesOf(r.log, name)) && DelaysFollow(r.log, r.backoff)
    ensures DelaysFollow(R.AfterRefresh(r, name, attempt).log, r.backoff)
  {
    AttemptFollows(R.StateOf(r, name), name, attempt, r.backoff, OutcomesOf(r.log, name));
    DelaysFollowAppend(r.log, R.Recorded(R.StateOf(r, name), name, attempt, r.backoff), r.backoff);
  }

  lemma RefreshKeepsTrace(r: R.Snapshot, name: Text, attempt: R.Attempt)
    requires TraceInv(r)
    ensures TraceInv(R.AfterRefresh(r, name, attempt))
  {
    var r' := R.AfterRefresh(r, name, attempt);
    assert Follows(R.StateOf(r, name), OutcomesOf(r.log, name));
    R.AttemptKeepsChannels(R.StateOf(r, name), attempt, r.backoff);
    RefreshKeepsDelays(r, name, attempt);
    forall n
      ensures Follows(R.StateOf(r', n), OutcomesOf(r'.log, n))
    {
      assert Follows(R.StateOf(r, n), OutcomesOf(r.log, n));
      RefreshKeepsRecords(r, name, attempt, n);
    }
  }

  lemma UpdateKeepsTrace(r: R.Snapshot, config: Settings)
    requires TraceInv(r)
    ensures TraceInv(R.Updated(r, config))
  {
    var r' := R.Updated(r, config);
    var e := R.Reconfigured(R.NamesOf(config.servers));
    DelaysFollowAppend(r.log, e, r.backoff);
    forall n
      ensures Follows(R.StateOf(r', n), OutcomesOf(r'.log, n))
    {
      assert Follows(R.StateOf(r, n), OutcomesOf(r.log, n));
      OutcomesOfAppend(r.log, e, n);
    }
  }

  lemma {:induction false} AllKeepTrace(r: R.Snapshot, servers: seq<MCPServer>, upstream: R.Upstream)
    requires TraceInv(r)
    ensures TraceInv(R.AfterAll(r, servers, upstream)) && R.AfterAll(r, servers, upstream).backoff == r.backoff
    decreases |servers|
  {
    if servers != [] {
      var name := servers[0].name;
      RefreshKeepsTrace(r, name, upstream(name));
      AllKeepTrace(R.AfterRefresh(r, name, upstream(name)), servers[1..], upstream);
    }
  }

  lemma {:induction false} TickKeepsTrace(r: R.Snapshot, servers: seq<MCPServer>, now: R.Instant, upstream: R.Upstream)
    requires TraceInv(r)
    ensures TraceInv(R.AfterTick(r, servers, now, upstream)) && R.AfterTick(r, servers, now, upstream).backoff == r.backoff
    decreases |servers|
  {
    if servers != [] {
      var name := servers[0].name;
      RefreshKeepsTrace(r, name, upstream(name));
      TickKeepsTrace(if SkipsTick(R.StateOf(r, name), now) then r else R.AfterRefresh(r, name, upstream(name)),
                     servers[1..], now, upstream);
    }
  }

  lemma StepKeepsTrace(r: R.Snapshot, step: R.Step)
    requires TraceInv(r)
    ensures TraceInv(R.Next(r, step)) && R.Next(r, step).backoff == r.backoff
  {
    match step
    case Update(config) => UpdateKeepsTrace(r, config);
    case Refresh(upstream) => AllKeepTrace(r, r.config.servers, upstream);
    case Tick(now, upstream) => TickKeepsTrace(r, r.config.servers, now, upstream);
    case RefreshOne(key, attempt) =>
      var server := ServerFor(r.config.servers, key);
      if server.Some? {
        RefreshKeepsTrace(r, server.value.name, attempt);
      }
    case RetryFires(name, _, attempt) =>
      var fired := r.(waiting := r.waiting - {name});
      var server := ServerFor(r.config.servers, name);
      assert TraceInv(fired);
      if server.Some? {
        RefreshKeepsTrace(fired, server.value.name, attempt);
      }
  }

  lemma StartKeepsTrace(config: Settings, backoff: seq<int>)
    ensures TraceInv(R.Start(config, backoff))
  {
  }

  /**
    Over every run of updates, refreshes, ticks and retries: the status and the
    failure count of every record follow from the outcomes of its server, and
    each scheduled delay is the backoff delay for the failures before it.
   */
  lemma {:induction false} EveryRunKeepsTrace(r: R.Snapshot, steps: seq<R.Step>, env: Environment)
    requires R.Inv(r, env) && R.IsRun(r, steps, env) && TraceInv(r)
    ensures TraceInv(R.Run(r, steps, env)) && R.Run(r, steps, env).backoff == r.backoff
    decreases |steps|
  {
    if steps != [] {
      R.RunHead(r, steps, env);
      StepKeepsTrace(r, steps[0]);
      EveryRunKeepsTrace(R.Next(r, steps[0]), steps[1..], env);
    }
  }

  // ------------------------------------------------------------ backoff over runs

  /** The entry ends a run of failures of the server: a success, or the loss of its record. */
  predicate Resets(e: R.Entry, n: Text) {
    match e
    case Tried(name, answer, _, _) => name == n && answer.Tools?
    case Reconfigured(kept) => n !in kept
  }

  ghost predicate SameFailureRun(log: seq<R.Entry>, i: nat, j: nat, n: Text) {
    i < j <= |log| && forall k :: i < k < j ==> !Resets(log[k], n)
  }

  /** Within one run of failures the count only grows. */
  lemma {:induction false} FailuresGrow(log: seq<R.Entry>, i: nat, j: nat, n: Text)
    requires SameFailureRun(log, i, j, n)
    requires log[i].Tried? && log[i].name == n && log[i].answer.Unavailable?
    ensures TrailingFailures(OutcomesOf(log[..i], n)) < TrailingFailures(OutcomesOf(log[..j], n))
    decreases j
  {
    var e, before := log[j - 1], OutcomesOf(log[..j - 1], n);
    assert log[..j] == log[..j - 1] + [e];
    OutcomesOfAppend(log[..j - 1], e, n);
    if e.Tried? && e.name == n {
      assert (before + [R.AsOutcome(e.answer)])[..|before|] == before;
    }
    if i < j - 1 {
      FailuresGrow(log, i, j - 1, n);
    }
  }

  /** Two retries that attempts of one server scheduled, with no success between them. */
  ghost predicate AreRetries(log: seq<R.Entry>, i: nat, j: nat, n: Text) {
    && SameFailureRun(log, i, j, n) && j < |log|
    && log[i].Tried? && log[i].name == n && log[i].delay.Some?
    && log[j].Tried? && log[j].name == n && log[j].delay.Some?
  }

  lemma DelaysGrowInLog(log: seq<R.Entry>, backoff: seq<int>, i: nat, j: nat, n: Text)
    requires DelaysFollow(log, backoff) && Nondecreasing(backoff) && AreRetries(log, i, j, n)
    ensures backoff != [] && 0 < log[i].delay.value <= log[j].delay.value <= backoff[|backoff| - 1]
  {
    assert DelayFollows(log[..i], log[i], backoff) && DelayFollows(log[..j], log[j], backoff);
    FailuresGrow(log, i, j, n);
    BackoffGrowsToItsCap(backoff, TrailingFailures(OutcomesOf(log[..i], n)), TrailingFailures(OutcomesOf(log[..j], n)));
  }

  /**
    In every run from a new registry, through whatever interleaving of refreshes,
    ticks, retries and updates: between two successes of a server the retries
    scheduled for it never come closer, and wait no longer than the last entry.
   */
  lemma DelaysGrowOverEveryRun(config: Settings, backoff: seq<int>, steps: seq<R.Step>, i: nat, j: nat, n: Text,
                               env: Environment)
    requires WellFormed(config, env) && R.IsRun(R.Start(config, backoff), steps, env)
    requires Nondecreasing(backoff) && AreRetries(R.Run(R.Start(config, backoff), steps, env).log, i, j, n)
    ensures
      var log := R.Run(R.Start(config, backoff), steps, env).log;
      backoff != [] && 0 < log[i].delay.value <= log[j].delay.value <= backoff[|backoff| - 1]
  {
    var start := R.Start(config, backoff);
    StartKeepsTrace(config, backoff);
    EveryRunKeepsTrace(start, steps, env);
    DelaysGrowInLog(R.Run(start, steps, env).log, backoff, i, j, n);
  }

  predicate IsFailureOf(e: R.Entry, n: Text) {
    e.Tried? && e.name == n && e.answer.Unavailable?
  }

  /** The failures of the server before entry `i`, with nothing that ends a run of failures in between. */
  ghost function EarlierFailures(log: seq<R.Entry>, i: nat, n: Text): set<nat>
    requires i <= |log|
  {
    set j: nat | j < i && IsFailureOf(log[j], n) && SameFailureRun(log, j, i, n)
  }

  lemma OneMoreEntry(log: seq<R.Entry>, i: nat, n: Text)
    requires i < |log|
    ensures EarlierFailures(log, i + 1, n) ==
              if Resets(log[i], n) then {}
              else EarlierFailures(log, i, n) + (if IsFailureOf(log[i], n) then {i} else {})
  {
    forall j: nat | j < i
      ensures SameFailureRun(log, j, i + 1, n) <==> SameFailureRun(log, j, i, n) && !Resets(log[i], n)
    {
    }
    assert SameFailureRun(log, i, i + 1, n);
  }

  /** The failure count of a record is the number of those failures. */
  lemma {:induction false} CountedFailures(log: seq<R.Entry>, i: nat, n: Text)
    requires i <= |log|
    ensures |EarlierFailures(log, i, n)| == TrailingFailures(OutcomesOf(log[..i], n))
    decreases i
  {
    if i == 0 {
      assert EarlierFailures(log, 0, n) == {} && log[..0] == [];
    } else {
      var e, before := log[i - 1], OutcomesOf(log[..i - 1], n);
      CountedFailures(log, i - 1, n);
      OneMoreEntry(log, i - 1, n);
      assert log[..i] == log[..i - 1] + [e];
      OutcomesOfAppend(log[..i - 1], e, n);
      if e.Tried? && e.name == n {
        assert (before + [R.AsOutcome(e.answer)])[..|before|] == before;
      }
    }
  }

  /** The entry of the schedule for that many earlier failures; the last one serves for all the rest. */
  function EntryFor(schedule: seq<int>, failures: nat): int {
    if |schedule| == 0 then 0 else schedule[if failures < |schedule| then failures else |schedule| - 1]
  }

  /** The attempt schedules its entry if it failed, though not for want of a login, and the entry is positive. */
  ghost predicate WaitsItsEntry(log: seq<R.Entry>, i: nat, backoff: seq<int>)
    requires i < |log| && log[i].Tried?
  {
    var entry := EntryFor(backoff, |EarlierFailures(log, i, log[i].name)|);
    var waits := log[i].answer.Unavailable? && !log[i].answer.authRequired && entry > 0;
    log[i].delay == if waits then Some(entry) else None
  }

  lemma FollowingDelayIsTheEntry(log: seq<R.Entry>, i: nat, backoff: seq<int>)
    requires i < |log| && log[i].Tried? && DelayFollows(log[..i], log[i], backoff)
    ensures WaitsItsEntry(log, i, backoff)
  {
    CountedFailures(log, i, log[i].name);
  }

  /**
    What every attempt of every run waits: a failure that needs no login waits the
    entry of the schedule for the failures before it, if that is positive, and
    nothing else is retried by itself.
   */
  lemma FailuresWaitTheirEntry(config: Settings, backoff: seq<int>, steps: seq<R.Step>, log: seq<R.Entry>, i: nat,
                               env: Environment)
    requires WellFormed(config, env) && R.IsRun(R.Start(config, backoff), steps, env)
    requires log == R.Run(R.Start(config, backoff), steps, env).log && i < |log| && log[i].Tried?
    ensures WaitsItsEntry(log, i, backoff)
  {
    StartKeepsTrace(config, backoff);
    EveryRunKeepsTrace(R.Start(config, backoff), steps, env);
    assert DelayFollows(log[..i], log[i], backoff);
    FollowingDelayIsTheEntry(log, i, backoff);
  }

  /** So the first failure after a success, or of a new record, waits the first entry. */
  lemma FirstFailureWaitsTheFirstEntry(config: Settings, backoff: seq<int>, steps: seq<R.Step>, log: seq<R.Entry>, i: nat,
                                       env: Environment)
    requires WellFormed(config, env) && R.IsRun(R.Start(config, backoff), steps, env) && backoff != [] && backoff[0] > 0
    requires log == R.Run(R.Start(config, backoff), steps, env).log
    requires i < |log| && log[i].Tried? && log[i].answer.Unavailable? && !log[i].answer.authRequired
    requires forall j :: 0 <= j < i && IsFailureOf(log[j], log[i].name) ==>
               exists k :: j < k < i && Resets(log[k], log[i].name)
    ensures log[i].delay == Some(backoff[0])
  {
    FailuresWaitTheirEntry(config, backoff, steps, log, i, env);
    assert EarlierFailures(log, i, log[i].name) == {};
  }

  /** The status that a run leaves is told by the outcomes since the record was made. */
  lemma StatusFollowsTheRun(config: Settings, backoff: seq<int>, steps: seq<R.Step>, n: Text, env: Environment)
    requires WellFormed(config, env) && R.IsRun(R.Start(config, backoff), steps, env)
    ensures
      var r := R.Run(R.Start(config, backoff), steps, env);
      n in r.states ==> r.states[n].status == StatusOf(OutcomesOf(r.log, n))
                        && r.states[n].attemptCount == TrailingFailures(OutcomesOf(r.log, n))
  {
    var start := R.Start(config, backoff);
    StartKeepsTrace(config, backoff);
    EveryRunKeepsTrace(start, steps, env);
    var r := R.Run(start, steps, env);
    assert Follows(R.StateOf(r, n), OutcomesOf(r.log, n));
  }

  // --------------------------------------------------------- deadlines over runs

  /** The deadline that the last failure of the server set, unless a success or an update has lifted it. */
  function DeadlineOf(log: seq<R.Entry>, n: Text): Option<int> {
    if log == [] then None else Moved(DeadlineOf(log[..|log| - 1], n), log[|log| - 1], n)
  }

  function Moved(before: Option<int>, e: R.Entry, n: Text): Option<int> {
    match e
    case Tried(name, answer, at, delay) =>
      if name != n then before
      else if answer.Tools? then None
      else if delay.Some? then Some(at + delay.value)
      else before
    case Reconfigured(kept) => if n in kept then before else None
  }

  /** The retry that a record waits for, by its deadline. */
  function PendingOf(h: Health): Option<int> {
    if h.retryCancel.Some? then Some(h.pendingRetryAt) else None
  }

  ghost predicate DeadlineInv(r: R.Snapshot) {
    R.StatesAreOpen(r) && forall n :: PendingOf(R.StateOf(r, n)) == DeadlineOf(r.log, n)
  }

  lemma DeadlineOfAppend(log: seq<R.Entry>, e: R.Entry, n: Text)
    ensures DeadlineOf(log + [e], n) == Moved(DeadlineOf(log, n), e, n)
  {
    assert (log + [e])[..|log|] == log;
  }

  lemma AttemptMovesDeadline(h: Health, name: Text, attempt: R.Attempt, backoff: seq<int>)
    requires ChannelInv(h)
    ensures PendingOf(R.AfterAttempt(h, attempt, backoff)) == Moved(PendingOf(h), R.Recorded(h, name, attempt, backoff), name)
  {
    R.AttemptDecides(h, attempt, backoff);
  }

  lemma RefreshKeepsDeadlines(r: R.Snapshot, name: Text, attempt: R.Attempt)
    requires DeadlineInv(r)
    ensures DeadlineInv(R.AfterRefresh(r, name, attempt))
  {
    var h, r' := R.StateOf(r, name), R.AfterRefresh(r, name, attempt);
    var e := R.Recorded(h, name, attempt, r.backoff);
    R.AttemptKeepsChannels(h, attempt, r.backoff);
    AttemptMovesDeadline(h, name, attempt, r.backoff);
    forall n
      ensures PendingOf(R.StateOf(r', n)) == DeadlineOf(r'.log, n)
    {
      assert PendingOf(R.StateOf(r, n)) == DeadlineOf(r.log, n);
      DeadlineOfAppend(r.log, e, n);
    }
  }

  lemma UpdateKeepsDeadlines(r: R.Snapshot, config: Settings)
    requires DeadlineInv(r)
    ensures DeadlineInv(R.Updated(r, config))
  {
    var r' := R.Updated(r, config);
    var e := R.Reconfigured(R.NamesOf(config.servers));
    forall n
      ensures PendingOf(R.StateOf(r', n)) == DeadlineOf(r'.log, n)
    {
      assert PendingOf(R.StateOf(r, n)) == DeadlineOf(r.log, n);
      DeadlineOfAppend(r.log, e, n);
    }
  }

  lemma {:induction false} AllKeepDeadlines(r: R.Snapshot, servers: seq<MCPServer>, upstream: R.Upstream)
    requires DeadlineInv(r)
    ensures DeadlineInv(R.AfterAll(r, servers, upstream))
    decreases |servers|
  {
    if servers != [] {
      var name := servers[0].name;
      RefreshKeepsDeadlines(r, name, upstream(name));
      AllKeepDeadlines(R.AfterRefresh(r, name, upstream(name)), servers[1..], upstream);
    }
  }

  lemma {:induction false} TickKeepsDeadlines(r: R.Snapshot, servers: seq<MCPServer>, now: R.Instant, upstream: R.Upstream)
    requires DeadlineInv(r)
    ensures DeadlineInv(R.AfterTick(r, servers, now, upstream))
    decreases |servers|
  {
    if servers != [] {
      var name := servers[0].name;
      RefreshKeepsDeadlines(r, name, upstream(name));
      TickKeepsDeadlines(if SkipsTick(R.StateOf(r, name), now) then r else R.AfterRefresh(r, name, upstream(name)),
                         servers[1..], now, upstream);
    }
  }

  lemma StepKeepsDeadlines(r: R.Snapshot, step: R.Step)
    requires DeadlineInv(r)
    ensures DeadlineInv(R.Next(r, step))
  {
    match step
    case Update(config) => UpdateKeepsDeadlines(r, config);
    case Refresh(upstream) => AllKeepDeadlines(r, r.config.servers, upstream);
    case Tick(now, upstream) => TickKeepsDeadlines(r, r.config.servers, now, upstream);
    case RefreshOne(key, attempt) =>
      var server := ServerFor(r.config.servers, key);
      if server.Some? {
        RefreshKeepsDeadlines(r, server.value.name, attempt);
      }
    case RetryFires(name, _, attempt) =>
      var fired := r.(waiting := r.waiting - {name});
      var server := ServerFor(r.config.servers, name);
      assert DeadlineInv(fired);
      if server.Some? {
        RefreshKeepsDeadlines(fired, server.value.name, attempt);
      }
  }

  lemma {:induction false} EveryRunKeepsDeadlines(r: R.Snapshot, steps: seq<R.Step>, env: Environment)
    requires R.Inv(r, env) && R.IsRun(r, steps, env) && DeadlineInv(r)
    ensures DeadlineInv(R.Run(r, steps, env))
    decreases |steps|
  {
    if steps != [] {
      R.RunHead(r, steps, env);
      StepKeepsDeadlines(r, steps[0]);
      EveryRunKeepsDeadlines(R.Next(r, steps[0]), steps[1..], env);
    }
  }

  lemma EarlyStepLeavesAlone(r: R.Snapshot, step: R.Step, n: Text, env: Environment)
    requires R.Inv(r, env) && R.Enabled(r, step, env) && R.IsTimed(step)
    requires PendingOf(R.StateOf(r, n)).Some? && R.InstantOf(step) < PendingOf(R.StateOf(r, n)).value
    ensures R.LeavesAlone(r, R.Next(r, step), n)
  {
    R.PassingStepLeavesAlone(r, step, n, env);
  }

  lemma RunLeavesDeadline(config: Settings, backoff: seq<int>, steps: seq<R.Step>, n: Text, env: Environment)
    requires WellFormed(config, env) && R.IsRun(R.Start(config, backoff), steps, env)
    ensures
      var r := R.Run(R.Start(config, backoff), steps, env);
      R.Inv(r, env) && PendingOf(R.StateOf(r, n)) == DeadlineOf(r.log, n)
  {
    R.EveryRunKeepsInv(R.Start(config, backoff), steps, env);
    EveryRunKeepsDeadlines(R.Start(config, backoff), steps, env);
  }

  /**
    What backing off is for: after every run, no tick and no retry attempts a
    server before the deadline that its last failure set.
   */
  lemma TimedStepsWaitForTheDeadline(config: Settings, backoff: seq<int>, steps: seq<R.Step>, r: R.Snapshot,
                                     step: R.Step, n: Text, env: Environment)
    requires WellFormed(config, env) && R.IsRun(R.Start(config, backoff), steps, env)
    requires r == R.Run(R.Start(config, backoff), steps, env)
    requires R.Enabled(r, step, env) && R.IsTimed(step)
    requires DeadlineOf(r.log, n).Some? && R.InstantOf(step) < DeadlineOf(r.log, n).value
    ensures R.StatesAreOpen(r) && R.LeavesAlone(r, R.Next(r, step), n)
  {
    RunLeavesDeadline(config, backoff, steps, n, env);
    EarlyStepLeavesAlone(r, step, n, env);
  }
}
