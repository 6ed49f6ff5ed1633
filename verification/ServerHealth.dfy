/**
  The health record of one upstream server: its status, its failure count, and
  the retry that may be pending for it.

  `Health` and `Apply` say what each operation does; the class is the mutable
  object, with real channels, and is proved to do the same. Time is an integer;
  0 is Go's zero time.
 */
module ServerHealth {
  import opened GoText

  datatype Status = Unknown | Healthy | Degraded | Failed | AuthRequired

  /** Channels are numbered in the order in which they are handed out. */
  datatype Health = Health(
    status: Status,
    lastError: Text,
    lastSuccessAt: int,
    lastAttemptAt: int,
    attemptCount: nat,
    retryCancel: Option<nat>,
    pendingRetryAt: int,
    closings: seq<nat>)  // history: how often each channel was closed

  const NEW := Health(Unknown, "", 0, 0, 0, None, 0, [])

  datatype Operation =
    | RecordSuccess(now: int)
    | RecordFailure(error: Option<Text>, authRequired: bool, now: int)
    | ScheduleRetry(delay: int, now: int)
    | CancelRetry

  function Cancelled(h: Health): Health
    requires h.retryCancel.Some? ==> h.retryCancel.value < |h.closings|
  {
    match h.retryCancel
    case None => h
    case Some(c) => h.(closings := h.closings[c := h.closings[c] + 1], retryCancel := None, pendingRetryAt := 0)
  }

  function Apply(h: Health, op: Operation): Health
    requires h.retryCancel.Some? ==> h.retryCancel.value < |h.closings|
  {
    match op
    case RecordSuccess(now) =>
      Cancelled(h.(status := Healthy, lastError := "", lastSuccessAt := now, lastAttemptAt := now, attemptCount := 0))
    case RecordFailure(error, authRequired, now) =>
      h.(status := if authRequired then AuthRequired else if h.attemptCount == 0 then Degraded else Failed,
         lastError := if error.Some? then error.value else h.lastError,
         lastAttemptAt := now,
         attemptCount := h.attemptCount + 1)
    case ScheduleRetry(delay, now) =>
      var h' := Cancelled(h);
      h'.(retryCancel := Some(|h'.closings|), pendingRetryAt := now + delay, closings := h'.closings + [0])
    case CancelRetry => Cancelled(h)
  }

  /** The clock has left Go's zero time behind. */
  predicate IsTimely(op: Operation) {
    op.ScheduleRetry? ==> op.now + op.delay != 0
  }

  // -------------------------------------------------------------------- channels

  /** Every channel ever handed out is closed exactly once, except the pending one, which is open. */
  ghost predicate ChannelInv(h: Health) {
    && (h.retryCancel.Some? ==> h.retryCancel.value < |h.closings|)
    && (forall c :: 0 <= c < |h.closings| ==> h.closings[c] == if h.retryCancel == Some(c) then 0 else 1)
    && (h.retryCancel.None? <==> h.pendingRetryAt == 0)
  }

  lemma OperationKeepsChannels(h: Health, op: Operation)
    requires ChannelInv(h) && IsTimely(op)
    ensures ChannelInv(Apply(h, op))
  {
  }

  ghost predicate IsTimelyRun(ops: seq<Operation>) {
    forall i :: 0 <= i < |ops| ==> IsTimely(ops[i])
  }

  /** The record after the operations, in the order in which they got the mutex. */
  ghost function Run(ops: seq<Operation>): (h: Health)
    requires IsTimelyRun(ops)
    ensures ChannelInv(h)
  {
    if ops == [] then NEW
    else
      OperationKeepsChannels(Run(ops[..|ops| - 1]), ops[|ops| - 1]);
      Apply(Run(ops[..|ops| - 1]), ops[|ops| - 1])
  }

  /** No interleaving closes a channel twice or leaves a replaced one open. */
  lemma NoChannelIsClosedTwice(ops: seq<Operation>, c: nat)
    requires IsTimelyRun(ops) && c < |Run(ops).closings|
    ensures Run(ops).closings[c] <= 1
    ensures Run(ops).closings[c] == 0 <==> Run(ops).retryCancel == Some(c)
    ensures Run(ops).retryCancel.None? <==> Run(ops).pendingRetryAt == 0
  {
  }

  // ---------------------------------------------------- status follows the outcomes

  datatype Outcome = Success | Failure(authRequired: bool)

  function OutcomeOf(op: Operation): seq<Outcome> {
    match op
    case RecordSuccess(_) => [Success]
    case RecordFailure(_, auth, _) => [Failure(auth)]
    case _ => []
  }

  /** The outcomes among the operations. */
  function Outcomes(ops: seq<Operation>): seq<Outcome> {
    if ops == [] then [] else Outcomes(ops[..|ops| - 1]) + OutcomeOf(ops[|ops| - 1])
  }

  /** The number of failures since the last success. */
  function TrailingFailures(outcomes: seq<Outcome>): nat {
    if outcomes == [] || outcomes[|outcomes| - 1].Success? then 0
    else 1 + TrailingFailures(outcomes[..|outcomes| - 1])
  }

  function StatusOf(outcomes: seq<Outcome>): Status {
    if outcomes == [] then Unknown
    else
      match outcomes[|outcomes| - 1]
      case Success => Healthy
      case Failure(true) => AuthRequired
      case Failure(false) => if TrailingFailures(outcomes) == 1 then Degraded else Failed
  }

  lemma OutcomeDecides(h: Health, op: Operation, outcomes: seq<Outcome>)
    requires ChannelInv(h) && h.status == StatusOf(outcomes) && h.attemptCount == TrailingFailures(outcomes)
    ensures Apply(h, op).status == StatusOf(outcomes + OutcomeOf(op))
    ensures Apply(h, op).attemptCount == TrailingFailures(outcomes + OutcomeOf(op))
  {
    var after := outcomes + OutcomeOf(op);
    if OutcomeOf(op) == [] {
      assert after == outcomes;
    } else {
      assert after[..|after| - 1] == outcomes;
    }
  }

  /** Retries that are scheduled or cancelled in between make no difference. */
  lemma {:induction false} StatusFollowsOutcomes(ops: seq<Operation>)
    requires IsTimelyRun(ops)
    ensures Run(ops).status == StatusOf(Outcomes(ops))
    ensures Run(ops).attemptCount == TrailingFailures(Outcomes(ops))
  {
    if ops != [] {
      var before := ops[..|ops| - 1];
      StatusFollowsOutcomes(before);
      OutcomeDecides(Run(before), ops[|ops| - 1], Outcomes(before));
    }
  }

  // ------------------------------------------------------ times and the last error

  predicate IsAttempt(op: Operation) {
    op.RecordSuccess? || op.RecordFailure?
  }

  lemma RunTail(ops: seq<Operation>)
    requires IsTimelyRun(ops) && ops != []
    ensures Run(ops) == Apply(Run(ops[..|ops| - 1]), ops[|ops| - 1])
  {
  }

  /** The record shows when the last attempt was made, and its error, or none after a success. */
  lemma {:induction false} LastAttemptIsShown(ops: seq<Operation>, i: nat)
    requires IsTimelyRun(ops) && i < |ops| && IsAttempt(ops[i])
    requires forall j :: i < j < |ops| ==> !IsAttempt(ops[j])
    ensures Run(ops).lastAttemptAt == ops[i].now
    ensures ops[i].RecordSuccess? ==> Run(ops).lastError == ""
    ensures ops[i].RecordFailure? && ops[i].error.Some? ==> Run(ops).lastError == ops[i].error.value
    decreases |ops|
  {
    RunTail(ops);
    if i < |ops| - 1 {
      LastAttemptIsShown(ops[..|ops| - 1], i);
    }
  }

  /** It shows when the last success was, whatever failed since. */
  lemma {:induction false} LastSuccessIsShown(ops: seq<Operation>, i: nat)
    requires IsTimelyRun(ops) && i < |ops| && ops[i].RecordSuccess?
    requires forall j :: i < j < |ops| ==> !ops[j].RecordSuccess?
    ensures Run(ops).lastSuccessAt == ops[i].now
    decreases |ops|
  {
    RunTail(ops);
    if i < |ops| - 1 {
      LastSuccessIsShown(ops[..|ops| - 1], i);
    }
  }

  // --------------------------------------------------------------------- backoff

  /** backoffDelay. */
  function BackoffDelay(schedule: seq<int>, attempt: int): int {
    if |schedule| == 0 then 0
    else if attempt < 0 then schedule[0]
    else if attempt >= |schedule| then schedule[|schedule| - 1]
    else schedule[attempt]
  }

  const DEFAULT_BACKOFF: seq<int> := [5, 15, 30, 60, 120, 300]

  ghost predicate Nondecreasing(s: seq<int>) {
    forall i, j :: 0 <= i < j < |s| ==> s[i] <= s[j]
  }

  /** One after the other, the delays are the schedule itself, and then its last entry for ever. */
  lemma DelaysAreTheSchedule(schedule: seq<int>, n: nat)
    requires schedule != []
    ensures
      var delays := seq(n, i => BackoffDelay(schedule, i));
      if n <= |schedule| then delays == schedule[..n]
      else delays == schedule + seq(n - |schedule|, i => schedule[|schedule| - 1])
  {
  }

  lemma BackoffGrowsToItsCap(schedule: seq<int>, earlier: int, later: int)
    requires Nondecreasing(schedule) && schedule != [] && earlier <= later
    ensures schedule[0] <= BackoffDelay(schedule, earlier) <= BackoffDelay(schedule, later) <= schedule[|schedule| - 1]
    ensures earlier < 0 ==> BackoffDelay(schedule, earlier) == schedule[0]
    ensures 0 <= earlier < |schedule| ==> BackoffDelay(schedule, earlier) == schedule[earlier]
    ensures later >= |schedule| ==> BackoffDelay(schedule, later) == schedule[|schedule| - 1]
  {
  }

  /** The delays for which retries are scheduled while `failures` happen one after the other. */
  function ScheduledDelays(attemptCount: nat, failures: seq<bool>, schedule: seq<int>): seq<int>
    decreases |failures|
  {
    if failures == [] then []
    else
      var delay := BackoffDelay(schedule, attemptCount);
      (if !failures[0] && delay > 0 then [delay] else []) + ScheduledDelays(attemptCount + 1, failures[1..], schedule)
  }

  /** The delays are positive, never shrink, and stay between the two bounds. */
  ghost predicate GrowWithin(delays: seq<int>, low: int, high: int) {
    Nondecreasing(delays) && forall i :: 0 <= i < |delays| ==> 0 < delays[i] && low <= delays[i] <= high
  }

  lemma GrowFrom(first: int, rest: seq<int>, low: int, high: int)
    requires GrowWithin(rest, low, high) && first <= low && first <= high
    ensures GrowWithin(rest, first, high)
    ensures first > 0 ==> GrowWithin([first] + rest, first, high)
  {
  }

  /** Within one run of failures, of which some may be authorization failures, delays never shrink. */
  lemma {:induction false} DelaysGrowWithinAFailureRun(attemptCount: nat, failures: seq<bool>, schedule: seq<int>)
    requires Nondecreasing(schedule)
    ensures
      var delays := ScheduledDelays(attemptCount, failures, schedule);
      if schedule == [] then delays == []
      else GrowWithin(delays, BackoffDelay(schedule, attemptCount), schedule[|schedule| - 1])
    decreases |failures|
  {
    if schedule == [] {
      NoScheduleNoDelays(attemptCount, failures, schedule);
    } else if failures != [] {
      var delay, next := BackoffDelay(schedule, attemptCount), BackoffDelay(schedule, attemptCount + 1);
      var rest := ScheduledDelays(attemptCount + 1, failures[1..], schedule);
      DelaysGrowWithinAFailureRun(attemptCount + 1, failures[1..], schedule);
      BackoffGrowsToItsCap(schedule, attemptCount, attemptCount + 1);
      GrowFrom(delay, rest, next, schedule[|schedule| - 1]);
      assert [] + rest == rest;
    }
  }

  lemma {:induction false} NoScheduleNoDelays(attemptCount: nat, failures: seq<bool>, schedule: seq<int>)
    requires schedule == []
    ensures ScheduledDelays(attemptCount, failures, schedule) == []
    decreases |failures|
  {
    if failures != [] {
      NoScheduleNoDelays(attemptCount + 1, failures[1..], schedule);
    }
  }

  lemma DefaultBackoffIsNondecreasing()
    ensures Nondecreasing(DEFAULT_BACKOFF) && BackoffDelay(DEFAULT_BACKOFF, 0) == 5 && BackoffDelay(DEFAULT_BACKOFF, 5) == 300
  {
  }

  // --------------------------------------------------------------- the mutable object

  /** A cancel channel; closing a closed channel would panic. */
  class Channel {
    var closed: bool

    constructor ()
      ensures !closed
    {
      closed := false;
    }

    method Close()
      requires !closed
      modifies this
      ensures closed
    {
      closed := true;
    }
  }

  class ServerState {
    var status: Status
    var lastError: Text
    var lastSuccessAt: int
    var lastAttemptAt: int
    var attemptCount: nat
    var retryCancel: Channel?
    var pendingRetryAt: int
    ghost var handed: seq<Channel>

    ghost predicate Valid()
      reads this, handed
    {
      && (forall i, j :: 0 <= i < j < |handed| ==> handed[i] != handed[j])
      && (retryCancel != null ==> handed != [] && handed[|handed| - 1] == retryCancel)
      && (forall i :: 0 <= i < |handed| ==> (handed[i].closed <==> handed[i] != retryCancel))
      && (retryCancel == null <==> pendingRetryAt == 0)
    }

    ghost function View(): Health
      requires Valid()
      reads this, handed
    {
      Health(status, lastError, lastSuccessAt, lastAttemptAt, attemptCount,
             if retryCancel == null then None else Some(|handed| - 1), pendingRetryAt,
             seq(|handed|, i requires 0 <= i < |handed| reads this, handed => if handed[i].closed then 1 else 0))
    }

    ghost function Pending(): set<Channel>
      reads this
    {
      if retryCancel == null then {} else {retryCancel}
    }

    constructor ()
      ensures Valid() && View() == NEW
    {
      status, lastError, lastSuccessAt, lastAttemptAt, attemptCount := Unknown, "", 0, 0, 0;
      retryCancel, pendingRetryAt, handed := null, 0, [];
    }

    method RecordSuccess(now: int)
      requires Valid()
      modifies this, Pending()
      ensures Valid() && handed == old(handed)
      ensures View() == Apply(old(View()), Operation.RecordSuccess(now))
    {
      status := Healthy;
      lastError := "";
      lastSuccessAt := now;
      lastAttemptAt := lastSuccessAt;
      attemptCount := 0;
      CancelRetryLocked();
    }

    /** Returns the backoff index for the retry. */
    method RecordFailure(error: Option<Text>, authRequired: bool, now: int) returns (index: nat)
      requires Valid()
      modifies this
      ensures Valid() && handed == old(handed)
      ensures View() == Apply(old(View()), Operation.RecordFailure(error, authRequired, now))
      ensures index == old(attemptCount)
    {
      if authRequired {
        status := AuthRequired;
      } else if attemptCount == 0 {
        status := Degraded;
      } else {
        status := Failed;
      }
      if error.Some? {
        lastError := error.value;
      }
      lastAttemptAt := now;
      attemptCount := attemptCount + 1;
      index := attemptCount - 1;
    }

    method ScheduleRetry(delay: int, now: int) returns (ch: Channel)
      requires Valid() && now + delay != 0
      modifies this, Pending()
      ensures Valid() && fresh(ch) && !ch.closed && handed == old(handed) + [ch] && retryCancel == ch
      ensures View() == Apply(old(View()), Operation.ScheduleRetry(delay, now))
    {
      CancelRetryLocked();
      ch := new Channel();
      retryCancel := ch;
      pendingRetryAt := now + delay;
      handed := handed + [ch];
    }

    /** Never closes a closed channel: Close requires an open one. */
    method CancelRetryLocked()
      requires Valid()
      modifies this`retryCancel, this`pendingRetryAt, Pending()
      ensures Valid()
      ensures View() == Apply(old(View()), Operation.CancelRetry)
    {
      if retryCancel != null {
        retryCancel.Close();
        retryCancel := null;
        pendingRetryAt := 0;
      }
    }

    method SkipPeriodic(now: int) returns (skip: bool)
      requires Valid()
      ensures skip <==> SkipsTick(View(), now)
    {
      if status == AuthRequired {
        return true;
      }
      return pendingRetryAt != 0 && pendingRetryAt > now;
    }
  }

  /** The background ticker leaves such a server alone. */
  predicate SkipsTick(h: Health, now: int) {
    h.status == AuthRequired || (h.retryCancel.Some? && h.pendingRetryAt > now)
  }
}
