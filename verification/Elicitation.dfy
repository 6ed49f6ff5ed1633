/**
  The mid-call elicitation protocol between the daemon and a CLI process: any
  number of daemon threads ask over one connection, guarded by one mutex, while
  the request handler may return and close the session at any time.

  The two streams are kept with everything ever written to them, and a count of
  how much of it the reader has taken.
 */
module Elicitation {
  import opened GoText
  import opened Answers

  type Question = Text

  datatype ToClient = Elicit(question: Question) | Final

  datatype ToDaemon = Request | Reply(answer: Answer)

  /** Where a thread is inside RequestElicitation. */
  datatype Phase =
    | Idle
    | Waiting                  // before s.mu.Lock()
    | Holding                  // locked, finished not yet looked at
    | Awaiting                 // envelope written, blocked in Decode
    | Answered(answer: Answer)
    | Refused                  // "session already finished"
    | Mismatched               // "expected elicitation_response"

  datatype Thread = Thread(question: Question, phase: Phase)

  /** Where handleConn is. */
  datatype Handler = Starting | Running | Closing | Marking | Marked | Done

  datatype Client = Start | Reading | Prompting(question: Question) | Closed

  datatype Lock = Free | HeldBy(thread: nat) | HeldByHandler

  /** One question put to the user, and the answer built from it. */
  datatype Prompt = Prompt(question: Question, answer: Answer)

  datatype State = State(
    threads: seq<Thread>,
    lock: Lock,
    finished: bool,
    handler: Handler,
    client: Client,
    toClient: seq<ToClient>,
    readByClient: nat,
    toDaemon: seq<ToDaemon>,
    readByDaemon: nat,
    askers: seq<nat>,       // history: the thread behind each envelope
    prompts: seq<Prompt>)   // history: what the user saw and answered

  datatype Event =
    | ClientRequests
    | HandlerStarts
    | Arrives(t: nat)
    | Locks(t: nat)
    | IsRefused(t: nat)
    | Sends(t: nat)
    | Receives(t: nat)
    | ClientReads
    | ClientAnswers(answer: Answer)
    | HandlerReturns
    | HandlerLocks
    | HandlerMarks
    | HandlerSends

  predicate InPhase(s: State, t: nat, phase: Phase) {
    t < |s.threads| && s.threads[t].phase == phase
  }

  ghost predicate Enabled(s: State, e: Event) {
    match e
    case ClientRequests => s.client.Start?
    case HandlerStarts => s.handler.Starting? && s.readByDaemon < |s.toDaemon|
    case Arrives(t) => InPhase(s, t, Idle) && !s.handler.Starting?
    case Locks(t) => InPhase(s, t, Waiting) && s.lock.Free?
    case IsRefused(t) => InPhase(s, t, Holding) && s.finished
    case Sends(t) => InPhase(s, t, Holding) && !s.finished
    case Receives(t) => InPhase(s, t, Awaiting) && s.readByDaemon < |s.toDaemon|
    case ClientReads => s.client.Reading? && s.readByClient < |s.toClient|
    case ClientAnswers(a) => s.client.Prompting? && IsPromptAnswer(a)
    case HandlerReturns => s.handler.Running?
    case HandlerLocks => s.handler.Closing? && s.lock.Free?
    case HandlerMarks => s.handler.Marking?
    case HandlerSends => s.handler.Marked?
  }

  function SetPhase(s: State, t: nat, phase: Phase): State
    requires t < |s.threads|
  {
    s.(threads := s.threads[t := s.threads[t].(phase := phase)])
  }

  ghost function Next(s: State, e: Event): State
    requires Enabled(s, e)
  {
    match e
    case ClientRequests => s.(client := Reading, toDaemon := s.toDaemon + [Request])
    case HandlerStarts => s.(handler := Running, readByDaemon := s.readByDaemon + 1)
    case Arrives(t) => SetPhase(s, t, Waiting)
    case Locks(t) => SetPhase(s, t, Holding).(lock := HeldBy(t))
    case IsRefused(t) => SetPhase(s, t, Refused).(lock := Free)
    case Sends(t) =>
      SetPhase(s, t, Awaiting).(toClient := s.toClient + [Elicit(s.threads[t].question)], askers := s.askers + [t])
    case Receives(t) =>
      var message := s.toDaemon[s.readByDaemon];
      SetPhase(s, t, if message.Reply? then Answered(message.answer) else Mismatched)
        .(lock := Free, readByDaemon := s.readByDaemon + 1)
    case ClientReads =>
      var message := s.toClient[s.readByClient];
      s.(client := if message.Elicit? then Prompting(message.question) else Closed, readByClient := s.readByClient + 1)
    case ClientAnswers(a) =>
      s.(client := Reading, toDaemon := s.toDaemon + [Reply(a)], prompts := s.prompts + [Prompt(s.client.question, a)])
    case HandlerReturns => s.(handler := Closing)
    case HandlerLocks => s.(handler := Marking, lock := HeldByHandler)
    case HandlerMarks => s.(handler := Marked, finished := true, lock := Free)
    case HandlerSends => s.(handler := Done, toClient := s.toClient + [Final])
  }

  predicate IsInitial(s: State) {
    && (forall t :: 0 <= t < |s.threads| ==> s.threads[t].phase == Idle)
    && s.lock.Free? && !s.finished && s.handler.Starting? && s.client.Start?
    && s.toClient == [] && s.readByClient == 0 && s.toDaemon == [] && s.readByDaemon == 0
    && s.askers == [] && s.prompts == []
  }

  // ------------------------------------------------------------- inductive invariant

  /** How many answers threads have taken. */
  function Taken(s: State): int {
    s.readByDaemon - (if s.handler.Starting? then 0 else 1)
  }

  /** The envelope of this thread is on its way and unanswered. */
  predicate IsOutstanding(s: State) {
    s.lock.HeldBy? && InPhase(s, s.lock.thread, Awaiting)
  }

  /** The mutex is held by whoever is inside a critical section. */
  ghost predicate MutexInv(s: State) {
    && (forall t :: 0 <= t < |s.threads| ==>
          ((s.threads[t].phase.Holding? || s.threads[t].phase.Awaiting?) <==> s.lock == HeldBy(t)))
    && (s.lock.HeldBy? ==> s.lock.thread < |s.threads|)
    && (s.handler.Marking? <==> s.lock.HeldByHandler?)
    && (s.finished <==> s.handler.Marked? || s.handler.Done?)
    && (s.finished ==> !IsOutstanding(s))
  }

  /** Everything the daemon wrote: one envelope per asker, and the final response last. */
  ghost predicate DownstreamInv(s: State) {
    && |s.toClient| == |s.askers| + (if s.handler.Done? then 1 else 0)
    && (s.handler.Done? ==> s.toClient[|s.askers|] == Final)
    && (forall i :: 0 <= i < |s.askers| ==>
          s.askers[i] < |s.threads| && s.toClient[i] == Elicit(s.threads[s.askers[i]].question))
    && s.readByClient <= |s.toClient|
  }

  /** Everything the CLI wrote: the request, then one reply per prompt. */
  ghost predicate UpstreamInv(s: State) {
    && |s.toDaemon| == |s.prompts| + (if s.client.Start? then 0 else 1)
    && (s.client.Start? ==> s.prompts == [])
    && (!s.client.Start? ==> s.toDaemon[0] == Request)
    && (forall i :: 0 <= i < |s.prompts| ==>
          s.toDaemon[i + 1] == Reply(s.prompts[i].answer) && IsPromptAnswer(s.prompts[i].answer))
    && s.readByDaemon <= |s.toDaemon|
    && (s.handler.Starting? ==> s.readByDaemon == 0)
    && (!s.handler.Starting? ==> s.readByDaemon >= 1)
  }

  /** The client answers envelopes in order, one at a time. */
  ghost predicate ClientInv(s: State) {
    && |s.prompts| <= |s.askers| <= |s.toClient|
    && (forall i :: 0 <= i < |s.prompts| ==> s.toClient[i] == Elicit(s.prompts[i].question))
    && match s.client
       case Start => s.readByClient == 0
       case Reading => s.readByClient == |s.prompts|
       case Prompting(q) =>
         s.readByClient == |s.prompts| + 1 <= |s.askers| <= |s.toClient| && s.toClient[|s.prompts|] == Elicit(q)
       case Closed => s.handler.Done? && |s.prompts| == |s.askers| && s.readByClient == |s.toClient|
  }

  /** The thread has taken the answer to one of the envelopes. */
  ghost predicate HasTaken(s: State, t: nat) {
    exists i :: 0 <= i < Taken(s) && i < |s.askers| && s.askers[i] == t
  }

  /** Answers are taken in the order of the envelopes, each by its own asker. */
  ghost predicate AskerInv(s: State) {
    && 0 <= Taken(s) <= |s.prompts|
    && |s.askers| == Taken(s) + (if IsOutstanding(s) then 1 else 0)
    && (IsOutstanding(s) ==> s.askers[Taken(s)] == s.lock.thread)
    && (forall i :: 0 <= i < Taken(s) ==>
          s.askers[i] < |s.threads| && s.threads[s.askers[i]].phase == Answered(s.prompts[i].answer))
    && (forall t :: 0 <= t < |s.threads| && s.threads[t].phase.Answered? ==> HasTaken(s, t))
    && (forall t :: 0 <= t < |s.threads| ==> !s.threads[t].phase.Mismatched?)
    && (s.handler.Starting? ==> forall t :: 0 <= t < |s.threads| ==> s.threads[t].phase.Idle?)
  }

  ghost predicate Inv(s: State) {
    MutexInv(s) && DownstreamInv(s) && UpstreamInv(s) && ClientInv(s) && AskerInv(s)
  }

  lemma InitialInv(s: State)
    requires IsInitial(s)
    ensures Inv(s)
  {
  }

  lemma ClientRequestsKeepsInv(s: State, e: Event)
    requires Inv(s) && Enabled(s, e) && e.ClientRequests?
    ensures Inv(Next(s, e))
  {
  }

  lemma HandlerStartsKeepsInv(s: State, e: Event)
    requires Inv(s) && Enabled(s, e) && e.HandlerStarts?
    ensures Inv(Next(s, e))
  {
  }

  lemma ArrivesKeepsInv(s: State, e: Event)
    requires Inv(s) && Enabled(s, e) && e.Arrives?
    ensures Inv(Next(s, e))
  {
    ArrivesKeepsAskers(s, e);
  }

  lemma ArrivesKeepsAskers(s: State, e: Event)
    requires Inv(s) && Enabled(s, e) && e.Arrives?
    ensures AskerInv(Next(s, e))
  {
    var s' := Next(s, e);
    forall t | 0 <= t < |s'.threads| && s'.threads[t].phase.Answered?
      ensures HasTaken(s', t)
    {
      assert HasTaken(s, t);
    }
  }

  lemma LocksKeepsInv(s: State, e: Event)
    requires Inv(s) && Enabled(s, e) && e.Locks?
    ensures Inv(Next(s, e))
  {
    LocksKeepsAskers(s, e);
  }

  lemma LocksKeepsAskers(s: State, e: Event)
    requires Inv(s) && Enabled(s, e) && e.Locks?
    ensures AskerInv(Next(s, e))
  {
    var s' := Next(s, e);
    forall t | 0 <= t < |s'.threads| && s'.threads[t].phase.Answered?
      ensures HasTaken(s', t)
    {
      assert HasTaken(s, t);
    }
  }

  lemma IsRefusedKeepsInv(s: State, e: Event)
    requires Inv(s) && Enabled(s, e) && e.IsRefused?
    ensures Inv(Next(s, e))
  {
  }

  lemma SendsKeepsInv(s: State, e: Event)
    requires Inv(s) && Enabled(s, e) && e.Sends?
    ensures Inv(Next(s, e))
  {
  }

  /** The next message is the reply to this thread's own question. */
  lemma ReceivesOwnAnswer(s: State, t: nat)
    requires Inv(s) && Enabled(s, Receives(t))
    ensures s.lock == HeldBy(t) && s.askers[Taken(s)] == t && |s.prompts| == |s.askers|
    ensures s.toDaemon[s.readByDaemon] == Reply(s.prompts[Taken(s)].answer)
  {
  }

  lemma ReceivesKeepsInv(s: State, e: Event)
    requires Inv(s) && Enabled(s, e) && e.Receives?
    ensures Inv(Next(s, e))
  {
    ReceivesOwnAnswer(s, e.t);
    ReceivesKeepsAskers(s, e.t);
  }

  lemma ReceivesKeepsAskers(s: State, t: nat)
    requires Inv(s) && Enabled(s, Receives(t))
    ensures AskerInv(Next(s, Receives(t)))
  {
    ReceivesOwnAnswer(s, t);
    var k := Taken(s);
    var s' := Next(s, Receives(t));
    ReceivesKeepsTaken(s, t);
    forall i | 0 <= i < Taken(s')
      ensures s'.askers[i] < |s'.threads| && s'.threads[s'.askers[i]].phase == Answered(s'.prompts[i].answer)
    {
      if i < k {
        assert s.threads[s.askers[i]].phase == Answered(s.prompts[i].answer);
      }
    }
  }

  lemma ReceivesKeepsTaken(s: State, t: nat)
    requires Inv(s) && Enabled(s, Receives(t))
    ensures
      var s' := Next(s, Receives(t));
      forall u :: 0 <= u < |s'.threads| && s'.threads[u].phase.Answered? ==> HasTaken(s', u)
  {
    ReceivesOwnAnswer(s, t);
    var s' := Next(s, Receives(t));
    forall u | 0 <= u < |s'.threads| && s'.threads[u].phase.Answered?
      ensures HasTaken(s', u)
    {
      if u == t {
        assert s'.askers[Taken(s)] == t;
      } else {
        assert HasTaken(s, u);
      }
    }
  }

  lemma ClientReadsKeepsInv(s: State, e: Event)
    requires Inv(s) && Enabled(s, e) && e.ClientReads?
    ensures Inv(Next(s, e))
  {
  }

  lemma ClientAnswersKeepsInv(s: State, e: Event)
    requires Inv(s) && Enabled(s, e) && e.ClientAnswers?
    ensures Inv(Next(s, e))
  {
    var s' := Next(s, e);
    forall i | 0 <= i < |s'.prompts|
      ensures s'.toDaemon[i + 1] == Reply(s'.prompts[i].answer) && IsPromptAnswer(s'.prompts[i].answer)
    {
      assert i < |s.prompts| ==> s'.toDaemon[i + 1] == s.toDaemon[i + 1] && s'.prompts[i] == s.prompts[i];
    }
    assert UpstreamInv(s');
  }

  lemma HandlerReturnsKeepsInv(s: State, e: Event)
    requires Inv(s) && Enabled(s, e) && e.HandlerReturns?
    ensures Inv(Next(s, e))
  {
  }

  lemma HandlerLocksKeepsInv(s: State, e: Event)
    requires Inv(s) && Enabled(s, e) && e.HandlerLocks?
    ensures Inv(Next(s, e))
  {
  }

  lemma HandlerMarksKeepsInv(s: State, e: Event)
    requires Inv(s) && Enabled(s, e) && e.HandlerMarks?
    ensures Inv(Next(s, e))
  {
  }

  lemma HandlerSendsKeepsInv(s: State, e: Event)
    requires Inv(s) && Enabled(s, e) && e.HandlerSends?
    ensures Inv(Next(s, e))
  {
  }

  /** Every step of every participant keeps the invariant. */
  lemma StepKeepsInv(s: State, e: Event)
    requires Inv(s) && Enabled(s, e)
    ensures Inv(Next(s, e))
  {
    match e
    case ClientRequests => ClientRequestsKeepsInv(s, e);
    case HandlerStarts => HandlerStartsKeepsInv(s, e);
    case Arrives(_) => ArrivesKeepsInv(s, e);
    case Locks(_) => LocksKeepsInv(s, e);
    case IsRefused(_) => IsRefusedKeepsInv(s, e);
    case Sends(_) => SendsKeepsInv(s, e);
    case Receives(_) => ReceivesKeepsInv(s, e);
    case ClientReads => ClientReadsKeepsInv(s, e);
    case ClientAnswers(_) => ClientAnswersKeepsInv(s, e);
    case HandlerReturns => HandlerReturnsKeepsInv(s, e);
    case HandlerLocks => HandlerLocksKeepsInv(s, e);
    case HandlerMarks => HandlerMarksKeepsInv(s, e);
    case HandlerSends => HandlerSendsKeepsInv(s, e);
  }

  // ---------------------------------------------------------------- whole runs

  /** `s'` is reached from `s` by the events, each enabled when it happens. */
  ghost predicate Runs(s: State, events: seq<Event>, s': State)
    decreases |events|
  {
    if events == [] then s' == s
    else Enabled(s, events[0]) && Runs(Next(s, events[0]), events[1..], s')
  }

  lemma {:induction false} RunKeepsInv(s: State, events: seq<Event>, s': State)
    requires Inv(s) && Runs(s, events, s')
    ensures Inv(s')
    decreases |events|
  {
    if events != [] {
      StepKeepsInv(s, events[0]);
      RunKeepsInv(Next(s, events[0]), events[1..], s');
    }
  }

  /** The daemon-to-CLI stream is a prefix of Elicit^k Final, and Final ends it. */
  ghost predicate IsDownstream(stream: seq<ToClient>) {
    forall i :: 0 <= i < |stream| ==> stream[i].Elicit? || i == |stream| - 1
  }

  /** The CLI-to-daemon stream is a prefix of Request Reply^k. */
  ghost predicate IsUpstream(stream: seq<ToDaemon>) {
    forall i :: 0 <= i < |stream| ==> (stream[i].Request? <==> i == 0)
  }

  /** The i-th envelope puts the question of the i-th asker, and the i-th reply is what that thread was given. */
  ghost predicate AnswersReachAskers(s: State) {
    && Taken(s) <= |s.askers| <= |s.toClient|
    && (forall i :: 0 <= i < |s.askers| ==>
          s.askers[i] < |s.threads| && s.toClient[i] == Elicit(s.threads[s.askers[i]].question))
    && (forall i :: 0 <= i < Taken(s) ==>
          && i < |s.prompts| && i + 1 < |s.toDaemon|
          && s.toDaemon[i + 1] == Reply(s.prompts[i].answer)
          && s.threads[s.askers[i]].phase == Answered(s.prompts[i].answer))
  }

  /** What both sides may rely on in every state of every run. */
  ghost predicate Safe(s: State) {
    && IsDownstream(s.toClient)
    && IsUpstream(s.toDaemon)
    // at most one envelope is unanswered, and only while its thread holds the mutex
    && 0 <= |s.askers| - Taken(s) <= 1
    && (|s.askers| > Taken(s) ==> IsOutstanding(s))
    && AnswersReachAskers(s)
    // every reply a thread got is what the user answered to that thread's own question
    && (forall t :: 0 <= t < |s.threads| && s.threads[t].phase.Answered? ==>
          Prompt(s.threads[t].question, s.threads[t].phase.answer) in s.prompts
          && MapAction(s.threads[t].phase.answer.action).Some?)
    // no thread ever reads a message that is not a reply
    && (forall t :: 0 <= t < |s.threads| ==> !s.threads[t].phase.Mismatched?)
    // a client that has stopped has seen the final response
    && (s.client.Closed? ==> s.toClient != [] && s.toClient[|s.toClient| - 1] == Final)
  }

  lemma InvReachesAskers(s: State)
    requires Inv(s)
    ensures AnswersReachAskers(s)
  {
    forall i | 0 <= i < Taken(s)
      ensures i < |s.prompts| && i + 1 < |s.toDaemon| && s.toDaemon[i + 1] == Reply(s.prompts[i].answer)
      ensures s.threads[s.askers[i]].phase == Answered(s.prompts[i].answer)
    {
    }
  }

  lemma InvIsSafe(s: State)
    requires Inv(s)
    ensures Safe(s)
  {
    InvReachesAskers(s);
    forall t | 0 <= t < |s.threads| && s.threads[t].phase.Answered?
      ensures Prompt(s.threads[t].question, s.threads[t].phase.answer) in s.prompts
      ensures MapAction(s.threads[t].phase.answer.action).Some?
    {
      var i :| 0 <= i < Taken(s) && s.askers[i] == t;
      assert s.prompts[i] == Prompt(s.threads[t].question, s.threads[t].phase.answer);
      PromptAnswersAreUnderstood(s.prompts[i].answer);
    }
    forall i | 0 < i < |s.toDaemon|
      ensures s.toDaemon[i].Reply?
    {
      assert s.toDaemon[(i - 1) + 1] == Reply(s.prompts[i - 1].answer);
    }
  }

  /** Safety for any number of threads and any interleaving. */
  lemma EveryRunIsSafe(s: State, events: seq<Event>, s': State)
    requires IsInitial(s) && Runs(s, events, s')
    ensures Safe(s')
  {
    InitialInv(s);
    RunKeepsInv(s, events, s');
    InvIsSafe(s');
  }

  /** Streams only grow, and nothing is written to the client after the final response. */
  lemma NothingAfterFinal(s: State, e: Event)
    requires Inv(s) && Enabled(s, e)
    ensures s.toClient <= Next(s, e).toClient && s.toDaemon <= Next(s, e).toDaemon
    ensures Final in s.toClient ==> Next(s, e).toClient == s.toClient
  {
  }

  // --------------------------------------------------------------------- liveness

  /** The request is over: the client has the final response and no thread is inside a call. */
  ghost predicate Complete(s: State) {
    && s.client.Closed?
    && forall t :: 0 <= t < |s.threads| ==>
         s.threads[t].phase.Idle? || s.threads[t].phase.Answered? || s.threads[t].phase.Refused?
  }

  /** A default answer, for a client that has to say something. */
  const DECLINED := Answer("decline", None)

  lemma DeclinedIsAnAnswer()
    ensures IsPromptAnswer(DECLINED)
  {
    assert PromptElicitation(false, "", "", None) == DECLINED;
  }

  /** While an envelope is unanswered, the client or its thread can move, whatever the handler does. */
  lemma OutstandingIsServed(s: State) returns (e: Event)
    requires Inv(s) && IsOutstanding(s)
    ensures Enabled(s, e) && (e.ClientReads? || e.ClientAnswers? || e.Receives?)
  {
    if s.client.Prompting? {
      DeclinedIsAnAnswer();
      e := ClientAnswers(DECLINED);
    } else if |s.prompts| < |s.askers| {
      e := ClientReads;
    } else {
      e := Receives(s.lock.thread);
    }
  }

  /** No reachable state is stuck before the request is complete. */
  lemma NeverStuck(s: State) returns (e: Event)
    requires Inv(s) && !Complete(s)
    ensures Enabled(s, e)
  {
    if IsOutstanding(s) {
      e := OutstandingIsServed(s);
    } else if s.lock.HeldBy? {
      e := if s.finished then IsRefused(s.lock.thread) else Sends(s.lock.thread);
    } else if s.lock.HeldByHandler? {
      e := HandlerMarks;
    } else if t :| 0 <= t < |s.threads| && s.threads[t].phase.Waiting? {
      e := Locks(t);
    } else {
      match s.handler
      case Starting => e := if s.client.Start? then ClientRequests else HandlerStarts;
      case Running => e := HandlerReturns;
      case Closing => e := HandlerLocks;
      case Marked => e := HandlerSends;
      case _ =>
        DeclinedIsAnAnswer();
        e := if s.client.Prompting? then ClientAnswers(DECLINED) else ClientReads;
    }
  }

  function PhaseRank(phase: Phase): nat {
    match phase
    case Idle => 8
    case Waiting => 7
    case Holding => 6
    case Awaiting => 1
    case _ => 0
  }

  function ThreadRank(threads: seq<Thread>): nat {
    if threads == [] then 0 else PhaseRank(threads[0].phase) + ThreadRank(threads[1..])
  }

  function HandlerRank(handler: Handler): nat {
    match handler
    case Starting => 9
    case Running => 8
    case Closing => 7
    case Marking => 6
    case Marked => 5
    case Done => 0
  }

  /** An upper bound on the number of steps that are left. */
  function Rank(s: State): int {
    ThreadRank(s.threads) + HandlerRank(s.handler)
    + (match s.client case Start => 2 case Prompting(_) => 2 case _ => 0)
    + 3 * (|s.toClient| - s.readByClient) + (|s.toDaemon| - s.readByDaemon)
  }

  lemma {:induction false} ThreadRankUpdate(threads: seq<Thread>, t: nat, thread: Thread)
    requires t < |threads|
    ensures ThreadRank(threads[t := thread]) ==
            ThreadRank(threads) - PhaseRank(threads[t].phase) + PhaseRank(thread.phase)
  {
    if t == 0 {
      assert threads[0 := thread][1..] == threads[1..];
    } else {
      assert threads[t := thread][1..] == threads[1..][t - 1 := thread];
      ThreadRankUpdate(threads[1..], t - 1, thread);
    }
  }

  lemma ThreadStepLowersRank(s: State, e: Event)
    requires Inv(s) && Enabled(s, e)
    requires e.Arrives? || e.Locks? || e.IsRefused? || e.Sends? || e.Receives?
    ensures Rank(Next(s, e)) < Rank(s)
  {
    ThreadRankUpdate(s.threads, e.t, Next(s, e).threads[e.t]);
  }

  lemma OtherStepLowersRank(s: State, e: Event)
    requires Inv(s) && Enabled(s, e)
    requires !(e.Arrives? || e.Locks? || e.IsRefused? || e.Sends? || e.Receives?)
    ensures Rank(Next(s, e)) < Rank(s)
  {
    assert Next(s, e).threads == s.threads;
  }

  lemma StepLowersRank(s: State, e: Event)
    requires Inv(s) && Enabled(s, e)
    ensures 0 <= Rank(Next(s, e)) < Rank(s)
  {
    StepKeepsInv(s, e);
    RankIsNatural(Next(s, e));
    if e.Arrives? || e.Locks? || e.IsRefused? || e.Sends? || e.Receives? {
      ThreadStepLowersRank(s, e);
    } else {
      OtherStepLowersRank(s, e);
    }
  }

  lemma RankIsNatural(s: State)
    requires Inv(s)
    ensures 0 <= Rank(s)
  {
  }

  lemma {:induction false} RunIsBounded(s: State, events: seq<Event>, s': State)
    requires Inv(s) && Runs(s, events, s')
    ensures |events| <= Rank(s) - Rank(s')
    decreases |events|
  {
    if events != [] {
      StepLowersRank(s, events[0]);
      StepKeepsInv(s, events[0]);
      RunIsBounded(Next(s, events[0]), events[1..], s');
    }
  }

  lemma {:induction false} IdleRank(threads: seq<Thread>)
    requires forall t :: 0 <= t < |threads| ==> threads[t].phase == Idle
    ensures ThreadRank(threads) == 8 * |threads|
  {
    if threads != [] {
      IdleRank(threads[1..]);
    }
  }

  /**
    Every run ends, within a number of steps linear in the number of threads,
    and where it can go no further the client has the final response.
   */
  lemma EveryRunCompletes(s: State, events: seq<Event>, s': State)
    requires IsInitial(s) && Runs(s, events, s')
    ensures |events| <= 8 * |s.threads| + 11
    ensures (forall e :: !Enabled(s', e)) ==> Complete(s')
  {
    InitialInv(s);
    RunKeepsInv(s, events, s');
    RunIsBounded(s, events, s');
    IdleRank(s.threads);
    if !Complete(s') {
      var e := NeverStuck(s');
    }
  }
}
