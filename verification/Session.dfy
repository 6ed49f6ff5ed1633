/**
  The session object. Its methods run under its mutex, so each is one atomic
  exchange; what the CLI sends while a method is blocked in Decode is passed in
  as `delivered`.
 */
module Session {
  import opened Answers
  import opened Elicitation

  datatype Exchange = Replied(answer: Answer) | SessionFinished | UnexpectedMessage

  class Session {
    var finished: bool
    var written: seq<ToClient>
    var received: seq<ToDaemon>  // everything delivered so far
    var taken: nat               // how much of it has been decoded

    ghost predicate Valid()
      reads this
    {
      taken <= |received|
    }

    /** newSession, after the request has been decoded. */
    constructor ()
      ensures Valid() && !finished && written == [] && received == [Request] && taken == 1
    {
      finished, written, received, taken := false, [], [Request], 1;
    }

    /** Writes an envelope and decodes the next message, unless the session is finished. */
    method RequestElicitation(question: Question, delivered: seq<ToDaemon>) returns (r: Exchange)
      requires Valid()
      requires !finished ==> taken < |received| + |delivered|
      modifies this
      ensures Valid() && finished == old(finished) && received == old(received) + delivered
      ensures r.SessionFinished? <==> old(finished)
      ensures old(finished) ==> written == old(written) && taken == old(taken)
      ensures !old(finished) ==>
                && written == old(written) + [Elicit(question)] && taken == old(taken) + 1
                && var message := received[old(taken)];
                   r == if message.Reply? then Replied(message.answer) else UnexpectedMessage
    {
      received := received + delivered;
      if finished {
        return SessionFinished;
      }
      written := written + [Elicit(question)];
      var inbound := received[taken];
      taken := taken + 1;
      if inbound.Request? {
        return UnexpectedMessage;
      }
      return Replied(inbound.answer);
    }

    method MarkFinished()
      requires Valid()
      modifies this`finished
      ensures Valid() && finished
    {
      finished := true;
    }

    /**
      handleConn with a handler that asks `n` questions, each chosen from the
      exchanges so far: the i-th call gets the i-th message the CLI sends, and
      the final response follows the last envelope.
     */
    method HandleConn(ask: seq<Exchange> -> Question, n: nat, messages: seq<ToDaemon>) returns (exchanges: seq<Exchange>)
      requires Valid() && !finished && written == [] && taken == |received|
      requires |messages| == n
      modifies this
      ensures Valid() && finished && taken == |received| && received == old(received) + messages
      ensures |exchanges| == n && |written| == n + 1 && written[n] == Final
      ensures forall i :: 0 <= i < n ==> written[i] == Elicit(ask(exchanges[..i]))
      ensures forall i :: 0 <= i < n ==>
                exchanges[i] == if messages[i].Reply? then Replied(messages[i].answer) else UnexpectedMessage
    {
      exchanges := [];
      for i := 0 to n
        invariant Valid() && !finished && taken == |received| && received == old(received) + messages[..i]
        invariant |written| == |exchanges| == i
        invariant forall k :: 0 <= k < i ==> written[k] == Elicit(ask(exchanges[..k]))
        invariant forall k :: 0 <= k < i ==>
                    exchanges[k] == if messages[k].Reply? then Replied(messages[k].answer) else UnexpectedMessage
      {
        assert messages[..i + 1] == messages[..i] + [messages[i]];
        var exchange := RequestElicitation(ask(exchanges), [messages[i]]);
        ghost var before := exchanges;
        exchanges := exchanges + [exchange];
        assert forall k :: 0 <= k <= i ==> exchanges[..k] == before[..k];
      }
      MarkFinished();
      written := written + [Final];
      assert messages[..n] == messages;
    }
  }

  /** A thread that comes after the final response leaves the stream alone. */
  method LateThread(s: Session, question: Question) returns (r: Exchange)
    requires s.Valid() && s.finished
    modifies s
    ensures r.SessionFinished? && s.written == old(s.written)
  {
    r := s.RequestElicitation(question, []);
  }

  // -------------------------------------------- the exchange inside the protocol

  /**
    Inside the protocol the two halves of an exchange are separate steps, with
    the CLI moving in between; whatever happens in between, no other thread
    writes an envelope or takes a message before this thread has its answer.
   */
  lemma ExchangeIsAtomic(s: State, t: nat, e: Event)
    requires Inv(s) && s.lock == HeldBy(t) && InPhase(s, t, Awaiting)
    requires Enabled(s, e) && !(e.Receives? && e.t == t)
    ensures
      var s' := Next(s, e);
      && s'.lock == HeldBy(t) && InPhase(s', t, Awaiting)
      && s'.toClient == s.toClient && s'.readByDaemon == s.readByDaemon && !s'.finished
  {
  }
}
