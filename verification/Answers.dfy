/** What the answer to a request is: the whole table, from the messages read, the handlers
    registered and the way the handler ended. */
module Answers {
  import opened Options
  import opened Protocol
  import opened Dispatch
  import opened Reference
  import opened Server
  import opened Control
  import opened Cancellation
  import opened Outcomes
  import opened Jobs
  import opened OutgoingCalls
  import opened ExactlyOnce
  import opened Soundness

  lemma RefusingAsked(read: seq<Message>)
    requires Refusing(read)
    ensures Asked(read, Initialize)
  {
    var j :| 0 <= j < |read| && TakesShutdown(read, j) && NoNotice(read, j, Initialized);
    var k :| 0 <= k < j && IsRequestFor(read[..j][k], Initialize);
    assert IsRequestFor(read[k], Initialize);
  }

  /** Which requests are refused, and with what: before `initialize` was asked everything else;
      after `shutdown`, until `initialized`, everything; a second `initialize`; a method nobody
      registered. */
  lemma RefusalTable(s: State, k: nat, i: nat)
    requires Reachable(s) && k < |s.sent| && IsReply(s.sent[k], i)
    ensures i < |s.read| && s.read[i].Request?
    ensures !Asked(s.read[..i], Initialize) && s.read[i].name != Initialize ==>
              s.sent[k].frame.reply == Error(ServerNotInitialized)
    ensures Refusing(s.read[..i]) ==> s.sent[k].frame.reply == Error(InvalidRequest)
    ensures Asked(s.read[..i], Initialize) && s.read[i].name == Initialize ==>
              s.sent[k].frame.reply == Error(InvalidRequest)
    ensures Asked(s.read[..i], Initialize) && !Refusing(s.read[..i]) && s.read[i].name != Initialize
            && s.read[i].name !in s.handlers.requests ==>
              s.sent[k].frame.reply == Error(MethodNotFound)
  {
    NoStrayFrames(s, k);
    if Refusing(s.read[..i]) {
      RefusingAsked(s.read[..i]);
    }
  }

  lemma ReplyFacts(s: State, k: nat, i: nat)
    requires Reachable(s) && k < |s.sent| && IsReply(s.sent[k], i)
    ensures BuiltIn(s.handlers) && Readable(s.handlers, s.read)
    ensures SentOk(s.handlers, s.read, s.verdicts, s.sent[k])
    ensures SentEnded(s.handlers, s.read, s.log.ended, s.verdicts, s.sent[k])
    ensures AllRun(s.handlers, s.read, s.log.ended)
  {
    ReachableSound(s);
  }

  /** The other requests are run: by the time `run` returns, a worker has judged every one that
      is not of the lifecycle, and the handlers of the lifecycle requests, and of the requests
      not refused as cancelled, have ended. */
  lemma OthersAreRun(s: State, i: nat)
    requires Reachable(s) && s.pc.Returned?
    requires i < |s.read| && s.read[i].Request? && Refusal(s.handlers, s.read, i) == None
    ensures IsLifecycle(s.read[i].name) ==> i in s.log.ended
    ensures !IsLifecycle(s.read[i].name) ==> i in s.verdicts && (s.verdicts[i] || i in s.log.ended)
  {
    OneReplyEach(s, i);
    var k :| 0 <= k < |s.sent| && IsReply(s.sent[k], i);
    ReplyFacts(s, k, i);
    RequestTable(s.handlers, s.read, i);
  }

  /** Any answer to a request whose handler ended is what the handler ended with; any other is a
      refusal, for the reason in the table, or because the worker found it cancelled. */
  lemma AnswerContent(s: State, k: nat, i: nat)
    requires Reachable(s) && k < |s.sent| && IsReply(s.sent[k], i)
    ensures i < |s.read| && s.read[i].Request?
    ensures i in s.log.ended ==>
      match s.log.ended[i]
      case Returns(json) => s.sent[k].frame.reply == Result(json)
      case ThrowsCancelled => s.sent[k].frame.reply == Error(RequestCancelled)
      case ThrowsRpc(code) => s.sent[k].frame.reply == Error(code)
      case ThrowsOther => s.sent[k].frame.reply == Error(InternalError)
    ensures i in s.log.ended ==> Refusal(s.handlers, s.read, i) == None
    ensures i !in s.log.ended ==>
      || (Refusal(s.handlers, s.read, i).Some? && s.sent[k].frame.reply == Error(Refusal(s.handlers, s.read, i).value))
      || (i in s.verdicts && s.verdicts[i] && s.sent[k].frame.reply == Error(RequestCancelled))
  {
    NoStrayFrames(s, k);
    ReplyFacts(s, k, i);
    RequestTable(s.handlers, s.read, i);
  }

  /** The serial executor is given the notifications about documents and nothing else; the pool
      is given none of them. */
  lemma NotificationsPlaced(s: State, k: nat)
    requires Reachable(s)
    ensures k < |s.sync.accepted| ==>
      var job := s.sync.accepted[k];
      && job.NotifyJob? && job.index < |s.read| && ForPool(s.handlers, s.read, job.index)
      && IsDocumentName(s.read[job.index].name)
    ensures k < |s.pool.accepted| && s.pool.accepted[k].NotifyJob? ==>
      var job := s.pool.accepted[k];
      job.index < |s.read| && ForPool(s.handlers, s.read, job.index) && !IsDocumentName(s.read[job.index].name)
  {
    ReachableSound(s);
    if k < |s.sync.accepted| {
      assert JobOk(s.handlers, s.read, s.sync.accepted[k]);
      NoticeTable(s.handlers, s.read, s.sync.accepted[k].index);
    }
    if k < |s.pool.accepted| && s.pool.accepted[k].NotifyJob? {
      assert JobOk(s.handlers, s.read, s.pool.accepted[k]);
      NoticeTable(s.handlers, s.read, s.pool.accepted[k].index);
    }
  }

  /** While ids last, the callback of a registered call runs once if a response under its id was
      read since the registration, and not otherwise. */
  lemma CallbackExactly(s: State, c: nat)
    requires Reachable(s) && s.pc.Returned? && |s.calls| <= WORD
    requires c < |s.calls| && s.calls[c].stage != Allocated
    ensures s.calls[c].since <= |Responses(s.read)|
    ensures multiset(s.ran)[Callback(c)] == if s.calls[c].id in Responses(s.read)[s.calls[c].since..] then 1 else 0
  {
    CallConservation(s, c);
    ReachableSound(s);
    DeliveredIfAnswered(s, c);
  }

  lemma DeliveredIfAnswered(s: State, c: nat)
    requires CallsOk(s) && |s.calls| <= WORD && !s.pc.Matching? && c < |s.calls| && s.calls[c].stage != Allocated
    ensures s.calls[c].since <= |s.lookups| && s.lookups == Responses(s.read)
    ensures IsDelivered(s, c) <==> s.calls[c].id in s.lookups[s.calls[c].since..]
  {
    var id, since := s.calls[c].id, s.calls[c].since;
    if IsDelivered(s, c) {
      var k :| 0 <= k < |s.matched| && s.matched[k].call == c;
      assert MatchOk(s, s.matched[k]);
      assert s.lookups[since..][s.matched[k].lookup - since] == id;
    } else {
      assert IsPending(s, c);
      assert PendingOk(s, id);
    }
  }

  /** A callback is given the payload of a response to its own call. */
  lemma CallbackPayload(s: State, k: nat)
    requires Reachable(s) && k < |s.pool.accepted| && s.pool.accepted[k].CallbackJob?
    ensures var job := s.pool.accepted[k];
      && job.call < |s.calls| && job.index < |s.read|
      && s.read[job.index] == Response(IntId(s.calls[job.call].id), job.payload, job.isError)
  {
    ReachableSound(s);
    assert Jobs.Fits(s.read, s.calls, s.pool.accepted[k]);
  }
}
