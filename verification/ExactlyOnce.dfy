/** Every request is answered exactly once, every queued task runs exactly once. */
module ExactlyOnce {
  import opened Protocol
  import opened Dispatch
  import opened Reference
  import opened Server
  import opened Control
  import opened Duties
  import opened OutgoingCalls
  import opened Cancellation
  import opened Soundness
  import opened Sums

  // ---------------------------------------------------------------- one duty for each message

  /** Message i, so disposed of, calls for the duty. */
  predicate CallsFor(disposition: Disposition, i: nat, m: Message, d: Duty) {
    match d
    case Answer(j, id) => i == j && m.Request? && m.id == id
    case Report(j) => i == j && m.Invalid?
    case Notify(j) => i == j && m.Notification? && (disposition.QueueSync? || disposition.QueuePool?)
    case Callback(_) => false
  }

  function IndexOf(d: Duty): nat {
    if d.Callback? then 0 else d.index
  }

  /** The message at the duty's index calls for it. */
  ghost predicate CalledFor(h: Handlers, read: seq<Message>, d: Duty) {
    var i := IndexOf(d);
    i < |read| && CallsFor(DispositionAt(h, read, i), i, read[i], d)
  }

  lemma MessageDutyOnce(disposition: Disposition, i: nat, m: Message, d: Duty)
    ensures MessageDuties(disposition, i, m)[d] == if CallsFor(disposition, i, m, d) then 1 else 0
  {
  }

  lemma {:induction false} DutyOnce(h: Handlers, read: seq<Message>, d: Duty)
    ensures ReadDuties(h, read)[d] == if CalledFor(h, read, d) then 1 else 0
  {
    if read == [] {
    } else {
      var n := |read| - 1;
      assert read == read[..n] + [read[n]];
      DutyOnce(h, read[..n], d);
      MessageDutyOnce(DispositionAt(h, read, n), n, read[n], d);
      if IndexOf(d) < n {
        DispositionStable(h, read[..n], read[n], IndexOf(d));
      }
    }
  }

  lemma {:induction false} MatchedOnlyCallbacks(matched: seq<Match>, d: Duty)
    requires !d.Callback?
    ensures Gather(matched, MatchDuty)[d] == 0
  {
    if matched == [] {
    } else {
      MatchedOnlyCallbacks(matched[1..], d);
    }
  }

  lemma IncurredOnce(s: State, d: Duty)
    requires !d.Callback?
    ensures Incurred(s)[d] == if CalledFor(s.handlers, s.read, d) then 1 else 0
  {
    DutyOnce(s.handlers, s.read, d);
    MatchedOnlyCallbacks(s.matched, d);
  }

  lemma OwesNothing(s: State)
    requires Orderly(s) && s.pc.Returned?
    ensures Owed(s) == multiset{}
  {
    PoolOwesNothing(s.pool);
    PoolOwesNothing(s.sync);
  }

  /** A duty is discharged at most as often as it was taken on, and once `run` has returned,
      exactly as often. */
  lemma DischargedOnce(s: State, d: Duty)
    requires Orderly(s) && Balanced(s)
    ensures Discharged(s)[d] <= Incurred(s)[d]
    ensures s.pc.Returned? ==> Discharged(s)[d] == Incurred(s)[d]
  {
    assert Incurred(s)[d] == Discharged(s)[d] + Owed(s)[d];
    if s.pc.Returned? {
      OwesNothing(s);
    }
  }

  // ---------------------------------------------------------------- responses

  predicate IsReply(x: Sent, i: nat) {
    x.InReply? && x.index == i && x.frame.ReplyFrame?
  }

  predicate IsReport(x: Sent, i: nat) {
    x.InReply? && x.index == i && x.frame.NullIdError?
  }

  ghost predicate OneReply(sent: seq<Sent>, i: nat) {
    forall k, l | 0 <= k < |sent| && 0 <= l < |sent| && IsReply(sent[k], i) && IsReply(sent[l], i) :: k == l
  }

  ghost predicate OneReport(sent: seq<Sent>, i: nat) {
    forall k, l | 0 <= k < |sent| && 0 <= l < |sent| && IsReport(sent[k], i) && IsReport(sent[l], i) :: k == l
  }

  lemma ReplyDuties(s: State, i: nat)
    requires Reachable(s) && i < |s.read| && s.read[i].Request?
    ensures forall k | 0 <= k < |s.sent| && IsReply(s.sent[k], i) :: Answer(i, s.read[i].id) in SentDuty(s.sent[k])
  {
    ReachableSound(s);
    forall k | 0 <= k < |s.sent| && IsReply(s.sent[k], i) ensures Answer(i, s.read[i].id) in SentDuty(s.sent[k]) {
      assert SentOk(s.handlers, s.read, s.verdicts, s.sent[k]);
    }
  }

  lemma FramesOnce(sent: seq<Sent>, i: nat, d: Duty)
    requires Gather(sent, SentDuty)[d] <= 1
    ensures (forall k | 0 <= k < |sent| && IsReply(sent[k], i) :: d in SentDuty(sent[k])) ==> OneReply(sent, i)
    ensures (forall k | 0 <= k < |sent| && IsReport(sent[k], i) :: d in SentDuty(sent[k])) ==> OneReport(sent, i)
  {
    GatherOnce(sent, SentDuty, d);
  }

  lemma FindReply(sent: seq<Sent>, i: nat, id: RequestId)
    requires Answer(i, id) in Gather(sent, SentDuty)
    ensures exists k :: 0 <= k < |sent| && IsReply(sent[k], i)
  {
    var k := GatherFind(sent, SentDuty, Answer(i, id));
    assert IsReply(sent[k], i);
  }

  lemma FindReport(sent: seq<Sent>, i: nat)
    requires Report(i) in Gather(sent, SentDuty)
    ensures exists k :: 0 <= k < |sent| && IsReport(sent[k], i)
  {
    var k := GatherFind(sent, SentDuty, Report(i));
    assert IsReport(sent[k], i);
  }

  /** How often the frames sent discharge an answer or a report. */
  lemma FrameCount(s: State, d: Duty)
    requires Reachable(s) && (d.Answer? || d.Report?)
    ensures Gather(s.sent, SentDuty)[d] <= if CalledFor(s.handlers, s.read, d) then 1 else 0
    ensures s.pc.Returned? ==> Gather(s.sent, SentDuty)[d] == if CalledFor(s.handlers, s.read, d) then 1 else 0
  {
    ReachableSound(s);
    IncurredOnce(s, d);
    DischargedOnce(s, d);
    assert d !in s.ran;
  }

  /** At any time a request has at most one reply; when `run` has returned it has one. */
  lemma OneReplyEach(s: State, i: nat)
    requires Reachable(s) && i < |s.read| && s.read[i].Request?
    ensures OneReply(s.sent, i)
    ensures s.pc.Returned? ==> exists k :: 0 <= k < |s.sent| && IsReply(s.sent[k], i)
  {
    var d := Answer(i, s.read[i].id);
    FrameCount(s, d);
    ReplyDuties(s, i);
    FramesOnce(s.sent, i, d);
    if s.pc.Returned? {
      FindReply(s.sent, i, s.read[i].id);
    }
  }

  /** A malformed message is reported once. */
  lemma OneReportEach(s: State, i: nat)
    requires Reachable(s) && i < |s.read| && s.read[i].Invalid?
    ensures OneReport(s.sent, i)
    ensures s.pc.Returned? ==> exists k :: 0 <= k < |s.sent| && IsReport(s.sent[k], i)
  {
    FrameCount(s, Report(i));
    FramesOnce(s.sent, i, Report(i));
    if s.pc.Returned? {
      FindReport(s.sent, i);
    }
  }

  /** No frame answers anything but the message it is for: a reply a request, under its id, and
      if the request is refused, with the reason; a report a malformed message, with its error.
      All other frames are calls and notifications. */
  lemma NoStrayFrames(s: State, k: nat)
    requires Reachable(s) && k < |s.sent|
    ensures match s.sent[k]
      case InReply(i, ReplyFrame(id, reply)) =>
        && i < |s.read| && s.read[i].Request? && s.read[i].id == id
        && (Refusal(s.handlers, s.read, i).Some? ==> reply == Error(Refusal(s.handlers, s.read, i).value))
      case InReply(i, NullIdError(code)) => i < |s.read| && s.read[i] == Invalid(code)
      case InReply(_, _) => false
      case Unasked(frame) => frame.CallFrame? || frame.NoticeFrame?
  {
    ReachableSound(s);
    assert SentOk(s.handlers, s.read, s.verdicts, s.sent[k]);
    if s.sent[k].InReply? && s.sent[k].frame.ReplyFrame? {
      RequestTable(s.handlers, s.read, s.sent[k].index);
    }
  }

  // ---------------------------------------------------------------- ids, as multisets

  function RequestIds(m: Message): multiset<RequestId> {
    if m.Request? then multiset{m.id} else multiset{}
  }

  function ReplyIds(x: Sent): multiset<RequestId> {
    if x.frame.ReplyFrame? then multiset{x.frame.id} else multiset{}
  }

  function DutyIds(d: Duty): multiset<RequestId> {
    if d.Answer? then multiset{d.id} else multiset{}
  }

  lemma {:induction false} ReadIds(h: Handlers, read: seq<Message>)
    ensures Image(ReadDuties(h, read), DutyIds) == Gather(read, RequestIds)
  {
    if read == [] {
    } else {
      var n := |read| - 1;
      var duties := MessageDuties(DispositionAt(h, read, n), n, read[n]);
      ReadIds(h, read[..n]);
      assert read == read[..n] + [read[n]];
      GatherAppend(read[..n], read[n], RequestIds);
      ImageSum(ReadDuties(h, read[..n]), duties, DutyIds);
      MessageIds(DispositionAt(h, read, n), n, read[n]);
    }
  }

  lemma MessageIds(d: Disposition, i: nat, m: Message)
    ensures Image(MessageDuties(d, i, m), DutyIds) == RequestIds(m)
  {
    match m
    case Request(id, _, _) => ImageOne(Answer(i, id), DutyIds);
    case _ => ImageEmpty(MessageDuties(d, i, m), DutyIds);
  }

  lemma SentIds(sent: seq<Sent>)
    requires forall i | 0 <= i < |sent| && sent[i].Unasked? :: !sent[i].frame.ReplyFrame?
    ensures Image(Gather(sent, SentDuty), DutyIds) == Gather(sent, ReplyIds)
  {
    forall i | 0 <= i < |sent| ensures Image(SentDuty(sent[i]), DutyIds) == ReplyIds(sent[i]) {
      match sent[i]
      case InReply(index, ReplyFrame(id, _)) => ImageOne(Answer(index, id), DutyIds);
      case _ => ImageEmpty(SentDuty(sent[i]), DutyIds);
    }
    ImageGather(sent, SentDuty, DutyIds, ReplyIds);
  }

  lemma IncurredIds(s: State)
    ensures Image(Incurred(s), DutyIds) == Gather(s.read, RequestIds)
  {
    ReadIds(s.handlers, s.read);
    forall a | a in Gather(s.matched, MatchDuty) ensures DutyIds(a) == multiset{} {
      if !a.Callback? {
        MatchedOnlyCallbacks(s.matched, a);
      }
    }
    ImageEmpty(Gather(s.matched, MatchDuty), DutyIds);
    ImageSum(ReadDuties(s.handlers, s.read), Gather(s.matched, MatchDuty), DutyIds);
  }

  lemma DischargedIds(s: State)
    requires RanOk(s.ran) && forall i | 0 <= i < |s.sent| && s.sent[i].Unasked? :: !s.sent[i].frame.ReplyFrame?
    ensures Image(Discharged(s), DutyIds) == Gather(s.sent, ReplyIds)
  {
    SentIds(s.sent);
    ImageEmpty(multiset(s.ran), DutyIds);
    ImageSum(Gather(s.sent, SentDuty), multiset(s.ran), DutyIds);
  }

  /** The ids of the requests read are those answered and those still owed an answer: with the
      read thread, queued or running. When `run` returns nothing is owed. */
  lemma ResponseIds(s: State)
    requires Reachable(s)
    ensures Gather(s.read, RequestIds) == Gather(s.sent, ReplyIds) + Image(Owed(s), DutyIds)
    ensures s.pc.Returned? ==> Gather(s.read, RequestIds) == Gather(s.sent, ReplyIds)
  {
    ReachableSound(s);
    IncurredIds(s);
    forall i | 0 <= i < |s.sent| && s.sent[i].Unasked? ensures !s.sent[i].frame.ReplyFrame? {
      NoStrayFrames(s, i);
    }
    DischargedIds(s);
    ImageSum(Discharged(s), Owed(s), DutyIds);
    if s.pc.Returned? {
      OwesNothing(s);
    }
  }

  // ---------------------------------------------------------------- notifications and callbacks

  lemma SentOnlyReplies(sent: seq<Sent>, d: Duty)
    requires d.Notify? || d.Callback?
    ensures Gather(sent, SentDuty)[d] == 0
  {
    if d in Gather(sent, SentDuty) {
      var k := GatherFind(sent, SentDuty, d);
    }
  }

  /** The handler of a notification that is to be handled on a pool runs once; no other handler
      runs there: those of `initialized` and of a cancellation run on the read thread. */
  lemma NotificationOnce(s: State, i: nat)
    requires Reachable(s) && i < |s.read| && s.read[i].Notification?
    ensures multiset(s.ran)[Notify(i)] <= if ForPool(s.handlers, s.read, i) then 1 else 0
    ensures s.pc.Returned? ==> multiset(s.ran)[Notify(i)] == if ForPool(s.handlers, s.read, i) then 1 else 0
  {
    ReachableSound(s);
    IncurredOnce(s, Notify(i));
    DischargedOnce(s, Notify(i));
    SentOnlyReplies(s.sent, Notify(i));
    NoticeTable(s.handlers, s.read, i);
  }

  lemma CallbackIncurred(s: State, c: nat)
    requires |s.calls| <= WORD && CallsOk(s)
    ensures Incurred(s)[Callback(c)] == if IsDelivered(s, c) then 1 else 0
  {
    var d := Callback(c);
    DutyOnce(s.handlers, s.read, d);
    MatchedDistinct(s.matched, c);
  }

  lemma {:induction false} MatchedDistinct(matched: seq<Match>, c: nat)
    requires forall a, b | 0 <= a < b < |matched| :: matched[a].call != matched[b].call
    ensures Gather(matched, MatchDuty)[Callback(c)]
         == if exists k :: 0 <= k < |matched| && matched[k].call == c then 1 else 0
  {
    if matched == [] {
    } else {
      MatchedDistinct(matched[1..], c);
      if k :| 0 <= k < |matched| && matched[k].call == c {
        assert k > 0 ==> matched[1..][k - 1].call == c;
      }
      if k :| 0 <= k < |matched[1..]| && matched[1..][k].call == c {
        assert matched[k + 1].call == c;
      }
    }
  }

  /** While ids last, a registered call is either pending or delivered, with the first response
      read under its id since; its callback runs at most once, and once if `run` returned. */
  lemma CallConservation(s: State, c: nat)
    requires Reachable(s) && |s.calls| <= WORD && c < |s.calls| && s.calls[c].stage != Allocated
    ensures IsPending(s, c) <==> !IsDelivered(s, c)
    ensures multiset(s.ran)[Callback(c)] <= if IsDelivered(s, c) then 1 else 0
    ensures s.pc.Returned? ==> multiset(s.ran)[Callback(c)] == if IsDelivered(s, c) then 1 else 0
    ensures forall k | 0 <= k < |s.matched| && s.matched[k].call == c ::
      FirstAnswer(Responses(s.read), s.calls[c].since, s.matched[k].lookup, s.calls[c].id)
    ensures forall d | 0 <= d < |s.calls| && d != c :: s.calls[d].id != s.calls[c].id
  {
    ReachableSound(s);
    CallbackIncurred(s, c);
    DischargedOnce(s, Callback(c));
    SentOnlyReplies(s.sent, Callback(c));
    IdsDistinct(s);
    assert IsPending(s, c) || IsDelivered(s, c);
    forall k | 0 <= k < |s.matched| && s.matched[k].call == c
      ensures FirstAnswer(Responses(s.read), s.calls[c].since, s.matched[k].lookup, s.calls[c].id)
    {
      MatchedFirst(s, k);
    }
  }

  /** Response number `hit` is the first with this id since response number `since`. */
  ghost predicate FirstAnswer(responses: seq<int>, since: nat, hit: nat, id: int) {
    since <= hit < |responses| && responses[hit] == id && forall k | since <= k < hit :: responses[k] != id
  }

  lemma MatchedFirst(s: State, k: nat)
    requires CallsOk(s) && |s.calls| <= WORD && k < |s.matched|
    ensures var c := s.matched[k].call;
      c < |s.calls| && FirstAnswer(Responses(s.read), s.calls[c].since, s.matched[k].lookup, s.calls[c].id)
  {
    assert MatchOk(s, s.matched[k]);
    assert forall i | 0 <= i < |s.lookups| :: Responses(s.read)[i] == s.lookups[i];
  }
}
