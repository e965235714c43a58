/** Outgoing calls: ids, registered callbacks and the responses that reach them. */
module OutgoingCalls {
  import opened Protocol
  import opened Dispatch
  import opened Server

  const WORD: int := 0x1_0000_0000

  // ---------------------------------------------------------------- ids

  lemma WrapStep(n: int)
    ensures Wrap32(Wrap32(n) + 1) == Wrap32(n + 1)
  {
    var m := n + 0x8000_0000;
    assert m % WORD == m - (m / WORD) * WORD;
    if m % WORD + 1 < WORD {
      assert (m % WORD + 1) % WORD == m % WORD + 1 == (m + 1) % WORD;
    } else {
      assert m + 1 == (m / WORD + 1) * WORD;
    }
  }

  lemma WrapDistinct(a: nat, b: nat)
    requires a < b < a + WORD
    ensures Wrap32(a) != Wrap32(b)
  {
    var m, k := a + 0x8000_0000, b - a;
    assert (m + k) % WORD == if m % WORD + k < WORD then m % WORD + k else m % WORD + k - WORD;
  }

  /** Ids are counted from 1 in 32 signed bits. */
  ghost predicate IdsCounted(s: State) {
    s.next == Wrap32(|s.calls| + 1) && forall c | 0 <= c < |s.calls| :: s.calls[c].id == Wrap32(c + 1)
  }

  /** Ids in use are distinct exactly while no more calls were made than there are ids. */
  lemma IdsDistinct(s: State)
    requires IdsCounted(s)
    ensures (forall a, b | 0 <= a < b < |s.calls| :: s.calls[a].id != s.calls[b].id) <==> |s.calls| <= WORD
  {
    if |s.calls| <= WORD {
      forall a, b | 0 <= a < b < |s.calls| ensures s.calls[a].id != s.calls[b].id {
        WrapDistinct(a + 1, b + 1);
      }
    } else {
      assert Wrap32(1) == Wrap32(WORD + 1);
      assert s.calls[0].id == s.calls[WORD].id;
    }
  }

  // ---------------------------------------------------------------- the ledger

  /** The numbers of the responses in a trace, in order. */
  function Responses(read: seq<Message>): seq<int> {
    if read == [] then []
    else
      var m := read[|read| - 1];
      Responses(read[..|read| - 1]) + if m.Response? && m.id.IntId? then [m.id.n] else []
  }

  ghost predicate Unseen(lookups: seq<int>, from: nat, to: nat, n: int) {
    to <= |lookups| && forall k | from <= k < to :: lookups[k] != n
  }

  /** A pending callback belongs to a registered call that no response has answered. */
  ghost predicate PendingOk(s: State, n: int)
    requires n in s.pending
  {
    var c := s.pending[n];
    c < |s.calls| && s.calls[c].id == n && s.calls[c].stage != Allocated
    && s.calls[c].since <= |s.lookups| && Unseen(s.lookups, s.calls[c].since, |s.lookups|, n)
  }

  /** A delivered callback got the first response after its registration. */
  ghost predicate MatchOk(s: State, m: Match) {
    && m.call < |s.calls| && s.calls[m.call].stage != Allocated
    && s.calls[m.call].since <= m.lookup < |s.lookups|
    && s.lookups[m.lookup] == s.calls[m.call].id
    && Unseen(s.lookups, s.calls[m.call].since, m.lookup, s.calls[m.call].id)
  }

  ghost predicate IsPending(s: State, c: nat) {
    c < |s.calls| && s.calls[c].id in s.pending && s.pending[s.calls[c].id] == c
  }

  ghost predicate IsDelivered(s: State, c: nat) {
    exists k :: 0 <= k < |s.matched| && s.matched[k].call == c
  }

  ghost predicate Ledger(s: State) {
    && (forall n | n in s.pending :: PendingOk(s, n))
    && (forall k | 0 <= k < |s.matched| :: MatchOk(s, s.matched[k]) && !IsPending(s, s.matched[k].call))
    && (forall a, b | 0 <= a < b < |s.matched| :: s.matched[a].call != s.matched[b].call)
    && (forall c | 0 <= c < |s.calls| && s.calls[c].stage != Allocated :: IsPending(s, c) || IsDelivered(s, c))
  }

  /** A call goes out only after its callback is registered. */
  ghost predicate FramesRegistered(s: State) {
    forall k | 0 <= k < |s.sent| && s.sent[k].Unasked? && s.sent[k].frame.CallFrame? ::
      exists c :: 0 <= c < |s.calls| && s.calls[c].id == s.sent[k].frame.number && s.calls[c].stage == SentOut
  }

  /** Responses are looked up in the order they are read. */
  ghost predicate LookupsInOrder(s: State) {
    s.lookups + (if s.pc.Matching? then [s.pc.number] else []) == Responses(s.read)
  }

  ghost predicate CallsOk(s: State) {
    IdsCounted(s) && FramesRegistered(s) && LookupsInOrder(s) && (|s.calls| <= WORD ==> Ledger(s))
  }

  lemma InitCallsOk(h: Handlers, numWorkers: nat)
    ensures CallsOk(Init(h, numWorkers))
  {
  }

  // ---------------------------------------------------------------- steps keep it

  ghost predicate SameForCalls(s: State, t: State) {
    && t.calls == s.calls && t.next == s.next && t.pending == s.pending && t.lookups == s.lookups
    && t.matched == s.matched
  }

  lemma LedgerKept(s: State, t: State)
    requires Ledger(s) && SameForCalls(s, t)
    ensures Ledger(t)
  {
    forall n | n in t.pending ensures PendingOk(t, n) {
      assert PendingOk(s, n);
    }
    forall k | 0 <= k < |t.matched| ensures MatchOk(t, t.matched[k]) && !IsPending(t, t.matched[k].call) {
      assert MatchOk(s, s.matched[k]);
    }
    forall c | 0 <= c < |t.calls| && t.calls[c].stage != Allocated ensures IsPending(t, c) || IsDelivered(t, c) {
      assert IsPending(s, c) || IsDelivered(s, c);
    }
  }

  /** A new call, or a call going out, changes no registration. */
  lemma LedgerCalls(s: State, t: State)
    requires Ledger(s) && t == s.(calls := t.calls, next := t.next, sent := t.sent) && |s.calls| <= |t.calls|
    requires forall c | 0 <= c < |s.calls| :: t.calls[c].id == s.calls[c].id && t.calls[c].since == s.calls[c].since
                                           && (t.calls[c].stage == Allocated <==> s.calls[c].stage == Allocated)
    requires forall c | |s.calls| <= c < |t.calls| :: t.calls[c].stage == Allocated
    ensures Ledger(t)
  {
    forall n | n in t.pending ensures PendingOk(t, n) {
      assert PendingOk(s, n);
    }
    forall k | 0 <= k < |t.matched| ensures MatchOk(t, t.matched[k]) && !IsPending(t, t.matched[k].call) {
      assert MatchOk(s, s.matched[k]) && !IsPending(s, s.matched[k].call);
    }
    forall c | 0 <= c < |t.calls| && t.calls[c].stage != Allocated ensures IsPending(t, c) || IsDelivered(t, c) {
      assert IsPending(s, c) || IsDelivered(s, c);
    }
  }

  lemma LedgerRegister(s: State, c: nat)
    requires Ledger(s) && IdsCounted(s) && |s.calls| <= WORD && Enabled(s, RegisterCall(c))
    ensures Ledger(RegisterStep(s, c))
  {
    var t, id := RegisterStep(s, c), s.calls[c].id;
    IdsDistinct(s);
    if id in s.pending {
      assert PendingOk(s, id);
    }
    forall n | n in t.pending ensures PendingOk(t, n) {
      if n != id {
        assert PendingOk(s, n);
      }
    }
    forall k | 0 <= k < |t.matched| ensures MatchOk(t, t.matched[k]) && !IsPending(t, t.matched[k].call) {
      assert MatchOk(s, s.matched[k]) && !IsPending(s, s.matched[k].call);
    }
    forall d | 0 <= d < |t.calls| && t.calls[d].stage != Allocated ensures IsPending(t, d) || IsDelivered(t, d) {
      assert d != c ==> IsPending(s, d) || IsDelivered(s, d);
      assert IsDelivered(s, d) ==> IsDelivered(t, d);
    }
  }

  /** A response that matches nothing. */
  lemma LedgerMiss(s: State)
    requires Ledger(s) && s.pc.Matching? && s.pc.number !in s.pending
    ensures Ledger(LookUpStep(s))
  {
    var t := LookUpStep(s);
    forall n | n in t.pending ensures PendingOk(t, n) {
      assert PendingOk(s, n);
    }
    forall k | 0 <= k < |t.matched| ensures MatchOk(t, t.matched[k]) && !IsPending(t, t.matched[k].call) {
      assert MatchOk(s, s.matched[k]) && !IsPending(s, s.matched[k].call);
    }
    forall c | 0 <= c < |t.calls| && t.calls[c].stage != Allocated ensures IsPending(t, c) || IsDelivered(t, c) {
      assert IsPending(s, c) || IsDelivered(s, c);
    }
  }

  /** A response that finds its call. */
  lemma LedgerHit(s: State)
    requires Ledger(s) && s.pc.Matching? && s.pc.number in s.pending
    ensures Ledger(LookUpStep(s))
  {
    var t, hit := LookUpStep(s), s.pending[s.pc.number];
    assert PendingOk(s, s.pc.number);
    forall n | n in t.pending ensures PendingOk(t, n) {
      assert PendingOk(s, n);
    }
    forall k | 0 <= k < |t.matched| ensures MatchOk(t, t.matched[k]) && !IsPending(t, t.matched[k].call) {
      if k < |s.matched| {
        assert MatchOk(s, s.matched[k]) && !IsPending(s, s.matched[k].call);
      }
    }
    forall a, b | 0 <= a < b < |t.matched| ensures t.matched[a].call != t.matched[b].call {
      assert !IsPending(s, s.matched[a].call);
    }
    forall c | 0 <= c < |t.calls| && t.calls[c].stage != Allocated ensures IsPending(t, c) || IsDelivered(t, c) {
      assert IsPending(s, c) || IsDelivered(s, c);
      assert t.matched[|s.matched|].call == hit;
      if IsDelivered(s, c) {
        var k :| 0 <= k < |s.matched| && s.matched[k].call == c;
        assert t.matched[k].call == c;
      }
    }
  }

  lemma FramesKept(s: State, t: State)
    requires FramesRegistered(s) && |s.calls| <= |t.calls|
    requires forall c | 0 <= c < |s.calls| ::
      t.calls[c].id == s.calls[c].id && (s.calls[c].stage == SentOut ==> t.calls[c].stage == SentOut)
    requires s.sent <= t.sent
    requires forall k | |s.sent| <= k < |t.sent| && t.sent[k].Unasked? && t.sent[k].frame.CallFrame? ::
      exists c :: 0 <= c < |t.calls| && t.calls[c].id == t.sent[k].frame.number && t.calls[c].stage == SentOut
    ensures FramesRegistered(t)
  {
    forall k | 0 <= k < |t.sent| && t.sent[k].Unasked? && t.sent[k].frame.CallFrame?
      ensures exists c :: 0 <= c < |t.calls| && t.calls[c].id == t.sent[k].frame.number && t.calls[c].stage == SentOut
    {
      if k < |s.sent| {
        assert t.sent[k] == s.sent[k];
        var c :| 0 <= c < |s.calls| && s.calls[c].id == s.sent[k].frame.number && s.calls[c].stage == SentOut;
        assert t.calls[c].stage == SentOut;
      }
    }
  }

  lemma CallsOkBegin(s: State)
    requires CallsOk(s)
    ensures CallsOk(Apply(s, BeginCall))
  {
    var t := Apply(s, BeginCall);
    WrapStep(|s.calls| + 1);
    FramesKept(s, t);
    if |t.calls| <= WORD {
      LedgerCalls(s, t);
    }
  }

  lemma CallsOkRegister(s: State, c: nat)
    requires CallsOk(s) && Enabled(s, RegisterCall(c))
    ensures CallsOk(Apply(s, RegisterCall(c)))
  {
    FramesKept(s, RegisterStep(s, c));
    if |s.calls| <= WORD {
      LedgerRegister(s, c);
    }
  }

  lemma CallsOkSend(s: State, c: nat, request: string, params: Json)
    requires CallsOk(s) && Enabled(s, SendCall(c, request, params))
    ensures CallsOk(Apply(s, SendCall(c, request, params)))
  {
    var t := Apply(s, SendCall(c, request, params));
    assert t.calls[c].stage == SentOut && t.calls[c].id == s.calls[c].id;
    FramesKept(s, t);
    if |s.calls| <= WORD {
      LedgerCalls(s, t);
    }
  }

  lemma CallsOkLookUp(s: State)
    requires CallsOk(s) && s.pc.Matching?
    ensures CallsOk(Apply(s, LookUpCall))
  {
    var t := LookUpStep(s);
    FramesKept(s, t);
    assert t.lookups + [] == t.lookups;
    if |s.calls| <= WORD {
      if s.pc.number in s.pending {
        LedgerHit(s);
      } else {
        LedgerMiss(s);
      }
    }
  }

  lemma CallsOkRead(s: State, m: Message)
    requires CallsOk(s) && Enabled(s, Read(m))
    ensures CallsOk(Apply(s, Read(m)))
  {
    var t := ReadStep(s, m);
    assert t.read[..|s.read|] == s.read;
    assert s.lookups + [] == s.lookups;
    if |s.calls| <= WORD {
      LedgerKept(s, t);
    }
  }

  ghost predicate QuietCalls(s: State, t: State) {
    && SameForCalls(s, t) && t.read == s.read
    && (t.pc.Matching? <==> s.pc.Matching?) && (s.pc.Matching? ==> t.pc == s.pc)
    && s.sent <= t.sent && (forall k | |s.sent| <= k < |t.sent| :: !t.sent[k].frame.CallFrame?)
  }

  /** The other steps make no call and look nothing up. */
  lemma QuietReadThread(s: State, l: Label)
    requires Enabled(s, l) && IsReadThread(l) && !l.LookUpCall? && !l.Read?
    ensures QuietCalls(s, Apply(s, l))
  {
    match l
    case StopReading =>
    case SendAnswer =>
    case EndInline(_, _) =>
    case StoreToken =>
    case SubmitJob =>
    case CancelToken =>
    case StopSync =>
    case JoinSync =>
    case StopPool =>
    case JoinPool =>
  }

  lemma QuietOthers(s: State, l: Label)
    requires Enabled(s, l) && !IsReadThread(l) && !l.BeginCall? && !l.RegisterCall? && !l.SendCall?
    ensures QuietCalls(s, Apply(s, l))
  {
  }

  lemma CallsOkKept(s: State, t: State)
    requires CallsOk(s) && QuietCalls(s, t)
    ensures CallsOk(t)
  {
    FramesKept(s, t);
    if |s.calls| <= WORD {
      LedgerKept(s, t);
    }
  }

  lemma CallsOkStep(s: State, l: Label)
    requires CallsOk(s) && Enabled(s, l)
    ensures CallsOk(Apply(s, l))
  {
    if l.BeginCall? {
      CallsOkBegin(s);
    } else if l.RegisterCall? {
      CallsOkRegister(s, l.c);
    } else if l.SendCall? {
      CallsOkSend(s, l.c, l.request, l.params);
    } else if l.LookUpCall? {
      CallsOkLookUp(s);
    } else if l.Read? {
      CallsOkRead(s, l.message);
    } else {
      if IsReadThread(l) {
        QuietReadThread(s, l);
      } else {
        QuietOthers(s, l);
      }
      CallsOkKept(s, Apply(s, l));
    }
  }

  // ---------------------------------------------------------------- what it means

  /** A client that answers a call it has seen, for the first time, is not ignored. */
  lemma FirstAnswerDelivered(s: State, k: nat)
    requires CallsOk(s) && |s.calls| <= WORD && s.pc.Matching?
    requires k < |s.sent| && s.sent[k].Unasked? && s.sent[k].frame.CallFrame? && s.sent[k].frame.number == s.pc.number
    requires forall i | 0 <= i < |Responses(s.read)| - 1 :: Responses(s.read)[i] != s.pc.number
    ensures LookUpStep(s).pc.Submitting? && LookUpStep(s).pc.job.CallbackJob?
    ensures var c := LookUpStep(s).pc.job.call;
      c < |s.calls| && s.calls[c].id == s.pc.number && IsDelivered(LookUpStep(s), c)
  {
    var c :| 0 <= c < |s.calls| && s.calls[c].id == s.pc.number && s.calls[c].stage == SentOut;
    assert IsPending(s, c) || IsDelivered(s, c);
    forall j | 0 <= j < |s.matched| ensures s.matched[j].call != c {
      assert MatchOk(s, s.matched[j]);
      assert Responses(s.read)[s.matched[j].lookup] == s.lookups[s.matched[j].lookup];
    }
    var t := LookUpStep(s);
    assert t.matched[|s.matched|].call == c;
  }
}
