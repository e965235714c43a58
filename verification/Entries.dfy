/** The two maps when an id is used again: the token map keeps the newest entry, the callback
    map the oldest. */
module Entries {
  import opened Protocol
  import opened Dispatch
  import opened Server
  import opened Control
  import opened Cancellation
  import opened Jobs

  /** Token t was made for a request under this id. */
  predicate MadeFor(s: State, t: int, id: RequestId) {
    && 0 <= t < |s.owners| && s.owners[t] < |s.read|
    && s.read[s.owners[t]].Request? && s.read[s.owners[t]].id == id
  }

  /** An entry is the last token made for its id. */
  ghost predicate Newest(s: State) {
    forall id, t | id in s.tokens && MadeFor(s, t, id) :: t <= s.tokens[id]
  }

  lemma InitNewest(h: Handlers, numWorkers: nat)
    ensures Newest(Init(h, numWorkers))
  {
  }

  lemma NewestKept(s: State, t: State)
    requires Newest(s) && TokensOwned(s) && t.owners == s.owners && s.read <= t.read
    requires forall id | id in t.tokens :: id in s.tokens && t.tokens[id] == s.tokens[id]
    ensures Newest(t)
  {
    forall id, k | id in t.tokens && MadeFor(t, k, id) ensures k <= t.tokens[id] {
      assert MadeFor(s, k, id);
    }
  }

  lemma NewestStore(s: State)
    requires Orderly(s) && TokensOwned(s) && Newest(s) && s.pc.Storing?
    ensures Newest(Apply(s, StoreToken))
  {
    var t := StoreTokenStep(s);
    forall id, k | id in t.tokens && MadeFor(t, k, id) ensures k <= t.tokens[id] {
      if k < |s.owners| {
        assert MadeFor(s, k, id);
      }
    }
  }

  lemma TokensStay(s: State, l: Label)
    requires Enabled(s, l) && !l.StoreToken? && !l.EraseToken?
    ensures Apply(s, l).tokens == s.tokens
  {
    if IsReadThread(l) {
      assert Apply(s, l) == ReadThreadStep(s, l);
    } else {
      assert Apply(s, l) == OtherStep(s, l);
    }
  }

  lemma OwnersStay(s: State, l: Label)
    requires Enabled(s, l) && !l.StoreToken?
    ensures Apply(s, l).owners == s.owners && s.read <= Apply(s, l).read
  {
    if !l.SubmitJob? {
      KeepsOwners(s, l);
    }
    if !l.Read? {
      ReadStays(s, l);
    }
  }

  lemma NewestStep(s: State, l: Label)
    requires Orderly(s) && TokensOwned(s) && Newest(s) && Enabled(s, l)
    ensures Newest(Apply(s, l))
  {
    if l.StoreToken? {
      NewestStore(s);
    } else {
      OwnersStay(s, l);
      if !l.EraseToken? {
        TokensStay(s, l);
      }
      NewestKept(s, Apply(s, l));
    }
  }

  /** A callback stays registered until a response under its id is looked up: a later call under
      the same id does not replace it. */
  lemma PendingStays(s: State, l: Label, n: int)
    requires Enabled(s, l) && n in s.pending && !(l.LookUpCall? && s.pc.number == n)
    ensures n in Apply(s, l).pending && Apply(s, l).pending[n] == s.pending[n]
  {
    if IsReadThread(l) {
      assert Apply(s, l) == ReadThreadStep(s, l);
    } else {
      assert Apply(s, l) == OtherStep(s, l);
    }
  }
}
