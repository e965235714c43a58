/** The invariants together hold in every reachable state of the server. */
module Soundness {
  import opened Dispatch
  import opened Server
  import opened Control
  import opened Duties
  import opened SerialReplay
  import opened OutgoingCalls
  import opened Cancellation
  import opened TokenMap
  import opened CancelCause
  import opened CancelEffect
  import opened Jobs
  import opened Entries
  import opened Outcomes

  ghost predicate Sound(s: State) {
    Orderly(s) && Balanced(s) && RanOk(s.ran) && Replayed(s) && CallsOk(s) && TokensOwned(s) && Judged(s) && MapOk(s)
    && Caused(s) && EndedOk(s) && EncodingOk(s) && Effective(s) && PlacedOk(s) && CallbacksFit(s)
    && Newest(s)
  }

  lemma InitSound(h: Handlers, numWorkers: nat)
    requires BuiltIn(h)
    ensures Sound(Init(h, numWorkers))
  {
    InitOrderly(h, numWorkers);
    InitBalanced(h, numWorkers);
    InitReplayed(h, numWorkers);
    InitCallsOk(h, numWorkers);
    InitJudged(h, numWorkers);
    InitMapOk(h, numWorkers);
    InitCaused(h, numWorkers);
    InitEndedOk(h, numWorkers);
    InitEffective(h, numWorkers);
    InitPlacedOk(h, numWorkers);
    InitNewest(h, numWorkers);
  }

  lemma SoundStep(s: State, l: Label)
    requires Sound(s) && Enabled(s, l)
    ensures Sound(Apply(s, l))
  {
    OrderlyStep(s, l);
    BalancedStep(s, l);
    RanOkStep(s, l);
    ReplayedStep(s, l);
    CallsOkStep(s, l);
    TokensOwnedStep(s, l);
    JudgedStep(s, l);
    MapOkStep(s, l);
    CausedStep(s, l);
    EndedOkStep(s, l);
    EncodingOkStep(s, l);
    EffectiveStep(s, l);
    PlacedOkStep(s, l);
    CallbacksFitStep(s, l);
    NewestStep(s, l);
  }

  lemma {:induction false} RunSound(s: State, labels: seq<Label>, t: State)
    requires Sound(s) && IsRun(s, labels, t)
    ensures Sound(t)
    decreases |labels|
  {
    if labels == [] {
    } else {
      SoundStep(s, labels[0]);
      RunSound(Apply(s, labels[0]), labels[1..], t);
    }
  }

  lemma ReachableSound(s: State)
    requires Reachable(s)
    ensures Sound(s)
  {
    var h, numWorkers, labels :| BuiltIn(h) && IsRun(Init(h, numWorkers), labels, s);
    InitSound(h, numWorkers);
    RunSound(Init(h, numWorkers), labels, s);
  }

  lemma ReachableOrderly(s: State)
    requires Reachable(s)
    ensures Orderly(s)
  {
    ReachableSound(s);
  }

  lemma ReachableStep(s: State, l: Label)
    requires Reachable(s) && Enabled(s, l)
    ensures Reachable(Apply(s, l))
  {
    var h, numWorkers, labels :| BuiltIn(h) && IsRun(Init(h, numWorkers), labels, s);
    RunAppend(Init(h, numWorkers), labels, s, l);
  }

  lemma {:induction false} ReachableRun(s: State, labels: seq<Label>, t: State)
    requires Reachable(s) && IsRun(s, labels, t)
    ensures Reachable(t)
    decreases |labels|
  {
    if labels == [] {
    } else {
      ReachableStep(s, labels[0]);
      ReachableRun(Apply(s, labels[0]), labels[1..], t);
    }
  }
}
