/**
 Which interleavings break the check-then-set of a handler: between its test and its write, another handler
 of the node writes the flag, and the last one to do so leaves it as the write will.
 */
module Checks {
  import opened Wrappers
  import opened Messages
  import opened Network
  import opened Structure
  import opened Sequential
  import opened Marks
  import opened Flag
  import opened Replies

  /** The last step before w that is handler i's test. */
  function LastTest(r: Run, w: nat, i: nat): (v: Option<nat>)
    ensures v.Some? ==> v.value < w && v.value < |r.steps| && r.steps[v.value] == Test(i)
    ensures forall x :: (if v.Some? then v.value + 1 else 0) <= x < w && x < |r.steps| ==> r.steps[x] != Test(i)
  {
    if w == 0 then None
    else if w <= |r.steps| && r.steps[w - 1] == Test(i) then Some(w - 1)
    else LastTest(r, w - 1, i)
  }

  /** Since the test of the handler that writes at w, no other handler has written n's flag, or the last one
      to do so has left it as the test saw it: up for a write that lowers it, down for one that raises it. */
  predicate Undisturbed(r: Run, w: nat, n: Node) {
    w < |r.steps| && r.steps[w].Write? &&
    match LastTest(r, w, r.steps[w].i)
    case None => false
    case Some(v) => StillStands(r, v, w, n, !Raises(r, w))
  }

  lemma NoTestSince(r: Run, v: nat, w: nat, i: nat, n: Node, recv: Recv)
    requires r.Valid() && v < w < |r.states| && r.steps[v] == Test(i)
    requires forall x :: v < x <= w ==> HasTested(r.states[x], i, n, recv)
    ensures LastTest(r, w, i) == Some(v)
  {
    forall x | v < x < w ensures r.steps[x] != Test(i) {
      assert HasTested(r.states[x], i, n, recv);
      assert r.TakenAt(x);
    }
  }

  /** A write finds the flag as its test saw it if and only if its check was not disturbed. */
  lemma CheckHoldsExactly(r: Run, w: nat, n: Node)
    requires r.Valid() && WritesFlag(r, w, n)
    ensures CheckStillHolds(r.states[w], r.steps[w].i) <==> Undisturbed(r, w, n)
  {
    var i := r.steps[w].i;
    var recv := r.states[w].streams[i].recv;
    assert recv.Setting? || recv.Clearing? by {
      assert r.TakenAt(w);
    }
    var v := WasTested(r, w, i, n, recv);
    NoTestSince(r, v, w, i, n, recv);
    FlagSince(r, v + 1, w, n);
  }

  /**
   In every run, up to any state: the outcomes of a node are those of the sequential object in the order of
   effect, and likewise its SUCCESS and STREAM_STOPPED outcomes alternate, if and only if for every write of
   its flag no other handler wrote the flag since the writer's test, or the last one to do so left it as that
   test saw it.
   */
  lemma InterleavingsExactly(r: Run, t: nat, n: Node)
    requires r.Valid() && t < |r.states|
    ensures Linear(r.states[t], n) <==> forall w :: 0 <= w < t && WritesFlag(r, w, n) ==> Undisturbed(r, w, n)
    ensures Alternating(OutcomesAt(r.states[t].log, n)) <==>
            forall w :: 0 <= w < t && WritesFlag(r, w, n) ==> Undisturbed(r, w, n)
  {
    forall w | 0 <= w < t && WritesFlag(r, w, n)
      ensures CheckStillHolds(r.states[w], r.steps[w].i) <==> Undisturbed(r, w, n)
    {
      CheckHoldsExactly(r, w, n);
    }
    SequentialExactly(r, t, n);
    AlternationExactly(r, t, n);
  }
}
