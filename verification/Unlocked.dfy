/**
 What the outcomes of a node keep without the mutex: only a SUCCESS or a STREAM_STOPPED can be out of place,
 every other outcome is what the sequential object would answer there. So a client's cycles read as they
 should in every interleaving, but for the start of the first.
 */
module Unlocked {
  import opened Wrappers
  import opened Messages
  import opened Network
  import opened Structure
  import opened Sequential
  import opened Marks
  import opened Flag

  /** What the sequential object would answer to the request behind os[p] after those before it. */
  function Expected(os: seq<Outcome>, p: nat): Outcome
    requires p < |os|
  {
    Respond(OpOf(os[p]), Fold(Ops(os[..p]), false))
  }

  /** Every outcome but the marks is the expected one. */
  ghost predicate Honest(os: seq<Outcome>) {
    forall p {:trigger Expected(os, p)} :: 0 <= p < |os| ==> IsMark(os[p]) || os[p] == Expected(os, p)
  }

  lemma HonestNext(os: seq<Outcome>, o: Outcome)
    requires Honest(os) && (IsMark(o) || o == Respond(OpOf(o), Fold(Ops(os), false)))
    ensures Honest(os + [o])
  {
    var os' := os + [o];
    forall p | 0 <= p < |os'| ensures IsMark(os'[p]) || os'[p] == Expected(os', p) {
      if p < |os| {
        assert os'[..p] == os[..p] && os'[p] == os[p];
        assert IsMark(os[p]) || os[p] == Expected(os, p);
      } else {
        assert os'[..p] == os;
      }
    }
  }

  lemma HonestPrefix(os: seq<Outcome>, k: nat)
    requires Honest(os) && k <= |os|
    ensures Honest(os[..k])
  {
    var init := os[..k];
    forall p | 0 <= p < k ensures IsMark(init[p]) || init[p] == Expected(init, p) {
      assert init[..p] == os[..p];
      assert IsMark(os[p]) || os[p] == Expected(os, p);
    }
  }

  /** In every interleaving, the outcomes of a node are honest. */
  lemma {:induction false} OutcomesHonest(r: Run, t: nat, n: Node)
    requires r.Valid() && t < |r.states|
    ensures Honest(OutcomesAt(r.states[t].log, n))
  {
    if t > 0 {
      OutcomesHonest(r, t - 1, n);
      FlagIsFold(r, t - 1, n);
      var o := RunEffect(r, t - 1, n);
      if o.Some? {
        HonestNext(OutcomesAt(r.states[t - 1].log, n), o.value);
      }
    }
  }

  // ---- The client's cycle

  /** What one cycle can be told from a flag: if it finds the flag up, its start may still be a SUCCESS. */
  predicate CycleTold(flag: bool, os: seq<Outcome>) {
    if flag then os == FIRST_WHILE_STREAMING || os == [Active, Success, Active, StreamStopped] else os == STEADY
  }

  /** The last four outcomes answer the requests of a cycle. */
  predicate EndsInCycle(os: seq<Outcome>, b: nat) {
    && |os| == b + 4 && OpOf(os[b]) == Status && OpOf(os[b + 1]) == StartStream
    && OpOf(os[b + 2]) == Status && OpOf(os[b + 3]) == StopStream
  }

  lemma CycleKinds(os: seq<Outcome>, before: seq<Kind>)
    requires Ops(os) == before + CYCLE
    ensures EndsInCycle(os, |before|)
  {
    var b, ops := |before|, before + CYCLE;
    assert |ops| == b + 4 && ops[b] == Status && ops[b + 1] == StartStream && ops[b + 2] == Status && ops[b + 3] == StopStream;
  }

  /** An outcome p of an honest list, when the requests before it leave the flag at f. */
  predicate Told(os: seq<Outcome>, p: nat, f: bool) {
    p < |os| && (IsMark(os[p]) || os[p] == Respond(OpOf(os[p]), f))
  }

  lemma FourTold(os: seq<Outcome>, b: nat, flag: bool)
    requires EndsInCycle(os, b) && Told(os, b, flag) && Told(os, b + 1, flag) && Told(os, b + 2, true) && Told(os, b + 3, true)
    ensures CycleTold(flag, os[b..])
  {
    assert os[b..] == [os[b], os[b + 1], os[b + 2], os[b + 3]];
  }

  /** The flag that request c of a cycle should find. */
  lemma FoldUpTo(os: seq<Outcome>, before: seq<Kind>, c: nat)
    requires c < 4 && |os| == |before| + 4 && Ops(os) == before + CYCLE
    ensures Fold(Ops(os[..|before| + c]), false) == if c < 2 then Fold(before, false) else true
  {
    assert Ops(os[..|before| + c]) == Ops(os)[..|before| + c] == before + CYCLE[..c];
    FoldConcat(before, CYCLE[..c], false);
    FoldInCycle(c, Fold(before, false));
  }

  lemma FoldInCycle(c: nat, flag: bool)
    requires c < 4
    ensures Fold(CYCLE[..c], flag) == if c < 2 then flag else true
  {
    assert CYCLE[..2][..1] == CYCLE[..1] && CYCLE[..3][..2] == CYCLE[..2] && CYCLE[..1][..0] == [] == CYCLE[..0];
  }

  lemma ToldInCycle(os: seq<Outcome>, before: seq<Kind>, c: nat)
    requires Honest(os) && c < 4 && |os| == |before| + 4 && Ops(os) == before + CYCLE
    ensures Told(os, |before| + c, if c < 2 then Fold(before, false) else true)
  {
    FoldUpTo(os, before, c);
    assert IsMark(os[|before| + c]) || os[|before| + c] == Expected(os, |before| + c);
  }

  lemma AllTold(os: seq<Outcome>, before: seq<Kind>)
    requires Honest(os) && |os| == |before| + 4 && Ops(os) == before + CYCLE
    ensures var b, flag := |before|, Fold(before, false);
            Told(os, b, flag) && Told(os, b + 1, flag) && Told(os, b + 2, true) && Told(os, b + 3, true)
  {
    ToldInCycle(os, before, 0);
    ToldInCycle(os, before, 1);
    ToldInCycle(os, before, 2);
    ToldInCycle(os, before, 3);
  }

  lemma OneHonestCycle(os: seq<Outcome>, before: seq<Kind>)
    requires Honest(os) && Ops(os) == before + CYCLE
    ensures |os| == |before| + 4
    ensures CycleTold(Fold(before, false), os[|before|..])
  {
    CycleKinds(os, before);
    AllTold(os, before);
    FourTold(os, |before|, Fold(before, false));
  }

  /** Taking the last cycle off. */
  lemma OneCycleLess(os: seq<Outcome>, earlier: seq<Kind>, k: nat) returns (init: seq<Outcome>)
    requires k > 1 && Honest(os) && FlagOps(earlier) && Ops(os) == earlier + Cycles(k)
    ensures init <= os && |os| == |init| + 4 && Honest(init) && Ops(init) == earlier + Cycles(k - 1)
    ensures os[|init|..] == STEADY
  {
    var before := earlier + Cycles(k - 1);
    assert earlier + Cycles(k) == before + CYCLE;
    OneHonestCycle(os, before);
    init := os[..|before|];
    HonestPrefix(os, |before|);
    assert Ops(init) == Ops(os)[..|before|] == before;
    CyclesAfter(earlier, k - 1);
  }

  lemma {:induction false} HonestCycles(os: seq<Outcome>, earlier: seq<Kind>, k: nat)
    requires k > 0 && Honest(os) && FlagOps(earlier) && Ops(os) == earlier + Cycles(k)
    ensures |os| == |earlier| + 4 * k
    ensures CycleTold(Fold(earlier, false), os[|earlier|..|earlier| + 4])
    ensures os[|earlier| + 4..] == Repeat(STEADY, k - 1)
    decreases k
  {
    if k == 1 {
      assert Cycles(1) == CYCLE;
      OneHonestCycle(os, earlier);
      assert os[|earlier|..] == os[|earlier|..|earlier| + 4];
    } else {
      var init := OneCycleLess(os, earlier, k);
      HonestCycles(init, earlier, k - 1);
      OneMoreSteady(os, |earlier|, |init|);
      assert init == os[..|init|];
    }
  }

  lemma OneMoreSteady(os: seq<Outcome>, a: nat, b: nat)
    requires a + 4 <= b <= |os|
    ensures os[..b][a..a + 4] == os[a..a + 4]
    ensures os[a + 4..] == os[..b][a + 4..] + os[b..]
  {
  }

  /**
   In every interleaving: after any earlier requests, k > 0 full client cycles handled in order with no other
   start, stop or status leave the node not streaming. The first is told inactive or active as it finds the
   flag, then SUCCESS (or ALREADY_STREAMING if the flag was up), active, STREAM_STOPPED; each later one
   inactive, SUCCESS, active, STREAM_STOPPED. And all outcomes since the node started are those of the
   sequential object if and only if every write of its flag found it as its test saw it.
   */
  lemma CyclesInOrder(r: Run, t: nat, n: Node, earlier: seq<Kind>, k: nat)
    requires r.Valid() && t < |r.states| && k > 0
    requires FlagOps(earlier) && OpsAt(r.states[t], n) == earlier + Cycles(k)
    ensures n !in r.states[t].streaming
    ensures var os, flag := OutcomesAt(r.states[t].log, n), Fold(earlier, false);
            && |os| == |earlier| + 4 * k
            && CycleTold(flag, os[|earlier|..|earlier| + 4])
            && os[|earlier| + 4..] == Repeat(STEADY, k - 1)
            && (os == Replay(earlier, false) + CycleOutcomes(flag, k) <==> ChecksHold(r, t, n))
  {
    OutcomesHonest(r, t, n);
    HonestCycles(OutcomesAt(r.states[t].log, n), earlier, k);
    FlagIsFold(r, t, n);
    CyclesAfter(earlier, k);
    SequentialExactly(r, t, n);
  }
}
