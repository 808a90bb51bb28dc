/**
 The streaming flag as a sequential object: what a list of start, stop and status requests,
 handled one after the other, does to the flag and is told.
 */
module Sequential {
  import opened Messages

  function Apply(k: Kind, flag: bool): bool {
    match k
    case StartStream => true
    case StopStream => false
    case _ => flag
  }

  predicate FlagOps(ops: seq<Kind>) {
    forall k :: k in ops ==> UsesFlag(k)
  }

  /** The flag after the requests. */
  function Fold(ops: seq<Kind>, flag: bool): bool {
    if ops == [] then flag else Apply(ops[|ops| - 1], Fold(ops[..|ops| - 1], flag))
  }

  /** What each request is told. */
  function Replay(ops: seq<Kind>, flag: bool): (os: seq<Outcome>)
    requires FlagOps(ops)
    ensures |os| == |ops|
  {
    if ops == [] then []
    else
      var before := ops[..|ops| - 1];
      Replay(before, flag) + [Respond(ops[|ops| - 1], Fold(before, flag))]
  }

  /** The requests behind a list of outcomes. */
  function Ops(os: seq<Outcome>): (ops: seq<Kind>)
    ensures |ops| == |os| && FlagOps(ops)
    ensures forall k :: 0 <= k < |os| ==> ops[k] == OpOf(os[k])
  {
    seq(|os|, k requires 0 <= k < |os| => OpOf(os[k]))
  }

  lemma {:induction false} FoldConcat(a: seq<Kind>, b: seq<Kind>, flag: bool)
    ensures Fold(a + b, flag) == Fold(b, Fold(a, flag))
  {
    if b == [] {
      assert a + b == a;
    } else {
      assert (a + b)[..|a + b| - 1] == a + b[..|b| - 1];
      FoldConcat(a, b[..|b| - 1], flag);
    }
  }

  lemma {:induction false} ReplayConcat(a: seq<Kind>, b: seq<Kind>, flag: bool)
    requires FlagOps(a) && FlagOps(b)
    ensures FlagOps(a + b)
    ensures Replay(a + b, flag) == Replay(a, flag) + Replay(b, Fold(a, flag))
  {
    if b == [] {
      assert a + b == a;
    } else {
      var init := b[..|b| - 1];
      assert (a + b)[..|a + b| - 1] == a + init;
      ReplayConcat(a, init, flag);
      FoldConcat(a, init, flag);
    }
  }

  /** The outcome at position k depends on the requests before it only. */
  lemma {:induction false} ReplayAt(ops: seq<Kind>, flag: bool, k: nat)
    requires FlagOps(ops) && k < |ops|
    ensures Replay(ops, flag)[k] == Respond(ops[k], Fold(ops[..k], flag))
    ensures Replay(ops, flag)[..k] == Replay(ops[..k], flag)
  {
    ReplayConcat(ops[..k], ops[k..], flag);
    assert ops == ops[..k] + ops[k..];
    if k < |ops| - 1 {
      var init := ops[..|ops| - 1];
      assert init[..k] == ops[..k];
      ReplayAt(init, flag, k);
    }
  }

  /** With no successful stop in between, a raised flag stays up, and dually. */
  lemma {:induction false} FlagHolds(ops: seq<Kind>, flag: bool, a: nat, b: nat, up: bool)
    requires FlagOps(ops) && a <= b <= |ops|
    requires Fold(ops[..a], flag) == up
    requires forall k :: a <= k < b ==> Replay(ops, flag)[k] != (if up then StreamStopped else Success)
    ensures Fold(ops[..b], flag) == up
  {
    if a < b {
      FlagHolds(ops, flag, a, b - 1, up);
      ReplayAt(ops, flag, b - 1);
      assert ops[..b][..b - 1] == ops[..b - 1];
    }
  }

  /**
   SUCCESS and STREAM_STOPPED strictly alternate: between two equal ones lies the other, and
   from a lowered flag the first of them is SUCCESS.
   */
  lemma Alternation(ops: seq<Kind>, a: nat, b: nat)
    requires FlagOps(ops) && a < b < |ops|
    requires Replay(ops, false)[a] == Replay(ops, false)[b]
    requires Replay(ops, false)[a] == Success || Replay(ops, false)[a] == StreamStopped
    ensures exists k :: a < k < b &&
                        Replay(ops, false)[k] == (if Replay(ops, false)[a] == Success then StreamStopped else Success)
  {
    var up := Replay(ops, false)[a] == Success;
    ReplayAt(ops, false, a);
    ReplayAt(ops, false, b);
    assert ops[..a + 1][..a] == ops[..a];
    if forall k :: a < k < b ==> Replay(ops, false)[k] != (if up then StreamStopped else Success) {
      FlagHolds(ops, false, a + 1, b, up);
      assert false;
    }
  }

  lemma FirstIsSuccess(ops: seq<Kind>, b: nat)
    requires FlagOps(ops) && b < |ops|
    requires Replay(ops, false)[b] == StreamStopped
    ensures exists k :: 0 <= k < b && Replay(ops, false)[k] == Success
  {
    ReplayAt(ops, false, b);
    if forall k :: 0 <= k < b ==> Replay(ops, false)[k] != Success {
      FlagHolds(ops, false, 0, b, false);
      assert false;
    }
  }

  function CountOf(os: seq<Outcome>, o: Outcome): nat {
    if os == [] then 0 else CountOf(os[..|os| - 1], o) + (if os[|os| - 1] == o then 1 else 0)
  }

  /** The flag is up exactly when successes exceed stops by one; otherwise they are equal. */
  lemma {:induction false} SuccessesMinusStops(ops: seq<Kind>)
    requires FlagOps(ops)
    ensures CountOf(Replay(ops, false), Success) ==
            CountOf(Replay(ops, false), StreamStopped) + (if Fold(ops, false) then 1 else 0)
  {
    if ops != [] {
      var init := ops[..|ops| - 1];
      SuccessesMinusStops(init);
      assert Replay(ops, false)[..|ops| - 1] == Replay(init, false);
    }
  }

  // ---- The mobile client's cycle

  /** The flag-using requests one target iteration of the mobile client issues, in order. */
  const CYCLE: seq<Kind> := [Status, StartStream, Status, StopStream]

  const STEADY: seq<Outcome> := [Inactive, Success, Active, StreamStopped]

  const FIRST_WHILE_STREAMING: seq<Outcome> := [Active, AlreadyStreaming, Active, StreamStopped]

  function Cycles(k: nat): (ops: seq<Kind>)
    ensures FlagOps(ops)
  {
    if k == 0 then [] else Cycles(k - 1) + CYCLE
  }

  function Repeat(os: seq<Outcome>, k: nat): seq<Outcome> {
    if k == 0 then [] else Repeat(os, k - 1) + os
  }

  lemma OneCycle(flag: bool)
    ensures Fold(CYCLE, flag) == false
    ensures Replay(CYCLE, flag) == if flag then FIRST_WHILE_STREAMING else STEADY
  {
    var c1, c2, c3 := [Status], [Status, StartStream], [Status, StartStream, Status];
    assert c1[..0] == [] && c2[..1] == c1 && c3[..2] == c2 && CYCLE[..3] == c3;
    var o := Respond(Status, flag);
    assert Fold(c1, flag) == flag && Replay(c1, flag) == [o];
    assert Fold(c2, flag) && Replay(c2, flag) == [o, Respond(StartStream, flag)];
    assert Fold(c3, flag) && Replay(c3, flag) == [o, Respond(StartStream, flag), Active];
  }

  /**
   After any number of full cycles from any flag the node is not streaming, and every cycle after the
   first sees status false, then SUCCESS, then status true, then STREAM_STOPPED.
   */
  lemma {:induction false} ClientCycles(k: nat, flag: bool)
    requires k > 0
    ensures Fold(Cycles(k), flag) == false
    ensures Replay(Cycles(k), flag) == (if flag then FIRST_WHILE_STREAMING else STEADY) + Repeat(STEADY, k - 1)
  {
    if k == 1 {
      OneCycle(flag);
      assert Cycles(1) == CYCLE;
    } else {
      ClientCycles(k - 1, flag);
      AnotherCycle(k - 1, flag);
    }
  }

  /** What k > 0 cycles are told, from a flag. */
  function CycleOutcomes(flag: bool, k: nat): seq<Outcome>
    requires k > 0
  {
    (if flag then FIRST_WHILE_STREAMING else STEADY) + Repeat(STEADY, k - 1)
  }

  /** The same after any earlier requests. */
  lemma CyclesAfter(earlier: seq<Kind>, k: nat)
    requires k > 0 && FlagOps(earlier)
    ensures Fold(earlier + Cycles(k), false) == false
    ensures FlagOps(earlier + Cycles(k))
    ensures Replay(earlier + Cycles(k), false) == Replay(earlier, false) + CycleOutcomes(Fold(earlier, false), k)
  {
    FoldConcat(earlier, Cycles(k), false);
    ReplayConcat(earlier, Cycles(k), false);
    ClientCycles(k, Fold(earlier, false));
  }

  lemma AnotherCycle(k: nat, flag: bool)
    requires Fold(Cycles(k), flag) == false
    ensures Fold(Cycles(k + 1), flag) == false
    ensures Replay(Cycles(k + 1), flag) == Replay(Cycles(k), flag) + STEADY
  {
    FoldConcat(Cycles(k), CYCLE, flag);
    ReplayConcat(Cycles(k), CYCLE, flag);
    OneCycle(false);
  }
}
