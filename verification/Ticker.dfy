/**
 The calls of a ticker goroutine over a run are its program, again and again, for each target; and a node
 that handles a mobile client's calls in order goes through the cycles of that program.
 */
module Ticker {
  import opened Wrappers
  import opened Messages
  import opened Network
  import opened Structure
  import opened Sequential
  import opened Flag
  import opened Unlocked
  import opened Tokens
  import Delivery

  /** The ticker of n is making its calls to b. */
  predicate Visiting(s: State, n: Node, b: Node) {
    LoopOf(s, n).Calling? && LoopOf(s, n).target == b
  }

  /** At step u the ticker of n calls b. */
  predicate CallsAt(r: Run, u: nat, n: Node, b: Node) {
    u < |r.steps| && u < |r.states| && r.steps[u].LoopCall? && r.steps[u].node == n && Visiting(r.states[u], n, b)
  }

  /** At step u the ticker of n has made all its calls to b. */
  predicate FinishesAt(r: Run, u: nat, n: Node, b: Node) {
    u < |r.steps| && u < |r.states| && r.steps[u] == LoopSelect(n) && Visiting(r.states[u], n, b)
  }

  /** The kinds of the calls n's ticker made to b in the first t steps, in order. */
  function CallsTo(r: Run, t: nat, n: Node, b: Node): seq<Kind> {
    if t == 0 then []
    else CallsTo(r, t - 1, n, b) + (if CallsAt(r, t - 1, n, b) then [ProtocolOf(r.steps[t - 1].msg).kind] else [])
  }

  /** How often n's ticker finished its calls to b in the first t steps. */
  function Finished(r: Run, t: nat, n: Node, b: Node): nat {
    if t == 0 then 0 else Finished(r, t - 1, n, b) + (if FinishesAt(r, t - 1, n, b) then 1 else 0)
  }

  function Rounds(p: seq<Kind>, k: nat): seq<Kind> {
    if k == 0 then [] else Rounds(p, k - 1) + p
  }

  /** The calls of the visit in progress. */
  function Partial(s: State, n: Node, b: Node): seq<Kind>
    requires LoopOk(s, n)
  {
    if Visiting(s, n, b) then Program(s, n)[..Progress(s, n)] else []
  }

  /** Send j is a call of n to b with the message m. */
  predicate Issued(s: State, j: nat, n: Node, b: Node, m: Message) {
    j < |s.sends| && s.sends[j].from == n && s.sends[j].to == b && s.sends[j].msg == m && s.sends[j].cause.None?
  }

  /** A ticker's call is the next send, a request of its message to the target. */
  lemma CallIssues(r: Run, u: nat, t: nat, n: Node, b: Node)
    requires r.Valid() && CallsAt(r, u, n, b) && u < t < |r.states|
    ensures Issued(r.states[t], |r.states[u].sends|, n, b, r.steps[u].msg) && ProtocolOf(r.steps[u].msg).Request?
  {
    assert r.TakenAt(u);
    assert Issued(r.states[u + 1], |r.states[u].sends|, n, b, r.steps[u].msg);
    Delivery.Persistence(r, u + 1, t);
  }

  /** Sender and handler steps leave every ticker alone. */
  lemma OtherStep(s: State, step: Step)
    requires Enabled(s, step) && (IsSendStep(step) || IsRecvStep(step))
    ensures Next(s, step).loops == s.loops && Next(s, step).clients == s.clients
  {
    if IsSendStep(step) {
      assert NextSend(s, step).loops == s.loops && NextSend(s, step).clients == s.clients;
    } else {
      assert NextRecv(s, step).loops == s.loops && NextRecv(s, step).clients == s.clients;
    }
  }

  lemma LoopsOk(r: Run, t: nat, n: Node)
    requires r.Valid() && t < |r.states|
    ensures LoopOk(r.states[t], n)
  {
    Always(r, t);
  }

  /** What one step adds to the calls of n's ticker to b. */
  predicate TickerMoves(s: State, step: Step, s': State, n: Node, b: Node)
    requires LoopOk(s, n) && LoopOk(s', n)
  {
    && Program(s', n) == Program(s, n)
    && if step.LoopCall? && step.node == n && Visiting(s, n, b) then
         Partial(s', n, b) == Partial(s, n, b) + [ProtocolOf(step.msg).kind]
       else if step == LoopSelect(n) && Visiting(s, n, b) then
         Partial(s, n, b) == Program(s, n) && Partial(s', n, b) == []
       else Partial(s', n, b) == Partial(s, n, b)
  }

  lemma TickerStep(s: State, step: Step, n: Node, b: Node)
    requires Enabled(s, step) && !IsSendStep(step) && !IsRecvStep(step) && LoopOk(s, n) && LoopOk(NextLoop(s, step), n)
    ensures TickerMoves(s, step, NextLoop(s, step), n, b)
  {
  }

  lemma StepMoves(s: State, step: Step, s': State, n: Node, b: Node)
    requires Enabled(s, step) && s' == Next(s, step) && LoopOk(s, n) && LoopOk(s', n)
    ensures TickerMoves(s, step, s', n, b)
  {
    if IsSendStep(step) || IsRecvStep(step) {
      OtherStep(s, step);
    } else {
      TickerStep(s, step, n, b);
    }
  }

  lemma RunMoves(r: Run, t: nat, n: Node, b: Node)
    requires r.Valid() && t < |r.steps| && LoopOk(r.states[t], n) && LoopOk(r.states[t + 1], n)
    ensures TickerMoves(r.states[t], r.steps[t], r.states[t + 1], n, b)
  {
    assert r.TakenAt(t);
    StepMoves(r.states[t], r.steps[t], r.states[t + 1], n, b);
  }

  lemma OneMoreCall(r: Run, t: nat, n: Node, b: Node)
    requires |r.states| == |r.steps| + 1 && t < |r.steps| && LoopOk(r.states[t], n) && LoopOk(r.states[t + 1], n)
    requires TickerMoves(r.states[t], r.steps[t], r.states[t + 1], n, b)
    requires CallsTo(r, t, n, b) == Rounds(Program(r.states[t], n), Finished(r, t, n, b)) + Partial(r.states[t], n, b)
    ensures CallsTo(r, t + 1, n, b) ==
            Rounds(Program(r.states[t + 1], n), Finished(r, t + 1, n, b)) + Partial(r.states[t + 1], n, b)
  {
  }

  /** In every reachable state, the calls a ticker has made to a target are its program as often as it has
      finished with that target, followed by the calls of the visit in progress; and each is a request sent
      to that target. */
  lemma {:induction false} TickerFollowsProgram(r: Run, t: nat, n: Node, b: Node)
    requires r.Valid() && t < |r.states|
    ensures LoopOk(r.states[t], n)
    ensures CallsTo(r, t, n, b) == Rounds(Program(r.states[t], n), Finished(r, t, n, b)) + Partial(r.states[t], n, b)
    ensures Program(r.states[t], n) ==
            if n in r.states[t].clients then [Ping, Status, Info, StartStream, Status, StopStream] else [Info]
    ensures forall u :: 0 <= u < t && CallsAt(r, u, n, b) ==>
              Issued(r.states[t], |r.states[u].sends|, n, b, r.steps[u].msg) && ProtocolOf(r.steps[u].msg).Request?
  {
    forall u | 0 <= u < t && CallsAt(r, u, n, b)
      ensures Issued(r.states[t], |r.states[u].sends|, n, b, r.steps[u].msg) && ProtocolOf(r.steps[u].msg).Request?
    {
      CallIssues(r, u, t, n, b);
    }
    if t == 0 {
      LoopsOk(r, 0, n);
    } else {
      TickerFollowsProgram(r, t - 1, n, b);
      LoopsOk(r, t, n);
      RunMoves(r, t - 1, n, b);
      OneMoreCall(r, t - 1, n, b);
    }
  }

  // ---- The flag-using calls of a mobile client

  /** The requests among ks that look at the flag. */
  function FlagKinds(ks: seq<Kind>): (ops: seq<Kind>)
    ensures FlagOps(ops)
  {
    if ks == [] then [] else FlagKinds(ks[..|ks| - 1]) + (if UsesFlag(ks[|ks| - 1]) then [ks[|ks| - 1]] else [])
  }

  lemma {:induction false} FlagKindsConcat(a: seq<Kind>, b: seq<Kind>)
    ensures FlagKinds(a + b) == FlagKinds(a) + FlagKinds(b)
  {
    if b == [] {
      assert a + b == a;
    } else {
      assert (a + b)[..|a + b| - 1] == a + b[..|b| - 1];
      FlagKindsConcat(a, b[..|b| - 1]);
    }
  }

  lemma FlagKindsAppend(ks: seq<Kind>, k: Kind)
    ensures FlagKinds(ks + [k]) == FlagKinds(ks) + (if UsesFlag(k) then [k] else [])
  {
    assert (ks + [k])[..|ks|] == ks;
  }

  lemma SixCalls()
    ensures FlagKinds([Ping] + [Status] + [Info] + [StartStream] + [Status] + [StopStream]) == CYCLE
  {
    FlagKindsAppend([], Ping);
    assert [] + [Ping] == [Ping];
    FlagKindsAppend([Ping], Status);
    FlagKindsAppend([Ping] + [Status], Info);
    FlagKindsAppend([Ping] + [Status] + [Info], StartStream);
    FlagKindsAppend([Ping] + [Status] + [Info] + [StartStream], Status);
    FlagKindsAppend([Ping] + [Status] + [Info] + [StartStream] + [Status], StopStream);
  }

  /** What a mobile client's program asks of a node's flag is the cycle, and any start of it a start of the
      cycle; any other node's program asks nothing. */
  lemma ProgramIsCycle(s: State, n: Node, p: nat)
    requires p <= |Program(s, n)|
    ensures FlagKinds(Program(s, n)) == if n in s.clients then CYCLE else []
    ensures FlagKinds(Program(s, n)[..p]) <= FlagKinds(Program(s, n))
  {
    var P := Program(s, n);
    if n in s.clients {
      SixCalls();
      assert P == [Ping] + [Status] + [Info] + [StartStream] + [Status] + [StopStream];
    } else {
      FlagKindsAppend([], Info);
      assert P == [] + [Info];
    }
    FlagKindsConcat(P[..p], P[p..]);
    assert P == P[..p] + P[p..];
  }

  lemma {:induction false} RoundsAreCycles(s: State, n: Node, k: nat)
    requires n in s.clients
    ensures FlagKinds(Rounds(Program(s, n), k)) == Cycles(k)
  {
    if k > 0 {
      RoundsAreCycles(s, n, k - 1);
      ProgramIsCycle(s, n, 0);
      FlagKindsConcat(Rounds(Program(s, n), k - 1), Program(s, n));
    }
  }

  lemma {:induction false} CyclesPrefix(f: nat, k: nat)
    requires k <= f
    ensures |Cycles(f)| == 4 * f && |Cycles(k)| == 4 * k && Cycles(k) <= Cycles(f)
  {
    if f > 0 {
      CyclesPrefix(f - 1, if k < f then k else f - 1);
    }
  }

  /** A mobile client's ticker asks of its target's flag the cycles, one after the other. */
  lemma TickerCycles(r: Run, t: nat, n: Node, b: Node)
    requires r.Valid() && t < |r.states| && n in r.states[t].clients
    ensures Cycles(Finished(r, t, n, b)) <= FlagKinds(CallsTo(r, t, n, b)) <= Cycles(Finished(r, t, n, b) + 1)
  {
    var s, f := r.states[t], Finished(r, t, n, b);
    TickerFollowsProgram(r, t, n, b);
    FlagKindsConcat(Rounds(Program(s, n), f), Partial(s, n, b));
    RoundsAreCycles(s, n, f);
    ProgramIsCycle(s, n, if Visiting(s, n, b) then Progress(s, n) else 0);
  }

  /**
   In every interleaving: a node b that, after any earlier requests, has handled the first k > 0 cycles of the
   calls of one mobile client's ticker, in the order made and with no other start, stop or status request in
   between, is not streaming. The first cycle is told inactive or active as it finds the flag, then SUCCESS
   (or ALREADY_STREAMING if the flag was up), active, STREAM_STOPPED; each later one inactive, SUCCESS, active,
   STREAM_STOPPED. All outcomes of b are those of the sequential object if and only if every write of its flag
   found it as its test saw it.
   */
  lemma ClientDrivesCycles(r: Run, t: nat, n: Node, b: Node, earlier: seq<Kind>, k: nat)
    requires r.Valid() && t < |r.states| && n in r.states[t].clients
    requires k > 0 && FlagOps(earlier) && 4 * k <= |FlagKinds(CallsTo(r, t, n, b))|
    requires OpsAt(r.states[t], b) == earlier + FlagKinds(CallsTo(r, t, n, b))[..4 * k]
    ensures b !in r.states[t].streaming
    ensures var os, flag := OutcomesAt(r.states[t].log, b), Fold(earlier, false);
            && |os| == |earlier| + 4 * k
            && CycleTold(flag, os[|earlier|..|earlier| + 4])
            && os[|earlier| + 4..] == Repeat(STEADY, k - 1)
            && (os == Replay(earlier, false) + CycleOutcomes(flag, k) <==> ChecksHold(r, t, b))
  {
    var f := Finished(r, t, n, b) + 1;
    TickerCycles(r, t, n, b);
    CyclesPrefix(f, f);
    CyclesPrefix(f, k);
    assert FlagKinds(CallsTo(r, t, n, b))[..4 * k] == Cycles(f)[..4 * k] == Cycles(k);
    CyclesInOrder(r, t, b, earlier, k);
  }
}
