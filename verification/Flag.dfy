/**
 The streaming flag of every node over every run of the network: first with the handlers
 interleaved freely, then when each write of the flag is made while no other handler of the
 node is between its first look at the flag and its last.
 */
module Flag {
  import opened Wrappers
  import opened Messages
  import opened Network
  import opened Structure
  import opened Sequential
  import opened Marks
  import Delivery

  /** The outcomes of the flag-using requests handled at n, in the order they took effect. */
  function OutcomesAt(log: seq<Event>, n: Node): seq<Outcome> {
    if log == [] then []
    else
      var e := log[|log| - 1];
      OutcomesAt(log[..|log| - 1], n) + (if e.node == n && e.what.Did? then [e.what.outcome] else [])
  }

  lemma OutcomesAppend(log: seq<Event>, e: Event, n: Node)
    ensures OutcomesAt(log + [e], n) == OutcomesAt(log, n) + (if e.node == n && e.what.Did? then [e.what.outcome] else [])
  {
    assert (log + [e])[..|log|] == log;
  }

  /** The requests handled at n so far, in the order they took effect. */
  function OpsAt(s: State, n: Node): (ops: seq<Kind>)
    ensures FlagOps(ops)
  {
    Ops(OutcomesAt(s.log, n))
  }

  // ---- Any interleaving

  predicate Engaged(r: Recv) {
    r.Setting? || r.Clearing? || (r.Building? && r.outcome.Some?)
  }

  /** What a step that is neither a test nor a write leaves alone: the flags, the outcomes, and the
      handlers that have looked at the flag. */
  ghost predicate Quiet(s: State, s': State, es: seq<Event>) {
    && s'.streaming == s.streaming
    && s'.log == s.log + es
    && (forall e :: e in es ==> !e.what.Did?)
    && (forall i :: 0 <= i < |s'.streams| && Engaged(s'.streams[i].recv) ==>
                      i < |s.streams| && s.streams[i].recv == s'.streams[i].recv && s.streams[i].to == s'.streams[i].to)
  }

  lemma SendIsQuiet(s: State, step: Step)
    requires Enabled(s, step) && IsSendStep(step)
    ensures Quiet(s, NextSend(s, step), [])
  {
  }

  lemma OtherIsQuiet(s: State, step: Step) returns (es: seq<Event>)
    requires Enabled(s, step) && !step.Test? && !step.Write?
    ensures Quiet(s, Next(s, step), es)
  {
    es := Next(s, step).log[|s.log|..];
    if IsSendStep(step) {
      SendIsQuiet(s, step);
    } else if IsRecvStep(step) {
      RecvIsQuiet(s, step, es);
    } else {
      LoopIsQuiet(s, step, es);
    }
  }

  lemma RecvIsQuiet(s: State, step: Step, es: seq<Event>)
    requires Enabled(s, step) && IsRecvStep(step) && !step.Test? && !step.Write?
    requires es == NextRecv(s, step).log[|s.log|..]
    ensures Quiet(s, NextRecv(s, step), es)
  {
    if step.ReadAll? || step.Build? {
      ReadAndBuildAreQuiet(s, step, es);
    }
  }

  lemma ReadAndBuildAreQuiet(s: State, step: Step, es: seq<Event>)
    requires Enabled(s, step) && (step.ReadAll? || step.Build?)
    requires es == NextRecv(s, step).log[|s.log|..]
    ensures Quiet(s, NextRecv(s, step), es)
  {
  }

  lemma LoopIsQuiet(s: State, step: Step, es: seq<Event>)
    requires Enabled(s, step) && !IsSendStep(step) && !IsRecvStep(step)
    requires es == NextLoop(s, step).log[|s.log|..]
    ensures Quiet(s, NextLoop(s, step), es)
  {
  }

  /** What a test or a write does: its handler moves, and at most its outcome is logged. */
  ghost predicate Looked(s: State, s': State, i: nat, recv: Recv, o: Option<Outcome>) {
    && i < |s.streams|
    && s'.streams == s.streams[i := s.streams[i].(recv := recv)]
    && s'.sends == s.sends
    && s'.log == s.log + (if o.Some? then [Event(s.streams[i].to, Did(o.value))] else [])
  }

  function WriteOutcome(r: Recv): Outcome {
    if r.Setting? then Success else StreamStopped
  }

  lemma TestEffect(s: State, i: nat) returns (recv: Recv, o: Option<Outcome>)
    requires Enabled(s, Test(i))
    ensures Looked(s, NextRecv(s, Test(i)), i, recv, o) && NextRecv(s, Test(i)).streaming == s.streaming
    ensures var flag := s.streams[i].to in s.streaming;
            var seen := Respond(s.streams[i].proto.kind, flag);
            if seen.Success? then recv == Setting && o == None
            else if seen.StreamStopped? then recv == Clearing && o == None
            else recv == Building(Some(seen)) && o == Some(seen)
  {
    var seen := Respond(s.streams[i].proto.kind, s.streams[i].to in s.streaming);
    recv := NextRecv(s, Test(i)).streams[i].recv;
    o := if seen.Success? || seen.StreamStopped? then None else Some(seen);
  }

  lemma WriteEffect(s: State, i: nat)
    requires Enabled(s, Write(i))
    ensures var o := WriteOutcome(s.streams[i].recv);
            && Looked(s, NextRecv(s, Write(i)), i, Building(Some(o)), Some(o))
            && NextRecv(s, Write(i)).streaming ==
               (if o.Success? then s.streaming + {s.streams[i].to} else s.streaming - {s.streams[i].to})
  {
  }

  lemma {:induction false} NoOutcomes(log: seq<Event>, es: seq<Event>, n: Node)
    requires forall e :: e in es ==> !e.what.Did?
    ensures OutcomesAt(log + es, n) == OutcomesAt(log, n)
  {
    if es == [] {
      assert log + es == log;
    } else {
      assert log + es == (log + es[..|es| - 1]) + [es[|es| - 1]];
      NoOutcomes(log, es[..|es| - 1], n);
      OutcomesAppend(log + es[..|es| - 1], es[|es| - 1], n);
    }
  }

  /** Outcomes and the fold after a test or a write. */
  lemma LookedOutcomes(s: State, s': State, i: nat, recv: Recv, o: Option<Outcome>, n: Node)
    requires Looked(s, s', i, recv, o)
    ensures OutcomesAt(s'.log, n) ==
            if o.Some? && s.streams[i].to == n then OutcomesAt(s.log, n) + [o.value] else OutcomesAt(s.log, n)
  {
    if o.Some? {
      OutcomesAppend(s.log, Event(s.streams[i].to, Did(o.value)), n);
    } else {
      assert s'.log == s.log;
    }
  }

  // ---- Any interleaving: what one step does

  /** The write of handler i finds the flag as its test saw it. */
  predicate CheckStillHolds(s: State, i: nat) {
    i < |s.streams| ==>
      (s.streams[i].recv.Setting? <==> s.streams[i].to !in s.streaming)
  }

  /** The step at u writes the flag of n. */
  predicate WritesFlag(r: Run, u: nat, n: Node) {
    u < |r.steps| && u < |r.states| && r.steps[u].Write? && r.steps[u].i < |r.states[u].streams| &&
    r.states[u].streams[r.steps[u].i].to == n
  }

  /** Up to step t, every write of n's flag found it as its test saw it. */
  ghost predicate ChecksHold(r: Run, t: nat, n: Node) {
    forall u :: 0 <= u < t && WritesFlag(r, u, n) ==> CheckStillHolds(r.states[u], r.steps[u].i)
  }

  /** What step t of the run does to n's outcomes and flag. A write adds a mark and leaves the flag as that
      says; any other outcome answers the flag as it is; nothing else moves either. */
  predicate Effect(r: Run, t: nat, n: Node, o: Option<Outcome>) {
    && t < |r.steps| && t + 1 < |r.states|
    && var before, after := n in r.states[t].streaming, n in r.states[t + 1].streaming;
    && OutcomesAt(r.states[t + 1].log, n) == (if o.Some? then OutcomesAt(r.states[t].log, n) + [o.value] else OutcomesAt(r.states[t].log, n))
    && if WritesFlag(r, t, n) then
         && o == Some(WriteOutcome(r.states[t].streams[r.steps[t].i].recv)) && after == o.value.Success?
         && (CheckStillHolds(r.states[t], r.steps[t].i) <==> before != after)
       else
         after == before && (o.Some? ==> !IsMark(o.value) && o.value == Respond(OpOf(o.value), before))
  }

  lemma RunEffect(r: Run, t: nat, n: Node) returns (o: Option<Outcome>)
    requires r.Valid() && t < |r.steps|
    ensures Effect(r, t, n, o)
  {
    var s, step := r.states[t], r.steps[t];
    assert r.TakenAt(t);
    o := None;
    if step.Test? {
      o := TestOutcome(s, step.i, n);
    } else if step.Write? {
      var w := WriteOutcome(s.streams[step.i].recv);
      WriteEffect(s, step.i);
      LookedOutcomes(s, NextRecv(s, step), step.i, Building(Some(w)), Some(w), n);
      o := if s.streams[step.i].to == n then Some(w) else None;
    } else {
      var es := OtherIsQuiet(s, step);
      NoOutcomes(s.log, es, n);
    }
  }

  lemma TestOutcome(s: State, i: nat, n: Node) returns (o: Option<Outcome>)
    requires Enabled(s, Test(i))
    ensures NextRecv(s, Test(i)).streaming == s.streaming
    ensures OutcomesAt(NextRecv(s, Test(i)).log, n) == if o.Some? then OutcomesAt(s.log, n) + [o.value] else OutcomesAt(s.log, n)
    ensures o.Some? ==> !IsMark(o.value) && o.value == Respond(OpOf(o.value), n in s.streaming)
  {
    var recv, seen := TestEffect(s, i);
    LookedOutcomes(s, NextRecv(s, Test(i)), i, recv, seen, n);
    o := if s.streams[i].to == n then seen else None;
  }

  lemma OutcomesGrowNext(r: Run, t: nat, n: Node)
    requires r.Valid() && t < |r.steps|
    ensures OutcomesAt(r.states[t].log, n) <= OutcomesAt(r.states[t + 1].log, n)
  {
    var o := RunEffect(r, t, n);
  }

  lemma {:induction false} OutcomesGrow(r: Run, v: nat, t: nat, n: Node)
    requires r.Valid() && v <= t < |r.states|
    ensures OutcomesAt(r.states[v].log, n) <= OutcomesAt(r.states[t].log, n)
  {
    if v < t {
      OutcomesGrow(r, v, t - 1, n);
      OutcomesGrowNext(r, t - 1, n);
      PrefixOfPrefix(OutcomesAt(r.states[v].log, n), OutcomesAt(r.states[t - 1].log, n), OutcomesAt(r.states[t].log, n));
    }
  }

  lemma OneMoreCheck(r: Run, t: nat, n: Node)
    ensures ChecksHold(r, t + 1, n) <==>
            ChecksHold(r, t, n) && (WritesFlag(r, t, n) ==> CheckStillHolds(r.states[t], r.steps[t].i))
  {
  }

  /**
   In every interleaving: SUCCESS and STREAM_STOPPED strictly alternate at a node, starting with SUCCESS, if
   and only if every write of its flag finds the flag as its test saw it; and the flag always is as the last
   of them says.
   */
  lemma {:induction false} AlternationExactly(r: Run, t: nat, n: Node)
    requires r.Valid() && t < |r.states|
    ensures Alternating(OutcomesAt(r.states[t].log, n)) <==> ChecksHold(r, t, n)
    ensures n in r.states[t].streaming <==> LastMark(OutcomesAt(r.states[t].log, n))
  {
    if t > 0 {
      AlternationExactly(r, t - 1, n);
      OneMoreCheck(r, t - 1, n);
      RunAlternates(r, t - 1, n);
    }
  }

  lemma RunAlternates(r: Run, t: nat, n: Node)
    requires r.Valid() && t < |r.steps| && (n in r.states[t].streaming <==> LastMark(OutcomesAt(r.states[t].log, n)))
    ensures n in r.states[t + 1].streaming <==> LastMark(OutcomesAt(r.states[t + 1].log, n))
    ensures Alternating(OutcomesAt(r.states[t + 1].log, n)) <==>
            Alternating(OutcomesAt(r.states[t].log, n)) && (WritesFlag(r, t, n) ==> CheckStillHolds(r.states[t], r.steps[t].i))
  {
    var o := RunEffect(r, t, n);
    if o.Some? {
      MarkAppend(OutcomesAt(r.states[t].log, n), o.value);
      AlternatingNext(OutcomesAt(r.states[t].log, n), o.value);
    }
  }

  /** Handler i of node n has tested the flag and is about to write it. */
  predicate HasTested(s: State, i: nat, n: Node, recv: Recv) {
    i < |s.streams| && s.streams[i].to == n && s.streams[i].recv == recv && (recv.Setting? || recv.Clearing?)
  }

  lemma JustTested(s: State, step: Step, i: nat, n: Node, recv: Recv)
    requires Enabled(s, step) && HasTested(Next(s, step), i, n, recv) && !HasTested(s, i, n, recv)
    ensures step == Test(i) && Next(s, step).streaming == s.streaming
    ensures n in s.streaming <==> recv.Clearing?
    ensures i < |s.streams| && s.streams[i].to == n
  {
    if step.Test? {
      var recv', o := TestEffect(s, step.i);
    } else if step.Write? {
      WriteEffect(s, step.i);
    } else {
      var es := OtherIsQuiet(s, step);
      assert Engaged(Next(s, step).streams[i].recv);
    }
  }

  /** A handler about to write tested the flag at one earlier step and has only waited since. */
  lemma {:induction false} WasTested(r: Run, w: nat, i: nat, n: Node, recv: Recv) returns (v: nat)
    requires r.Valid() && w < |r.states| && HasTested(r.states[w], i, n, recv)
    ensures v < w && r.steps[v] == Test(i) && i < |r.states[v].streams| && r.states[v].streams[i].to == n
    ensures r.states[v + 1].streaming == r.states[v].streaming && (n in r.states[v].streaming <==> recv.Clearing?)
    ensures forall x :: v < x <= w ==> HasTested(r.states[x], i, n, recv)
  {
    v := 0;
    if w == 0 {
      assert false;
    } else {
      assert r.TakenAt(w - 1);
      if HasTested(r.states[w - 1], i, n, recv) {
        v := WasTested(r, w - 1, i, n, recv);
      } else {
        v := w - 1;
        JustTested(r.states[v], r.steps[v], i, n, recv);
      }
    }
  }

  // ---- The flag is a fold

  predicate NeedsSuccess(o: Outcome) {
    o.AlreadyStreaming? || o.StreamStopped? || o.Active?
  }

  /** n has written SUCCESS. */
  predicate Succeeded(os: seq<Outcome>) {
    Success in os
  }

  ghost predicate AfterSuccess(os: seq<Outcome>) {
    forall k :: 0 <= k < |os| && NeedsSuccess(os[k]) ==> Succeeded(os[..k])
  }

  /** The flag is the fold of the requests behind os, whose outcomes that need a SUCCESS come after one. */
  ghost predicate Folded(os: seq<Outcome>, flag: bool) {
    flag == Fold(Ops(os), false) && AfterSuccess(os) && (flag ==> Succeeded(os))
  }

  ghost predicate FlagInv(s: State, n: Node) {
    Folded(OutcomesAt(s.log, n), n in s.streaming)
  }

  lemma OneMore(os: seq<Outcome>, o: Outcome)
    requires AfterSuccess(os) && (NeedsSuccess(o) ==> Succeeded(os))
    ensures AfterSuccess(os + [o])
    ensures Fold(Ops(os + [o]), false) == Apply(OpOf(o), Fold(Ops(os), false))
    ensures Succeeded(os) || o == Success ==> Succeeded(os + [o])
  {
    var os' := os + [o];
    forall k | 0 <= k < |os'| && NeedsSuccess(os'[k]) ensures Succeeded(os'[..k]) {
      assert os'[..k] == os[..k];
      assert k == |os| ==> os[..k] == os;
    }
    assert Ops(os')[..|os|] == Ops(os);
    assert os'[|os|] == o;
  }

  /** A raised flag, or a handler about to lower it, comes after a SUCCESS. */
  lemma RaisedBySuccess(r: Run, t: nat, n: Node)
    requires r.Valid() && t < |r.states| && n in r.states[t].streaming
    ensures Succeeded(OutcomesAt(r.states[t].log, n))
  {
    AlternationExactly(r, t, n);
    var a := MarkAt(OutcomesAt(r.states[t].log, n));
  }

  lemma StopFollowsSuccess(r: Run, t: nat, n: Node, o: Outcome)
    requires r.Valid() && Effect(r, t, n, Some(o)) && NeedsSuccess(o)
    ensures Succeeded(OutcomesAt(r.states[t].log, n))
  {
    var v := t;
    if WritesFlag(r, t, n) {
      assert r.TakenAt(t);
      v := WasTested(r, t, r.steps[t].i, n, Clearing);
    }
    RaisedBySuccess(r, v, n);
    OutcomesGrow(r, v, t, n);
  }

  lemma FoldedNext(os: seq<Outcome>, o: Outcome, flag: bool)
    requires Folded(os, flag) && (NeedsSuccess(o) ==> Succeeded(os))
    requires !IsMark(o) ==> o == Respond(OpOf(o), flag)
    ensures Folded(os + [o], if IsMark(o) then o.Success? else flag)
  {
    OneMore(os, o);
  }

  lemma RunKeepsFlag(r: Run, t: nat, n: Node)
    requires r.Valid() && t < |r.steps| && FlagInv(r.states[t], n)
    ensures FlagInv(r.states[t + 1], n)
  {
    var o := RunEffect(r, t, n);
    if o.Some? {
      if NeedsSuccess(o.value) {
        StopFollowsSuccess(r, t, n, o.value);
      }
      FoldedNext(OutcomesAt(r.states[t].log, n), o.value, n in r.states[t].streaming);
    }
  }

  /**
   In every interleaving: the flag of a node is the fold of the start and stop requests handled there,
   whatever became of the replies and whatever else was handled; and every ALREADY_STREAMING,
   STREAM_STOPPED or active outcome comes after a SUCCESS of that node.
   */
  lemma {:induction false} FlagIsFold(r: Run, t: nat, n: Node)
    requires r.Valid() && t < |r.states|
    ensures FlagInv(r.states[t], n)
  {
    if t > 0 {
      FlagIsFold(r, t - 1, n);
      RunKeepsFlag(r, t - 1, n);
    }
  }

  /** Two reachable states with the same start and stop requests handled at n agree on its flag. */
  lemma FlagDependsOnOpsOnly(r: Run, t: nat, q: Run, u: nat, n: Node)
    requires r.Valid() && t < |r.states| && q.Valid() && u < |q.states|
    requires OpsAt(r.states[t], n) == OpsAt(q.states[u], n)
    ensures n in r.states[t].streaming <==> n in q.states[u].streaming
  {
    FlagIsFold(r, t, n);
    FlagIsFold(q, u, n);
  }

  // ---- Status reports

  function FlagOfReply(m: Message): Option<bool> {
    match m
    case StatusResponse(b, _) => Some(b)
    case StartStreamResponse(_, b, _) => Some(b)
    case _ => None
  }

  /** State u of the run lies between the issue of the request and the sending of reply j, and there
      the replier's flag is what the reply says. */
  ghost predicate ObservedAt(r: Run, u: nat, d: Send, j: nat) {
    && u < |r.states|
    && d.cause.Some? && d.cause.value < |r.states[u].streams|
    && r.states[u].streams[d.cause.value].send < |r.states[u].sends| <= j
    && FlagOfReply(d.msg) == Some(d.from in r.states[u].streaming)
  }

  lemma {:induction false} RepliesObserved(r: Run, t: nat, j: nat) returns (u: nat)
    requires r.Valid() && t < |r.states| && j < |r.states[t].sends| && FlagOfReply(r.states[t].sends[j].msg).Some?
    ensures u < t && ObservedAt(r, u, r.states[t].sends[j], j)
  {
    u := 0;
    if t == 0 {
      assert false;
    } else {
      var s, s', step := r.states[t - 1], r.states[t], r.steps[t - 1];
      assert r.TakenAt(t - 1);
      Always(r, t - 1);
      if j < |s.sends| {
        StepKeeps(s, step);
        u := RepliesObserved(r, t - 1, j);
      } else {
        u := t - 1;
        ReplyReadsFlag(s, step);
      }
    }
  }

  lemma ReplyReadsFlag(s: State, step: Step)
    requires Inv(s) && Enabled(s, step) && |Next(s, step).sends| > |s.sends|
    ensures var d := Next(s, step).sends[|s.sends|];
            FlagOfReply(d.msg).Some? ==>
              && d.cause.Some? && d.cause.value < |s.streams|
              && s.streams[d.cause.value].send < |s.sends|
              && FlagOfReply(d.msg) == Some(d.from in s.streaming)
    ensures |Next(s, step).sends| == |s.sends| + 1
  {
    if step.Build? {
      assert StreamOk(s, step.i);
    }
  }

  /**
   In every interleaving, the boolean sent in every status (or start) response handled at a is the replier's
   flag in some state after a issued the request and before the response's stream existed. That is the
   boolean a reads when the response arrived in full; from a response whose Marshal failed a reads false,
   whatever the flag was.
   */
  lemma StatusLinearizes(r: Run, t: nat, i: nat) returns (u: nat)
    requires r.Valid() && t < |r.states| && i < |r.states[t].streams| && Handled(r.states[t].streams[i])
    requires r.states[t].streams[i].proto == Response(Status) || r.states[t].streams[i].proto == Response(StartStream)
    ensures var s := r.states[t];
            var m := s.streams[i];
            && m.send < |s.sends| && s.sends[m.send].cause.Some? && s.sends[m.send].cause.value < |s.streams|
            && u < t
            && s.streams[s.sends[m.send].cause.value].send < |r.states[u].sends|
            && |r.states[u].streams| <= i
            && FlagOfReply(s.sends[m.send].msg) == Some(m.from in r.states[u].streaming)
            && FlagOfReply(Payload(s, m)) == Some(m.wire == Eof(true) && m.from in r.states[u].streaming)
  {
    var s := r.states[t];
    Always(r, t);
    assert StreamOk(s, i);
    var j := s.streams[i].send;
    assert SendOk(s, j);
    u := RepliesObserved(r, t, j);
    Delivery.Persistence(r, u, t);
    NotThereYet(r, u, t, i, j);
  }

  /** State u is one of those up to state e in which send j has been issued. */
  predicate SinceIssue(r: Run, j: nat, u: nat, e: nat) {
    u <= e < |r.states| && j < |r.states[u].sends|
  }

  /**
   The boolean that a reads in a handled status (or start) response is the replier's flag in some state from
   the issue of the request to e, for any state e in which the response is on its way or later, if and only
   if the response arrived in full or the flag was down in some such state.
   */
  lemma StatusReadsExactly(r: Run, t: nat, i: nat, e: nat)
    requires r.Valid() && e <= t < |r.states| && i < |r.states[e].streams| && i < |r.states[t].streams| && Handled(r.states[t].streams[i])
    requires r.states[t].streams[i].proto == Response(Status) || r.states[t].streams[i].proto == Response(StartStream)
    ensures var s := r.states[t];
            var m := s.streams[i];
            && m.send < |s.sends| && s.sends[m.send].cause.Some? && s.sends[m.send].cause.value < |s.streams|
            && var j := s.streams[s.sends[m.send].cause.value].send;
            (exists u: nat :: SinceIssue(r, j, u, e) && FlagOfReply(Payload(s, m)) == Some(m.from in r.states[u].streaming)) <==>
            m.wire == Eof(true) || exists u: nat :: SinceIssue(r, j, u, e) && m.from !in r.states[u].streaming
  {
    var u := StatusLinearizes(r, t, i);
    if e <= u {
      Delivery.Persistence(r, e, u);
    }
    assert SinceIssue(r, r.states[t].streams[r.states[t].sends[r.states[t].streams[i].send].cause.value].send, u, e);
  }

  /** The streams of a send are younger than the send. */
  lemma NotThereYet(r: Run, u: nat, t: nat, i: nat, j: nat)
    requires r.Valid() && u <= t < |r.states| && i < |r.states[t].streams| && r.states[t].streams[i].send == j
    requires |r.states[u].sends| <= j
    ensures |r.states[u].streams| <= i
  {
    if i < |r.states[u].streams| {
      Delivery.Persistence(r, u, t);
      SendInRange(r, u, i);
    }
  }

  lemma SendInRange(r: Run, t: nat, i: nat)
    requires r.Valid() && t < |r.states| && i < |r.states[t].streams|
    ensures r.states[t].streams[i].send < |r.states[t].sends|
  {
    Always(r, t);
    assert StreamOk(r.states[t], i);
  }

  // ---- Handlers that do not overlap

  /** Between the handler's first look at the flag and its last look or write. */
  predicate InSection(t: Stream) {
    t.recv.Setting? || t.recv.Clearing? ||
    (t.recv.Building? && t.recv.outcome.Some? && !OpOf(t.recv.outcome.value).StopStream?)
  }

  /** No other handler of the same node is inside its section. */
  ghost predicate Alone(s: State, i: nat) {
    i < |s.streams| &&
    forall k :: 0 <= k < |s.streams| && k != i && s.streams[k].to == s.streams[i].to ==> !InSection(s.streams[k])
  }

  /** The flag is written only by handlers that are alone, as holding the mutex would ensure. */
  ghost predicate Serial(r: Run) {
    forall t :: 0 <= t < |r.steps| && t < |r.states| && r.steps[t].Write? ==> Alone(r.states[t], r.steps[t].i)
  }

  /** What a handler inside its section knows about the flag. */
  predicate SectionOk(t: Stream, flag: bool) {
    match t.recv
    case Setting => !flag
    case Clearing => flag
    case Building(Some(o)) => (NeedsSuccess(o) && !o.StreamStopped? ==> flag) && (o.Success? ==> flag) && (o.Inactive? ==> !flag)
    case _ => true
  }

  /** The text and the boolean of a reply say the same. */
  predicate Agrees(m: Message) {
    match m
    case StartStreamResponse(_, b, text) =>
      b && (text == StatusText(Some(Success)) || text == StatusText(Some(AlreadyStreaming)))
    case StatusResponse(b, text) => text == StatusText(Some(if b then Active else Inactive))
    case _ => true
  }

  /** n's outcomes so far are what the sequential object tells the same requests in the same order. */
  predicate Linear(s: State, n: Node) {
    OutcomesAt(s.log, n) == Replay(OpsAt(s, n), false)
  }

  /** Every handler's knowledge of n's flag holds, and every reply of n agrees with itself. */
  ghost predicate SectionsOk(s: State, n: Node) {
    && (forall i :: 0 <= i < |s.streams| && s.streams[i].to == n ==> SectionOk(s.streams[i], n in s.streaming))
    && (forall j :: 0 <= j < |s.sends| && s.sends[j].from == n ==> Agrees(s.sends[j].msg))
  }

  ghost predicate SerialInv(s: State, n: Node) {
    Linear(s, n) && SectionsOk(s, n)
  }

  lemma OneMoreReplay(os: seq<Outcome>, o: Outcome)
    ensures os + [o] == Replay(Ops(os + [o]), false) <==>
            os == Replay(Ops(os), false) && o == Respond(OpOf(o), Fold(Ops(os), false))
  {
    var ops := Ops(os + [o]);
    assert ops[..|os|] == Ops(os) && ops[|os|] == OpOf(o);
    assert (os + [o])[..|os|] == os && (os + [o])[|os|] == o;
    assert Replay(ops, false)[..|os|] == Replay(Ops(os), false);
  }

  lemma OtherStepsKeepSerial(s: State, step: Step, n: Node)
    requires Inv(s) && SectionsOk(s, n) && Enabled(s, step) && !step.Test? && !step.Write?
    ensures SectionsOk(Next(s, step), n)
  {
    var s' := Next(s, step);
    var es := OtherIsQuiet(s, step);
    forall i | 0 <= i < |s'.streams| && s'.streams[i].to == n ensures SectionOk(s'.streams[i], n in s'.streaming) {
      assert Engaged(s'.streams[i].recv) ==> s.streams[i].recv == s'.streams[i].recv;
    }
    forall j | 0 <= j < |s'.sends| && s'.sends[j].from == n ensures Agrees(s'.sends[j].msg) {
      if j < |s.sends| {
        StepKeeps(s, step);
      } else {
        NewRepliesAgree(s, step, n);
      }
    }
  }

  lemma NewRepliesAgree(s: State, step: Step, n: Node)
    requires Inv(s) && SectionsOk(s, n) && Enabled(s, step)
    requires |Next(s, step).sends| > |s.sends| && Next(s, step).sends[|s.sends|].from == n
    ensures |Next(s, step).sends| == |s.sends| + 1
    ensures Agrees(Next(s, step).sends[|s.sends|].msg)
  {
    if step.Build? {
      assert StreamOk(s, step.i);
      assert SectionOk(s.streams[step.i], n in s.streaming);
      BuiltAgrees(s, s.streams[step.i], n);
    }
  }

  lemma BuiltAgrees(s: State, t: Stream, n: Node)
    requires t.send < |s.sends| && t.recv.Building? && FromSender(Payload(s, t)) && PointOk(t)
    requires ProtocolOf(Payload(s, t)) == t.proto && SectionOk(t, n in s.streaming)
    ensures Agrees(ReplyTo(n, Payload(s, t), t.recv.outcome, n in s.streaming))
  {
  }

  lemma LookedKeepsSections(s: State, s': State, i: nat, recv: Recv, o: Option<Outcome>, n: Node)
    requires SectionsOk(s, n) && Looked(s, s', i, recv, o)
    requires s.streams[i].to == n ==> SectionOk(s.streams[i].(recv := recv), n in s'.streaming)
    requires (n in s'.streaming <==> n in s.streaming) || (s.streams[i].to == n && Alone(s, i))
    ensures SectionsOk(s', n)
  {
    forall k | 0 <= k < |s'.streams| && s'.streams[k].to == n ensures SectionOk(s'.streams[k], n in s'.streaming) {
      if k != i {
        assert SectionOk(s.streams[k], n in s.streaming);
      }
    }
  }

  /**
   Without the mutex, the outcomes of a node are those of the sequential object, on the requests in the
   order they took effect, exactly when every write of its flag finds the flag still as the handler's
   test saw it. (Overlapping requests might still be explained in another order.)
   */
  lemma {:induction false} SequentialExactly(r: Run, t: nat, n: Node)
    requires r.Valid() && t < |r.states|
    ensures Linear(r.states[t], n) <==> ChecksHold(r, t, n)
  {
    if t > 0 {
      SequentialExactly(r, t - 1, n);
      RunLinearizes(r, t - 1, n);
      OneMoreCheck(r, t - 1, n);
    }
  }

  lemma RunLinearizes(r: Run, t: nat, n: Node)
    requires r.Valid() && t < |r.steps|
    ensures Linear(r.states[t + 1], n) <==>
            Linear(r.states[t], n) && (WritesFlag(r, t, n) ==> CheckStillHolds(r.states[t], r.steps[t].i))
  {
    FlagIsFold(r, t, n);
    var o := RunEffect(r, t, n);
    if o.Some? {
      OneMoreReplay(OutcomesAt(r.states[t].log, n), o.value);
    }
  }

  // ---- Edges of the flag

  predicate Up(r: Run, t: nat, n: Node) {
    t < |r.states| && n in r.states[t].streaming
  }

  /** How often n's flag went up (or down) in the first t steps. */
  function Edges(r: Run, t: nat, n: Node, up: bool): nat {
    if t == 0 then 0
    else Edges(r, t - 1, n, up) + (if Up(r, t, n) == up && Up(r, t - 1, n) != up then 1 else 0)
  }

  lemma CountOneMore(os: seq<Outcome>, o: Outcome, x: Outcome)
    ensures CountOf(os + [o], x) == CountOf(os, x) + (if o == x then 1 else 0)
  {
    assert (os + [o])[..|os|] == os;
  }

  /** Rises minus falls is the flag; neither exceeds its outcomes, and both match them exactly if every write
      found the flag as its test saw it. */
  ghost predicate EdgesOk(r: Run, t: nat, n: Node)
    requires t < |r.states|
  {
    var os := OutcomesAt(r.states[t].log, n);
    var rises, falls := Edges(r, t, n, true), Edges(r, t, n, false);
    && rises == falls + (if n in r.states[t].streaming then 1 else 0)
    && rises <= CountOf(os, Success) && falls <= CountOf(os, StreamStopped)
    && (rises == CountOf(os, Success) && falls == CountOf(os, StreamStopped) <==> ChecksHold(r, t, n))
  }

  /** What one step of the run adds to the edges and to the outcomes. */
  lemma RunEdges(r: Run, t: nat, n: Node)
    requires r.Valid() && t < |r.steps|
    ensures var os, os' := OutcomesAt(r.states[t].log, n), OutcomesAt(r.states[t + 1].log, n);
            var before, after := Up(r, t, n), Up(r, t + 1, n);
            var up, down := CountOf(os', Success) - CountOf(os, Success), CountOf(os', StreamStopped) - CountOf(os, StreamStopped);
            if WritesFlag(r, t, n) then
              up == (if after then 1 else 0) && down == (if after then 0 else 1) &&
              (CheckStillHolds(r.states[t], r.steps[t].i) <==> before != after)
            else
              up == down == 0 && before == after
  {
    var o := RunEffect(r, t, n);
    if o.Some? {
      CountOneMore(OutcomesAt(r.states[t].log, n), o.value, Success);
      CountOneMore(OutcomesAt(r.states[t].log, n), o.value, StreamStopped);
    }
  }

  lemma EdgesNext(r: Run, t: nat, n: Node)
    requires r.Valid() && t < |r.steps| && EdgesOk(r, t, n)
    ensures EdgesOk(r, t + 1, n)
  {
    OneMoreCheck(r, t, n);
    RunEdges(r, t, n);
  }

  /**
   In every interleaving rising minus falling edges of a node's flag is the flag as 0 or 1, there are at
   most as many as SUCCESS and STREAM_STOPPED outcomes, and as many exactly when every write of the
   flag found it as its test saw it.
   */
  lemma {:induction false} EdgesAreOutcomes(r: Run, t: nat, n: Node)
    requires r.Valid() && t < |r.states|
    ensures EdgesOk(r, t, n)
  {
    if t > 0 {
      EdgesAreOutcomes(r, t - 1, n);
      EdgesNext(r, t - 1, n);
    }
  }

  lemma StepKeepsSections(s: State, step: Step, n: Node)
    requires Inv(s) && SectionsOk(s, n) && Enabled(s, step)
    requires step.Write? ==> Alone(s, step.i)
    ensures SectionsOk(Next(s, step), n)
  {
    if step.Test? {
      var recv, o := TestEffect(s, step.i);
      LookedKeepsSections(s, NextRecv(s, step), step.i, recv, o, n);
    } else if step.Write? {
      var o := WriteOutcome(s.streams[step.i].recv);
      WriteEffect(s, step.i);
      LookedKeepsSections(s, NextRecv(s, step), step.i, Building(Some(o)), Some(o), n);
    } else {
      OtherStepsKeepSerial(s, step, n);
    }
  }

  lemma {:induction false} SerialSections(r: Run, t: nat, n: Node)
    requires r.Valid() && Serial(r) && t < |r.states|
    ensures SectionsOk(r.states[t], n)
  {
    if t > 0 {
      SerialSections(r, t - 1, n);
      Always(r, t - 1);
      assert r.TakenAt(t - 1);
      StepKeepsSections(r.states[t - 1], r.steps[t - 1], n);
    }
  }

  /**
   In every serial run each node is linearizable: its outcomes are those of the sequential object on
   the requests in the order they took effect, and every reply's text and boolean agree.
   */
  lemma SerialRunsLinearize(r: Run, t: nat, n: Node)
    requires r.Valid() && Serial(r) && t < |r.states|
    ensures SerialInv(r.states[t], n) && ChecksHold(r, t, n)
  {
    SerialSections(r, t, n);
    forall u | 0 <= u < t && WritesFlag(r, u, n) ensures CheckStillHolds(r.states[u], r.steps[u].i) {
      assert r.TakenAt(u);
      SerialSections(r, u, n);
      assert SectionOk(r.states[u].streams[r.steps[u].i], n in r.states[u].streaming);
    }
    SequentialExactly(r, t, n);
  }

  lemma ReplayAlternates(ops: seq<Kind>)
    requires FlagOps(ops)
    ensures Alternating(Replay(ops, false))
  {
    var os := Replay(ops, false);
    forall a, b | -1 <= a < b < |os| && At(os, a) == At(os, b) && IsMark(os[b]) ensures Separated(os, a, b) {
      if a < 0 {
        FirstIsSuccess(ops, b);
      } else {
        Alternation(ops, a, b);
      }
    }
  }

  /**
   Serial runs: SUCCESS and STREAM_STOPPED strictly alternate at each node, starting with SUCCESS, and
   the flag is up exactly when successes exceed stops by one.
   */
  lemma SerialAlternation(r: Run, t: nat, n: Node)
    requires r.Valid() && Serial(r) && t < |r.states|
    ensures Alternating(OutcomesAt(r.states[t].log, n))
    ensures CountOf(OutcomesAt(r.states[t].log, n), Success) ==
            CountOf(OutcomesAt(r.states[t].log, n), StreamStopped) + (if n in r.states[t].streaming then 1 else 0)
  {
    SerialRunsLinearize(r, t, n);
    FlagIsFold(r, t, n);
    SuccessesMinusStops(OpsAt(r.states[t], n));
    ReplayAlternates(OpsAt(r.states[t], n));
  }
}
