/**
 What a ticker goroutine can always do: visit any target with all its calls, and on a mobile client wait in the
 select, where it takes the token of any parked handler or times out.
 */
module Visits {
  import opened Wrappers
  import opened Messages
  import opened Network
  import opened Structure
  import opened Counting
  import opened Tokens
  import opened Runs
  import Correspondence
  import PingNode

  lemma LoopMove(r: Run, step: Step) returns (q: Run)
    requires r.Valid() && Enabled(Last(r), step) && !IsSendStep(step) && !IsRecvStep(step)
    ensures Extends(r, q) && Last(q) == NextLoop(Last(r), step)
  {
    q := Extend(r, step);
  }

  /** The requests of one visit: ping, status, info, start, status, stop on a mobile client, info elsewhere. */
  predicate IsVisit(s: State, n: Node, msgs: seq<Message>) {
    && (forall m :: m in msgs ==> FromSender(m))
    && if n in s.clients then
         && |msgs| == 6 && msgs[0].PingRequest? && msgs[1].StatusRequest? && msgs[2].InfoRequest?
         && msgs[3].StartStreamRequest? && msgs[4].StatusRequest? && msgs[5].StopStreamRequest?
       else
         |msgs| == 1 && msgs[0].InfoRequest?
  }

  /** Conditions under which a call returns, with or without success. */
  predicate Returns(io: PingNode.Script) {
    !(io.open1 && io.marshal && !io.write1 && !io.open2)
  }

  /** A call of n to b that has returned as the conditions io have it. */
  predicate CallMade(d: Send, n: Node, b: Node, msg: Message, io: PingNode.Script) {
    d.from == n && d.to == b && d.msg == msg && d.cause.None? && d.pc.Returned? &&
    PingNode.Sent(b, msg, io).result == PingNode.Done(d.pc.ok)
  }

  /** Between s and s' the ticker of n has made the first k calls of a visit to b. */
  predicate Visited(s: State, s': State, n: Node, b: Node, msgs: seq<Message>, ios: seq<PingNode.Script>, k: nat) {
    && k <= |msgs| == |ios| && LoopOf(s', n) == Calling(b, k, None)
    && s'.clients == s.clients && s'.streaming == s.streaming && s'.crashed == s.crashed
    && s.sends <= s'.sends && |s'.sends| == |s.sends| + k
    && forall j :: 0 <= j < k ==> CallMade(s'.sends[|s.sends| + j], n, b, msgs[j], ios[j])
  }

  /** One call, whatever becomes of it short of a panic, and the ticker's return from it. */
  lemma OneCall(r: Run, n: Node, b: Node, k: nat, msg: Message, io: PingNode.Script) returns (q: Run)
    requires r.Valid() && n !in Last(r).crashed && LoopOf(Last(r), n) == Calling(b, k, None)
    requires Returns(io) && FromSender(msg) && k < |Program(Last(r), n)| && ProtocolOf(msg).kind == Program(Last(r), n)[k]
    ensures Extends(r, q) && LoopOf(Last(q), n) == Calling(b, k + 1, None)
    ensures var s, s' := Last(r), Last(q);
            && s'.clients == s.clients && s'.streaming == s.streaming && s'.crashed == s.crashed
            && |s'.sends| == |s.sends| + 1 && s.sends <= s'.sends && CallMade(s'.sends[|s.sends|], n, b, msg, io)
  {
    q := CallSent(r, n, b, k, msg, io);
    q := LoopMove(q, LoopReturn(n));
  }

  lemma CallSent(r: Run, n: Node, b: Node, k: nat, msg: Message, io: PingNode.Script) returns (q: Run)
    requires r.Valid() && n !in Last(r).crashed && LoopOf(Last(r), n) == Calling(b, k, None)
    requires Returns(io) && FromSender(msg) && k < |Program(Last(r), n)| && ProtocolOf(msg).kind == Program(Last(r), n)[k]
    ensures Extends(r, q) && LoopOf(Last(q), n) == Calling(b, k, Some(|Last(r).sends|))
    ensures var s, s' := Last(r), Last(q);
            && s'.clients == s.clients && s'.streaming == s.streaming && s'.crashed == s.crashed
            && |s'.sends| == |s.sends| + 1 && s.sends <= s'.sends && CallMade(s'.sends[|s.sends|], n, b, msg, io)
  {
    q := LoopMove(r, LoopCall(n, msg));
    q := Correspondence.SendRuns(q, |Last(r).sends|, io);
  }

  lemma {:induction false} CallsRun(r: Run, n: Node, b: Node, msgs: seq<Message>, ios: seq<PingNode.Script>, k: nat) returns (q: Run)
    requires r.Valid() && n !in Last(r).crashed && LoopOf(Last(r), n).Idle? && IsVisit(Last(r), n, msgs) && k <= |msgs|
    requires |ios| == |msgs| && forall io :: io in ios ==> Returns(io)
    ensures Extends(r, q) && Visited(Last(r), Last(q), n, b, msgs, ios, k)
  {
    if k == 0 {
      q := LoopMove(r, Begin(n, b));
    } else {
      q := CallsRun(r, n, b, msgs, ios, k - 1);
      KindsOfVisit(Last(r), Last(q), n, msgs, k - 1);
      q := OneCall(q, n, b, k - 1, msgs[k - 1], ios[k - 1]);
    }
  }

  lemma KindsOfVisit(s: State, s': State, n: Node, msgs: seq<Message>, k: nat)
    requires IsVisit(s, n, msgs) && s'.clients == s.clients && k < |msgs|
    ensures FromSender(msgs[k]) && k < |Program(s', n)| == |msgs| && ProtocolOf(msgs[k]).kind == Program(s', n)[k]
  {
    assert msgs[k] in msgs;
  }

  /** From every reachable state, a running ticker between visits can make all its calls to any target, each
      with or without success, and ends in the select on a mobile client and between visits elsewhere. */
  lemma VisitRuns(r: Run, n: Node, b: Node, msgs: seq<Message>, ios: seq<PingNode.Script>) returns (q: Run, e: Run)
    requires r.Valid() && n !in Last(r).crashed && LoopOf(Last(r), n).Idle? && IsVisit(Last(r), n, msgs)
    requires |ios| == |msgs| && forall io :: io in ios ==> Returns(io)
    ensures Extends(r, q) && Visited(Last(r), Last(q), n, b, msgs, ios, |msgs|)
    ensures Extends(q, e) && LoopOf(Last(e), n) == if n in Last(r).clients then Selecting else Idle
  {
    q := CallsRun(r, n, b, msgs, ios, |msgs|);
    KindsOfVisit(Last(r), Last(q), n, msgs, |msgs| - 1);
    e := LoopMove(q, LoopSelect(n));
  }

  /** A running mobile client that has made its six calls, with none in flight, can take the token of any
      handler parked there: that handler is let go and the client goes on to its next target. */
  lemma CanReceive(r: Run, i: nat) returns (q: Run)
    requires r.Valid() && i < |Last(r).streams| && Last(r).streams[i].recv == Parked
    requires var n := Last(r).streams[i].to;
             && n in Last(r).clients && n !in Last(r).crashed
             && LoopOf(Last(r), n).Calling? && LoopOf(Last(r), n).step == 6 && LoopOf(Last(r), n).call.None?
    ensures Extends(r, q)
    ensures var s, s', n := Last(r), Last(q), Last(r).streams[i].to;
            && LoopOf(s', n) == Idle
            && s'.streams == s.streams[i := s.streams[i].(recv := Released)]
            && Happened(s', n, Took) == Happened(s, n, Took) + 1
            && s'.sends == s.sends && s'.streaming == s.streaming && s'.crashed == s.crashed
  {
    var s, n := Last(r), Last(r).streams[i].to;
    Correspondence.StreamInRange(r, i);
    q := LoopMove(r, LoopSelect(n));
    assert Last(q) == SetLoop(s, n, Selecting);
    q := LoopMove(q, Receive(i));
    LogStep(s.log, Event(n, Took), n);
    LogStep(s.log + [Event(n, Took)], Event(n, Ended), n);
  }

  /** It can also time out, and then no handler is let go. */
  lemma CanTimeOut(r: Run, n: Node) returns (q: Run)
    requires r.Valid() && n in Last(r).clients && n !in Last(r).crashed
    requires LoopOf(Last(r), n).Calling? && LoopOf(Last(r), n).step == 6 && LoopOf(Last(r), n).call.None?
    ensures Extends(r, q) && LoopOf(Last(q), n) == Idle
    ensures Last(q) == Last(r).(loops := Last(q).loops)
  {
    q := LoopMove(r, LoopSelect(n));
    q := LoopMove(q, TimeOut(n));
  }

  /** Off the client no ticker waits in a select and no token is taken, in any run. */
  lemma RunnerNeverWaits(r: Run, t: nat, n: Node)
    requires r.Valid() && t < |r.states| && n !in r.states[t].clients
    ensures !LoopOf(r.states[t], n).Selecting? && Happened(r.states[t], n, Took) == 0
    ensures t < |r.steps| && r.steps[t] == LoopSelect(n) ==> LoopOf(r.states[t + 1], n) == Idle
  {
    Always(r, t);
    Conservation(r, t, n);
    assert LoopOk(r.states[t], n);
    if t < |r.steps| && r.steps[t] == LoopSelect(n) {
      assert r.TakenAt(t);
    }
  }

  /** On a mobile client every visit, in any run, makes its six calls and then waits. */
  lemma ClientAlwaysWaits(r: Run, t: nat, n: Node)
    requires r.Valid() && t < |r.steps| && n in r.states[t].clients && r.steps[t] == LoopSelect(n)
    ensures LoopOf(r.states[t], n).Calling? && LoopOf(r.states[t], n).step == 6 && LoopOf(r.states[t], n).call.None?
    ensures LoopOf(r.states[t + 1], n) == Selecting
  {
    Always(r, t);
    assert LoopOk(r.states[t], n);
    assert r.TakenAt(t);
  }
}
