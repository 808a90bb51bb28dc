/**
 The imperative procedures of PingNode and the network's steps are the same protocol: whatever the
 operating conditions, a procedure's result is reached by some continuation of every run, and what the
 network can end with is the result of the procedure under some conditions.
 */
module Correspondence {
  import opened Wrappers
  import opened Messages
  import opened Network
  import opened Sequential
  import opened Structure
  import Delivery
  import opened PingNode
  import opened Runs

  // ---- sendProtoMessage

  function ResultPc(r: PingNode.Result): SendPc {
    match r
    case Done(ok) => Returned(ok)
    case Panic => Panicked
  }

  /** State s with send j replaced and streams added. */
  function With(s: State, j: nat, d: Send, ts: seq<Stream>): State
    requires j < |s.sends|
  {
    s.(sends := s.sends[j := d], streams := s.streams + ts)
  }

  function Opening(s: State, j: nat, w: Option<Wire>): seq<Stream>
    requires j < |s.sends|
  {
    if w.None? then [] else [NewStream(s, j).(wire := w.value)]
  }

  /** State s after send j has run to its end under the conditions io. */
  function AfterSend(s: State, j: nat, io: Script): State
    requires j < |s.sends|
  {
    var d := s.sends[j];
    var a := Sent(d.to, d.msg, io);
    var first := if a.first.Some? then Some(|s.streams|) else None;
    var second := if a.second.Some? then Some(|s.streams| + 1) else None;
    var s' := With(s, j, d.(first := first, second := second, pc := ResultPc(a.result)),
                   Opening(s, j, a.first) + Opening(s, j, a.second));
    if a.result.Panic? then Crash(s', d.from) else s'
  }

  predicate CanRun(s: State, j: nat) {
    j < |s.sends| && s.sends[j].pc == Dialing && s.sends[j].from !in s.crashed
  }

  /** From every reachable state and for every script, a send about to start can end as the procedure does. */
  lemma SendRuns(r: Run, j: nat, io: Script) returns (q: Run)
    requires r.Valid() && CanRun(Last(r), j)
    ensures Extends(r, q) && Last(q) == AfterSend(Last(r), j, io)
  {
    var s := Last(r);
    NotDialled(r, j);
    var d, t := s.sends[j], NewStream(s, j);
    var first := Some(|s.streams|);
    if !io.open1 {
      q := SendMove(r, Dial(j, false));
      assert s.streams + [] == s.streams;
    } else {
      q := SendMove(r, Dial(j, true));
      assert Last(q) == With(s, j, d.(first := first, pc := Opened), [t]);
      q := OpenedRuns(q, s, j, io);
    }
  }

  lemma NotDialled(r: Run, j: nat)
    requires r.Valid() && CanRun(Last(r), j)
    ensures Last(r).sends[j].first.None? && Last(r).sends[j].second.None?
  {
    Always(r, |r.states| - 1);
    assert SendOk(Last(r), j);
  }

  /** The send has opened its first stream. */
  predicate Midway(r: Run, s: State, j: nat, pc: SendPc) {
    && |r.states| > 0 && CanRun(s, j) && s.sends[j].first.None? && s.sends[j].second.None?
    && Last(r) == With(s, j, s.sends[j].(first := Some(|s.streams|), pc := pc), [NewStream(s, j)])
  }

  lemma OpenedRuns(r: Run, s: State, j: nat, io: Script) returns (q: Run)
    requires r.Valid() && Midway(r, s, j, Opened) && io.open1
    ensures Extends(r, q) && Last(q) == AfterSend(s, j, io)
  {
    var d, t := s.sends[j].(first := Some(|s.streams|)), NewStream(s, j);
    if !io.marshal {
      q := SendMove(r, Marshal(j, false));
      assert Last(q) == With(s, j, d.(pc := Closing(false)), [t]);
      q := SendMove(q, CloseSend(j));
      assert Last(q) == With(s, j, d.(pc := Returned(false)), [t.(wire := Eof(false))]);
    } else {
      q := SendMove(r, Marshal(j, true));
      assert Last(q) == With(s, j, d.(pc := Marshalled), [t]);
      q := MarshalledRuns(q, s, j, io);
    }
  }

  lemma MarshalledRuns(r: Run, s: State, j: nat, io: Script) returns (q: Run)
    requires r.Valid() && Midway(r, s, j, Marshalled) && io.open1 && io.marshal
    ensures Extends(r, q) && Last(q) == AfterSend(s, j, io)
  {
    var d, t := s.sends[j].(first := Some(|s.streams|)), NewStream(s, j);
    if io.write1 {
      q := SendMove(r, WriteFirst(j, true));
      assert Last(q) == With(s, j, d.(pc := Closing(true)), [t.(wire := Carrying)]);
      q := SendMove(q, CloseSend(j));
      assert Last(q) == With(s, j, d.(pc := Returned(true)), [t.(wire := Eof(true))]);
    } else {
      q := SendMove(r, WriteFirst(j, false));
      assert Last(q) == With(s, j, d.(pc := Redialing), [t.(wire := Broken)]);
      q := RetryRuns(q, s, j, io);
    }
  }

  lemma RetryRuns(r: Run, s: State, j: nat, io: Script) returns (q: Run)
    requires r.Valid() && CanRun(s, j) && s.sends[j].second.None?
    requires io.open1 && io.marshal && !io.write1
    requires Last(r) == With(s, j, s.sends[j].(first := Some(|s.streams|), pc := Redialing), [NewStream(s, j).(wire := Broken)])
    ensures Extends(r, q) && Last(q) == AfterSend(s, j, io)
  {
    var d, t := s.sends[j].(first := Some(|s.streams|)), NewStream(s, j);
    var b := t.(wire := Broken);
    if !io.open2 {
      q := SendMove(r, Redial(j, false));
      assert Last(q) == Crash(With(s, j, d.(pc := Panicked), [b]), d.from);
    } else {
      q := SendMove(r, Redial(j, true));
      assert Last(q) == With(s, j, d.(second := Some(|s.streams| + 1), pc := Rewriting), [b, t]);
      q := RewriteRuns(q, s, j, io);
    }
  }

  lemma RewriteRuns(r: Run, s: State, j: nat, io: Script) returns (q: Run)
    requires r.Valid() && CanRun(s, j) && io.open1 && io.marshal && !io.write1 && io.open2
    requires Last(r) == With(s, j, s.sends[j].(first := Some(|s.streams|), second := Some(|s.streams| + 1), pc := Rewriting),
                             [NewStream(s, j).(wire := Broken), NewStream(s, j)])
    ensures Extends(r, q) && Last(q) == AfterSend(s, j, io)
  {
    var d, t := s.sends[j].(first := Some(|s.streams|), second := Some(|s.streams| + 1)), NewStream(s, j);
    var b := t.(wire := Broken);
    q := SendMove(r, WriteSecond(j, io.write2));
    if io.write2 {
      assert Last(q) == With(s, j, d.(pc := Closing(true)), [b, t.(wire := Carrying)]);
      q := SendMove(q, CloseSend(j));
      assert Last(q) == With(s, j, d.(pc := Returned(true)), [b, t.(wire := Eof(true))]);
    } else {
      assert Last(q) == With(s, j, d.(pc := Returned(false)), [b, b]);
    }
  }

  /** Send j has ended as the attempt a did. */
  predicate EndsAs(s: State, j: nat, a: Attempt) {
    && j < |s.sends| && s.sends[j].to == a.to && s.sends[j].msg == a.msg
    && s.sends[j].pc == ResultPc(a.result)
    && WireOf(s, s.sends[j].first) == a.first && WireOf(s, s.sends[j].second) == a.second
  }

  /** What running send j to its end does, in terms of its attempt. */
  predicate SendEnded(s: State, s': State, j: nat, a: Attempt)
    requires j < |s.sends|
  {
    && |s'.sends| == |s.sends| && s'.sends[..j] == s.sends[..j]
    && EndsAs(s', j, a) && s'.sends[j].from == s.sends[j].from && s'.sends[j].cause == s.sends[j].cause
    && s.streams <= s'.streams && s'.streaming == s.streaming
    && s'.crashed == (if a.result.Panic? then s.crashed + {s.sends[j].from} else s.crashed)
  }

  lemma AfterSendEnded(s: State, j: nat, io: Script)
    requires CanRun(s, j)
    ensures SendEnded(s, AfterSend(s, j, io), j, PingNode.Sent(s.sends[j].to, s.sends[j].msg, io))
  {
  }

  /** What the invariant lets a finished send look like is what some script produces. */
  lemma SomeScript(to: Node, msg: Message, result: PingNode.Result, first: Option<Wire>, second: Option<Wire>) returns (io: Script)
    requires WiresOk(ResultPc(result), first, second)
    ensures Sent(to, msg, io) == Attempt(to, msg, result, first, second)
  {
    io := Script(first.Some?, first != Some(Eof(false)), first != Some(Broken),
                 result != Panic, second == Some(Eof(true)));
  }

  /**
   From every reachable state, the ways in which a send about to start can end, whatever else happens
   meanwhile, are exactly the results of the procedure over all scripts.
   */
  lemma ProcedureMatchesNetwork(r: Run, j: nat, a: Attempt)
    requires r.Valid() && CanRun(Last(r), j)
    ensures (exists q :: Extends(r, q) && EndsAs(Last(q), j, a)) <==>
            (exists io :: Sent(Last(r).sends[j].to, Last(r).sends[j].msg, io) == a)
  {
    var d := Last(r).sends[j];
    if q :| Extends(r, q) && EndsAs(Last(q), j, a) {
      Delivery.Persistence(q, |r.states| - 1, |q.states| - 1);
      Always(q, |q.states| - 1);
      assert SendOk(Last(q), j);
      var io := SomeScript(d.to, d.msg, a.result, a.first, a.second);
      assert Sent(d.to, d.msg, io) == a;
    }
    if io :| Sent(d.to, d.msg, io) == a {
      var q := SendRuns(r, j, io);
      AfterSendEnded(Last(r), j, io);
    }
  }

  // ---- Arrival

  /** A stream that has not been accepted, whatever its sender has done to it, can be accepted by a running
      receiver, and can be lost. */
  lemma ArrivalRuns(r: Run, i: nat) returns (q: Run, e: Run)
    requires r.Valid() && i < |Last(r).streams| && Last(r).streams[i].recv == Unaccepted
    ensures Last(r).streams[i].to !in Last(r).crashed ==>
              && Extends(r, q) && Last(q).streams == Last(r).streams[i := Last(r).streams[i].(recv := Reading)]
              && Last(q).log == Last(r).log + [Event(Last(r).streams[i].to, Accepted)]
    ensures Extends(r, e) && Last(e) == Last(r).(streams := Last(r).streams[i := Last(r).streams[i].(recv := Lost)])
  {
    StreamInRange(r, i);
    q := r;
    if Last(r).streams[i].to !in Last(r).crashed {
      q := RecvMove(r, Accept(i));
    }
    e := RecvMove(r, Lose(i));
  }

  lemma StreamInRange(r: Run, i: nat)
    requires r.Valid() && i < |Last(r).streams|
    ensures Last(r).streams[i].send < |Last(r).sends|
  {
    Always(r, |r.states| - 1);
    assert StreamOk(Last(r), i);
  }

  // ---- Request handlers

  /** The handler of stream i, taken alone, looks at the flag and settles. */
  function AfterLook(s: State, i: nat): State
    requires i < |s.streams|
  {
    var t := s.streams[i];
    var k, flag := t.proto.kind, t.to in s.streaming;
    if UsesFlag(k) then
      var o := Respond(k, flag);
      Log(SetFlag(SetRecv(s, i, Building(Some(o))), t.to, Apply(k, flag)), t.to, Did(o))
    else SetRecv(s, i, Building(None))
  }

  lemma LookRuns(r: Run, i: nat) returns (q: Run)
    requires r.Valid() && RecvAt(Last(r), i, Reading) && Last(r).streams[i].wire.Eof?
    requires Last(r).streams[i].proto.Request? && IdDefined(Payload(Last(r), Last(r).streams[i]))
    ensures Extends(r, q) && Last(q) == AfterLook(Last(r), i)
  {
    var s := Last(r);
    q := RecvMove(r, ReadAll(i));
    if UsesFlag(s.streams[i].proto.kind) {
      assert Last(q) == SetRecv(s, i, Testing);
      q := TestRuns(q, s, i);
    }
  }

  lemma TestRuns(r: Run, s: State, i: nat) returns (q: Run)
    requires r.Valid() && RecvAt(s, i, Reading) && UsesFlag(s.streams[i].proto.kind) && Last(r) == SetRecv(s, i, Testing)
    ensures Extends(r, q) && Last(q) == AfterLook(s, i)
  {
    var t := s.streams[i];
    var o := Respond(t.proto.kind, t.to in s.streaming);
    q := RecvMove(r, Test(i));
    if o.Success? {
      assert Last(q) == SetRecv(s, i, Setting);
      q := RecvMove(q, Write(i));
      assert Last(q).streams == AfterLook(s, i).streams;
    } else if o.StreamStopped? {
      assert Last(q) == SetRecv(s, i, Clearing);
      q := RecvMove(q, Write(i));
      assert Last(q).streams == AfterLook(s, i).streams;
    } else {
      assert Last(q).streams == AfterLook(s, i).streams;
      assert Last(q).streaming == AfterLook(s, i).streaming;
    }
  }

  /** Send j is the attempt a, made by n's handler of stream i. */
  predicate SentBy(s: State, j: nat, a: Attempt, n: Node, i: nat) {
    EndsAs(s, j, a) && s.sends[j].from == n && s.sends[j].cause == Some(i)
  }

  /** The network's handler of stream i has ended as v says, with what it sent; a handler whose process has
      gone down is left where it was. */
  predicate HandlerEnds(s: State, s': State, i: nat, sent: seq<Attempt>, v: Verdict)
    requires i < |s.streams|
  {
    var n := s.streams[i].to;
    && |s.streams| <= |s'.streams| && (forall k :: 0 <= k < |s.streams| && k != i ==> s'.streams[k] == s.streams[k])
    && s.sends <= s'.sends && |s'.sends| == |s.sends| + |sent|
    && (forall k :: 0 <= k < |sent| ==> SentBy(s', |s.sends| + k, sent[k], n, i))
    && s'.crashed == (if v.Dead? then s.crashed + {n} else s.crashed)
    && match v
       case Waiting => s'.streams[i].recv == Parked
       case Error => s'.streams[i].recv == Failed
       case Dead => s'.streams[i].recv == Died || s'.streams[i].recv == Replying
  }

  function AfterBuild(s: State, i: nat, resp: Message): State
    requires i < |s.streams|
  {
    var t := s.streams[i];
    s.(sends := s.sends + [NewSend(t.to, t.from, resp, Some(i))],
       streams := s.streams[i := t.(recv := Replying, reply := Some(|s.sends|))])
  }

  /** The handler has seen how its reply ended, unless that took its process down. */
  function AfterConclude(s: State, i: nat, result: PingNode.Result): State
    requires i < |s.streams|
  {
    match Finish(s.streams[i].proto.kind, result)
    case Waiting => Log(SetRecv(s, i, Parked), s.streams[i].to, Reached)
    case Error => Log(SetRecv(s, i, Failed), s.streams[i].to, Ended)
    case Dead => s
  }

  lemma ConcludeRuns(r: Run, i: nat, j: nat, result: PingNode.Result) returns (q: Run)
    requires r.Valid() && i < |Last(r).streams| && Last(r).streams[i].send < |Last(r).sends|
    requires Last(r).streams[i].recv == Replying && Last(r).streams[i].reply == Some(j)
    requires j < |Last(r).sends| && Last(r).sends[j].pc == ResultPc(result)
    requires result.Done? ==> Last(r).streams[i].to !in Last(r).crashed
    ensures Extends(r, q) && Last(q) == AfterConclude(Last(r), i, result)
  {
    q := r;
    if result.Done? {
      q := RecvMove(r, Conclude(i));
    }
  }

  lemma AnswerEnds(s: State, c: State, i: nat, resp: Message, a: Attempt)
    requires i < |s.streams| && SendEnded(AfterBuild(s, i, resp), c, |s.sends|, a)
    ensures HandlerEnds(s, AfterConclude(c, i, a.result), i, [a], Finish(s.streams[i].proto.kind, a.result))
    ensures AfterConclude(c, i, a.result).streaming == s.streaming
  {
    var e := AfterConclude(c, i, a.result);
    assert AfterBuild(s, i, resp).sends[..|s.sends|] == s.sends;
    assert c.sends[..|s.sends|] == s.sends;
    assert e.sends == c.sends && forall k :: 0 <= k < |c.streams| ==> e.streams[k].wire == c.streams[k].wire;
    assert EndsAs(e, |s.sends|, a);
  }

  /** From a handler about to build its reply: the reply is attempted and the handler ends accordingly. */
  lemma AnswerRuns(r: Run, i: nat, io: Script) returns (q: Run)
    requires r.Valid() && Enabled(Last(r), Build(i))
    ensures var s, t := Last(r), Last(r).streams[i];
            var a := PingNode.Sent(t.from, ReplyTo(t.to, Payload(s, t), t.recv.outcome, t.to in s.streaming), io);
            && Extends(r, q) && Last(q).streaming == s.streaming
            && HandlerEnds(s, Last(q), i, [a], Finish(t.proto.kind, a.result))
  {
    var s, t := Last(r), Last(r).streams[i];
    var resp := ReplyTo(t.to, Payload(s, t), t.recv.outcome, t.to in s.streaming);
    q := RecvMove(r, Build(i));
    assert Last(q) == AfterBuild(s, i, resp);
    q := ReplyRuns(q, s, i, resp, io);
    q := ReplyEnds(q, s, i, resp, PingNode.Sent(t.from, resp, io));
  }

  lemma ReplyEnds(r: Run, s: State, i: nat, resp: Message, a: Attempt) returns (q: Run)
    requires r.Valid() && i < |s.streams| && s.streams[i].send < |s.sends| && s.streams[i].to !in s.crashed
    requires SendEnded(AfterBuild(s, i, resp), Last(r), |s.sends|, a)
    ensures Extends(r, q) && Last(q).streaming == s.streaming
    ensures HandlerEnds(s, Last(q), i, [a], Finish(s.streams[i].proto.kind, a.result))
  {
    AnswerEnds(s, Last(r), i, resp, a);
    assert Last(r).streams[i] == AfterBuild(s, i, resp).streams[i];
    q := ConcludeRuns(r, i, |s.sends|, a.result);
  }

  lemma ReplyRuns(r: Run, s: State, i: nat, resp: Message, io: Script) returns (q: Run)
    requires r.Valid() && i < |s.streams| && s.streams[i].to !in s.crashed && Last(r) == AfterBuild(s, i, resp)
    ensures Extends(r, q) && SendEnded(Last(r), Last(q), |s.sends|, PingNode.Sent(s.streams[i].from, resp, io))
  {
    q := SendRuns(r, |s.sends|, io);
    AfterSendEnded(Last(r), |s.sends|, io);
  }

  /** What the handler of stream i can be given: a failed read at any time, the sender's message or the empty
      one once the sender has closed the stream. */
  predicate CanRead(s: State, i: nat, data: Inbound) {
    RecvAt(s, i, Reading) && (data.ReadError? || (s.streams[i].wire.Eof? && data == Parsed(Payload(s, s.streams[i]))))
  }

  /**
   From every reachable state, for whatever a request handler reads and every script: left alone it can do to
   the flag what the imperative handler does, send what that sends and end as that ends.
   */
  lemma RequestRuns(r: Run, i: nat, data: Inbound, io: Script) returns (q: Run, flag: bool, sent: seq<Attempt>, v: Verdict)
    requires r.Valid() && CanRead(Last(r), i, data) && Last(r).streams[i].proto.Request?
    ensures var s, t := Last(r), Last(r).streams[i];
            && (data.Parsed? ==> ProtocolOf(data.m) == Request(t.proto.kind))
            && Ran(t.to, t.proto.kind, t.from, data, io, t.to in s.streaming, flag, [], sent, v)
            && Extends(r, q) && HandlerEnds(s, Last(q), i, sent, v)
            && Last(q).streaming == (if flag then s.streaming + {t.to} else s.streaming - {t.to})
  {
    var s, t := Last(r), Last(r).streams[i];
    ReadsOwnProtocol(r, i);
    if data.ReadError? {
      q := RecvMove(r, ReadFails(i));
      flag, sent, v := t.to in s.streaming, [], Error;
    } else if !IdDefined(data.m) {
      q := RecvMove(r, ReadAll(i));
      flag, sent, v := t.to in s.streaming, [], Dead;
    } else {
      ReplyAnswers(t.to, data.m, t.to in s.streaming);
      q, sent, v := GoodRequestRuns(r, i, io);
      flag := Apply(t.proto.kind, t.to in s.streaming);
    }
  }

  lemma ReadsOwnProtocol(r: Run, i: nat)
    requires r.Valid() && RecvAt(Last(r), i, Reading)
    ensures ProtocolOf(Payload(Last(r), Last(r).streams[i])) == Last(r).streams[i].proto
  {
    Always(r, |r.states| - 1);
    assert StreamOk(Last(r), i);
  }

  lemma LookChangesNothingElse(s: State, l: State, s': State, i: nat, sent: seq<Attempt>, v: Verdict)
    requires i < |s.streams| && l.sends == s.sends && l.crashed == s.crashed && |l.streams| == |s.streams|
    requires l.streams == s.streams[i := s.streams[i].(recv := l.streams[i].recv)] && HandlerEnds(l, s', i, sent, v)
    ensures HandlerEnds(s, s', i, sent, v)
  {
    assert l.streams[i].to == s.streams[i].to;
    forall k | 0 <= k < |s.streams| && k != i ensures s'.streams[k] == s.streams[k] {
      assert l.streams[k] == s.streams[k];
    }
    forall k | 0 <= k < |sent| ensures SentBy(s', |s.sends| + k, sent[k], s.streams[i].to, i) {
      assert SentBy(s', |l.sends| + k, sent[k], l.streams[i].to, i);
    }
  }

  lemma GoodRequestRuns(r: Run, i: nat, io: Script) returns (q: Run, sent: seq<Attempt>, v: Verdict)
    requires r.Valid() && RecvAt(Last(r), i, Reading) && Last(r).streams[i].wire.Eof?
    requires Last(r).streams[i].proto.Request? && ProtocolOf(Payload(Last(r), Last(r).streams[i])) == Last(r).streams[i].proto
    requires IdDefined(Payload(Last(r), Last(r).streams[i]))
    ensures var s, t := Last(r), Last(r).streams[i];
            var a := PingNode.Sent(t.from, ReplyOf(t.to, Payload(s, t), t.to in s.streaming), io);
            && sent == [a] && v == Finish(t.proto.kind, a.result)
            && Extends(r, q) && HandlerEnds(s, Last(q), i, sent, v)
            && Last(q).streaming == (if Apply(t.proto.kind, t.to in s.streaming) then s.streaming + {t.to} else s.streaming - {t.to})
  {
    var s, t := Last(r), Last(r).streams[i];
    var a := PingNode.Sent(t.from, ReplyOf(t.to, Payload(s, t), t.to in s.streaming), io);
    q := LookRuns(r, i);
    LookedUp(s, i);
    var l := Last(q);
    q := AnswerRuns(q, i, io);
    sent, v := [a], Finish(t.proto.kind, a.result);
    LookChangesNothingElse(s, l, Last(q), i, sent, v);
  }

  lemma LookedUp(s: State, i: nat)
    requires RecvAt(s, i, Reading) && ProtocolOf(Payload(s, s.streams[i])) == s.streams[i].proto
    requires FromSender(Payload(s, s.streams[i]))
    ensures var t, l := s.streams[i], AfterLook(s, i);
            && Enabled(l, Build(i)) && l.sends == s.sends && l.crashed == s.crashed
            && l.streams == s.streams[i := t.(recv := l.streams[i].recv)]
            && l.streaming == (if Apply(t.proto.kind, t.to in s.streaming) then s.streaming + {t.to} else s.streaming - {t.to})
            && Payload(l, l.streams[i]) == Payload(s, t)
            && ReplyTo(t.to, Payload(s, t), l.streams[i].recv.outcome, t.to in l.streaming) ==
               ReplyOf(t.to, Payload(s, t), t.to in s.streaming)
  {
    var t, l := s.streams[i], AfterLook(s, i);
    var k, flag := t.proto.kind, t.to in s.streaming;
    assert l.streams[i] == t.(recv := Building(if UsesFlag(k) then Some(Respond(k, flag)) else None));
    if !UsesFlag(k) {
      assert l.streaming == s.streaming;
      assert s.streaming == if flag then s.streaming + {t.to} else s.streaming - {t.to};
    }
    assert t.to in l.streaming <==> Apply(k, flag);
  }

  /** A response handler waits on what it could read, and ends in an error on what it could not. */
  lemma ResponseRuns(r: Run, i: nat, data: Inbound) returns (q: Run)
    requires r.Valid() && CanRead(Last(r), i, data) && Last(r).streams[i].proto.Response?
    ensures Extends(r, q) && HandlerEnds(Last(r), Last(q), i, [], if data.Parsed? then Waiting else Error)
    ensures Last(q).streaming == Last(r).streaming
  {
    q := RecvMove(r, if data.Parsed? then ReadAll(i) else ReadFails(i));
  }

  /**
   The imperative node, given what the handler of stream i reads, does what the network can do next: its
   verdict, its new flag and its new attempts are those at the end of a continuation of the run.
   */
  method RequestOnNetwork(p: PingProtocol, s: InStream, io: Script, ghost r: Run, ghost i: nat)
    returns (v: Verdict, ghost q: Run)
    requires p.Valid() && s.end == Live && s !in p.waiting
    requires r.Valid() && CanRead(Last(r), i, s.data) && Last(r).streams[i].proto.Request?
    requires s.protocol == ProtocolId(Last(r).streams[i].proto) && s.from == Last(r).streams[i].from
    requires p.self == Last(r).streams[i].to && (p.isStreaming <==> p.self in Last(r).streaming)
    modifies s`end, p
    ensures p.Valid() && old(p.outbox) <= p.outbox
    ensures Extends(r, q) && HandlerEnds(Last(r), Last(q), i, p.outbox[|old(p.outbox)|..], v)
    ensures p.isStreaming <==> p.self in Last(q).streaming
    ensures p.waiting == old(p.waiting) + (if v.Waiting? then {s} else {})
  {
    Registered(Last(r).streams[i].proto.kind);
    ReadsOwnProtocol(r, i);
    ghost var outbox := p.outbox;
    v := p.OnProtocolRequest(s, io);
    q := RanOnNetwork(r, i, s.data, io, p.isStreaming, outbox, p.outbox, v);
  }

  lemma Registered(k: Kind)
    ensures ProtocolId(Request(k)) in RequestTable() && RequestTable()[ProtocolId(Request(k))] == k
  {
    Dispatch();
  }

  lemma RanOnNetwork(r: Run, i: nat, data: Inbound, io: Script, flag: bool, outbox: seq<Attempt>, outbox': seq<Attempt>, v: Verdict)
    returns (q: Run)
    requires r.Valid() && CanRead(Last(r), i, data) && Last(r).streams[i].proto.Request?
    requires data.Parsed? ==> ProtocolOf(data.m) == Request(Last(r).streams[i].proto.kind)
    requires var t := Last(r).streams[i];
             Ran(t.to, t.proto.kind, t.from, data, io, t.to in Last(r).streaming, flag, outbox, outbox', v)
    ensures outbox <= outbox' && Extends(r, q) && HandlerEnds(Last(r), Last(q), i, outbox'[|outbox|..], v)
    ensures flag <==> Last(r).streams[i].to in Last(q).streaming
  {
    var sent, flag', w;
    q, flag', sent, w := RequestRuns(r, i, data, io);
    var t := Last(r).streams[i];
    RanOnce(t.to, t.proto.kind, t.from, data, io, t.to in Last(r).streaming, flag, outbox, outbox', v, flag', sent, w);
  }

  lemma RanOnce(self: Node, k: Kind, from: Node, data: Inbound, io: Script, before: bool,
                flag: bool, outbox: seq<Attempt>, outbox': seq<Attempt>, v: Verdict, flag': bool, sent: seq<Attempt>, w: Verdict)
    requires data.Parsed? ==> ProtocolOf(data.m) == Request(k)
    requires Ran(self, k, from, data, io, before, flag, outbox, outbox', v)
    requires Ran(self, k, from, data, io, before, flag', [], sent, w)
    ensures flag == flag' && v == w && outbox' == outbox + sent
  {
  }
}
