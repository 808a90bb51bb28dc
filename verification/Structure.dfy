/**
 The structural invariant of the network: how the streams of one send, the handler of one
 stream and the reply of one handler are tied together, in every reachable state.
 */
module Structure {
  import opened Wrappers
  import opened Messages
  import opened Network

  function WireOf(s: State, o: Option<nat>): Option<Wire> {
    if o.Some? && o.value < |s.streams| then Some(s.streams[o.value].wire) else None
  }

  /** What each program point of sendProtoMessage knows about its two streams. */
  predicate WiresOk(pc: SendPc, first: Option<Wire>, second: Option<Wire>) {
    match pc
    case Dialing => first.None? && second.None?
    case Opened => first == Some(Open) && second.None?
    case Marshalled => first == Some(Open) && second.None?
    case Redialing => first == Some(Broken) && second.None?
    case Rewriting => first == Some(Broken) && second == Some(Open)
    case Closing(ok) =>
      if ok then (first == Some(Carrying) && second.None?) || (first == Some(Broken) && second == Some(Carrying))
      else first == Some(Open) && second.None?
    case Returned(ok) =>
      if ok then (first == Some(Eof(true)) && second.None?) || (first == Some(Broken) && second == Some(Eof(true)))
      else (first.None? && second.None?) || (first == Some(Eof(false)) && second.None?) ||
           (first == Some(Broken) && second == Some(Broken))
    case Panicked => first == Some(Broken) && second.None?
  }

  predicate Owned(s: State, j: nat, o: Option<nat>) {
    o.Some? ==> o.value < |s.streams| && s.streams[o.value].send == j
  }

  predicate SendOk(s: State, j: nat)
    requires j < |s.sends|
  {
    var d := s.sends[j];
    && Owned(s, j, d.first)
    && Owned(s, j, d.second)
    && (d.second.Some? ==> d.first.Some? && d.first != d.second)
    && WiresOk(d.pc, WireOf(s, d.first), WireOf(s, d.second))
    && (d.pc.Panicked? ==> d.from in s.crashed)
    && (d.cause.None? ==> FromSender(d.msg))
    && (d.cause.Some? ==> d.cause.value < |s.streams| && s.streams[d.cause.value].reply == Some(j))
  }

  /** The bytes were read to a clean end and given to a handler (which may have died on them). */
  predicate Handled(t: Stream) {
    t.reply.Some? || t.recv.Testing? || t.recv.Setting? || t.recv.Clearing? || t.recv.Building? ||
    t.recv.Replying? || t.recv.Parked? || t.recv.Released? || t.recv.Died?
  }

  /** resp is a reply to req as the handler at self builds it, up to the flag and status text. */
  predicate Answers(resp: Message, self: Node, req: Message) {
    match req
    case PingRequest(data, _) => resp == PingResponse("Response to " + data, "Ping response from " + self)
    case StartStreamRequest(id, _, _) => resp.StartStreamResponse? && resp.id == id
    case StopStreamRequest(id) => resp == StopStreamResponse(id)
    case StatusRequest(_) => resp.StatusResponse?
    case InfoRequest(_) => resp.InfoResponse? && resp.hostId == self
    case _ => false
  }

  /** Which program points a handler can be at, by protocol. */
  predicate PointOk(t: Stream) {
    match t.recv
    case Testing => t.proto.Request? && UsesFlag(t.proto.kind)
    case Setting => t.proto == Request(StartStream)
    case Clearing => t.proto == Request(StopStream)
    case Building(o) =>
      t.proto.Request? && if UsesFlag(t.proto.kind) then o.Some? && OpOf(o.value) == t.proto.kind else o.None?
    case Replying => t.proto.Request? && t.reply.Some?
    case Parked => t.proto.Request? ==> t.reply.Some?
    case Released => t.proto.Request? ==> t.reply.Some?
    case Failed => true
    case _ => t.reply.None?
  }

  /** A handler that has seen its reply return goes to the channel if it was sent, and a ping handler always. */
  predicate ConcludedOn(t: Stream, pc: SendPc) {
    pc.Returned? && if pc.ok || t.proto.kind.Ping? then t.recv.Parked? || t.recv.Released? else t.recv.Failed?
  }

  predicate ReplyOk(s: State, i: nat, j: nat)
    requires i < |s.streams| && s.streams[i].send < |s.sends|
  {
    var t := s.streams[i];
    && t.proto.Request?
    && (t.recv.Replying? || t.recv.Parked? || t.recv.Released? || t.recv.Failed?)
    && t.send < j < |s.sends|
    && s.sends[j].cause == Some(i)
    && s.sends[j].from == t.to
    && s.sends[j].to == t.from
    && ProtocolOf(s.sends[j].msg) == Response(t.proto.kind)
    && Answers(s.sends[j].msg, t.to, Payload(s, t))
    && (!t.recv.Replying? ==> ConcludedOn(t, s.sends[j].pc))
  }

  predicate StreamOk(s: State, i: nat)
    requires i < |s.streams|
  {
    var t := s.streams[i];
    && t.send < |s.sends|
    && (s.sends[t.send].first == Some(i) || s.sends[t.send].second == Some(i))
    && t.from == s.sends[t.send].from
    && t.to == s.sends[t.send].to
    && t.proto == ProtocolOf(s.sends[t.send].msg)
    && PointOk(t)
    && (Handled(t) ==> t.wire.Eof? && (t.proto.Request? && !t.recv.Died? ==> FromSender(Payload(s, t))))
    && (t.recv.Died? ==> t.to in s.crashed && !IdDefined(Payload(s, t)))
    && (t.reply.Some? ==> ReplyOk(s, i, t.reply.value))
  }

  predicate LoopOk(s: State, n: Node) {
    var l := LoopOf(s, n);
    && (l.Selecting? ==> n in s.clients)
    && (l.Calling? ==> l.step <= |Program(s, n)|)
    && (l.Calling? && l.call.Some? ==> l.step < |Program(s, n)| && l.call.value < |s.sends| &&
                                       s.sends[l.call.value].from == n)
  }

  ghost predicate Inv(s: State) {
    && (forall j :: 0 <= j < |s.sends| ==> SendOk(s, j))
    && (forall i :: 0 <= i < |s.streams| ==> StreamOk(s, i))
    && (forall n :: LoopOk(s, n))
  }

  /** What no step ever undoes. */
  ghost predicate Persists(s: State, s': State) {
    && |s.sends| <= |s'.sends| && |s.streams| <= |s'.streams|
    && s.clients == s'.clients && s.crashed <= s'.crashed && s.log <= s'.log
    && (forall j :: 0 <= j < |s.sends| ==>
          s'.sends[j].from == s.sends[j].from && s'.sends[j].to == s.sends[j].to &&
          s'.sends[j].msg == s.sends[j].msg && s'.sends[j].cause == s.sends[j].cause &&
          (s.sends[j].pc.Returned? ==> s'.sends[j] == s.sends[j]))
    && (forall i :: 0 <= i < |s.streams| ==> StreamPersists(s.streams[i], s'.streams[i]))
  }

  /** A stream stays the same stream; once closed it stays so, and once handled or answered likewise. */
  predicate StreamPersists(t: Stream, t': Stream) {
    && t'.from == t.from && t'.to == t.to && t'.proto == t.proto && t'.send == t.send
    && (t.wire.Eof? ==> t'.wire == t.wire) && (t.reply.Some? ==> t'.reply == t.reply)
    && (Handled(t) ==> Handled(t')) && Phase(t.recv) <= Phase(t'.recv)
  }

  /** Handlers only move on. */
  function Phase(r: Recv): nat {
    match r
    case Unaccepted => 0
    case Reading => 1
    case Testing => 2
    case Setting => 3
    case Clearing => 3
    case Building(_) => 4
    case Replying => 5
    case Parked => 6
    case _ => 7
  }

  /** What every step is shown to keep. */
  ghost predicate Sound(s: State, s': State) {
    Inv(s') && Persists(s, s')
  }

  /** A sender step: only send j moves, its streams may change wire, one stream may be added for it. */
  ghost predicate SendFrame(s: State, s': State, j: nat) {
    && j < |s.sends| == |s'.sends|
    && |s.streams| <= |s'.streams|
    && (forall k :: 0 <= k < |s.sends| && k != j ==> s'.sends[k] == s.sends[k])
    && s'.sends[j] == s.sends[j].(first := s'.sends[j].first, second := s'.sends[j].second, pc := s'.sends[j].pc)
    && (s.sends[j].pc.Returned? ==> s'.sends[j] == s.sends[j])
    && (forall i :: 0 <= i < |s.streams| && s.streams[i].send != j ==> s'.streams[i] == s.streams[i])
    && (forall i :: 0 <= i < |s.streams| ==>
          s'.streams[i] == s.streams[i].(wire := s'.streams[i].wire) &&
          (s.streams[i].wire.Eof? ==> s'.streams[i] == s.streams[i]))
    && (forall i :: |s.streams| <= i < |s'.streams| ==> s'.streams[i].send == j)
    && s'.loops == s.loops && s'.clients == s.clients && s.crashed <= s'.crashed && s.log <= s'.log
  }

  lemma SendFramePersists(s: State, s': State, j: nat)
    requires Inv(s) && SendFrame(s, s', j)
    ensures Persists(s, s')
  {
    forall i | 0 <= i < |s.streams| ensures StreamPersists(s.streams[i], s'.streams[i]) {
      assert StreamOk(s, i);
    }
  }

  /** Under SendFrame it is enough to look at send j and at the streams it gained. */
  lemma SendFrameKeeps(s: State, s': State, j: nat)
    requires Inv(s) && SendFrame(s, s', j)
    requires SendOk(s', j)
    requires s.sends[j].first.Some? ==> s'.sends[j].first == s.sends[j].first
    requires s.sends[j].second.Some? ==> s'.sends[j].second == s.sends[j].second
    requires forall i :: |s.streams| <= i < |s'.streams| ==> StreamOk(s', i)
    ensures Sound(s, s')
  {
    SendFramePersists(s, s', j);
    forall k | 0 <= k < |s'.sends| ensures SendOk(s', k) {
      assert SendOk(s, k);
    }
    forall i | 0 <= i < |s'.streams| ensures StreamOk(s', i) {
      if i < |s.streams| {
        assert StreamOk(s, i);
        if s.streams[i].reply.Some? {
          assert ReplyOk(s, i, s.streams[i].reply.value);
        }
      }
    }
    forall n ensures LoopOk(s', n) {
      assert LoopOk(s, n);
    }
  }

  lemma SendStepKeeps(s: State, step: Step)
    requires Inv(s) && Enabled(s, step) && IsSendStep(step)
    ensures Sound(s, Next(s, step))
  {
    match step
    case Dial(j, ok) => DialKeeps(s, j, ok);
    case Marshal(j, ok) => MarshalKeeps(s, j, ok);
    case WriteFirst(j, ok) => WriteFirstKeeps(s, j, ok);
    case Redial(j, ok) => RedialKeeps(s, j, ok);
    case WriteSecond(j, ok) => WriteSecondKeeps(s, j, ok);
    case CloseSend(j) => CloseSendKeeps(s, j);
  }

  lemma DialKeeps(s: State, j: nat, ok: bool)
    requires Inv(s) && Enabled(s, Dial(j, ok))
    ensures Sound(s, Next(s, Dial(j, ok)))
  {
    var s' := NextSend(s, Dial(j, ok));
    assert SendOk(s, j);
    SendFrameKeeps(s, s', j);
  }

  lemma MarshalKeeps(s: State, j: nat, ok: bool)
    requires Inv(s) && Enabled(s, Marshal(j, ok))
    ensures Sound(s, Next(s, Marshal(j, ok)))
  {
    var s' := NextSend(s, Marshal(j, ok));
    assert SendOk(s, j);
    SendFrameKeeps(s, s', j);
  }

  lemma WriteFirstKeeps(s: State, j: nat, ok: bool)
    requires Inv(s) && Enabled(s, WriteFirst(j, ok))
    ensures Sound(s, Next(s, WriteFirst(j, ok)))
  {
    var s' := NextSend(s, WriteFirst(j, ok));
    assert SendOk(s, j);
    SendFrameKeeps(s, s', j);
  }

  lemma RedialKeeps(s: State, j: nat, ok: bool)
    requires Inv(s) && Enabled(s, Redial(j, ok))
    ensures Sound(s, Next(s, Redial(j, ok)))
  {
    var s' := NextSend(s, Redial(j, ok));
    assert SendOk(s, j);
    SendFrameKeeps(s, s', j);
  }

  lemma WriteSecondKeeps(s: State, j: nat, ok: bool)
    requires Inv(s) && Enabled(s, WriteSecond(j, ok))
    ensures Sound(s, Next(s, WriteSecond(j, ok)))
  {
    var s' := NextSend(s, WriteSecond(j, ok));
    assert SendOk(s, j);
    SendFrameKeeps(s, s', j);
  }

  lemma CloseSendKeeps(s: State, j: nat)
    requires Inv(s) && Enabled(s, CloseSend(j))
    ensures Sound(s, Next(s, CloseSend(j)))
  {
    var s' := NextSend(s, CloseSend(j));
    assert SendOk(s, j);
    SendFrameKeeps(s, s', j);
  }

  /** A handler step: only stream i moves, keeping its wire; one reply may be added for it. */
  ghost predicate RecvFrame(s: State, s': State, i: nat) {
    && i < |s.streams| == |s'.streams|
    && |s.sends| <= |s'.sends|
    && (forall k :: 0 <= k < |s.streams| && k != i ==> s'.streams[k] == s.streams[k])
    && s'.streams[i] == s.streams[i].(recv := s'.streams[i].recv, reply := s'.streams[i].reply)
    && (s.streams[i].reply.Some? ==> s'.streams[i].reply == s.streams[i].reply)
    && (forall j :: 0 <= j < |s.sends| ==> s'.sends[j] == s.sends[j])
    && (forall j :: |s.sends| <= j < |s'.sends| ==> SendOk(s', j))
    && s'.loops == s.loops && s'.clients == s.clients && s.crashed <= s'.crashed && s.log <= s'.log
    && (Handled(s.streams[i]) ==> Handled(s'.streams[i])) && Phase(s.streams[i].recv) <= Phase(s'.streams[i].recv)
  }

  lemma RecvFrameKeeps(s: State, s': State, i: nat)
    requires Inv(s) && RecvFrame(s, s', i)
    requires StreamOk(s', i)
    ensures Sound(s, s')
  {
    forall j | 0 <= j < |s'.sends| ensures SendOk(s', j) {
      if j < |s.sends| {
        assert SendOk(s, j);
      }
    }
    forall k | 0 <= k < |s'.streams| ensures StreamOk(s', k) {
      assert StreamOk(s, k);
      if k != i && s.streams[k].reply.Some? {
        assert ReplyOk(s, k, s.streams[k].reply.value);
      }
    }
    forall n ensures LoopOk(s', n) {
      assert LoopOk(s, n);
    }
  }

  lemma RecvStepKeeps(s: State, step: Step)
    requires Inv(s) && Enabled(s, step) && IsRecvStep(step)
    ensures Sound(s, Next(s, step))
  {
    match step
    case Accept(i) => AcceptKeeps(s, i);
    case Lose(i) => LoseKeeps(s, i);
    case ReadFails(i) => ReadFailsKeeps(s, i);
    case ReadAll(i) => ReadAllKeeps(s, i);
    case Test(i) => TestKeeps(s, i);
    case Write(i) => WriteKeeps(s, i);
    case Build(i) => BuildKeeps(s, i);
    case Conclude(i) => ConcludeKeeps(s, i);
  }

  lemma AcceptKeeps(s: State, i: nat)
    requires Inv(s) && Enabled(s, Accept(i))
    ensures Sound(s, Next(s, Accept(i)))
  {
    assert StreamOk(s, i);
    RecvFrameKeeps(s, NextRecv(s, Accept(i)), i);
  }

  lemma LoseKeeps(s: State, i: nat)
    requires Inv(s) && Enabled(s, Lose(i))
    ensures Sound(s, Next(s, Lose(i)))
  {
    assert StreamOk(s, i);
    RecvFrameKeeps(s, NextRecv(s, Lose(i)), i);
  }

  lemma ReadFailsKeeps(s: State, i: nat)
    requires Inv(s) && Enabled(s, ReadFails(i))
    ensures Sound(s, Next(s, ReadFails(i)))
  {
    assert StreamOk(s, i);
    RecvFrameKeeps(s, NextRecv(s, ReadFails(i)), i);
  }

  lemma ReadAllKeeps(s: State, i: nat)
    requires Inv(s) && Enabled(s, ReadAll(i))
    ensures Sound(s, Next(s, ReadAll(i)))
  {
    assert StreamOk(s, i);
    RecvFrameKeeps(s, NextRecv(s, ReadAll(i)), i);
  }

  lemma TestKeeps(s: State, i: nat)
    requires Inv(s) && Enabled(s, Test(i))
    ensures Sound(s, Next(s, Test(i)))
  {
    assert StreamOk(s, i);
    RecvFrameKeeps(s, NextRecv(s, Test(i)), i);
  }

  lemma WriteKeeps(s: State, i: nat)
    requires Inv(s) && Enabled(s, Write(i))
    ensures Sound(s, Next(s, Write(i)))
  {
    assert StreamOk(s, i);
    RecvFrameKeeps(s, NextRecv(s, Write(i)), i);
  }

  lemma ConcludeKeeps(s: State, i: nat)
    requires Inv(s) && Enabled(s, Conclude(i))
    ensures Sound(s, Next(s, Conclude(i)))
  {
    assert StreamOk(s, i);
    RecvFrameKeeps(s, NextRecv(s, Conclude(i)), i);
  }

  lemma BuildKeeps(s: State, i: nat)
    requires Inv(s) && Enabled(s, Build(i))
    ensures Sound(s, Next(s, Build(i)))
  {
    var s' := Next(s, Build(i));
    assert StreamOk(s, i);
    assert Payload(s', s'.streams[i]) == Payload(s, s.streams[i]);
    RecvFrameKeeps(s, s', i);
  }

  /** A ticker step: no stream link or wire moves, one call may be added, one loop changes. */
  lemma LoopFrameKeeps(s: State, s': State, n: Node)
    requires Inv(s) && |s.sends| <= |s'.sends| && |s.streams| == |s'.streams| && s'.clients == s.clients && s'.crashed == s.crashed && s.log <= s'.log
    requires forall j :: 0 <= j < |s.sends| ==> s'.sends[j] == s.sends[j]
    requires forall j :: |s.sends| <= j < |s'.sends| ==> SendOk(s', j)
    requires forall i :: 0 <= i < |s.streams| ==>
                           s'.streams[i] == s.streams[i] ||
                           (s.streams[i].recv.Parked? && s'.streams[i] == s.streams[i].(recv := Released))
    requires forall m :: m != n ==> LoopOf(s', m) == LoopOf(s, m)
    requires LoopOk(s', n)
    ensures Sound(s, s')
  {
    forall j | 0 <= j < |s'.sends| ensures SendOk(s', j) {
      if j < |s.sends| {
        assert SendOk(s, j);
      }
    }
    forall i | 0 <= i < |s'.streams| ensures StreamOk(s', i) {
      assert StreamOk(s, i);
      if s.streams[i].reply.Some? {
        assert ReplyOk(s, i, s.streams[i].reply.value);
      }
    }
    forall m ensures LoopOk(s', m) {
      assert LoopOk(s, m);
    }
  }

  lemma LoopStepKeeps(s: State, step: Step)
    requires Inv(s) && Enabled(s, step) && !IsSendStep(step) && !IsRecvStep(step)
    ensures Sound(s, Next(s, step))
  {
    var s' := NextLoop(s, step);
    var n := if step.Receive? then s.streams[step.i].to else step.node;
    assert LoopOk(s, n);
    LoopFrameKeeps(s, s', n);
  }

  lemma StepKeeps(s: State, step: Step)
    requires Inv(s) && Enabled(s, step)
    ensures Sound(s, Next(s, step))
  {
    if IsSendStep(step) {
      SendStepKeeps(s, step);
    } else if IsRecvStep(step) {
      RecvStepKeeps(s, step);
    } else {
      LoopStepKeeps(s, step);
    }
  }

  /** Every state of every run satisfies the structural invariant. */
  lemma {:induction false} Always(r: Run, t: nat)
    requires r.Valid() && t < |r.states|
    ensures Inv(r.states[t])
  {
    if t > 0 {
      Always(r, t - 1);
      assert r.TakenAt(t - 1);
      StepKeeps(r.states[t - 1], r.steps[t - 1]);
    }
  }
}
