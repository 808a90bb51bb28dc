/**
 What the network guarantees about single messages, in every reachable state of every run:
 at-most-once delivery despite the retry, the causal chain from call to handled response,
 the identity that flows through it, and exactly when a process goes down.
 */
module Delivery {
  import opened Wrappers
  import opened Messages
  import opened Network
  import opened Structure
  import opened Counting

  /** A delivered stream was closed by its sender, which has returned. */
  lemma HandledMeansReturned(s: State, i: nat)
    requires Inv(s) && i < |s.streams| && s.streams[i].wire.Eof?
    ensures s.streams[i].send < |s.sends|
    ensures s.sends[s.streams[i].send].pc.Returned?
    ensures s.streams[i].wire.full <==> s.sends[s.streams[i].send].pc.ok
  {
    assert StreamOk(s, i);
    assert SendOk(s, s.streams[i].send);
  }

  /** Two streams of one send are not both delivered. */
  lemma OneDelivery(s: State, i: nat, k: nat)
    requires Inv(s) && i < |s.streams| && k < |s.streams|
    requires s.streams[i].send == s.streams[k].send
    requires s.streams[i].wire.Eof? && s.streams[k].wire.Eof?
    ensures i == k
  {
    assert StreamOk(s, i) && StreamOk(s, k);
    assert SendOk(s, s.streams[i].send);
  }

  /** Handled streams of one send, at the receiver. */
  ghost function HandledOf(s: State, j: nat): set<nat> {
    set i: nat | i < |s.streams| && s.streams[i].send == j && Handled(s.streams[i])
  }

  /** Across both attempts of one sendProtoMessage the receiver runs its handler at most once. */
  lemma AtMostOnce(r: Run, t: nat, j: nat)
    requires r.Valid() && t < |r.states|
    ensures |HandledOf(r.states[t], j)| <= 1
  {
    var s := r.states[t];
    Always(r, t);
    var H := HandledOf(s, j);
    if H != {} {
      var i :| i in H;
      forall k | k in H ensures k == i {
        assert StreamOk(s, i) && StreamOk(s, k);
        OneDelivery(s, i, k);
      }
      assert H == {i};
    }
  }

  /** A true result: one stream carried all the bytes to a clean close, any other was reset
      and was not and will not be handled. A false result: no stream carried the bytes. */
  lemma ResultMeansDelivery(r: Run, t: nat, j: nat)
    requires r.Valid() && t < |r.states| && j < |r.states[t].sends| && r.states[t].sends[j].pc.Returned?
    ensures var s := r.states[t];
            if s.sends[j].pc.ok then
              exists i :: 0 <= i < |s.streams| && s.streams[i].send == j && s.streams[i].wire == Eof(true) &&
                          forall k :: 0 <= k < |s.streams| && s.streams[k].send == j && k != i ==>
                                        s.streams[k].wire == Broken && !Handled(s.streams[k])
            else
              forall k :: 0 <= k < |s.streams| && s.streams[k].send == j ==> s.streams[k].wire != Eof(true)
  {
    var s := r.states[t];
    Always(r, t);
    assert SendOk(s, j);
    forall k | 0 <= k < |s.streams| && s.streams[k].send == j
      ensures s.sends[j].first == Some(k) || s.sends[j].second == Some(k)
      ensures Handled(s.streams[k]) ==> s.streams[k].wire.Eof?
    {
      assert StreamOk(s, k);
    }
    if s.sends[j].pc.ok {
      var i := LastStream(s.sends[j]).value;
      assert s.streams[i].send == j && s.streams[i].wire == Eof(true);
    }
  }

  lemma PersistsOn(a: State, b: State, c: State)
    requires Persists(a, b) && Persists(b, c)
    ensures Persists(a, c)
  {
  }

  lemma RunPersists(r: Run, t: nat)
    requires r.Valid() && t < |r.steps|
    ensures Persists(r.states[t], r.states[t + 1])
  {
    Always(r, t);
    assert r.TakenAt(t);
    StepKeeps(r.states[t], r.steps[t]);
  }

  /** Once handled, handled; once crashed, crashed; a returned call stays as it returned; nothing is forgotten. */
  lemma {:induction false} Persistence(r: Run, t: nat, u: nat)
    requires r.Valid() && t <= u < |r.states|
    ensures Persists(r.states[t], r.states[u])
  {
    if t < u {
      Persistence(r, t, u - 1);
      RunPersists(r, u - 1);
      PersistsOn(r.states[t], r.states[u - 1], r.states[u]);
    }
  }

  // ---- Causality and counting

  ghost predicate AllMarshalled(s: State) {
    (forall i :: 0 <= i < |s.streams| ==> s.streams[i].wire != Eof(false)) &&
    (forall j :: 0 <= j < |s.sends| ==> s.sends[j].pc != Closing(false))
  }

  /** No call of proto.Marshal fails in the run. */
  ghost predicate MarshalsSucceed(r: Run) {
    forall t :: 0 <= t < |r.steps| ==> !(r.steps[t].Marshal? && !r.steps[t].ok)
  }

  lemma {:induction false} ClosingEmpty(r: Run, t: nat, j: nat) returns (u: nat)
    requires r.Valid() && t < |r.states| && j < |r.states[t].sends| && r.states[t].sends[j].pc == Closing(false)
    ensures u < t && r.steps[u] == Marshal(j, false)
  {
    u := 0;
    if t == 0 {
      assert false;
    } else {
      u := t - 1;
      assert r.TakenAt(u);
      if r.steps[u] != Marshal(j, false) {
        u := ClosingEmpty(r, t - 1, j);
      }
    }
  }

  lemma {:induction false} ClosedEmpty(r: Run, t: nat, i: nat) returns (u: nat)
    requires r.Valid() && t < |r.states| && i < |r.states[t].streams| && r.states[t].streams[i].wire == Eof(false)
    ensures u < t && r.steps[u] == Marshal(r.states[t].streams[i].send, false)
  {
    u := 0;
    if t == 0 {
      assert false;
    } else {
      var s, step := r.states[t - 1], r.steps[t - 1];
      assert r.TakenAt(t - 1);
      if i < |s.streams| && s.streams[i].wire == Eof(false) {
        RunPersists(r, t - 1);
        u := ClosedEmpty(r, t - 1, i);
      } else {
        Always(r, t - 1);
        ClosesEmpty(s, step, i);
        u := ClosingEmpty(r, t - 1, r.states[t].streams[i].send);
      }
    }
  }

  lemma ClosesEmpty(s: State, step: Step, i: nat)
    requires Inv(s) && Enabled(s, step) && i < |Next(s, step).streams| && Next(s, step).streams[i].wire == Eof(false)
    requires i < |s.streams| ==> s.streams[i].wire != Eof(false)
    ensures var j := Next(s, step).streams[i].send; j < |s.sends| && s.sends[j].pc == Closing(false)
  {
    if IsSendStep(step) {
      assert SendOk(s, step.j);
      assert NextSend(s, step).streams[i].wire == Eof(false);
    } else if IsRecvStep(step) {
      assert false;
    }
  }

  predicate GaveUp(pc: SendPc) {
    pc == Closing(false) || pc == Returned(false)
  }

  lemma {:induction false} NeverMarshalled(r: Run, u: nat, t: nat, j: nat)
    requires r.Valid() && u < t < |r.states| && r.steps[u] == Marshal(j, false)
    ensures j < |r.states[t].sends| && GaveUp(r.states[t].sends[j].pc)
  {
    assert r.TakenAt(t - 1);
    if u < t - 1 {
      NeverMarshalled(r, u, t - 1, j);
      StillGaveUp(r.states[t - 1], r.steps[t - 1], j);
    }
  }

  lemma StillGaveUp(s: State, step: Step, j: nat)
    requires Enabled(s, step) && j < |s.sends| && GaveUp(s.sends[j].pc)
    ensures j < |Next(s, step).sends| && GaveUp(Next(s, step).sends[j].pc)
  {
    if IsSendStep(step) {
      assert GaveUp(NextSend(s, step).sends[j].pc);
    }
  }

  /** A handled message arrived in full if and only if its sender's Marshal did not fail. */
  lemma ArrivesInFullExactly(r: Run, t: nat, i: nat)
    requires r.Valid() && t < |r.states| && i < |r.states[t].streams| && Handled(r.states[t].streams[i])
    ensures r.states[t].streams[i].wire == Eof(true) <==>
            forall u :: 0 <= u < t ==> r.steps[u] != Marshal(r.states[t].streams[i].send, false)
  {
    var s, j := r.states[t], r.states[t].streams[i].send;
    Always(r, t);
    assert StreamOk(s, i);
    HandledMeansReturned(s, i);
    if u :| 0 <= u < t && r.steps[u] == Marshal(j, false) {
      NeverMarshalled(r, u, t, j);
    } else if s.streams[i].wire == Eof(false) {
      var u := ClosedEmpty(r, t, i);
    }
  }

  lemma StaysMarshalled(r: Run, t: nat)
    requires r.Valid() && MarshalsSucceed(r) && t < |r.states|
    ensures AllMarshalled(r.states[t])
  {
    forall i | 0 <= i < |r.states[t].streams| ensures r.states[t].streams[i].wire != Eof(false) {
      if r.states[t].streams[i].wire == Eof(false) {
        var u := ClosedEmpty(r, t, i);
      }
    }
    forall j | 0 <= j < |r.states[t].sends| ensures r.states[t].sends[j].pc != Closing(false) {
      if r.states[t].sends[j].pc == Closing(false) {
        var u := ClosingEmpty(r, t, j);
      }
    }
  }

  /** Sends of protocol p from a to b; only the ones that returned true when `completed`. */
  ghost function Sent(s: State, a: Node, b: Node, p: Protocol, completed: bool): set<nat> {
    set j: nat | j < |s.sends| && s.sends[j].from == a && s.sends[j].to == b && ProtocolOf(s.sends[j].msg) == p &&
                 (completed ==> s.sends[j].pc == Returned(true))
  }

  /** Messages of protocol p from a that b's handler was run on. */
  ghost function HandledAt(s: State, a: Node, b: Node, p: Protocol): set<nat> {
    set i: nat | i < |s.streams| && s.streams[i].from == a && s.streams[i].to == b && s.streams[i].proto == p &&
                 Handled(s.streams[i])
  }

  function SendOfStream(s: State): nat -> nat {
    (i: nat) => if i < |s.streams| then s.streams[i].send else 0
  }

  function StreamOfReply(s: State): nat -> nat {
    (j: nat) => if j < |s.sends| && s.sends[j].cause.Some? then s.sends[j].cause.value else 0
  }

  lemma HandledWereSent(s: State, a: Node, b: Node, p: Protocol, completed: bool)
    requires Inv(s) && (completed ==> AllMarshalled(s))
    ensures |HandledAt(s, a, b, p)| <= |Sent(s, a, b, p, completed)|
  {
    var A, B, f := HandledAt(s, a, b, p), Sent(s, a, b, p, completed), SendOfStream(s);
    forall i | i in A ensures f(i) in B && s.streams[i].wire.Eof? {
      assert StreamOk(s, i);
      HandledMeansReturned(s, i);
    }
    forall i, k | i in A && k in A && f(i) == f(k) ensures i == k {
      OneDelivery(s, i, k);
    }
    InjectionSize(A, B, f);
  }

  lemma RepliesWereCaused(s: State, a: Node, b: Node, k: Kind, completed: bool)
    requires Inv(s)
    ensures |Sent(s, b, a, Response(k), completed)| <= |HandledAt(s, a, b, Request(k))|
  {
    var A, B, f := Sent(s, b, a, Response(k), completed), HandledAt(s, a, b, Request(k)), StreamOfReply(s);
    forall j | j in A ensures f(j) in B && s.streams[f(j)].reply == Some(j) {
      assert SendOk(s, j);
      assert StreamOk(s, f(j));
    }
    InjectionSize(A, B, f);
  }

  /**
   For every pair of nodes and every kind, in every reachable state:
   responses handled at a <= responses sent by b <= requests handled at b <= requests issued by a.
   When marshalling never fails, "sent" and "issued" may be read as "returned true".
   */
  lemma Causality(r: Run, t: nat, a: Node, b: Node, k: Kind, completed: bool)
    requires r.Valid() && t < |r.states|
    requires completed ==> MarshalsSucceed(r)
    ensures |HandledAt(r.states[t], b, a, Response(k))| <= |Sent(r.states[t], b, a, Response(k), completed)|
    ensures |Sent(r.states[t], b, a, Response(k), completed)| <= |HandledAt(r.states[t], a, b, Request(k))|
    ensures |HandledAt(r.states[t], a, b, Request(k))| <= |Sent(r.states[t], a, b, Request(k), completed)|
  {
    Always(r, t);
    if completed {
      StaysMarshalled(r, t);
    }
    HandledWereSent(r.states[t], b, a, Response(k), completed);
    RepliesWereCaused(r.states[t], a, b, k, completed);
    HandledWereSent(r.states[t], a, b, Request(k), completed);
  }

  // ---- Totals

  ghost function Calls(s: State): set<nat> {
    set j: nat | j < |s.sends| && s.sends[j].cause.None?
  }

  ghost function AllHandled(s: State): set<nat> {
    set i: nat | i < |s.streams| && Handled(s.streams[i])
  }

  /** The call behind a reply: the send of the stream whose handler made it. */
  function CallOfReply(s: State): nat -> nat {
    (j: nat) =>
      if j < |s.sends| && s.sends[j].cause.Some? && s.sends[j].cause.value < |s.streams|
      then s.streams[s.sends[j].cause.value].send else 0
  }

  /** With N calls of the exported senders there are at most 2N sends, 2N handled messages and 4N streams. */
  lemma Totals(r: Run, t: nat)
    requires r.Valid() && t < |r.states|
    ensures |r.states[t].sends| <= 2 * |Calls(r.states[t])|
    ensures |AllHandled(r.states[t])| <= 2 * |Calls(r.states[t])|
    ensures |r.states[t].streams| <= 4 * |Calls(r.states[t])|
  {
    var s := r.states[t];
    Always(r, t);
    var C := Calls(s);
    var R := set j: nat | j < |s.sends| && s.sends[j].cause.Some?;
    RepliesFewerThanCalls(s, R, C);
    assert Below(|s.sends|) == C + R;
    BelowSize(|s.sends|);
    HandledFewerThanSends(s);
    StreamsTwicePerSend(s);
  }

  lemma OnlyRepliesHaveCauses(s: State, j: nat)
    requires Inv(s) && j < |s.sends|
    ensures s.sends[j].cause.Some? <==> ProtocolOf(s.sends[j].msg).Response?
  {
    assert SendOk(s, j);
    if s.sends[j].cause.Some? {
      assert StreamOk(s, s.sends[j].cause.value);
    }
  }

  lemma RepliesFewerThanCalls(s: State, R: set<nat>, C: set<nat>)
    requires Inv(s) && C == Calls(s) && R == (set j: nat | j < |s.sends| && s.sends[j].cause.Some?)
    ensures |R| <= |C|
  {
    var f := CallOfReply(s);
    forall j | j in R
      ensures f(j) in C && s.sends[j].cause.value < |s.streams|
      ensures s.streams[s.sends[j].cause.value].reply == Some(j) && s.streams[s.sends[j].cause.value].wire.Eof?
    {
      assert SendOk(s, j);
      var i := s.sends[j].cause.value;
      assert StreamOk(s, i);
      var c := s.streams[i].send;
      OnlyRepliesHaveCauses(s, c);
    }
    forall j, k | j in R && k in R && f(j) == f(k) ensures j == k {
      OneDelivery(s, s.sends[j].cause.value, s.sends[k].cause.value);
    }
    InjectionSize(R, C, f);
  }

  lemma HandledFewerThanSends(s: State)
    requires Inv(s)
    ensures |AllHandled(s)| <= |s.sends|
  {
    var A, f := AllHandled(s), SendOfStream(s);
    forall i | i in A ensures f(i) in Below(|s.sends|) && s.streams[i].wire.Eof? {
      assert StreamOk(s, i);
    }
    forall i, k | i in A && k in A && f(i) == f(k) ensures i == k {
      OneDelivery(s, i, k);
    }
    InjectionSize(A, Below(|s.sends|), f);
    BelowSize(|s.sends|);
  }

  lemma StreamsTwicePerSend(s: State)
    requires Inv(s)
    ensures |s.streams| <= 2 * |s.sends|
  {
    var f := (i: nat) =>
        if i < |s.streams| && s.streams[i].send < |s.sends|
        then 2 * s.streams[i].send + (if s.sends[s.streams[i].send].first == Some(i) then 0 else 1) else 0;
    forall i | i in Below(|s.streams|) ensures f(i) in Below(2 * |s.sends|) {
      assert StreamOk(s, i);
    }
    forall i, k | i in Below(|s.streams|) && k in Below(|s.streams|) && f(i) == f(k) ensures i == k {
      assert StreamOk(s, i) && StreamOk(s, k);
    }
    InjectionSize(Below(|s.streams|), Below(2 * |s.sends|), f);
    BelowSize(|s.streams|);
    BelowSize(2 * |s.sends|);
  }

  // ---- Identity

  /** The request send behind a handled response stream. */
  function Origin(s: State, i: nat): nat
    requires i < |s.streams| && s.streams[i].send < |s.sends|
  {
    CallOfReply(s)(s.streams[i].send)
  }

  /**
   Every response handled at a from b belongs to an earlier request of the same kind from a to b, and was
   made by b as the answer to what arrived of it: for start and stop it carries that request's Id, for ping
   "Response to " and that request's data. A start, stop or status request so answered arrived in full; a
   ping or info request may have arrived empty, and so may the response. ArrivesInFullExactly says when.
   */
  lemma IdentityFlows(r: Run, t: nat, i: nat)
    requires r.Valid() && t < |r.states| && i < |r.states[t].streams|
    requires Handled(r.states[t].streams[i]) && r.states[t].streams[i].proto.Response?
    ensures var s := r.states[t];
            var m := s.streams[i];
            && m.send < |s.sends| && s.sends[m.send].cause.Some? && s.sends[m.send].cause.value < |s.streams|
            && var q := s.streams[s.sends[m.send].cause.value];
            && Origin(s, i) == q.send < m.send
            && s.sends[q.send].from == m.to
            && s.sends[q.send].to == m.from
            && ProtocolOf(s.sends[q.send].msg) == q.proto == Request(m.proto.kind)
            && Answers(s.sends[m.send].msg, m.from, Payload(s, q))
            && (UsesFlag(m.proto.kind) ==> q.wire == Eof(true))
            && (q.wire == Eof(true) && m.wire == Eof(true) ==> Answers(Payload(s, m), m.from, s.sends[q.send].msg))
            && (m.wire != Eof(true) ==> Payload(s, m) == Zero(m.proto))
  {
    var s := r.states[t];
    Always(r, t);
    assert StreamOk(s, i);
    var j := s.streams[i].send;
    assert SendOk(s, j);
    var q := s.sends[j].cause.value;
    assert StreamOk(s, q) && ReplyOk(s, q, j);
  }

  /** A request handler that is done with its reply has reached the channel exactly when the reply was sent or
      the request was a ping; otherwise it has ended in an error and its stream was reset. */
  lemma ChannelReachedExactly(r: Run, t: nat, i: nat)
    requires r.Valid() && t < |r.states| && i < |r.states[t].streams|
    requires r.states[t].streams[i].reply.Some? && !r.states[t].streams[i].recv.Replying?
    ensures var s, m := r.states[t], r.states[t].streams[i];
            && m.reply.value < |s.sends| && s.sends[m.reply.value].pc.Returned?
            && (m.recv.Parked? || m.recv.Released? <==> s.sends[m.reply.value].pc.ok || m.proto.kind.Ping?)
            && (m.recv.Failed? <==> !s.sends[m.reply.value].pc.ok && !m.proto.kind.Ping?)
  {
    Always(r, t);
    assert StreamOk(r.states[t], i);
  }

  /** Every start, stop and status request in flight has its Id. */
  lemma RequestsCarryIds(r: Run, t: nat, j: nat)
    requires r.Valid() && t < |r.states| && j < |r.states[t].sends| && ProtocolOf(r.states[t].sends[j].msg).Request?
    ensures IdDefined(r.states[t].sends[j].msg)
  {
    var s := r.states[t];
    Always(r, t);
    assert SendOk(s, j);
    OnlyRepliesHaveCauses(s, j);
  }

  // ---- When a process goes down

  predicate TakesDown(s: State, step: Step, n: Node) {
    match step
    case Redial(j, ok) => !ok && j < |s.sends| && s.sends[j].from == n
    case ReadAll(i) =>
      i < |s.streams| && s.streams[i].to == n && s.streams[i].wire == Eof(false) &&
      s.streams[i].proto.Request? && UsesFlag(s.streams[i].proto.kind)
    case _ => false
  }

  /** A step takes node n down exactly when its second NewStream fails, or when it reads an empty
      (unmarshalled by its sender) start, stop or status request. */
  lemma CrashExactly(r: Run, t: nat, n: Node)
    requires r.Valid() && t < |r.steps| && n !in r.states[t].crashed
    ensures n in r.states[t + 1].crashed <==> TakesDown(r.states[t], r.steps[t], n)
  {
    assert r.TakenAt(t);
    var s, step := r.states[t], r.steps[t];
    Always(r, t);
    if step.ReadAll? {
      var m := s.streams[step.i];
      assert StreamOk(s, step.i);
      if m.proto.Request? {
        RequestsCarryIds(r, t, m.send);
      }
    }
  }

  /** When marshalling and retry opens succeed no process goes down, so no handler dereferences nil. */
  lemma {:induction false} NoCrash(r: Run, t: nat)
    requires r.Valid() && t < |r.states| && MarshalsSucceed(r)
    requires forall u :: 0 <= u < |r.steps| ==> !(r.steps[u].Redial? && !r.steps[u].ok)
    ensures r.states[t].crashed == {}
  {
    if t > 0 {
      NoCrash(r, t - 1);
      StaysMarshalled(r, t - 1);
      forall n ensures n !in r.states[t].crashed {
        CrashExactly(r, t - 1, n);
        assert r.TakenAt(t - 1);
      }
    }
  }

  /** Node n has done nothing: its sends, its handlers, its ticker and its flag are as they were, it has made no
      send, and nothing was logged for it. (A stream it had not accepted may be lost.) */
  ghost predicate Still(s: State, s': State, n: Node) {
    && (forall j :: 0 <= j < |s.sends| && s.sends[j].from == n ==> j < |s'.sends| && s'.sends[j] == s.sends[j])
    && (forall j :: |s.sends| <= j < |s'.sends| ==> s'.sends[j].from != n)
    && (forall i :: 0 <= i < |s.streams| && s.streams[i].to == n ==>
          i < |s'.streams| && (s'.streams[i].recv == s.streams[i].recv || s'.streams[i].recv.Lost?))
    && LoopOf(s', n) == LoopOf(s, n) && (n in s'.streaming <==> n in s.streaming)
    && s.log <= s'.log && (forall k :: |s.log| <= k < |s'.log| ==> s'.log[k].node != n)
  }

  lemma SendStill(s: State, step: Step, n: Node)
    requires Enabled(s, step) && IsSendStep(step) && n in s.crashed
    ensures Still(s, NextSend(s, step), n)
  {
  }

  lemma RecvStill(s: State, step: Step, n: Node)
    requires Enabled(s, step) && IsRecvStep(step) && n in s.crashed
    ensures Still(s, NextRecv(s, step), n)
  {
  }

  lemma LoopStill(s: State, step: Step, n: Node)
    requires Enabled(s, step) && !IsSendStep(step) && !IsRecvStep(step) && n in s.crashed
    ensures Still(s, NextLoop(s, step), n)
  {
  }

  /** A node that is down does nothing any more. */
  lemma DownIsStill(r: Run, t: nat, n: Node)
    requires r.Valid() && t < |r.steps| && n in r.states[t].crashed
    ensures Still(r.states[t], r.states[t + 1], n)
  {
    assert r.TakenAt(t);
    if IsSendStep(r.steps[t]) {
      SendStill(r.states[t], r.steps[t], n);
    } else if IsRecvStep(r.steps[t]) {
      RecvStill(r.states[t], r.steps[t], n);
    } else {
      LoopStill(r.states[t], r.steps[t], n);
    }
  }
}
