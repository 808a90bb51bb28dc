/**
 The converse of what Correspondence shows for request handlers: one whose flag no other handler writes
 between its test and its reply ends, in any run, as the imperative handler does under some conditions.
 */
module Endings {
  import opened Wrappers
  import opened Messages
  import opened Network
  import opened Sequential
  import opened Structure
  import opened Flag
  import opened Replies
  import opened PingNode
  import opened Correspondence
  import Delivery

  // ---- What a handler read stays as it was

  /** Stream i stays the same stream, with the same request on it once it is closed. */
  predicate SameRequest(s: State, s': State, i: nat) {
    && i < |s.streams| && i < |s'.streams| && s.streams[i].send < |s.sends| && s'.streams[i].send < |s'.sends|
    && s'.streams[i].from == s.streams[i].from && s'.streams[i].to == s.streams[i].to
    && s'.streams[i].proto == s.streams[i].proto
    && (s.streams[i].wire.Eof? ==> s'.streams[i].wire == s.streams[i].wire && Payload(s', s'.streams[i]) == Payload(s, s.streams[i]))
  }

  lemma RequestKept(r: Run, y: nat, e: nat, i: nat)
    requires r.Valid() && y <= e < |r.states| && i < |r.states[y].streams|
    ensures SameRequest(r.states[y], r.states[e], i)
  {
    SendInRange(r, y, i);
    Delivery.Persistence(r, y, e);
  }

  // ---- Handlers that reply

  lemma JustReplied(s: State, step: Step, i: nat, j: nat)
    requires Enabled(s, step) && i < |Next(s, step).streams| && Next(s, step).streams[i].reply == Some(j)
    requires i < |s.streams| ==> s.streams[i].reply != Some(j)
    ensures step == Build(i) && i < |s.streams| && j == |s.sends|
  {
    if !IsRecvStep(step) {
      assert false;
    }
  }

  /** The step at which handler i built its reply j. */
  lemma {:induction false} BuiltAt(r: Run, e: nat, i: nat, j: nat) returns (y: nat)
    requires r.Valid() && e < |r.states| && i < |r.states[e].streams| && r.states[e].streams[i].reply == Some(j)
    ensures y < e && r.steps[y] == Build(i) && i < |r.states[y].streams| && |r.states[y].sends| == j
  {
    y := 0;
    if e == 0 {
      assert false;
    } else {
      assert r.TakenAt(e - 1);
      if i < |r.states[e - 1].streams| && r.states[e - 1].streams[i].reply == Some(j) {
        y := BuiltAt(r, e - 1, i, j);
      } else {
        y := e - 1;
        JustReplied(r.states[y], r.steps[y], i, j);
      }
    }
  }

  /** Between steps v and t no handler but i writes the flag of n. */
  ghost predicate NoOtherWrites(r: Run, i: nat, n: Node, v: nat, t: nat) {
    forall w :: v < w < t && WritesFlag(r, w, n) ==> r.steps[w].i == i
  }

  /** A settled outcome is the answer to the flag as the test at x saw it. */
  lemma SettledFrom(r: Run, u: nat, i: nat, n: Node, o: Outcome) returns (x: nat)
    requires r.Valid() && SettlesAt(r, u, i, o) && r.states[u].streams[i].to == n
    ensures x <= u && r.steps[x] == Test(i) && i < |r.states[x].streams|
    ensures o == Respond(OpOf(o), n in r.states[x].streaming)
  {
    var seen := RunEffect(r, u, n);
    OutcomesAppend(r.states[u].log, Event(n, Did(o)), n);
    assert (OutcomesAt(r.states[u].log, n) + [o])[|OutcomesAt(r.states[u].log, n)|] == o;
    x := u;
    assert r.TakenAt(u);
    if r.steps[u].Write? {
      x := WasTested(r, u, i, n, r.states[u].streams[i].recv);
    }
  }

  lemma KindOfOutcome(r: Run, y: nat, i: nat, o: Outcome)
    requires r.Valid() && y < |r.states| && i < |r.states[y].streams| && r.states[y].streams[i].recv == Building(Some(o))
    ensures OpOf(o) == r.states[y].streams[i].proto.kind
  {
    Always(r, y);
    assert StreamOk(r.states[y], i);
  }

  /**
   A flag-using handler whose node's flag no other handler writes between its test and its reply: at the
   reply its outcome answers the flag of the test, and the flag is as its request leaves that.
   */
  lemma UndisturbedOutcome(r: Run, y: nat, i: nat, o: Outcome) returns (x: nat)
    requires r.Valid() && y < |r.states| && i < |r.states[y].streams| && r.states[y].streams[i].recv == Building(Some(o))
    ensures var n, k := r.states[y].streams[i].to, r.states[y].streams[i].proto.kind;
            && x < y && r.steps[x] == Test(i) && i < |r.states[x].streams| && UsesFlag(k)
            && o == Respond(k, n in r.states[x].streaming)
            && (NoOtherWrites(r, i, n, x, y) ==> (n in r.states[y].streaming <==> Apply(k, n in r.states[x].streaming)))
  {
    var n := r.states[y].streams[i].to;
    var u := Settled(r, y, i, n, o);
    x := SettledFrom(r, u, i, n, o);
    KindOfOutcome(r, y, i, o);
    OnlyOthersWrite(r, u, y, i, n, o);
    FlagSince(r, u + 1, y, n);
  }

  /** The reply built at step y answers the request, and the flag then is as the request leaves it. */
  lemma UndisturbedReply(r: Run, y: nat) returns (x: nat, flag: bool)
    requires r.Valid() && y < |r.steps| && r.steps[y].Build? && r.steps[y].i < |r.states[y].streams|
    ensures var s, i, t := r.states[y], r.steps[y].i, r.states[y].streams[r.steps[y].i];
            && (UsesFlag(t.proto.kind) ==>
                  && x < y && r.steps[x] == Test(i) && i < |r.states[x].streams|
                  && (flag <==> t.to in r.states[x].streaming))
            && t.send < |s.sends| && t.wire.Eof? && t.proto.Request? && FromSender(Payload(s, t)) && ProtocolOf(Payload(s, t)) == t.proto
            && |r.states[y + 1].sends| == |s.sends| + 1
            && ((UsesFlag(t.proto.kind) ==> NoOtherWrites(r, i, t.to, x, y)) ==>
                  && r.states[y + 1].sends[|s.sends|] == NewSend(t.to, t.from, ReplyOf(t.to, Payload(s, t), flag), Some(i))
                  && (t.to in s.streaming <==> Apply(t.proto.kind, flag)))
  {
    var s, i := r.states[y], r.steps[y].i;
    var t := s.streams[i];
    assert r.TakenAt(y);
    Always(r, y);
    assert StreamOk(s, i);
    x, flag := 0, t.to in s.streaming;
    if UsesFlag(t.proto.kind) {
      x := UndisturbedOutcome(r, y, i, t.recv.outcome.value);
      flag := t.to in r.states[x].streaming;
    }
  }

  /** The handler has ended: it waits on the channel, was let go, failed, or went down with its process. */
  predicate HasEnded(s: State, i: nat) {
    i < |s.streams| &&
    var t := s.streams[i];
    t.recv.Parked? || t.recv.Released? || t.recv.Failed? || t.recv.Died? ||
    (t.recv.Replying? && t.reply.Some? && t.reply.value < |s.sends| && s.sends[t.reply.value].pc.Panicked?)
  }

  /** As HandlerEnds, for a state that need not be the one the handler ended in. */
  predicate EndedAs(s: State, i: nat, sent: seq<Attempt>, v: Verdict)
    requires i < |s.streams|
  {
    var t := s.streams[i];
    && (match v
        case Waiting => t.recv.Parked? || t.recv.Released?
        case Error => t.recv.Failed?
        case Dead => (t.recv.Died? || t.recv.Replying?) && t.to in s.crashed)
    && if t.reply.None? then sent == [] else |sent| == 1 && EndsAs(s, t.reply.value, sent[0])
  }

  /** No other handler writes the flag between handler i's test and the step that builds its reply. */
  ghost predicate Uninterrupted(r: Run, e: nat, i: nat, n: Node) {
    forall x, y :: 0 <= x < y < e && y < |r.steps| && r.steps[x] == Test(i) && r.steps[y] == Build(i) ==> NoOtherWrites(r, i, n, x, y)
  }

  /** How a handler that has replied has ended. */
  lemma ReplyEnded(r: Run, e: nat, i: nat) returns (result: PingNode.Result, io: Script)
    requires r.Valid() && e < |r.states| && HasEnded(r.states[e], i) && r.states[e].streams[i].reply.Some?
    requires r.states[e].streams[i].proto.Request?
    ensures var s, t := r.states[e], r.states[e].streams[i];
            && t.reply.value < |s.sends|
            && var d := s.sends[t.reply.value];
            && PingNode.Sent(d.to, d.msg, io).result == result
            && EndedAs(s, i, [PingNode.Sent(d.to, d.msg, io)], Finish(t.proto.kind, result))
  {
    var s, t := r.states[e], r.states[e].streams[i];
    Always(r, e);
    assert StreamOk(s, i);
    var j := t.reply.value;
    assert SendOk(s, j);
    result := if s.sends[j].pc.Panicked? then Panic else Done(s.sends[j].pc.ok);
    io := SomeScript(s.sends[j].to, s.sends[j].msg, result, WireOf(s, s.sends[j].first), WireOf(s, s.sends[j].second));
  }

  /**
   In every run: a request handler that has ended, and whose node's flag no other handler wrote between its
   test and its reply, has ended as the imperative handler does on what it read, from the flag as its test saw
   it, under some conditions; at its reply the flag was as the imperative handler leaves it.
   */
  lemma RequestEndsOnly(r: Run, e: nat, i: nat)
    returns (data: Inbound, io: Script, x: nat, y: nat, flag: bool, flag': bool, sent: seq<Attempt>, v: Verdict)
    requires r.Valid() && e < |r.states| && HasEnded(r.states[e], i) && r.states[e].streams[i].proto.Request?
    requires Uninterrupted(r, e, i, r.states[e].streams[i].to)
    ensures var s, t := r.states[e], r.states[e].streams[i];
            && (data.Parsed? ==> t.send < |s.sends| && data.m == Payload(s, t) && ProtocolOf(data.m) == Request(t.proto.kind))
            && Ran(t.to, t.proto.kind, t.from, data, io, flag, flag', [], sent, v)
            && EndedAs(s, i, sent, v)
            && (t.reply.Some? ==>
                  && y < e && r.steps[y] == Build(i) && (flag' <==> t.to in r.states[y].streaming)
                  && (UsesFlag(t.proto.kind) ==> x < y && r.steps[x] == Test(i) && (flag <==> t.to in r.states[x].streaming)))
  {
    var s, t := r.states[e], r.states[e].streams[i];
    x, y, flag, flag' := 0, 0, false, false;
    io := Script(true, true, true, true, true);
    if t.reply.Some? {
      io, x, y, flag, flag', sent, v := RepliesOnly(r, e, i);
      data := Parsed(Payload(s, t));
    } else {
      data, v := EndsSilently(r, e, i);
      sent := [];
    }
  }

  lemma EndsSilently(r: Run, e: nat, i: nat) returns (data: Inbound, v: Verdict)
    requires r.Valid() && e < |r.states| && HasEnded(r.states[e], i) && r.states[e].streams[i].proto.Request?
    requires r.states[e].streams[i].reply.None?
    ensures var s, t := r.states[e], r.states[e].streams[i];
            && (data.Parsed? ==> t.send < |s.sends| && data.m == Payload(s, t) && ProtocolOf(data.m) == t.proto && !IdDefined(data.m))
            && !data.Malformed? && v == (if data.Parsed? then Dead else Error) && EndedAs(s, i, [], v)
  {
    var s, t := r.states[e], r.states[e].streams[i];
    Always(r, e);
    assert StreamOk(s, i);
    if t.recv.Died? {
        data, v := Parsed(Payload(s, t)), Dead;
    } else {
      data, v := ReadError, Error;
    }
  }

  lemma RepliesOnly(r: Run, e: nat, i: nat)
    returns (io: Script, x: nat, y: nat, flag: bool, flag': bool, sent: seq<Attempt>, v: Verdict)
    requires r.Valid() && e < |r.states| && HasEnded(r.states[e], i) && r.states[e].streams[i].proto.Request?
    requires r.states[e].streams[i].reply.Some? && Uninterrupted(r, e, i, r.states[e].streams[i].to)
    ensures var s, t := r.states[e], r.states[e].streams[i];
            && t.send < |s.sends| && ProtocolOf(Payload(s, t)) == Request(t.proto.kind)
            && Ran(t.to, t.proto.kind, t.from, Parsed(Payload(s, t)), io, flag, flag', [], sent, v)
            && EndedAs(s, i, sent, v)
            && y < e && r.steps[y] == Build(i) && (flag' <==> t.to in r.states[y].streaming)
            && (UsesFlag(t.proto.kind) ==> x < y && r.steps[x] == Test(i) && (flag <==> t.to in r.states[x].streaming))
  {
    var s, t := r.states[e], r.states[e].streams[i];
    var j, result := t.reply.value, Panic;
    y := BuiltAt(r, e, i, j);
    RequestKept(r, y, e, i);
    x, flag := UndisturbedReply(r, y);
    assert UsesFlag(t.proto.kind) ==> NoOtherWrites(r, i, t.to, x, y);
    Delivery.Persistence(r, y + 1, e);
    result, io := ReplyEnded(r, e, i);
    flag' := t.to in r.states[y].streaming;
    ReplyAnswers(t.to, Payload(s, t), flag);
    sent, v := [PingNode.Sent(s.sends[j].to, s.sends[j].msg, io)], Finish(t.proto.kind, result);
  }
}
