/**
 What the missing lock and a failed Marshal really allow: from every reachable state in which the nodes
 concerned are running (and the flag is down), and so from the start of the system, the run can go wrong.
 */
module Scenarios {
  import opened Wrappers
  import opened Messages
  import opened Network
  import opened Flag
  import opened Marks
  import opened Runs
  import Correspondence
  import PingNode

  /** A call whose stream does not fail puts all its bytes, or none when Marshal fails, on one cleanly closed stream. */
  lemma Ship(r: Run, a: Node, b: Node, msg: Message, full: bool) returns (q: Run)
    requires r.Valid() && a !in Last(r).crashed && FromSender(msg)
    ensures Extends(r, q)
    ensures var s, i, j := Last(r), |Last(r).streams|, |Last(r).sends|;
            Last(q) == s.(sends := s.sends + [Send(a, b, msg, None, Some(i), None, Returned(full))],
                          streams := s.streams + [Stream(a, b, ProtocolOf(msg), j, Eof(full), Unaccepted, None)])
  {
    q := CallMove(r, a, b, msg);
    q := Correspondence.SendRuns(q, |Last(r).sends|, PingNode.Script(true, full, true, true, true));
  }

  /** A request of a running node to a running node can always get as far as its handler's test. */
  lemma Deliver(r: Run, a: Node, b: Node, msg: Message) returns (q: Run)
    requires r.Valid() && a !in Last(r).crashed && b !in Last(r).crashed
    requires FromSender(msg) && UsesFlag(ProtocolOf(msg).kind)
    ensures Extends(r, q)
    ensures var s, i, j := Last(r), |Last(r).streams|, |Last(r).sends|;
            Last(q) == s.(sends := s.sends + [Send(a, b, msg, None, Some(i), None, Returned(true))],
                          streams := s.streams + [Stream(a, b, ProtocolOf(msg), j, Eof(true), Testing, None)],
                          log := s.log + [Event(b, Accepted)])
  {
    var s, i, j := Last(r), |Last(r).streams|, |Last(r).sends|;
    var t := Stream(a, b, ProtocolOf(msg), j, Eof(true), Unaccepted, None);
    q := Ship(r, a, b, msg, true);
    q := RecvMove(q, Accept(i));
    assert Last(q).streams == s.streams + [t.(recv := Reading)];
    q := RecvMove(q, ReadAll(i));
    assert Last(q).streams == s.streams + [t.(recv := Testing)];
  }

  /** The handler of stream i, at the running node b, has read the request m and is at `recv`. */
  predicate Serves(s: State, i: nat, b: Node, m: Message, recv: Recv) {
    && b !in s.crashed && i < |s.streams|
    && s.streams[i].to == b && s.streams[i].recv == recv && s.streams[i].proto == ProtocolOf(m)
    && s.streams[i].send < |s.sends| && Payload(s, s.streams[i]) == m
  }

  /** The requests the scenarios use: from a running node, about the flag of a running node whose flag is down. */
  predicate CanSend(s: State, a: Node, b: Node, m: Message) {
    a !in s.crashed && b !in s.crashed && b !in s.streaming && FromSender(m) && UsesFlag(ProtocolOf(m).kind)
  }

  /** At the start of the system, whichever nodes are mobile clients, every node can send to every node. */
  lemma AtTheStart(clients: set<Node>) returns (r: Run)
    ensures r.Valid() && Last(r).clients == clients
    ensures forall a, b, m | FromSender(m) && UsesFlag(ProtocolOf(m).kind) :: CanSend(Last(r), a, b, m)
  {
    r := Run([State(clients, [], [], {}, {}, map[], [])], []);
  }

  /** Requests m of a and l of c have both got as far as their handlers' test at b. */
  lemma TwoWaiting(r: Run, a: Node, c: Node, b: Node, m: Message, l: Message) returns (q: Run, i: nat, k: nat)
    requires r.Valid() && CanSend(Last(r), a, b, m) && CanSend(Last(r), c, b, l)
    ensures Extends(r, q) && i != k && Serves(Last(q), i, b, m, Testing) && Serves(Last(q), k, b, l, Testing)
    ensures b !in Last(q).streaming && OutcomesAt(Last(q).log, b) == OutcomesAt(Last(r).log, b)
  {
    i, k := |Last(r).streams|, |Last(r).streams| + 1;
    q := Deliver(r, a, b, m);
    OutcomesAppend(Last(r).log, Event(b, Accepted), b);
    OutcomesAppend(Last(q).log, Event(b, Accepted), b);
    q := Deliver(q, c, b, l);
  }

  /** Where the test leaves a handler that has seen the flag give o. */
  function Tested(o: Outcome): Recv {
    if o.Success? then Setting else if o.StreamStopped? then Clearing else Building(Some(o))
  }

  /** Handler i takes its test. */
  lemma TestsAlone(r: Run, i: nat, m: Message, b: Node) returns (q: Run)
    requires r.Valid() && Serves(Last(r), i, b, m, Testing) && UsesFlag(ProtocolOf(m).kind)
    ensures Extends(r, q)
    ensures var s, s', o := Last(r), Last(q), Respond(ProtocolOf(m).kind, b in Last(r).streaming);
            && s'.streams == s.streams[i := s.streams[i].(recv := Tested(o))] && s'.sends == s.sends
            && s'.streaming == s.streaming && s'.crashed == s.crashed
            && OutcomesAt(s'.log, b) == OutcomesAt(s.log, b) + (if Tested(o).Building? then [o] else [])
  {
    q := RecvMove(r, Test(i));
    OutcomesAppend(Last(r).log, Event(b, Did(Respond(ProtocolOf(m).kind, b in Last(r).streaming))), b);
  }

  /** Handler i takes its test while handler k, of the same node, stays where it is. */
  lemma Tests(r: Run, i: nat, m: Message, k: nat, l: Message, recv: Recv, b: Node) returns (q: Run)
    requires r.Valid() && i != k && Serves(Last(r), i, b, m, Testing) && Serves(Last(r), k, b, l, recv)
    requires UsesFlag(ProtocolOf(m).kind)
    ensures Extends(r, q) && Serves(Last(q), k, b, l, recv) && Last(q).streaming == Last(r).streaming
    ensures var o := Respond(ProtocolOf(m).kind, b in Last(r).streaming);
            && Serves(Last(q), i, b, m, Tested(o))
            && OutcomesAt(Last(q).log, b) == OutcomesAt(Last(r).log, b) + (if Tested(o).Building? then [o] else [])
  {
    q := TestsAlone(r, i, m, b);
  }

  /** Handler i writes the flag while handler k, of the same node, stays where it is. */
  lemma Writes(r: Run, i: nat, m: Message, up: bool, k: nat, l: Message, recv: Recv, b: Node) returns (q: Run)
    requires r.Valid() && i != k && Serves(Last(r), i, b, m, if up then Setting else Clearing) && Serves(Last(r), k, b, l, recv)
    ensures Extends(r, q) && Serves(Last(q), k, b, l, recv)
    ensures var o := if up then Success else StreamStopped;
            && Serves(Last(q), i, b, m, Building(Some(o))) && (b in Last(q).streaming <==> up)
            && OutcomesAt(Last(q).log, b) == OutcomesAt(Last(r).log, b) + [o]
  {
    q := RecvMove(r, Write(i));
    OutcomesAppend(Last(r).log, Event(b, Did(if up then Success else StreamStopped)), b);
  }

  /** Handler i builds its reply. */
  lemma Builds(r: Run, i: nat, m: Message, o: Outcome, b: Node) returns (q: Run)
    requires r.Valid() && Serves(Last(r), i, b, m, Building(Some(o))) && FromSender(m)
    ensures Extends(r, q)
    ensures Last(q) == Correspondence.AfterBuild(Last(r), i, ReplyTo(b, m, Some(o), b in Last(r).streaming))
  {
    q := RecvMove(r, Build(i));
  }

  /** Two overlapping start requests can both be told SUCCESS. */
  lemma TwoSuccesses(r: Run, a: Node, c: Node, b: Node, m: Message, l: Message) returns (q: Run)
    requires r.Valid() && CanSend(Last(r), a, b, m) && CanSend(Last(r), c, b, l)
    requires m.StartStreamRequest? && l.StartStreamRequest?
    ensures Extends(r, q) && OutcomesAt(Last(q).log, b) == OutcomesAt(Last(r).log, b) + [Success, Success]
  {
    var i, k;
    q, i, k := TwoWaiting(r, a, c, b, m, l);
    q := Tests(q, i, m, k, l, Testing, b);
    q := Tests(q, k, l, i, m, Setting, b);
    q := BothWrite(q, i, m, k, l, b);
  }

  lemma BothWrite(r: Run, i: nat, m: Message, k: nat, l: Message, b: Node) returns (q: Run)
    requires r.Valid() && i != k && Serves(Last(r), i, b, m, Setting) && Serves(Last(r), k, b, l, Setting)
    ensures Extends(r, q) && OutcomesAt(Last(q).log, b) == OutcomesAt(Last(r).log, b) + [Success, Success]
  {
    q := Writes(r, i, m, true, k, l, Setting, b);
    q := Writes(q, k, l, true, i, m, Building(Some(Success)), b);
  }

  /** Handler i starts the stream. */
  lemma Starts(r: Run, i: nat, m: Message, k: nat, l: Message, b: Node) returns (q: Run)
    requires r.Valid() && i != k && Serves(Last(r), i, b, m, Testing) && Serves(Last(r), k, b, l, Testing)
    requires m.StartStreamRequest? && b !in Last(r).streaming
    ensures Extends(r, q) && Serves(Last(q), i, b, m, Building(Some(Success))) && Serves(Last(q), k, b, l, Testing)
    ensures b in Last(q).streaming
  {
    q := Tests(r, i, m, k, l, Testing, b);
    q := Writes(q, i, m, true, k, l, Testing, b);
  }

  /** A stop that lands between a start's write and its reply makes the reply say SUCCESS and not streaming. */
  lemma SuccessNotStreaming(r: Run, a: Node, c: Node, b: Node, m: Message, l: Message) returns (q: Run)
    requires r.Valid() && CanSend(Last(r), a, b, m) && CanSend(Last(r), c, b, l)
    requires m.StartStreamRequest? && l.StopStreamRequest?
    ensures Extends(r, q) && |Last(q).sends| > 0
    ensures Last(q).sends[|Last(q).sends| - 1].msg == StartStreamResponse(m.id, false, StatusText(Some(Success)))
  {
    var i, k;
    q, i, k := TwoWaiting(r, a, c, b, m, l);
    q := Starts(q, i, m, k, l, b);
    q := Tests(q, k, l, i, m, Building(Some(Success)), b);
    q := WriteThenReply(q, k, l, false, i, m, Success, b);
  }

  lemma WriteThenReply(r: Run, k: nat, l: Message, up: bool, i: nat, m: Message, o: Outcome, b: Node) returns (q: Run)
    requires r.Valid() && i != k && Serves(Last(r), k, b, l, if up then Setting else Clearing)
    requires Serves(Last(r), i, b, m, Building(Some(o))) && FromSender(m)
    ensures Extends(r, q) && |Last(q).sends| > 0
    ensures Last(q).sends[|Last(q).sends| - 1].msg == ReplyTo(b, m, Some(o), up)
  {
    q := Writes(r, k, l, up, i, m, Building(Some(o)), b);
    q := Builds(q, i, m, o, b);
  }

  /** A start that lands between the two reads of a status handler makes its text and its boolean disagree. */
  lemma StatusDisagrees(r: Run, a: Node, c: Node, b: Node, m: Message, l: Message) returns (q: Run)
    requires r.Valid() && CanSend(Last(r), a, b, m) && CanSend(Last(r), c, b, l)
    requires m.StatusRequest? && l.StartStreamRequest?
    ensures Extends(r, q) && |Last(q).sends| > 0
    ensures Last(q).sends[|Last(q).sends| - 1].msg == StatusResponse(true, StatusText(Some(Inactive)))
  {
    var i, k;
    q, i, k := TwoWaiting(r, a, c, b, m, l);
    q := Tests(q, i, m, k, l, Testing, b);
    q := Tests(q, k, l, i, m, Building(Some(Inactive)), b);
    q := WriteThenReply(q, k, l, true, i, m, Inactive, b);
  }

  /** A start, stop or status request whose Marshal fails can take its receiver down. */
  lemma EmptyRequestCrashes(r: Run, a: Node, b: Node, msg: Message) returns (q: Run)
    requires r.Valid() && a !in Last(r).crashed && b !in Last(r).crashed
    requires FromSender(msg) && UsesFlag(ProtocolOf(msg).kind)
    ensures Extends(r, q) && Last(q).crashed == Last(r).crashed + {b}
  {
    var s, i, j := Last(r), |Last(r).streams|, |Last(r).sends|;
    var t := Stream(a, b, ProtocolOf(msg), j, Eof(false), Unaccepted, None);
    q := Ship(r, a, b, msg, false);
    q := RecvMove(q, Accept(i));
    assert Last(q).streams == s.streams + [t.(recv := Reading)];
    q := RecvMove(q, ReadAll(i));
  }

  // ---- A response that arrives empty

  /** If nothing but a look at the flag was logged on the way from r to q, the flag stayed up all the way. */
  lemma StaysUp(r: Run, q: Run, n: Node)
    requires r.Valid() && Extends(r, q) && n in Last(r).streaming
    requires OutcomesAt(Last(q).log, n) == OutcomesAt(Last(r).log, n) + [Active]
    ensures forall u :: |r.states| - 1 <= u < |q.states| ==> n in q.states[u].streaming
  {
    assert Last(r) == q.states[|r.states| - 1];
    forall u | |r.states| - 1 <= u < |q.states| ensures n in q.states[u].streaming {
      UpAt(q, |r.states| - 1, u, n);
    }
  }

  lemma UpAt(q: Run, v: nat, u: nat, n: Node)
    requires q.Valid() && v <= u < |q.states| && n in q.states[v].streaming
    requires OutcomesAt(Last(q).log, n) == OutcomesAt(q.states[v].log, n) + [Active]
    ensures n in q.states[u].streaming
  {
    var os, os' := OutcomesAt(q.states[v].log, n), OutcomesAt(q.states[u].log, n);
    OutcomesGrow(q, v, u, n);
    OutcomesGrow(q, u, |q.states| - 1, n);
    AlternationExactly(q, v, n);
    AlternationExactly(q, u, n);
    MarkAppend(os, Active);
    assert os' == os || os' == os + [Active];
  }

  /** A send whose Marshal fails leaves one stream, closed without a byte. */
  lemma EmptySend(r: Run, j: nat) returns (q: Run)
    requires r.Valid() && Correspondence.CanRun(Last(r), j)
    ensures Extends(r, q)
    ensures var s, s' := Last(r), Last(q);
            && s'.streams == s.streams + [NewStream(s, j).(wire := Eof(false))] && |s'.sends| == |s.sends|
            && s'.log == s.log && s'.streaming == s.streaming && s'.crashed == s.crashed
  {
    q := Correspondence.SendRuns(r, j, PingNode.Script(true, false, true, true, true));
  }

  /** A response that was closed without a byte is read, and its handler waits on it. */
  lemma EmptyArrives(r: Run, k: nat, b: Node) returns (q: Run)
    requires r.Valid() && RecvAt(Last(r), k, Unaccepted) && Last(r).streams[k].proto.Response? && Last(r).streams[k].wire == Eof(false)
    ensures Extends(r, q) && OutcomesAt(Last(q).log, b) == OutcomesAt(Last(r).log, b)
    ensures |Last(q).streams| == |Last(r).streams| && Last(q).streams[k] == Last(r).streams[k].(recv := Parked)
    ensures |Last(q).sends| == |Last(r).sends|
  {
    var a := Last(r).streams[k].to;
    OutcomesAppend(Last(r).log, Event(a, Accepted), b);
    q := RecvMove(r, Accept(k));
    OutcomesAppend(Last(q).log, Event(a, Reached), b);
    q := RecvMove(q, ReadAll(k));
  }

  lemma EmptyReply(r: Run, i: nat, m: Message, o: Outcome, b: Node) returns (q: Run)
    requires r.Valid() && Serves(Last(r), i, b, m, Building(Some(o))) && FromSender(m) && ProtocolOf(m).Request?
    requires Last(r).streams[i].from !in Last(r).crashed
    ensures Extends(r, q) && OutcomesAt(Last(q).log, b) == OutcomesAt(Last(r).log, b)
    ensures ReadEmpty(Last(q), |Last(r).streams|, b, Last(r).streams[i].from, ProtocolOf(m).kind)
  {
    q := Builds(r, i, m, o, b);
    q := EmptySend(q, |Last(r).sends|);
    q := EmptyArrives(q, |Last(r).streams|, b);
  }

  /** Stream k is a response from b to a whose handler has read the empty message and waits. */
  predicate ReadEmpty(s: State, k: nat, b: Node, a: Node, kind: Kind) {
    && k < |s.streams| && s.streams[k].from == b && s.streams[k].to == a
    && s.streams[k].proto == Response(kind) && s.streams[k].recv == Parked
    && s.streams[k].send < |s.sends| && Payload(s, s.streams[k]) == Zero(Response(kind))
  }

  lemma AsksStatus(r: Run, a: Node, b: Node, m: Message) returns (q: Run, i: nat)
    requires r.Valid() && a !in Last(r).crashed && b !in Last(r).crashed && b in Last(r).streaming
    requires FromSender(m) && m.StatusRequest?
    ensures Extends(r, q) && Serves(Last(q), i, b, m, Building(Some(Active))) && Last(q).streams[i].from == a
    ensures OutcomesAt(Last(q).log, b) == OutcomesAt(Last(r).log, b) + [Active] && a !in Last(q).crashed
  {
    i := |Last(r).streams|;
    OutcomesAppend(Last(r).log, Event(b, Accepted), b);
    q := Deliver(r, a, b, m);
    q := TestsAlone(q, i, m, b);
  }

  /** A status response whose Marshal fails is read as not streaming although the node streams all along. */
  lemma EmptyReplyMisreports(r: Run, a: Node, b: Node, m: Message) returns (q: Run, k: nat)
    requires r.Valid() && a !in Last(r).crashed && b !in Last(r).crashed && b in Last(r).streaming
    requires FromSender(m) && m.StatusRequest?
    ensures Extends(r, q) && ReadEmpty(Last(q), k, b, a, Status)
    ensures FlagOfReply(Payload(Last(q), Last(q).streams[k])) == Some(false)
    ensures forall u :: |r.states| - 1 <= u < |q.states| ==> b in q.states[u].streaming
  {
    var i;
    q, i := AsksStatus(r, a, b, m);
    k := |Last(q).streams|;
    q := EmptyReply(q, i, m, Active, b);
    StaysUp(r, q, b);
  }
}
