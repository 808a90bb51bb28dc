/**
 Conservation of the tokens on the unbuffered done channel, of inbound streams and of ticker
 iterations, at every node and in every reachable state; and the backlog these imply.
 */
module Tokens {
  import opened Wrappers
  import opened Messages
  import opened Network
  import opened Structure
  import opened Counting
  import Delivery

  function IsEvent(n: Node, what: What): Event -> nat {
    (e: Event) => if e == Event(n, what) then 1 else 0
  }

  function IsParked(n: Node): Stream -> nat {
    (t: Stream) => if t.to == n && t.recv.Parked? then 1 else 0
  }

  predicate Live(r: Recv) {
    !(r.Unaccepted? || r.Lost? || r.Released? || r.Failed?)
  }

  /** The handler was run and has returned. */
  predicate IsOver(r: Recv) {
    r.Released? || r.Failed?
  }

  function IsEnded(n: Node): Stream -> nat {
    (t: Stream) => if t.to == n && IsOver(t.recv) then 1 else 0
  }

  function IsLive(n: Node): Stream -> nat {
    (t: Stream) => if t.to == n && Live(t.recv) then 1 else 0
  }

  /** How often `what` has happened at n. */
  function Happened(s: State, n: Node, what: What): nat {
    Sum(s.log, IsEvent(n, what))
  }

  /** Handlers of n blocked on the done channel. */
  function ParkedAt(s: State, n: Node): nat {
    Sum(s.streams, IsParked(n))
  }

  /** Inbound streams of n whose handler goroutine has not ended. */
  function LiveAt(s: State, n: Node): nat {
    Sum(s.streams, IsLive(n))
  }

  /** Inbound streams of n whose handler goroutine has ended. */
  function EndedAt(s: State, n: Node): nat {
    Sum(s.streams, IsEnded(n))
  }

  /** A ticker iteration for some target is in progress. */
  function Busy(s: State, n: Node): nat {
    if LoopOf(s, n).Idle? then 0 else 1
  }

  /** Calls made so far by the iteration in progress. */
  function Progress(s: State, n: Node): nat {
    match LoopOf(s, n)
    case Idle => 0
    case Calling(_, k, call) => if call.Some? then k + 1 else k
    case Selecting => |Program(s, n)|
  }

  /** The calls of k full iterations of n's ticker. */
  function CallsOf(s: State, n: Node, k: nat): nat
  {
    if n in s.clients then 6 * k else k
  }

  predicate Conserved(s: State, n: Node) {
    var c := TallyOf(s.log, n);
    && c.reached == c.took + ParkedAt(s, n)
    && c.accepted == c.ended + LiveAt(s, n) && c.ended == EndedAt(s, n)
    && c.took + Busy(s, n) <= c.began
    && (n !in s.clients ==> c.took == 0)
    && c.called + CallsOf(s, n, Busy(s, n)) == CallsOf(s, n, c.began) + Progress(s, n)
  }

  /** A weight of streams that sees neither the wire nor a stream not yet accepted. */
  ghost predicate SeesOnlyHandler(f: Stream -> nat) {
    && (forall t: Stream, w: Wire :: f(t.(wire := w)) == f(t))
    && (forall t: Stream :: t.recv.Unaccepted? ==> f(t) == 0)
  }

  /** What a sender step does to the streams: nothing, one new stream, or one wire. */
  ghost predicate WiresOnly(s: State, s': State, i: nat, t: Stream) {
    && s'.log == s.log && s'.loops == s.loops && s'.clients == s.clients
    && (s'.streams == s.streams
        || (t.recv.Unaccepted? && s'.streams == s.streams + [t])
        || (i < |s.streams| && t == s.streams[i].(wire := t.wire) && s'.streams == s.streams[i := t]))
  }

  lemma SendEffect(s: State, step: Step) returns (i: nat, t: Stream)
    requires Inv(s) && Enabled(s, step) && IsSendStep(step)
    ensures WiresOnly(s, NextSend(s, step), i, t)
  {
    var s' := NextSend(s, step);
    assert SendOk(s, step.j);
    if step.Dial? || step.Redial? {
      i, t := 0, NewStream(s, step.j);
    } else {
      i := if step.Marshal? then 0 else LastStream(s.sends[step.j]).value;
      t := if i < |s'.streams| then s'.streams[i] else NewStream(s, step.j);
    }
  }

  lemma WireSums(s: State, s': State, i: nat, t: Stream, f: Stream -> nat)
    requires WiresOnly(s, s', i, t) && SeesOnlyHandler(f)
    ensures Sum(s'.streams, f) == Sum(s.streams, f)
  {
    if s'.streams == s.streams {
    } else if i < |s.streams| && s'.streams == s.streams[i := t] {
      SumUpdate(s.streams, i, t, f);
      assert f(t) == f(s.streams[i].(wire := t.wire)) == f(s.streams[i]);
    } else {
      SumAppend(s.streams, t, f);
    }
  }

  /** The events at n as six numbers. */
  datatype Tally = Tally(accepted: nat, ended: nat, reached: nat, took: nat, began: nat, called: nat)

  function TallyOf(log: seq<Event>, n: Node): Tally {
    Tally(Sum(log, IsEvent(n, Accepted)), Sum(log, IsEvent(n, Ended)), Sum(log, IsEvent(n, Reached)),
          Sum(log, IsEvent(n, Took)), Sum(log, IsEvent(n, Began)), Sum(log, IsEvent(n, Called)))
  }

  function Count(c: Tally, n: Node, e: Event): Tally {
    if e.node != n then c
    else match e.what
      case Accepted => c.(accepted := c.accepted + 1)
      case Ended => c.(ended := c.ended + 1)
      case Reached => c.(reached := c.reached + 1)
      case Took => c.(took := c.took + 1)
      case Began => c.(began := c.began + 1)
      case Called => c.(called := c.called + 1)
      case Did(_) => c
  }

  /** One event appended to the log is counted once. */
  lemma LogStep(log: seq<Event>, e: Event, n: Node)
    ensures TallyOf(log + [e], n) == Count(TallyOf(log, n), n, e)
  {
    SumAppend(log, e, IsEvent(n, Accepted));
    SumAppend(log, e, IsEvent(n, Ended));
    SumAppend(log, e, IsEvent(n, Reached));
    SumAppend(log, e, IsEvent(n, Took));
    SumAppend(log, e, IsEvent(n, Began));
    SumAppend(log, e, IsEvent(n, Called));
  }

  lemma StreamStep(s: State, i: nat, t: Stream, n: Node)
    requires i < |s.streams| && t.to == s.streams[i].to
    ensures Sum(s.streams[i := t], IsParked(n)) + IsParked(n)(s.streams[i]) == ParkedAt(s, n) + IsParked(n)(t)
    ensures Sum(s.streams[i := t], IsLive(n)) + IsLive(n)(s.streams[i]) == LiveAt(s, n) + IsLive(n)(t)
    ensures Sum(s.streams[i := t], IsEnded(n)) + IsEnded(n)(s.streams[i]) == EndedAt(s, n) + IsEnded(n)(t)
  {
    SumUpdate(s.streams, i, t, IsParked(n));
    SumUpdate(s.streams, i, t, IsLive(n));
    SumUpdate(s.streams, i, t, IsEnded(n));
  }

  lemma SendConserves(s: State, step: Step, n: Node)
    requires Inv(s) && Conserved(s, n) && Enabled(s, step) && IsSendStep(step)
    ensures Conserved(NextSend(s, step), n)
  {
    var s' := NextSend(s, step);
    var i, t := SendEffect(s, step);
    WireSums(s, s', i, t, IsParked(n));
    WireSums(s, s', i, t, IsLive(n));
    WireSums(s, s', i, t, IsEnded(n));
    SameTicker(s, s', n);
  }

  lemma SameTicker(s: State, s': State, n: Node)
    requires s'.log == s.log && s'.loops == s.loops && s'.clients == s.clients
    ensures TallyOf(s'.log, n) == TallyOf(s.log, n)
    ensures Busy(s', n) == Busy(s, n) && Progress(s', n) == Progress(s, n) && Program(s', n) == Program(s, n)
  {
  }

  /** What a handler step does to the log and the handlers: one handler moves and at most one event is
      logged; reaching the channel is logged when the handler parks, the start and the end likewise. */
  ghost predicate HandlerMoved(s: State, s': State, i: nat, t: Stream, es: seq<Event>) {
    && i < |s.streams| && t.to == s.streams[i].to
    && s'.streams == s.streams[i := t]
    && s'.log == s.log + es && s'.loops == s.loops && s'.clients == s.clients
    && !s.streams[i].recv.Parked? && (Live(s.streams[i].recv) || s.streams[i].recv.Unaccepted?)
    && if es == [] then !t.recv.Parked? && !IsOver(t.recv) && (Live(t.recv) <==> Live(s.streams[i].recv))
       else
         |es| == 1 && es[0].node == t.to &&
         match es[0].what
         case Accepted => Live(t.recv) && !t.recv.Parked? && !Live(s.streams[i].recv)
         case Ended => IsOver(t.recv) && Live(s.streams[i].recv)
         case Reached => t.recv.Parked? && Live(s.streams[i].recv)
         case Did(_) => !t.recv.Parked? && Live(t.recv) && Live(s.streams[i].recv)
         case _ => false
  }

  lemma RecvEffect(s: State, step: Step) returns (t: Stream, es: seq<Event>)
    requires Enabled(s, step) && IsRecvStep(step)
    ensures HandlerMoved(s, NextRecv(s, step), step.i, t, es)
  {
    var s' := NextRecv(s, step);
    t := s'.streams[step.i];
    es := s'.log[|s.log|..];
  }

  lemma RecvConserves(s: State, step: Step, n: Node)
    requires Conserved(s, n) && Enabled(s, step) && IsRecvStep(step)
    ensures Conserved(NextRecv(s, step), n)
  {
    var t, es := RecvEffect(s, step);
    HandlerConserves(s, NextRecv(s, step), step.i, t, es, n);
  }

  lemma HandlerConserves(s: State, s': State, i: nat, t: Stream, es: seq<Event>, n: Node)
    requires Conserved(s, n) && HandlerMoved(s, s', i, t, es)
    ensures Conserved(s', n)
  {
    StreamStep(s, i, t, n);
    SameTicker(s, s'.(log := s.log), n);
    if es == [] {
      assert s'.log == s.log;
    } else {
      assert es == [es[0]];
      LogStep(s.log, es[0], n);
    }
  }

  /** What a ticker step other than a receive does to its node's loop and the log. */
  ghost predicate LoopMoved(s: State, s': State, n: Node, es: seq<Event>) {
    && s'.streams == s.streams && s'.clients == s.clients && s'.log == s.log + es
    && (forall m :: m != n ==> LoopOf(s', m) == LoopOf(s, m))
    && if es == [] then CallsOf(s, n, Busy(s, n)) + Progress(s', n) == CallsOf(s, n, Busy(s', n)) + Progress(s, n)
                        && Busy(s', n) <= Busy(s, n)
       else if es == [Event(n, Began)] then Busy(s, n) == 0 && Busy(s', n) == 1 && Progress(s', n) == 0
       else es == [Event(n, Called)] && Busy(s, n) == Busy(s', n) == 1 && Progress(s', n) == Progress(s, n) + 1
  }

  lemma LoopEffect(s: State, step: Step) returns (es: seq<Event>)
    requires Inv(s) && Enabled(s, step) && !IsSendStep(step) && !IsRecvStep(step) && !step.Receive?
    ensures LoopMoved(s, NextLoop(s, step), step.node, es)
  {
    assert LoopOk(s, step.node);
    es := NextLoop(s, step).log[|s.log|..];
  }

  lemma LoopConserves(s: State, s': State, m: Node, es: seq<Event>, n: Node)
    requires Conserved(s, n) && LoopMoved(s, s', m, es)
    ensures Conserved(s', n)
  {
    if es == [] {
      assert s'.log == s.log;
    } else {
      assert es == [es[0]];
      LogStep(s.log, es[0], n);
    }
  }

  /** What a receive does: the handler ends, and so does the iteration of the mobile client that received. */
  ghost predicate TokenTaken(s: State, s': State, i: nat) {
    && i < |s.streams| && s.streams[i].recv.Parked?
    && s'.clients == s.clients && s.streams[i].to in s.clients
    && s'.streams == s.streams[i := s.streams[i].(recv := Released)]
    && s'.log == s.log + [Event(s.streams[i].to, Took)] + [Event(s.streams[i].to, Ended)]
    && LoopOf(s, s.streams[i].to).Selecting? && LoopOf(s', s.streams[i].to).Idle?
    && (forall n :: n != s.streams[i].to ==> LoopOf(s', n) == LoopOf(s, n))
  }

  lemma ReceiveEffect(s: State, i: nat)
    requires Inv(s) && Enabled(s, Receive(i))
    ensures TokenTaken(s, NextLoop(s, Receive(i)), i)
  {
    assert LoopOk(s, s.streams[i].to);
  }

  lemma ReceiveConserves(s: State, s': State, i: nat, n: Node)
    requires Conserved(s, n) && TokenTaken(s, s', i)
    ensures Conserved(s', n)
  {
    var m := s.streams[i].to;
    StreamStep(s, i, s.streams[i].(recv := Released), n);
    LogStep(s.log, Event(m, Took), n);
    LogStep(s.log + [Event(m, Took)], Event(m, Ended), n);
  }

  /**
   At every node, in every reachable state: handlers that reached the done channel = tokens received
   + handlers parked there; inbound streams accepted = ended + live; a target iteration takes at most
   one token, and only on a mobile client; and the ticker has made exactly the calls of its program.
   */
  lemma {:induction false} Conservation(r: Run, t: nat, n: Node)
    requires r.Valid() && t < |r.states|
    ensures Conserved(r.states[t], n)
  {
    if t > 0 {
      var s, step := r.states[t - 1], r.steps[t - 1];
      Conservation(r, t - 1, n);
      Always(r, t - 1);
      assert r.TakenAt(t - 1);
      if IsSendStep(step) {
        SendConserves(s, step, n);
      } else if IsRecvStep(step) {
        RecvConserves(s, step, n);
      } else if step.Receive? {
        ReceiveEffect(s, step.i);
        ReceiveConserves(s, r.states[t], step.i, n);
      } else {
        var es := LoopEffect(s, step);
        LoopConserves(s, r.states[t], step.node, es, n);
      }
    }
  }

  /** Each received token releases exactly one handler, of the receiving node. */
  lemma ReceiveReleasesOne(r: Run, t: nat)
    requires r.Valid() && t < |r.steps| && r.steps[t].Receive?
    ensures var i := r.steps[t].i;
            && i < |r.states[t].streams|
            && r.states[t].streams[i].recv == Parked
            && r.states[t + 1].streams == r.states[t].streams[i := r.states[t].streams[i].(recv := Released)]
            && ParkedAt(r.states[t + 1], r.states[t].streams[i].to) + 1 == ParkedAt(r.states[t], r.states[t].streams[i].to)
  {
    assert r.TakenAt(t);
    var s, i := r.states[t], r.steps[t].i;
    StreamStep(s, i, s.streams[i].(recv := Released), s.streams[i].to);
  }

  /**
   On a mobile client: every completed target iteration made six calls and took at most one token, so the
   handlers parked are at least those that reached the channel minus the iterations completed.
   */
  lemma ClientBacklog(r: Run, t: nat, n: Node)
    requires r.Valid() && t < |r.states| && n in r.states[t].clients
    ensures var s := r.states[t];
            var completed := Happened(s, n, Began) - Busy(s, n);
            && completed >= 0
            && ParkedAt(s, n) >= Happened(s, n, Reached) - completed
            && Happened(s, n, Called) == 6 * completed + Progress(s, n)
  {
    Conservation(r, t, n);
  }

  /** On any other node nothing is received: the parked handlers are all that ever reached the channel. */
  lemma RunnerBacklog(r: Run, t: nat, u: nat, n: Node)
    requires r.Valid() && t <= u < |r.states| && n !in r.states[t].clients
    ensures ParkedAt(r.states[t], n) == Happened(r.states[t], n, Reached)
    ensures ParkedAt(r.states[t], n) <= ParkedAt(r.states[u], n)
  {
    LogGrows(r, t, u, n, Reached);
    Conservation(r, t, n);
    Conservation(r, u, n);
  }

  lemma LogGrows(r: Run, t: nat, u: nat, n: Node, what: What)
    requires r.Valid() && t <= u < |r.states|
    ensures r.states[u].clients == r.states[t].clients
    ensures Happened(r.states[t], n, what) <= Happened(r.states[u], n, what)
  {
    Delivery.Persistence(r, t, u);
    var es := r.states[u].log[|r.states[t].log|..];
    assert r.states[u].log == r.states[t].log + es;
    SumExtend(r.states[t].log, es, IsEvent(n, what));
  }
}
