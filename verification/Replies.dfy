/**
 When the text and the boolean of a reply contradict each other: the text is settled at one look at the
 flag, the boolean is read at a later one, and the mutex that should cover both is never locked.
 */
module Replies {
  import opened Wrappers
  import opened Messages
  import opened Network
  import opened Structure
  import opened Flag
  import opened Marks
  import Delivery

  /** The step at u logs the outcome o of handler i: it is its test, if that decides, or its write. */
  predicate SettlesAt(r: Run, u: nat, i: nat, o: Outcome) {
    && u < |r.steps| && u + 1 < |r.states| && (r.steps[u] == Test(i) || r.steps[u] == Write(i))
    && i < |r.states[u].streams|
    && r.states[u + 1].log == r.states[u].log + [Event(r.states[u].streams[i].to, Did(o))]
  }

  /** Handler i of node n has settled on o and not yet built its reply. */
  predicate HasSettled(s: State, i: nat, n: Node, o: Outcome) {
    i < |s.streams| && s.streams[i].to == n && s.streams[i].recv == Building(Some(o))
  }

  /** The flag as the outcome reports it: up for SUCCESS, ALREADY_STREAMING and active, down for the others. */
  predicate SaysUp(o: Outcome) {
    o.Success? || o.AlreadyStreaming? || o.Active?
  }

  lemma JustSettled(s: State, step: Step, i: nat, n: Node, o: Outcome)
    requires Enabled(s, step) && HasSettled(Next(s, step), i, n, o) && !HasSettled(s, i, n, o)
    ensures step == Test(i) || step == Write(i)
    ensures i < |s.streams| && s.streams[i].to == n && Next(s, step).log == s.log + [Event(n, Did(o))]
    ensures n in Next(s, step).streaming <==> SaysUp(o)
  {
    if step.Test? {
      var recv, seen := TestEffect(s, step.i);
    } else if step.Write? {
      WriteEffect(s, step.i);
    } else {
      var es := OtherIsQuiet(s, step);
      assert Engaged(Next(s, step).streams[i].recv);
    }
  }

  lemma SettlesHere(r: Run, u: nat, i: nat, n: Node, o: Outcome)
    requires r.Valid() && u < |r.steps| && HasSettled(r.states[u + 1], i, n, o) && !HasSettled(r.states[u], i, n, o)
    ensures SettlesAt(r, u, i, o) && r.states[u].streams[i].to == n
    ensures n in r.states[u + 1].streaming <==> SaysUp(o)
  {
    assert r.TakenAt(u);
    JustSettled(r.states[u], r.steps[u], i, n, o);
  }

  lemma NotYet(r: Run, i: nat, n: Node, o: Outcome)
    requires r.Valid()
    ensures !HasSettled(r.states[0], i, n, o)
  {
  }

  /** A handler about to build its reply settled on its outcome at one earlier step, when the flag was as
      the outcome says, and has only waited since. */
  lemma {:induction false} Settled(r: Run, t: nat, i: nat, n: Node, o: Outcome) returns (u: nat)
    requires r.Valid() && t < |r.states| && HasSettled(r.states[t], i, n, o)
    ensures u < t && SettlesAt(r, u, i, o) && r.states[u].streams[i].to == n
    ensures n in r.states[u + 1].streaming <==> SaysUp(o)
    ensures forall v :: u < v <= t ==> HasSettled(r.states[v], i, n, o)
  {
    NotYet(r, i, n, o);
    u := t - 1;
    if HasSettled(r.states[u], i, n, o) {
      u := Settled(r, u, i, n, o);
    } else {
      SettlesHere(r, u, i, n, o);
    }
  }

  /** The last step from v on and before t that writes n's flag. */
  function LastWrite(r: Run, v: nat, t: nat, n: Node): (w: Option<nat>)
    ensures w.Some? ==> v <= w.value < t && WritesFlag(r, w.value, n)
    ensures forall x :: (if w.Some? then w.value + 1 else v) <= x < t ==> !WritesFlag(r, x, n)
  {
    if t <= v then None
    else if WritesFlag(r, t - 1, n) then Some(t - 1)
    else LastWrite(r, v, t - 1, n)
  }

  /** The write at w raises the flag. */
  predicate Raises(r: Run, w: nat) {
    w < |r.steps| && w < |r.states| && r.steps[w].Write? && r.steps[w].i < |r.states[w].streams| &&
    r.states[w].streams[r.steps[w].i].recv.Setting?
  }

  lemma OneStep(r: Run, t: nat, n: Node)
    requires r.Valid() && t < |r.steps|
    ensures n in r.states[t + 1].streaming <==> if WritesFlag(r, t, n) then Raises(r, t) else n in r.states[t].streaming
  {
    var o := RunEffect(r, t, n);
  }

  /** The flag is as the last write left it, or as it was. */
  lemma {:induction false} FlagSince(r: Run, v: nat, t: nat, n: Node)
    requires r.Valid() && v <= t < |r.states|
    ensures n in r.states[t].streaming <==>
            match LastWrite(r, v, t, n) case None => n in r.states[v].streaming case Some(w) => Raises(r, w)
  {
    if v < t {
      FlagSince(r, v, t - 1, n);
      OneStep(r, t - 1, n);
    }
  }

  /** No write of n's flag after step u and before step t, or the last one left it up exactly if `up`. */
  predicate StillStands(r: Run, u: nat, t: nat, n: Node, up: bool) {
    match LastWrite(r, u + 1, t, n)
    case None => true
    case Some(w) => Raises(r, w) <==> up
  }

  /** With its outcome settled, a start or status reply agrees with itself if the flag is as the outcome says. */
  lemma BuiltAgreesExactly(n: Node, req: Message, o: Outcome, flag: bool)
    requires FromSender(req) && ProtocolOf(req).kind == OpOf(o) && !OpOf(o).StopStream?
    ensures Agrees(ReplyTo(n, req, Some(o), flag)) <==> (flag <==> SaysUp(o))
  {
    var active, inactive := StatusText(Some(Active)), StatusText(Some(Inactive));
    assert active[10] == 'a' && inactive[10] == 'i';
  }

  lemma BuiltFrom(r: Run, t: nat) returns (o: Outcome)
    requires r.Valid() && t < |r.steps| && r.steps[t].Build? && r.steps[t].i < |r.states[t].streams|
    requires r.states[t].streams[r.steps[t].i].proto.kind.StartStream? || r.states[t].streams[r.steps[t].i].proto.kind.Status?
    ensures var s, i, n := r.states[t], r.steps[t].i, r.states[t].streams[r.steps[t].i].to;
            && HasSettled(s, i, n, o) && OpOf(o) == s.streams[i].proto.kind
            && |r.states[t + 1].sends| == |s.sends| + 1
            && (Agrees(r.states[t + 1].sends[|s.sends|].msg) <==> (n in s.streaming <==> SaysUp(o)))
  {
    var s, i := r.states[t], r.steps[t].i;
    assert r.TakenAt(t);
    Always(r, t);
    assert StreamOk(s, i);
    o := s.streams[i].recv.outcome.value;
    BuiltAgreesExactly(s.streams[i].to, Payload(s, s.streams[i]), o, s.streams[i].to in s.streaming);
  }

  /** A handler that waits to build its reply writes nothing. */
  lemma OnlyOthersWrite(r: Run, u: nat, t: nat, i: nat, n: Node, o: Outcome)
    requires r.Valid() && u < t < |r.states| && forall v :: u < v <= t ==> HasSettled(r.states[v], i, n, o)
    ensures forall w :: u < w < t && WritesFlag(r, w, n) ==> r.steps[w].i != i
  {
    forall w | u < w < t && WritesFlag(r, w, n) ensures r.steps[w].i != i {
      assert HasSettled(r.states[w], i, n, o);
      assert r.TakenAt(w);
    }
  }

  /**
   Without the mutex, the text and the boolean of a start or status reply agree if and only if, between the
   step at which the handler settled on its text and the step that builds the reply, no other handler wrote
   the flag of the node, or the last one to do so left it as the text says.
   */
  lemma ReplyAgreesExactly(r: Run, t: nat) returns (u: nat, o: Outcome)
    requires r.Valid() && t < |r.steps| && r.steps[t].Build? && r.steps[t].i < |r.states[t].streams|
    requires r.states[t].streams[r.steps[t].i].proto.kind.StartStream? || r.states[t].streams[r.steps[t].i].proto.kind.Status?
    ensures var s, i, n := r.states[t], r.steps[t].i, r.states[t].streams[r.steps[t].i].to;
            && u < t && SettlesAt(r, u, i, o) && OpOf(o) == s.streams[i].proto.kind
            && (forall w :: u < w < t && WritesFlag(r, w, n) ==> r.steps[w].i != i)
            && |r.states[t + 1].sends| == |s.sends| + 1
            && (Agrees(r.states[t + 1].sends[|s.sends|].msg) <==> StillStands(r, u, t, n, SaysUp(o)))
  {
    var i, n := r.steps[t].i, r.states[t].streams[r.steps[t].i].to;
    o := BuiltFrom(r, t);
    u := Settled(r, t, i, n, o);
    OnlyOthersWrite(r, u, t, i, n, o);
    FlagSince(r, u + 1, t, n);
  }

  // ---- What replies say, word for word

  /** A settled handler has written the flag exactly if its outcome is a SUCCESS or a STREAM_STOPPED. */
  lemma WroteExactly(r: Run, u: nat, y: nat, i: nat, n: Node, o: Outcome)
    requires r.Valid() && u < y < |r.states| && SettlesAt(r, u, i, o) && r.states[u].streams[i].to == n
    requires forall v :: u < v <= y ==> HasSettled(r.states[v], i, n, o)
    ensures (exists w :: 0 <= w < y && r.steps[w] == Write(i)) <==> r.steps[u] == Write(i)
    ensures r.steps[u] == Write(i) <==> IsMark(o)
  {
    var seen := RunEffect(r, u, n);
    OutcomesAppend(r.states[u].log, Event(n, Did(o)), n);
    assert (OutcomesAt(r.states[u].log, n) + [o])[|OutcomesAt(r.states[u].log, n)|] == o;
    if w :| 0 <= w < y && r.steps[w] == Write(i) {
      OneWrite(r, u, w, y, i, n, o);
    }
  }

  lemma OneWrite(r: Run, u: nat, w: nat, y: nat, i: nat, n: Node, o: Outcome)
    requires r.Valid() && u < y < |r.states| && SettlesAt(r, u, i, o) && w < y && r.steps[w] == Write(i)
    requires forall v :: u < v <= y ==> HasSettled(r.states[v], i, n, o)
    ensures w == u
  {
    if w > u {
      WritesFrom(r, w, i);
    } else if w < u {
      WrittenIsPast(r, w, u, i);
    }
  }

  lemma WritesFrom(r: Run, w: nat, i: nat)
    requires r.Valid() && w < |r.steps| && r.steps[w] == Write(i)
    ensures i < |r.states[w].streams| && !r.states[w].streams[i].recv.Building?
    ensures i < |r.states[w + 1].streams| && r.states[w + 1].streams[i].recv.Building?
  {
    assert r.TakenAt(w);
  }

  /** A handler tests and writes before it has written. */
  lemma WrittenIsPast(r: Run, w: nat, u: nat, i: nat)
    requires r.Valid() && w < u < |r.steps| && r.steps[w] == Write(i)
    ensures r.steps[u] != Test(i) && r.steps[u] != Write(i)
  {
    WritesFrom(r, w, i);
    Delivery.Persistence(r, w + 1, u);
    assert r.TakenAt(u);
  }

  lemma OutcomeSays(self: Node, req: Message, o: Option<Outcome>, flag: bool, wrote: bool, seen: bool)
    requires FromSender(req)
    requires if UsesFlag(ProtocolOf(req).kind) then o.Some? && OpOf(o.value) == ProtocolOf(req).kind else o.None?
    requires o.Some? ==> (wrote <==> IsMark(o.value)) && (o.value.Active? ==> seen) && (o.value.Inactive? ==> !seen)
    ensures Says(self, req, ReplyTo(self, req, o, flag), flag, wrote, seen)
  {
  }

  /**
   Every reply ever built: a start is told "SUCCESS" if its handler wrote the flag and "ALREADY_STREAMING" if
   not, a status is told what its handler's test saw, and every reply's boolean is the flag when it is built.
   */
  lemma RepliesSay(r: Run, y: nat) returns (x: nat)
    requires r.Valid() && y < |r.steps| && r.steps[y].Build? && r.steps[y].i < |r.states[y].streams|
    ensures var s, i, t := r.states[y], r.steps[y].i, r.states[y].streams[r.steps[y].i];
            && t.send < |s.sends| && |r.states[y + 1].sends| == |s.sends| + 1
            && (UsesFlag(t.proto.kind) ==> x < y && x < |r.steps| && r.steps[x] == Test(i))
            && x < |r.states|
            && var wrote := exists w :: 0 <= w < y && r.steps[w] == Write(i);
            && Says(t.to, Payload(s, t), r.states[y + 1].sends[|s.sends|].msg, t.to in s.streaming, wrote,
                    t.to in r.states[x].streaming)
  {
    var s, i := r.states[y], r.steps[y].i;
    var t := s.streams[i];
    assert r.TakenAt(y);
    Always(r, y);
    assert StreamOk(s, i);
    x := 0;
    if UsesFlag(t.proto.kind) {
      x := TestOf(r, y, i, t.to, t.recv.outcome.value);
    }
    OutcomeSays(t.to, Payload(s, t), t.recv.outcome, t.to in s.streaming,
                exists w :: 0 <= w < y && r.steps[w] == Write(i), t.to in r.states[x].streaming);
  }

  lemma TestOf(r: Run, y: nat, i: nat, n: Node, o: Outcome) returns (x: nat)
    requires r.Valid() && y < |r.states| && HasSettled(r.states[y], i, n, o)
    ensures x < y && r.steps[x] == Test(i)
    ensures (exists w :: 0 <= w < y && r.steps[w] == Write(i)) <==> IsMark(o)
    ensures o.Active? ==> n in r.states[x].streaming
    ensures o.Inactive? ==> n !in r.states[x].streaming
  {
    var u := Settled(r, y, i, n, o);
    WroteExactly(r, u, y, i, n, o);
    x := u;
    if r.steps[u] == Write(i) {
      assert r.TakenAt(u);
      x := WasTested(r, u, i, n, r.states[u].streams[i].recv);
    } else {
      OneStep(r, u, n);
    }
  }
}
