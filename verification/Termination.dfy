/**
 Every call does a bounded amount of work: responses are not answered and a send makes at most
 two attempts, so a weight over sends and handlers pays for every step of the protocol.
 */
module Termination {
  import opened Wrappers
  import opened Messages
  import opened Network
  import opened Structure
  import opened Counting

  /** Steps left in sendProtoMessage, with `out` for each stream it may still open. */
  function PcWeight(pc: SendPc, out: nat): nat {
    match pc
    case Dialing => 2 * out + 6
    case Opened => out + 5
    case Marshalled => out + 4
    case Redialing => out + 3
    case Rewriting => 2
    case Closing(_) => 1
    case Returned(_) => 0
    case Panicked => 0
  }

  function RecvWeight(r: Recv): nat {
    match r
    case Unaccepted => 19
    case Reading => 18
    case Testing => 17
    case Setting => 16
    case Clearing => 16
    case Building(_) => 15
    case Replying => 2
    case Parked => 1
    case _ => 0
  }

  /** A response stream goes straight from reading to the channel. */
  function StreamWeight(t: Stream): nat {
    if t.proto.Response? && t.recv.Unaccepted? then 3
    else if t.proto.Response? && t.recv.Reading? then 2
    else RecvWeight(t.recv)
  }

  function SendWeight(d: Send): nat {
    PcWeight(d.pc, if ProtocolOf(d.msg).Response? then 3 else 19)
  }

  const CALL_COST: nat := 44

  function Work(s: State): nat {
    Sum(s.sends, SendWeight) + Sum(s.streams, StreamWeight)
  }

  /** Everything but issuing calls and the ticker's own bookkeeping. */
  predicate IsProtocolStep(step: Step) {
    IsSendStep(step) || IsRecvStep(step) || step.Receive?
  }

  predicate IsCall(step: Step) {
    step.Issue? || step.LoopCall?
  }

  function Protocol01(step: Step): nat {
    if IsProtocolStep(step) then 1 else 0
  }

  function Call01(step: Step): nat {
    if IsCall(step) then 1 else 0
  }

  lemma DialWork(s: State, j: nat, ok: bool)
    requires Inv(s) && Enabled(s, Dial(j, ok))
    ensures Work(NextSend(s, Dial(j, ok))) < Work(s)
  {
    var s' := NextSend(s, Dial(j, ok));
    SumUpdate(s.sends, j, s'.sends[j], SendWeight);
    SumAppend(s.streams, NewStream(s, j), StreamWeight);
  }

  lemma RedialWork(s: State, j: nat, ok: bool)
    requires Inv(s) && Enabled(s, Redial(j, ok))
    ensures Work(NextSend(s, Redial(j, ok))) < Work(s)
  {
    var s' := NextSend(s, Redial(j, ok));
    SumUpdate(s.sends, j, s'.sends[j], SendWeight);
    SumAppend(s.streams, NewStream(s, j), StreamWeight);
  }

  lemma SendLighter(s: State, step: Step) returns (d: Send, i: nat, w: Wire)
    requires Inv(s) && Enabled(s, step) && IsSendStep(step) && !step.Dial? && !step.Redial?
    ensures NextSend(s, step).sends == s.sends[step.j := d] && SendWeight(d) < SendWeight(s.sends[step.j])
    ensures NextSend(s, step).streams == s.streams ||
            (i < |s.streams| && NextSend(s, step).streams == s.streams[i := s.streams[i].(wire := w)])
  {
    var s' := NextSend(s, step);
    d := s'.sends[step.j];
    assert SendOk(s, step.j);
    i := if step.Marshal? then 0 else LastStream(s.sends[step.j]).value;
    w := if i < |s'.streams| then s'.streams[i].wire else Open;
  }

  lemma PcWork(s: State, step: Step)
    requires Inv(s) && Enabled(s, step) && IsSendStep(step) && !step.Dial? && !step.Redial?
    ensures Work(NextSend(s, step)) < Work(s)
  {
    var d, i, w := SendLighter(s, step);
    SumUpdate(s.sends, step.j, d, SendWeight);
    if i < |s.streams| {
      SumUpdate(s.streams, i, s.streams[i].(wire := w), StreamWeight);
    }
  }

  lemma BuildWork(s: State, i: nat)
    requires Inv(s) && Enabled(s, Build(i))
    ensures Work(NextRecv(s, Build(i))) < Work(s)
  {
    var s' := NextRecv(s, Build(i));
    assert StreamOk(s, i);
    SumAppend(s.sends, s'.sends[|s.sends|], SendWeight);
    SumUpdate(s.streams, i, s'.streams[i], StreamWeight);
  }

  /** Only handler i moves, and what it has left gets less. */
  ghost predicate Lighter(s: State, s': State, i: nat) {
    && i < |s.streams| == |s'.streams| && s'.sends == s.sends
    && s'.streams == s.streams[i := s'.streams[i]] && StreamWeight(s'.streams[i]) < StreamWeight(s.streams[i])
  }

  lemma HandlerLighter(s: State, step: Step)
    requires Inv(s) && Enabled(s, step) && IsRecvStep(step) && !step.Build?
    ensures Lighter(s, NextRecv(s, step), step.i)
  {
    if step.Test? || step.Write? || step.Conclude? {
      RequestLighter(s, step);
    } else {
      ArrivalLighter(s, step);
    }
  }

  lemma ArrivalLighter(s: State, step: Step)
    requires Inv(s) && Enabled(s, step) && (step.Accept? || step.Lose? || step.ReadFails? || step.ReadAll?)
    ensures Lighter(s, NextRecv(s, step), step.i)
  {
  }

  lemma RequestLighter(s: State, step: Step)
    requires Inv(s) && Enabled(s, step) && (step.Test? || step.Write? || step.Conclude?)
    ensures Lighter(s, NextRecv(s, step), step.i)
  {
    assert StreamOk(s, step.i);
  }

  lemma RecvWork(s: State, step: Step)
    requires Inv(s) && Enabled(s, step) && IsRecvStep(step) && !step.Build?
    ensures Work(NextRecv(s, step)) < Work(s)
  {
    HandlerLighter(s, step);
    SumUpdate(s.streams, step.i, NextRecv(s, step).streams[step.i], StreamWeight);
  }

  lemma LoopWork(s: State, step: Step)
    requires Enabled(s, step) && !IsSendStep(step) && !IsRecvStep(step)
    ensures Work(NextLoop(s, step)) + Protocol01(step) <= Work(s) + CALL_COST * Call01(step)
  {
    var s' := NextLoop(s, step);
    if IsCall(step) {
      SumAppend(s.sends, s'.sends[|s.sends|], SendWeight);
    } else if step.Receive? {
      SumUpdate(s.streams, step.i, s'.streams[step.i], StreamWeight);
    }
  }

  /** Every protocol step is paid for by work a call brought in. */
  lemma StepWork(s: State, step: Step)
    requires Inv(s) && Enabled(s, step)
    ensures Work(Next(s, step)) + Protocol01(step) <= Work(s) + CALL_COST * Call01(step)
  {
    if IsSendStep(step) {
      if step.Dial? {
        DialWork(s, step.j, step.ok);
      } else if step.Redial? {
        RedialWork(s, step.j, step.ok);
      } else {
        PcWork(s, step);
      }
    } else if IsRecvStep(step) {
      if step.Build? {
        BuildWork(s, step.i);
      } else {
        RecvWork(s, step);
      }
    } else {
      LoopWork(s, step);
    }
  }

  /** A run with N calls takes at most 44 N protocol steps, however calls and steps interleave. */
  lemma {:induction false} BoundedWork(r: Run, t: nat)
    requires r.Valid() && t < |r.states|
    ensures Sum(r.steps[..t], Protocol01) + Work(r.states[t]) <= CALL_COST * Sum(r.steps[..t], Call01)
  {
    if t > 0 {
      BoundedWork(r, t - 1);
      Always(r, t - 1);
      assert r.TakenAt(t - 1);
      StepWork(r.states[t - 1], r.steps[t - 1]);
      assert r.steps[..t] == r.steps[..t - 1] + [r.steps[t - 1]];
      SumAppend(r.steps[..t - 1], r.steps[t - 1], Protocol01);
      SumAppend(r.steps[..t - 1], r.steps[t - 1], Call01);
    }
  }

  ghost predicate Quiescent(s: State) {
    forall step :: IsSendStep(step) || IsRecvStep(step) ==> !Enabled(s, step)
  }

  /** When nothing but receives and new calls can happen, every send of a running node has returned and
      every inbound stream of a running node was lost, has ended, or is parked on the channel. */
  lemma QuiescentShape(r: Run, t: nat)
    requires r.Valid() && t < |r.states| && Quiescent(r.states[t])
    ensures var s := r.states[t];
            && (forall j :: 0 <= j < |s.sends| && s.sends[j].from !in s.crashed ==> s.sends[j].pc.Returned?)
            && (forall i :: 0 <= i < |s.streams| && s.streams[i].to !in s.crashed ==>
                  s.streams[i].recv.Lost? || s.streams[i].recv.Released? || s.streams[i].recv.Failed? ||
                  s.streams[i].recv.Parked?)
  {
    var s := r.states[t];
    Always(r, t);
    forall j | 0 <= j < |s.sends| && s.sends[j].from !in s.crashed ensures s.sends[j].pc.Returned? {
      SendCanMove(s, j);
    }
    forall i | 0 <= i < |s.streams| && s.streams[i].to !in s.crashed
      ensures s.streams[i].recv.Lost? || s.streams[i].recv.Released? || s.streams[i].recv.Failed? ||
              s.streams[i].recv.Parked?
    {
      HandlerCanMove(s, i);
    }
  }

  lemma SendCanMove(s: State, j: nat)
    requires Inv(s) && j < |s.sends| && s.sends[j].from !in s.crashed
    ensures s.sends[j].pc.Returned? || exists step :: IsSendStep(step) && Enabled(s, step)
  {
    assert SendOk(s, j);
    var step := match s.sends[j].pc
      case Dialing => Dial(j, true)
      case Opened => Marshal(j, true)
      case Marshalled => WriteFirst(j, true)
      case Redialing => Redial(j, true)
      case Rewriting => WriteSecond(j, true)
      case _ => CloseSend(j);
    assert s.sends[j].pc.Returned? || Enabled(s, step);
  }

  lemma HandlerCanMove(s: State, i: nat)
    requires Inv(s) && i < |s.streams| && s.streams[i].to !in s.crashed
    ensures s.streams[i].recv.Lost? || s.streams[i].recv.Released? || s.streams[i].recv.Failed? ||
            s.streams[i].recv.Parked? || exists step :: (IsSendStep(step) || IsRecvStep(step)) && Enabled(s, step)
  {
    assert StreamOk(s, i);
    var t := s.streams[i];
    match t.recv
    case Unaccepted => assert Enabled(s, Lose(i)) && IsRecvStep(Lose(i));
    case Reading => assert Enabled(s, ReadFails(i)) && IsRecvStep(ReadFails(i));
    case Testing => assert Enabled(s, Test(i)) && IsRecvStep(Test(i));
    case Setting => assert Enabled(s, Write(i)) && IsRecvStep(Write(i));
    case Clearing => assert Enabled(s, Write(i)) && IsRecvStep(Write(i));
    case Building(_) => assert Enabled(s, Build(i)) && IsRecvStep(Build(i));
    case Replying =>
      var j := t.reply.value;
      SendCanMove(s, j);
      assert s.sends[j].pc.Returned? ==> Enabled(s, Conclude(i)) && IsRecvStep(Conclude(i));
    case _ =>
  }
}
