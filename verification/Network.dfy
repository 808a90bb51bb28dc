/**
 The request/response protocol of internal/ping as a transition system.

 A `Send` is one activation of sendProtoMessage, a `Stream` is one libp2p stream together
 with the handler goroutine serving its far end. Every step is one interleavable action of
 one goroutine or of the network; the mutex of PingProtocol is never locked, so the check of
 the flag, the write of the flag and the second read of the flag are separate steps.
 A nil dereference takes the whole process down, which the state records in `crashed`.
 */
module Network {
  import opened Wrappers
  import opened Messages

  /** What the sender has done to a stream: nothing yet, written the bytes, closed it (after
      the full bytes, or after none when marshalling failed), or reset it. */
  datatype Wire = Open | Carrying | Eof(full: bool) | Broken

  /** Program counter of sendProtoMessage. */
  datatype SendPc = Dialing | Opened | Marshalled | Redialing | Rewriting | Closing(ok: bool) | Returned(ok: bool) | Panicked

  /** `first` and `second` are the function's two stream variables; `cause` is the inbound
      stream whose handler made the call, None for a call of an exported sender. */
  datatype Send = Send(from: Node, to: Node, msg: Message, cause: Option<nat>,
                       first: Option<nat>, second: Option<nat>, pc: SendPc)

  /** Program counter of the inbound side: onProtocolRequest/onProtocolResponse and Handle. */
  datatype Recv =
    | Unaccepted | Lost | Reading | Testing | Setting | Clearing
    | Building(outcome: Option<Outcome>) | Replying | Parked | Released | Failed | Died

  datatype Stream = Stream(from: Node, to: Node, proto: Protocol, send: nat,
                           wire: Wire, recv: Recv, reply: Option<nat>)

  /** The ticker goroutine of a node: `step` calls done for the current target, the call in
      flight if any, or waiting in the select on the done channel. */
  datatype Loop = Idle | Calling(target: Node, step: nat, call: Option<nat>) | Selecting

  datatype What = Accepted | Ended | Reached | Took | Began | Called | Did(outcome: Outcome)

  datatype Event = Event(node: Node, what: What)

  datatype State = State(clients: set<Node>, sends: seq<Send>, streams: seq<Stream>,
                         streaming: set<Node>, crashed: set<Node>,
                         loops: map<Node, Loop>, log: seq<Event>)

  datatype Step =
    | Issue(node: Node, to: Node, msg: Message)
    | Dial(j: nat, ok: bool)
    | Marshal(j: nat, ok: bool)
    | WriteFirst(j: nat, ok: bool)
    | Redial(j: nat, ok: bool)
    | WriteSecond(j: nat, ok: bool)
    | CloseSend(j: nat)
    | Accept(i: nat)
    | Lose(i: nat)
    | ReadFails(i: nat)
    | ReadAll(i: nat)
    | Test(i: nat)
    | Write(i: nat)
    | Build(i: nat)
    | Conclude(i: nat)
    | Begin(node: Node, to: Node)
    | LoopCall(node: Node, msg: Message)
    | LoopReturn(node: Node)
    | LoopSelect(node: Node)
    | Receive(i: nat)
    | TimeOut(node: Node)

  predicate Init(s: State) {
    s.sends == [] && s.streams == [] && s.streaming == {} && s.crashed == {} && s.loops == map[] && s.log == []
  }

  function LoopOf(s: State, n: Node): Loop {
    if n in s.loops then s.loops[n] else Idle
  }

  /** The calls the ticker goroutine makes for one target: six on a mobile client, one elsewhere. */
  function Program(s: State, n: Node): seq<Kind> {
    if n in s.clients then [Ping, Status, Info, StartStream, Status, StopStream] else [Info]
  }

  /** What ReadAll followed by Unmarshal yields on stream t once its sender has closed it. */
  function Payload(s: State, t: Stream): Message
    requires t.send < |s.sends|
  {
    if t.wire == Eof(true) then s.sends[t.send].msg else Zero(t.proto)
  }

  predicate SendAt(s: State, j: nat, pc: SendPc) {
    j < |s.sends| && s.sends[j].from !in s.crashed && s.sends[j].pc == pc
  }

  predicate OpenAt(s: State, i: Option<nat>, w: Wire) {
    i.Some? && i.value < |s.streams| && s.streams[i.value].wire == w
  }

  predicate RecvAt(s: State, i: nat, r: Recv) {
    i < |s.streams| && s.streams[i].to !in s.crashed && s.streams[i].recv == r && s.streams[i].send < |s.sends|
  }

  predicate Enabled(s: State, step: Step) {
    match step
    case Issue(n, to, msg) => n !in s.crashed && FromSender(msg)
    case Dial(j, ok) => SendAt(s, j, Dialing)
    case Marshal(j, ok) => SendAt(s, j, Opened)
    case WriteFirst(j, ok) => SendAt(s, j, Marshalled) && OpenAt(s, s.sends[j].first, Open)
    case Redial(j, ok) => SendAt(s, j, Redialing)
    case WriteSecond(j, ok) => SendAt(s, j, Rewriting) && OpenAt(s, s.sends[j].second, Open)
    case CloseSend(j) =>
      j < |s.sends| && s.sends[j].from !in s.crashed && s.sends[j].pc.Closing? &&
      OpenAt(s, LastStream(s.sends[j]), if s.sends[j].pc.ok then Carrying else Open)
    case Accept(i) => RecvAt(s, i, Unaccepted)
    case Lose(i) => i < |s.streams| && s.streams[i].recv == Unaccepted
    case ReadFails(i) => RecvAt(s, i, Reading)
    case ReadAll(i) => RecvAt(s, i, Reading) && s.streams[i].wire.Eof?
    case Test(i) => RecvAt(s, i, Testing) && UsesFlag(s.streams[i].proto.kind)
    case Write(i) => RecvAt(s, i, Setting) || RecvAt(s, i, Clearing)
    case Build(i) =>
      i < |s.streams| && RecvAt(s, i, s.streams[i].recv) && s.streams[i].recv.Building? &&
      FromSender(Payload(s, s.streams[i]))
    case Conclude(i) =>
      RecvAt(s, i, Replying) && s.streams[i].reply.Some? && s.streams[i].reply.value < |s.sends| &&
      s.sends[s.streams[i].reply.value].pc.Returned?
    case Begin(n, to) => n !in s.crashed && LoopOf(s, n).Idle?
    case LoopCall(n, msg) =>
      n !in s.crashed && FromSender(msg) && LoopOf(s, n).Calling? && LoopOf(s, n).call.None? &&
      LoopOf(s, n).step < |Program(s, n)| && ProtocolOf(msg).kind == Program(s, n)[LoopOf(s, n).step]
    case LoopReturn(n) =>
      n !in s.crashed && LoopOf(s, n).Calling? && LoopOf(s, n).call.Some? &&
      LoopOf(s, n).call.value < |s.sends| && s.sends[LoopOf(s, n).call.value].pc.Returned?
    case LoopSelect(n) =>
      n !in s.crashed && LoopOf(s, n).Calling? && LoopOf(s, n).call.None? &&
      LoopOf(s, n).step >= |Program(s, n)|
    case Receive(i) => RecvAt(s, i, Parked) && LoopOf(s, s.streams[i].to).Selecting?
    case TimeOut(n) => n !in s.crashed && LoopOf(s, n).Selecting?
  }

  function LastStream(d: Send): Option<nat> {
    if d.second.Some? then d.second else d.first
  }

  function NewSend(from: Node, to: Node, msg: Message, cause: Option<nat>): Send {
    Send(from, to, msg, cause, None, None, Dialing)
  }

  function NewStream(s: State, j: nat): Stream
    requires j < |s.sends|
  {
    Stream(s.sends[j].from, s.sends[j].to, ProtocolOf(s.sends[j].msg), j, Open, Unaccepted, None)
  }

  function SetSend(s: State, j: nat, d: Send): State
    requires j < |s.sends|
  {
    s.(sends := s.sends[j := d])
  }

  function SetWire(s: State, i: nat, w: Wire): State
    requires i < |s.streams|
  {
    s.(streams := s.streams[i := s.streams[i].(wire := w)])
  }

  function SetRecv(s: State, i: nat, r: Recv): State
    requires i < |s.streams|
  {
    s.(streams := s.streams[i := s.streams[i].(recv := r)])
  }

  function Log(s: State, n: Node, what: What): State {
    s.(log := s.log + [Event(n, what)])
  }

  function SetLoop(s: State, n: Node, l: Loop): State {
    s.(loops := s.loops[n := l])
  }

  function SetFlag(s: State, n: Node, on: bool): State {
    s.(streaming := if on then s.streaming + {n} else s.streaming - {n})
  }

  function Crash(s: State, n: Node): State {
    s.(crashed := s.crashed + {n})
  }

  /** The sender's half of a step. */
  function NextSend(s: State, step: Step): State
    requires Enabled(s, step)
    requires step.Dial? || step.Marshal? || step.WriteFirst? || step.Redial? || step.WriteSecond? || step.CloseSend?
  {
    var d := s.sends[step.j];
    match step
    case Dial(j, ok) =>
      if ok then SetSend(s, j, d.(first := Some(|s.streams|), pc := Opened)).(streams := s.streams + [NewStream(s, j)])
      else SetSend(s, j, d.(pc := Returned(false)))
    case Marshal(j, ok) => SetSend(s, j, d.(pc := if ok then Marshalled else Closing(false)))
    case WriteFirst(j, ok) =>
      if ok then SetWire(SetSend(s, j, d.(pc := Closing(true))), d.first.value, Carrying)
      else SetWire(SetSend(s, j, d.(pc := Redialing)), d.first.value, Broken)
    case Redial(j, ok) =>
      if ok then SetSend(s, j, d.(second := Some(|s.streams|), pc := Rewriting)).(streams := s.streams + [NewStream(s, j)])
      else Crash(SetSend(s, j, d.(pc := Panicked)), d.from)
    case WriteSecond(j, ok) =>
      if ok then SetWire(SetSend(s, j, d.(pc := Closing(true))), d.second.value, Carrying)
      else SetWire(SetSend(s, j, d.(pc := Returned(false))), d.second.value, Broken)
    case CloseSend(j) =>
      SetWire(SetSend(s, j, d.(pc := Returned(d.pc.ok))), LastStream(d).value, Eof(d.pc.ok))
  }

  /** The handler goroutine's half of a step. */
  function NextRecv(s: State, step: Step): State
    requires Enabled(s, step)
    requires step.Accept? || step.Lose? || step.ReadFails? || step.ReadAll? || step.Test? || step.Write? ||
             step.Build? || step.Conclude?
  {
    var t := s.streams[step.i];
    match step
    case Accept(i) => Log(SetRecv(s, i, Reading), t.to, Accepted)
    case Lose(i) => SetRecv(s, i, Lost)
    case ReadFails(i) => Log(SetRecv(s, i, Failed), t.to, Ended)
    case ReadAll(i) =>
      if t.proto.Response? then Log(SetRecv(s, i, Parked), t.to, Reached)
      else if !IdDefined(Payload(s, t)) then Crash(SetRecv(s, i, Died), t.to)
      else SetRecv(s, i, if UsesFlag(t.proto.kind) then Testing else Building(None))
    case Test(i) =>
      var flag := t.to in s.streaming;
      var o := Respond(t.proto.kind, flag);
      if o.Success? then SetRecv(s, i, Setting)
      else if o.StreamStopped? then SetRecv(s, i, Clearing)
      else Log(SetRecv(s, i, Building(Some(o))), t.to, Did(o))
    case Write(i) =>
      var o := if t.recv.Setting? then Success else StreamStopped;
      Log(SetFlag(SetRecv(s, i, Building(Some(o))), t.to, o.Success?), t.to, Did(o))
    case Build(i) =>
      var resp := ReplyTo(t.to, Payload(s, t), t.recv.outcome, t.to in s.streaming);
      s.(sends := s.sends + [NewSend(t.to, t.from, resp, Some(i))],
         streams := s.streams[i := t.(recv := Replying, reply := Some(|s.sends|))])
    case Conclude(i) =>
      if s.sends[t.reply.value].pc.ok || t.proto.kind.Ping?
      then Log(SetRecv(s, i, Parked), t.to, Reached)
      else Log(SetRecv(s, i, Failed), t.to, Ended)
  }

  /** The ticker goroutine's half of a step. */
  function NextLoop(s: State, step: Step): State
    requires Enabled(s, step)
    requires step.Issue? || step.Begin? || step.LoopCall? || step.LoopReturn? || step.LoopSelect? ||
             step.Receive? || step.TimeOut?
  {
    match step
    case Issue(n, to, msg) => s.(sends := s.sends + [NewSend(n, to, msg, None)])
    case Begin(n, to) => Log(SetLoop(s, n, Calling(to, 0, None)), n, Began)
    case LoopCall(n, msg) =>
      var l := LoopOf(s, n);
      Log(SetLoop(s, n, l.(call := Some(|s.sends|))).(sends := s.sends + [NewSend(n, l.target, msg, None)]), n, Called)
    case LoopReturn(n) =>
      var l := LoopOf(s, n);
      SetLoop(s, n, l.(step := l.step + 1, call := None))
    case LoopSelect(n) => SetLoop(s, n, if n in s.clients then Selecting else Idle)
    case Receive(i) =>
      var n := s.streams[i].to;
      Log(Log(SetLoop(SetRecv(s, i, Released), n, Idle), n, Took), n, Ended)
    case TimeOut(n) => SetLoop(s, n, Idle)
  }

  predicate IsSendStep(step: Step) {
    step.Dial? || step.Marshal? || step.WriteFirst? || step.Redial? || step.WriteSecond? || step.CloseSend?
  }

  predicate IsRecvStep(step: Step) {
    step.Accept? || step.Lose? || step.ReadFails? || step.ReadAll? || step.Test? || step.Write? || step.Build? || step.Conclude?
  }

  function Next(s: State, step: Step): State
    requires Enabled(s, step)
  {
    if IsSendStep(step) then NextSend(s, step)
    else if IsRecvStep(step) then NextRecv(s, step)
    else NextLoop(s, step)
  }

  /** A finite run: states[0] is initial and every step is enabled where it is taken. */
  datatype Run = Run(states: seq<State>, steps: seq<Step>) {
    ghost predicate Valid() {
      && |states| == |steps| + 1
      && Init(states[0])
      && forall t :: 0 <= t < |steps| ==> TakenAt(t)
    }

    predicate TakenAt(t: nat)
      requires |states| == |steps| + 1 && t < |steps|
    {
      Enabled(states[t], steps[t]) && states[t + 1] == Next(states[t], steps[t])
    }
  }
}
