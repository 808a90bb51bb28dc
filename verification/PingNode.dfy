/**
 internal/ping in the source's own form: streams that are written, reset and closed in place, a
 node whose fields the handlers update, and the two dispatch tables. Every operation of the network
 and of the marshaller that can fail is an input, the script. A handler that blocks on the done
 channel is the result Parked, and TakeToken is the receive that lets it go.
 */
module PingNode {
  import opened Wrappers
  import opened Messages
  import opened Network
  import opened Sequential

  /** The protocol strings of ping.go. */
  function ProtocolId(p: Protocol): string {
    match p
    case Request(Ping) => "/ping/pingreq/0.0.1"
    case Response(Ping) => "/ping/pingresp/0.0.1"
    case Request(StartStream) => "/stream/startstreamreq/0.0.1"
    case Response(StartStream) => "/stream/startstreamresp/0.0.1"
    case Request(StopStream) => "/stream/stopstreamreq/0.0.1"
    case Response(StopStream) => "/stream/stopstreamresp/0.0.1"
    case Request(Status) => "/status/statusreq/0.0.1"
    case Response(Status) => "/status/statusresp/0.0.1"
    case Request(Info) => "/info/identreq/0.0.1"
    case Response(Info) => "/info/identresp/0.0.1"
  }

  /** No two protocols share a string, so neither table nor the host's handlers are overwritten. */
  lemma ProtocolIdsDistinct(p: Protocol, q: Protocol)
    requires ProtocolId(p) == ProtocolId(q)
    ensures p == q
  {
  }

  function RequestTable(): map<string, Kind> {
    map[][ProtocolId(Request(Ping)) := Ping][ProtocolId(Request(StartStream)) := StartStream]
         [ProtocolId(Request(StopStream)) := StopStream][ProtocolId(Request(Status)) := Status]
         [ProtocolId(Request(Info)) := Info]
  }

  function ResponseTable(): map<string, Kind> {
    map[][ProtocolId(Response(Ping)) := Ping][ProtocolId(Response(StartStream)) := StartStream]
         [ProtocolId(Response(StopStream)) := StopStream][ProtocolId(Response(Status)) := Status]
         [ProtocolId(Response(Info)) := Info]
  }

  /** Protocols the host hands to onProtocolRequest (true) or onProtocolResponse (false). */
  function HostTable(): map<string, bool> {
    map[][ProtocolId(Request(Ping)) := true][ProtocolId(Request(StartStream)) := true]
         [ProtocolId(Request(StopStream)) := true][ProtocolId(Request(Status)) := true]
         [ProtocolId(Request(Info)) := true]
         [ProtocolId(Response(Ping)) := false][ProtocolId(Response(StartStream)) := false]
         [ProtocolId(Response(StopStream)) := false][ProtocolId(Response(Status)) := false]
         [ProtocolId(Response(Info)) := false]
  }

  /** After all registrations each protocol reaches the handler of its own kind, through the entry point
      of its own direction, and nothing else is registered. */
  lemma Dispatch()
    ensures forall k :: ProtocolId(Request(k)) in RequestTable() && RequestTable()[ProtocolId(Request(k))] == k
    ensures forall k :: ProtocolId(Response(k)) in ResponseTable() && ResponseTable()[ProtocolId(Response(k))] == k
    ensures forall p :: ProtocolId(p) in HostTable() && HostTable()[ProtocolId(p)] == p.Request?
    ensures forall id :: id in RequestTable() ==> exists k :: id == ProtocolId(Request(k))
    ensures forall id :: id in ResponseTable() ==> exists k :: id == ProtocolId(Response(k))
    ensures forall id :: id in HostTable() ==> exists p :: id == ProtocolId(p)
  {
  }

  /** Which handler serves which string, spelled out. */
  lemma Served(id: string)
    ensures id in RequestTable() <==>
            id == "/ping/pingreq/0.0.1" || id == "/stream/startstreamreq/0.0.1" || id == "/stream/stopstreamreq/0.0.1" ||
            id == "/status/statusreq/0.0.1" || id == "/info/identreq/0.0.1"
    ensures id in ResponseTable() <==>
            id == "/ping/pingresp/0.0.1" || id == "/stream/startstreamresp/0.0.1" || id == "/stream/stopstreamresp/0.0.1" ||
            id == "/status/statusresp/0.0.1" || id == "/info/identresp/0.0.1"
    ensures id in RequestTable() ==>
              (RequestTable()[id].Ping? <==> id == "/ping/pingreq/0.0.1") &&
              (RequestTable()[id].StartStream? <==> id == "/stream/startstreamreq/0.0.1") &&
              (RequestTable()[id].StopStream? <==> id == "/stream/stopstreamreq/0.0.1") &&
              (RequestTable()[id].Status? <==> id == "/status/statusreq/0.0.1")
    ensures id in ResponseTable() ==>
              (ResponseTable()[id].Ping? <==> id == "/ping/pingresp/0.0.1") &&
              (ResponseTable()[id].StartStream? <==> id == "/stream/startstreamresp/0.0.1") &&
              (ResponseTable()[id].StopStream? <==> id == "/stream/stopstreamresp/0.0.1") &&
              (ResponseTable()[id].Status? <==> id == "/status/statusresp/0.0.1")
    ensures id in HostTable() <==> id in RequestTable() || id in ResponseTable()
    ensures id in HostTable() ==> (HostTable()[id] <==> id in RequestTable())
  {
  }

  // ---- sendProtoMessage

  /** One outbound stream and what has been done to it. */
  class OutStream {
    var wire: Wire

    constructor ()
      ensures wire == Open
    {
      wire := Open;
    }

    method Write(ok: bool)
      requires wire == Open
      modifies this
      ensures wire == if ok then Carrying else Open
    {
      if ok {
        wire := Carrying;
      }
    }

    /** Resetting a stream breaks it whatever it carried, unless it is already closed. */
    method Reset()
      modifies this
      ensures wire == if old(wire).Eof? then old(wire) else Broken
    {
      if !wire.Eof? {
        wire := Broken;
      }
    }

    /** Closing after a reset does nothing. */
    method Close()
      modifies this
      ensures wire == match old(wire) case Open => Eof(false) case Carrying => Eof(true) case w => w
    {
      if wire.Open? {
        wire := Eof(false);
      } else if wire.Carrying? {
        wire := Eof(true);
      }
    }
  }

  /** Whether each fallible operation of sendProtoMessage succeeds, should it be reached. */
  datatype Script = Script(open1: bool, marshal: bool, write1: bool, open2: bool, write2: bool)

  datatype Result = Done(ok: bool) | Panic

  /** One call of sendProtoMessage and where it left its streams. */
  datatype Attempt = Attempt(to: Node, msg: Message, result: Result, first: Option<Wire>, second: Option<Wire>)

  /** What the caller and the receiver can see of the call. */
  function Sent(to: Node, msg: Message, io: Script): Attempt {
    if !io.open1 then Attempt(to, msg, Done(false), None, None)
    else if !io.marshal then Attempt(to, msg, Done(false), Some(Eof(false)), None)
    else if io.write1 then Attempt(to, msg, Done(true), Some(Eof(true)), None)
    else if !io.open2 then Attempt(to, msg, Panic, Some(Broken), None)
    else if io.write2 then Attempt(to, msg, Done(true), Some(Broken), Some(Eof(true)))
    else Attempt(to, msg, Done(false), Some(Broken), Some(Broken))
  }

  // ---- The inbound side

  /** What io.ReadAll and proto.Unmarshal make of an inbound stream. */
  datatype Inbound = ReadError | Malformed | Parsed(m: Message)

  datatype End = Live | Closed | Reset

  class InStream {
    const protocol: string
    const from: Node
    const data: Inbound
    var end: End

    constructor (protocol: string, from: Node, data: Inbound)
      ensures this.protocol == protocol && this.from == from && this.data == data && end == Live
    {
      this.protocol, this.from, this.data, end := protocol, from, data, Live;
    }

    method ResetStream()
      modifies this`end
      ensures end == if old(end).Closed? then Closed else Reset
    {
      if !end.Closed? {
        end := Reset;
      }
    }

    method CloseStream()
      modifies this`end
      ensures end == if old(end).Live? then Closed else old(end)
    {
      if end.Live? {
        end := Closed;
      }
    }

    /** A reset, then the deferred close. */
    method Abort()
      requires end == Live
      modifies this`end
      ensures end == Reset
    {
      ResetStream();
      CloseStream();
    }
  }

  /** How Handle ends: blocked on the done channel, with an error, or by dereferencing nil. */
  datatype Verdict = Waiting | Error | Dead

  /** The reply of a request handler that runs undisturbed on a node whose flag is `flag`. */
  function ReplyOf(self: Node, req: Message, flag: bool): Message
    requires FromSender(req)
  {
    var k := ProtocolOf(req).kind;
    if UsesFlag(k) then ReplyTo(self, req, Some(Respond(k, flag)), Apply(k, flag))
    else ReplyTo(self, req, None, flag)
  }

  /** How a request handler ends, given whether it could send its reply. */
  function Finish(k: Kind, sent: Result): Verdict {
    if sent.Panic? then Dead
    else if sent.ok || k.Ping? then Waiting
    else Error
  }

  /** An undisturbed handler: a start leaves the flag up and a stop down, the others as it was; the reply's
      boolean is the flag it leaves, and a start that found the flag down is the one that wrote it. */
  predicate Answered(self: Node, req: Message, flag: bool, flag': bool, resp: Message) {
    && Says(self, req, resp, flag', !flag, flag)
    && (flag' <==> if req.StartStreamRequest? then true else if req.StopStreamRequest? then false else flag)
  }

  lemma ReplyAnswers(self: Node, req: Message, flag: bool)
    requires FromSender(req)
    ensures Answered(self, req, flag, Apply(ProtocolOf(req).kind, flag), ReplyOf(self, req, flag))
  {
  }

  /**
   What one request handler does to its node's flag and outbox, and how it ends: nothing on a malformed
   request; a nil dereference and nothing else on one without its Id; otherwise the flag follows the request,
   exactly one reply is attempted, worded as Answered says, and the result of the attempt decides the end.
   */
  predicate Ran(self: Node, k: Kind, from: Node, data: Inbound, io: Script,
                flag: bool, flag': bool, outbox: seq<Attempt>, outbox': seq<Attempt>, v: Verdict)
    requires data.Parsed? ==> ProtocolOf(data.m) == Request(k)
  {
    if data.Parsed? && IdDefined(data.m) then
      var sent := Sent(from, ReplyOf(self, data.m, flag), io);
      && flag' == Apply(k, flag) && outbox' == outbox + [sent] && v == Finish(k, sent.result)
      && Answered(self, data.m, flag, flag', sent.msg)
    else
      flag' == flag && outbox' == outbox && v == if data.Parsed? then Dead else Error
  }

  class PingProtocol {
    const self: Node
    var isStreaming: bool
    var requestHandlers: map<string, Kind>
    var responseHandlers: map<string, Kind>
    var streamHandlers: map<string, bool>
    var outbox: seq<Attempt>
    var waiting: set<InStream>

    /** Both tables hold exactly the five handlers of their direction, each under its own string; `waiting`
        holds the streams of the handlers blocked on the done channel, which are still open. */
    ghost predicate Valid()
      reads this, waiting
    {
      && requestHandlers == RequestTable() && responseHandlers == ResponseTable() && streamHandlers == HostTable()
      && forall s :: s in waiting ==> s.end == Live
    }

    constructor (self: Node)
      ensures Valid() && this.self == self && !isStreaming && outbox == [] && waiting == {}
    {
      this.self := self;
      isStreaming := false;
      requestHandlers, responseHandlers, streamHandlers := map[], map[], map[];
      outbox, waiting := [], {};
      new;
      RegisterRequestHandler(Kind.Ping);
      RegisterRequestHandler(Kind.StartStream);
      RegisterRequestHandler(Kind.StopStream);
      RegisterRequestHandler(Kind.Status);
      RegisterRequestHandler(Kind.Info);
      RegisterResponseHandler(Kind.Ping);
      RegisterResponseHandler(Kind.StartStream);
      RegisterResponseHandler(Kind.StopStream);
      RegisterResponseHandler(Kind.Status);
      RegisterResponseHandler(Kind.Info);
    }

    method RegisterRequestHandler(k: Kind)
      modifies this`requestHandlers, this`streamHandlers
      ensures requestHandlers == old(requestHandlers)[ProtocolId(Request(k)) := k]
      ensures streamHandlers == old(streamHandlers)[ProtocolId(Request(k)) := true]
    {
      requestHandlers := requestHandlers[ProtocolId(Request(k)) := k];
      streamHandlers := streamHandlers[ProtocolId(Request(k)) := true];
    }

    method RegisterResponseHandler(k: Kind)
      modifies this`responseHandlers, this`streamHandlers
      ensures responseHandlers == old(responseHandlers)[ProtocolId(Response(k)) := k]
      ensures streamHandlers == old(streamHandlers)[ProtocolId(Response(k)) := false]
    {
      responseHandlers := responseHandlers[ProtocolId(Response(k)) := k];
      streamHandlers := streamHandlers[ProtocolId(Response(k)) := false];
    }

    method SendProtoMessage(to: Node, msg: Message, io: Script) returns (result: Result)
      modifies this`outbox
      ensures outbox == old(outbox) + [Sent(to, msg, io)]
      ensures result == Sent(to, msg, io).result
    {
      if !io.open1 {
        outbox := outbox + [Attempt(to, msg, Done(false), None, None)];
        return Done(false);
      }
      var s := new OutStream();
      if !io.marshal {
        s.Close();
        outbox := outbox + [Attempt(to, msg, Done(false), Some(s.wire), None)];
        return Done(false);
      }
      s.Write(io.write1);
      if !io.write1 {
        s.Reset();
        if !io.open2 {
          outbox := outbox + [Attempt(to, msg, Panic, Some(s.wire), None)];
          return Panic;
        }
        var stream := new OutStream();
        stream.Write(io.write2);
        if !io.write2 {
          stream.Reset();
        }
        stream.Close();
        s.Close();
        outbox := outbox + [Attempt(to, msg, Done(io.write2), Some(s.wire), Some(stream.wire))];
        return Done(io.write2);
      }
      s.Close();
      outbox := outbox + [Attempt(to, msg, Done(true), Some(s.wire), None)];
      return Done(true);
    }

    // The five exported senders; `now` is the formatted time.

    method Ping(target: Node, now: string, io: Script) returns (result: Result)
      modifies this`outbox
      ensures outbox == old(outbox) +
                        [Sent(target, PingRequest("ping prot from " + self + " at " + now, "hello prot from " + self + "!"), io)]
      ensures result == outbox[|old(outbox)|].result && FromSender(outbox[|old(outbox)|].msg)
    {
      var req := PingRequest("ping prot from " + self + " at " + now, "hello prot from " + self + "!");
      result := SendProtoMessage(target, req, io);
    }

    method StartStream(target: Node, projectID: string, devID: string, apiKey: string, issueNeed: string,
                       configOptions: map<string, string>, io: Script) returns (result: Result)
      modifies this`outbox
      ensures outbox == old(outbox) +
                        [Sent(target, StartStreamRequest(Some(Id(projectID, devID, apiKey)), issueNeed, configOptions), io)]
      ensures result == outbox[|old(outbox)|].result && FromSender(outbox[|old(outbox)|].msg)
    {
      var req := StartStreamRequest(Some(Id(projectID, devID, apiKey)), issueNeed, configOptions);
      result := SendProtoMessage(target, req, io);
    }

    method StopStream(target: Node, projectID: string, devID: string, apiKey: string, io: Script) returns (result: Result)
      modifies this`outbox
      ensures outbox == old(outbox) + [Sent(target, StopStreamRequest(Some(Id(projectID, devID, apiKey))), io)]
      ensures result == outbox[|old(outbox)|].result && FromSender(outbox[|old(outbox)|].msg)
    {
      result := SendProtoMessage(target, StopStreamRequest(Some(Id(projectID, devID, apiKey))), io);
    }

    method Status(target: Node, projectID: string, devID: string, apiKey: string, io: Script) returns (result: Result)
      modifies this`outbox
      ensures outbox == old(outbox) + [Sent(target, StatusRequest(Some(Id(projectID, devID, apiKey))), io)]
      ensures result == outbox[|old(outbox)|].result && FromSender(outbox[|old(outbox)|].msg)
    {
      result := SendProtoMessage(target, StatusRequest(Some(Id(projectID, devID, apiKey))), io);
    }

    method Info(target: Node, hostID: string, io: Script) returns (result: Result)
      modifies this`outbox
      ensures outbox == old(outbox) + [Sent(target, InfoRequest(hostID), io)]
      ensures result == outbox[|old(outbox)|].result && FromSender(outbox[|old(outbox)|].msg)
    {
      result := SendProtoMessage(target, InfoRequest(hostID), io);
    }

    /** The five request handlers, dispatched on the kind they are registered for. */
    method HandleRequest(k: Kind, from: Node, data: Inbound, io: Script) returns (v: Verdict)
      requires data.Parsed? ==> ProtocolOf(data.m) == Request(k)
      modifies this`isStreaming, this`outbox
      ensures Ran(self, k, from, data, io, old(isStreaming), isStreaming, old(outbox), outbox, v)
    {
      if !data.Parsed? {
        return Error;
      }
      if !IdDefined(data.m) {
        return Dead;
      }
      ReplyAnswers(self, data.m, isStreaming);
      var statusMessage: Option<Outcome> := None;
      match k {
        case StartStream =>
          if !isStreaming {
            isStreaming := true;
            statusMessage := Some(Success);
          } else {
            statusMessage := Some(AlreadyStreaming);
          }
        case StopStream =>
          if !isStreaming {
            statusMessage := Some(NotStreaming);
          } else {
            isStreaming := false;
            statusMessage := Some(StreamStopped);
          }
        case Status =>
          if isStreaming {
            statusMessage := Some(Active);
          } else {
            statusMessage := Some(Inactive);
          }
        case _ =>
      }
      var resp := ReplyTo(self, data.m, statusMessage, isStreaming);
      var result := SendProtoMessage(from, resp, io);
      if result.Panic? {
        return Dead;
      }
      if !result.ok && !k.Ping? {
        return Error;
      }
      return Waiting;
    }

    /** onProtocolRequest up to the point where the handler has ended or waits on the done channel. */
    method OnProtocolRequest(s: InStream, io: Script) returns (v: Verdict)
      requires Valid() && s.end == Live && s !in waiting
      requires s.protocol in RequestTable() && s.data.Parsed? ==> ProtocolOf(s.data.m) == Request(RequestTable()[s.protocol])
      modifies s`end, this`isStreaming, this`outbox, this`waiting
      ensures Valid()
      ensures s.end == match v case Waiting => Live case Error => Reset case Dead => Closed
      ensures waiting == old(waiting) + (if v.Waiting? then {s} else {})
      ensures if s.protocol in RequestTable()
              then Ran(self, RequestTable()[s.protocol], s.from, s.data, io, old(isStreaming), isStreaming, old(outbox), outbox, v)
              else v == Error && isStreaming == old(isStreaming) && outbox == old(outbox)
    {
      if s.protocol !in requestHandlers {
        s.Abort();
        return Error;
      }
      var k := requestHandlers[s.protocol];
      if s.data.ReadError? {
        s.Abort();
        return Error;
      }
      v := HandleRequest(k, s.from, s.data, io);
      match v {
        case Waiting =>
          waiting := waiting + {s};
        case Error =>
          s.Abort();
        case Dead =>
          s.CloseStream();
      }
    }

    /** onProtocolResponse: a response is logged and its handler waits; nothing is sent. */
    method OnProtocolResponse(s: InStream) returns (v: Verdict)
      requires Valid() && s.end == Live && s !in waiting
      modifies s`end, this`waiting
      ensures Valid() && !v.Dead?
      ensures v.Waiting? <==> s.protocol in ResponseTable() && s.data.Parsed?
      ensures s.end == if v.Waiting? then Live else Reset
      ensures waiting == old(waiting) + (if v.Waiting? then {s} else {})
    {
      if s.protocol !in responseHandlers || !s.data.Parsed? {
        s.Abort();
        return Error;
      }
      waiting := waiting + {s};
      return Waiting;
    }

    /** A receive on the done channel: the handler of some waiting stream s, whichever the runtime picks,
        returns and closes its stream; every other waiting handler goes on waiting. */
    method TakeToken(s: InStream)
      requires Valid() && s in waiting
      modifies s`end, this`waiting
      ensures Valid()
      ensures waiting == old(waiting) - {s} && |waiting| == |old(waiting)| - 1
      ensures s.end == Closed
    {
      waiting := waiting - {s};
      s.CloseStream();
    }
  }
}
