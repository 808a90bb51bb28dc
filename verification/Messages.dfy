/**
 The ten messages of internal/ping/pb/p2p.proto, the protocol each travels on,
 and the values the request handlers compute from the streaming flag.
 */
module Messages {
  import opened Wrappers

  /** A peer, named by its peer ID. */
  type Node = string

  datatype Kind = Ping | StartStream | StopStream | Status | Info

  datatype Protocol = Request(kind: Kind) | Response(kind: Kind)

  datatype Id = Id(projectId: string, devId: string, apiKey: string)

  /** An id field is a reference in the generated code, so it can be absent. */
  datatype Message =
    | PingRequest(messageData: string, message: string)
    | PingResponse(messageData: string, message: string)
    | StartStreamRequest(id: Option<Id>, requestIssueNeed: string, configOptions: map<string, string>)
    | StartStreamResponse(id: Option<Id>, isStreaming: bool, statusMessage: string)
    | StopStreamRequest(id: Option<Id>)
    | StopStreamResponse(id: Option<Id>)
    | StatusRequest(id: Option<Id>)
    | StatusResponse(isStreaming: bool, statusMessage: string)
    | InfoRequest(hostId: string)
    | InfoResponse(hostId: string, publicIp: string, privateIp: string, isPublic: bool,
                   clientVersion: string, systemConfig: map<string, string>)

  /** What a request handler decided after looking at the flag. */
  datatype Outcome = Success | AlreadyStreaming | StreamStopped | NotStreaming | Active | Inactive

  function ProtocolOf(m: Message): Protocol {
    match m
    case PingRequest(_, _) => Request(Ping)
    case PingResponse(_, _) => Response(Ping)
    case StartStreamRequest(_, _, _) => Request(StartStream)
    case StartStreamResponse(_, _, _) => Response(StartStream)
    case StopStreamRequest(_) => Request(StopStream)
    case StopStreamResponse(_) => Response(StopStream)
    case StatusRequest(_) => Request(Status)
    case StatusResponse(_, _) => Response(Status)
    case InfoRequest(_) => Request(Info)
    case InfoResponse(_, _, _, _, _, _) => Response(Info)
  }

  /** What unmarshalling the empty byte string yields on a protocol. */
  function Zero(p: Protocol): (m: Message)
    ensures ProtocolOf(m) == p
  {
    match p
    case Request(Ping) => PingRequest("", "")
    case Response(Ping) => PingResponse("", "")
    case Request(StartStream) => StartStreamRequest(None, "", map[])
    case Response(StartStream) => StartStreamResponse(None, false, "")
    case Request(StopStream) => StopStreamRequest(None)
    case Response(StopStream) => StopStreamResponse(None)
    case Request(Status) => StatusRequest(None)
    case Response(Status) => StatusResponse(false, "")
    case Request(Info) => InfoRequest("")
    case Response(Info) => InfoResponse("", "", "", false, "", map[])
  }

  /** The kinds whose request handler reads the fields of req.Id and looks at the flag. */
  predicate UsesFlag(k: Kind) {
    k.StartStream? || k.StopStream? || k.Status?
  }

  /** The handler's accesses to req.Id.ProjectId and its siblings do not fault. */
  predicate IdDefined(m: Message) {
    match m
    case StartStreamRequest(id, _, _) => id.Some?
    case StopStreamRequest(id) => id.Some?
    case StatusRequest(id) => id.Some?
    case _ => true
  }

  /** The messages the five exported senders build. */
  predicate FromSender(m: Message) {
    ProtocolOf(m).Request? && IdDefined(m)
  }

  /** The outcome a flag-using request settles on when it sees the flag at `flag`. */
  function Respond(k: Kind, flag: bool): Outcome
    requires UsesFlag(k)
  {
    match k
    case StartStream => if flag then AlreadyStreaming else Success
    case StopStream => if flag then StreamStopped else NotStreaming
    case Status => if flag then Active else Inactive
  }

  function OpOf(o: Outcome): (k: Kind)
    ensures UsesFlag(k)
  {
    match o
    case Success => StartStream
    case AlreadyStreaming => StartStream
    case StreamStopped => StopStream
    case NotStreaming => StopStream
    case Active => Status
    case Inactive => Status
  }

  /** The status message of a reply; that of a stop is only logged. */
  function StatusText(o: Option<Outcome>): string {
    match o
    case Some(Success) => "SUCCESS"
    case Some(AlreadyStreaming) => "ALREADY_STREAMING"
    case Some(Active) => "Stream is active"
    case Some(Inactive) => "Stream is inactive"
    case _ => "unknown"
  }

  const CLIENT_VERSION := "go-p2p-node/0.0.1"

  /** The reply a request handler at `self` builds, reading the flag once more as `flag`. */
  function ReplyTo(self: Node, req: Message, o: Option<Outcome>, flag: bool): (resp: Message)
    requires FromSender(req)
    ensures ProtocolOf(resp) == Response(ProtocolOf(req).kind)
  {
    match req
    case PingRequest(data, _) => PingResponse("Response to " + data, "Ping response from " + self)
    case StartStreamRequest(id, _, _) => StartStreamResponse(id, flag, StatusText(o))
    case StopStreamRequest(id) => StopStreamResponse(id)
    case StatusRequest(id) => StatusResponse(flag, StatusText(o))
    case InfoRequest(_) =>
      InfoResponse(self, "0.0.0.0", "192.0.2.1", false, CLIENT_VERSION,
                   map["os" := "macOS", "arch" := "amd64", "uptime" := "null"])
  }

  /**
   What the reply to req says, word for word, when the flag is `flag` as it is built: a start is told SUCCESS
   if its handler wrote the flag, and a status what its handler's first look at the flag saw.
   */
  predicate Says(self: Node, req: Message, resp: Message, flag: bool, wrote: bool, seen: bool) {
    match req
    case PingRequest(data, _) => resp == PingResponse("Response to " + data, "Ping response from " + self)
    case StartStreamRequest(id, _, _) => resp == StartStreamResponse(id, flag, if wrote then "SUCCESS" else "ALREADY_STREAMING")
    case StopStreamRequest(id) => resp == StopStreamResponse(id)
    case StatusRequest(_) => resp == StatusResponse(flag, if seen then "Stream is active" else "Stream is inactive")
    case InfoRequest(_) =>
      resp == InfoResponse(self, "0.0.0.0", "192.0.2.1", false, "go-p2p-node/0.0.1",
                           map["os" := "macOS", "arch" := "amd64", "uptime" := "null"])
    case _ => false
  }

  /** The message without content: absent references, empty texts and tables, false. */
  predicate Blank(m: Message) {
    match m
    case PingRequest(a, b) => a == "" && b == ""
    case PingResponse(a, b) => a == "" && b == ""
    case StartStreamRequest(id, need, options) => id.None? && need == "" && options == map[]
    case StartStreamResponse(id, b, text) => id.None? && !b && text == ""
    case StopStreamRequest(id) => id.None?
    case StopStreamResponse(id) => id.None?
    case StatusRequest(id) => id.None?
    case StatusResponse(b, text) => !b && text == ""
    case InfoRequest(host) => host == ""
    case InfoResponse(host, a, b, p, v, config) => host == "" && a == "" && b == "" && !p && v == "" && config == map[]
  }

  /** Nothing but the blank message of a protocol is read from no bytes. */
  lemma ZeroIsBlank(m: Message)
    ensures m == Zero(ProtocolOf(m)) <==> Blank(m)
  {
  }
}
