/**
 internal/shared: the peer lists, the relay addresses and the bootstrap connections, with the host's
 Connect as an arbitrary oracle.
 */
module Shared {
  import opened Wrappers
  import opened Text
  import opened Multiaddr

  /** The text of a peer ID. */
  type PeerId = string

  datatype AddrInfo = AddrInfo(id: PeerId, addrs: seq<Addr>)

  /** What is known of peer.ID.String: it has no slash, and when it decodes it is the canonical spelling. */
  ghost predicate IsIdText(codec: Codec, id: PeerId) {
    Lacks(id, '/') && (codec(P2p, id).Some? ==> codec(P2p, id) == Some(id))
  }

  predicate Decodes(codec: Codec, id: PeerId) {
    codec(P2p, id).Some?
  }

  /** peer.AddrInfoFromP2pAddr: the last component must be p2p; what precedes it, if anything, is the transport. */
  function AddrInfoFromP2pAddr(m: Addr): Option<AddrInfo> {
    if m == [] || !m[|m| - 1].proto.P2p? then None
    else Some(AddrInfo(m[|m| - 1].value, if |m| == 1 then [] else [m[..|m| - 1]]))
  }

  /** Splitting off a final p2p component inverts appending it, and only addresses so ended have a peer. */
  lemma SplitInvertsAppend(m: Addr)
    ensures forall t: Addr, x: PeerId :: t != [] ==>
              (AddrInfoFromP2pAddr(m) == Some(AddrInfo(x, [t])) <==> m == t + [Component(P2p, x)])
    ensures forall x: PeerId :: AddrInfoFromP2pAddr(m) == Some(AddrInfo(x, [])) <==> m == [Component(P2p, x)]
    ensures AddrInfoFromP2pAddr(m).Some? <==> exists t: Addr, x: PeerId :: m == t + [Component(P2p, x)]
  {
    if m != [] {
      assert m == m[..|m| - 1] + [m[|m| - 1]];
      if m[|m| - 1].proto.P2p? {
        assert m == m[..|m| - 1] + [Component(P2p, m[|m| - 1].value)];
      }
    }
    forall t: Addr, x: PeerId | t != [] && m == t + [Component(P2p, x)]
      ensures AddrInfoFromP2pAddr(m) == Some(AddrInfo(x, [t]))
    {
      assert m[..|m| - 1] == t;
    }
  }

  // ---- Peer lists

  method IsBootstrapPeer(bootstrapPeerIDs: seq<PeerId>, pid: PeerId) returns (found: bool)
    ensures found <==> pid in bootstrapPeerIDs
  {
    for k := 0 to |bootstrapPeerIDs|
      invariant pid !in bootstrapPeerIDs[..k]
    {
      if bootstrapPeerIDs[k] == pid {
        return true;
      }
    }
    return false;
  }

  predicate Lists(relayAddresses: seq<AddrInfo>, pid: PeerId) {
    exists k :: 0 <= k < |relayAddresses| && relayAddresses[k].id == pid
  }

  method ContainsPeer(relayAddresses: seq<AddrInfo>, pid: PeerId) returns (found: bool)
    ensures found <==> Lists(relayAddresses, pid)
  {
    for k := 0 to |relayAddresses|
      invariant forall j :: 0 <= j < k ==> relayAddresses[j].id != pid
    {
      if relayAddresses[k].id == pid {
        return true;
      }
    }
    return false;
  }

  // ---- Relay addresses

  datatype RelayError = BadAddress | NoPeer | NoAddresses | BadCircuit | BadRelay

  function ParseRelayAddress(codec: Codec, relayAddrStr: string): Result<AddrInfo, RelayError> {
    match Parse(codec, relayAddrStr)
    case None => Err(BadAddress)
    case Some(m) =>
      match AddrInfoFromP2pAddr(m)
      case None => Err(NoPeer)
      case Some(info) => Ok(info)
  }

  /**
   A relay address string is taken for peer x behind transport t exactly when it parses to t followed by
   /p2p/x, and for x without an address exactly when it parses to /p2p/x alone. Otherwise it is a bad address
   if it does not parse, and has no peer if it does.
   */
  lemma ParseRelayExactly(codec: Codec, s: string)
    ensures forall t: Addr, x: PeerId :: t != [] ==>
              (ParseRelayAddress(codec, s) == Ok(AddrInfo(x, [t])) <==> Parse(codec, s) == Some(t + [Component(P2p, x)]))
    ensures forall x: PeerId :: ParseRelayAddress(codec, s) == Ok(AddrInfo(x, [])) <==> Parse(codec, s) == Some([Component(P2p, x)])
    ensures ParseRelayAddress(codec, s) == Err(BadAddress) <==> Parse(codec, s).None?
    ensures ParseRelayAddress(codec, s) == Err(NoPeer) <==>
            Parse(codec, s).Some? && forall t: Addr, x: PeerId :: Parse(codec, s) != Some(t + [Component(P2p, x)])
  {
    if Parse(codec, s).Some? {
      SplitInvertsAppend(Parse(codec, s).value);
    }
  }

  /** The suffix the program spells "/p2p-circuit/p2p/" followed by the ID. */
  function CircuitTo(id: PeerId): Addr {
    [Component(Circuit, ""), Component(P2p, id)]
  }

  /** One relay address per transport of the relay, spelled as the loop spells it. */
  function RelayAddressesOf(info: AddrInfo): seq<AddrInfo> {
    seq(|info.addrs|, k requires 0 <= k < |info.addrs| => AddrInfo(info.id, [info.addrs[k] + CircuitTo(info.id)]))
  }

  lemma NotAllSlashes(t: string, k: nat)
    requires k < |t| && t[k] != '/'
    ensures TrimRight(t, '/') != ""
  {
  }

  /** "/p2p/" followed by an ID parses exactly when the ID decodes. */
  lemma PeerTextParses(codec: Codec, id: PeerId)
    requires Lawful(codec) && IsIdText(codec, id)
    ensures Parse(codec, "/p2p/" + id) == if Decodes(codec, id) then Some([Component(P2p, id)]) else None
  {
    var c := Component(P2p, id);
    if Decodes(codec, id) {
      ParsePrintOne(codec, c);
      assert PrintOne(c) == "/p2p/" + id;
    } else if id == "" {
      NoIdFails(codec);
      assert "/p2p/" + id == "/p2p/";
    } else {
      var text := "/p2p/" + id;
      NoTrailing(text);
      ParseTrimmed(codec, text);
      PeerParts(id);
      BadPeerPart(codec, id, []);
      assert ["p2p", id] + [] == ["p2p", id];
    }
  }

  lemma NoIdFails(codec: Codec)
    ensures Parse(codec, "/p2p/").None?
  {
    var s := "/p2p/";
    assert s[..4] == "/p2p";
    NoTrailing(s[..4]);
    assert TrimRight(s, '/') == "/p2p" && "/p2p"[1..] == "p2p";
    ParseTrimmed(codec, s);
    SplitWord("p2p", '/');
    assert ["p2p"][0] == "p2p" && Named("p2p") == Some(P2p);
  }

  lemma CircuitHead(codec: Codec)
    requires Lawful(codec)
    ensures Parse(codec, "/p2p-circuit") == Some([Component(Circuit, "")])
  {
    var c := Component(Circuit, "");
    ParsePrintOne(codec, c);
    assert PrintOne(c) == "/p2p-circuit";
  }

  lemma CircuitThen(codec: Codec, t: string)
    requires Lawful(codec) && |t| > 1 && t[0] == '/' && t[1] != '/'
    ensures Parse(codec, "/p2p-circuit" + t) ==
            if Parse(codec, t).None? then None else Some([Component(Circuit, "")] + Parse(codec, t).value)
  {
    CircuitHead(codec);
    ParseTogether(codec, "/p2p-circuit", t);
  }

  /** The text the program prints for a circuit parses to that circuit, exactly when the ID decodes. */
  lemma CircuitTextParses(codec: Codec, id: PeerId)
    requires Lawful(codec) && IsIdText(codec, id)
    ensures Parse(codec, "/p2p-circuit/p2p/" + id) == if Decodes(codec, id) then Some(CircuitTo(id)) else None
  {
    CircuitJoined(codec, id, "/p2p/" + id);
    CircuitText(id);
  }

  lemma CircuitJoined(codec: Codec, id: PeerId, t: string)
    requires Lawful(codec) && IsIdText(codec, id) && t == "/p2p/" + id
    ensures Parse(codec, "/p2p-circuit" + t) == if Decodes(codec, id) then Some(CircuitTo(id)) else None
  {
    PeerTextParses(codec, id);
    CircuitThen(codec, t);
    assert [Component(Circuit, "")] + [Component(P2p, id)] == CircuitTo(id);
  }

  lemma CircuitText(id: PeerId)
    ensures "/p2p-circuit" + ("/p2p/" + id) == "/p2p-circuit/p2p/" + id
  {
  }

  lemma ParseTogether(codec: Codec, s: string, t: string)
    requires Parse(codec, s).Some? && s[|s| - 1] != '/'
    requires |t| > 1 && t[0] == '/' && t[1] != '/'
    ensures Parse(codec, s + t) ==
            if Parse(codec, t).None? then None else Some(Parse(codec, s).value + Parse(codec, t).value)
  {
    NotAllSlashes(t, 1);
    ParseConcat(codec, s, t);
  }

  lemma PeerParts(id: PeerId)
    requires Lacks(id, '/')
    ensures Split(("/p2p/" + id)[1..], '/') == ["p2p", id]
    ensures "/p2p/" + id != "" && ("/p2p/" + id)[0] == '/'
  {
    assert ("/p2p/" + id)[1..] == "p2p" + ['/'] + id;
    SplitWord("p2p", '/');
    SplitWord(id, '/');
    SplitAt("p2p", id, '/');
    assert ["p2p"] + [id] == ["p2p", id];
  }

  /** A text that starts with an ID that does not decode fails, whatever follows it. */
  lemma UndecodedFails(codec: Codec, id: PeerId, rest: string)
    requires Lawful(codec) && Lacks(id, '/') && !Decodes(codec, id)
    requires rest != "" && rest[0] == '/' && TrimRight(rest, '/') != ""
    ensures Parse(codec, "/p2p/" + id + rest).None?
  {
    var s, u := "/p2p/" + id, TrimRight(rest, '/');
    PeerParts(id);
    TrimRightConcat(s, rest, '/');
    ParseTrimmed(codec, s + rest);
    SplitTogether(s, u);
    BadPeerPart(codec, id, Split(u[1..], '/'));
  }

  lemma BadPeerPart(codec: Codec, id: PeerId, more: seq<string>)
    requires !Decodes(codec, id)
    ensures ParseParts(codec, ["p2p", id] + more).None?
  {
    var ps := ["p2p", id] + more;
    assert ps[0] == "p2p" && ps[1] == id && Named("p2p") == Some(P2p);
  }

  /** The text of a relayed address parses exactly when both IDs decode. */
  lemma RelayedTextParses(codec: Codec, relay: PeerId, target: PeerId)
    requires Lawful(codec) && IsIdText(codec, relay) && IsIdText(codec, target)
    ensures Parse(codec, "/p2p/" + relay + "/p2p-circuit/p2p/" + target) ==
            if Decodes(codec, relay) && Decodes(codec, target) then Some(Relayed(relay, target)) else None
  {
    var s, t := "/p2p/" + relay, "/p2p-circuit/p2p/" + target;
    RelayedText(relay, target);
    PeerTextParses(codec, relay);
    CircuitTextParses(codec, target);
    if Decodes(codec, relay) {
      assert codec(P2p, relay) == Some(relay) && relay != "";
      ParseTogether(codec, s, t);
    } else {
      NotAllSlashes(t, 1);
      UndecodedFails(codec, relay, t);
    }
  }

  lemma RelayedText(relay: PeerId, target: PeerId)
    ensures ("/p2p/" + relay) + ("/p2p-circuit/p2p/" + target) == "/p2p/" + relay + "/p2p-circuit/p2p/" + target
    ensures var t := "/p2p-circuit/p2p/" + target; |t| > 1 && t[0] == '/' && t[1] != '/'
    ensures relay != "" ==> ("/p2p/" + relay)[|"/p2p/" + relay| - 1] == relay[|relay| - 1]
  {
  }

  /** The address of target through relay. */
  function Relayed(relay: PeerId, target: PeerId): Addr {
    [Component(P2p, relay)] + CircuitTo(target)
  }

  method ConstructRelayAddresses(codec: Codec, relayInfo: AddrInfo) returns (relayAddresses: seq<AddrInfo>, errors: nat)
    requires Lawful(codec) && IsIdText(codec, relayInfo.id)
    ensures Decodes(codec, relayInfo.id) ==> relayAddresses == RelayAddressesOf(relayInfo) && errors == 0
    ensures Decodes(codec, relayInfo.id) ==>
              |relayAddresses| == |relayInfo.addrs| &&
              forall k :: 0 <= k < |relayAddresses| ==>
                            relayAddresses[k] ==
                            AddrInfo(relayInfo.id, [relayInfo.addrs[k] + [Component(Circuit, ""), Component(P2p, relayInfo.id)]])
    ensures !Decodes(codec, relayInfo.id) ==> relayAddresses == [] && errors == |relayInfo.addrs|
  {
    relayAddresses, errors := [], 0;
    CircuitTextParses(codec, relayInfo.id);
    for k := 0 to |relayInfo.addrs|
      invariant Decodes(codec, relayInfo.id) ==> relayAddresses == RelayAddressesOf(relayInfo)[..k] && errors == 0
      invariant !Decodes(codec, relayInfo.id) ==> relayAddresses == [] && errors == k
    {
      var fullRelayAddr := Parse(codec, "/p2p-circuit/p2p/" + relayInfo.id);
      if fullRelayAddr.None? {
        errors := errors + 1;
      } else {
        var combinedAddr := relayInfo.addrs[k] + fullRelayAddr.value;
        relayAddresses := relayAddresses + [AddrInfo(relayInfo.id, [combinedAddr])];
      }
    }
  }

  function AssembleRelay(codec: Codec, relay: AddrInfo, p: AddrInfo): Result<AddrInfo, RelayError> {
    if relay.addrs == [] then Err(NoAddresses)
    else
      match Parse(codec, "/p2p-circuit/p2p/" + p.id)
      case None => Err(BadCircuit)
      case Some(circuit) =>
        match AddrInfoFromP2pAddr(relay.addrs[0] + circuit)
        case None => Err(NoPeer)
        case Some(target) =>
          match Parse(codec, "/p2p/" + relay.id + "/p2p-circuit/p2p/" + target.id)
          case None => Err(BadRelay)
          case Some(addr) => Ok(AddrInfo(target.id, [addr]))
  }

  /**
   Assembling succeeds exactly when the relay has an address and both IDs decode; then it keeps the
   target's ID and yields the one relayed address, whatever the relay's addresses and the target's are.
   */
  lemma AssembleExactly(codec: Codec, relay: AddrInfo, p: AddrInfo)
    requires Lawful(codec) && IsIdText(codec, relay.id) && IsIdText(codec, p.id)
    ensures AssembleRelay(codec, relay, p) ==
            if relay.addrs == [] then Err(NoAddresses)
            else if !Decodes(codec, p.id) then Err(BadCircuit)
            else if !Decodes(codec, relay.id) then Err(BadRelay)
            else Ok(AddrInfo(p.id, [Relayed(relay.id, p.id)]))
  {
    CircuitTextParses(codec, p.id);
    if relay.addrs != [] && Decodes(codec, p.id) {
      var combined := relay.addrs[0] + CircuitTo(p.id);
      assert combined[|combined| - 1] == Component(P2p, p.id);
      RelayedTextParses(codec, relay.id, p.id);
    }
  }

  /** The relay of an address string that parses has a decodable ID. */
  lemma ParsedRelayDecodes(codec: Codec, s: string)
    requires Lawful(codec) && ParseRelayAddress(codec, s).Ok?
    ensures var info := ParseRelayAddress(codec, s).value;
            && IsIdText(codec, info.id) && Decodes(codec, info.id)
            && Parse(codec, s) == Some((if info.addrs == [] then [] else info.addrs[0]) + [Component(P2p, info.id)])
            && |info.addrs| <= 1 && (info.addrs != [] ==> info.addrs[0] != [])
  {
    var m := Parse(codec, s).value;
    ParsedIsWellFormed(codec, s);
    EndsInPeer(codec, m);
  }

  lemma EndsInPeer(codec: Codec, m: Addr)
    requires Lawful(codec) && WellFormed(codec, m) && AddrInfoFromP2pAddr(m).Some?
    ensures var info := AddrInfoFromP2pAddr(m).value;
            && IsIdText(codec, info.id) && Decodes(codec, info.id)
            && m == (if info.addrs == [] then [] else info.addrs[0]) + [Component(P2p, info.id)]
            && |info.addrs| <= 1 && (info.addrs != [] ==> info.addrs[0] != [])
  {
    var last := m[|m| - 1];
    assert last in m && last == Component(P2p, last.value);
    assert m == m[..|m| - 1] + [last];
  }

  /**
   For every text that parses to a transport t followed by /p2p/R: the relay is R at t, constructing yields
   exactly t/p2p-circuit/p2p/R, and assembling that with any peer whose ID decodes yields the one address
   /p2p/R/p2p-circuit/p2p/T for that peer's ID T. Without a transport there is no relay address.
   */
  lemma RelayPipeline(codec: Codec, s: string, t: Addr, relay: PeerId, p: AddrInfo)
    requires Lawful(codec) && Parse(codec, s) == Some(t + [Component(P2p, relay)])
    requires IsIdText(codec, p.id) && Decodes(codec, p.id)
    ensures var info := AddrInfo(relay, if t == [] then [] else [t]);
            var circuit := AddrInfo(relay, [t + [Component(Circuit, ""), Component(P2p, relay)]]);
            && ParseRelayAddress(codec, s) == Ok(info)
            && RelayAddressesOf(info) == (if t == [] then [] else [circuit])
            && AssembleRelay(codec, circuit, p) ==
               Ok(AddrInfo(p.id, [[Component(P2p, relay), Component(Circuit, ""), Component(P2p, p.id)]]))
  {
    ParseRelayExactly(codec, s);
    assert [] + [Component(P2p, relay)] == [Component(P2p, relay)];
    ParsedRelayDecodes(codec, s);
    AssembleExactly(codec, AddrInfo(relay, [t + CircuitTo(relay)]), p);
    RelayedSpelled(relay, p.id);
  }

  lemma RelayedSpelled(relay: PeerId, target: PeerId)
    ensures Relayed(relay, target) == [Component(P2p, relay), Component(Circuit, ""), Component(P2p, target)]
  {
  }

  // ---- Bootstrap

  datatype Entry = Blank | Bad(text: string) | Peer(info: AddrInfo)

  /** What one bootstrap string is worth. */
  function Classify(codec: Codec, addr: string): Entry {
    var t := TrimSpace(addr);
    if t == "" then Blank
    else
      match Parse(codec, t)
      case None => Bad(t)
      case Some(m) =>
        match AddrInfoFromP2pAddr(m)
        case None => Bad(t)
        case Some(info) => Peer(info)
  }

  function PeersOf(codec: Codec, addrs: seq<string>): seq<AddrInfo> {
    if addrs == [] then []
    else
      var e := Classify(codec, addrs[|addrs| - 1]);
      PeersOf(codec, addrs[..|addrs| - 1]) + (if e.Peer? then [e.info] else [])
  }

  function ErrorsOf(codec: Codec, addrs: seq<string>): seq<string> {
    if addrs == [] then []
    else
      var e := Classify(codec, addrs[|addrs| - 1]);
      ErrorsOf(codec, addrs[..|addrs| - 1]) + (if e.Bad? then [e.text] else [])
  }

  function BlanksOf(addrs: seq<string>): nat {
    if addrs == [] then 0
    else BlanksOf(addrs[..|addrs| - 1]) + (if forall c :: c in addrs[|addrs| - 1] ==> IsSpace(c) then 1 else 0)
  }

  /** One more string: at most one more peer or one more error. */
  lemma OneMoreEntry(codec: Codec, addrs: seq<string>, k: nat)
    requires k < |addrs|
    ensures var e := Classify(codec, addrs[k]);
            && PeersOf(codec, addrs[..k + 1]) == PeersOf(codec, addrs[..k]) + (if e.Peer? then [e.info] else [])
            && ErrorsOf(codec, addrs[..k + 1]) == ErrorsOf(codec, addrs[..k]) + (if e.Bad? then [e.text] else [])
  {
    assert addrs[..k + 1][..k] == addrs[..k];
  }

  method ParseBootstrap(codec: Codec, bootstrapAddrs: seq<string>) returns (bootstrapPeers: seq<AddrInfo>, parseErrors: seq<string>)
    ensures bootstrapPeers == PeersOf(codec, bootstrapAddrs)
    ensures parseErrors == ErrorsOf(codec, bootstrapAddrs)
  {
    bootstrapPeers, parseErrors := [], [];
    for k := 0 to |bootstrapAddrs|
      invariant bootstrapPeers == PeersOf(codec, bootstrapAddrs[..k])
      invariant parseErrors == ErrorsOf(codec, bootstrapAddrs[..k])
    {
      OneMoreEntry(codec, bootstrapAddrs, k);
      var addrStr := TrimSpace(bootstrapAddrs[k]);
      if addrStr == "" {
        continue;
      }
      var maddr := Parse(codec, addrStr);
      if maddr.None? {
        parseErrors := parseErrors + [addrStr];
        continue;
      }
      var peerInfo := AddrInfoFromP2pAddr(maddr.value);
      if peerInfo.None? {
        parseErrors := parseErrors + [addrStr];
        continue;
      }
      bootstrapPeers := bootstrapPeers + [peerInfo.value];
    }
    assert bootstrapAddrs[..|bootstrapAddrs|] == bootstrapAddrs;
  }

  /** Every input is blank, an error or a peer. */
  lemma {:induction false} InputsAccountedFor(codec: Codec, addrs: seq<string>)
    ensures |addrs| == BlanksOf(addrs) + |ErrorsOf(codec, addrs)| + |PeersOf(codec, addrs)|
  {
    if addrs != [] {
      InputsAccountedFor(codec, addrs[..|addrs| - 1]);
    }
  }

  /** Parsing distributes over concatenation, so order is kept and no entry affects another. */
  lemma {:induction false} BootstrapConcat(codec: Codec, a: seq<string>, b: seq<string>)
    ensures PeersOf(codec, a + b) == PeersOf(codec, a) + PeersOf(codec, b)
    ensures ErrorsOf(codec, a + b) == ErrorsOf(codec, a) + ErrorsOf(codec, b)
  {
    if b == [] {
      assert a + b == a;
    } else {
      var init, e := b[..|b| - 1], Classify(codec, b[|b| - 1]);
      assert (a + b)[..|a + b| - 1] == a + init && (a + b)[|a + b| - 1] == b[|b| - 1];
      BootstrapConcat(codec, a, init);
      Assoc(PeersOf(codec, a), PeersOf(codec, init), if e.Peer? then [e.info] else []);
      Assoc(ErrorsOf(codec, a), ErrorsOf(codec, init), if e.Bad? then [e.text] else []);
    }
  }

  /** What a single bootstrap string yields, read with the spaces around it removed. */
  lemma EntryYields(codec: Codec, addr: string)
    ensures TrimSpace(addr) == "" ==> PeersOf(codec, [addr]) == [] && ErrorsOf(codec, [addr]) == []
    ensures forall t: Addr, x: PeerId :: t != [] && Parse(codec, TrimSpace(addr)) == Some(t + [Component(P2p, x)]) ==>
                                           PeersOf(codec, [addr]) == [AddrInfo(x, [t])] && ErrorsOf(codec, [addr]) == []
    ensures forall x: PeerId :: Parse(codec, TrimSpace(addr)) == Some([Component(P2p, x)]) ==>
                                  PeersOf(codec, [addr]) == [AddrInfo(x, [])] && ErrorsOf(codec, [addr]) == []
    ensures TrimSpace(addr) != "" &&
            (forall t: Addr, x: PeerId :: Parse(codec, TrimSpace(addr)) != Some(t + [Component(P2p, x)])) ==>
              PeersOf(codec, [addr]) == [] && ErrorsOf(codec, [addr]) == [TrimSpace(addr)]
  {
    assert [addr][..0] == [];
    var t := TrimSpace(addr);
    if t == "" {
      NothingFails(codec);
    } else if Parse(codec, t).Some? {
      SplitInvertsAppend(Parse(codec, t).value);
    }
  }

  lemma NothingFails(codec: Codec)
    ensures Parse(codec, "").None?
  {
    ParseTrimmed(codec, "");
  }

  /** A host: every Connect is logged, and the k-th network operation succeeds as the oracle says. */
  class Host {
    const oracle: nat -> bool
    var calls: seq<AddrInfo>
    var peerstore: seq<AddrInfo>

    constructor (oracle: nat -> bool)
      ensures this.oracle == oracle && calls == [] && peerstore == []
    {
      this.oracle := oracle;
      calls, peerstore := [], [];
    }

    method Connect(info: AddrInfo) returns (ok: bool)
      modifies this`calls
      ensures calls == old(calls) + [info] && ok == oracle(|old(calls)|)
    {
      ok := oracle(|calls|);
      calls := calls + [info];
    }

    method AddAddrs(info: AddrInfo)
      modifies this`peerstore
      ensures peerstore == old(peerstore) + [info]
    {
      peerstore := peerstore + [info];
    }
  }

  /** The peers, from the n-th operation on, whose Connect fails. */
  function Failed(peers: seq<AddrInfo>, oracle: nat -> bool, n: nat): seq<PeerId> {
    if peers == [] then []
    else
      var k := |peers| - 1;
      Failed(peers[..k], oracle, n) + (if oracle(n + k) then [] else [peers[k].id])
  }

  /** The peers that fail are those whose own operation does, in order. */
  lemma {:induction false} FailedConcat(a: seq<AddrInfo>, b: seq<AddrInfo>, oracle: nat -> bool, n: nat)
    ensures Failed(a + b, oracle, n) == Failed(a, oracle, n) + Failed(b, oracle, n + |a|)
    ensures |a| == 1 ==> Failed(a, oracle, n) == if oracle(n) then [] else [a[0].id]
  {
    assert |a| == 1 ==> a[..0] == [];
    if b == [] {
      assert a + b == a;
    } else {
      var init, k := b[..|b| - 1], |b| - 1;
      assert (a + b)[..|a + b| - 1] == a + init && (a + b)[|a + b| - 1] == b[k];
      FailedConcat(a, init, oracle, n);
      Assoc(Failed(a, oracle, n), Failed(init, oracle, n + |a|), if oracle(n + |a| + k) then [] else [b[k].id]);
    }
  }

  /** The errors: one per failed peer, and one more (None) exactly when no peer connected. */
  method ConnectToBootstrapPeers(host: Host, bootstrapPeers: seq<AddrInfo>) returns (success: bool, errs: seq<Option<PeerId>>)
    modifies host`calls
    ensures host.calls == old(host.calls) + bootstrapPeers
    ensures success <==> exists k :: |old(host.calls)| <= k < |host.calls| && host.oracle(k)
    ensures success <==> |Failed(bootstrapPeers, host.oracle, |old(host.calls)|)| < |bootstrapPeers|
    ensures |errs| == |Failed(bootstrapPeers, host.oracle, |old(host.calls)|)| + (if success then 0 else 1)
    ensures forall k :: 0 <= k < |Failed(bootstrapPeers, host.oracle, |old(host.calls)|)| ==>
                          errs[k] == Some(Failed(bootstrapPeers, host.oracle, |old(host.calls)|)[k])
    ensures !success ==> errs[|errs| - 1] == None
  {
    success, errs := false, [];
    ghost var n := |host.calls|;
    for k := 0 to |bootstrapPeers|
      invariant host.calls == old(host.calls) + bootstrapPeers[..k]
      invariant success <==> exists j :: n <= j < n + k && host.oracle(j)
      invariant success <==> |errs| < k
      invariant |errs| == |Failed(bootstrapPeers[..k], host.oracle, n)| <= k
      invariant forall j :: 0 <= j < |errs| ==> errs[j] == Some(Failed(bootstrapPeers[..k], host.oracle, n)[j])
    {
      assert bootstrapPeers[..k + 1][..k] == bootstrapPeers[..k];
      assert |host.calls| == n + k;
      var ok := host.Connect(bootstrapPeers[k]);
      if !ok {
        errs := errs + [Some(bootstrapPeers[k].id)];
      } else {
        success := true;
      }
    }
    assert bootstrapPeers[..|bootstrapPeers|] == bootstrapPeers;
    if !success {
      errs := errs + [None];
    }
  }

  /** The relay's own loop, which splits, parses and connects in one pass. */
  method ConnectToBootstrapString(codec: Codec, host: Host, bootstrapPeers: string)
    modifies host`calls, host`peerstore
    ensures host.calls == old(host.calls) + PeersOf(codec, Split(bootstrapPeers, ','))
    ensures host.peerstore == old(host.peerstore) + PeersOf(codec, Split(bootstrapPeers, ','))
  {
    var peerAddrs := Split(bootstrapPeers, ',');
    if bootstrapPeers == "" {
      NoPeersInNothing(codec);
      return;
    }
    ghost var done: seq<AddrInfo> := [];
    ghost var calls, stored := host.calls, host.peerstore;
    for k := 0 to |peerAddrs|
      invariant done == PeersOf(codec, peerAddrs[..k])
      invariant host.calls == calls + done && host.peerstore == stored + done
    {
      OneMorePeer(codec, peerAddrs, k);
      var addr := TrimSpace(peerAddrs[k]);
      if addr == "" {
        continue;
      }
      var maddr := Parse(codec, addr);
      if maddr.None? {
        continue;
      }
      var peerInfo := AddrInfoFromP2pAddr(maddr.value);
      if peerInfo.None? {
        continue;
      }
      host.AddAddrs(peerInfo.value);
      var _ := host.Connect(peerInfo.value);
      Assoc(calls, done, [peerInfo.value]);
      Assoc(stored, done, [peerInfo.value]);
      done := done + [peerInfo.value];
    }
    assert peerAddrs[..|peerAddrs|] == peerAddrs;
  }

  lemma NoPeersInNothing(codec: Codec)
    ensures PeersOf(codec, Split("", ',')) == []
  {
    assert [""][..0] == [];
  }

  lemma OneMorePeer(codec: Codec, addrs: seq<string>, k: nat)
    requires k < |addrs|
    ensures PeersOf(codec, addrs[..k + 1]) ==
            match Classify(codec, addrs[k])
            case Peer(info) => PeersOf(codec, addrs[..k]) + [info]
            case _ => PeersOf(codec, addrs[..k])
  {
    OneMoreEntry(codec, addrs, k);
  }

  /** Splitting first, then ParseBootstrap, then ConnectToBootstrapPeers: the same Connect calls in the same
      order as the fused loop, on every text and with every oracle. (The relay's main calls the last two on
      addresses it already has as a list, and exits in between when none of them parses.) */
  method ConnectInStages(codec: Codec, host: Host, bootstrapPeers: string) returns (success: bool)
    modifies host`calls
    ensures host.calls == old(host.calls) + PeersOf(codec, Split(bootstrapPeers, ','))
    ensures success <==> exists k :: |old(host.calls)| <= k < |host.calls| && host.oracle(k)
  {
    var peers, parseErrors := ParseBootstrap(codec, Split(bootstrapPeers, ','));
    var errs;
    success, errs := ConnectToBootstrapPeers(host, peers);
  }
}
