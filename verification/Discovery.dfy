/**
 connectToPeers of the mobile client: the loop over discovered peers, with its connectedPeers map, and
 with the outcome of every network operation decided by an oracle.
 */
module Discovery {
  import opened Wrappers
  import opened Text
  import opened Multiaddr
  import opened Shared

  datatype Call = Connect(info: AddrInfo) | OpenStream(id: PeerId)

  /** What connectToPeers works on: the network operations made so far and the map it fills. */
  datatype World = World(calls: seq<Call>, connected: map<PeerId, AddrInfo>)

  /** The fixed inputs of one run of connectToPeers. */
  datatype Setting = Setting(codec: Codec, self: PeerId, bootstrap: seq<PeerId>, relays: seq<AddrInfo>, oracle: nat -> bool)

  predicate Excluded(c: Setting, id: PeerId) {
    id == c.self || id in c.bootstrap || Lists(c.relays, id)
  }

  /** What assembling each listed relay with peer p gives. */
  function TargetsOf(c: Setting, p: AddrInfo): seq<Result<AddrInfo, RelayError>> {
    seq(|c.relays|, k requires 0 <= k < |c.relays| => AssembleRelay(c.codec, c.relays[k], p))
  }

  /** One assembled target tried for the peer with that ID; one that did not assemble is skipped. */
  function TryTarget(oracle: nat -> bool, w: World, target: Result<AddrInfo, RelayError>, id: PeerId): World {
    match target
    case Err(_) => w
    case Ok(info) =>
      World(w.calls + [Connect(info)], if oracle(|w.calls|) then w.connected[id := info] else w.connected)
  }

  /** The first k targets tried in turn; the loop does not stop at a success. */
  function TryTargets(oracle: nat -> bool, w: World, targets: seq<Result<AddrInfo, RelayError>>, k: nat, id: PeerId): World
    requires k <= |targets|
  {
    if k == 0 then w else TryTarget(oracle, TryTargets(oracle, w, targets, k - 1, id), targets[k - 1], id)
  }

  function Visit(c: Setting, w: World, p: AddrInfo): World {
    if Excluded(c, p.id) then w
    else
      var direct := w.(calls := w.calls + [Connect(p)]);
      if !c.oracle(|w.calls|) then TryTargets(c.oracle, direct, TargetsOf(c, p), |c.relays|, p.id)
      else
        World(direct.calls + [OpenStream(p.id)],
              if c.oracle(|direct.calls|) then w.connected[p.id := p] else w.connected)
  }

  function VisitAll(c: Setting, w: World, peers: seq<AddrInfo>): World {
    if peers == [] then w else Visit(c, VisitAll(c, w, peers[..|peers| - 1]), peers[|peers| - 1])
  }

  // ---- What a visit does

  /** The targets that assembled, in order. */
  function Assembled(targets: seq<Result<AddrInfo, RelayError>>): seq<AddrInfo> {
    if targets == [] then []
    else
      var t := targets[|targets| - 1];
      Assembled(targets[..|targets| - 1]) + (if t.Ok? then [t.value] else [])
  }

  function Connects(infos: seq<AddrInfo>): (calls: seq<Call>)
    ensures |calls| == |infos| && forall k :: 0 <= k < |infos| ==> calls[k] == Connect(infos[k])
  {
    seq(|infos|, k requires 0 <= k < |infos| => Connect(infos[k]))
  }

  /** The last of the m operations from the n-th on that succeeds. */
  function LastSuccess(oracle: nat -> bool, n: nat, m: nat): (j: Option<nat>)
    ensures j.Some? ==> n <= j.value < n + m && oracle(j.value)
    ensures forall i :: (if j.Some? then j.value + 1 else n) <= i < n + m ==> !oracle(i)
  {
    if m == 0 then None else if oracle(n + m - 1) then Some(n + m - 1) else LastSuccess(oracle, n, m - 1)
  }

  /** What relay attempts from the n-th operation on store: the last one that connects. */
  function RelayedOutcome(oracle: nat -> bool, n: nat, tried: seq<AddrInfo>): Option<AddrInfo> {
    var j := LastSuccess(oracle, n, |tried|);
    if j.None? then None else Some(tried[j.value - n])
  }

  function Put(m: map<PeerId, AddrInfo>, id: PeerId, v: Option<AddrInfo>): map<PeerId, AddrInfo> {
    if v.None? then m else m[id := v.value]
  }

  /** Relay attempts: each assembled target is connected to in turn, and the last success is stored. */
  lemma {:induction false} TryTargetsExactly(oracle: nat -> bool, w: World, targets: seq<Result<AddrInfo, RelayError>>, k: nat, id: PeerId)
    requires k <= |targets|
    ensures var tried := Assembled(targets[..k]);
            TryTargets(oracle, w, targets, k, id) ==
            World(w.calls + Connects(tried), Put(w.connected, id, RelayedOutcome(oracle, |w.calls|, tried)))
  {
    if k == 0 {
      assert w.calls + [] == w.calls;
    } else {
      var tried := Assembled(targets[..k - 1]);
      TryTargetsExactly(oracle, w, targets, k - 1, id);
      assert targets[..k][..k - 1] == targets[..k - 1];
      if targets[k - 1].Ok? {
        TriedNext(oracle, w, tried, targets[k - 1].value, id);
      }
    }
  }

  lemma TryNext(oracle: nat -> bool, w: World, targets: seq<Result<AddrInfo, RelayError>>, k: nat, id: PeerId,
                target: Result<AddrInfo, RelayError>)
    requires k < |targets| && targets[k] == target
    ensures TryTargets(oracle, w, targets, k + 1, id) == TryTarget(oracle, TryTargets(oracle, w, targets, k, id), target, id)
  {
  }

  lemma TriedNext(oracle: nat -> bool, w: World, tried: seq<AddrInfo>, info: AddrInfo, id: PeerId)
    ensures TryTarget(oracle, World(w.calls + Connects(tried), Put(w.connected, id, RelayedOutcome(oracle, |w.calls|, tried))), Ok(info), id) ==
            World(w.calls + Connects(tried + [info]), Put(w.connected, id, RelayedOutcome(oracle, |w.calls|, tried + [info])))
  {
    ConnectsNext(w.calls, tried, info);
    OutcomeNext(oracle, |w.calls|, tried, info);
  }

  lemma OutcomeNext(oracle: nat -> bool, n: nat, tried: seq<AddrInfo>, info: AddrInfo)
    ensures RelayedOutcome(oracle, n, tried + [info]) ==
            if oracle(n + |tried|) then Some(info) else RelayedOutcome(oracle, n, tried)
  {
  }

  lemma ConnectsNext(calls: seq<Call>, tried: seq<AddrInfo>, info: AddrInfo)
    ensures (calls + Connects(tried)) + [Connect(info)] == calls + Connects(tried + [info])
  {
  }

  /** What a visit of p from w stores for it: p itself if the direct connect and the stream succeed, the last
      relayed target that connects if the direct connect fails, and nothing for an excluded peer. */
  function Stores(c: Setting, w: World, p: AddrInfo): Option<AddrInfo> {
    var n := |w.calls|;
    if p.id == c.self || p.id in c.bootstrap || Lists(c.relays, p.id) then None
    else if !c.oracle(n) then RelayedOutcome(c.oracle, n + 1, Assembled(TargetsOf(c, p)))
    else if c.oracle(n + 1) then Some(p)
    else None
  }

  /** The operations a visit of p from w makes. */
  function Makes(c: Setting, w: World, p: AddrInfo): seq<Call> {
    if p.id == c.self || p.id in c.bootstrap || Lists(c.relays, p.id) then []
    else if c.oracle(|w.calls|) then [Connect(p), OpenStream(p.id)]
    else [Connect(p)] + Connects(Assembled(TargetsOf(c, p)))
  }

  lemma VisitExactly(c: Setting, w: World, p: AddrInfo)
    ensures Visit(c, w, p) == World(w.calls + Makes(c, w, p), Put(w.connected, p.id, Stores(c, w, p)))
  {
    if Excluded(c, p.id) {
      assert w.calls + [] == w.calls;
    } else if c.oracle(|w.calls|) {
      TwoCalls(w.calls, Connect(p), OpenStream(p.id));
    } else {
      var direct := w.(calls := w.calls + [Connect(p)]);
      var targets := TargetsOf(c, p);
      TryTargetsExactly(c.oracle, direct, targets, |c.relays|, p.id);
      assert targets[..|c.relays|] == targets;
      Assoc(w.calls, [Connect(p)], Connects(Assembled(targets)));
    }
  }

  lemma TwoCalls(calls: seq<Call>, a: Call, b: Call)
    ensures (calls + [a]) + [b] == calls + [a, b]
  {
  }

  /**
   What one visit does, operation by operation. The host, a bootstrap peer and a listed relay: nothing. A peer
   whose direct connect succeeds: that connect and one stream, and the peer stored if the stream opens. Any
   other: every relayed target that assembles is connected to, and the last one that connects is stored.
   */
  predicate VisitedAs(c: Setting, w: World, v: World, p: AddrInfo) {
    var n, tried := |w.calls|, Assembled(TargetsOf(c, p));
    if p.id == c.self || p.id in c.bootstrap || Lists(c.relays, p.id) then v == w
    else if c.oracle(n) then
      && v.calls == w.calls + [Connect(p), OpenStream(p.id)]
      && v.connected == if c.oracle(n + 1) then w.connected[p.id := p] else w.connected
    else
      && v.calls == w.calls + ([Connect(p)] + Connects(tried))
      && v.connected == Put(w.connected, p.id, RelayedOutcome(c.oracle, n + 1, tried))
  }

  lemma VisitSays(c: Setting, w: World, p: AddrInfo)
    ensures VisitedAs(c, w, Visit(c, w, p), p)
  {
    VisitExactly(c, w, p);
    assert w.calls + [] == w.calls;
  }

  /** What the k-th visit stores. */
  function StoredAt(c: Setting, w: World, peers: seq<AddrInfo>, k: nat): Option<AddrInfo>
    requires k < |peers|
  {
    Stores(c, VisitAll(c, w, peers[..k]), peers[k])
  }

  /** The k-th visit is one of a peer with that ID, and stores something. */
  function StoresFor(c: Setting, w: World, peers: seq<AddrInfo>, id: PeerId): nat -> bool {
    (k: nat) => k < |peers| && peers[k].id == id && StoredAt(c, w, peers, k).Some?
  }

  lemma StoredAtPrefix(c: Setting, w: World, peers: seq<AddrInfo>, m: nat, k: nat)
    requires k < m <= |peers|
    ensures StoredAt(c, w, peers[..m], k) == StoredAt(c, w, peers, k) && peers[..m][k] == peers[k]
  {
    assert peers[..m][..k] == peers[..k];
  }

  lemma {:induction false} SameBelow(f: nat -> bool, g: nat -> bool, m: nat)
    requires forall k: nat :: k < m ==> f(k) == g(k)
    ensures LastSuccess(f, 0, m) == LastSuccess(g, 0, m)
  {
    if m > 0 {
      SameBelow(f, g, m - 1);
    }
  }

  lemma LastOfPrefix(c: Setting, w: World, peers: seq<AddrInfo>, id: PeerId, m: nat)
    requires m <= |peers|
    ensures LastSuccess(StoresFor(c, w, peers[..m], id), 0, m) == LastSuccess(StoresFor(c, w, peers, id), 0, m)
  {
    var f, g := StoresFor(c, w, peers[..m], id), StoresFor(c, w, peers, id);
    forall k: nat | k < m ensures f(k) == g(k) {
      StoredAtPrefix(c, w, peers, m, k);
    }
    SameBelow(f, g, m);
  }

  /**
   After the loop an ID is a key exactly if it was one or the visit of some discovered peer with that ID stored
   something; its value is what the last such visit stored.
   */
  lemma {:induction false} ConnectedExactly(c: Setting, w: World, peers: seq<AddrInfo>, id: PeerId)
    ensures var end := VisitAll(c, w, peers).connected;
            match LastSuccess(StoresFor(c, w, peers, id), 0, |peers|)
            case None => (id in end <==> id in w.connected) && (id in end ==> end[id] == w.connected[id])
            case Some(k) => id in end && Some(end[id]) == StoredAt(c, w, peers, k)
  {
    if peers != [] {
      var m := |peers| - 1;
      ConnectedExactly(c, w, peers[..m], id);
      LastOfPrefix(c, w, peers, id, m);
      VisitExactly(c, VisitAll(c, w, peers[..m]), peers[m]);
      assert StoredAt(c, w, peers, m) == Stores(c, VisitAll(c, w, peers[..m]), peers[m]);
      assert StoresFor(c, w, peers, id)(m) <==> peers[m].id == id && StoredAt(c, w, peers, m).Some?;
      if LastSuccess(StoresFor(c, w, peers, id), 0, m).Some? {
        StoredAtPrefix(c, w, peers, m, LastSuccess(StoresFor(c, w, peers, id), 0, m).value);
      }
    }
  }

  /** Visiting goes on where it stopped. */
  lemma {:induction false} VisitAllConcat(c: Setting, w: World, a: seq<AddrInfo>, b: seq<AddrInfo>)
    ensures VisitAll(c, w, a + b) == VisitAll(c, VisitAll(c, w, a), b)
    ensures |b| == 1 ==> VisitAll(c, w, b) == Visit(c, w, b[0])
  {
    assert |b| == 1 ==> b[..0] == [];
    if b == [] {
      assert a + b == a;
    } else {
      assert (a + b)[..|a + b| - 1] == a + b[..|b| - 1] && (a + b)[|a + b| - 1] == b[|b| - 1];
      VisitAllConcat(c, w, a, b[..|b| - 1]);
    }
  }

  class Client {
    const codec: Codec
    const self: PeerId
    const bootstrapPeerIDs: seq<PeerId>
    const oracle: nat -> bool
    var calls: seq<Call>
    var connectedPeers: map<PeerId, AddrInfo>

    constructor (codec: Codec, self: PeerId, bootstrapPeerIDs: seq<PeerId>, oracle: nat -> bool)
      ensures this.codec == codec && this.self == self && this.bootstrapPeerIDs == bootstrapPeerIDs && this.oracle == oracle
      ensures Now() == World([], map[])
    {
      this.codec, this.self, this.bootstrapPeerIDs, this.oracle := codec, self, bootstrapPeerIDs, oracle;
      calls, connectedPeers := [], map[];
    }

    function Now(): World
      reads this
    {
      World(calls, connectedPeers)
    }

    function With(relays: seq<AddrInfo>): Setting {
      Setting(codec, self, bootstrapPeerIDs, relays, oracle)
    }

    method Perform(call: Call) returns (ok: bool)
      modifies this`calls
      ensures calls == old(calls) + [call] && ok == oracle(|old(calls)|)
    {
      ok := oracle(|calls|);
      calls := calls + [call];
    }

    method ConnectToPeers(relayAddresses: seq<AddrInfo>, pChan: seq<AddrInfo>)
      modifies this`calls, this`connectedPeers
      ensures Now() == VisitAll(With(relayAddresses), old(Now()), pChan)
    {
      for k := 0 to |pChan|
        invariant Now() == VisitAll(With(relayAddresses), old(Now()), pChan[..k])
      {
        assert pChan[..k + 1][..k] == pChan[..k];
        VisitPeer(relayAddresses, pChan[k]);
      }
      assert pChan[..|pChan|] == pChan;
    }

    /** One turn of the inner loop, once the target has been assembled or not. */
    method TryRelay(target: Result<AddrInfo, RelayError>, id: PeerId)
      modifies this`calls, this`connectedPeers
      ensures Now() == TryTarget(oracle, old(Now()), target, id)
    {
      if target.Err? {
        return;
      }
      var ok := Perform(Connect(target.value));
      if !ok {
        return;
      }
      connectedPeers := connectedPeers[id := target.value];
    }

    /** The inner loop: every relay in turn, without stopping at a success. */
    method TryRelays(relayAddresses: seq<AddrInfo>, p: AddrInfo)
      modifies this`calls, this`connectedPeers
      ensures Now() == TryTargets(oracle, old(Now()), TargetsOf(With(relayAddresses), p), |relayAddresses|, p.id)
    {
      ghost var w, targets := Now(), TargetsOf(With(relayAddresses), p);
      for j := 0 to |relayAddresses|
        invariant Now() == TryTargets(oracle, w, targets, j, p.id)
      {
        var target := AssembleRelay(codec, relayAddresses[j], p);
        TryNext(oracle, w, targets, j, p.id, target);
        TryRelay(target, p.id);
      }
    }

    method VisitPeer(relayAddresses: seq<AddrInfo>, p: AddrInfo)
      modifies this`calls, this`connectedPeers
      ensures Now() == Visit(With(relayAddresses), old(Now()), p)
      ensures VisitedAs(With(relayAddresses), old(Now()), Now(), p)
    {
      VisitSays(With(relayAddresses), Now(), p);
      if p.id == self {
        return;
      }
      var isBootstrap := IsBootstrapPeer(bootstrapPeerIDs, p.id);
      var isRelay := ContainsPeer(relayAddresses, p.id);
      if isBootstrap || isRelay {
        return;
      }
      var ok := Perform(Connect(p));
      if !ok {
        TryRelays(relayAddresses, p);
      } else {
        ok := Perform(OpenStream(p.id));
        if !ok {
          return;
        }
        connectedPeers := connectedPeers[p.id := p];
      }
    }
  }

  // ---- What the loop keeps

  /** The codec is lawful and every ID is the text of a peer ID. */
  ghost predicate Sensible(c: Setting, peers: seq<AddrInfo>) {
    && Lawful(c.codec)
    && (forall p :: p in peers ==> IsIdText(c.codec, p.id))
    && (forall r :: r in c.relays ==> IsIdText(c.codec, r.id))
  }

  /** No excluded peer is a key, and each entry is stored under its own ID. */
  ghost predicate Sound(c: Setting, w: World) {
    forall id :: id in w.connected ==> !Excluded(c, id) && w.connected[id].id == id
  }

  /** From w to v no key was lost, and only p's entry may have changed. */
  ghost predicate OnlyAdds(w: World, v: World, p: PeerId) {
    && w.connected.Keys <= v.connected.Keys <= w.connected.Keys + {p}
    && (forall id :: id in w.connected && id != p ==> v.connected[id] == w.connected[id])
  }

  lemma {:induction false} TryTargetsSound(c: Setting, w: World, targets: seq<Result<AddrInfo, RelayError>>, k: nat, id: PeerId)
    requires Sound(c, w) && !Excluded(c, id) && k <= |targets|
    requires forall j :: 0 <= j < |targets| && targets[j].Ok? ==> targets[j].value.id == id
    ensures Sound(c, TryTargets(c.oracle, w, targets, k, id))
    ensures OnlyAdds(w, TryTargets(c.oracle, w, targets, k, id), id)
  {
    if k > 0 {
      TryTargetsSound(c, w, targets, k - 1, id);
    }
  }

  /** The target of peer p through the k-th relay, spelled out. */
  lemma TargetsSpelled(c: Setting, p: AddrInfo, k: nat)
    requires Sensible(c, [p]) && k < |c.relays|
    ensures |TargetsOf(c, p)| == |c.relays|
    ensures TargetsOf(c, p)[k].Ok? <==> c.relays[k].addrs != [] && Decodes(c.codec, p.id) && Decodes(c.codec, c.relays[k].id)
    ensures TargetsOf(c, p)[k].Ok? ==>
              TargetsOf(c, p)[k].value ==
              AddrInfo(p.id, [[Component(P2p, c.relays[k].id), Component(Circuit, ""), Component(P2p, p.id)]])
  {
    assert p in [p] && c.relays[k] in c.relays;
    AssembleExactly(c.codec, c.relays[k], p);
    RelayedSpelled(c.relays[k].id, p.id);
  }

  /** A target that assembles keeps the peer's ID. */
  lemma TargetsKeepId(c: Setting, p: AddrInfo)
    requires Sensible(c, [p])
    ensures forall j :: 0 <= j < |c.relays| && TargetsOf(c, p)[j].Ok? ==> TargetsOf(c, p)[j].value.id == p.id
  {
    assert p in [p];
    forall j | 0 <= j < |c.relays| && TargetsOf(c, p)[j].Ok? ensures TargetsOf(c, p)[j].value.id == p.id {
      AssembleExactly(c.codec, c.relays[j], p);
    }
  }

  lemma VisitSound(c: Setting, w: World, p: AddrInfo)
    requires Sensible(c, [p]) && Sound(c, w)
    ensures Sound(c, Visit(c, w, p)) && OnlyAdds(w, Visit(c, w, p), p.id)
  {
    if !Excluded(c, p.id) {
      var direct := w.(calls := w.calls + [Connect(p)]);
      TargetsKeepId(c, p);
      TryTargetsSound(c, direct, TargetsOf(c, p), |c.relays|, p.id);
    }
  }

  /**
   For every sequence of discovered peers and every oracle: from a sound map (the empty one is) the loop
   never stores the host, a bootstrap peer or a listed relay, stores each peer under its own ID, and loses
   no key; every new key is the ID of a discovered peer.
   */
  lemma {:induction false} DiscoverySound(c: Setting, w: World, peers: seq<AddrInfo>)
    requires Sensible(c, peers) && Sound(c, w)
    ensures Sound(c, VisitAll(c, w, peers))
    ensures w.connected.Keys <= VisitAll(c, w, peers).connected.Keys
    ensures forall id :: id in VisitAll(c, w, peers).connected && id !in w.connected ==> exists p :: p in peers && p.id == id
  {
    if peers != [] {
      var init, p := peers[..|peers| - 1], peers[|peers| - 1];
      DiscoverySound(c, w, init);
      VisitSound(c, VisitAll(c, w, init), p);
    }
  }

  // ---- Relayed visits over constructed relay addresses

  /** The relay addresses come from one relay: same decodable ID, never without an address. */
  ghost predicate OneRelay(c: Setting, relay: PeerId) {
    && Decodes(c.codec, relay)
    && forall r :: r in c.relays ==> r.id == relay && r.addrs != []
  }

  /** Some Connect among the k relay attempts that start after n operations succeeds. */
  predicate SomeSucceeds(oracle: nat -> bool, n: nat, k: nat) {
    exists j :: n <= j < n + k && oracle(j)
  }

  lemma OneMoreTry(oracle: nat -> bool, n: nat, k: nat)
    ensures SomeSucceeds(oracle, n, k + 1) <==> SomeSucceeds(oracle, n, k) || oracle(n + k)
  {
  }

  function Times(k: nat, call: Call): (calls: seq<Call>)
    ensures |calls| == k
  {
    if k == 0 then [] else Times(k - 1, call) + [call]
  }

  lemma TimesNext(calls: seq<Call>, k: nat, call: Call)
    ensures (calls + Times(k, call)) + [call] == calls + Times(k + 1, call)
  {
  }

  /** When every target is the same, each is tried, and it is stored exactly when some try succeeds. */
  lemma {:induction false} SameTarget(oracle: nat -> bool, w: World, targets: seq<Result<AddrInfo, RelayError>>, k: nat,
                                      target: AddrInfo)
    requires k <= |targets| && forall j :: 0 <= j < |targets| ==> targets[j] == Ok(target)
    ensures TryTargets(oracle, w, targets, k, target.id) ==
            World(w.calls + Times(k, Connect(target)),
                  if SomeSucceeds(oracle, |w.calls|, k) then w.connected[target.id := target] else w.connected)
  {
    if k == 0 {
      assert w.calls + [] == w.calls;
    } else {
      SameTarget(oracle, w, targets, k - 1, target);
      OneMoreTry(oracle, |w.calls|, k - 1);
      TimesNext(w.calls, k - 1, Connect(target));
    }
  }

  /**
   Over one relay's addresses every address is tried, and the peer is stored exactly when some relayed
   Connect succeeds, with the same value whichever of them did.
   */
  lemma RelayedVisit(c: Setting, w: World, p: AddrInfo, relay: PeerId)
    requires Sensible(c, [p]) && OneRelay(c, relay) && Decodes(c.codec, p.id)
    ensures TryTargets(c.oracle, w, TargetsOf(c, p), |c.relays|, p.id) ==
            World(w.calls + Times(|c.relays|, Connect(AddrInfo(p.id, [Relayed(relay, p.id)]))),
                  if SomeSucceeds(c.oracle, |w.calls|, |c.relays|)
                  then w.connected[p.id := AddrInfo(p.id, [Relayed(relay, p.id)])] else w.connected)
  {
    var target := AddrInfo(p.id, [Relayed(relay, p.id)]);
    OneTarget(c, p, relay);
    SameTarget(c.oracle, w, TargetsOf(c, p), |c.relays|, target);
  }

  lemma OneTarget(c: Setting, p: AddrInfo, relay: PeerId)
    requires Sensible(c, [p]) && OneRelay(c, relay) && Decodes(c.codec, p.id)
    ensures forall j :: 0 <= j < |c.relays| ==> TargetsOf(c, p)[j] == Ok(AddrInfo(p.id, [Relayed(relay, p.id)]))
  {
    assert p in [p];
    forall j | 0 <= j < |c.relays| ensures TargetsOf(c, p)[j] == Ok(AddrInfo(p.id, [Relayed(relay, p.id)])) {
      AssembleExactly(c.codec, c.relays[j], p);
    }
  }

  /** The relay addresses constructed from a parsed relay address string are those of one relay, so after
      a failed direct Connect the client stores the relayed address of the peer, or nothing. */
  lemma ConstructedRelayedVisit(c: Setting, w: World, p: AddrInfo, relayText: string)
    requires Sensible(c, [p]) && Decodes(c.codec, p.id)
    requires ParseRelayAddress(c.codec, relayText).Ok?
    requires c.relays == RelayAddressesOf(ParseRelayAddress(c.codec, relayText).value)
    requires !Excluded(c, p.id) && !c.oracle(|w.calls|)
    ensures var relay := ParseRelayAddress(c.codec, relayText).value.id;
            Visit(c, w, p).connected ==
            if SomeSucceeds(c.oracle, |w.calls| + 1, |c.relays|)
            then w.connected[p.id := AddrInfo(p.id, [Relayed(relay, p.id)])]
            else w.connected
  {
    ParsedRelayDecodes(c.codec, relayText);
    var relay := ParseRelayAddress(c.codec, relayText).value.id;
    RelayedVisit(c, w.(calls := w.calls + [Connect(p)]), p, relay);
  }
}
