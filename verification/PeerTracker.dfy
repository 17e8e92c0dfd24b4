/**
 The peer tracker and its published counters (node/src/peer_tracker.rs). Counters are 64-bit
 numbers that wrap.
 */
module PeerTracking {
  import opened Wrappers
  import B = BlockRangeSets

  type PeerId = nat

  type ConnectionId = nat

  type Multiaddr = string

  datatype PeerState = Discovered | AddressesFound | Connected

  datatype PeerInfo = PeerInfo(
    state: PeerState, addrs: seq<Multiaddr>, connections: seq<ConnectionId>, trusted: bool)
  {
    predicate IsConnected() { state.Connected? }

    /** Connected exactly with a connection; otherwise the state says whether addresses are known. */
    ghost predicate Coherent() {
      && (state.Connected? <==> connections != [])
      && (state.Discovered? ==> addrs == [])
      && (state.AddressesFound? ==> addrs != [])
      && NoDuplicates(addrs)
    }
  }

  const NEW_PEER := PeerInfo(Discovered, [], [], false)

  type Peers = map<PeerId, PeerInfo>

  function Info(peers: Peers, peer: PeerId): PeerInfo { if peer in peers then peers[peer] else NEW_PEER }

  // ---- counting ------------------------------------------------------------------------------

  const WRAP: nat := B.U64_MAX + 1

  function Increment(n: B.u64): B.u64 { if n == B.U64_MAX then 0 else n + 1 }

  function Decrement(n: B.u64): B.u64 { if n == 0 then B.U64_MAX else n - 1 }

  /** A number as 64 bits hold it. */
  ghost function Wrapped(n: int): B.u64
    decreases if n < 0 then WRAP - n else n
  {
    if n < 0 then Wrapped(n + WRAP) else if n < WRAP then n else Wrapped(n - WRAP)
  }

  lemma {:induction false} WrappedNext(n: int)
    ensures Wrapped(n + 1) == Increment(Wrapped(n))
    ensures Wrapped(n) == Decrement(Wrapped(n + 1))
    decreases if n < 0 then WRAP - n else n
  {
    if n < -1 {
      WrappedNext(n + WRAP);
    } else if n >= WRAP {
      WrappedNext(n - WRAP);
    }
  }

  ghost function Connecteds(peers: Peers): set<PeerId> { set p | p in peers && peers[p].IsConnected() }

  ghost function Trusteds(peers: Peers): set<PeerId> { set p | p in peers && peers[p].IsConnected() && peers[p].trusted }

  lemma CountUpdate(peers: Peers, peer: PeerId, info: PeerInfo)
    ensures |Connecteds(peers[peer := info])| ==
            |Connecteds(peers)| - (if Info(peers, peer).IsConnected() then 1 else 0) + if info.IsConnected() then 1 else 0
  {
    var was, now := Connecteds(peers), Connecteds(peers[peer := info]);
    assert now == if info.IsConnected() then was - {peer} + {peer} else was - {peer};
  }

  lemma CountTrustedUpdate(peers: Peers, peer: PeerId, info: PeerInfo)
    ensures |Trusteds(peers[peer := info])| ==
            |Trusteds(peers)| - (if Counts(Info(peers, peer)) then 1 else 0) + if Counts(info) then 1 else 0
  {
    var was, now := Trusteds(peers), Trusteds(peers[peer := info]);
    assert now == if Counts(info) then was - {peer} + {peer} else was - {peer};
  }

  /** Does the peer count as a connected trusted one? */
  predicate Counts(info: PeerInfo) { info.IsConnected() && info.trusted }

  // ---- what the steps do to the peers --------------------------------------------------------

  datatype Step =
    | Discover(peer: PeerId)
    | AddAddresses(peer: PeerId, addrs: seq<Multiaddr>)
    | Trust(peer: PeerId, trusted: bool)
    | Connect(peer: PeerId, connection: ConnectionId, address: Option<Multiaddr>)
    | Disconnect(peer: PeerId, connection: ConnectionId)

  function Added(addrs: seq<Multiaddr>, addr: Multiaddr): seq<Multiaddr> {
    if addr in addrs then addrs else addrs + [addr]
  }

  function AddedAll(addrs: seq<Multiaddr>, more: seq<Multiaddr>): seq<Multiaddr> {
    if more == [] then addrs else Added(AddedAll(addrs, more[..|more| - 1]), more[|more| - 1])
  }

  /** `retain(|id| *id != connection)`. */
  function Without(connections: seq<ConnectionId>, connection: ConnectionId): seq<ConnectionId> {
    if connections == [] then []
    else
      var n := |connections| - 1;
      var before := Without(connections[..n], connection);
      if connections[n] == connection then before else before + [connections[n]]
  }

  /** Adding addresses keeps the known ones, adds all the others and repeats none. */
  lemma {:induction false} AddedAllElements(addrs: seq<Multiaddr>, more: seq<Multiaddr>)
    ensures addrs <= AddedAll(addrs, more)
    ensures NoDuplicates(addrs) ==> NoDuplicates(AddedAll(addrs, more))
    ensures forall a :: a in AddedAll(addrs, more) <==> a in addrs || a in more
  {
    if more != [] {
      var n := |more| - 1;
      AddedAllElements(addrs, more[..n]);
      assert more == more[..n] + [more[n]];
    }
  }

  /** What is left after a disconnect: every other connection. */
  lemma {:induction false} WithoutElements(connections: seq<ConnectionId>, connection: ConnectionId)
    ensures forall c :: c in Without(connections, connection) <==> c in connections && c != connection
  {
    if connections != [] {
      var n := |connections| - 1;
      WithoutElements(connections[..n], connection);
      assert connections == connections[..n] + [connections[n]];
    }
  }

  /** The entry of the step's peer after the step. */
  function Updated(info: PeerInfo, step: Step): PeerInfo {
    match step
    case Discover(_) => info
    case AddAddresses(_, addrs) =>
      var all := AddedAll(info.addrs, addrs);
      info.(addrs := all, state := if info.state.Discovered? && all != [] then AddressesFound else info.state)
    case Trust(_, trusted) => info.(trusted := trusted)
    case Connect(_, connection, address) =>
      info.(addrs := if address.Some? then Added(info.addrs, address.value) else info.addrs,
            connections := info.connections + [connection], state := Connected)
    case Disconnect(_, connection) =>
      var left := Without(info.connections, connection);
      if left != [] then info.(connections := left)
      else info.(connections := left, state := if info.addrs == [] then Discovered else AddressesFound)
  }

  function Next(peers: Peers, step: Step): Peers { peers[step.peer := Updated(Info(peers, step.peer), step)] }

  lemma StepKeepsCoherent(info: PeerInfo, step: Step)
    requires info.Coherent()
    ensures Updated(info, step).Coherent()
  {
    match step
    case AddAddresses(_, addrs) => AddedAllElements(info.addrs, addrs);
    case _ =>
  }

  /** What a step does to each part of its peer's entry. */
  lemma UpdatedParts(info: PeerInfo, step: Step)
    ensures var now := Updated(info, step);
            && (forall c :: c in now.connections <==> Opens(step, c) || (c in info.connections && !Closes(step, c)))
            && (forall a :: a in now.addrs <==> Brings(step, a) || a in info.addrs)
            && now.trusted == if step.Trust? then step.trusted else info.trusted
  {
    match step
    case AddAddresses(_, addrs) => AddedAllElements(info.addrs, addrs);
    case Disconnect(_, connection) => WithoutElements(info.connections, connection);
    case _ =>
  }

  ghost predicate Opens(step: Step, c: ConnectionId) { step.Connect? && step.connection == c }

  ghost predicate Closes(step: Step, c: ConnectionId) { step.Disconnect? && step.connection == c }

  ghost predicate Brings(step: Step, a: Multiaddr) {
    (step.AddAddresses? && a in step.addrs) || (step.Connect? && step.address == Some(a))
  }

  /** A disconnect of a peer that has no connection. */
  predicate IsStale(peers: Peers, step: Step) { step.Disconnect? && !Info(peers, step.peer).IsConnected() }

  /** The tracker's state: its map and the two published counters. */
  datatype State = Tracked(peers: Peers, numConnected: B.u64, numConnectedTrusted: B.u64) {
    ghost predicate Coherent() { forall p | p in peers :: peers[p].Coherent() }

    /** Both counters equal a recount. */
    ghost predicate Exact() {
      numConnected == |Connecteds(peers)| && numConnectedTrusted == |Trusteds(peers)|
    }
  }

  /** A counter goes with the count, and down without it for a stale disconnect. */
  ghost function Follow(counter: B.u64, wasCounted: bool, isCounted: bool, stale: bool): B.u64 {
    if isCounted && !wasCounted then Increment(counter)
    else if (wasCounted && !isCounted) || stale then Decrement(counter)
    else counter
  }

  ghost predicate Stepped(s: State, s': State, step: Step) {
    var was, stale := Info(s.peers, step.peer), IsStale(s.peers, step);
    var now := Updated(was, step);
    && s'.peers == Next(s.peers, step)
    && s'.numConnected == Follow(s.numConnected, was.IsConnected(), now.IsConnected(), stale)
    && s'.numConnectedTrusted == Follow(s.numConnectedTrusted, Counts(was), Counts(now), stale && was.trusted)
  }

  // ---- the tracker ---------------------------------------------------------------------------

  class PeerTracker {
    var peers: Peers
    var numConnected: B.u64
    var numConnectedTrusted: B.u64

    ghost function State(): State reads this { Tracked(peers, numConnected, numConnectedTrusted) }

    constructor ()
      ensures State() == Tracked(map[], 0, 0) && State().Coherent() && State().Exact()
    {
      peers, numConnected, numConnectedTrusted := map[], 0, 0;
    }

    /** `get`: adds the peer as discovered if it is not known. */
    method Get(peer: PeerId) returns (info: PeerInfo)
      modifies `peers
      ensures peers == old(peers)[peer := info] && info == Info(old(peers), peer)
    {
      if peer !in peers {
        peers := peers[peer := NEW_PEER];
      }
      info := peers[peer];
    }

    method SetMaybeDiscovered(peer: PeerId) returns (isNew: bool)
      modifies this
      ensures Stepped(old(State()), State(), Discover(peer))
      ensures isNew <==> peer !in old(peers)
    {
      isNew := peer !in peers;
      if isNew {
        peers := peers[peer := NEW_PEER];
      }
    }

    method AddAddresses(peer: PeerId, addrs: seq<Multiaddr>)
      modifies this
      ensures Stepped(old(State()), State(), Step.AddAddresses(peer, addrs))
      ensures peer in peers && peers[peer].connections == Info(old(peers), peer).connections
      ensures forall a :: a in peers[peer].addrs <==> a in Info(old(peers), peer).addrs || a in addrs
    {
      var info := Get(peer);
      var known := info.addrs;
      for i := 0 to |addrs|
        invariant known == AddedAll(info.addrs, addrs[..i])
      {
        assert addrs[..i + 1][..i] == addrs[..i];
        if addrs[i] !in known {
          known := known + [addrs[i]];
        }
      }
      assert addrs[..|addrs|] == addrs;
      AddedAllElements(info.addrs, addrs);
      info := info.(addrs := known);
      if info.state == Discovered && known != [] {
        info := info.(state := AddressesFound);
      }
      peers := peers[peer := info];
    }

    method SetTrusted(peer: PeerId, isTrusted: bool)
      modifies this
      ensures Stepped(old(State()), State(), Trust(peer, isTrusted))
      ensures peers == old(peers)[peer := Info(old(peers), peer).(trusted := isTrusted)]
    {
      var info := Get(peer);
      if info.trusted == isTrusted {
        return;
      }
      info := info.(trusted := isTrusted);
      peers := peers[peer := info];
      if info.IsConnected() {
        numConnectedTrusted := if isTrusted then Increment(numConnectedTrusted) else Decrement(numConnectedTrusted);
      }
    }

    method SetConnected(peer: PeerId, connection: ConnectionId, address: Option<Multiaddr>)
      modifies this
      ensures Stepped(old(State()), State(), Connect(peer, connection, address))
      ensures peer in peers && peers[peer].IsConnected() && peers[peer].trusted == Info(old(peers), peer).trusted
      ensures forall c :: c in peers[peer].connections <==> c in Info(old(peers), peer).connections || c == connection
      ensures forall a :: a in peers[peer].addrs <==> a in Info(old(peers), peer).addrs || Some(a) == address
    {
      var info := Get(peer);
      if address.Some? && address.value !in info.addrs {
        info := info.(addrs := info.addrs + [address.value]);
      }
      info := info.(connections := info.connections + [connection]);
      if !info.IsConnected() {
        info := info.(state := Connected);
        IncrementConnectedPeers(info.trusted);
      }
      peers := peers[peer := info];
    }

    method IncrementConnectedPeers(trusted: bool)
      modifies `numConnected, `numConnectedTrusted
      ensures numConnected == Increment(old(numConnected))
      ensures numConnectedTrusted == if trusted then Increment(old(numConnectedTrusted)) else old(numConnectedTrusted)
    {
      numConnected := Increment(numConnected);
      if trusted {
        numConnectedTrusted := Increment(numConnectedTrusted);
      }
    }

    /** True if no other connection was left. */
    method SetMaybeDisconnected(peer: PeerId, connection: ConnectionId) returns (disconnected: bool)
      requires State().Coherent()
      modifies this
      ensures Stepped(old(State()), State(), Disconnect(peer, connection))
      ensures peer in peers && peers[peer].addrs == Info(old(peers), peer).addrs
      ensures forall c :: c in peers[peer].connections <==> c in Info(old(peers), peer).connections && c != connection
      ensures disconnected <==> forall c | c in Info(old(peers), peer).connections :: c == connection
    {
      var info := Get(peer);
      WithoutElements(info.connections, connection);
      info := info.(connections := Without(info.connections, connection));
      disconnected := info.connections == [];
      if disconnected {
        info := info.(state := if info.addrs == [] then Discovered else AddressesFound);
        DecrementConnectedPeers(info.trusted);
      } else {
        assert info.connections[0] in info.connections;
      }
      peers := peers[peer := info];
    }

    method DecrementConnectedPeers(trusted: bool)
      modifies `numConnected, `numConnectedTrusted
      ensures numConnected == Decrement(old(numConnected))
      ensures numConnectedTrusted == if trusted then Decrement(old(numConnectedTrusted)) else old(numConnectedTrusted)
    {
      numConnected := Decrement(numConnected);
      if trusted {
        numConnectedTrusted := Decrement(numConnectedTrusted);
      }
    }
  }

  // ---- runs ----------------------------------------------------------------------------------

  ghost predicate IsRun(states: seq<State>, steps: seq<Step>) {
    && |states| == |steps| + 1
    && forall i :: 0 <= i < |steps| ==> Stepped(states[i], states[i + 1], steps[i])
  }

  /** The number of stale disconnects among the first `n` steps, and of those of trusted peers. */
  ghost function Stale(states: seq<State>, steps: seq<Step>, n: nat): nat
    requires n <= |steps| < |states|
  {
    if n == 0 then 0
    else Stale(states, steps, n - 1) + if IsStale(states[n - 1].peers, steps[n - 1]) then 1 else 0
  }

  ghost function StaleTrusted(states: seq<State>, steps: seq<Step>, n: nat): nat
    requires n <= |steps| < |states|
  {
    if n == 0 then 0
    else
      var peers, step := states[n - 1].peers, steps[n - 1];
      StaleTrusted(states, steps, n - 1) + if IsStale(peers, step) && Info(peers, step.peer).trusted then 1 else 0
  }

  lemma {:induction false} RunStaysCoherent(states: seq<State>, steps: seq<Step>, n: nat)
    requires IsRun(states, steps) && n <= |steps| && states[0].Coherent()
    ensures states[n].Coherent()
  {
    if n > 0 {
      RunStaysCoherent(states, steps, n - 1);
      assert Stepped(states[n - 1], states[n], steps[n - 1]);
      StepKeepsCoherent(Info(states[n - 1].peers, steps[n - 1].peer), steps[n - 1]);
    }
  }

  /**
   Over every run a peer is known exactly if some step named it, and its entry is its history: its
   connections are those opened and not closed since, its addresses all that were ever given, and
   it is trusted exactly if the last word on that said so.
   */
  lemma {:induction false} EntryIsHistory(states: seq<State>, steps: seq<Step>, n: nat, p: PeerId)
    requires IsRun(states, steps) && n <= |steps| && states[0].peers == map[]
    ensures p in states[n].peers <==> exists i :: 0 <= i < n && steps[i].peer == p
    ensures forall c :: c in Info(states[n].peers, p).connections <==> IsOpen(steps, n, p, c)
    ensures forall a :: a in Info(states[n].peers, p).addrs <==> WasBrought(steps, n, p, a)
    ensures Info(states[n].peers, p).trusted <==> IsTrusted(steps, n, p)
  {
    if n > 0 {
      EntryIsHistory(states, steps, n - 1, p);
      assert Stepped(states[n - 1], states[n], steps[n - 1]);
      UpdatedParts(Info(states[n - 1].peers, p), steps[n - 1]);
      HistoryStep(steps, n, p);
    }
  }

  ghost predicate IsOpen(steps: seq<Step>, n: nat, p: PeerId, c: ConnectionId)
    requires n <= |steps|
  {
    exists i :: 0 <= i < n && steps[i].peer == p && Opens(steps[i], c)
                && forall j :: i < j < n ==> steps[j] != Disconnect(p, c)
  }

  ghost predicate WasBrought(steps: seq<Step>, n: nat, p: PeerId, a: Multiaddr)
    requires n <= |steps|
  {
    exists i :: 0 <= i < n && steps[i].peer == p && Brings(steps[i], a)
  }

  ghost predicate IsTrusted(steps: seq<Step>, n: nat, p: PeerId)
    requires n <= |steps|
  {
    exists i :: 0 <= i < n && steps[i] == Trust(p, true) && forall j :: i < j < n ==> steps[j] != Trust(p, false)
  }

  lemma HistoryStep(steps: seq<Step>, n: nat, p: PeerId)
    requires 0 < n <= |steps|
    ensures var last := steps[n - 1];
            && (forall c :: IsOpen(steps, n, p, c) <==>
                  (last.peer == p && Opens(last, c)) || (IsOpen(steps, n - 1, p, c) && last != Disconnect(p, c)))
            && (forall a :: WasBrought(steps, n, p, a) <==> (last.peer == p && Brings(last, a)) || WasBrought(steps, n - 1, p, a))
            && (IsTrusted(steps, n, p) <==> last == Trust(p, true) || (IsTrusted(steps, n - 1, p) && last != Trust(p, false)))
  {
  }

  /** Over every run the counters are a recount less the stale disconnects, as 64 bits hold it. */
  lemma CountersFallBehind(states: seq<State>, steps: seq<Step>, n: nat)
    requires IsRun(states, steps) && n <= |steps| && states[0] == Tracked(map[], 0, 0)
    ensures states[n].numConnected == Wrapped(|Connecteds(states[n].peers)| - Stale(states, steps, n))
    ensures states[n].numConnectedTrusted == Wrapped(|Trusteds(states[n].peers)| - StaleTrusted(states, steps, n))
  {
    ConnectedFallsBehind(states, steps, n);
    TrustedFallsBehind(states, steps, n);
  }

  lemma {:induction false} ConnectedFallsBehind(states: seq<State>, steps: seq<Step>, n: nat)
    requires IsRun(states, steps) && n <= |steps| && states[0] == Tracked(map[], 0, 0)
    ensures states[n].numConnected == Wrapped(|Connecteds(states[n].peers)| - Stale(states, steps, n))
  {
    if n == 0 {
      assert Connecteds(states[0].peers) == {};
    } else {
      ConnectedFallsBehind(states, steps, n - 1);
      var s, s', step := states[n - 1], states[n], steps[n - 1];
      assert Stepped(s, s', step);
      CountUpdate(s.peers, step.peer, s'.peers[step.peer]);
      Neighbours(|Connecteds(s.peers)| - Stale(states, steps, n - 1));
    }
  }

  lemma {:induction false} TrustedFallsBehind(states: seq<State>, steps: seq<Step>, n: nat)
    requires IsRun(states, steps) && n <= |steps| && states[0] == Tracked(map[], 0, 0)
    ensures states[n].numConnectedTrusted == Wrapped(|Trusteds(states[n].peers)| - StaleTrusted(states, steps, n))
  {
    if n == 0 {
      assert Trusteds(states[0].peers) == {};
    } else {
      TrustedFallsBehind(states, steps, n - 1);
      var s, s', step := states[n - 1], states[n], steps[n - 1];
      assert Stepped(s, s', step);
      CountTrustedUpdate(s.peers, step.peer, s'.peers[step.peer]);
      Neighbours(|Trusteds(s.peers)| - StaleTrusted(states, steps, n - 1));
    }
  }

  lemma Neighbours(n: int)
    ensures Wrapped(n + 1) == Increment(Wrapped(n)) && Wrapped(n - 1) == Decrement(Wrapped(n))
  {
    WrappedNext(n);
    WrappedNext(n - 1);
  }

  /**
   While fewer than 2^64 peers are connected and fewer than 2^64 disconnects were stale, the
   counters equal a recount if and only if no disconnect was stale.
   */
  lemma CountersExact(states: seq<State>, steps: seq<Step>, n: nat)
    requires IsRun(states, steps) && n <= |steps| && states[0] == Tracked(map[], 0, 0)
    requires |Connecteds(states[n].peers)| < WRAP && Stale(states, steps, n) < WRAP
    ensures states[n].Exact() <==> Stale(states, steps, n) == 0
  {
    CountersFallBehind(states, steps, n);
    StaleTrustedAtMost(states, steps, n);
    TrustedAtMost(states[n].peers);
    WrappedDifference(|Connecteds(states[n].peers)|, Stale(states, steps, n));
    WrappedDifference(|Trusteds(states[n].peers)|, StaleTrusted(states, steps, n));
  }

  lemma WrappedDifference(count: nat, stale: nat)
    requires count < WRAP && stale < WRAP
    ensures Wrapped(count - stale) == count <==> stale == 0
  {
  }

  lemma {:induction false} StaleTrustedAtMost(states: seq<State>, steps: seq<Step>, n: nat)
    requires n <= |steps| < |states|
    ensures StaleTrusted(states, steps, n) <= Stale(states, steps, n)
  {
    if n > 0 { StaleTrustedAtMost(states, steps, n - 1); }
  }

  lemma TrustedAtMost(peers: Peers)
    ensures |Trusteds(peers)| <= |Connecteds(peers)|
  {
    SubsetSize(Trusteds(peers), Connecteds(peers));
  }

  /** A disconnect for a peer that was never connected leaves a counter at its largest value. */
  lemma StaleDisconnectWraps(s: State, s': State)
    requires s == Tracked(map[], 0, 0) && Stepped(s, s', Disconnect(7, 1))
    ensures s'.numConnected == B.U64_MAX && !s'.Exact()
  {
    assert Connecteds(s'.peers) == {};
  }
}
