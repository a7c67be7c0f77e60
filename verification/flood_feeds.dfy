/**
 The flood detector as a function of what it was given: which packets and connections each counter
 has been fed, which floods follow, and which warnings, by the actions of a run alone.
 */
module FloodFeeds {
  import opened Wrappers
  import opened SlidingCounters
  import opened FloodDetector
  import opened FloodTheorems

  // ----- what the actions say

  datatype Feed = TcpFeed | UdpFeed | IcmpFeed | ProbeFeed

  /** The allowlist after the actions; an empty set given is replaced. */
  function AllowedAfter(given: set<Ip>, actions: seq<Action>): set<Ip> {
    if actions == [] then (if given == {} then {"127.0.0.1", "::1"} else given)
    else
      var allowed := AllowedAfter(given, actions[..|actions| - 1]);
      match actions[|actions| - 1]
      case AddToAllowlist(ip) => allowed + {ip}
      case RemoveFromAllowlist(ip) => allowed - {ip}
      case _ => allowed
  }

  /** A packet is recorded once, as TCP also as a probe; ICMP has no port. */
  function FedByPacket(feed: Feed, ip: Ip, protocol: Protocol, port: nat, t: Readings): seq<Seen> {
    match protocol
    case Icmp => if feed == IcmpFeed then [Seen(ip, 0, t.recorded)] else []
    case Udp => if feed == UdpFeed then [Seen(ip, port, t.recorded)] else []
    case OtherProtocol =>
      if feed == TcpFeed then [Seen(ip, port, t.recorded)]
      else if feed == ProbeFeed then [Seen(ip, port, t.probed)]
      else []
  }

  /** So is a connection: UDP under its local port, TCP and probes under its remote one. */
  function FedByConnection(feed: Feed, allowed: set<Ip>, conn: Connection): seq<Seen> {
    if conn.remote.None? || conn.remote.value in allowed then []
    else
      var ip := conn.remote.value;
      if conn.isUdp then
        if feed == UdpFeed then [Seen(ip, conn.localPort, conn.at)] else []
      else if feed == TcpFeed then [Seen(ip, conn.remotePort, conn.at)]
      else if feed == ProbeFeed then [Seen(ip, conn.remotePort, conn.probedAt)]
      else []
  }

  function FedByConnections(feed: Feed, allowed: set<Ip>, conns: seq<Connection>): seq<Seen> {
    if conns == [] then []
    else
      FedByConnections(feed, allowed, conns[..|conns| - 1]) + FedByConnection(feed, allowed, conns[|conns| - 1])
  }

  function FedBy(feed: Feed, allowed: set<Ip>, a: Action): seq<Seen> {
    match a
    case RecordPacket(ip, protocol, port, t) => if ip in allowed then [] else FedByPacket(feed, ip, protocol, port, t)
    case Scan(conns, _, _) => FedByConnections(feed, allowed, conns)
    case _ => []
  }

  /** Everything a counter was ever fed. */
  function Fed(feed: Feed, given: set<Ip>, actions: seq<Action>): seq<Seen> {
    if actions == [] then []
    else
      var before := actions[..|actions| - 1];
      Fed(feed, given, before) + FedBy(feed, AllowedAfter(given, before), actions[|actions| - 1])
  }

  /** The probes since the last eviction that found none of `ip` in the 10 s before it. */
  function ProbesKept(given: set<Ip>, actions: seq<Action>, ip: Ip): seq<Seen> {
    if actions == [] then []
    else
      var (before, a) := (actions[..|actions| - 1], actions[|actions| - 1]);
      if a.EvictStale? && Places(Fed(ProbeFeed, given, before), ip, a.probeAt - 10.0) == {} then []
      else ProbesKept(given, before, ip) + FedBy(ProbeFeed, AllowedAfter(given, before), a)
  }

  // ----- the logs are what was fed

  function OpsOf(s: Detector, feed: Feed): seq<Op> {
    match feed
    case TcpFeed => s.tcp
    case UdpFeed => s.udp
    case IcmpFeed => s.icmp
    case ProbeFeed => s.probe
  }

  /** `seen` was added to the log, and to what it holds since any ip was last evicted. */
  ghost predicate Fills(ops: seq<Op>, ops': seq<Op>, seen: seq<Seen>) {
    && Log(ops') == Log(ops) + seen
    && forall ip :: SinceEmptied(10.0, ops', ip) == SinceEmptied(10.0, ops, ip) + seen
  }

  lemma FillsInTurn(a: seq<Op>, b: seq<Op>, c: seq<Op>, first: seq<Seen>, second: seq<Seen>)
    requires Fills(a, b, first) && Fills(b, c, second)
    ensures Fills(a, c, first + second)
  {
    hide Log, SinceEmptied;
    assert Log(a) + first + second == Log(a) + (first + second);
    forall ip ensures SinceEmptied(10.0, c, ip) == SinceEmptied(10.0, a, ip) + (first + second) {
      assert SinceEmptied(10.0, a, ip) + first + second == SinceEmptied(10.0, a, ip) + (first + second);
    }
  }

  lemma NothingFills(ops: seq<Op>)
    ensures Fills(ops, ops, [])
  {
    hide Log, SinceEmptied;
    assert Log(ops) + [] == Log(ops);
    forall ip ensures SinceEmptied(10.0, ops, ip) + [] == SinceEmptied(10.0, ops, ip) {
    }
  }

  lemma RecordFills(ops: seq<Op>, ip: Ip, port: nat, at: Seconds)
    ensures Fills(ops, ops + [Record(ip, port, at)], [Seen(ip, port, at)])
  {
    hide Log, SinceEmptied, CountSince;
    LogOfNext(ops, Record(ip, port, at));
    forall other { SinceOfNext(10.0, ops, Record(ip, port, at), other); }
  }

  lemma CountFills(ops: seq<Op>, ip: Ip, at: Seconds)
    ensures Fills(ops, ops + [Count(ip, at)], [])
  {
    hide Log, SinceEmptied, CountSince;
    LogOfNext(ops, Count(ip, at));
    assert Log(ops) + [] == Log(ops);
    forall other ensures SinceEmptied(10.0, ops + [Count(ip, at)], other) == SinceEmptied(10.0, ops, other) + [] {
      SinceOfNext(10.0, ops, Count(ip, at), other);
    }
  }

  lemma CountedFills(ops: seq<Op>, ip: Ip, port: nat, at: Seconds, counted: Seconds)
    ensures Fills(ops, ops + [Record(ip, port, at)] + [Count(ip, counted)], [Seen(ip, port, at)])
  {
    hide Fills;
    RecordFills(ops, ip, port, at);
    CountFills(ops + [Record(ip, port, at)], ip, counted);
    FillsInTurn(ops, ops + [Record(ip, port, at)], ops + [Record(ip, port, at)] + [Count(ip, counted)],
                [Seen(ip, port, at)], []);
    assert [Seen(ip, port, at)] + [] == [Seen(ip, port, at)];
  }

  lemma PacketFills(s: Detector, ip: Ip, protocol: Protocol, port: nat, t: Readings, feed: Feed)
    ensures var s' := Packet(s, ip, protocol, port, t);
      && s'.allowlist == s.allowlist
      && Fills(OpsOf(s, feed), OpsOf(s', feed), FedBy(feed, s.allowlist, RecordPacket(ip, protocol, port, t)))
  {
    hide Fills, Handled, InWindow, DistinctPorts;
    NothingFills(OpsOf(s, feed));
    if protocol.Icmp? {
      CountedFills(s.icmp, ip, 0, t.recorded, t.counted);
    } else {
      CountedFills(OpsOf(s, feed), ip, port, t.recorded, t.counted);
      RecordFills(s.probe, ip, port, t.probed);
    }
  }

  lemma {:induction false} SamplingFills(s: Detector, conns: seq<Connection>, feed: Feed)
    ensures var s' := SampledAll(s, conns);
      && s'.allowlist == s.allowlist
      && Fills(OpsOf(s, feed), OpsOf(s', feed), FedByConnections(feed, s.allowlist, conns))
  {
    hide Fills, FedByConnection, Sampled;
    if conns == [] {
      NothingFills(OpsOf(s, feed));
    } else {
      var (n, last) := (|conns| - 1, conns[|conns| - 1]);
      var before := SampledAll(s, conns[..n]);
      SamplingFills(s, conns[..n], feed);
      ConnectionFills(before, last, feed);
      FillsInTurn(OpsOf(s, feed), OpsOf(before, feed), OpsOf(Sampled(before, last), feed),
                  FedByConnections(feed, s.allowlist, conns[..n]), FedByConnection(feed, s.allowlist, last));
    }
  }

  lemma ConnectionFills(s: Detector, conn: Connection, feed: Feed)
    ensures var s' := Sampled(s, conn);
      && s'.allowlist == s.allowlist
      && Fills(OpsOf(s, feed), OpsOf(s', feed), FedByConnection(feed, s.allowlist, conn))
  {
    hide Fills;
    NothingFills(OpsOf(s, feed));
    if Watched(s.allowlist, conn) {
      RecordFills(OpsOf(s, feed), conn.remote.value, if conn.isUdp then conn.localPort else conn.remotePort,
                  if feed == ProbeFeed then conn.probedAt else conn.at);
    }
  }

  lemma CheckFills(s: Detector, c: Check, feed: Feed)
    ensures Checked(s, c).allowlist == s.allowlist && Fills(OpsOf(s, feed), OpsOf(Checked(s, c), feed), [])
  {
    hide Fills, Handled, InWindow, DistinctPorts;
    NothingFills(OpsOf(s, feed));
    CountFills(OpsOf(s, feed), c.ip, if feed == TcpFeed then c.counted else c.udpCounted);
  }

  lemma {:induction false} ChecksFill(s: Detector, checks: seq<Check>, feed: Feed)
    ensures var s' := CheckedAll(s, checks);
      s'.allowlist == s.allowlist && Fills(OpsOf(s, feed), OpsOf(s', feed), [])
  {
    hide Fills, Checked;
    if checks == [] {
      NothingFills(OpsOf(s, feed));
    } else {
      var n := |checks| - 1;
      var none: seq<Seen> := [];
      assert none + none == none;
      ChecksFill(s, checks[..n], feed);
      CheckFills(CheckedAll(s, checks[..n]), checks[n], feed);
      FillsInTurn(OpsOf(s, feed), OpsOf(CheckedAll(s, checks[..n]), feed), OpsOf(CheckedAll(s, checks), feed),
                  none, none);
    }
  }

  // ----- over a run

  /** A run, cut before its last action. */
  lemma {:induction false} RunLast(s: Detector, actions: seq<Action>, s': Detector) returns (before: Detector)
    requires Run(s, actions, s') && actions != []
    ensures var n := |actions| - 1;
      Run(s, actions[..n], before) && Enabled(before, actions[n]) && s' == Step(before, actions[n])
    decreases |actions|
  {
    hide Enabled, Step;
    var n := |actions| - 1;
    if n == 0 {
      before := s;
      assert Run(Step(s, actions[0]), actions[1..], s') && actions[1..] == [];
    } else {
      before := RunLast(Step(s, actions[0]), actions[1..], s');
      assert actions[1..][..n - 1] == actions[..n][1..];
    }
  }

  /** State and actions agree about the allowlist, the logs, and what the probe counter keeps. */
  ghost predicate Agrees(given: set<Ip>, actions: seq<Action>, s: Detector) {
    && s.allowlist == AllowedAfter(given, actions)
    && (forall feed :: Log(OpsOf(s, feed)) == Fed(feed, given, actions))
    && forall ip :: SinceEmptied(10.0, s.probe, ip) == ProbesKept(given, actions, ip)
  }

  lemma FillingAgrees(given: set<Ip>, actions: seq<Action>, s: Detector, a: Action, s': Detector)
    requires Agrees(given, actions, s) && (a.RecordPacket? || a.Scan?)
    requires s'.allowlist == s.allowlist
    requires forall feed :: Fills(OpsOf(s, feed), OpsOf(s', feed), FedBy(feed, AllowedAfter(given, actions), a))
    ensures Agrees(given, actions + [a], s')
  {
    hide Log, SinceEmptied, CountSince, FedBy;
    assert (actions + [a])[..|actions|] == actions;
    assert OpsOf(s, ProbeFeed) == s.probe && OpsOf(s', ProbeFeed) == s'.probe;
  }

  lemma EvictingAgrees(given: set<Ip>, actions: seq<Action>, s: Detector, a: Action)
    requires Agrees(given, actions, s) && a.EvictStale?
    ensures Agrees(given, actions + [a], Step(s, a))
  {
    hide Log, SinceEmptied, CountSince, Places;
    assert (actions + [a])[..|actions|] == actions;
    LogOfNext(s.tcp, Evict(a.tcpAt));
    LogOfNext(s.udp, Evict(a.udpAt));
    LogOfNext(s.probe, Evict(a.probeAt));
    forall feed ensures Log(OpsOf(Step(s, a), feed)) == Fed(feed, given, actions + [a]) {
      assert Log(OpsOf(s, feed)) + [] == Log(OpsOf(s, feed));
    }
    forall ip ensures SinceEmptied(10.0, Step(s, a).probe, ip) == ProbesKept(given, actions + [a], ip) {
      SinceOfNext(10.0, s.probe, Evict(a.probeAt), ip);
      assert Log(OpsOf(s, ProbeFeed)) == Fed(ProbeFeed, given, actions);
      CountSincePlaces(Log(s.probe), ip, a.probeAt - 10.0);
      assert ProbesKept(given, actions, ip) + [] == ProbesKept(given, actions, ip);
    }
  }

  lemma ListingAgrees(given: set<Ip>, actions: seq<Action>, s: Detector, a: Action)
    requires Agrees(given, actions, s) && (a.AddToAllowlist? || a.RemoveFromAllowlist?)
    ensures Agrees(given, actions + [a], Step(s, a))
  {
    hide Log, SinceEmptied, CountSince;
    assert (actions + [a])[..|actions|] == actions;
    forall feed ensures Log(OpsOf(Step(s, a), feed)) == Fed(feed, given, actions + [a]) {
      assert Log(OpsOf(s, feed)) + [] == Log(OpsOf(s, feed));
    }
    forall ip ensures SinceEmptied(10.0, Step(s, a).probe, ip) == ProbesKept(given, actions + [a], ip) {
      assert ProbesKept(given, actions, ip) + [] == ProbesKept(given, actions, ip);
    }
  }

  lemma ScanFills(s: Detector, conns: seq<Connection>, tableAt: Seconds, checks: seq<Check>, feed: Feed)
    ensures var s' := Scanned(s, conns, tableAt, checks);
      && s'.allowlist == s.allowlist
      && Fills(OpsOf(s, feed), OpsOf(s', feed), FedByConnections(feed, s.allowlist, conns))
  {
    hide Fills, SampledAll, CheckedAll, Warned, FedByConnections;
    var sampled := SampledAll(s, conns);
    var warned := TableChecked(sampled, |conns|, tableAt);
    SamplingFills(s, conns, feed);
    ChecksFill(warned, checks, feed);
    assert OpsOf(warned, feed) == OpsOf(sampled, feed);
    var fed := FedByConnections(feed, s.allowlist, conns);
    FillsInTurn(OpsOf(s, feed), OpsOf(warned, feed), OpsOf(CheckedAll(warned, checks), feed), fed, []);
    assert fed + [] == fed;
  }

  lemma StepAgrees(given: set<Ip>, actions: seq<Action>, s: Detector, a: Action)
    requires Agrees(given, actions, s)
    ensures Agrees(given, actions + [a], Step(s, a))
  {
    hide Agrees, Fills, Packet, Scanned, FedByPacket, FedByConnections;
    match a
    case RecordPacket(ip, protocol, port, t) =>
      forall feed { PacketFills(s, ip, protocol, port, t, feed); }
      PacketFills(s, ip, protocol, port, t, TcpFeed);
      AllowedAgrees(given, actions, s);
      FillingAgrees(given, actions, s, a, Step(s, a));
    case Scan(conns, tableAt, checks) =>
      forall feed { ScanFills(s, conns, tableAt, checks, feed); }
      ScanFills(s, conns, tableAt, checks, TcpFeed);
      AllowedAgrees(given, actions, s);
      FillingAgrees(given, actions, s, a, Step(s, a));
    case EvictStale(_, _, _) => EvictingAgrees(given, actions, s, a);
    case AddToAllowlist(_) => ListingAgrees(given, actions, s, a);
    case RemoveFromAllowlist(_) => ListingAgrees(given, actions, s, a);
  }

  lemma AllowedAgrees(given: set<Ip>, actions: seq<Action>, s: Detector)
    requires Agrees(given, actions, s)
    ensures s.allowlist == AllowedAfter(given, actions)
  {
  }

  lemma {:induction false} RunAgrees(given: set<Ip>, clock: Seconds, actions: seq<Action>, s: Detector)
    requires Run(Start(given, clock), actions, s)
    ensures Agrees(given, actions, s)
    decreases |actions|
  {
    hide Run, Step, Agrees;
    if actions == [] {
      NothingFed(given, clock, s);
    } else {
      var n := |actions| - 1;
      var before := RunLast(Start(given, clock), actions, s);
      RunAgrees(given, clock, actions[..n], before);
      StepAgrees(given, actions[..n], before, actions[n]);
      assert actions[..n] + [actions[n]] == actions;
    }
  }

  lemma NothingFed(given: set<Ip>, clock: Seconds, s: Detector)
    requires Run(Start(given, clock), [], s)
    ensures Agrees(given, [], s)
  {
  }

  /** Over every run the allowlist, the logs of all four counters and the kept ports are what the actions say. */
  lemma LogsAreFeeds(given: set<Ip>, clock: Seconds, actions: seq<Action>, s: Detector)
    requires Run(Start(given, clock), actions, s)
    ensures s.allowlist == AllowedAfter(given, actions)
    ensures Log(s.tcp) == Fed(TcpFeed, given, actions) && Log(s.udp) == Fed(UdpFeed, given, actions)
    ensures Log(s.icmp) == Fed(IcmpFeed, given, actions) && Log(s.probe) == Fed(ProbeFeed, given, actions)
    ensures forall ip :: KeptPorts(10.0, s.probe, ip) == PortsOf(ProbesKept(given, actions, ip), ip)
  {
    hide Run, Log, KeptPorts, SinceEmptied, PortsOf;
    RunAgrees(given, clock, actions, s);
    assert Log(OpsOf(s, TcpFeed)) == Fed(TcpFeed, given, actions);
    assert Log(OpsOf(s, UdpFeed)) == Fed(UdpFeed, given, actions);
    assert Log(OpsOf(s, IcmpFeed)) == Fed(IcmpFeed, given, actions);
    assert Log(OpsOf(s, ProbeFeed)) == Fed(ProbeFeed, given, actions);
    forall ip { KeptPortsVisited(10.0, s.probe, ip); }
  }

  // ----- which floods follow

  /** How often `ip` was fed to a counter in the 10 s up to `now`. */
  function FedLately(feed: Feed, given: set<Ip>, actions: seq<Action>, ip: Ip, now: Seconds): nat {
    |Places(Fed(feed, given, actions), ip, now - 10.0)|
  }

  function PortsLately(given: set<Ip>, actions: seq<Action>, ip: Ip): nat {
    |PortsOf(ProbesKept(given, actions, ip), ip)|
  }

  /** The counts that the last packet takes to their thresholds. */
  function PacketFloods(
    given: set<Ip>, actions: seq<Action>, ip: Ip, protocol: Protocol, port: nat, t: Readings): seq<Flood>
  {
    var now := actions + [RecordPacket(ip, protocol, port, t)];
    if ip in AllowedAfter(given, actions) then []
    else
      match protocol
      case Icmp => IfReached(IcmpFlood, ip, FedLately(IcmpFeed, given, now, ip, t.counted), 80, t.first)
      case Udp => IfReached(UdpFlood, ip, FedLately(UdpFeed, given, now, ip, t.counted), 120, t.first)
      case OtherProtocol =>
        IfReached(SynFlood, ip, FedLately(TcpFeed, given, now, ip, t.counted), 60, t.first)
        + IfReached(ProbeSaturation, ip, PortsLately(given, now, ip), 30, t.second)
  }

  /** One turn of the threshold loop, after the sampling. */
  function CheckFloods(given: set<Ip>, now: seq<Action>, c: Check): seq<Flood> {
    if c.ip in AllowedAfter(given, now) then []
    else
      IfReached(SynFlood, c.ip, FedLately(TcpFeed, given, now, c.ip, c.counted), 60, c.first)
      + IfReached(UdpFlood, c.ip, FedLately(UdpFeed, given, now, c.ip, c.udpCounted), 120, c.second)
      + IfReached(ProbeSaturation, c.ip, PortsLately(given, now, c.ip), 30, c.third)
  }

  function ScanFloods(given: set<Ip>, now: seq<Action>, checks: seq<Check>): seq<Flood> {
    if checks == [] then []
    else ScanFloods(given, now, checks[..|checks| - 1]) + CheckFloods(given, now, checks[|checks| - 1])
  }

  function FloodsBy(given: set<Ip>, actions: seq<Action>, a: Action): seq<Flood> {
    match a
    case RecordPacket(ip, protocol, port, t) => PacketFloods(given, actions, ip, protocol, port, t)
    case Scan(_, _, checks) => ScanFloods(given, actions + [a], checks)
    case _ => []
  }

  /** Every event of a run, with its count, its time and its block, by the actions alone. */
  ghost function Expected(given: set<Ip>, actions: seq<Action>): seq<FloodEvent> {
    if actions == [] then []
    else
      var before := actions[..|actions| - 1];
      AllAdded(Expected(given, before), FloodsBy(given, before, actions[|actions| - 1]))
  }

  lemma PacketAdds(given: set<Ip>, actions: seq<Action>, s: Detector, a: Action)
    requires Agrees(given, actions, s) && Invariant(s.accounts) && a.RecordPacket? && a.ip !in s.allowlist
    ensures Step(s, a).accounts.published == AllAdded(s.accounts.published, FloodsBy(given, actions, a))
  {
    hide Invariant, Handled, AllAdded, Log, CountSince, Places, KeptPorts, SinceEmptied, PortsOf, Fed, ProbesKept;
    var (ip, port, t, now) := (a.ip, a.port, a.readings, actions + [a]);
    StepAgrees(given, actions, s, a);
    var s' := Step(s, a);
    match a.protocol
    case Icmp =>
      var icmp := s.icmp + [Record(ip, 0, t.recorded)];
      CountingKeepsLog(icmp, ip, t.counted);
      CountSincePlaces(Log(icmp), ip, t.counted - 10.0);
      assert Log(OpsOf(s', IcmpFeed)) == Fed(IcmpFeed, given, now);
      ReachedAdds(s.(icmp := icmp + [Count(ip, t.counted)], clock := t.counted),
                  ip, IcmpFlood, InWindow(icmp, ip, t.counted), t.first);
    case Udp =>
      var udp := s.udp + [Record(ip, port, t.recorded)];
      CountingKeepsLog(udp, ip, t.counted);
      CountSincePlaces(Log(udp), ip, t.counted - 10.0);
      assert Log(OpsOf(s', UdpFeed)) == Fed(UdpFeed, given, now);
      ReachedAdds(s.(udp := udp + [Count(ip, t.counted)], clock := t.counted),
                  ip, UdpFlood, InWindow(udp, ip, t.counted), t.first);
    case OtherProtocol =>
      var (tcp, probe) := (s.tcp + [Record(ip, port, t.recorded)], s.probe + [Record(ip, port, t.probed)]);
      CountingKeepsLog(tcp, ip, t.counted);
      CountSincePlaces(Log(tcp), ip, t.counted - 10.0);
      assert Log(OpsOf(s', TcpFeed)) == Fed(TcpFeed, given, now);
      KeptPortsVisited(10.0, probe, ip);
      assert SinceEmptied(10.0, s'.probe, ip) == ProbesKept(given, now, ip);
      var counted := s.(tcp := tcp + [Count(ip, t.counted)], probe := probe, clock := t.counted);
      var count := InWindow(tcp, ip, t.counted);
      ReachedAdds(counted, ip, SynFlood, count, t.first);
      ReachedAdds(HandledIfReached(counted, ip, SynFlood, count, t.first), ip, ProbeSaturation,
                  DistinctPorts(probe, ip), t.second);
      AddedInTurn(s.accounts.published, IfReached(SynFlood, ip, count, 60, t.first),
                  IfReached(ProbeSaturation, ip, DistinctPorts(probe, ip), 30, t.second));
  }

  lemma CountingAgrees(given: set<Ip>, now: seq<Action>, s: Detector, c: Check)
    requires Agrees(given, now, s)
    ensures Agrees(given, now, Checked(s, c))
  {
    hide Log, SinceEmptied, Checked;
    CheckFills(s, c, TcpFeed);
    forall feed ensures Log(OpsOf(Checked(s, c), feed)) == Fed(feed, given, now) {
      CheckFills(s, c, feed);
      assert Log(OpsOf(s, feed)) + [] == Log(OpsOf(s, feed));
    }
    forall ip ensures SinceEmptied(10.0, Checked(s, c).probe, ip) == ProbesKept(given, now, ip) {
      CheckFills(s, c, ProbeFeed);
      assert OpsOf(s, ProbeFeed) == s.probe && OpsOf(Checked(s, c), ProbeFeed) == Checked(s, c).probe;
      assert SinceEmptied(10.0, s.probe, ip) + [] == SinceEmptied(10.0, s.probe, ip);
    }
  }

  lemma CheckAdds(given: set<Ip>, now: seq<Action>, s: Detector, c: Check)
    requires Agrees(given, now, s) && Invariant(s.accounts)
    ensures Checked(s, c).accounts.published == AllAdded(s.accounts.published, CheckFloods(given, now, c))
  {
    hide Invariant, Handled, AllAdded, Log, CountSince, Places, KeptPorts, SinceEmptied, PortsOf, Fed, ProbesKept;
    if c.ip in s.allowlist {
      AllAddedNone(s.accounts.published);
    } else {
      assert Log(OpsOf(s, TcpFeed)) == Fed(TcpFeed, given, now);
      assert Log(OpsOf(s, UdpFeed)) == Fed(UdpFeed, given, now);
      CountSincePlaces(Log(s.tcp), c.ip, c.counted - 10.0);
      CountSincePlaces(Log(s.udp), c.ip, c.udpCounted - 10.0);
      KeptPortsVisited(10.0, s.probe, c.ip);
      var counted := s.(tcp := s.tcp + [Count(c.ip, c.counted)], udp := s.udp + [Count(c.ip, c.udpCounted)],
                        clock := c.udpCounted);
      var (tcp, udp) := (InWindow(s.tcp, c.ip, c.counted), InWindow(s.udp, c.ip, c.udpCounted));
      var ports := DistinctPorts(s.probe, c.ip);
      ReachedAdds(counted, c.ip, SynFlood, tcp, c.first);
      var first := HandledIfReached(counted, c.ip, SynFlood, tcp, c.first);
      ReachedAdds(first, c.ip, UdpFlood, udp, c.second);
      var second := HandledIfReached(first, c.ip, UdpFlood, udp, c.second);
      ReachedAdds(second, c.ip, ProbeSaturation, ports, c.third);
      var a, b := IfReached(SynFlood, c.ip, tcp, 60, c.first), IfReached(UdpFlood, c.ip, udp, 120, c.second);
      AddedInTurn(s.accounts.published, a, b);
      AddedInTurn(s.accounts.published, a + b, IfReached(ProbeSaturation, c.ip, ports, 30, c.third));
    }
  }

  lemma AllAddedNone(published: seq<FloodEvent>)
    ensures AllAdded(published, []) == published
  {
  }

  lemma {:induction false} ChecksAdd(given: set<Ip>, now: seq<Action>, s: Detector, checks: seq<Check>)
    requires Agrees(given, now, s) && Invariant(s.accounts)
    ensures var s' := CheckedAll(s, checks);
      && Agrees(given, now, s') && Invariant(s'.accounts)
      && s'.accounts.published == AllAdded(s.accounts.published, ScanFloods(given, now, checks))
  {
    hide Agrees, Invariant, Checked, CheckFloods, AllAdded;
    if checks == [] {
      AllAddedNone(s.accounts.published);
    } else {
      var (n, last) := (|checks| - 1, checks[|checks| - 1]);
      var before := CheckedAll(s, checks[..n]);
      ChecksAdd(given, now, s, checks[..n]);
      CheckAdds(given, now, before, last);
      CountingAgrees(given, now, before, last);
      CheckedKeeps(before, last);
      AddedInTurn(s.accounts.published, ScanFloods(given, now, checks[..n]), CheckFloods(given, now, last));
    }
  }

  lemma ScanAdds(given: set<Ip>, actions: seq<Action>, s: Detector, a: Action)
    requires Agrees(given, actions, s) && Invariant(s.accounts) && a.Scan?
    ensures Step(s, a).accounts.published == AllAdded(s.accounts.published, FloodsBy(given, actions, a))
  {
    hide Agrees, Fills, Invariant, SampledAll, CheckedAll, Warned, AllAdded, FedByConnections;
    var sampled := SampledAll(s, a.conns);
    var warned := TableChecked(sampled, |a.conns|, a.tableAt);
    forall feed ensures Fills(OpsOf(s, feed), OpsOf(warned, feed), FedBy(feed, s.allowlist, a)) {
      SamplingFills(s, a.conns, feed);
      assert OpsOf(warned, feed) == OpsOf(sampled, feed);
    }
    SamplingFills(s, a.conns, TcpFeed);
    AllowedAgrees(given, actions, s);
    FillingAgrees(given, actions, s, a, warned);
    SampledAllKeeps(s, a.conns);
    WarnedKeeps(s.accounts, a.tableAt);
    WarningAddsNone(s.accounts, a.tableAt);
    ChecksAdd(given, actions + [a], warned, a.checks);
  }

  lemma WarningAddsNone(a: Accounts, at: Seconds)
    ensures Warned(a, at).published == a.published
  {
  }

  /** One packet raises exactly what the counts of all it was given before call for. */
  lemma PacketRaisesExactly(
    given: set<Ip>, clock: Seconds, actions: seq<Action>, s: Detector,
    ip: Ip, protocol: Protocol, port: nat, t: Readings)
    requires Run(Start(given, clock), actions, s)
    ensures Packet(s, ip, protocol, port, t).accounts.published
      == AllAdded(s.accounts.published, PacketFloods(given, actions, ip, protocol, port, t))
  {
    hide Run, Agrees, Invariant, Packet, AllAdded, FedLately, PortsLately;
    RunAgrees(given, clock, actions, s);
    AllowedAgrees(given, actions, s);
    ReachedInvariant(given, clock, actions, s);
    if ip in s.allowlist {
      ListedPacket(s, ip, protocol, port, t);
      AllAddedNone(s.accounts.published);
    } else {
      PacketAdds(given, actions, s, RecordPacket(ip, protocol, port, t));
    }
  }

  lemma ListedPacket(s: Detector, ip: Ip, protocol: Protocol, port: nat, t: Readings)
    requires ip in s.allowlist
    ensures Packet(s, ip, protocol, port, t) == s
  {
  }

  /** One scan raises, address by address, exactly what the counts after its sampling call for. */
  lemma ScanRaisesExactly(
    given: set<Ip>, clock: Seconds, actions: seq<Action>, s: Detector,
    conns: seq<Connection>, tableAt: Seconds, checks: seq<Check>)
    requires Run(Start(given, clock), actions, s)
    ensures Scanned(s, conns, tableAt, checks).accounts.published
      == AllAdded(s.accounts.published, ScanFloods(given, actions + [Scan(conns, tableAt, checks)], checks))
  {
    hide Run, Agrees, Invariant, Scanned, AllAdded, ScanFloods;
    RunAgrees(given, clock, actions, s);
    ReachedInvariant(given, clock, actions, s);
    ScanAdds(given, actions, s, Scan(conns, tableAt, checks));
  }

  /** So all events of a run, each with its count, its time and its block, follow from the actions alone. */
  lemma {:induction false} EventsAreExpected(given: set<Ip>, clock: Seconds, actions: seq<Action>, s: Detector)
    requires Run(Start(given, clock), actions, s)
    ensures s.accounts.published == Expected(given, actions)
    decreases |actions|
  {
    hide Run, Packet, Scanned, AllAdded, PacketFloods, ScanFloods;
    if actions == [] {
      NothingRaised(given, clock, s);
    } else {
      var (n, a) := (|actions| - 1, actions[|actions| - 1]);
      var before := RunLast(Start(given, clock), actions, s);
      EventsAreExpected(given, clock, actions[..n], before);
      AllAddedNone(before.accounts.published);
      match a
      case RecordPacket(ip, protocol, port, t) =>
        PacketRaisesExactly(given, clock, actions[..n], before, ip, protocol, port, t);
      case Scan(conns, tableAt, checks) =>
        ScanRaisesExactly(given, clock, actions[..n], before, conns, tableAt, checks);
      case _ =>
    }
  }

  lemma NothingRaised(given: set<Ip>, clock: Seconds, s: Detector)
    requires Run(Start(given, clock), [], s)
    ensures s.accounts.published == []
  {
  }

  // ----- a burst

  /** `n` ICMP packets of one address at one instant. */
  function IcmpBurst(ip: Ip, n: nat, at: Seconds): seq<Action> {
    seq(n, i => RecordPacket(ip, Icmp, 0, Readings(at, at, at, at, at)))
  }

  lemma NoneCounted(ip: Ip, cutoff: Seconds)
    ensures CountSince([], ip, cutoff) == 0
  {
  }

  lemma OneMoreCounted(fed: seq<Seen>, seen: Seen, cutoff: Seconds)
    requires seen.at >= cutoff
    ensures CountSince(fed + [seen], seen.ip, cutoff) == CountSince(fed, seen.ip, cutoff) + 1
  {
    assert (fed + [seen])[..|fed|] == fed;
  }

  lemma {:induction false} BurstFeeds(given: set<Ip>, ip: Ip, n: nat, at: Seconds)
    requires ip !in AllowedAfter(given, [])
    ensures var burst := IcmpBurst(ip, n, at);
      AllowedAfter(given, burst) == AllowedAfter(given, []) && FedLately(IcmpFeed, given, burst, ip, at) == n
  {
    hide CountSince, Places;
    var burst := IcmpBurst(ip, n, at);
    CountSincePlaces(Fed(IcmpFeed, given, burst), ip, at - 10.0);
    if n == 0 {
      assert burst == [];
      NoneCounted(ip, at - 10.0);
    } else {
      assert burst[..n - 1] == IcmpBurst(ip, n - 1, at);
      BurstFeeds(given, ip, n - 1, at);
      var fed := Fed(IcmpFeed, given, burst[..n - 1]);
      CountSincePlaces(fed, ip, at - 10.0);
      OneMoreCounted(fed, Seen(ip, 0, at), at - 10.0);
    }
  }

  /** From 80 packets on, and a clock of 30 on, it is one flood, blocked for an hour; fewer are none. */
  lemma {:induction false} BurstRaisesOnce(given: set<Ip>, ip: Ip, n: nat, at: Seconds)
    requires ip !in AllowedAfter(given, []) && at >= 30.0
    ensures Expected(given, IcmpBurst(ip, n, at))
      == if n < 80 then [] else [FloodEvent(1, IcmpFlood, ip, 80, 80, Some(3600), at)]
  {
    hide AllowedAfter, Fed, CountSince;
    var burst := IcmpBurst(ip, n, at);
    if n == 0 {
      assert burst == [];
    } else {
      assert burst[..n - 1] == IcmpBurst(ip, n - 1, at) && burst[..n - 1] + [burst[n - 1]] == burst;
      BurstRaisesOnce(given, ip, n - 1, at);
      BurstFeeds(given, ip, n, at);
      BurstFeeds(given, ip, n - 1, at);
      OneFlood(Expected(given, burst[..n - 1]), Flood(IcmpFlood, ip, n, 80, at));
      AllAddedNone(Expected(given, burst[..n - 1]));
    }
  }

  lemma {:induction false} BurstRuns(given: set<Ip>, clock: Seconds, ip: Ip, n: nat, at: Seconds) returns (s: Detector)
    requires clock <= at
    ensures Run(Start(given, clock), IcmpBurst(ip, n, at), s) && s.clock <= at
  {
    hide Run, Handled, InWindow;
    if n == 0 {
      s := Start(given, clock);
      assert IcmpBurst(ip, n, at) == [];
      NoActions(s);
    } else {
      var before := BurstRuns(given, clock, ip, n - 1, at);
      var a := RecordPacket(ip, Icmp, 0, Readings(at, at, at, at, at));
      RunExtends(Start(given, clock), IcmpBurst(ip, n - 1, at), before, a);
      s := Step(before, a);
      assert IcmpBurst(ip, n - 1, at) + [a] == IcmpBurst(ip, n, at);
    }
  }

  lemma NoActions(s: Detector)
    ensures Run(s, [], s)
  {
  }

  /** So 80 packets at one instant, or more, do get their address blocked for an hour, once. */
  lemma BurstIsBlocked(given: set<Ip>, clock: Seconds, ip: Ip, n: nat, at: Seconds)
    requires ip !in AllowedAfter(given, []) && clock <= at && at >= 30.0 && n >= 80
    ensures exists s ::
      Run(Start(given, clock), IcmpBurst(ip, n, at), s) && s.accounts.blocks == [Block(ip, Some(3600), 1)]
  {
    hide Run, AllowedAfter, Expected, IcmpBurst, Alerted, HistoryKept, Sum;
    var s := BurstRuns(given, clock, ip, n, at);
    EventsAreExpected(given, clock, IcmpBurst(ip, n, at), s);
    BurstRaisesOnce(given, ip, n, at);
    FloodsAccounted(given, clock, IcmpBurst(ip, n, at), s);
    var blocks := s.accounts.blocks;
    assert |blocks| == 1 && blocks[0].ip == ip && blocks[0].alert == 1;
    assert blocks[..1][..0] == [] && BlocksOf(blocks[..1], ip) == 1;
    assert blocks == [Block(ip, Some(3600), 1)];
  }

  lemma OneFlood(published: seq<FloodEvent>, f: Flood)
    ensures AllAdded(published, [f]) == Added(published, f)
  {
    hide Added;
    assert [f][..0] == [];
  }

  // ----- warnings about the connection table

  function LastOf(warnings: seq<Seconds>): Seconds {
    if warnings == [] then 0.0 else warnings[|warnings| - 1]
  }

  /** A scan that sees 800 connections warns, unless the last warning is less than 60 s ago. */
  function ExpectedWarnings(actions: seq<Action>): seq<Seconds> {
    if actions == [] then []
    else
      var (before, a) := (ExpectedWarnings(actions[..|actions| - 1]), actions[|actions| - 1]);
      if a.Scan? && |a.conns| >= 800 && a.tableAt - LastOf(before) >= 60.0 then before + [a.tableAt] else before
  }

  /** The suppression table knows the last warning. */
  ghost predicate KnowsLast(a: Accounts) {
    Get(a.suppressed, TABLE_KEY, 0.0) == LastOf(a.tableWarnings)
  }

  lemma ReachedKeepsWarnings(s: Detector, ip: Ip, t: FloodType, count: nat, at: Seconds)
    requires KnowsLast(s.accounts)
    ensures var s' := HandledIfReached(s, ip, t, count, at);
      KnowsLast(s'.accounts) && s'.accounts.tableWarnings == s.accounts.tableWarnings
  {
    KeysDiffer(t, ip, t, ip);
    hide SuppressionKey, Trimmed, BlockDuration;
  }

  lemma PacketKeepsWarnings(s: Detector, ip: Ip, protocol: Protocol, port: nat, t: Readings)
    requires KnowsLast(s.accounts)
    ensures var s' := Packet(s, ip, protocol, port, t);
      KnowsLast(s'.accounts) && s'.accounts.tableWarnings == s.accounts.tableWarnings
  {
    hide HandledIfReached, InWindow, DistinctPorts, KnowsLast;
    if protocol.OtherProtocol? && ip !in s.allowlist {
      var (tcp, probe) := (s.tcp + [Record(ip, port, t.recorded)], s.probe + [Record(ip, port, t.probed)]);
      var counted := s.(tcp := tcp + [Count(ip, t.counted)], probe := probe, clock := t.counted);
      var count := InWindow(tcp, ip, t.counted);
      ReachedKeepsWarnings(counted, ip, SynFlood, count, t.first);
      ReachedKeepsWarnings(HandledIfReached(counted, ip, SynFlood, count, t.first), ip, ProbeSaturation,
                           DistinctPorts(probe, ip), t.second);
    } else if protocol.Udp? && ip !in s.allowlist {
      var udp := s.udp + [Record(ip, port, t.recorded)];
      ReachedKeepsWarnings(s.(udp := udp + [Count(ip, t.counted)], clock := t.counted),
                           ip, UdpFlood, InWindow(udp, ip, t.counted), t.first);
    } else if ip !in s.allowlist {
      var icmp := s.icmp + [Record(ip, 0, t.recorded)];
      ReachedKeepsWarnings(s.(icmp := icmp + [Count(ip, t.counted)], clock := t.counted),
                           ip, IcmpFlood, InWindow(icmp, ip, t.counted), t.first);
    }
  }

  lemma CheckKeepsWarnings(s: Detector, c: Check)
    requires KnowsLast(s.accounts)
    ensures var s' := Checked(s, c);
      KnowsLast(s'.accounts) && s'.accounts.tableWarnings == s.accounts.tableWarnings
  {
    hide HandledIfReached, InWindow, DistinctPorts, KnowsLast;
    if c.ip !in s.allowlist {
      var counted := s.(tcp := s.tcp + [Count(c.ip, c.counted)], udp := s.udp + [Count(c.ip, c.udpCounted)],
                        clock := c.udpCounted);
      ReachedKeepsWarnings(counted, c.ip, SynFlood, InWindow(s.tcp, c.ip, c.counted), c.first);
      var syn := HandledIfReached(counted, c.ip, SynFlood, InWindow(s.tcp, c.ip, c.counted), c.first);
      ReachedKeepsWarnings(syn, c.ip, UdpFlood, InWindow(s.udp, c.ip, c.udpCounted), c.second);
      var udp := HandledIfReached(syn, c.ip, UdpFlood, InWindow(s.udp, c.ip, c.udpCounted), c.second);
      ReachedKeepsWarnings(udp, c.ip, ProbeSaturation, DistinctPorts(s.probe, c.ip), c.third);
    }
  }

  lemma {:induction false} ChecksKeepWarnings(s: Detector, checks: seq<Check>)
    requires KnowsLast(s.accounts)
    ensures var s' := CheckedAll(s, checks);
      KnowsLast(s'.accounts) && s'.accounts.tableWarnings == s.accounts.tableWarnings
  {
    hide Checked, KnowsLast;
    if checks == [] {
    } else {
      ChecksKeepWarnings(s, checks[..|checks| - 1]);
      CheckKeepsWarnings(CheckedAll(s, checks[..|checks| - 1]), checks[|checks| - 1]);
    }
  }

  lemma StepWarns(actions: seq<Action>, s: Detector, a: Action)
    requires KnowsLast(s.accounts) && s.accounts.tableWarnings == ExpectedWarnings(actions)
    ensures var s' := Step(s, a);
      KnowsLast(s'.accounts) && s'.accounts.tableWarnings == ExpectedWarnings(actions + [a])
  {
    hide Packet, CheckedAll, SampledAll;
    assert (actions + [a])[..|actions|] == actions;
    match a
    case RecordPacket(ip, protocol, port, t) => PacketKeepsWarnings(s, ip, protocol, port, t);
    case Scan(conns, tableAt, checks) =>
      SampledAllKeeps(s, conns);
      ChecksKeepWarnings(TableChecked(SampledAll(s, conns), |conns|, tableAt), checks);
    case _ =>
  }

  lemma {:induction false} RunWarns(given: set<Ip>, clock: Seconds, actions: seq<Action>, s: Detector)
    requires Run(Start(given, clock), actions, s)
    ensures KnowsLast(s.accounts) && s.accounts.tableWarnings == ExpectedWarnings(actions)
    decreases |actions|
  {
    hide Step, Enabled;
    if actions == [] {
    } else {
      var n := |actions| - 1;
      var before := RunLast(Start(given, clock), actions, s);
      hide Run, KnowsLast;
      RunWarns(given, clock, actions[..n], before);
      StepWarns(actions[..n], before, actions[n]);
      assert actions[..n] + [actions[n]] == actions;
    }
  }

  /** The warnings of a run follow from its scans alone. */
  lemma WarningsAreExpected(given: set<Ip>, clock: Seconds, actions: seq<Action>, s: Detector)
    requires Run(Start(given, clock), actions, s)
    ensures s.accounts.tableWarnings == ExpectedWarnings(actions)
  {
    RunWarns(given, clock, actions, s);
  }
}
