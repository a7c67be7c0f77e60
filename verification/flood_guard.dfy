/**
 `FloodGuardAgent` over its four pruned counters. Its abstract state is the detector with full logs,
 so every method below is a refinement of the naive one.
 */
module FloodGuard {
  import opened Wrappers
  import opened SlidingCounters
  import opened FloodDetector
  import opened FloodTheorems
  import opened FloodFeeds

  lemma NoneSeen(s: Detector)
    ensures SampledAll(s, []) == s && SeenIps(s.allowlist, []) == {}
  {
  }

  lemma SeenByNext(s: Detector, conns: seq<Connection>, i: nat)
    requires i < |conns|
    ensures SampledAll(s, conns[..i + 1]) == Sampled(SampledAll(s, conns[..i]), conns[i])
    ensures SeenIps(s.allowlist, conns[..i + 1])
      == SeenIps(s.allowlist, conns[..i]) + if Watched(s.allowlist, conns[i]) then {conns[i].remote.value} else {}
  {
    assert conns[..i + 1][..i] == conns[..i];
    assert conns[..i + 1] == conns[..i] + [conns[i]];
  }

  class FloodGuardAgent {
    const tcpCounter: SlidingCounter
    const udpCounter: SlidingCounter
    const icmpCounter: SlidingCounter
    const probeCounter: SlidingCounter
    var offences: map<Ip, nat>
    var suppressed: map<string, Seconds>
    var history: seq<FloodEvent>
    var eventCounter: nat
    var allowlist: set<Ip>
    // alerts fired through the IDS, calls of the IPS and messages on the bus
    var alerts: seq<Alert>
    var blocks: seq<Block>
    var published: seq<FloodEvent>
    var tableWarnings: seq<Seconds>
    // the last clock reading and the run that led here
    ghost var clock: Seconds
    ghost const given: set<Ip>
    ghost const origin: Seconds
    ghost var actions: seq<Action>

    ghost function Book(): Accounts
      reads this`offences, this`suppressed, this`history, this`eventCounter, this`alerts
      reads this`blocks, this`published, this`tableWarnings
    {
      Accounts(offences, suppressed, history, eventCounter, alerts, blocks, published, tableWarnings)
    }

    ghost function State(): Detector
      reads this, tcpCounter, udpCounter, icmpCounter, probeCounter
    {
      Detector(clock, tcpCounter.ops, udpCounter.ops, icmpCounter.ops, probeCounter.ops, allowlist, Book())
    }

    ghost predicate CounterFits(counter: SlidingCounter)
      reads this`clock, counter
    {
      counter.Valid() && counter.window == WINDOW_SECONDS && NotAfter(counter.ops, clock)
    }

    ghost predicate Wired()
      reads this`clock, tcpCounter, udpCounter, icmpCounter, probeCounter
    {
      && tcpCounter != udpCounter && tcpCounter != icmpCounter && tcpCounter != probeCounter
      && udpCounter != icmpCounter && udpCounter != probeCounter && icmpCounter != probeCounter
      && CounterFits(tcpCounter) && CounterFits(udpCounter)
      && CounterFits(icmpCounter) && CounterFits(probeCounter)
    }

    ghost predicate Valid()
      reads this, tcpCounter, udpCounter, icmpCounter, probeCounter
    {
      Wired() && Run(Start(given, origin), actions, State())
    }

    /** So the theorems about runs hold of every agent; for instance its accounts agree. */
    lemma ValidIsAccounted()
      requires Valid()
      ensures Run(Start(given, origin), actions, State())
      ensures Sum(offences) == eventCounter == |blocks| == |published|
      ensures forall i :: 0 <= i < |blocks| ==>
        blocks[i].ip == published[i].ip && blocks[i].duration == BlockDuration(BlocksOf(blocks[..i + 1], blocks[i].ip))
      ensures published == Expected(given, actions) && tableWarnings == ExpectedWarnings(actions)
      ensures allowlist == AllowedAfter(given, actions)
    {
      hide Run, Expected, ExpectedWarnings, AllowedAfter;
      FloodsAccounted(given, origin, actions, State());
      EventsAreExpected(given, origin, actions, State());
      WarningsAreExpected(given, origin, actions, State());
      LogsAreFeeds(given, origin, actions, State());
    }

    constructor (allowlist: set<Ip>, ghost now: Seconds)
      ensures Valid() && State() == Start(allowlist, now) && given == allowlist && origin == now
      ensures fresh(tcpCounter) && fresh(udpCounter) && fresh(icmpCounter) && fresh(probeCounter)
    {
      tcpCounter := new SlidingCounter(WINDOW_SECONDS);
      udpCounter := new SlidingCounter(WINDOW_SECONDS);
      icmpCounter := new SlidingCounter(WINDOW_SECONDS);
      probeCounter := new SlidingCounter(WINDOW_SECONDS);
      offences, suppressed, history, eventCounter := map[], map[], [], 0;
      this.allowlist := if allowlist == {} then {"127.0.0.1", "::1"} else allowlist;
      alerts, blocks, published, tableWarnings := [], [], [], [];
      clock, given, origin, actions := now, allowlist, now, [];
    }

    method HandleFlood(ip: Ip, t: FloodType, count: nat, threshold: nat, now: Seconds)
      requires threshold == Threshold(t)
      modifies this`clock, this`suppressed, this`offences, this`eventCounter
      modifies this`alerts, this`blocks, this`history, this`published
      ensures Book() == Handled(old(Book()), ip, t, count, now) && clock == now
    {
      hide SuppressionKey, Trimmed, BlockDuration, Threshold;
      var key := SuppressionKey(t, ip);
      clock := now;
      if now - Get(suppressed, key, 0.0) < SUPPRESS_WINDOW {
        return;
      }
      suppressed := suppressed[key := now];
      var duration := Escalate(ip);
      eventCounter := eventCounter + 1;
      alerts := alerts + [Alert(eventCounter, t, ip, count, threshold, offences[ip], duration)];
      blocks := blocks + [Block(ip, duration, eventCounter)];
      Record(FloodEvent(eventCounter, t, ip, count, threshold, duration, now));
    }

    /** The end of `_handle_flood`: history and bus. */
    method Record(event: FloodEvent)
      modifies this`history, this`published
      ensures history == Trimmed(old(history) + [event]) && published == old(published) + [event]
    {
      history := history + [event];
      if |history| > HISTORY_LIMIT {
        history := history[|history| - HISTORY_KEPT..];
      }
      published := published + [event];
    }

    method HandleIfReached(ip: Ip, t: FloodType, count: nat, threshold: nat, now: Seconds)
      requires threshold == Threshold(t) && Wired() && clock <= now
      modifies this`clock, this`suppressed, this`offences, this`eventCounter
      modifies this`alerts, this`blocks, this`history, this`published
      ensures Wired() && clock <= now && State() == HandledIfReached(old(State()), ip, t, count, now)
    {
      hide Represents, Handled;
      if count >= threshold {
        HandleFlood(ip, t, count, threshold, now);
      }
    }

    method Escalate(ip: Ip) returns (duration: Option<nat>)
      modifies this`offences
      ensures offences == old(offences)[ip := Get(old(offences), ip, 0) + 1]
      ensures duration == BlockDuration(offences[ip])
    {
      offences := offences[ip := Get(offences, ip, 0) + 1];
      var offence := offences[ip];
      if offence == 1 {
        duration := Some(3600);
      } else if offence == 2 {
        duration := Some(21600);
      } else {
        duration := None;
      }
    }

    method RecordPacket(ip: Ip, protocol: Protocol, destPort: nat, t: Readings)
      requires Valid() && Enabled(State(), Action.RecordPacket(ip, protocol, destPort, t))
      modifies this, tcpCounter, udpCounter, icmpCounter, probeCounter
      ensures Valid()
      ensures State() == Step(old(State()), Action.RecordPacket(ip, protocol, destPort, t))
      ensures actions == old(actions) + [Action.RecordPacket(ip, protocol, destPort, t)]
    {
      if ip !in allowlist {
        match protocol {
          case Icmp => CountIcmp(ip, t);
          case Udp => CountUdp(ip, destPort, t);
          case OtherProtocol => CountTcp(ip, destPort, t);
        }
      }
      Ran(Action.RecordPacket(ip, protocol, destPort, t), old(actions), old(State()));
    }

    ghost method Ran(a: Action, earlier: seq<Action>, before: Detector)
      requires Wired() && Run(Start(given, origin), earlier, before) && Enabled(before, a) && State() == Step(before, a)
      modifies this`actions
      ensures Valid() && actions == earlier + [a]
    {
      RunExtends(Start(given, origin), earlier, before, a);
      actions := earlier + [a];
    }

    method CountIcmp(ip: Ip, t: Readings)
      requires Wired() && clock <= t.recorded <= t.counted <= t.first && ip !in allowlist
      modifies this, icmpCounter
      ensures Wired() && State() == Packet(old(State()), ip, Icmp, 0, t)
    {
      hide Represents, Log, CountSince, KeptPorts, HandledIfReached, Run;
      icmpCounter.Record(ip, 0, t.recorded);
      var c := icmpCounter.Count(ip, t.counted);
      clock := t.counted;
      HandleIfReached(ip, IcmpFlood, c, ICMP_FLOOD_THRESHOLD, t.first);
    }

    method CountUdp(ip: Ip, destPort: nat, t: Readings)
      requires Wired() && clock <= t.recorded <= t.counted <= t.first && ip !in allowlist
      modifies this, udpCounter
      ensures Wired() && State() == Packet(old(State()), ip, Udp, destPort, t)
    {
      hide Represents, Log, CountSince, KeptPorts, HandledIfReached, Run;
      udpCounter.Record(ip, destPort, t.recorded);
      var c := udpCounter.Count(ip, t.counted);
      clock := t.counted;
      HandleIfReached(ip, UdpFlood, c, UDP_FLOOD_THRESHOLD, t.first);
    }

    method CountTcp(ip: Ip, destPort: nat, t: Readings)
      requires Wired() && clock <= t.recorded <= t.probed <= t.counted <= t.first <= t.second && ip !in allowlist
      modifies this, tcpCounter, probeCounter
      ensures Wired() && State() == Packet(old(State()), ip, OtherProtocol, destPort, t)
    {
      hide Represents, Log, CountSince, KeptPorts, HandledIfReached, Run;
      var tcpCount, ports := CountBoth(ip, destPort, t);
      HandleIfReached(ip, SynFlood, tcpCount, SYN_FLOOD_THRESHOLD, t.first);
      HandleIfReached(ip, ProbeSaturation, ports, PROBE_SATURATION_THRESHOLD, t.second);
    }

    method CountBoth(ip: Ip, destPort: nat, t: Readings) returns (tcpCount: nat, ports: nat)
      requires Wired() && clock <= t.recorded <= t.probed <= t.counted
      modifies this`clock, tcpCounter, probeCounter
      ensures Wired() && clock == t.counted
      ensures tcpCounter.ops == old(tcpCounter.ops) + [Op.Record(ip, destPort, t.recorded)] + [Op.Count(ip, t.counted)]
      ensures probeCounter.ops == old(probeCounter.ops) + [Op.Record(ip, destPort, t.probed)]
      ensures tcpCount == InWindow(old(tcpCounter.ops) + [Op.Record(ip, destPort, t.recorded)], ip, t.counted)
      ensures ports == DistinctPorts(probeCounter.ops, ip)
    {
      hide Represents, Log, CountSince, KeptPorts;
      tcpCounter.Record(ip, destPort, t.recorded);
      probeCounter.Record(ip, destPort, t.probed);
      tcpCount := tcpCounter.Count(ip, t.counted);
      ports := probeCounter.UniquePorts(ip);
      clock := t.counted;
    }

    /** `checks` is the order in which Python happens to iterate the set of addresses seen. */
    method ScanConnections(conns: seq<Connection>, tableAt: Seconds, checks: seq<Check>)
      requires Valid() && Enabled(State(), Scan(conns, tableAt, checks))
      modifies this, tcpCounter, udpCounter, icmpCounter, probeCounter
      ensures Valid()
      ensures State() == Step(old(State()), Scan(conns, tableAt, checks))
      ensures actions == old(actions) + [Scan(conns, tableAt, checks)]
    {
      hide Represents, Run, SampledAll, CheckedAll, Warned, SeenIps;
      ghost var before := State();
      var seen := Sample(conns, tableAt);
      assert seen == set c | c in checks :: c.ip;
      if |conns| >= TABLE_EXHAUSTION_WARNING {
        HandleTableExhaustion(tableAt);
      }
      assert State() == TableChecked(SampledAll(before, conns), |conns|, tableAt);
      CheckAll(checks, tableAt);
      Ran(Scan(conns, tableAt, checks), old(actions), before);
    }

    method CheckAll(checks: seq<Check>, start: Seconds)
      requires Wired() && clock <= start
      requires forall i :: 0 <= i < |checks| ==> CheckInOrder(start, checks, i)
      modifies this, tcpCounter, udpCounter
      ensures Wired() && actions == old(actions) && State() == CheckedAll(old(State()), checks)
    {
      hide Represents, Checked, Run;
      for i := 0 to |checks|
        invariant Wired() && actions == old(actions) && clock <= if i == 0 then start else checks[i - 1].third
        invariant State() == CheckedAll(old(State()), checks[..i])
      {
        assert checks[..i + 1][..i] == checks[..i];
        assert CheckInOrder(start, checks, i);
        CheckIp(checks[i]);
      }
      assert checks[..|checks|] == checks;
    }

    method Sample(conns: seq<Connection>, end: Seconds) returns (seen: set<Ip>)
      requires Wired() && clock <= end
      requires forall i :: 0 <= i < |conns| ==> Earlier(clock, conns, i) <= conns[i].at <= conns[i].probedAt <= end
      modifies this`clock, tcpCounter, udpCounter, probeCounter
      ensures Wired() && clock <= end && State() == SampledAll(old(State()), conns)
      ensures seen == SeenIps(allowlist, conns)
    {
      hide Represents, Run, SampledAll, SeenIps;
      NoneSeen(State());
      assert conns[..0] == [];
      var seenTcp: set<Ip>, seenUdp: set<Ip> := {}, {};
      for i := 0 to |conns|
        invariant Wired() && clock <= end && clock <= Earlier(old(clock), conns, i)
        invariant State() == SampledAll(old(State()), conns[..i])
        invariant seenTcp + seenUdp == SeenIps(allowlist, conns[..i])
      {
        var conn := conns[i];
        SeenByNext(old(State()), conns, i);
        if conn.remote.Some? && conn.remote.value !in allowlist {
          SampleOne(conn);
          if conn.isUdp {
            seenUdp := seenUdp + {conn.remote.value};
          } else {
            seenTcp := seenTcp + {conn.remote.value};
          }
        }
      }
      assert conns[..|conns|] == conns;
      seen := seenTcp + seenUdp;
    }

    method SampleOne(conn: Connection)
      requires Wired() && clock <= conn.at <= conn.probedAt && Watched(allowlist, conn)
      modifies this`clock, tcpCounter, udpCounter, probeCounter
      ensures Wired() && clock <= conn.probedAt && State() == Sampled(old(State()), conn)
    {
      hide Represents, Log, CountSince, KeptPorts, HandledIfReached, Run;
      if conn.isUdp {
        udpCounter.Record(conn.remote.value, conn.localPort, conn.at);
        clock := conn.at;
      } else {
        tcpCounter.Record(conn.remote.value, conn.remotePort, conn.at);
        probeCounter.Record(conn.remote.value, conn.remotePort, conn.probedAt);
        clock := conn.probedAt;
      }
    }

    method HandleTableExhaustion(now: Seconds)
      modifies this`clock, this`suppressed, this`tableWarnings
      ensures Book() == Warned(old(Book()), now) && clock == now
    {
      clock := now;
      if now - Get(suppressed, TABLE_KEY, 0.0) < TABLE_SUPPRESS_WINDOW {
        return;
      }
      suppressed := suppressed[TABLE_KEY := now];
      tableWarnings := tableWarnings + [now];
    }

    method CheckIp(c: Check)
      requires Wired() && clock <= c.counted <= c.udpCounted <= c.first <= c.second <= c.third
      modifies this, tcpCounter, udpCounter
      ensures actions == old(actions)
      ensures Wired() && clock <= c.third && State() == Checked(old(State()), c)
    {
      hide Represents, Log, CountSince, KeptPorts, HandledIfReached, Run;
      if c.ip in allowlist {
        return;
      }
      var tcpCount := tcpCounter.Count(c.ip, c.counted);
      var udpCount := udpCounter.Count(c.ip, c.udpCounted);
      var ports := probeCounter.UniquePorts(c.ip);
      clock := c.udpCounted;
      HandleChecked(c, tcpCount, udpCount, ports);
    }

    method HandleChecked(c: Check, tcpCount: nat, udpCount: nat, ports: nat)
      requires Wired() && clock <= c.first <= c.second <= c.third
      modifies this`clock, this`suppressed, this`offences, this`eventCounter
      modifies this`alerts, this`blocks, this`history, this`published
      ensures Wired() && clock <= c.third
      ensures State() ==
        HandledIfReached(
          HandledIfReached(
            HandledIfReached(old(State()), c.ip, SynFlood, tcpCount, c.first),
            c.ip, UdpFlood, udpCount, c.second),
          c.ip, ProbeSaturation, ports, c.third)
    {
      hide Represents, HandledIfReached;
      HandleIfReached(c.ip, SynFlood, tcpCount, SYN_FLOOD_THRESHOLD, c.first);
      HandleIfReached(c.ip, UdpFlood, udpCount, UDP_FLOOD_THRESHOLD, c.second);
      HandleIfReached(c.ip, ProbeSaturation, ports, PROBE_SATURATION_THRESHOLD, c.third);
    }

    /** What the polling loop does after each scan. */
    method Evict(tcpAt: Seconds, udpAt: Seconds, probeAt: Seconds)
      requires Valid() && Enabled(State(), Action.EvictStale(tcpAt, udpAt, probeAt))
      modifies this, tcpCounter, udpCounter, probeCounter
      ensures Valid()
      ensures State() == Step(old(State()), Action.EvictStale(tcpAt, udpAt, probeAt))
      ensures actions == old(actions) + [Action.EvictStale(tcpAt, udpAt, probeAt)]
    {
      hide Represents, Log, CountSince, KeptPorts, HandledIfReached, Run;
      tcpCounter.EvictStale(tcpAt);
      udpCounter.EvictStale(udpAt);
      probeCounter.EvictStale(probeAt);
      clock := probeAt;
      Ran(Action.EvictStale(tcpAt, udpAt, probeAt), old(actions), old(State()));
    }

    method AddToAllowlist(ip: Ip)
      requires Valid()
      modifies this
      ensures Valid()
      ensures State() == Step(old(State()), Action.AddToAllowlist(ip))
      ensures actions == old(actions) + [Action.AddToAllowlist(ip)]
    {
      allowlist := allowlist + {ip};
      Ran(Action.AddToAllowlist(ip), old(actions), old(State()));
    }

    method RemoveFromAllowlist(ip: Ip) returns (removed: bool)
      requires Valid()
      modifies this
      ensures Valid() && removed == (ip in old(allowlist))
      ensures State() == Step(old(State()), Action.RemoveFromAllowlist(ip))
      ensures actions == old(actions) + [Action.RemoveFromAllowlist(ip)]
    {
      removed := ip in allowlist;
      if removed {
        allowlist := allowlist - {ip};
      }
      Ran(Action.RemoveFromAllowlist(ip), old(actions), old(State()));
    }
  }
}
