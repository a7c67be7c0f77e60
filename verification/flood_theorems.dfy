/** Accounting, rate bounds and the allowlist of the flood detector, over every run. */
module FloodTheorems {
  import opened Wrappers
  import opened SlidingCounters
  import opened FloodDetector

  // ----- sums over the offence table

  ghost function Sum(m: map<Ip, nat>): nat
    decreases |m|
  {
    if m == map[] then 0
    else
      var ip :| ip in m;
      m[ip] + Sum(m - {ip})
  }

  lemma {:induction false} SumRemove(m: map<Ip, nat>, ip: Ip)
    requires ip in m
    ensures Sum(m) == m[ip] + Sum(m - {ip})
    decreases |m|
  {
    var first :| first in m && Sum(m) == m[first] + Sum(m - {first});
    if first != ip {
      SumRemove(m - {first}, ip);
      SumRemove(m - {ip}, first);
      assert m - {first} - {ip} == m - {ip} - {first};
    }
  }

  lemma SumUpdate(m: map<Ip, nat>, ip: Ip, n: nat)
    ensures Sum(m[ip := n]) == Sum(m) - Get(m, ip, 0) + n
  {
    SumRemove(m[ip := n], ip);
    assert m[ip := n] - {ip} == m - {ip};
    if ip in m { SumRemove(m, ip); } else { assert m - {ip} == m; }
  }

  // ----- the invariant, over the fields it reads

  /** How many of the events blame `ip`. */
  function OffencesIn(events: seq<FloodEvent>, ip: Ip): nat {
    if events == [] then 0
    else OffencesIn(events[..|events| - 1], ip) + if events[|events| - 1].ip == ip then 1 else 0
  }

  /** Every event is numbered, blocked once, and for as long as its place among the offences of its ip says. */
  ghost predicate Accounted(eventCounter: nat, offences: map<Ip, nat>, blocks: seq<Block>, published: seq<FloodEvent>) {
    && eventCounter == |published| == |blocks|
    && Sum(offences) == eventCounter
    && (forall ip :: Get(offences, ip, 0) == OffencesIn(published, ip))
    && forall i :: 0 <= i < |published| ==> Entered(published, blocks, i)
  }

  /** The i-th event has its number, its duration and its block. */
  ghost predicate Entered(published: seq<FloodEvent>, blocks: seq<Block>, i: nat)
    requires i < |published| == |blocks|
  {
    && published[i].number == i + 1
    && published[i].duration == BlockDuration(OffencesIn(published[..i + 1], published[i].ip))
    && blocks[i] == Block(published[i].ip, published[i].duration, i + 1)
  }

  lemma StaysEntered(published: seq<FloodEvent>, blocks: seq<Block>, event: FloodEvent, block: Block, i: nat)
    requires i < |published| == |blocks| && Entered(published, blocks, i)
    ensures Entered(published + [event], blocks + [block], i)
  {
    assert (published + [event])[..i + 1] == published[..i + 1];
  }

  lemma OneMoreOffence(published: seq<FloodEvent>, event: FloodEvent, ip: Ip)
    ensures OffencesIn(published + [event], ip) == OffencesIn(published, ip) + if event.ip == ip then 1 else 0
  {
    assert (published + [event])[..|published|] == published;
  }

  /** Every event was announced by an alert that says the same, and how often its ip had offended. */
  ghost predicate Alerted(alerts: seq<Alert>, published: seq<FloodEvent>) {
    |alerts| == |published| && forall i :: 0 <= i < |published| ==> Announced(alerts, published, i)
  }

  ghost predicate Announced(alerts: seq<Alert>, published: seq<FloodEvent>, i: nat)
    requires i < |published| == |alerts|
  {
    var e := published[i];
    alerts[i] == Alert(
      e.number, e.floodType, e.ip, e.count, e.threshold, OffencesIn(published[..i + 1], e.ip), e.duration)
  }

  lemma AlertedKept(s: Accounts, ip: Ip, t: FloodType, count: nat, at: Seconds)
    requires Alerted(s.alerts, s.published) && Get(s.offences, ip, 0) == OffencesIn(s.published, ip)
    ensures var s' := Handled(s, ip, t, count, at); Alerted(s'.alerts, s'.published)
  {
    hide SuppressionKey, Suppressed, Trimmed, BlockDuration, OffencesIn;
    var s' := Handled(s, ip, t, count, at);
    if s'.published != s.published {
      var n := |s.published|;
      forall i | 0 <= i < n ensures Announced(s'.alerts, s'.published, i) {
        assert Announced(s.alerts, s.published, i);
        assert s'.published[..i + 1] == s.published[..i + 1];
      }
      OneMoreOffence(s.published, s'.published[n], ip);
      assert s'.published[..n + 1] == s'.published;
    }
  }

  ghost predicate HistoryKept(history: seq<FloodEvent>, published: seq<FloodEvent>) {
    && |history| <= |published| && history == published[|published| - |history|..]
    && |history| <= 5000
    && (if |published| < 2500 then |published| else 2500) <= |history|
    && (|published| <= 5000 ==> history == published)
  }

  ghost predicate Spaced(suppressed: map<string, Seconds>, published: seq<FloodEvent>) {
    && (forall k :: k in suppressed ==> suppressed[k] >= SUPPRESS_WINDOW)
    && (forall i :: 0 <= i < |published| ==>
         Get(suppressed, SuppressionKey(published[i].floodType, published[i].ip), 0.0)
           >= published[i].at >= SUPPRESS_WINDOW)
    && FarApart(published)
    && forall t, ip :: SuppressionKey(t, ip) in suppressed ==>
         FiredAt(published, t, ip, suppressed[SuppressionKey(t, ip)])
  }

  ghost predicate FiredAt(published: seq<FloodEvent>, t: FloodType, ip: Ip, at: Seconds) {
    exists i :: 0 <= i < |published| && published[i].floodType == t && published[i].ip == ip && published[i].at == at
  }

  predicate SameKind(a: FloodEvent, b: FloodEvent) {
    a.floodType == b.floodType && a.ip == b.ip
  }

  /** Two events of one type and ip are at least 30 s apart. */
  ghost predicate FarApart(published: seq<FloodEvent>) {
    forall i, j :: 0 <= i < j < |published| && SameKind(published[i], published[j]) ==>
      published[j].at - published[i].at >= SUPPRESS_WINDOW
  }

  ghost predicate WarningsSpaced(suppressed: map<string, Seconds>, warnings: seq<Seconds>) {
    && (forall i :: 0 <= i < |warnings| ==>
         Get(suppressed, TABLE_KEY, 0.0) >= warnings[i] >= TABLE_SUPPRESS_WINDOW)
    && (forall i, j :: 0 <= i < j < |warnings| ==> warnings[j] - warnings[i] >= TABLE_SUPPRESS_WINDOW)
  }

  ghost predicate Invariant(s: Accounts) {
    && Accounted(s.eventCounter, s.offences, s.blocks, s.published)
    && Alerted(s.alerts, s.published)
    && HistoryKept(s.history, s.published)
    && Spaced(s.suppressed, s.published)
    && WarningsSpaced(s.suppressed, s.tableWarnings)
  }

  // ----- preservation

  lemma AccountedKept(s: Accounts, ip: Ip, t: FloodType, count: nat, at: Seconds)
    requires Accounted(s.eventCounter, s.offences, s.blocks, s.published)
    ensures var s' := Handled(s, ip, t, count, at);
      Accounted(s'.eventCounter, s'.offences, s'.blocks, s'.published)
  {
    hide SuppressionKey, Suppressed, Trimmed, BlockDuration, Sum, OffencesIn;
    var s' := Handled(s, ip, t, count, at);
    if s'.published != s.published {
      var n := |s.published|;
      var (event, block) := (s'.published[n], s'.blocks[n]);
      SumUpdate(s.offences, ip, s'.offences[ip]);
      forall other ensures Get(s'.offences, other, 0) == OffencesIn(s'.published, other) {
        OneMoreOffence(s.published, event, other);
      }
      forall i | 0 <= i < n ensures Entered(s'.published, s'.blocks, i) {
        StaysEntered(s.published, s.blocks, event, block, i);
      }
      assert s'.published[..n + 1] == s'.published;
    }
  }

  lemma HistoryStaysKept(history: seq<FloodEvent>, published: seq<FloodEvent>, event: FloodEvent)
    requires HistoryKept(history, published)
    ensures HistoryKept(Trimmed(history + [event]), published + [event])
  {
  }

  lemma SpacedKept(s: Accounts, ip: Ip, t: FloodType, count: nat, at: Seconds)
    requires Spaced(s.suppressed, s.published)
    ensures var s' := Handled(s, ip, t, count, at); Spaced(s'.suppressed, s'.published)
  {
    hide SuppressionKey, Trimmed, BlockDuration, FiredAt;
    var s' := Handled(s, ip, t, count, at);
    if s'.published != s.published {
      forall i | 0 <= i < |s.published|
        ensures var e := s.published[i]; Get(s'.suppressed, SuppressionKey(e.floodType, e.ip), 0.0) >= e.at
      {
        KeysDiffer(s.published[i].floodType, s.published[i].ip, t, ip);
      }
      FiredKept(s, ip, t, count, at);
    }
  }

  lemma FiredKept(s: Accounts, ip: Ip, t: FloodType, count: nat, at: Seconds)
    requires Spaced(s.suppressed, s.published)
    ensures var s' := Handled(s, ip, t, count, at);
      forall t', ip' :: SuppressionKey(t', ip') in s'.suppressed ==>
        FiredAt(s'.published, t', ip', s'.suppressed[SuppressionKey(t', ip')])
  {
    hide SuppressionKey, Trimmed, FarApart;
    var s' := Handled(s, ip, t, count, at);
    if |s'.published| > |s.published| {
      var n := |s.published|;
      assert s'.published[n].floodType == t && s'.published[n].ip == ip && s'.published[n].at == at;
      forall t', ip' | SuppressionKey(t', ip') in s'.suppressed
        ensures FiredAt(s'.published, t', ip', s'.suppressed[SuppressionKey(t', ip')])
      {
        KeysDiffer(t', ip', t, ip);
        if !(t' == t && ip' == ip) {
          var oldAt := s.suppressed[SuppressionKey(t', ip')];
          assert FiredAt(s.published, t', ip', oldAt);
          var i :|
            0 <= i < n && s.published[i].floodType == t' && s.published[i].ip == ip' && s.published[i].at == oldAt;
          assert s'.published[i] == s.published[i];
        }
      }
    }
  }

  lemma HandledKeeps(s: Accounts, ip: Ip, t: FloodType, count: nat, at: Seconds)
    requires Invariant(s)
    ensures Invariant(Handled(s, ip, t, count, at))
  {
    var s' := Handled(s, ip, t, count, at);
    AccountedKept(s, ip, t, count, at);
    AlertedKept(s, ip, t, count, at);
    SpacedKept(s, ip, t, count, at);
    HistoryKeptByHandled(s, ip, t, count, at);
    WarningsKept(s, ip, t, count, at);
  }

  lemma HistoryKeptByHandled(s: Accounts, ip: Ip, t: FloodType, count: nat, at: Seconds)
    requires HistoryKept(s.history, s.published)
    ensures var s' := Handled(s, ip, t, count, at); HistoryKept(s'.history, s'.published)
  {
    hide HistoryKept, Trimmed, SuppressionKey, Suppressed, BlockDuration, Threshold;
    var s' := Handled(s, ip, t, count, at);
    if s'.published != s.published { HistoryStaysKept(s.history, s.published, s'.published[|s.published|]); }
  }

  lemma WarningsKept(s: Accounts, ip: Ip, t: FloodType, count: nat, at: Seconds)
    requires WarningsSpaced(s.suppressed, s.tableWarnings)
    ensures var s' := Handled(s, ip, t, count, at); WarningsSpaced(s'.suppressed, s'.tableWarnings)
  {
  }

  lemma HandledIfReachedKeeps(s: Detector, ip: Ip, t: FloodType, count: nat, at: Seconds)
    requires Invariant(s.accounts)
    ensures Invariant(HandledIfReached(s, ip, t, count, at).accounts)
  {
    if count >= Threshold(t) { HandledKeeps(s.accounts, ip, t, count, at); }
  }

  lemma PacketKeeps(s: Detector, ip: Ip, protocol: Protocol, port: nat, t: Readings)
    requires Invariant(s.accounts)
    ensures Invariant(Packet(s, ip, protocol, port, t).accounts)
  {
    if ip !in s.allowlist {
      match protocol
      case Icmp =>
        var icmp := s.icmp + [Record(ip, 0, t.recorded)];
        var counted := s.(icmp := icmp + [Count(ip, t.counted)], clock := t.counted);
        HandledIfReachedKeeps(counted, ip, IcmpFlood, InWindow(icmp, ip, t.counted), t.first);
      case Udp =>
        var udp := s.udp + [Record(ip, port, t.recorded)];
        var counted := s.(udp := udp + [Count(ip, t.counted)], clock := t.counted);
        HandledIfReachedKeeps(counted, ip, UdpFlood, InWindow(udp, ip, t.counted), t.first);
      case OtherProtocol =>
        var (tcp, probe) := (s.tcp + [Record(ip, port, t.recorded)], s.probe + [Record(ip, port, t.probed)]);
        var counted := s.(tcp := tcp + [Count(ip, t.counted)], probe := probe, clock := t.counted);
        HandledIfReachedKeeps(counted, ip, SynFlood, InWindow(tcp, ip, t.counted), t.first);
        var first := HandledIfReached(counted, ip, SynFlood, InWindow(tcp, ip, t.counted), t.first);
        HandledIfReachedKeeps(first, ip, ProbeSaturation, DistinctPorts(probe, ip), t.second);
    }
  }

  lemma {:induction false} SampledAllKeeps(s: Detector, conns: seq<Connection>)
    ensures SampledAll(s, conns).accounts == s.accounts
  {
    if conns == [] {
    } else {
      SampledAllKeeps(s, conns[..|conns| - 1]);
    }
  }

  lemma WarnedKeeps(s: Accounts, at: Seconds)
    requires Invariant(s)
    ensures Invariant(Warned(s, at))
  {
    hide Accounted, Alerted, HistoryKept;
    forall i | 0 <= i < |s.published|
      ensures SuppressionKey(s.published[i].floodType, s.published[i].ip) != TABLE_KEY
    {
      KeysDiffer(s.published[i].floodType, s.published[i].ip, SynFlood, "");
    }
    forall t, ip ensures SuppressionKey(t, ip) != TABLE_KEY { KeysDiffer(t, ip, t, ip); }
  }

  lemma CheckedKeeps(s: Detector, c: Check)
    requires Invariant(s.accounts)
    ensures Invariant(Checked(s, c).accounts)
  {
    if c.ip !in s.allowlist {
      var counted := s.(tcp := s.tcp + [Count(c.ip, c.counted)], udp := s.udp + [Count(c.ip, c.udpCounted)],
                        clock := c.udpCounted);
      HandledIfReachedKeeps(counted, c.ip, SynFlood, InWindow(s.tcp, c.ip, c.counted), c.first);
      var syn := HandledIfReached(counted, c.ip, SynFlood, InWindow(s.tcp, c.ip, c.counted), c.first);
      HandledIfReachedKeeps(syn, c.ip, UdpFlood, InWindow(s.udp, c.ip, c.udpCounted), c.second);
      var udp := HandledIfReached(syn, c.ip, UdpFlood, InWindow(s.udp, c.ip, c.udpCounted), c.second);
      HandledIfReachedKeeps(udp, c.ip, ProbeSaturation, DistinctPorts(s.probe, c.ip), c.third);
    }
  }

  lemma {:induction false} CheckedAllKeeps(s: Detector, checks: seq<Check>)
    requires Invariant(s.accounts)
    ensures Invariant(CheckedAll(s, checks).accounts)
  {
    if checks == [] {
    } else {
      CheckedAllKeeps(s, checks[..|checks| - 1]);
      CheckedKeeps(CheckedAll(s, checks[..|checks| - 1]), checks[|checks| - 1]);
    }
  }

  lemma StepKeeps(s: Detector, a: Action)
    requires Invariant(s.accounts)
    ensures Invariant(Step(s, a).accounts)
  {
    hide Invariant;
    match a
    case RecordPacket(ip, protocol, port, t) => PacketKeeps(s, ip, protocol, port, t);
    case Scan(conns, tableAt, checks) =>
      var sampled := SampledAll(s, conns);
      SampledAllKeeps(s, conns);
      WarnedKeeps(s.accounts, tableAt);
      CheckedAllKeeps(TableChecked(sampled, |conns|, tableAt), checks);
    case EvictStale(_, _, _) =>
    case AddToAllowlist(_) =>
    case RemoveFromAllowlist(_) =>
  }

  lemma {:induction false} RunKeeps(s: Detector, actions: seq<Action>, s': Detector)
    requires Invariant(s.accounts) && Run(s, actions, s')
    ensures Invariant(s'.accounts)
    decreases |actions|
  {
    if actions == [] {
    } else {
      StepKeeps(s, actions[0]);
      RunKeeps(Step(s, actions[0]), actions[1..], s');
    }
  }

  lemma ReachedInvariant(allowlist: set<Ip>, clock: Seconds, actions: seq<Action>, s: Detector)
    requires Run(Start(allowlist, clock), actions, s)
    ensures Invariant(s.accounts)
  {
    RunKeeps(Start(allowlist, clock), actions, s);
  }

  // ----- main results

  /** Offences, events, alerts and blocks tell the same story; an ip's n-th block is its n-th event's. */
  lemma FloodsAccounted(allowlist: set<Ip>, clock: Seconds, actions: seq<Action>, s: Detector)
    requires Run(Start(allowlist, clock), actions, s)
    ensures Sum(s.accounts.offences) == s.accounts.eventCounter == |s.accounts.blocks| == |s.accounts.published|
    ensures forall ip :: Get(s.accounts.offences, ip, 0) == OffencesIn(s.accounts.published, ip)
    ensures forall i :: 0 <= i < |s.accounts.blocks| ==>
      && s.accounts.blocks[i].ip == s.accounts.published[i].ip && s.accounts.blocks[i].alert == i + 1
      && s.accounts.blocks[i].duration == BlockDuration(BlocksOf(s.accounts.blocks[..i + 1], s.accounts.blocks[i].ip))
    ensures Alerted(s.accounts.alerts, s.accounts.published)
    ensures HistoryKept(s.accounts.history, s.accounts.published)
  {
    hide Run, Sum, Alerted, HistoryKept, Spaced, WarningsSpaced, BlockDuration;
    ReachedInvariant(allowlist, clock, actions, s);
    var (blocks, published) := (s.accounts.blocks, s.accounts.published);
    forall i | 0 <= i < |blocks|
      ensures Entered(published, blocks, i)
      ensures OffencesIn(published[..i + 1], blocks[i].ip) == BlocksOf(blocks[..i + 1], blocks[i].ip)
    {
      var (firstEvents, firstBlocks) := (published[..i + 1], blocks[..i + 1]);
      forall j | 0 <= j < |firstEvents| ensures firstEvents[j].ip == firstBlocks[j].ip {
        assert Entered(published, blocks, j);
      }
      BlocksFollowEvents(firstEvents, firstBlocks, blocks[i].ip);
    }
  }

  /** How often the IPS was asked to block `ip`. */
  function BlocksOf(blocks: seq<Block>, ip: Ip): nat {
    if blocks == [] then 0
    else BlocksOf(blocks[..|blocks| - 1], ip) + if blocks[|blocks| - 1].ip == ip then 1 else 0
  }

  lemma {:induction false} BlocksFollowEvents(events: seq<FloodEvent>, blocks: seq<Block>, ip: Ip)
    requires |events| == |blocks| && forall i :: 0 <= i < |events| ==> events[i].ip == blocks[i].ip
    ensures OffencesIn(events, ip) == BlocksOf(blocks, ip)
  {
    if events == [] {
    } else {
      BlocksFollowEvents(events[..|events| - 1], blocks[..|blocks| - 1], ip);
    }
  }

  function Matching(events: seq<FloodEvent>, t: FloodType, ip: Ip, from: Seconds, to: Seconds): nat {
    if events == [] then 0
    else
      var e := events[|events| - 1];
      Matching(events[..|events| - 1], t, ip, from, to)
      + if e.floodType == t && e.ip == ip && from <= e.at <= to then 1 else 0
  }

  /** Events that blame `ip` inside the closed interval. */
  function Within(events: seq<FloodEvent>, ip: Ip, from: Seconds, to: Seconds): nat {
    if events == [] then 0
    else
      var e := events[|events| - 1];
      Within(events[..|events| - 1], ip, from, to) + if e.ip == ip && from <= e.at <= to then 1 else 0
  }

  lemma {:induction false} WithinByType(events: seq<FloodEvent>, ip: Ip, from: Seconds, to: Seconds)
    ensures Within(events, ip, from, to)
      == Matching(events, SynFlood, ip, from, to) + Matching(events, UdpFlood, ip, from, to)
       + Matching(events, IcmpFlood, ip, from, to) + Matching(events, ProbeSaturation, ip, from, to)
  {
    if events == [] {
    } else {
      WithinByType(events[..|events| - 1], ip, from, to);
    }
  }

  predicate LateEnough(e: FloodEvent, t: FloodType, ip: Ip, from: Seconds, to: Seconds, k: nat) {
    e.floodType == t && e.ip == ip && from + SUPPRESS_WINDOW * (k as real - 1.0) <= e.at <= to
  }

  /** The k-th event of a kind inside an interval comes at least 30 (k - 1) seconds after its start. */
  lemma {:induction false} MatchingSpread(events: seq<FloodEvent>, t: FloodType, ip: Ip, from: Seconds, to: Seconds)
    requires FarApart(events)
    ensures var k := Matching(events, t, ip, from, to);
      k > 0 ==> exists j :: 0 <= j < |events| && LateEnough(events[j], t, ip, from, to, k)
  {
    if events == [] {
    } else {
      var n := |events| - 1;
      var before := Matching(events[..n], t, ip, from, to);
      MatchingSpread(events[..n], t, ip, from, to);
      if before > 0 {
        var j :| 0 <= j < n && LateEnough(events[..n][j], t, ip, from, to, before);
        assert LateEnough(events[j], t, ip, from, to, before);
        if Matching(events, t, ip, from, to) > before {
          assert SameKind(events[j], events[n]);
          assert LateEnough(events[n], t, ip, from, to, before + 1);
        }
      } else if Matching(events, t, ip, from, to) > 0 {
        assert LateEnough(events[n], t, ip, from, to, 1);
      }
    }
  }

  lemma MatchingBounded(events: seq<FloodEvent>, t: FloodType, ip: Ip, from: Seconds, length: Seconds)
    requires FarApart(events) && length >= 0.0
    ensures Matching(events, t, ip, from, from + length) <= (length / SUPPRESS_WINDOW).Floor + 1
  {
    MatchingSpread(events, t, ip, from, from + length);
    var k := Matching(events, t, ip, from, from + length);
    if k > 0 {
      assert SUPPRESS_WINDOW * (k as real - 1.0) <= length;
      assert (k - 1) as real <= length / SUPPRESS_WINDOW;
    }
  }

  lemma RateBounded(events: seq<FloodEvent>, ip: Ip, from: Seconds, length: Seconds)
    requires FarApart(events) && length >= 0.0
    ensures Within(events, ip, from, from + length) <= 4 * ((length / SUPPRESS_WINDOW).Floor + 1)
  {
    WithinByType(events, ip, from, from + length);
    MatchingBounded(events, SynFlood, ip, from, length);
    MatchingBounded(events, UdpFlood, ip, from, length);
    MatchingBounded(events, IcmpFlood, ip, from, length);
    MatchingBounded(events, ProbeSaturation, ip, from, length);
  }

  /**
   Offence rate bound: whatever the traffic, an ip gains few offences in any interval, and none
   before the clock reads 30 s.
   */
  lemma OffenceRateBounded(
    allowlist: set<Ip>, clock: Seconds, actions: seq<Action>, s: Detector, ip: Ip, from: Seconds, length: Seconds)
    requires Run(Start(allowlist, clock), actions, s) && length >= 0.0
    ensures Within(s.accounts.published, ip, from, from + length) <= 4 * ((length / SUPPRESS_WINDOW).Floor + 1)
    ensures forall i :: 0 <= i < |s.accounts.published| ==> s.accounts.published[i].at >= SUPPRESS_WINDOW
  {
    ReachedInvariant(allowlist, clock, actions, s);
    RateBounded(s.accounts.published, ip, from, length);
  }

  // ----- a flood is raised exactly when it is due

  /** By the log of events alone: no event of this kind in the last 30 s, nor before the clock reads 30. */
  ghost predicate Due(published: seq<FloodEvent>, t: FloodType, ip: Ip, at: Seconds) {
    at >= 30.0
    && forall i :: 0 <= i < |published| && published[i].floodType == t && published[i].ip == ip ==>
         at - published[i].at >= 30.0
  }

  lemma SuppressedIffRecent(s: Accounts, t: FloodType, ip: Ip, at: Seconds)
    requires Spaced(s.suppressed, s.published)
    ensures Suppressed(s, SuppressionKey(t, ip), at, SUPPRESS_WINDOW) <==> !Due(s.published, t, ip, at)
  {
  }

  /** A count that reached its threshold. */
  datatype Flood = Flood(floodType: FloodType, ip: Ip, count: nat, threshold: nat, at: Seconds)

  /** The log of events after a flood: one more, with the block that the offence calls for, if it is due. */
  ghost function Added(published: seq<FloodEvent>, f: Flood): seq<FloodEvent> {
    if !Due(published, f.floodType, f.ip, f.at) then published
    else
      var offence := OffencesIn(published, f.ip) + 1;
      var duration := if offence == 1 then Some(3600) else if offence == 2 then Some(21600) else None;
      published + [FloodEvent(|published| + 1, f.floodType, f.ip, f.count, f.threshold, duration, f.at)]
  }

  ghost function AllAdded(published: seq<FloodEvent>, floods: seq<Flood>): seq<FloodEvent> {
    if floods == [] then published
    else Added(AllAdded(published, floods[..|floods| - 1]), floods[|floods| - 1])
  }

  function IfReached(t: FloodType, ip: Ip, count: nat, threshold: nat, at: Seconds): seq<Flood> {
    if count >= threshold then [Flood(t, ip, count, threshold, at)] else []
  }

  lemma HandledAdds(s: Accounts, ip: Ip, t: FloodType, count: nat, at: Seconds)
    requires Invariant(s)
    ensures Handled(s, ip, t, count, at).published == Added(s.published, Flood(t, ip, count, Threshold(t), at))
  {
    hide Alerted, HistoryKept, WarningsSpaced, Spaced, Due, Trimmed, SuppressionKey, Sum, OffencesIn, Entered;
    SuppressedIffRecent(s, t, ip, at);
    assert Get(s.offences, ip, 0) == OffencesIn(s.published, ip);
  }

  lemma ReachedAdds(s: Detector, ip: Ip, t: FloodType, count: nat, at: Seconds)
    requires Invariant(s.accounts)
    ensures var s' := HandledIfReached(s, ip, t, count, at);
      && Invariant(s'.accounts)
      && s'.accounts.published == AllAdded(s.accounts.published, IfReached(t, ip, count, Threshold(t), at))
  {
    hide Invariant, Handled, Added;
    HandledIfReachedKeeps(s, ip, t, count, at);
    HandledAdds(s.accounts, ip, t, count, at);
    assert [Flood(t, ip, count, Threshold(t), at)][..0] == [];
  }

  lemma {:induction false} AddedInTurn(published: seq<FloodEvent>, a: seq<Flood>, b: seq<Flood>)
    ensures AllAdded(published, a + b) == AllAdded(AllAdded(published, a), b)
  {
    hide Added;
    if b == [] {
      assert a + b == a;
    } else {
      assert (a + b)[..|a + b| - 1] == a + b[..|b| - 1];
      AddedInTurn(published, a, b[..|b| - 1]);
    }
  }

  lemma CountingKeepsLog(ops: seq<Op>, ip: Ip, at: Seconds)
    ensures Log(ops + [Count(ip, at)]) == Log(ops)
  {
    assert (ops + [Count(ip, at)])[..|ops|] == ops;
  }

  lemma TableWarningsSpaced(allowlist: set<Ip>, clock: Seconds, actions: seq<Action>, s: Detector)
    requires Run(Start(allowlist, clock), actions, s)
    ensures forall i, j :: 0 <= i < j < |s.accounts.tableWarnings| ==>
      s.accounts.tableWarnings[j] - s.accounts.tableWarnings[i] >= TABLE_SUPPRESS_WINDOW
  {
    ReachedInvariant(allowlist, clock, actions, s);
  }

  // ----- lasting connections

  /** The sampled TCP connections to `ip`, from `cutoff` on. */
  function OpenTo(allowlist: set<Ip>, conns: seq<Connection>, ip: Ip, cutoff: Seconds): nat {
    if conns == [] then 0
    else
      var last := conns[|conns| - 1];
      OpenTo(allowlist, conns[..|conns| - 1], ip, cutoff)
      + if Watched(allowlist, last) && !last.isUdp && last.remote.value == ip && last.at >= cutoff then 1 else 0
  }

  lemma NextCounted(ops: seq<Op>, op: Op, ip: Ip, cutoff: Seconds)
    ensures CountSince(Log(ops + [op]), ip, cutoff)
      == CountSince(Log(ops), ip, cutoff) + if op.Record? && op.ip == ip && op.at >= cutoff then 1 else 0
  {
    LogOfNext(ops, op);
    if op.Record? {
      assert (Log(ops) + [Seen(op.ip, op.port, op.at)])[..|Log(ops)|] == Log(ops);
    } else {
      assert Log(ops) + [] == Log(ops);
    }
  }

  lemma {:induction false} SampledAllCounts(s: Detector, conns: seq<Connection>, ip: Ip, cutoff: Seconds)
    ensures CountSince(Log(SampledAll(s, conns).tcp), ip, cutoff)
      == CountSince(Log(s.tcp), ip, cutoff) + OpenTo(s.allowlist, conns, ip, cutoff)
    ensures SampledAll(s, conns).allowlist == s.allowlist
  {
    hide Log, CountSince;
    if conns == [] {
    } else {
      var (before, last) := (SampledAll(s, conns[..|conns| - 1]), conns[|conns| - 1]);
      SampledAllCounts(s, conns[..|conns| - 1], ip, cutoff);
      if Watched(s.allowlist, last) {
        NextCounted(before.tcp, Record(last.remote.value, last.remotePort, last.at), ip, cutoff);
      }
    }
  }

  lemma {:induction false} CheckedAllCounts(s: Detector, checks: seq<Check>)
    ensures Log(CheckedAll(s, checks).tcp) == Log(s.tcp) && CheckedAll(s, checks).allowlist == s.allowlist
  {
    hide Log, Handled, InWindow, DistinctPorts;
    if checks == [] {
    } else {
      var (before, last) := (CheckedAll(s, checks[..|checks| - 1]), checks[|checks| - 1]);
      CheckedAllCounts(s, checks[..|checks| - 1]);
      CountingKeepsLog(before.tcp, last.ip, last.counted);
    }
  }

  function Scans(actions: seq<Action>): nat {
    if actions == [] then 0 else Scans(actions[1..]) + if actions[0].Scan? then 1 else 0
  }

  lemma PollCounts(s: Detector, a: Action, ip: Ip, cutoff: Seconds)
    requires a.Scan? || a.EvictStale?
    ensures Step(s, a).allowlist == s.allowlist
    ensures CountSince(Log(Step(s, a).tcp), ip, cutoff)
      == CountSince(Log(s.tcp), ip, cutoff) + if a.Scan? then OpenTo(s.allowlist, a.conns, ip, cutoff) else 0
  {
    hide Log, CountSince, SampledAll, CheckedAll, Warned;
    match a
    case Scan(conns, tableAt, checks) =>
      SampledAllCounts(s, conns, ip, cutoff);
      CheckedAllCounts(TableChecked(SampledAll(s, conns), |conns|, tableAt), checks);
    case EvictStale(tcpAt, _, _) => NextCounted(s.tcp, Evict(tcpAt), ip, cutoff);
  }

  /**
   The polling loop counts a connection again at every scan: `n` of them that last through the scans
   inside the window weigh as much as `n` new ones per scan.
   */
  lemma {:induction false} LastingConnectionsRecounted(
    s: Detector, polls: seq<Action>, s': Detector, ip: Ip, cutoff: Seconds, n: nat)
    requires Run(s, polls, s')
    requires forall a | a in polls :: a.EvictStale? || (a.Scan? && OpenTo(s.allowlist, a.conns, ip, cutoff) == n)
    ensures CountSince(Log(s'.tcp), ip, cutoff) == CountSince(Log(s.tcp), ip, cutoff) + n * Scans(polls)
    decreases |polls|
  {
    hide Log, CountSince, Step, OpenTo;
    if polls == [] {
    } else {
      PollCounts(s, polls[0], ip, cutoff);
      LastingConnectionsRecounted(Step(s, polls[0]), polls[1..], s', ip, cutoff, n);
      assert n * (Scans(polls[1..]) + 1) == n * Scans(polls[1..]) + n;
    }
  }

  // ----- the allowlist

  /** Nothing about `ip` was recorded or held against it between the two states. */
  ghost predicate Untouched(s: Detector, s': Detector, ip: Ip) {
    && ip in s'.allowlist
    && Times(Log(s'.tcp), ip) == Times(Log(s.tcp), ip)
    && Times(Log(s'.udp), ip) == Times(Log(s.udp), ip)
    && Times(Log(s'.icmp), ip) == Times(Log(s.icmp), ip)
    && Times(Log(s'.probe), ip) == Times(Log(s.probe), ip)
    && OffencesIn(s'.accounts.published, ip) == OffencesIn(s.accounts.published, ip)
    && Get(s'.accounts.offences, ip, 0) == Get(s.accounts.offences, ip, 0)
    && NoneBlocked(s.accounts.blocks, s'.accounts.blocks, ip)
  }

  /** The IPS was not asked to block `ip` in between. */
  ghost predicate NoneBlocked(before: seq<Block>, after: seq<Block>, ip: Ip) {
    before <= after && forall i :: |before| <= i < |after| ==> after[i].ip != ip
  }

  lemma OtherOpUntouched(ops: seq<Op>, op: Op, ip: Ip)
    requires op.Record? ==> op.ip != ip
    ensures Times(Log(ops + [op]), ip) == Times(Log(ops), ip)
  {
    TimesOfNext(ops, op, ip);
  }

  lemma HandledOther(s: Detector, other: Ip, t: FloodType, count: nat, at: Seconds, ip: Ip)
    requires ip in s.allowlist && other != ip
    ensures Untouched(s, HandledIfReached(s, other, t, count, at), ip)
  {
    HandledBlamesOther(s.accounts, other, t, count, at, ip);
  }

  lemma HandledBlamesOther(s: Accounts, other: Ip, t: FloodType, count: nat, at: Seconds, ip: Ip)
    requires other != ip
    ensures var s' := Handled(s, other, t, count, at);
      && OffencesIn(s'.published, ip) == OffencesIn(s.published, ip)
      && Get(s'.offences, ip, 0) == Get(s.offences, ip, 0)
      && NoneBlocked(s.blocks, s'.blocks, ip)
  {
    hide SuppressionKey, Suppressed, Trimmed, BlockDuration, Threshold;
  }

  lemma PacketUntouched(s: Detector, other: Ip, protocol: Protocol, port: nat, t: Readings, ip: Ip)
    requires ip in s.allowlist
    ensures Untouched(s, Packet(s, other, protocol, port, t), ip)
  {
    if other !in s.allowlist {
      var (record, count) := (Record(other, if protocol.Icmp? then 0 else port, t.recorded), Count(other, t.counted));
      match protocol
      case Icmp =>
        var icmp := s.icmp + [record];
        OtherOpUntouched(s.icmp, record, ip);
        OtherOpUntouched(icmp, count, ip);
        HandledOther(s.(icmp := icmp + [count], clock := t.counted), other, IcmpFlood,
                     InWindow(icmp, other, t.counted), t.first, ip);
      case Udp =>
        var udp := s.udp + [record];
        OtherOpUntouched(s.udp, record, ip);
        OtherOpUntouched(udp, count, ip);
        HandledOther(s.(udp := udp + [count], clock := t.counted), other, UdpFlood,
                     InWindow(udp, other, t.counted), t.first, ip);
      case OtherProtocol =>
        var probed := Record(other, port, t.probed);
        var (tcp, probe) := (s.tcp + [record], s.probe + [probed]);
        OtherOpUntouched(s.tcp, record, ip);
        OtherOpUntouched(tcp, count, ip);
        OtherOpUntouched(s.probe, probed, ip);
        var counted := s.(tcp := tcp + [count], probe := probe, clock := t.counted);
        HandledOther(counted, other, SynFlood, InWindow(tcp, other, t.counted), t.first, ip);
        var first := HandledIfReached(counted, other, SynFlood, InWindow(tcp, other, t.counted), t.first);
        HandledOther(first, other, ProbeSaturation, DistinctPorts(probe, other), t.second, ip);
    }
  }

  lemma {:induction false} SampledAllUntouched(s: Detector, conns: seq<Connection>, ip: Ip)
    requires ip in s.allowlist
    ensures Untouched(s, SampledAll(s, conns), ip) && SampledAll(s, conns).allowlist == s.allowlist
  {
    if conns == [] {
    } else {
      var (before, conn) := (SampledAll(s, conns[..|conns| - 1]), conns[|conns| - 1]);
      SampledAllUntouched(s, conns[..|conns| - 1], ip);
      if Watched(before.allowlist, conn) {
        OtherOpUntouched(before.udp, Record(conn.remote.value, conn.localPort, conn.at), ip);
        OtherOpUntouched(before.tcp, Record(conn.remote.value, conn.remotePort, conn.at), ip);
        OtherOpUntouched(before.probe, Record(conn.remote.value, conn.remotePort, conn.probedAt), ip);
      }
    }
  }

  lemma CheckedUntouched(s: Detector, c: Check, ip: Ip)
    requires ip in s.allowlist
    ensures Untouched(s, Checked(s, c), ip)
  {
    if c.ip !in s.allowlist {
      OtherOpUntouched(s.tcp, Count(c.ip, c.counted), ip);
      OtherOpUntouched(s.udp, Count(c.ip, c.udpCounted), ip);
      var counted := s.(tcp := s.tcp + [Count(c.ip, c.counted)], udp := s.udp + [Count(c.ip, c.udpCounted)],
                        clock := c.udpCounted);
      HandledOther(counted, c.ip, SynFlood, InWindow(s.tcp, c.ip, c.counted), c.first, ip);
      var syn := HandledIfReached(counted, c.ip, SynFlood, InWindow(s.tcp, c.ip, c.counted), c.first);
      HandledOther(syn, c.ip, UdpFlood, InWindow(s.udp, c.ip, c.udpCounted), c.second, ip);
      var udp := HandledIfReached(syn, c.ip, UdpFlood, InWindow(s.udp, c.ip, c.udpCounted), c.second);
      HandledOther(udp, c.ip, ProbeSaturation, DistinctPorts(s.probe, c.ip), c.third, ip);
    }
  }

  lemma {:induction false} CheckedAllUntouched(s: Detector, checks: seq<Check>, ip: Ip)
    requires ip in s.allowlist
    ensures Untouched(s, CheckedAll(s, checks), ip)
  {
    if checks == [] {
    } else {
      CheckedAllUntouched(s, checks[..|checks| - 1], ip);
      CheckedUntouched(CheckedAll(s, checks[..|checks| - 1]), checks[|checks| - 1], ip);
    }
  }

  lemma EvictUntouched(s: Detector, tcpAt: Seconds, udpAt: Seconds, probeAt: Seconds, ip: Ip)
    requires ip in s.allowlist
    ensures Untouched(s, Evicted(s, tcpAt, udpAt, probeAt), ip)
  {
    hide Times, Log;
    OtherOpUntouched(s.tcp, Evict(tcpAt), ip);
    OtherOpUntouched(s.udp, Evict(udpAt), ip);
    OtherOpUntouched(s.probe, Evict(probeAt), ip);
  }

  lemma StepUntouched(s: Detector, a: Action, ip: Ip)
    requires ip in s.allowlist && a != RemoveFromAllowlist(ip)
    ensures Untouched(s, Step(s, a), ip)
  {
    hide Packet, CheckedAll, SampledAll, Evicted, Times;
    match a
    case RecordPacket(other, protocol, port, t) => PacketUntouched(s, other, protocol, port, t, ip);
    case Scan(conns, tableAt, checks) =>
      SampledAllUntouched(s, conns, ip);
      CheckedAllUntouched(TableChecked(SampledAll(s, conns), |conns|, tableAt), checks, ip);
    case EvictStale(tcpAt, udpAt, probeAt) => EvictUntouched(s, tcpAt, udpAt, probeAt, ip);
    case AddToAllowlist(_) =>
    case RemoveFromAllowlist(_) =>
  }

  /** An ip that stays on the allowlist is never recorded, blamed or blocked. */
  lemma {:induction false} AllowlistedIsUntouched(s: Detector, actions: seq<Action>, s': Detector, ip: Ip)
    requires Run(s, actions, s') && ip in s.allowlist && RemoveFromAllowlist(ip) !in actions
    ensures Untouched(s, s', ip)
    decreases |actions|
  {
    if actions == [] {
    } else {
      StepUntouched(s, actions[0], ip);
      AllowlistedIsUntouched(Step(s, actions[0]), actions[1..], s', ip);
    }
  }

  lemma {:induction false} RunExtends(s: Detector, actions: seq<Action>, s': Detector, a: Action)
    requires Run(s, actions, s') && Enabled(s', a)
    ensures Run(s, actions + [a], Step(s', a))
    decreases |actions|
  {
    if actions == [] {
      assert [a][1..] == [];
    } else {
      RunExtends(Step(s, actions[0]), actions[1..], s', a);
      assert (actions + [a])[1..] == actions[1..] + [a];
    }
  }
}
