/**
 The flood detector over full logs: what `FloodGuardAgent` would do if its four counters kept every
 call and recounted. Each step takes the clock readings that the code makes during it.
 */
module FloodDetector {
  import opened Wrappers
  import opened SlidingCounters

  const SYN_FLOOD_THRESHOLD := 60
  const UDP_FLOOD_THRESHOLD := 120
  const ICMP_FLOOD_THRESHOLD := 80
  const PROBE_SATURATION_THRESHOLD := 30
  const TABLE_EXHAUSTION_WARNING := 800
  const WINDOW_SECONDS := 10.0
  const SUPPRESS_WINDOW := 30.0
  const TABLE_SUPPRESS_WINDOW := 60.0
  const HISTORY_LIMIT := 5000
  const HISTORY_KEPT := 2500

  datatype FloodType = SynFlood | UdpFlood | IcmpFlood | ProbeSaturation

  function Threshold(t: FloodType): nat {
    match t
    case SynFlood => SYN_FLOOD_THRESHOLD
    case UdpFlood => UDP_FLOOD_THRESHOLD
    case IcmpFlood => ICMP_FLOOD_THRESHOLD
    case ProbeSaturation => PROBE_SATURATION_THRESHOLD
  }

  function Name(t: FloodType): string {
    match t
    case SynFlood => "syn_flood"
    case UdpFlood => "udp_flood"
    case IcmpFlood => "icmp_flood"
    case ProbeSaturation => "probe_saturation"
  }

  const TABLE_KEY := "table_exhaustion"

  /** The suppression key; one table holds the keys of all flood types and the table warning. */
  function SuppressionKey(t: FloodType, ip: Ip): string {
    Name(t) + ":" + ip
  }

  lemma KeysDiffer(t: FloodType, ip: Ip, t': FloodType, ip': Ip)
    ensures SuppressionKey(t, ip) == SuppressionKey(t', ip') ==> t == t' && ip == ip'
    ensures SuppressionKey(t, ip) != TABLE_KEY
  {
    var (k, k') := (SuppressionKey(t, ip), SuppressionKey(t', ip'));
    assert k[0] == Name(t)[0] && k'[0] == Name(t')[0];
    var n := |Name(t)| + 1;
    if k == k' { assert k[n..] == ip && k'[n..] == ip'; }
  }

  /** 1 hour, 6 hours, then permanent. */
  function BlockDuration(offence: nat): Option<nat> {
    if offence == 1 then Some(3600) else if offence == 2 then Some(21600) else None
  }

  /** A handled flood, as it is published; `number` is the counter in its event id. */
  datatype FloodEvent = FloodEvent(
    number: nat, floodType: FloodType, ip: Ip, count: nat, threshold: nat, duration: Option<nat>, at: Seconds)

  /** The alert for the IDS; `number` is the counter in its id, which the event and the block share. */
  datatype Alert = Alert(
    number: nat, floodType: FloodType, ip: Ip, count: nat, threshold: nat, offence: nat, duration: Option<nat>)

  datatype Block = Block(ip: Ip, duration: Option<nat>, alert: nat)

  /** Everything that handling a flood updates. */
  datatype Accounts = Accounts(
    offences: map<Ip, nat>,
    suppressed: map<string, Seconds>,
    history: seq<FloodEvent>,
    eventCounter: nat,
    alerts: seq<Alert>,           // alerts fired through the IDS
    blocks: seq<Block>,           // calls of the IPS
    published: seq<FloodEvent>,   // flood.detected on the bus
    tableWarnings: seq<Seconds>)  // flood.table_exhaustion on the bus

  datatype Detector = Detector(
    clock: Seconds,
    tcp: seq<Op>, udp: seq<Op>, icmp: seq<Op>, probe: seq<Op>,
    allowlist: set<Ip>,
    accounts: Accounts)

  function Get<K, V>(m: map<K, V>, k: K, default: V): V {
    if k in m then m[k] else default
  }

  function Trimmed(history: seq<FloodEvent>): seq<FloodEvent> {
    if |history| > HISTORY_LIMIT then history[|history| - HISTORY_KEPT..] else history
  }

  predicate Suppressed(a: Accounts, key: string, at: Seconds, window: Seconds) {
    at - Get(a.suppressed, key, 0.0) < window
  }

  /** `_handle_flood`. An unseen key counts as last fired at clock 0. */
  function Handled(a: Accounts, ip: Ip, t: FloodType, count: nat, at: Seconds): Accounts {
    var key := SuppressionKey(t, ip);
    if Suppressed(a, key, at, SUPPRESS_WINDOW) then a
    else
      var offence := Get(a.offences, ip, 0) + 1;
      var event := FloodEvent(a.eventCounter + 1, t, ip, count, Threshold(t), BlockDuration(offence), at);
      a.(suppressed := a.suppressed[key := at],
         offences := a.offences[ip := offence],
         eventCounter := a.eventCounter + 1,
         alerts := a.alerts
           + [Alert(a.eventCounter + 1, t, ip, count, Threshold(t), offence, BlockDuration(offence))],
         blocks := a.blocks + [Block(ip, BlockDuration(offence), a.eventCounter + 1)],
         history := Trimmed(a.history + [event]),
         published := a.published + [event])
  }

  function HandledIfReached(s: Detector, ip: Ip, t: FloodType, count: nat, at: Seconds): Detector {
    if count >= Threshold(t) then s.(clock := at, accounts := Handled(s.accounts, ip, t, count, at)) else s
  }

  /** Packets of `ip` in the whole log of a counter that are inside the window at `now`. */
  function InWindow(ops: seq<Op>, ip: Ip, now: Seconds): nat {
    CountSince(Log(ops), ip, now - WINDOW_SECONDS)
  }

  function DistinctPorts(ops: seq<Op>, ip: Ip): nat {
    |KeptPorts(WINDOW_SECONDS, ops, ip)|
  }

  // ----- record_packet

  datatype Protocol = Icmp | Udp | OtherProtocol

  /** When the packet is recorded, recorded as a probe, and counted, and when up to two floods are handled. */
  datatype Readings = Readings(
    recorded: Seconds, probed: Seconds, counted: Seconds, first: Seconds, second: Seconds)

  function Packet(s: Detector, ip: Ip, protocol: Protocol, port: nat, t: Readings): Detector {
    if ip in s.allowlist then s
    else
      match protocol
      case Icmp =>
        var icmp := s.icmp + [Record(ip, 0, t.recorded)];
        HandledIfReached(s.(icmp := icmp + [Count(ip, t.counted)], clock := t.counted),
                         ip, IcmpFlood, InWindow(icmp, ip, t.counted), t.first)
      case Udp =>
        var udp := s.udp + [Record(ip, port, t.recorded)];
        HandledIfReached(s.(udp := udp + [Count(ip, t.counted)], clock := t.counted),
                         ip, UdpFlood, InWindow(udp, ip, t.counted), t.first)
      case OtherProtocol =>
        var tcp := s.tcp + [Record(ip, port, t.recorded)];
        var probe := s.probe + [Record(ip, port, t.probed)];
        var counted := s.(tcp := tcp + [Count(ip, t.counted)], probe := probe, clock := t.counted);
        var first := HandledIfReached(counted, ip, SynFlood, InWindow(tcp, ip, t.counted), t.first);
        HandledIfReached(first, ip, ProbeSaturation, DistinctPorts(probe, ip), t.second)
  }

  // ----- _scan_connections

  /**
   One sampled connection, recorded at `at` and, unless it is UDP, as a probe at `probedAt`; `remote`
   is None where psutil gives no remote address.
   */
  datatype Connection = Connection(
    remote: Option<Ip>, remotePort: nat, localPort: nat, isUdp: bool, at: Seconds, probedAt: Seconds)

  predicate Watched(allowlist: set<Ip>, conn: Connection) {
    conn.remote.Some? && conn.remote.value !in allowlist
  }

  function Sampled(s: Detector, conn: Connection): Detector {
    if !Watched(s.allowlist, conn) then s
    else if conn.isUdp then
      s.(udp := s.udp + [Record(conn.remote.value, conn.localPort, conn.at)], clock := conn.at)
    else
      s.(tcp := s.tcp + [Record(conn.remote.value, conn.remotePort, conn.at)],
         probe := s.probe + [Record(conn.remote.value, conn.remotePort, conn.probedAt)], clock := conn.probedAt)
  }

  function SampledAll(s: Detector, conns: seq<Connection>): Detector {
    if conns == [] then s else Sampled(SampledAll(s, conns[..|conns| - 1]), conns[|conns| - 1])
  }

  function SeenIps(allowlist: set<Ip>, conns: seq<Connection>): set<Ip> {
    set conn | conn in conns && Watched(allowlist, conn) :: conn.remote.value
  }

  /** `_handle_table_exhaustion`. */
  function Warned(a: Accounts, at: Seconds): Accounts {
    if Suppressed(a, TABLE_KEY, at, TABLE_SUPPRESS_WINDOW) then a
    else a.(suppressed := a.suppressed[TABLE_KEY := at], tableWarnings := a.tableWarnings + [at])
  }

  function TableChecked(s: Detector, total: nat, at: Seconds): Detector {
    if total < TABLE_EXHAUSTION_WARNING then s else s.(clock := at, accounts := Warned(s.accounts, at))
  }

  /** One turn of the threshold loop, with the readings of its two counts and of up to three handlings. */
  datatype Check = Check(
    ip: Ip, counted: Seconds, udpCounted: Seconds, first: Seconds, second: Seconds, third: Seconds)

  function Checked(s: Detector, c: Check): Detector {
    if c.ip in s.allowlist then s
    else
      var counted := s.(tcp := s.tcp + [Count(c.ip, c.counted)], udp := s.udp + [Count(c.ip, c.udpCounted)],
                        clock := c.udpCounted);
      var syn := HandledIfReached(counted, c.ip, SynFlood, InWindow(s.tcp, c.ip, c.counted), c.first);
      var udp := HandledIfReached(syn, c.ip, UdpFlood, InWindow(s.udp, c.ip, c.udpCounted), c.second);
      HandledIfReached(udp, c.ip, ProbeSaturation, DistinctPorts(s.probe, c.ip), c.third)
  }

  function CheckedAll(s: Detector, checks: seq<Check>): Detector {
    if checks == [] then s else Checked(CheckedAll(s, checks[..|checks| - 1]), checks[|checks| - 1])
  }

  function Scanned(s: Detector, conns: seq<Connection>, tableAt: Seconds, checks: seq<Check>): Detector {
    CheckedAll(TableChecked(SampledAll(s, conns), |conns|, tableAt), checks)
  }

  /** The eviction of the polling loop; the ICMP counter is not evicted. */
  function Evicted(s: Detector, tcpAt: Seconds, udpAt: Seconds, probeAt: Seconds): Detector {
    s.(tcp := s.tcp + [Evict(tcpAt)], udp := s.udp + [Evict(udpAt)], probe := s.probe + [Evict(probeAt)],
       clock := probeAt)
  }

  // ----- runs

  datatype Action =
    | RecordPacket(ip: Ip, protocol: Protocol, port: nat, readings: Readings)
    | Scan(conns: seq<Connection>, tableAt: Seconds, checks: seq<Check>)
    | EvictStale(tcpAt: Seconds, udpAt: Seconds, probeAt: Seconds)
    | AddToAllowlist(ip: Ip)
    | RemoveFromAllowlist(ip: Ip)

  /** The reading before the i-th connection. */
  function Earlier(clock: Seconds, conns: seq<Connection>, i: nat): Seconds
    requires i <= |conns|
  {
    if i == 0 then clock else conns[i - 1].probedAt
  }

  predicate CheckInOrder(start: Seconds, checks: seq<Check>, i: nat)
    requires i < |checks|
  {
    var c := checks[i];
    (if i == 0 then start else checks[i - 1].third) <= c.counted <= c.udpCounted <= c.first
    <= c.second <= c.third
  }

  /** The clock readings of an action, in the order in which they are made, never go back. */
  predicate InOrder(clock: Seconds, a: Action) {
    match a
    case RecordPacket(_, _, _, t) => clock <= t.recorded <= t.probed <= t.counted <= t.first <= t.second
    case Scan(conns, tableAt, checks) =>
      && (forall i :: 0 <= i < |conns| ==> Earlier(clock, conns, i) <= conns[i].at <= conns[i].probedAt <= tableAt)
      && clock <= tableAt
      && forall i :: 0 <= i < |checks| ==> CheckInOrder(tableAt, checks, i)
    case EvictStale(tcpAt, udpAt, probeAt) => clock <= tcpAt <= udpAt <= probeAt
    case _ => true
  }

  /** The threshold loop visits every address seen exactly once, in some order. */
  ghost predicate Enabled(s: Detector, a: Action) {
    && InOrder(s.clock, a)
    && (a.Scan? ==>
         && (forall i, j :: 0 <= i < j < |a.checks| ==> a.checks[i].ip != a.checks[j].ip)
         && (set c | c in a.checks :: c.ip) == SeenIps(s.allowlist, a.conns))
  }

  function Step(s: Detector, a: Action): Detector {
    match a
    case RecordPacket(ip, protocol, port, t) => Packet(s, ip, protocol, port, t)
    case Scan(conns, tableAt, checks) => Scanned(s, conns, tableAt, checks)
    case EvictStale(tcpAt, udpAt, probeAt) => Evicted(s, tcpAt, udpAt, probeAt)
    case AddToAllowlist(ip) => s.(allowlist := s.allowlist + {ip})
    case RemoveFromAllowlist(ip) => s.(allowlist := s.allowlist - {ip})
  }

  /** Python's `allowlist or {...}`: an empty set given is replaced as well. */
  function Start(allowlist: set<Ip>, clock: Seconds): Detector {
    Detector(clock, [], [], [], [], if allowlist == {} then {"127.0.0.1", "::1"} else allowlist,
             Accounts(map[], map[], [], 0, [], [], [], []))
  }

  ghost predicate Run(s: Detector, actions: seq<Action>, s': Detector)
    decreases |actions|
  {
    if actions == [] then s' == s
    else Enabled(s, actions[0]) && Run(Step(s, actions[0]), actions[1..], s')
  }
}
