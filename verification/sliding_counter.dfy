/**
 `_SlidingCounter`: pruned per-IP deques and port sets, against the naive counter that keeps the
 whole log of calls and recounts it every time.
 */
module SlidingCounters {
  type Ip = string
  type Seconds = real

  datatype Op =
    | Record(ip: Ip, port: nat, at: Seconds)
    | Count(ip: Ip, at: Seconds)
    | Evict(at: Seconds)

  /** One recorded packet or connection. */
  datatype Seen = Seen(ip: Ip, port: nat, at: Seconds)

  // ----- the naive counter

  function Log(ops: seq<Op>): seq<Seen> {
    if ops == [] then []
    else
      var op := ops[|ops| - 1];
      Log(ops[..|ops| - 1]) + if op.Record? then [Seen(op.ip, op.port, op.at)] else []
  }

  function CountSince(log: seq<Seen>, ip: Ip, cutoff: Seconds): nat {
    if log == [] then 0
    else
      var last := log[|log| - 1];
      CountSince(log[..|log| - 1], ip, cutoff) + if last.ip == ip && last.at >= cutoff then 1 else 0
  }

  /** Where the log holds `ip` at or after `cutoff`. */
  function Places(log: seq<Seen>, ip: Ip, cutoff: Seconds): set<nat> {
    set i: nat | i < |log| && log[i].ip == ip && log[i].at >= cutoff
  }

  lemma NextPlace(log: seq<Seen>, ip: Ip, cutoff: Seconds)
    requires log != []
    ensures var (n, last) := (|log| - 1, log[|log| - 1]);
      Places(log, ip, cutoff)
        == Places(log[..n], ip, cutoff) + if last.ip == ip && last.at >= cutoff then {n} else {}
  {
    var (n, before) := (|log| - 1, log[..|log| - 1]);
    assert forall i: nat | i < n :: i in Places(before, ip, cutoff) <==> i in Places(log, ip, cutoff);
  }

  lemma {:induction false} CountSincePlaces(log: seq<Seen>, ip: Ip, cutoff: Seconds)
    ensures CountSince(log, ip, cutoff) == |Places(log, ip, cutoff)|
  {
    if log == [] {
      assert Places(log, ip, cutoff) == {};
    } else {
      var n: nat := |log| - 1;
      CountSincePlaces(log[..n], ip, cutoff);
      NextPlace(log, ip, cutoff);
      assert n !in Places(log[..n], ip, cutoff);
      hide Places;
    }
  }

  /** The distinct non-zero ports seen from `ip` at or after `cutoff`. */
  function PortsSince(log: seq<Seen>, ip: Ip, cutoff: Seconds): set<nat> {
    if log == [] then {}
    else
      var last := log[|log| - 1];
      PortsSince(log[..|log| - 1], ip, cutoff)
      + if last.ip == ip && last.at >= cutoff && last.port != 0 then {last.port} else {}
  }

  /** The distinct ports of `ip` since the last eviction that found no packet of it in the window. */
  function KeptPorts(window: Seconds, ops: seq<Op>, ip: Ip): set<nat> {
    if ops == [] then {}
    else
      var (before, op) := (ops[..|ops| - 1], ops[|ops| - 1]);
      var kept := KeptPorts(window, before, ip);
      match op
      case Record(source, port, _) => if source == ip && port != 0 then kept + {port} else kept
      case Count(_, _) => kept
      case Evict(at) => if CountSince(Log(before), ip, at - window) == 0 then {} else kept
  }

  /** The last clock reading. */
  function Clock(ops: seq<Op>): Seconds {
    if ops == [] then 0.0 else ops[|ops| - 1].at
  }

  ghost predicate NotAfter(ops: seq<Op>, now: Seconds) {
    ops != [] ==> Clock(ops) <= now
  }

  /** The clock never went back. */
  ghost predicate Ordered(ops: seq<Op>) {
    ops == [] || (Ordered(ops[..|ops| - 1]) && NotAfter(ops[..|ops| - 1], Clock(ops)))
  }

  // ----- the log restricted to one ip

  function Times(log: seq<Seen>, ip: Ip): seq<Seconds> {
    if log == [] then []
    else
      var last := log[|log| - 1];
      Times(log[..|log| - 1], ip) + if last.ip == ip then [last.at] else []
  }

  function AtLeast(times: seq<Seconds>, cutoff: Seconds): nat {
    if times == [] then 0
    else AtLeast(times[..|times| - 1], cutoff) + if times[|times| - 1] >= cutoff then 1 else 0
  }

  lemma {:induction false} CountSinceIsAtLeast(log: seq<Seen>, ip: Ip, cutoff: Seconds)
    ensures CountSince(log, ip, cutoff) == AtLeast(Times(log, ip), cutoff)
  {
    if log == [] {
    } else {
      CountSinceIsAtLeast(log[..|log| - 1], ip, cutoff);
      var (before, last) := (Times(log[..|log| - 1], ip), log[|log| - 1]);
      assert (before + [last.at])[..|before|] == before && before + [] == before;
    }
  }

  lemma {:induction false} AtLeastConcat(a: seq<Seconds>, b: seq<Seconds>, cutoff: Seconds)
    ensures AtLeast(a + b, cutoff) == AtLeast(a, cutoff) + AtLeast(b, cutoff)
  {
    if b == [] {
      assert a + b == a;
    } else {
      assert (a + b)[..|a + b| - 1] == a + b[..|b| - 1];
      AtLeastConcat(a, b[..|b| - 1], cutoff);
    }
  }

  lemma {:induction false} AtLeastExtremes(times: seq<Seconds>, cutoff: Seconds)
    ensures (forall i :: 0 <= i < |times| ==> times[i] < cutoff) ==> AtLeast(times, cutoff) == 0
    ensures (forall i :: 0 <= i < |times| ==> times[i] >= cutoff) ==> AtLeast(times, cutoff) == |times|
  {
    if times == [] {
    } else {
      AtLeastExtremes(times[..|times| - 1], cutoff);
    }
  }

  // ----- the deque of one ip

  ghost predicate Sorted(q: seq<Seconds>) {
    forall i, j :: 0 <= i < j < |q| ==> q[i] <= q[j]
  }

  /** `q` is what is left of `all` after dropping from the left only entries older than `horizon`. */
  ghost predicate Remains(q: seq<Seconds>, all: seq<Seconds>, horizon: Seconds) {
    && |q| <= |all|
    && all[|all| - |q|..] == q
    && forall i :: 0 <= i < |all| - |q| ==> all[i] < horizon
  }

  /** Once the front of a sorted deque is recent, its length is the number of recent entries of the log. */
  lemma RemainsCounts(q: seq<Seconds>, all: seq<Seconds>, cutoff: Seconds)
    requires Remains(q, all, cutoff) && Sorted(q) && (q == [] || q[0] >= cutoff)
    ensures |q| == AtLeast(all, cutoff)
  {
    var k := |all| - |q|;
    assert all == all[..k] + q;
    AtLeastConcat(all[..k], q, cutoff);
    AtLeastExtremes(all[..k], cutoff);
    AllRecent(q, cutoff);
    AtLeastExtremes(q, cutoff);
  }

  lemma AllRecent(q: seq<Seconds>, cutoff: Seconds)
    requires Sorted(q) && (q == [] || q[0] >= cutoff)
    ensures forall i :: 0 <= i < |q| ==> q[i] >= cutoff
  {
  }

  /** The deque and the port set of one ip agree with the log. */
  ghost predicate Tracks(window: Seconds, ops: seq<Op>, ip: Ip, q: seq<Seconds>, kept: set<nat>) {
    Remains(q, Times(Log(ops), ip), Clock(ops) - window) && kept == KeptPorts(window, ops, ip)
  }

  ghost predicate Represents(window: Seconds, ops: seq<Op>, events: map<Ip, seq<Seconds>>, ports: map<Ip, set<nat>>) {
    && Ordered(ops)
    && ports.Keys <= events.Keys
    && forall ip :: Tracks(window, ops, ip, Deque(events, ip), Ports(ports, ip))
  }

  function Deque(events: map<Ip, seq<Seconds>>, ip: Ip): seq<Seconds> {
    if ip in events then events[ip] else []
  }

  function Ports(ports: map<Ip, set<nat>>, ip: Ip): set<nat> {
    if ip in ports then ports[ip] else {}
  }

  // ----- what each operation keeps

  lemma TimesOfNext(ops: seq<Op>, op: Op, ip: Ip)
    ensures (ops + [op])[..|ops|] == ops
    ensures Times(Log(ops + [op]), ip)
      == Times(Log(ops), ip) + if op.Record? && op.ip == ip then [op.at] else []
  {
    assert (ops + [op])[..|ops|] == ops;
    if op.Record? {
      assert (Log(ops) + [Seen(op.ip, op.port, op.at)])[..|Log(ops)|] == Log(ops);
    } else {
      assert Log(ops) + [] == Log(ops);
    }
  }

  lemma {:induction false} TimesSorted(ops: seq<Op>, ip: Ip)
    requires Ordered(ops)
    ensures Sorted(Times(Log(ops), ip))
    ensures forall i :: 0 <= i < |Times(Log(ops), ip)| ==> Times(Log(ops), ip)[i] <= Clock(ops)
  {
    NoTimes(ip);
    hide Times, Log;
    if ops == [] {
    } else {
      var (before, op) := (ops[..|ops| - 1], ops[|ops| - 1]);
      TimesSorted(before, ip);
      assert before + [op] == ops;
      TimesOfNext(before, op, ip);
    }
  }

  lemma NoTimes(ip: Ip)
    ensures Times(Log([]), ip) == []
  {
  }

  lemma TracksRecord(window: Seconds, ops: seq<Op>, op: Op, ip: Ip, q: seq<Seconds>, kept: set<nat>)
    requires op.Record? && NotAfter(ops, op.at) && Tracks(window, ops, ip, q, kept)
    ensures Tracks(window, ops + [op], ip,
      if op.ip == ip then q + [op.at] else q,
      if op.ip == ip && op.port != 0 then kept + {op.port} else kept)
  {
    hide Times, Log, KeptPorts, Remains;
    NoTimes(ip);
    TimesOfNext(ops, op, ip);
    KeptOfNext(window, ops, op, ip);
    RemainsLonger(q, Times(Log(ops), ip), if op.ip == ip then [op.at] else [], Clock(ops) - window, op.at - window);
    if op.ip != ip { assert q + [] == q; }
  }

  lemma RemainsLonger(q: seq<Seconds>, all: seq<Seconds>, more: seq<Seconds>, horizon: Seconds, later: Seconds)
    requires Remains(q, all, horizon) && (horizon <= later || all == [])
    ensures Remains(q + more, all + more, later)
  {
  }

  /** What one more operation does to the kept ports. */
  lemma KeptOfNext(window: Seconds, ops: seq<Op>, op: Op, ip: Ip)
    ensures Clock(ops + [op]) == op.at
    ensures var (kept, next) := (KeptPorts(window, ops, ip), KeptPorts(window, ops + [op], ip));
      match op
      case Record(source, port, _) => next == if source == ip && port != 0 then kept + {port} else kept
      case Count(_, _) => next == kept
      case Evict(at) => next == if CountSince(Log(ops), ip, at - window) == 0 then {} else kept
  {
  }

  lemma TracksCount(window: Seconds, ops: seq<Op>, op: Op, ip: Ip, q: seq<Seconds>, kept: set<nat>)
    requires op.Count? && kept == KeptPorts(window, ops, ip)
    requires Remains(q, Times(Log(ops), ip), op.at - window)
    ensures Tracks(window, ops + [op], ip, q, kept)
  {
    hide Times, Log, KeptPorts;
    TimesOfNext(ops, op, ip);
    KeptOfNext(window, ops, op, ip);
  }

  lemma RemainsLater(window: Seconds, ops: seq<Op>, ip: Ip, q: seq<Seconds>, kept: set<nat>, now: Seconds)
    requires NotAfter(ops, now) && Tracks(window, ops, ip, q, kept)
    ensures Remains(q, Times(Log(ops), ip), now - window)
  {
  }

  lemma RemainsShorter(q: seq<Seconds>, all: seq<Seconds>, horizon: Seconds)
    requires Remains(q, all, horizon) && q != [] && q[0] < horizon
    ensures Remains(q[1..], all, horizon)
  {
  }

  /** The eviction test reads one entry, yet decides whether the log has any recent packet of the ip. */
  lemma StaleHasNoRecent(window: Seconds, ops: seq<Op>, ip: Ip, q: seq<Seconds>, kept: set<nat>, now: Seconds)
    requires Ordered(ops) && NotAfter(ops, now) && Tracks(window, ops, ip, q, kept)
    ensures CountSince(Log(ops), ip, now - window) == 0 <==> q == [] || q[|q| - 1] < now - window
    ensures CountSince(Log(ops), ip, now - window) == 0 ==> Remains([], Times(Log(ops), ip), now - window)
  {
    hide Times, Log, CountSince, KeptPorts;
    var (cutoff, all) := (now - window, Times(Log(ops), ip));
    CountSinceIsAtLeast(Log(ops), ip, cutoff);
    TimesSorted(ops, ip);
    RemainsLater(window, ops, ip, q, kept, now);
    if q == [] || q[|q| - 1] < cutoff {
      forall i | 0 <= i < |all| ensures all[i] < cutoff {
        if q != [] && i >= |all| - |q| { assert all[i] <= all[|all| - 1] == q[|q| - 1]; }
      }
      AtLeastExtremes(all, cutoff);
    } else {
      assert all[|all| - 1] == q[|q| - 1];
    }
  }

  lemma TracksEvict(window: Seconds, ops: seq<Op>, op: Op, ip: Ip, q: seq<Seconds>, kept: set<nat>)
    requires op.Evict? && Ordered(ops) && NotAfter(ops, op.at) && Tracks(window, ops, ip, q, kept)
    ensures var stale := q == [] || q[|q| - 1] < op.at - window;
      Tracks(window, ops + [op], ip, if stale then [] else q, if stale then {} else kept)
  {
    hide Times, Log, KeptPorts, CountSince;
    StaleHasNoRecent(window, ops, ip, q, kept, op.at);
    RemainsLater(window, ops, ip, q, kept, op.at);
    TimesOfNext(ops, op, ip);
    KeptOfNext(window, ops, op, ip);
  }

  lemma OrderedExtends(ops: seq<Op>, op: Op)
    requires Ordered(ops) && NotAfter(ops, op.at)
    ensures Ordered(ops + [op])
  {
  }

  lemma RepresentsRecord(
    window: Seconds, ops: seq<Op>, events: map<Ip, seq<Seconds>>, ports: map<Ip, set<nat>>, op: Op)
    requires op.Record? && Represents(window, ops, events, ports) && NotAfter(ops, op.at)
    ensures Represents(window, ops + [op],
      events[op.ip := Deque(events, op.ip) + [op.at]],
      if op.port != 0 then ports[op.ip := Ports(ports, op.ip) + {op.port}] else ports)
  {
    hide Times, Log, KeptPorts, Ordered, Remains;
    var events' := events[op.ip := Deque(events, op.ip) + [op.at]];
    var ports' := if op.port != 0 then ports[op.ip := Ports(ports, op.ip) + {op.port}] else ports;
    forall ip ensures Tracks(window, ops + [op], ip, Deque(events', ip), Ports(ports', ip)) {
      RecordOneIp(window, ops, events, ports, op, ip);
    }
    OrderedExtends(ops, op);
  }

  lemma RecordOneIp(
    window: Seconds, ops: seq<Op>, events: map<Ip, seq<Seconds>>, ports: map<Ip, set<nat>>, op: Op, ip: Ip)
    requires op.Record? && Tracks(window, ops, ip, Deque(events, ip), Ports(ports, ip)) && NotAfter(ops, op.at)
    ensures var events' := events[op.ip := Deque(events, op.ip) + [op.at]];
      var ports' := if op.port != 0 then ports[op.ip := Ports(ports, op.ip) + {op.port}] else ports;
      Tracks(window, ops + [op], ip, Deque(events', ip), Ports(ports', ip))
  {
    TracksRecord(window, ops, op, ip, Deque(events, ip), Ports(ports, ip));
  }

  lemma RepresentsCount(
    window: Seconds, ops: seq<Op>, events: map<Ip, seq<Seconds>>, ports: map<Ip, set<nat>>, op: Op, q: seq<Seconds>)
    requires op.Count? && Represents(window, ops, events, ports) && NotAfter(ops, op.at)
    requires Remains(q, Times(Log(ops), op.ip), op.at - window)
    ensures Represents(window, ops + [op], events[op.ip := q], ports)
  {
    hide Times, Log, KeptPorts, Ordered, Remains;
    forall ip ensures Tracks(window, ops + [op], ip, Deque(events[op.ip := q], ip), Ports(ports, ip)) {
      assert Tracks(window, ops, ip, Deque(events, ip), Ports(ports, ip));
      RemainsLater(window, ops, ip, Deque(events, ip), Ports(ports, ip), op.at);
      TracksCount(window, ops, op, ip, Deque(events[op.ip := q], ip), Ports(ports, ip));
    }
    OrderedExtends(ops, op);
  }

  function StaleIps(events: map<Ip, seq<Seconds>>, cutoff: Seconds): set<Ip> {
    set ip | ip in events && (events[ip] == [] || events[ip][|events[ip]| - 1] < cutoff)
  }

  lemma RepresentsEvict(
    window: Seconds, ops: seq<Op>, events: map<Ip, seq<Seconds>>, ports: map<Ip, set<nat>>, op: Op)
    requires op.Evict? && Represents(window, ops, events, ports) && NotAfter(ops, op.at)
    ensures var stale := StaleIps(events, op.at - window);
      Represents(window, ops + [op], events - stale, ports - stale)
  {
    hide Times, Log, KeptPorts, Remains;
    var stale := StaleIps(events, op.at - window);
    forall ip ensures Tracks(window, ops + [op], ip, Deque(events - stale, ip), Ports(ports - stale, ip)) {
      assert Tracks(window, ops, ip, Deque(events, ip), Ports(ports, ip));
      TracksEvict(window, ops, op, ip, Deque(events, ip), Ports(ports, ip));
    }
    OrderedExtends(ops, op);
  }

  class SlidingCounter {
    const window: Seconds
    var events: map<Ip, seq<Seconds>>
    var portSets: map<Ip, set<nat>>
    ghost var ops: seq<Op>

    ghost predicate Valid()
      reads this
    {
      Represents(window, ops, events, portSets)
    }

    constructor (window: Seconds)
      ensures Valid() && this.window == window && ops == []
    {
      this.window := window;
      events, portSets, ops := map[], map[], [];
    }

    method Record(ip: Ip, destPort: nat, now: Seconds)
      requires Valid() && NotAfter(ops, now)
      modifies this
      ensures Valid() && ops == old(ops) + [Op.Record(ip, destPort, now)]
    {
      hide Times, Log, KeptPorts, Ordered, Remains;
      RepresentsRecord(window, ops, events, portSets, Op.Record(ip, destPort, now));
      events := events[ip := Deque(events, ip) + [now]];
      if destPort != 0 {
        portSets := portSets[ip := Ports(portSets, ip) + {destPort}];
      }
      ops := ops + [Op.Record(ip, destPort, now)];
    }

    /** `count`: the answer is the number of packets of the full log inside the window. */
    method Count(ip: Ip, now: Seconds) returns (n: nat)
      requires Valid() && NotAfter(ops, now)
      modifies this
      ensures Valid() && ops == old(ops) + [Op.Count(ip, now)]
      ensures n == CountSince(Log(old(ops)), ip, now - window)
    {
      hide Times, Log, KeptPorts, CountSince, AtLeast, Ordered, Sorted, Remains;
      ghost var all := Times(Log(ops), ip);
      assert Tracks(window, ops, ip, Deque(events, ip), Ports(portSets, ip));
      RemainsLater(window, ops, ip, Deque(events, ip), Ports(portSets, ip), now);
      TimesSorted(ops, ip);
      var q := DropStale(Deque(events, ip), now - window, all);
      CountSinceIsAtLeast(Log(ops), ip, now - window);
      RepresentsCount(window, ops, events, portSets, Op.Count(ip, now), q);
      events := events[ip := q];
      ops := ops + [Op.Count(ip, now)];
      n := |q|;
    }

    method UniquePorts(ip: Ip) returns (n: nat)
      requires Valid()
      ensures n == |KeptPorts(window, ops, ip)|
    {
      assert Tracks(window, ops, ip, Deque(events, ip), Ports(portSets, ip));
      n := |Ports(portSets, ip)|;
    }

    method EvictStale(now: Seconds)
      requires Valid() && NotAfter(ops, now)
      modifies this
      ensures Valid() && ops == old(ops) + [Op.Evict(now)]
    {
      RepresentsEvict(window, ops, events, portSets, Op.Evict(now));
      var stale := StaleIps(events, now - window);
      events := events - stale;
      portSets := portSets - stale;
      ops := ops + [Op.Evict(now)];
    }
  }

  /** The loop of `count`: what it keeps are exactly the recent entries of the whole log. */
  method DropStale(deque: seq<Seconds>, cutoff: Seconds, ghost all: seq<Seconds>) returns (q: seq<Seconds>)
    requires Remains(deque, all, cutoff) && Sorted(all)
    ensures Remains(q, all, cutoff)
    ensures |q| == AtLeast(all, cutoff)
  {
    q := deque;
    while q != [] && q[0] < cutoff
      invariant Remains(q, all, cutoff)
      decreases |q|
    {
      RemainsShorter(q, all, cutoff);
      q := q[1..];
    }
    RemainsSorted(q, all, cutoff);
    RemainsCounts(q, all, cutoff);
  }

  lemma RemainsSorted(q: seq<Seconds>, all: seq<Seconds>, horizon: Seconds)
    requires Remains(q, all, horizon) && Sorted(all)
    ensures Sorted(q)
  {
  }

  /** Eviction never hides a port scan: every distinct port of the current window is still counted. */
  lemma {:induction false} WindowPortsAreKept(window: Seconds, ops: seq<Op>, ip: Ip, cutoff: Seconds)
    requires Ordered(ops) && ops != [] && cutoff >= Clock(ops) - window
    ensures PortsSince(Log(ops), ip, cutoff) <= KeptPorts(window, ops, ip)
  {
    var (before, op) := (ops[..|ops| - 1], ops[|ops| - 1]);
    assert before == [] ==> PortsSince(Log(before), ip, cutoff) == {};
    hide Log, KeptPorts, PortsSince, CountSince;
    if before == [] {
    } else {
      WindowPortsAreKept(window, before, ip, cutoff);
    }
    assert before + [op] == ops;
    PortsOfNext(before, op, ip, cutoff);
    KeptOfNext(window, before, op, ip);
    if op.Evict? && CountSince(Log(before), ip, op.at - window) == 0 {
      NoneCountedNoPorts(Log(before), ip, op.at - window, cutoff);
    }
  }

  lemma PortsOfNext(ops: seq<Op>, op: Op, ip: Ip, cutoff: Seconds)
    ensures PortsSince(Log(ops + [op]), ip, cutoff) == PortsSince(Log(ops), ip, cutoff)
      + if op.Record? && op.ip == ip && op.at >= cutoff && op.port != 0 then {op.port} else {}
  {
    assert (ops + [op])[..|ops|] == ops;
    if op.Record? {
      assert (Log(ops) + [Seen(op.ip, op.port, op.at)])[..|Log(ops)|] == Log(ops);
    } else {
      assert Log(ops) + [] == Log(ops);
    }
  }

  lemma {:induction false} NoneCountedNoPorts(log: seq<Seen>, ip: Ip, cutoff: Seconds, later: Seconds)
    requires CountSince(log, ip, cutoff) == 0 && cutoff <= later
    ensures PortsSince(log, ip, later) == {}
  {
    if log == [] {
    } else {
      NoneCountedNoPorts(log[..|log| - 1], ip, cutoff, later);
    }
  }

  // ----- when the kept ports are those of the window

  /** The traffic since the last eviction that emptied the ip. */
  function SinceEmptied(window: Seconds, ops: seq<Op>, ip: Ip): seq<Seen> {
    if ops == [] then []
    else
      var (before, op) := (ops[..|ops| - 1], ops[|ops| - 1]);
      match op
      case Record(source, port, at) => SinceEmptied(window, before, ip) + [Seen(source, port, at)]
      case Count(_, _) => SinceEmptied(window, before, ip)
      case Evict(at) =>
        if CountSince(Log(before), ip, at - window) == 0 then [] else SinceEmptied(window, before, ip)
  }

  /** The distinct non-zero ports that `ip` visited in this traffic. */
  function PortsOf(traffic: seq<Seen>, ip: Ip): set<nat> {
    if traffic == [] then {}
    else
      var last := traffic[|traffic| - 1];
      PortsOf(traffic[..|traffic| - 1], ip) + if last.ip == ip && last.port != 0 then {last.port} else {}
  }

  lemma NextVisit(traffic: seq<Seen>, seen: Seen, ip: Ip, cutoff: Seconds)
    ensures PortsOf(traffic + [seen], ip)
      == PortsOf(traffic, ip) + if seen.ip == ip && seen.port != 0 then {seen.port} else {}
    ensures PortsSince(traffic + [seen], ip, cutoff)
      == PortsSince(traffic, ip, cutoff)
       + if seen.ip == ip && seen.at >= cutoff && seen.port != 0 then {seen.port} else {}
  {
    assert (traffic + [seen])[..|traffic|] == traffic;
  }

  lemma {:induction false} PortsOfIff(traffic: seq<Seen>, ip: Ip, port: nat)
    ensures port in PortsOf(traffic, ip) <==>
      exists seen :: seen in traffic && seen.ip == ip && seen.port == port && port != 0
  {
    if traffic == [] {
    } else {
      PortsOfIff(traffic[..|traffic| - 1], ip, port);
    }
  }

  /** The kept ports are those visited since an eviction last emptied the ip. */
  lemma {:induction false} KeptPortsVisited(window: Seconds, ops: seq<Op>, ip: Ip)
    ensures KeptPorts(window, ops, ip) == PortsOf(SinceEmptied(window, ops, ip), ip)
  {
    hide Log, CountSince;
    if ops == [] {
    } else {
      var (before, op) := (ops[..|ops| - 1], ops[|ops| - 1]);
      KeptPortsVisited(window, before, ip);
      if op.Record? {
        NextVisit(SinceEmptied(window, before, ip), Seen(op.ip, op.port, op.at), ip, 0.0);
      }
    }
  }

  lemma NothingSeen(window: Seconds, ip: Ip, cutoff: Seconds)
    ensures Log([]) == [] && SinceEmptied(window, [], ip) == [] && PortsSince([], ip, cutoff) == {}
  {
  }

  lemma SinceOfNext(window: Seconds, ops: seq<Op>, op: Op, ip: Ip)
    ensures var (since, next) := (SinceEmptied(window, ops, ip), SinceEmptied(window, ops + [op], ip));
      match op
      case Record(source, port, at) => next == since + [Seen(source, port, at)]
      case Count(_, _) => next == since
      case Evict(at) => next == if CountSince(Log(ops), ip, at - window) == 0 then [] else since
  {
    assert (ops + [op])[..|ops|] == ops;
  }

  /** The window sees the same ports in the traffic since the last emptying eviction as in the whole log. */
  lemma {:induction false} WindowIsSince(window: Seconds, ops: seq<Op>, ip: Ip, cutoff: Seconds)
    requires Ordered(ops) && (ops != [] ==> cutoff >= Clock(ops) - window)
    ensures PortsSince(Log(ops), ip, cutoff) == PortsSince(SinceEmptied(window, ops, ip), ip, cutoff)
  {
    hide Log, PortsSince, CountSince, SinceEmptied;
    NothingSeen(window, ip, cutoff);
    if ops == [] {
    } else {
      var (before, op) := (ops[..|ops| - 1], ops[|ops| - 1]);
      assert before + [op] == ops;
      WindowIsSince(window, before, ip, cutoff);
      PortsOfNext(before, op, ip, cutoff);
      SinceOfNext(window, before, op, ip);
      if op.Evict? && CountSince(Log(before), ip, op.at - window) == 0 {
        NoneCountedNoPorts(Log(before), ip, op.at - window, cutoff);
      }
      if op.Record? {
        NextVisit(SinceEmptied(window, before, ip), Seen(op.ip, op.port, op.at), ip, cutoff);
      }
    }
  }

  /**
   The kept ports are exactly those of the window if and only if every visit since an eviction last
   emptied the ip was to a port that was visited in the window as well.
   */
  lemma KeptPortsAgreeIff(window: Seconds, ops: seq<Op>, ip: Ip, cutoff: Seconds)
    requires Ordered(ops) && ops != [] && cutoff >= Clock(ops) - window
    ensures var traffic := SinceEmptied(window, ops, ip);
      KeptPorts(window, ops, ip) == PortsSince(Log(ops), ip, cutoff) <==>
        forall seen | seen in traffic && seen.ip == ip && seen.port != 0 ::
          seen.port in PortsSince(traffic, ip, cutoff)
  {
    hide Log, KeptPorts, PortsSince, SinceEmptied, Ordered, PortsOf;
    var traffic := SinceEmptied(window, ops, ip);
    KeptPortsVisited(window, ops, ip);
    WindowIsSince(window, ops, ip, cutoff);
    WindowPortsAreKept(window, ops, ip, cutoff);
    forall port: nat
      ensures port in PortsOf(traffic, ip) <==>
        exists seen :: seen in traffic && seen.ip == ip && seen.port == port && port != 0
    {
      PortsOfIff(traffic, ip, port);
    }
  }

  /** One new port every 6 s, with an eviction 5 s after each. */
  function SlowVisits(ip: Ip, n: nat): seq<Op> {
    if n == 0 then []
    else SlowVisits(ip, n - 1) + [Op.Record(ip, n, 6.0 * n as real)] + [Op.Evict(6.0 * n as real + 5.0)]
  }

  function FirstPorts(n: nat): (r: set<nat>)
    ensures |r| == n && forall port :: port in r <==> 1 <= port <= n
  {
    if n == 0 then {} else FirstPorts(n - 1) + {n}
  }

  lemma LogOfNext(ops: seq<Op>, op: Op)
    ensures Log(ops + [op]) == Log(ops) + if op.Record? then [Seen(op.ip, op.port, op.at)] else []
  {
  }

  lemma {:induction false} OldPorts(log: seq<Seen>, ip: Ip, cutoff: Seconds)
    requires forall i :: 0 <= i < |log| ==> log[i].at < cutoff
    ensures PortsSince(log, ip, cutoff) == {}
  {
    if log == [] {
    } else {
      OldPorts(log[..|log| - 1], ip, cutoff);
    }
  }

  lemma LastIsCounted(log: seq<Seen>, seen: Seen, cutoff: Seconds)
    requires seen.at >= cutoff
    ensures CountSince(log + [seen], seen.ip, cutoff) > 0
  {
  }

  /** What is known of the counter and of its window after `n` slow visits. */
  ghost predicate CountedSlowly(ip: Ip, n: nat, ops: seq<Op>) {
    && Ordered(ops) && (if n == 0 then ops == [] else Clock(ops) == 6.0 * n as real + 5.0)
    && KeptPorts(10.0, ops, ip) == FirstPorts(n)
    && (forall i :: 0 <= i < |Log(ops)| ==> Log(ops)[i].at <= 6.0 * n as real)
    && (n > 0 ==> PortsSince(Log(ops), ip, Clock(ops) - 10.0) == {n})
  }

  lemma NextSlowVisit(ip: Ip, n: nat, before: seq<Op>)
    requires n > 0 && CountedSlowly(ip, n - 1, before)
    ensures CountedSlowly(
      ip, n, before + [Op.Record(ip, n, 6.0 * n as real)] + [Op.Evict(6.0 * n as real + 5.0)])
  {
    hide Log, KeptPorts, PortsSince, CountSince, Ordered;
    var at := 6.0 * n as real;
    var (record, evict) := (Op.Record(ip, n, at), Op.Evict(at + 5.0));
    var recorded := before + [record];
    OrderedExtends(before, record);
    KeptOfNext(10.0, before, record, ip);
    KeptOfNext(10.0, recorded, evict, ip);
    OrderedExtends(recorded, evict);
    LogOfNext(before, record);
    LogOfNext(recorded, evict);
    LastIsCounted(Log(before), Seen(ip, n, at), at - 5.0);
    OldPorts(Log(before), ip, at - 5.0);
    PortsOfNext(before, record, ip, at - 5.0);
    PortsOfNext(recorded, evict, ip, at - 5.0);
  }

  /** Such a visitor is counted with all the ports it ever saw, though the window only holds its last. */
  lemma {:induction false} SlowVisitorIsCounted(ip: Ip, n: nat)
    ensures CountedSlowly(ip, n, SlowVisits(ip, n))
    ensures |KeptPorts(10.0, SlowVisits(ip, n), ip)| == n
  {
    if n == 0 {
    } else {
      SlowVisitorIsCounted(ip, n - 1);
      NextSlowVisit(ip, n, SlowVisits(ip, n - 1));
    }
  }
}
