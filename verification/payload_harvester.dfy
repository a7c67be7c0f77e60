/** The registry of `PayloadHarvester`: names of harvested rules and their detection counts. */
module PayloadHarvesting {
  import opened Wrappers
  import opened Decimal

  const MIN_PAYLOAD := 5

  datatype HarvestedRule = HarvestedRule(
    pattern: string, vulnType: string, sourceIp: Option<string>, targetIp: string,
    successfulDetections: nat, failedDetections: nat)

  type Registry = map<string, HarvestedRule>

  /** What stays open: `str.upper` and the pattern templates, which may come out empty. */
  datatype Templates = Templates(upper: string -> string, pattern: (string, string) -> string)

  function NumberedName(t: Templates, vulnType: string, n: nat): string {
    "HARVESTED-" + t.upper(vulnType) + "-" + ToText(n)
  }

  function RuleName(t: Templates, vulnType: string, rules: Registry): string {
    NumberedName(t, vulnType, |rules| + 1)
  }

  /** Whether a harvest goes through. */
  predicate Harvestable(t: Templates, payload: string, vulnType: string) {
    |payload| >= MIN_PAYLOAD && t.pattern(payload, vulnType) != ""
  }

  // ----- the number at the end of a name

  /** The longest suffix of digits. */
  function DigitSuffix(s: string): (r: string)
    ensures AllDigits(r) && |r| <= |s|
  {
    if s == "" || !IsDigit(s[|s| - 1]) then ""
    else
      var r := DigitSuffix(s[..|s| - 1]) + [s[|s| - 1]];
      r
  }

  lemma {:induction false} DigitSuffixAfterDash(head: string, digits: string)
    requires AllDigits(digits) && head != "" && head[|head| - 1] == '-'
    ensures DigitSuffix(head + digits) == digits
  {
    if digits == "" {
      assert head + digits == head;
    } else {
      var n := |digits| - 1;
      assert (head + digits)[..|head + digits| - 1] == head + digits[..n];
      DigitSuffixAfterDash(head, digits[..n]);
    }
  }

  /** Whatever dashes and digits the vulnerability type holds, the number of a name can be read back. */
  lemma NumberOfName(prefix: string, n: nat)
    ensures FromText(DigitSuffix(prefix + "-" + ToText(n))) == n
  {
    DigitSuffixAfterDash(prefix + "-", ToText(n));
    RoundTrip(n);
  }

  function Number(name: string): nat {
    FromText(DigitSuffix(name))
  }

  // ----- the registry over whole runs

  function Detected(r: HarvestedRule, success: bool): HarvestedRule {
    if success then r.(successfulDetections := r.successfulDetections + 1)
    else r.(failedDetections := r.failedDetections + 1)
  }

  datatype Event =
    | Harvest(payload: string, vulnType: string, sourceIp: Option<string>, targetIp: string)
    | Detection(name: string, success: bool)

  function Step(t: Templates, rules: Registry, e: Event): Registry {
    match e
    case Harvest(payload, vulnType, sourceIp, targetIp) =>
      if !Harvestable(t, payload, vulnType) then rules
      else rules[RuleName(t, vulnType, rules) :=
                   HarvestedRule(t.pattern(payload, vulnType), vulnType, sourceIp, targetIp, 0, 0)]
    case Detection(name, success) =>
      if name in rules then rules[name := Detected(rules[name], success)] else rules
  }

  /** The registry after the events, from the one that was loaded. */
  function After(t: Templates, loaded: Registry, events: seq<Event>): Registry {
    if events == [] then loaded else Step(t, After(t, loaded, events[..|events| - 1]), events[|events| - 1])
  }

  function Harvests(t: Templates, events: seq<Event>): nat {
    if events == [] then 0
    else
      var e := events[|events| - 1];
      Harvests(t, events[..|events| - 1]) + if e.Harvest? && Harvestable(t, e.payload, e.vulnType) then 1 else 0
  }

  /** Detections reported for a name that was in the registry at the time. */
  function KnownDetections(t: Templates, loaded: Registry, events: seq<Event>): nat {
    if events == [] then 0
    else
      var (before, e) := (events[..|events| - 1], events[|events| - 1]);
      KnownDetections(t, loaded, before) + if e.Detection? && e.name in After(t, loaded, before) then 1 else 0
  }

  /** A sum over the rules, as `get_stats` takes it. */
  ghost function TotalOf(rules: Registry, of: HarvestedRule -> nat): nat
    decreases |rules|
  {
    if rules == map[] then 0
    else
      var name :| name in rules;
      of(rules[name]) + TotalOf(rules - {name}, of)
  }

  function DetectionsOf(r: HarvestedRule): nat {
    r.successfulDetections + r.failedDetections
  }

  function SuccessesOf(r: HarvestedRule): nat {
    r.successfulDetections
  }

  ghost function TotalDetections(rules: Registry): nat {
    TotalOf(rules, DetectionsOf)
  }

  lemma {:induction false} TotalWithout(rules: Registry, name: string, of: HarvestedRule -> nat)
    requires name in rules
    ensures TotalOf(rules, of) == of(rules[name]) + TotalOf(rules - {name}, of)
    decreases |rules|
  {
    var first :| first in rules && TotalOf(rules, of) == of(rules[first]) + TotalOf(rules - {first}, of);
    if first != name {
      TotalWithout(rules - {first}, name, of);
      TotalWithout(rules - {name}, first, of);
      assert rules - {first} - {name} == rules - {name} - {first};
    }
  }

  lemma HasName(rules: Registry)
    requires rules != map[]
    ensures exists name :: name in rules
  {
    var name :| name in rules;
  }

  lemma NoRules(of: HarvestedRule -> nat)
    ensures TotalOf(map[], of) == 0
  {
  }

  lemma TotalAfterUpdate(rules: Registry, name: string, r: HarvestedRule)
    ensures TotalDetections(rules[name := r]) + (if name in rules then DetectionsOf(rules[name]) else 0)
      == TotalDetections(rules) + DetectionsOf(r)
  {
    TotalWithout(rules[name := r], name, DetectionsOf);
    assert rules[name := r] - {name} == rules - {name};
    if name in rules { TotalWithout(rules, name, DetectionsOf); } else { assert rules - {name} == rules; }
  }

  // ----- when no harvest ever overwrites a rule

  predicate Overwrites(t: Templates, rules: Registry, e: Event) {
    e.Harvest? && Harvestable(t, e.payload, e.vulnType) && RuleName(t, e.vulnType, rules) in rules
  }

  ghost predicate NeverOverwrites(t: Templates, loaded: Registry) {
    forall events: seq<Event>, e: Event :: !Overwrites(t, After(t, loaded, events), e)
  }

  ghost predicate CanHarvest(t: Templates, vulnType: string) {
    exists payload :: Harvestable(t, payload, vulnType)
  }

  /** No stored name is one that a later harvest could be given. */
  ghost predicate NoneAhead(t: Templates, rules: Registry) {
    forall vulnType, n: nat :: n > |rules| && CanHarvest(t, vulnType) ==> NumberedName(t, vulnType, n) !in rules
  }

  /** Every name was loaded, or is numbered by its place in the registry. */
  ghost predicate Grown(loaded: Registry, rules: Registry) {
    && loaded.Keys <= rules.Keys && |loaded| <= |rules|
    && forall name :: name in rules ==> name in loaded || Number(name) <= |rules|
  }

  lemma NewNameIsFresh(t: Templates, loaded: Registry, rules: Registry, payload: string, vulnType: string)
    requires NoneAhead(t, loaded) && Grown(loaded, rules) && Harvestable(t, payload, vulnType)
    ensures RuleName(t, vulnType, rules) !in rules
    ensures Number(RuleName(t, vulnType, rules)) == |rules| + 1
  {
    NumberOfName("HARVESTED-" + t.upper(vulnType), |rules| + 1);
    assert CanHarvest(t, vulnType);
  }

  /** One event: a harvest inserts under a fresh name, a detection only counts. */
  lemma StepKeepsGrown(t: Templates, loaded: Registry, rules: Registry, e: Event)
    requires NoneAhead(t, loaded) && Grown(loaded, rules)
    ensures var rules' := Step(t, rules, e);
      && !Overwrites(t, rules, e) && Grown(loaded, rules')
      && |rules'| == |rules| + (if e.Harvest? && Harvestable(t, e.payload, e.vulnType) then 1 else 0)
      && TotalDetections(rules') == TotalDetections(rules) + (if e.Detection? && e.name in rules then 1 else 0)
  {
    hide NoneAhead, Number, RuleName, TotalDetections;
    match e
    case Harvest(payload, vulnType, sourceIp, targetIp) =>
      if Harvestable(t, payload, vulnType) {
        NewNameIsFresh(t, loaded, rules, payload, vulnType);
        TotalAfterUpdate(rules, RuleName(t, vulnType, rules),
          HarvestedRule(t.pattern(payload, vulnType), vulnType, sourceIp, targetIp, 0, 0));
      }
    case Detection(name, success) =>
      if name in rules {
        TotalAfterUpdate(rules, name, Detected(rules[name], success));
        assert rules[name := Detected(rules[name], success)].Keys == rules.Keys;
      }
  }

  /**
   From a registry with no name ahead no harvest ever overwrites a rule, for any vulnerability types:
   the registry grows by the number of successful harvests, and the statistics by every detection of
   a known rule. An empty registry has no name ahead.
   */
  lemma {:induction false} NoRuleIsLost(t: Templates, loaded: Registry, events: seq<Event>)
    requires NoneAhead(t, loaded)
    ensures Grown(loaded, After(t, loaded, events))
    ensures |After(t, loaded, events)| == |loaded| + Harvests(t, events)
    ensures TotalDetections(After(t, loaded, events)) == TotalDetections(loaded) + KnownDetections(t, loaded, events)
  {
    if events == [] {
    } else {
      hide NoneAhead, Grown, TotalDetections;
      NoRuleIsLost(t, loaded, events[..|events| - 1]);
      StepKeepsGrown(t, loaded, After(t, loaded, events[..|events| - 1]), events[|events| - 1]);
    }
  }

  // ----- every rule, from the events alone

  /** The name that the last event adds, if it is a harvest that goes through. */
  function NameAdded(t: Templates, loaded: Registry, events: seq<Event>): set<string>
    requires events != []
  {
    var e := events[|events| - 1];
    if e.Harvest? && Harvestable(t, e.payload, e.vulnType)
    then {NumberedName(t, e.vulnType, |loaded| + Harvests(t, events))}
    else {}
  }

  /** The names in the registry: those that were loaded, and the n-th name for the n-th rule harvested. */
  function NamesAfter(t: Templates, loaded: Registry, events: seq<Event>): set<string> {
    if events == [] then loaded.Keys
    else NamesAfter(t, loaded, events[..|events| - 1]) + NameAdded(t, loaded, events)
  }

  /** How often a detection of the rule was reported with this outcome while the rule was there. */
  function Reported(t: Templates, loaded: Registry, events: seq<Event>, name: string, success: bool): nat {
    if events == [] then 0
    else
      var (before, e) := (events[..|events| - 1], events[|events| - 1]);
      Reported(t, loaded, before, name, success)
      + if e == Detection(name, success) && name in NamesAfter(t, loaded, before) then 1 else 0
  }

  /** The rule as it was loaded, or as the harvest that made it says. */
  function Origin(t: Templates, loaded: Registry, events: seq<Event>, name: string): Option<HarvestedRule> {
    if name in loaded then Some(loaded[name])
    else if events == [] then None
    else
      var (before, e) := (events[..|events| - 1], events[|events| - 1]);
      if e.Harvest? && Harvestable(t, e.payload, e.vulnType)
         && name == NumberedName(t, e.vulnType, |loaded| + Harvests(t, events))
      then Some(HarvestedRule(t.pattern(e.payload, e.vulnType), e.vulnType, e.sourceIp, e.targetIp, 0, 0))
      else Origin(t, loaded, before, name)
  }

  ghost predicate Described(t: Templates, loaded: Registry, events: seq<Event>, name: string, r: HarvestedRule) {
    var origin := Origin(t, loaded, events, name);
    && origin.Some?
    && r.successfulDetections == origin.value.successfulDetections + Reported(t, loaded, events, name, true)
    && r.failedDetections == origin.value.failedDetections + Reported(t, loaded, events, name, false)
    && r.pattern == origin.value.pattern && r.vulnType == origin.value.vulnType
    && r.sourceIp == origin.value.sourceIp && r.targetIp == origin.value.targetIp
  }

  lemma {:induction false} NothingReported(
    t: Templates, loaded: Registry, events: seq<Event>, name: string, success: bool)
    requires name !in NamesAfter(t, loaded, events)
    ensures Reported(t, loaded, events, name, success) == 0
  {
    if events == [] {
    } else {
      NothingReported(t, loaded, events[..|events| - 1], name, success);
    }
  }

  /**
   From a registry with no name ahead, after any run: exactly these rules are there, each as it was
   loaded or harvested, with its successes and its failures each counted for itself.
   */
  lemma {:induction false} EveryRuleDescribed(t: Templates, loaded: Registry, events: seq<Event>)
    requires NoneAhead(t, loaded)
    ensures AllDescribed(t, loaded, events, After(t, loaded, events))
  {
    if events == [] {
    } else {
      hide AllDescribed, NoneAhead, Grown, NumberedName, Harvestable;
      var (before, e) := (events[..|events| - 1], events[|events| - 1]);
      var rules := After(t, loaded, before);
      EveryRuleDescribed(t, loaded, before);
      NoRuleIsLost(t, loaded, before);
      GrownKeeps(loaded, rules);
      if e.Harvest? && Harvestable(t, e.payload, e.vulnType) {
        NewNameIsFresh(t, loaded, rules, e.payload, e.vulnType);
        HarvestNext(t, loaded, events, rules, RuleName(t, e.vulnType, rules),
          HarvestedRule(t.pattern(e.payload, e.vulnType), e.vulnType, e.sourceIp, e.targetIp, 0, 0));
      } else if e.Detection? && e.name in rules {
        DetectionNext(t, loaded, events, rules);
      } else {
        NothingNext(t, loaded, events, rules);
      }
    }
  }

  lemma ReportedNext(t: Templates, loaded: Registry, events: seq<Event>, name: string, success: bool)
    requires events != []
    ensures var (before, e) := (events[..|events| - 1], events[|events| - 1]);
      Reported(t, loaded, events, name, success) == Reported(t, loaded, before, name, success)
        + if e == Detection(name, success) && name in NamesAfter(t, loaded, before) then 1 else 0
  {
  }

  /** An event about other rules leaves a description as it is. */
  lemma KeepsDescribed(t: Templates, loaded: Registry, events: seq<Event>, name: string, r: HarvestedRule)
    requires events != [] && Described(t, loaded, events[..|events| - 1], name, r)
    requires var e := events[|events| - 1];
      && (e.Detection? ==> e.name != name)
      && (e.Harvest? && Harvestable(t, e.payload, e.vulnType) && name !in loaded ==>
           name != NumberedName(t, e.vulnType, |loaded| + Harvests(t, events)))
    ensures Described(t, loaded, events, name, r)
  {
    hide NumberedName, NamesAfter, Harvests, Harvestable, Reported;
    ReportedNext(t, loaded, events, name, true);
    ReportedNext(t, loaded, events, name, false);
  }

  lemma DetectionDescribes(t: Templates, loaded: Registry, events: seq<Event>, r: HarvestedRule)
    requires events != [] && events[|events| - 1].Detection?
    requires var (before, e) := (events[..|events| - 1], events[|events| - 1]);
      e.name in NamesAfter(t, loaded, before) && Described(t, loaded, before, e.name, r)
    ensures var e := events[|events| - 1]; Described(t, loaded, events, e.name, Detected(r, e.success))
  {
    hide NamesAfter;
  }

  lemma OriginOfLast(t: Templates, loaded: Registry, events: seq<Event>, name: string)
    requires events != [] && events[|events| - 1].Harvest? && name !in loaded
    requires var e := events[|events| - 1];
      Harvestable(t, e.payload, e.vulnType) && name == NumberedName(t, e.vulnType, |loaded| + Harvests(t, events))
    ensures var e := events[|events| - 1];
      Origin(t, loaded, events, name)
        == Some(HarvestedRule(t.pattern(e.payload, e.vulnType), e.vulnType, e.sourceIp, e.targetIp, 0, 0))
  {
    hide NumberedName, Harvests, Harvestable;
  }

  lemma NamesNext(t: Templates, loaded: Registry, events: seq<Event>)
    requires events != []
    ensures NamesAfter(t, loaded, events)
      == NamesAfter(t, loaded, events[..|events| - 1]) + NameAdded(t, loaded, events)
  {
    hide NameAdded;
  }

  lemma HarvestDescribes(t: Templates, loaded: Registry, events: seq<Event>)
    requires events != [] && events[|events| - 1].Harvest?
    requires var (before, e) := (events[..|events| - 1], events[|events| - 1]);
      && Harvestable(t, e.payload, e.vulnType)
      && NumberedName(t, e.vulnType, |loaded| + Harvests(t, events)) !in loaded
      && NumberedName(t, e.vulnType, |loaded| + Harvests(t, events)) !in NamesAfter(t, loaded, before)
    ensures var e := events[|events| - 1];
      Described(t, loaded, events, NumberedName(t, e.vulnType, |loaded| + Harvests(t, events)),
                HarvestedRule(t.pattern(e.payload, e.vulnType), e.vulnType, e.sourceIp, e.targetIp, 0, 0))
  {
    hide NumberedName, NamesAfter, Origin, Reported, Harvests, Harvestable;
    var (before, e) := (events[..|events| - 1], events[|events| - 1]);
    var name := NumberedName(t, e.vulnType, |loaded| + Harvests(t, events));
    NothingReported(t, loaded, before, name, true);
    NothingReported(t, loaded, before, name, false);
    ReportedNext(t, loaded, events, name, true);
    ReportedNext(t, loaded, events, name, false);
    OriginOfLast(t, loaded, events, name);
  }

  ghost predicate AllDescribed(t: Templates, loaded: Registry, events: seq<Event>, rules: Registry) {
    && rules.Keys == NamesAfter(t, loaded, events)
    && forall name :: name in rules ==> Described(t, loaded, events, name, rules[name])
  }

  lemma HarvestNext(t: Templates, loaded: Registry, events: seq<Event>, rules: Registry, name: string, r: HarvestedRule)
    requires events != [] && events[|events| - 1].Harvest? && AllDescribed(t, loaded, events[..|events| - 1], rules)
    requires var e := events[|events| - 1];
      && Harvestable(t, e.payload, e.vulnType) && name !in rules && loaded.Keys <= rules.Keys
      && name == NumberedName(t, e.vulnType, |loaded| + Harvests(t, events))
      && r == HarvestedRule(t.pattern(e.payload, e.vulnType), e.vulnType, e.sourceIp, e.targetIp, 0, 0)
    ensures AllDescribed(t, loaded, events, rules[name := r])
  {
    hide Described, NumberedName, Harvestable, Harvests, NamesAfter;
    NamesNext(t, loaded, events);
    HarvestDescribes(t, loaded, events);
    forall other | other in rules ensures Described(t, loaded, events, other, rules[other]) {
      KeepsDescribed(t, loaded, events, other, rules[other]);
    }
  }

  lemma DetectionNext(t: Templates, loaded: Registry, events: seq<Event>, rules: Registry)
    requires events != [] && events[|events| - 1].Detection? && events[|events| - 1].name in rules
    requires AllDescribed(t, loaded, events[..|events| - 1], rules)
    ensures var e := events[|events| - 1];
      AllDescribed(t, loaded, events, rules[e.name := Detected(rules[e.name], e.success)])
  {
    hide Described, NumberedName, Harvestable, Harvests, NamesAfter, Detected;
    NamesNext(t, loaded, events);
    var e := events[|events| - 1];
    DetectionDescribes(t, loaded, events, rules[e.name]);
    forall other | other in rules && other != e.name ensures Described(t, loaded, events, other, rules[other]) {
      KeepsDescribed(t, loaded, events, other, rules[other]);
    }
  }

  lemma NothingNext(t: Templates, loaded: Registry, events: seq<Event>, rules: Registry)
    requires events != [] && AllDescribed(t, loaded, events[..|events| - 1], rules)
    requires var e := events[|events| - 1];
      if e.Harvest? then !Harvestable(t, e.payload, e.vulnType) else e.name !in rules
    ensures AllDescribed(t, loaded, events, rules)
  {
    hide Described, NumberedName, Harvestable, Harvests, NamesAfter;
    NamesNext(t, loaded, events);
    forall other | other in rules ensures Described(t, loaded, events, other, rules[other]) {
      KeepsDescribed(t, loaded, events, other, rules[other]);
    }
  }

  lemma GrownKeeps(loaded: Registry, rules: Registry)
    requires Grown(loaded, rules)
    ensures loaded.Keys <= rules.Keys
  {
  }

  /** A registry that is written and read back after such a run has no name ahead either. */
  lemma RestartStaysSafe(t: Templates, loaded: Registry, events: seq<Event>)
    requires NoneAhead(t, loaded)
    ensures NoneAhead(t, After(t, loaded, events))
  {
    NoRuleIsLost(t, loaded, events);
    hide After, Harvests, KnownDetections, TotalDetections;
    var rules := After(t, loaded, events);
    forall vulnType, n: nat | n > |rules| && CanHarvest(t, vulnType)
      ensures NumberedName(t, vulnType, n) !in rules
    {
      NumberOfName("HARVESTED-" + t.upper(vulnType), n);
    }
  }

  /** A name ahead is reached by harvesting its vulnerability type again and again. */
  lemma {:induction false} NameAheadIsReached(
    t: Templates, rules: Registry, payload: string, vulnType: string, n: nat) returns (events: seq<Event>, e: Event)
    requires n > |rules| && NumberedName(t, vulnType, n) in rules && Harvestable(t, payload, vulnType)
    ensures Overwrites(t, After(t, rules, events), e)
    decreases n - |rules|
  {
    e := Harvest(payload, vulnType, None, "");
    if RuleName(t, vulnType, rules) in rules {
      events := [];
    } else {
      var rest;
      rest, e := NameAheadIsReached(t, Step(t, rules, e), payload, vulnType, n);
      events := [Harvest(payload, vulnType, None, "")] + rest;
      AfterFirst(t, rules, events[0], rest);
    }
  }

  lemma {:induction false} AfterFirst(t: Templates, loaded: Registry, e: Event, rest: seq<Event>)
    ensures After(t, loaded, [e] + rest) == After(t, Step(t, loaded, e), rest)
  {
    hide Step;
    if rest == [] {
      assert [e] + rest == [e] && [e][..0] == [];
    } else {
      assert ([e] + rest)[..|rest|] == [e] + rest[..|rest| - 1];
      AfterFirst(t, loaded, e, rest[..|rest| - 1]);
    }
  }

  /** Exactly from a registry with no name ahead, nothing is ever overwritten. */
  lemma NeverOverwritesIff(t: Templates, loaded: Registry)
    ensures NeverOverwrites(t, loaded) <==> NoneAhead(t, loaded)
  {
    hide Overwrites, After, Step, NumberedName;
    if NoneAhead(t, loaded) {
      forall events: seq<Event>, e: Event ensures !Overwrites(t, After(t, loaded, events), e) {
        NoRuleIsLost(t, loaded, events);
        StepKeepsGrown(t, loaded, After(t, loaded, events), e);
      }
    } else {
      var vulnType, n: nat :|
        n > |loaded| && CanHarvest(t, vulnType) && NumberedName(t, vulnType, n) in loaded;
      var payload :| Harvestable(t, payload, vulnType);
      var events, e := NameAheadIsReached(t, loaded, payload, vulnType, n);
      assert Overwrites(t, After(t, loaded, events), e);
    }
  }

  /** A registry read from a file can have a name ahead: one rule whose name ends in -2 is enough. */
  lemma LoadedRegistryCanCollide(t: Templates, payload: string, vulnType: string, r: HarvestedRule)
    requires Harvestable(t, payload, vulnType)
    ensures var rules: Registry := map["HARVESTED-" + t.upper(vulnType) + "-2" := r];
      Overwrites(t, rules, Harvest(payload, vulnType, None, "")) && !NoneAhead(t, rules)
  {
    var rules: Registry := map["HARVESTED-" + t.upper(vulnType) + "-2" := r];
    var prefix := "HARVESTED-" + t.upper(vulnType);
    assert ToText(2) == "2";
    assert prefix + "-" + "2" == prefix + "-2";
    assert CanHarvest(t, vulnType) && NumberedName(t, vulnType, 2) in rules;
  }

  lemma AfterNext(t: Templates, loaded: Registry, events: seq<Event>, e: Event)
    ensures After(t, loaded, events + [e]) == Step(t, After(t, loaded, events), e)
  {
  }

  class PayloadHarvester {
    const templates: Templates
    var rules: Registry
    // the registry read at the start, and what happened since
    ghost const loaded: Registry
    ghost var events: seq<Event>

    ghost predicate Valid()
      reads this
    {
      rules == After(templates, loaded, events)
    }

    /** `rules` is what `_load_harvested_rules` read; empty without a file. */
    constructor (templates: Templates, rules: Registry)
      ensures Valid() && this.templates == templates && loaded == rules && events == []
    {
      this.templates, this.rules := templates, rules;
      loaded, events := rules, [];
    }

    method HarvestFromExploitation(payload: string, vulnType: string, sourceIp: Option<string>, targetIp: string)
      returns (name: Option<string>)
      requires Valid()
      modifies this
      ensures Valid() && events == old(events) + [Harvest(payload, vulnType, sourceIp, targetIp)]
      ensures name.Some? <==> |payload| >= 5 && templates.pattern(payload, vulnType) != ""
      ensures name.Some? ==>
        && name.value == "HARVESTED-" + templates.upper(vulnType) + "-" + ToText(|old(rules)| + 1)
        && rules == old(rules)[name.value :=
             HarvestedRule(templates.pattern(payload, vulnType), vulnType, sourceIp, targetIp, 0, 0)]
      ensures name.None? ==> rules == old(rules)
      ensures name.Some? && NoneAhead(templates, loaded) ==> name.value !in old(rules)
    {
      hide After, NoneAhead, Grown, Harvests, KnownDetections, TotalDetections;
      AfterNext(templates, loaded, events, Harvest(payload, vulnType, sourceIp, targetIp));
      events := events + [Harvest(payload, vulnType, sourceIp, targetIp)];
      if |payload| < MIN_PAYLOAD {
        return None;
      }
      var pattern := templates.pattern(payload, vulnType);
      if pattern == "" {
        return None;
      }
      if NoneAhead(templates, loaded) {
        NoRuleIsLost(templates, loaded, old(events));
        NewNameIsFresh(templates, loaded, rules, payload, vulnType);
      }
      var ruleName := RuleName(templates, vulnType, rules);
      rules := rules[ruleName := HarvestedRule(pattern, vulnType, sourceIp, targetIp, 0, 0)];
      return Some(ruleName);
    }

    /** `get_stats`: the successful part of all detections. */
    method GetStats() returns (totalRules: nat, totalDetections: nat, averageSuccess: real)
      ensures totalRules == |rules| && totalDetections == TotalDetections(rules)
      ensures averageSuccess ==
        TotalOf(rules, SuccessesOf) as real / (if totalDetections > 1 then totalDetections else 1) as real
    {
      hide TotalOf;
      NoRules(DetectionsOf);
      NoRules(SuccessesOf);
      totalRules, totalDetections := |rules|, 0;
      var (left, successes) := (rules, 0);
      while left != map[]
        invariant totalDetections + TotalOf(left, DetectionsOf) == TotalOf(rules, DetectionsOf)
        invariant successes + TotalOf(left, SuccessesOf) == TotalOf(rules, SuccessesOf)
        decreases |left|
      {
        HasName(left);
        var name :| name in left;
        TotalWithout(left, name, DetectionsOf);
        TotalWithout(left, name, SuccessesOf);
        totalDetections := totalDetections + left[name].successfulDetections + left[name].failedDetections;
        successes := successes + left[name].successfulDetections;
        left := left - {name};
      }
      averageSuccess := successes as real / (if totalDetections > 1 then totalDetections else 1) as real;
    }

    method RecordDetection(name: string, success: bool)
      requires Valid()
      modifies this
      ensures Valid() && events == old(events) + [Detection(name, success)]
      ensures name !in old(rules) ==> rules == old(rules)
      ensures name in old(rules) ==>
        var r := old(rules)[name];
        rules == old(rules)[name := r.(
          successfulDetections := r.successfulDetections + if success then 1 else 0,
          failedDetections := r.failedDetections + if success then 0 else 1)]
    {
      hide After;
      AfterNext(templates, loaded, events, Detection(name, success));
      events := events + [Detection(name, success)];
      if name !in rules {
        return;
      }
      var rule := rules[name];
      if success {
        rules := rules[name := rule.(successfulDetections := rule.successfulDetections + 1)];
      } else {
        rules := rules[name := rule.(failedDetections := rule.failedDetections + 1)];
      }
    }
  }
}
