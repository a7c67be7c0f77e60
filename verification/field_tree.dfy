/**
 `DualPassEvaluator._iter_fields`: flattening of nested content into (path, leaf) pairs.
 `Leaves` is the independent reading of the content, with structured steps instead of text.
 */
module FieldTree {
  import opened Wrappers
  import opened Decimal
  import opened FieldPaths

  /** A scalar as `json.loads` yields it; non-string scalars are kept as their printed form. */
  datatype Scalar = Text(value: string) | Other(json: string)

  datatype Content = Scalar(scalar: Scalar) | Dict(entries: seq<Entry>) | List(items: seq<Content>)
  datatype Entry = Entry(key: string, value: Content)

  /** A Python dict has no key twice. */
  ghost predicate DistinctKeys(c: Content)
    decreases c, 1
  {
    match c
    case Scalar(_) => true
    case Dict(es) =>
      (forall i, j :: 0 <= i < j < |es| ==> es[i].key != es[j].key) && forall e | e in es :: DistinctKeys(e.value)
    case List(xs) => forall x | x in xs :: DistinctKeys(x)
  }

  /** Every key of the content, at every depth, is a good one. */
  ghost predicate GoodKeys(c: Content)
    decreases c, 1
  {
    match c
    case Scalar(_) => true
    case Dict(es) => forall e | e in es :: GoodKey(e.key) && GoodKeys(e.value)
    case List(xs) => forall x | x in xs :: GoodKeys(x)
  }

  datatype Located = Located(steps: seq<Step>, scalar: Scalar)

  function Under(step: Step, leaves: seq<Located>): (r: seq<Located>)
    ensures |r| == |leaves|
    ensures forall i :: 0 <= i < |r| ==> r[i] == Located([step] + leaves[i].steps, leaves[i].scalar)
  {
    seq(|leaves|, i requires 0 <= i < |leaves| => Located([step] + leaves[i].steps, leaves[i].scalar))
  }

  /** The leaves of the content in traversal order. */
  function Leaves(c: Content): seq<Located>
    decreases c, 1
  {
    match c
    case Scalar(s) => [Located([], s)]
    case Dict(es) => EntryLeaves(es)
    case List(xs) => ItemLeaves(xs)
  }

  function EntryLeaves(es: seq<Entry>): seq<Located>
    decreases es, 0
  {
    if es == [] then []
    else
      var e := es[|es| - 1];
      EntryLeaves(es[..|es| - 1]) + Under(Key(e.key), Leaves(e.value))
  }

  function ItemLeaves(xs: seq<Content>): seq<Located>
    decreases xs, 0
  {
    if xs == [] then []
    else
      var n := |xs| - 1;
      ItemLeaves(xs[..n]) + Under(Index(n), Leaves(xs[n]))
  }

  /** Following steps into the content, as nested subscripts do. */
  function Lookup(c: Content, steps: seq<Step>): Option<Scalar>
    decreases |steps|
  {
    if steps == [] then if c.Scalar? then Some(c.scalar) else None
    else
      match (c, steps[0])
      case (Dict(es), Key(k)) =>
        var i := Find(es, k);
        if i == |es| then None else Lookup(es[i].value, steps[1..])
      case (List(xs), Index(i)) => if i < |xs| then Lookup(xs[i], steps[1..]) else None
      case _ => None
  }

  function Find(es: seq<Entry>, k: string): (i: nat)
    ensures i <= |es|
    ensures i < |es| ==> es[i].key == k
    ensures forall j :: 0 <= j < i ==> es[j].key != k
  {
    if es == [] || es[0].key == k then 0 else 1 + Find(es[1..], k)
  }

  // ----- the leaves are exactly what lookup finds, each once

  ghost predicate Unique(leaves: seq<Located>) {
    forall i, j :: 0 <= i < j < |leaves| ==> leaves[i].steps != leaves[j].steps
  }

  ghost predicate LooksUp(c: Content, leaves: seq<Located>) {
    forall i :: 0 <= i < |leaves| ==> Lookup(c, leaves[i].steps) == Some(leaves[i].scalar)
  }

  lemma {:induction false} LeavesLookUp(c: Content)
    requires DistinctKeys(c)
    ensures LooksUp(c, Leaves(c)) && Unique(Leaves(c))
    ensures !c.Scalar? ==> forall l | l in Leaves(c) :: l.steps != []
    decreases c, 1
  {
    match c
    case Scalar(_) =>
    case Dict(es) => EntryLeavesLookUp(es, es);
    case List(xs) => ItemLeavesLookUp(xs, xs);
  }

  lemma UnderLooksUp(c: Content, step: Step, inner: Content, leaves: seq<Located>)
    requires LooksUp(inner, leaves) && Unique(leaves)
    requires forall i :: 0 <= i < |leaves| ==>
      Lookup(c, [step] + leaves[i].steps) == Lookup(inner, leaves[i].steps)
    ensures LooksUp(c, Under(step, leaves)) && Unique(Under(step, leaves))
  {
  }

  lemma {:induction false} EntryLeavesLookUp(es: seq<Entry>, all: seq<Entry>)
    requires es <= all && DistinctKeys(Dict(all))
    ensures LooksUp(Dict(all), EntryLeaves(es)) && Unique(EntryLeaves(es))
    ensures forall l | l in EntryLeaves(es) :: |l.steps| > 0 && exists e :: e in es && l.steps[0] == Key(e.key)
    decreases es, 0
  {
    if es == [] {
    } else {
      var n := |es| - 1;
      var e := es[n];
      EntryLeavesLookUp(es[..n], all);
      assert all[n] == e && e in all;
      LeavesLookUp(e.value);
      EntryLookup(all, n, Leaves(e.value));
      UnderLooksUp(Dict(all), Key(e.key), e.value, Leaves(e.value));
      hide LooksUp, Lookup, Leaves, Find;
      JoinLookUps(Dict(all), EntryLeaves(es[..n]), Under(Key(e.key), Leaves(e.value)));
    }
  }

  lemma EntryLookup(es: seq<Entry>, n: nat, leaves: seq<Located>)
    requires n < |es| && forall i, j :: 0 <= i < j < |es| ==> es[i].key != es[j].key
    ensures forall i :: 0 <= i < |leaves| ==>
      Lookup(Dict(es), [Key(es[n].key)] + leaves[i].steps) == Lookup(es[n].value, leaves[i].steps)
  {
  }

  lemma JoinLookUps(c: Content, a: seq<Located>, b: seq<Located>)
    requires LooksUp(c, a) && LooksUp(c, b) && Unique(a) && Unique(b)
    requires forall i, j :: 0 <= i < |a| && 0 <= j < |b| ==> a[i].steps != b[j].steps
    ensures LooksUp(c, a + b) && Unique(a + b)
  {
  }

  lemma {:induction false} ItemLeavesLookUp(xs: seq<Content>, all: seq<Content>)
    requires xs <= all && DistinctKeys(List(all))
    ensures LooksUp(List(all), ItemLeaves(xs)) && Unique(ItemLeaves(xs))
    ensures forall l | l in ItemLeaves(xs) :: |l.steps| > 0 && l.steps[0].Index? && l.steps[0].position < |xs|
    decreases xs, 0
  {
    if xs == [] {
    } else {
      var n := |xs| - 1;
      ItemLeavesLookUp(xs[..n], all);
      assert all[n] == xs[n] && xs[n] in all;
      LeavesLookUp(xs[n]);
      ItemLookup(all, n, Leaves(xs[n]));
      UnderLooksUp(List(all), Index(n), xs[n], Leaves(xs[n]));
      hide LooksUp, Lookup, Leaves;
      JoinLookUps(List(all), ItemLeaves(xs[..n]), Under(Index(n), Leaves(xs[n])));
    }
  }

  lemma ItemLookup(xs: seq<Content>, n: nat, leaves: seq<Located>)
    requires n < |xs|
    ensures forall i :: 0 <= i < |leaves| ==>
      Lookup(List(xs), [Index(n)] + leaves[i].steps) == Lookup(xs[n], leaves[i].steps)
  {
  }

  lemma {:induction false} LookupIsLeaf(c: Content, steps: seq<Step>)
    requires Lookup(c, steps).Some?
    ensures Located(steps, Lookup(c, steps).value) in Leaves(c)
    decreases |steps|
  {
    if steps == [] {
    } else {
      match (c, steps[0])
      case (Dict(es), Key(k)) =>
        var i := Find(es, k);
        LookupIsLeaf(es[i].value, steps[1..]);
        EntryLeafIsLeaf(es, i, Located(steps[1..], Lookup(c, steps).value));
        assert [Key(k)] + steps[1..] == steps;
      case (List(xs), Index(i)) =>
        LookupIsLeaf(xs[i], steps[1..]);
        ItemLeafIsLeaf(xs, i, Located(steps[1..], Lookup(c, steps).value));
        assert [Index(i)] + steps[1..] == steps;
    }
  }

  lemma {:induction false} EntryLeafIsLeaf(es: seq<Entry>, i: nat, l: Located)
    requires i < |es| && l in Leaves(es[i].value)
    ensures Located([Key(es[i].key)] + l.steps, l.scalar) in EntryLeaves(es)
    decreases |es|
  {
    var n := |es| - 1;
    if i < n {
      EntryLeafIsLeaf(es[..n], i, l);
    } else {
      var j :| 0 <= j < |Leaves(es[i].value)| && Leaves(es[i].value)[j] == l;
      assert Under(Key(es[i].key), Leaves(es[i].value))[j] in EntryLeaves(es);
    }
  }

  lemma {:induction false} ItemLeafIsLeaf(xs: seq<Content>, i: nat, l: Located)
    requires i < |xs| && l in Leaves(xs[i])
    ensures Located([Index(i)] + l.steps, l.scalar) in ItemLeaves(xs)
    decreases |xs|
  {
    var n := |xs| - 1;
    if i < n {
      ItemLeafIsLeaf(xs[..n], i, l);
    } else {
      var j :| 0 <= j < |Leaves(xs[i])| && Leaves(xs[i])[j] == l;
      assert Under(Index(i), Leaves(xs[i]))[j] in ItemLeaves(xs);
    }
  }

  lemma {:induction false} LeafStepsAreGood(c: Content)
    requires GoodKeys(c)
    ensures forall l | l in Leaves(c) :: GoodSteps(l.steps)
    decreases c, 1
  {
    match c
    case Scalar(_) =>
    case Dict(es) => EntryStepsAreGood(es);
    case List(xs) => ItemStepsAreGood(xs);
  }

  lemma {:induction false} EntryStepsAreGood(es: seq<Entry>)
    requires GoodKeys(Dict(es))
    ensures forall l | l in EntryLeaves(es) :: GoodSteps(l.steps)
    decreases es, 0
  {
    if es == [] {
    } else {
      var e := es[|es| - 1];
      assert e in es;
      EntryStepsAreGood(es[..|es| - 1]);
      LeafStepsAreGood(e.value);
    }
  }

  lemma {:induction false} ItemStepsAreGood(xs: seq<Content>)
    requires GoodKeys(List(xs))
    ensures forall l | l in ItemLeaves(xs) :: GoodSteps(l.steps)
    decreases xs, 0
  {
    if xs == [] {
    } else {
      var x := xs[|xs| - 1];
      assert x in xs;
      ItemStepsAreGood(xs[..|xs| - 1]);
      LeafStepsAreGood(x);
    }
  }

  // ----- the order of the leaves

  /** Whether one path comes before another in the content: by the first step where they part. */
  ghost predicate Precedes(c: Content, a: seq<Step>, b: seq<Step>)
    decreases |a|
  {
    a != [] && b != []
    && match (c, a[0], b[0])
       case (Dict(es), Key(k), Key(l)) =>
         var (i, j) := (Find(es, k), Find(es, l));
         i < j < |es| || (i == j < |es| && Precedes(es[i].value, a[1..], b[1..]))
       case (List(xs), Index(i), Index(j)) =>
         i < j < |xs| || (i == j < |xs| && Precedes(xs[i], a[1..], b[1..]))
       case _ => false
  }

  ghost predicate InOrder(c: Content, leaves: seq<Located>) {
    forall i, j :: 0 <= i < j < |leaves| ==> Precedes(c, leaves[i].steps, leaves[j].steps)
  }

  /** The traversal visits the leaves in the order of the content: dicts by entry, lists by position. */
  lemma {:induction false} LeavesInOrder(c: Content)
    requires DistinctKeys(c)
    ensures InOrder(c, Leaves(c))
    decreases c, 1
  {
    match c
    case Scalar(_) =>
    case Dict(es) => EntriesInOrder(es, es);
    case List(xs) => ItemsInOrder(xs, xs);
  }

  lemma JoinInOrder(c: Content, a: seq<Located>, b: seq<Located>)
    requires InOrder(c, a) && InOrder(c, b)
    requires forall i, j :: 0 <= i < |a| && 0 <= j < |b| ==> Precedes(c, a[i].steps, b[j].steps)
    ensures InOrder(c, a + b)
  {
    hide Precedes;
  }

  lemma EntryInOrder(es: seq<Entry>, n: nat, leaves: seq<Located>)
    requires n < |es| && Find(es, es[n].key) == n && InOrder(es[n].value, leaves)
    ensures InOrder(Dict(es), Under(Key(es[n].key), leaves))
  {
    var under := Under(Key(es[n].key), leaves);
    forall i, j | 0 <= i < j < |under| ensures Precedes(Dict(es), under[i].steps, under[j].steps) {
      assert under[i].steps[1..] == leaves[i].steps && under[j].steps[1..] == leaves[j].steps;
    }
  }

  lemma FoundAtItsPlace(es: seq<Entry>, n: nat)
    requires n < |es| && DistinctKeys(Dict(es))
    ensures Find(es, es[n].key) == n && DistinctKeys(es[n].value)
  {
    assert es[n] in es;
  }

  /** All of these start in an entry before the n-th. */
  ghost predicate StartBefore(es: seq<Entry>, n: nat, leaves: seq<Located>) {
    forall i :: 0 <= i < |leaves| ==>
      leaves[i].steps != [] && leaves[i].steps[0].Key? && Find(es, leaves[i].steps[0].name) < n
  }

  lemma EarlierEntries(es: seq<Entry>, n: nat, before: seq<Located>, leaves: seq<Located>)
    requires n < |es| && Find(es, es[n].key) == n && StartBefore(es, n, before)
    ensures var under := Under(Key(es[n].key), leaves);
      && StartBefore(es, n + 1, before + under)
      && forall i, j :: 0 <= i < |before| && 0 <= j < |under| ==>
           Precedes(Dict(es), before[i].steps, under[j].steps)
  {
    hide Find;
  }

  lemma {:induction false} EntriesInOrder(es: seq<Entry>, all: seq<Entry>)
    requires es <= all && DistinctKeys(Dict(all))
    ensures InOrder(Dict(all), EntryLeaves(es)) && StartBefore(all, |es|, EntryLeaves(es))
    decreases es, 0
  {
    if es == [] {
    } else {
      hide InOrder, StartBefore, DistinctKeys, Precedes;
      var (n, e) := (|es| - 1, es[|es| - 1]);
      EntriesInOrder(es[..n], all);
      FoundAtItsPlace(all, n);
      LeavesInOrder(e.value);
      EntryInOrder(all, n, Leaves(e.value));
      EarlierEntries(all, n, EntryLeaves(es[..n]), Leaves(e.value));
      JoinInOrder(Dict(all), EntryLeaves(es[..n]), Under(Key(e.key), Leaves(e.value)));
    }
  }

  lemma {:induction false} ItemsInOrder(xs: seq<Content>, all: seq<Content>)
    requires xs <= all && DistinctKeys(List(all))
    ensures InOrder(List(all), ItemLeaves(xs))
    ensures forall l | l in ItemLeaves(xs) :: l.steps != [] && l.steps[0].Index? && l.steps[0].position < |xs|
    decreases xs, 0
  {
    if xs == [] {
    } else {
      var n := |xs| - 1;
      ItemsInOrder(xs[..n], all);
      assert all[n] == xs[n] && xs[n] in all;
      LeavesInOrder(xs[n]);
      var under := Under(Index(n), Leaves(xs[n]));
      forall i, j | 0 <= i < j < |under| ensures Precedes(List(all), under[i].steps, under[j].steps) {
        assert under[i].steps[1..] == Leaves(xs[n])[i].steps && under[j].steps[1..] == Leaves(xs[n])[j].steps;
      }
      JoinInOrder(List(all), ItemLeaves(xs[..n]), under);
    }
  }

  // ----- the flattening itself

  datatype Field = Field(path: string, scalar: Scalar)

  function Printed(prefix: string, leaves: seq<Located>): (r: seq<Field>)
    ensures |r| == |leaves|
  {
    seq(|leaves|, i requires 0 <= i < |leaves| => Field(Path(prefix, leaves[i].steps), leaves[i].scalar))
  }

  function Flatten(c: Content, prefix: string): seq<Field> {
    if c.Scalar? && prefix == "" then [Field("__root__", c.scalar)] else Printed(prefix, Leaves(c))
  }

  lemma PrintedUnder(prefix: string, step: Step, before: seq<Located>, leaves: seq<Located>)
    ensures Printed(prefix, before + Under(step, leaves))
         == Printed(prefix, before) + Printed(Extend(prefix, step), leaves)
  {
  }

  lemma NextEntry(prefix: string, es: seq<Entry>, i: nat)
    requires i < |es|
    ensures Printed(prefix, EntryLeaves(es[..i + 1]))
         == Printed(prefix, EntryLeaves(es[..i])) + Printed(Extend(prefix, Key(es[i].key)), Leaves(es[i].value))
  {
    assert es[..i + 1][..i] == es[..i];
    PrintedUnder(prefix, Key(es[i].key), EntryLeaves(es[..i]), Leaves(es[i].value));
  }

  lemma NextItem(prefix: string, xs: seq<Content>, i: nat)
    requires i < |xs|
    ensures Printed(prefix, ItemLeaves(xs[..i + 1]))
         == Printed(prefix, ItemLeaves(xs[..i])) + Printed(Extend(prefix, Index(i)), Leaves(xs[i]))
  {
    assert xs[..i + 1][..i] == xs[..i];
    PrintedUnder(prefix, Index(i), ItemLeaves(xs[..i]), Leaves(xs[i]));
  }

  /** The recursion of the source. */
  method IterFields(obj: Content, prefix: string) returns (results: seq<Field>)
    ensures results == Flatten(obj, prefix)
    decreases obj
  {
    results := [];
    match obj {
      case Dict(entries) =>
        for i := 0 to |entries|
          invariant results == Printed(prefix, EntryLeaves(entries[..i]))
        {
          var (k, v) := (entries[i].key, entries[i].value);
          var path := if prefix != "" then prefix + "." + k else k;
          var found;
          if v.Scalar? {
            found := [Field(path, v.scalar)];
          } else {
            found := IterFields(v, path);
          }
          results := results + found;
          assert found == Printed(path, Leaves(v));
          NextEntry(prefix, entries, i);
        }
        assert entries[..|entries|] == entries;
      case List(items) =>
        for i := 0 to |items|
          invariant results == Printed(prefix, ItemLeaves(items[..i]))
        {
          var (path, item) := (prefix + "[" + ToText(i) + "]", items[i]);
          var found;
          if item.Scalar? {
            found := [Field(path, item.scalar)];
          } else {
            found := IterFields(item, path);
          }
          results := results + found;
          assert found == Printed(path, Leaves(item));
          NextItem(prefix, items, i);
        }
        assert items[..|items|] == items;
      case Scalar(s) =>
        results := results + [Field(if prefix != "" then prefix else "__root__", s)];
    }
  }

  /**
   Main result: for content whose keys are good, every printed path reads back to steps that look
   up exactly its leaf, no path is printed twice, and every value that lookup can reach is printed.
   */
  lemma FlattenRoundTrip(c: Content)
    requires !c.Scalar? && DistinctKeys(c) && GoodKeys(c)
    ensures |Flatten(c, "")| == |Leaves(c)|
    ensures forall i :: 0 <= i < |Leaves(c)| ==>
      && Flatten(c, "")[i].scalar == Leaves(c)[i].scalar
      && ReadPath(Flatten(c, "")[i].path, true) == Some(Leaves(c)[i].steps)
      && Lookup(c, Leaves(c)[i].steps) == Some(Flatten(c, "")[i].scalar)
    ensures forall i, j :: 0 <= i < j < |Leaves(c)| ==> Flatten(c, "")[i].path != Flatten(c, "")[j].path
    ensures forall steps :: Lookup(c, steps).Some? ==>
      Field(Path("", steps), Lookup(c, steps).value) in Flatten(c, "")
  {
    var (leaves, fields) := (Leaves(c), Flatten(c, ""));
    LeavesLookUp(c);
    LeafStepsAreGood(c);
    forall i | 0 <= i < |leaves| ensures ReadPath(fields[i].path, true) == Some(leaves[i].steps) {
      assert leaves[i] in leaves;
      PathReadsBackIff(leaves[i].steps);
    }
    forall steps | Lookup(c, steps).Some?
      ensures Field(Path("", steps), Lookup(c, steps).value) in fields
    {
      LookupIsLeaf(c, steps);
      var i :| 0 <= i < |leaves| && leaves[i] == Located(steps, Lookup(c, steps).value);
      assert fields[i] in fields;
    }
  }

  /** Exactly the leaves under good keys alone read back; one bad key on the way is enough to lose a leaf. */
  lemma ReadsBackIffGood(c: Content, i: nat)
    requires !c.Scalar? && i < |Leaves(c)|
    ensures ReadPath(Flatten(c, "")[i].path, true) == Some(Leaves(c)[i].steps) <==> GoodSteps(Leaves(c)[i].steps)
  {
    PathReadsBackIff(Leaves(c)[i].steps);
  }

  /** Without the condition on keys nothing in the printed text tells the two leaves apart. */
  lemma DottedKeyCollides(a: Scalar, b: Scalar)
    ensures var c := Dict([Entry("a.b", Scalar(a)), Entry("a", Dict([Entry("b", Scalar(b))]))]);
      DistinctKeys(c) && Flatten(c, "") == [Field("a.b", a), Field("a.b", b)]
  {
    var inner := Dict([Entry("b", Scalar(b))]);
    var (e0, e1) := (Entry("a.b", Scalar(a)), Entry("a", inner));
    SingleEntry(Entry("b", Scalar(b)));
    SingleEntry(e0);
    assert [e0, e1][..1] == [e0];
    var (l0, l1) := (EntryLeaves([e0]), Under(Key("a"), Leaves(inner)));
    assert EntryLeaves([e0, e1]) == l0 + l1;
    assert l0[0].steps == [Key("a.b")] && l1[0].steps == [Key("a"), Key("b")];
    BadKeysCollide("", "a", "b", 0, []);
    assert "a" + "." + "b" == "a.b";
    assert [Key("a.b")] + [] == [Key("a.b")] && [Key("a"), Key("b")] + [] == [Key("a"), Key("b")];
  }

  lemma SingleEntry(e: Entry)
    ensures EntryLeaves([e]) == Under(Key(e.key), Leaves(e.value))
  {
  }
}
