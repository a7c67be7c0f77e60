/**
 The dotted paths that the dual-pass evaluator prints while it flattens nested content:
 `Path` folds the steps into text exactly as the recursion does, `ReadPath` reads text back.
 */
module FieldPaths {
  import opened Wrappers
  import opened Decimal

  datatype Step = Key(name: string) | Index(position: nat)

  /** What one level of the recursion appends to the prefix it was given. */
  function Extend(prefix: string, step: Step): string {
    match step
    case Key(k) => if prefix == "" then k else prefix + "." + k
    case Index(i) => prefix + "[" + ToText(i) + "]"
  }

  function Path(prefix: string, steps: seq<Step>): string
    decreases |steps|
  {
    if steps == [] then prefix else Path(Extend(prefix, steps[0]), steps[1..])
  }

  /** Length of the longest prefix of `s` without a separator. */
  function KeyLength(s: string): (n: nat)
    ensures n <= |s|
    ensures forall i :: 0 <= i < n ==> s[i] != '.' && s[i] != '['
    ensures n < |s| ==> s[n] == '.' || s[n] == '['
  {
    if s == "" || s[0] == '.' || s[0] == '[' then 0 else 1 + KeyLength(s[1..])
  }

  /** Length of the longest prefix of `s` made of digits. */
  function DigitsLength(s: string): (n: nat)
    ensures n <= |s| && AllDigits(s[..n])
    ensures n < |s| ==> !IsDigit(s[n])
  {
    if s == "" || !IsDigit(s[0]) then 0
    else
      var n := DigitsLength(s[1..]);
      assert s[..n + 1] == [s[0]] + s[1..][..n];
      n + 1
  }

  /**
   Reads a path; `first` says that no step has been read yet, so a key needs no dot. An index is read
   as it is printed, without leading zeros.
   */
  function ReadPath(s: string, first: bool): Option<seq<Step>>
    decreases |s|
  {
    if s == "" then Some([])
    else if s[0] == '[' then
      var n := DigitsLength(s[1..]);
      if n == 0 || n + 1 == |s| || s[n + 1] != ']' then None
      else if ToText(FromText(s[1..][..n])) != s[1..][..n] then None
      else Prepend(Index(FromText(s[1..][..n])), ReadPath(s[n + 2..], false))
    else if first then ReadKey(s)
    else if s[0] == '.' then ReadKey(s[1..])
    else None
  }

  function ReadKey(s: string): Option<seq<Step>>
    decreases |s|, 0
  {
    var n := KeyLength(s);
    if n == 0 then None else Prepend(Key(s[..n]), ReadPath(s[n..], false))
  }

  function Prepend(step: Step, rest: Option<seq<Step>>): Option<seq<Step>> {
    if rest.Some? then Some([step] + rest.value) else None
  }

  /** A key that the printed path keeps apart from its separators. */
  predicate GoodKey(k: string) {
    k != "" && forall i :: 0 <= i < |k| ==> k[i] != '.' && k[i] != '['
  }

  predicate GoodSteps(steps: seq<Step>) {
    forall i :: 0 <= i < |steps| && steps[i].Key? ==> GoodKey(steps[i].name)
  }

  // ----- the fold as a concatenation

  function StepText(step: Step, first: bool): string {
    match step
    case Key(k) => if first then k else "." + k
    case Index(i) => "[" + ToText(i) + "]"
  }

  function Render(steps: seq<Step>, first: bool): string {
    if steps == [] then "" else StepText(steps[0], first) + Render(steps[1..], false)
  }

  lemma {:induction false} PathIsRender(prefix: string, steps: seq<Step>)
    requires GoodSteps(steps)
    ensures Path(prefix, steps) == prefix + Render(steps, prefix == "")
    decreases |steps|
  {
    if steps == [] {
    } else {
      var (head, rest) := (StepText(steps[0], prefix == ""), Render(steps[1..], false));
      var extended := Extend(prefix, steps[0]);
      assert extended == prefix + head && extended != "";
      PathIsRender(extended, steps[1..]);
      assert (prefix + head) + rest == prefix + (head + rest);
    }
  }

  lemma {:induction false} KeyLengthAppend(k: string, rest: string)
    requires forall i :: 0 <= i < |k| ==> k[i] != '.' && k[i] != '['
    requires rest == "" || rest[0] == '.' || rest[0] == '['
    ensures KeyLength(k + rest) == |k|
  {
    if k == "" {
      assert k + rest == rest;
    } else {
      assert (k + rest)[1..] == k[1..] + rest;
      KeyLengthAppend(k[1..], rest);
    }
  }

  lemma {:induction false} DigitsLengthAppend(d: string, rest: string)
    requires AllDigits(d) && rest != "" && !IsDigit(rest[0])
    ensures DigitsLength(d + rest) == |d|
  {
    if d == "" {
      assert d + rest == rest;
    } else {
      assert (d + rest)[1..] == d[1..] + rest;
      DigitsLengthAppend(d[1..], rest);
    }
  }

  lemma IndexReadsBack(i: nat, rest: string, first: bool)
    ensures ReadPath(StepText(Index(i), first) + rest, first) == Prepend(Index(i), ReadPath(rest, false))
  {
    var d := ToText(i);
    var text := StepText(Index(i), first) + rest;
    assert text[1..] == d + ("]" + rest);
    DigitsLengthAppend(d, "]" + rest);
    assert text[1..][..|d|] == d && text[|d| + 1] == ']' && text[|d| + 2..] == rest;
    RoundTrip(i);
  }

  lemma KeyReadsBack(k: string, rest: string, first: bool)
    requires GoodKey(k)
    requires rest == "" || rest[0] == '.' || rest[0] == '['
    ensures ReadPath(StepText(Key(k), first) + rest, first) == Prepend(Key(k), ReadPath(rest, false))
  {
    var body := k + rest;
    KeyLengthAppend(k, rest);
    assert body[..|k|] == k && body[|k|..] == rest;
    assert ReadKey(body) == Prepend(Key(k), ReadPath(rest, false));
    if first {
      assert StepText(Key(k), first) + rest == body;
    } else {
      assert (StepText(Key(k), first) + rest)[1..] == body;
    }
  }

  lemma {:induction false} RenderReadsBack(steps: seq<Step>, first: bool)
    requires GoodSteps(steps)
    ensures ReadPath(Render(steps, first), first) == Some(steps)
    decreases |steps|
  {
    hide ReadPath, StepText, ToText;
    if steps == [] {
      NothingReadsBack(first);
    } else {
      RenderReadsBack(steps[1..], false);
      StartsWithSeparator(steps[1..]);
      var rest := Render(steps[1..], false);
      match steps[0] {
        case Index(i) => IndexReadsBack(i, rest, first);
        case Key(k) => KeyReadsBack(k, rest, first);
      }
      assert [steps[0]] + steps[1..] == steps;
    }
  }

  lemma StartsWithSeparator(steps: seq<Step>)
    ensures var text := Render(steps, false); text == "" || text[0] == '.' || text[0] == '['
  {
  }

  lemma NothingReadsBack(first: bool)
    ensures ReadPath("", first) == Some([])
  {
  }

  /** What is read first, and the text that is left. */
  lemma FirstRead(s: string, first: bool) returns (step: Step, rest: string)
    requires s != "" && ReadPath(s, first).Some?
    ensures s == StepText(step, first) + rest && |rest| < |s| && (step.Key? ==> GoodKey(step.name))
    ensures ReadPath(rest, false).Some? && ReadPath(s, first).value == [step] + ReadPath(rest, false).value
  {
    if s[0] == '[' {
      step, rest := FirstIndex(s, first);
    } else if first {
      step, rest := FirstKey(s);
    } else {
      step, rest := FirstKey(s[1..]);
      assert s == "." + s[1..];
    }
  }

  lemma FirstIndex(s: string, first: bool) returns (step: Step, rest: string)
    requires s != "" && s[0] == '[' && ReadPath(s, first).Some?
    ensures step.Index? && s == StepText(step, first) + rest && |rest| < |s|
    ensures ReadPath(rest, false).Some? && ReadPath(s, first).value == [step] + ReadPath(rest, false).value
  {
    hide ToText, FromText, KeyLength, DigitsLength;
    var n := DigitsLength(s[1..]);
    var digits := s[1..][..n];
    step, rest := Index(FromText(digits)), s[n + 2..];
    assert s == "[" + digits + "]" + rest;
  }

  lemma FirstKey(body: string) returns (step: Step, rest: string)
    requires ReadKey(body).Some?
    ensures step.Key? && GoodKey(step.name) && body == step.name + rest && |rest| < |body|
    ensures ReadPath(rest, false).Some? && ReadKey(body).value == [step] + ReadPath(rest, false).value
  {
    hide ReadPath, KeyLength;
    var n := KeyLength(body);
    step, rest := Key(body[..n]), body[n..];
    assert body == body[..n] + rest;
  }

  lemma {:induction false} ReadStepsAreGood(s: string, first: bool)
    ensures ReadPath(s, first).Some? ==> GoodSteps(ReadPath(s, first).value)
    decreases |s|
  {
    hide ReadPath, StepText, GoodKey;
    NothingReadsBack(first);
    if s == "" || ReadPath(s, first).None? {
    } else {
      var step, rest := FirstRead(s, first);
      ReadStepsAreGood(rest, false);
    }
  }

  /** A printed path reads back as its own steps exactly when every key on it is a good key. */
  lemma PathReadsBackIff(steps: seq<Step>)
    ensures ReadPath(Path("", steps), true) == Some(steps) <==> GoodSteps(steps)
  {
    ReadStepsAreGood(Path("", steps), true);
    if GoodSteps(steps) {
      PathIsRender("", steps);
      assert Path("", steps) == Render(steps, true);
      RenderReadsBack(steps, true);
    }
  }

  /** And what reads back at all is the text of the steps that were read. */
  lemma {:induction false} ReadingPrints(s: string, first: bool)
    requires ReadPath(s, first).Some?
    ensures Render(ReadPath(s, first).value, first) == s
    decreases |s|
  {
    hide ReadPath, StepText;
    NothingReadsBack(first);
    if s == "" {
    } else {
      var step, rest := FirstRead(s, first);
      ReadingPrints(rest, false);
      assert ([step] + ReadPath(rest, false).value)[1..] == ReadPath(rest, false).value;
    }
  }

  /**
   Which paths share a text with a path of good keys, in terms of the text alone: for any steps
   there is such another path if and only if a key on them is bad and the text reads as a path.
   */
  lemma SharesTextIff(steps: seq<Step>)
    ensures (exists other :: other != steps && GoodSteps(other) && Path("", other) == Path("", steps)) <==>
      !GoodSteps(steps) && ReadPath(Path("", steps), true).Some?
  {
    var text := Path("", steps);
    PathReadsBackIff(steps);
    ReadStepsAreGood(text, true);
    if !GoodSteps(steps) && ReadPath(text, true).Some? {
      var other := ReadPath(text, true).value;
      ReadingPrints(text, true);
      PathIsRender("", other);
      assert Path("", other) == text;
    }
    forall other | other != steps && GoodSteps(other) && Path("", other) == text
      ensures ReadPath(text, true) == Some(other)
    {
      PathReadsBackIff(other);
    }
  }

  /** A text with a '[' that no ']' follows. */
  predicate StaysOpen(text: string) {
    exists i :: 0 <= i < |text| && text[i] == '[' && forall j :: i < j < |text| ==> text[j] != ']'
  }

  lemma {:induction false} GoodBracketsClose(steps: seq<Step>, first: bool)
    requires GoodSteps(steps)
    ensures !StaysOpen(Render(steps, first))
  {
    hide StepText, ToText;
    if steps == [] {
    } else {
      GoodBracketsClose(steps[1..], false);
      StepCloses(steps[0], first);
      BothClose(StepText(steps[0], first), Render(steps[1..], false));
    }
  }

  lemma StepCloses(step: Step, first: bool)
    requires step.Key? ==> GoodKey(step.name)
    ensures !StaysOpen(StepText(step, first))
  {
    hide ToText;
    var text := StepText(step, first);
    if step.Index? {
      assert text[|text| - 1] == ']';
    }
  }

  lemma BothClose(a: string, b: string)
    requires !StaysOpen(a) && !StaysOpen(b)
    ensures !StaysOpen(a + b)
  {
    forall i | 0 <= i < |a + b| && (a + b)[i] == '[' ensures exists j :: i < j < |a + b| && (a + b)[j] == ']' {
      if i < |a| {
        var j :| i < j < |a| && a[j] == ']';
        assert (a + b)[j] == ']';
      } else {
        var j :| i - |a| < j < |b| && b[j] == ']';
        assert (a + b)[|a| + j] == ']';
      }
    }
  }

  lemma {:induction false} LastStep(prefix: string, steps: seq<Step>, last: Step)
    ensures Path(prefix, steps + [last]) == Extend(Path(prefix, steps), last)
    decreases |steps|
  {
    if steps == [] {
      assert [] + [last] == [last] && [last][1..] == [];
    } else {
      assert (steps + [last])[1..] == steps[1..] + [last];
      LastStep(Extend(prefix, steps[0]), steps[1..], last);
    }
  }

  lemma EndStaysOpen(before: string, key: string)
    requires StaysOpen(key)
    ensures StaysOpen(before + key)
  {
    var (text, n) := (before + key, |before|);
    var i :| 0 <= i < |key| && key[i] == '[' && forall j :: i < j < |key| ==> key[j] != ']';
    assert text[n + i] == '[';
    forall j | n + i < j < |text| ensures text[j] != ']' {
      assert text[j] == key[j - n];
    }
  }

  /** A path that ends in a key with a bracket that never closes shares its text with no path of good keys. */
  lemma OpenBracketIsAlone(steps: seq<Step>, key: string, other: seq<Step>)
    requires StaysOpen(key) && GoodSteps(other)
    ensures !GoodKey(key) && Path("", other) != Path("", steps + [Key(key)])
  {
    hide StaysOpen, Path, Render;
    assert !GoodKey(key) by { OpenIsBad(key); }
    LastStep("", steps, Key(key));
    EndStaysOpen("", key);
    EndStaysOpen(Path("", steps) + ".", key);
    assert "" + key == key;
    PathIsRender("", other);
    assert Path("", other) == "" + Render(other, true) == Render(other, true);
    GoodBracketsClose(other, true);
  }

  lemma OpenIsBad(key: string)
    requires StaysOpen(key)
    ensures !GoodKey(key)
  {
  }

  /** Hence good paths never share a text. */
  lemma PathsInjective(a: seq<Step>, b: seq<Step>)
    requires GoodSteps(a) && GoodSteps(b)
    requires Path("", a) == Path("", b)
    ensures a == b
  {
    PathReadsBackIff(a);
    PathReadsBackIff(b);
  }

  /**
   The excluded keys collide with others wherever they stand: a dot inside a key, an index at its
   end, and an empty key on top.
   */
  lemma BadKeysCollide(prefix: string, a: string, b: string, i: nat, rest: seq<Step>)
    ensures prefix + a != "" ==>
      Path(prefix, [Key(a + "." + b)] + rest) == Path(prefix, [Key(a), Key(b)] + rest)
    ensures Path(prefix, [Key(a + "[" + ToText(i) + "]")] + rest) == Path(prefix, [Key(a), Index(i)] + rest)
    ensures Path("", [Key("")] + rest) == Path("", rest)
  {
    if prefix + a != "" { DottedText(prefix, a, b); }
    IndexedText(prefix, a, i);
    TwoSteps(prefix, Key(a), Key(b), rest);
    TwoSteps(prefix, Key(a), Index(i), rest);
    OneStep(prefix, Key(a + "." + b), rest);
    OneStep(prefix, Key(a + "[" + ToText(i) + "]"), rest);
    OneStep("", Key(""), rest);
  }

  lemma DottedText(prefix: string, a: string, b: string)
    requires prefix + a != ""
    ensures Extend(prefix, Key(a + "." + b)) == Extend(Extend(prefix, Key(a)), Key(b))
  {
    assert prefix + "." + (a + "." + b) == (prefix + "." + a) + "." + b;
  }

  lemma IndexedText(prefix: string, a: string, i: nat)
    ensures Extend(prefix, Key(a + "[" + ToText(i) + "]")) == Extend(Extend(prefix, Key(a)), Index(i))
  {
    assert prefix + "." + (a + "[" + ToText(i) + "]") == (prefix + "." + a) + "[" + ToText(i) + "]";
  }

  lemma OneStep(prefix: string, step: Step, rest: seq<Step>)
    ensures Path(prefix, [step] + rest) == Path(Extend(prefix, step), rest)
  {
    assert ([step] + rest)[1..] == rest;
  }

  lemma TwoSteps(prefix: string, first: Step, second: Step, rest: seq<Step>)
    ensures Path(prefix, [first, second] + rest) == Path(Extend(Extend(prefix, first), second), rest)
  {
    assert [first, second] + rest == [first] + ([second] + rest);
    OneStep(prefix, first, [second] + rest);
    OneStep(Extend(prefix, first), second, rest);
  }
}
