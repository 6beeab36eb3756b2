/** The declarative rule engine of vast/models/shared.py.

    Each `make_*` factory of the source turns a rule list into a checker closure over a
    keyword-argument map; the closure loops over its rules, filling a local `found` dict
    and an `errors` list. Here each closure is a method with that loop, proved equal to
    `Fold` of the per-rule steps; `pre_make` runs the six checkers in a fixed order over
    the same input and either rejects with every error or hands the merged `found` map to
    the constructor. Error messages are modelled as structured `CheckError` values. */
module Engine {
  import opened PyValues

  datatype CheckError =
    | MissingRequired(name: string)
    | NotExactlyOne(group: seq<string>, existing: seq<string>)
    | CannotConvert(name: string, value: Value)
    | NotAnEnumValue(name: string, value: Value)
    | NotABoolean(name: string, value: Value)
    | WrongClass(name: string, cls: string, value: Value)

  /** What a checker closure produces: its `found` map and `errors` list, or an exception
      that escaped from it. */
  datatype Checked = Checked(found: map<string, Value>, errors: seq<CheckError>) | Raised(exc: PyExc)

  /** What one iteration of a checker's loop does: store at most one entry in `found` and
      append errors, or raise. */
  datatype Step = Step(put: Option<(string, Value)>, errors: seq<CheckError>) | StepRaises(exc: PyExc)

  predicate Puts(s: Step, k: string)
  {
    s.Step? && s.put.Some? && s.put.value.0 == k
  }

  function Then(c: Checked, s: Step): Checked
  {
    match c
    case Raised(e) => Raised(e)
    case Checked(found, errors) =>
      match s
      case StepRaises(e) => Raised(e)
      case Step(put, errs) =>
        Checked(if put.Some? then found[put.value.0 := put.value.1] else found, errors + errs)
  }

  /** The state after running the steps in order, starting from empty `found`/`errors`. */
  function Fold(steps: seq<Step>): Checked
    decreases |steps|
  {
    if steps == [] then Checked(map[], [])
    else Then(Fold(steps[..|steps| - 1]), steps[|steps| - 1])
  }

  /** How often `e` occurs among the errors of the steps. */
  function ErrorCount(steps: seq<Step>, e: CheckError): nat
    decreases |steps|
  {
    if steps == [] then 0
    else
      var last := steps[|steps| - 1];
      ErrorCount(steps[..|steps| - 1], e) + (if last.Step? then multiset(last.errors)[e] else 0)
  }

  function Get(argsDict: map<string, Value>, name: string): Value
  {
    if name in argsDict then argsDict[name] else VNone
  }

  predicate NoDuplicates(names: seq<string>)
  {
    forall i, j :: 0 <= i < j < |names| ==> names[i] != names[j]
  }

  function Names<T>(rules: seq<(string, T)>): (r: seq<string>)
    ensures |r| == |rules| && forall i :: 0 <= i < |rules| ==> r[i] == rules[i].0
  {
    seq(|rules|, i requires 0 <= i < |rules| => rules[i].0)
  }

  /** The names of the class rules, read through the name-and-class pairs of `Names`. */
  function ClassNames(rules: seq<(string, string, bool)>): (r: seq<string>)
    ensures |r| == |rules| && forall i :: 0 <= i < |rules| ==> r[i] == rules[i].0
  {
    Names(seq(|rules|, i requires 0 <= i < |rules| => (rules[i].0, rules[i].1)))
  }

  // ---------------------------------------------------------------------------
  // Facts about Fold, shared by the six checkers

  /** A fold raises exactly when one of its steps raises, and then with the exception of
      the first such step: the loop stops there. */
  lemma {:induction false} FoldRaises(steps: seq<Step>)
    ensures Fold(steps).Raised? <==> exists i :: 0 <= i < |steps| && steps[i].StepRaises?
    ensures Fold(steps).Raised? ==>
      exists i :: 0 <= i < |steps| && steps[i] == StepRaises(Fold(steps).exc) &&
        forall j :: 0 <= j < i ==> steps[j].Step?
  {
    if steps != [] {
      var p := steps[..|steps| - 1];
      FoldRaises(p);
      assert forall i :: 0 <= i < |p| ==> p[i] == steps[i];
      if Fold(p).Raised? {
        var i :| 0 <= i < |p| && p[i] == StepRaises(Fold(p).exc) && forall j :: 0 <= j < i ==> p[j].Step?;
        assert steps[i] == StepRaises(Fold(steps).exc);
      } else {
        assert forall i :: 0 <= i < |p| ==> steps[i].Step?;
      }
    }
  }

  /** A key is in the final `found` map iff some step stores it, and its value is the one
      stored by the last step that stores it. */
  lemma {:induction false} FoldFound(steps: seq<Step>, k: string)
    requires Fold(steps).Checked?
    ensures k in Fold(steps).found <==> exists i :: 0 <= i < |steps| && Puts(steps[i], k)
    ensures k in Fold(steps).found ==>
      exists i :: 0 <= i < |steps| && Puts(steps[i], k) && Fold(steps).found[k] == steps[i].put.value.1 &&
        forall j :: i < j < |steps| ==> !Puts(steps[j], k)
  {
    if steps != [] {
      var p := steps[..|steps| - 1];
      var last := steps[|steps| - 1];
      FoldFound(p, k);
      assert forall i :: 0 <= i < |p| ==> p[i] == steps[i];
      if !Puts(last, k) {
        if k in Fold(p).found {
          var i :| 0 <= i < |p| && Puts(p[i], k) && Fold(p).found[k] == p[i].put.value.1 &&
            forall j :: i < j < |p| ==> !Puts(p[j], k);
          assert forall j :: i < j < |steps| ==> !Puts(steps[j], k);
        }
      } else {
        assert Puts(steps[|steps| - 1], k);
      }
    }
  }

  /** The errors of a fold are those of its steps: no step's errors are dropped. */
  lemma {:induction false} FoldErrors(steps: seq<Step>, e: CheckError)
    requires Fold(steps).Checked?
    ensures multiset(Fold(steps).errors)[e] == ErrorCount(steps, e)
  {
    if steps != [] {
      FoldErrors(steps[..|steps| - 1], e);
    }
  }

  lemma {:induction false} ErrorCountSingle(steps: seq<Step>, i: int, e: CheckError)
    requires 0 <= i < |steps|
    requires forall j :: 0 <= j < |steps| && j != i && steps[j].Step? ==> e !in steps[j].errors
    ensures ErrorCount(steps, e) == if steps[i].Step? then multiset(steps[i].errors)[e] else 0
  {
    var p := steps[..|steps| - 1];
    assert forall j :: 0 <= j < |p| ==> p[j] == steps[j];
    if i < |steps| - 1 {
      ErrorCountSingle(p, i, e);
    } else {
      ErrorCountNone(p, e);
    }
  }

  lemma {:induction false} ErrorCountNone(steps: seq<Step>, e: CheckError)
    requires forall j :: 0 <= j < |steps| && steps[j].Step? ==> e !in steps[j].errors
    ensures ErrorCount(steps, e) == 0
  {
    if steps != [] {
      var p := steps[..|steps| - 1];
      assert forall j :: 0 <= j < |p| ==> p[j] == steps[j];
      ErrorCountNone(p, e);
    }
  }

  lemma {:induction false} ErrorCountOrigin(steps: seq<Step>, e: CheckError)
    requires ErrorCount(steps, e) > 0
    ensures exists i :: 0 <= i < |steps| && steps[i].Step? && e in steps[i].errors
  {
    var p := steps[..|steps| - 1];
    assert forall j :: 0 <= j < |p| ==> p[j] == steps[j];
    if ErrorCount(p, e) > 0 {
      ErrorCountOrigin(p, e);
    }
  }

  /** Every error of a fold comes from one of its steps. */
  lemma FoldErrorOrigin(steps: seq<Step>, e: CheckError)
    requires Fold(steps).Checked? && e in Fold(steps).errors
    ensures exists i :: 0 <= i < |steps| && steps[i].Step? && e in steps[i].errors
  {
    FoldErrors(steps, e);
    ErrorCountOrigin(steps, e);
  }

  /** One more step of the loop: the fold of a longer prefix runs that step after the
      fold of the shorter one. */
  lemma FoldStep(steps: seq<Step>, i: int)
    requires 0 <= i < |steps|
    ensures Fold(steps[..i + 1]) == Then(Fold(steps[..i]), steps[i])
  {
    assert steps[..i + 1][..i] == steps[..i];
  }

  /** Once a prefix of the steps raises, the remaining steps do not run. */
  lemma {:induction false} FoldStaysRaised(steps: seq<Step>, k: int)
    requires 0 <= k <= |steps| && Fold(steps[..k]).Raised?
    ensures Fold(steps) == Fold(steps[..k])
    decreases |steps| - k
  {
    if k < |steps| {
      assert steps[..k + 1][..k] == steps[..k];
      FoldStaysRaised(steps, k + 1);
    } else {
      assert steps[..k] == steps;
    }
  }

  // ---------------------------------------------------------------------------
  // make_required_checker

  function RequiredStep(name: string, argsDict: map<string, Value>): Step
  {
    if name in argsDict then Step(Some((name, argsDict[name])), [])
    else Step(None, [MissingRequired(name)])
  }

  function RequiredSteps(required: seq<string>, argsDict: map<string, Value>): (s: seq<Step>)
    ensures |s| == |required| && forall i :: 0 <= i < |required| ==> s[i] == RequiredStep(required[i], argsDict)
  {
    seq(|required|, i requires 0 <= i < |required| => RequiredStep(required[i], argsDict))
  }

  /** The closure of `make_required_checker(required)` applied to `argsDict`. */
  method CheckRequired(required: seq<string>, argsDict: map<string, Value>) returns (r: Checked)
    ensures r == Fold(RequiredSteps(required, argsDict))
  {
    ghost var steps := RequiredSteps(required, argsDict);
    var found: map<string, Value> := map[];
    var errors: seq<CheckError> := [];
    for i := 0 to |required|
      invariant Fold(steps[..i]) == Checked(found, errors)
    {
      var attrName := required[i];
      if attrName in argsDict {
        found := found[attrName := argsDict[attrName]];
      } else {
        errors := errors + [MissingRequired(attrName)];
      }
      FoldStep(steps, i);
    }
    assert steps[..|required|] == steps;
    r := Checked(found, errors);
  }

  /** A required name that is a key of the input is copied into `found` with its value,
      None included; the required checker never raises. */
  lemma RequiredFound(required: seq<string>, argsDict: map<string, Value>)
    ensures Fold(RequiredSteps(required, argsDict)).Checked?
    ensures var c := Fold(RequiredSteps(required, argsDict));
      forall n :: ((n in c.found <==> n in required && n in argsDict) && (n in c.found ==> c.found[n] == argsDict[n]))
  {
    var steps := RequiredSteps(required, argsDict);
    FoldRaises(steps);
    forall n ensures (n in Fold(steps).found <==> n in required && n in argsDict) &&
      (n in Fold(steps).found ==> Fold(steps).found[n] == argsDict[n])
    {
      FoldFound(steps, n);
    }
  }

  /** The errors are exactly one `MissingRequired(n)` per occurrence in `required` of a
      name `n` that is not a key of the input. */
  lemma RequiredErrors(required: seq<string>, argsDict: map<string, Value>)
    ensures Fold(RequiredSteps(required, argsDict)).Checked?
    ensures forall e :: (multiset(Fold(RequiredSteps(required, argsDict)).errors)[e] ==
      if e.MissingRequired? && e.name !in argsDict then multiset(required)[e.name] else 0)
  {
    var steps := RequiredSteps(required, argsDict);
    FoldRaises(steps);
    forall e ensures multiset(Fold(steps).errors)[e] ==
      if e.MissingRequired? && e.name !in argsDict then multiset(required)[e.name] else 0
    {
      FoldErrors(steps, e);
      RequiredErrorCount(required, argsDict, e);
    }
  }

  lemma {:induction false} RequiredErrorCount(required: seq<string>, argsDict: map<string, Value>, e: CheckError)
    ensures ErrorCount(RequiredSteps(required, argsDict), e) ==
      if e.MissingRequired? && e.name !in argsDict then multiset(required)[e.name] else 0
  {
    if required != [] {
      var p := required[..|required| - 1];
      RequiredErrorCount(p, argsDict, e);
      assert RequiredSteps(required, argsDict)[..|required| - 1] == RequiredSteps(p, argsDict);
      assert required == p + [required[|required| - 1]];
    }
  }

  // ---------------------------------------------------------------------------
  // make_one_of_checker

  /** The members of `group` whose `args_dict.get(name)` is truthy, in group order. */
  function Existing(group: seq<string>, argsDict: map<string, Value>): seq<string>
    decreases |group|
  {
    if group == [] then []
    else
      var last := group[|group| - 1];
      Existing(group[..|group| - 1], argsDict) + (if Truthy(Get(argsDict, last)) then [last] else [])
  }

  /** The truthy members are exactly the names of the group that are keys with a truthy
      value. */
  lemma {:induction false} ExistingMembers(group: seq<string>, argsDict: map<string, Value>)
    ensures forall n :: n in Existing(group, argsDict) <==> n in group && n in argsDict && Truthy(argsDict[n])
    decreases |group|
  {
    if group != [] {
      var p := group[..|group| - 1];
      ExistingMembers(p, argsDict);
      assert group == p + [group[|group| - 1]];
    }
  }

  function OneOfStep(group: seq<string>, argsDict: map<string, Value>): Step
  {
    var existing := Existing(group, argsDict);
    if |existing| != 1 then Step(None, [NotExactlyOne(group, existing)])
    else
      ExistingMembers(group, argsDict);
      Step(Some((existing[0], argsDict[existing[0]])), [])
  }

  function OneOfSteps(oneOfs: seq<seq<string>>, argsDict: map<string, Value>): (s: seq<Step>)
    ensures |s| == |oneOfs| && forall i :: 0 <= i < |oneOfs| ==> s[i] == OneOfStep(oneOfs[i], argsDict)
  {
    seq(|oneOfs|, i requires 0 <= i < |oneOfs| => OneOfStep(oneOfs[i], argsDict))
  }

  /** The list comprehension of `check` collecting the truthy members of a group. */
  method CollectExisting(attrNames: seq<string>, argsDict: map<string, Value>) returns (existing: seq<string>)
    ensures existing == Existing(attrNames, argsDict)
  {
    existing := [];
    for j := 0 to |attrNames|
      invariant existing == Existing(attrNames[..j], argsDict)
    {
      assert attrNames[..j + 1][..j] == attrNames[..j];
      if Truthy(Get(argsDict, attrNames[j])) {
        existing := existing + [attrNames[j]];
      }
    }
    assert attrNames[..|attrNames|] == attrNames;
  }

  /** The closure of `make_one_of_checker(one_ofs)` applied to `argsDict`. */
  method CheckOneOf(oneOfs: seq<seq<string>>, argsDict: map<string, Value>) returns (r: Checked)
    ensures r == Fold(OneOfSteps(oneOfs, argsDict))
  {
    ghost var steps := OneOfSteps(oneOfs, argsDict);
    var found: map<string, Value> := map[];
    var errors: seq<CheckError> := [];
    for i := 0 to |oneOfs|
      invariant Fold(steps[..i]) == Checked(found, errors)
    {
      var attrNames := oneOfs[i];
      var existing := CollectExisting(attrNames, argsDict);
      if |existing| != 1 {
        errors := errors + [NotExactlyOne(attrNames, existing)];
      } else {
        ExistingMembers(attrNames, argsDict);
        var attrName := existing[0];
        found := found[attrName := argsDict[attrName]];
      }
      FoldStep(steps, i);
    }
    assert steps[..|oneOfs|] == steps;
    r := Checked(found, errors);
  }

  /** A key is in `found`, with its input value, iff it is the single truthy member of
      some group; the one-of checker never raises. */
  lemma OneOfFound(oneOfs: seq<seq<string>>, argsDict: map<string, Value>)
    ensures Fold(OneOfSteps(oneOfs, argsDict)).Checked?
    ensures var c := Fold(OneOfSteps(oneOfs, argsDict));
      forall n :: ((n in c.found <==> exists g :: g in oneOfs && Existing(g, argsDict) == [n]) &&
        (n in c.found ==> n in argsDict && c.found[n] == argsDict[n]))
  {
    FoldRaises(OneOfSteps(oneOfs, argsDict));
    forall n {
      OneOfFoundKey(oneOfs, argsDict, n);
    }
  }

  lemma OneOfFoundKey(oneOfs: seq<seq<string>>, argsDict: map<string, Value>, n: string)
    requires Fold(OneOfSteps(oneOfs, argsDict)).Checked?
    ensures var c := Fold(OneOfSteps(oneOfs, argsDict));
      && (n in c.found <==> exists g :: g in oneOfs && Existing(g, argsDict) == [n])
      && (n in c.found ==> n in argsDict && c.found[n] == argsDict[n])
  {
    var steps := OneOfSteps(oneOfs, argsDict);
    FoldFound(steps, n);
    if n in Fold(steps).found {
      var i :| 0 <= i < |steps| && Puts(steps[i], n) && Fold(steps).found[n] == steps[i].put.value.1;
      ExistingMembers(oneOfs[i], argsDict);
      assert Existing(oneOfs[i], argsDict) == [n];
    }
    if exists g :: g in oneOfs && Existing(g, argsDict) == [n] {
      var g :| g in oneOfs && Existing(g, argsDict) == [n];
      var i :| 0 <= i < |oneOfs| && oneOfs[i] == g;
      assert Puts(steps[i], n);
    }
  }

  /** An error the one-of checker reports for a group: its truthy members, which are not
      exactly one. */
  predicate GroupReport(e: CheckError, argsDict: map<string, Value>)
  {
    e.NotExactlyOne? && e.existing == Existing(e.group, argsDict) && |e.existing| != 1
  }

  /** The errors are exactly one `NotExactlyOne(g, existing)` per occurrence of a group
      `g` whose list `existing` of truthy members does not have length 1. */
  lemma {:induction false} OneOfErrors(oneOfs: seq<seq<string>>, argsDict: map<string, Value>, e: CheckError)
    ensures Fold(OneOfSteps(oneOfs, argsDict)).Checked?
    ensures multiset(Fold(OneOfSteps(oneOfs, argsDict)).errors)[e] ==
      if GroupReport(e, argsDict) then multiset(oneOfs)[e.group] else 0
  {
    if oneOfs != [] {
      var p := oneOfs[..|oneOfs| - 1];
      var g := oneOfs[|oneOfs| - 1];
      OneOfErrors(p, argsDict, e);
      OneOfFoldSnoc(oneOfs, argsDict);
      OneOfStepReport(g, argsDict, e);
      ErrorsAppend(Fold(OneOfSteps(p, argsDict)).errors, OneOfStep(g, argsDict).errors, e);
      if e.NotExactlyOne? {
        GroupsSnoc(oneOfs, e.group);
      }
    }
  }

  /** A group's step reports `e` once iff `e` is the report for that group. */
  lemma OneOfStepReport(g: seq<string>, argsDict: map<string, Value>, e: CheckError)
    ensures OneOfStep(g, argsDict).Step?
    ensures multiset(OneOfStep(g, argsDict).errors)[e] == if GroupReport(e, argsDict) && e.group == g then 1 else 0
  {
  }

  lemma ErrorsAppend(a: seq<CheckError>, b: seq<CheckError>, e: CheckError)
    ensures multiset(a + b)[e] == multiset(a)[e] + multiset(b)[e]
  {
  }

  lemma GroupsSnoc(groups: seq<seq<string>>, h: seq<string>)
    requires groups != []
    ensures multiset(groups)[h] ==
      multiset(groups[..|groups| - 1])[h] + if h == groups[|groups| - 1] then 1 else 0
  {
    assert groups == groups[..|groups| - 1] + [groups[|groups| - 1]];
  }

  /** The one-of checker's loop over the groups, one group at a time. */
  lemma OneOfFoldSnoc(oneOfs: seq<seq<string>>, argsDict: map<string, Value>)
    requires oneOfs != []
    ensures Fold(OneOfSteps(oneOfs, argsDict)) ==
      Then(Fold(OneOfSteps(oneOfs[..|oneOfs| - 1], argsDict)), OneOfStep(oneOfs[|oneOfs| - 1], argsDict))
  {
    assert OneOfSteps(oneOfs, argsDict)[..|oneOfs| - 1] == OneOfSteps(oneOfs[..|oneOfs| - 1], argsDict);
  }

  /** Within a group that passes, no member other than the single truthy one is stored. */
  lemma OneOfAddsNoOtherMember(oneOfs: seq<seq<string>>, argsDict: map<string, Value>, g: seq<string>, n: string, m: string)
    requires g in oneOfs && Existing(g, argsDict) == [n] && m in g && m != n
    ensures Fold(OneOfSteps(oneOfs, argsDict)).Checked?
    ensures m !in Fold(OneOfSteps(oneOfs, argsDict)).found
  {
    OneOfFound(oneOfs, argsDict);
    ExistingMembers(g, argsDict);
    assert !(m in argsDict && Truthy(argsDict[m]));
    forall h | h in oneOfs ensures Existing(h, argsDict) != [m] {
      ExistingMembers(h, argsDict);
    }
  }

  // ---------------------------------------------------------------------------
  // make_converter

  /** The callable `c` of a `(name, c)` converter rule. The tables of the repository
      only use `unicode`, `int`, `bool` and enum classes, so those are the callables
      modelled. */
  datatype Converter = UnicodeType | IntType | BoolType | EnumType(enum: EnumClass)

  /** `c(value)`. */
  function Apply(t: Converter, v: Value): Conversion
  {
    match t
    case UnicodeType => PyUnicode(v)
    case IntType => PyInt(v)
    case BoolType => Converted(VBool(Truthy(v)))
    case EnumType(e) => EnumCall(e, v)
  }

  function ConverterStep(rule: (string, Converter), required: seq<string>, argsDict: map<string, Value>): Step
  {
    var name := rule.0;
    if name !in argsDict then Step(None, [])
    else if argsDict[name] == VNone then
      (if name in required then Step(None, [CannotConvert(name, VNone)]) else Step(None, []))
    else
      match Apply(rule.1, argsDict[name])
      case Converted(w) => Step(Some((name, w)), [])
      case Raises(e) => if e == TypeError then Step(None, [CannotConvert(name, argsDict[name])]) else StepRaises(e)
  }

  function ConverterSteps(converters: seq<(string, Converter)>, required: seq<string>, argsDict: map<string, Value>): (s: seq<Step>)
    ensures |s| == |converters| && forall i :: 0 <= i < |converters| ==> s[i] == ConverterStep(converters[i], required, argsDict)
  {
    seq(|converters|, i requires 0 <= i < |converters| => ConverterStep(converters[i], required, argsDict))
  }

  /** The closure of `make_converter(converters, required)` applied to `argsDict`. */
  method Convert(converters: seq<(string, Converter)>, required: seq<string>, argsDict: map<string, Value>) returns (r: Checked)
    ensures r == Fold(ConverterSteps(converters, required, argsDict))
  {
    ghost var steps := ConverterSteps(converters, required, argsDict);
    var converted: map<string, Value> := map[];
    var errors: seq<CheckError> := [];
    for i := 0 to |converters|
      invariant Fold(steps[..i]) == Checked(converted, errors)
    {
      FoldStep(steps, i);
      var attrName := converters[i].0;
      if attrName !in argsDict {
        continue;
      }
      var v := argsDict[attrName];
      if v == VNone {
        if attrName in required {
          errors := errors + [CannotConvert(attrName, v)];
        }
        continue;
      }
      match Apply(converters[i].1, v)
      case Converted(w) =>
        converted := converted[attrName := w];
      case Raises(e) =>
        if e == TypeError {
          errors := errors + [CannotConvert(attrName, v)];
        } else {
          assert Fold(steps[..i + 1]) == Raised(e);
          FoldStaysRaised(steps, i + 1);
          return Raised(e);
        }
    }
    assert steps[..|converters|] == steps;
    r := Checked(converted, errors);
  }

  predicate ConverterEscapes(rule: (string, Converter), argsDict: map<string, Value>)
  {
    rule.0 in argsDict && argsDict[rule.0] != VNone && Apply(rule.1, argsDict[rule.0]).Raises? &&
    Apply(rule.1, argsDict[rule.0]).exc != TypeError
  }

  predicate ConverterFails(rule: (string, Converter), required: seq<string>, argsDict: map<string, Value>)
  {
    rule.0 in argsDict &&
    if argsDict[rule.0] == VNone then rule.0 in required else Apply(rule.1, argsDict[rule.0]) == Raises(TypeError)
  }

  predicate ConverterConverts(rule: (string, Converter), argsDict: map<string, Value>)
  {
    rule.0 in argsDict && argsDict[rule.0] != VNone && Apply(rule.1, argsDict[rule.0]).Converted?
  }

  lemma ConverterStepFacts(rule: (string, Converter), required: seq<string>, argsDict: map<string, Value>)
    ensures var s := ConverterStep(rule, required, argsDict);
      && (s.StepRaises? <==> ConverterEscapes(rule, argsDict))
      && (s.StepRaises? ==> s.exc == Apply(rule.1, argsDict[rule.0]).exc)
      && (forall k :: Puts(s, k) <==> k == rule.0 && ConverterConverts(rule, argsDict))
      && (Puts(s, rule.0) ==> s.put.value.1 == Apply(rule.1, argsDict[rule.0]).value)
      && (s.Step? ==>
            s.errors == if ConverterFails(rule, required, argsDict) then [CannotConvert(rule.0, argsDict[rule.0])] else [])
  {
  }

  /** Only TypeError is caught: any other exception of a converter escapes, the first one
      in rule order. */
  lemma ConverterRaises(converters: seq<(string, Converter)>, required: seq<string>, argsDict: map<string, Value>)
    ensures var c := Fold(ConverterSteps(converters, required, argsDict));
      && (c.Raised? <==> exists i :: 0 <= i < |converters| && ConverterEscapes(converters[i], argsDict))
      && (c.Raised? ==> exists i :: (0 <= i < |converters| && ConverterEscapes(converters[i], argsDict) &&
            c.exc == Apply(converters[i].1, argsDict[converters[i].0]).exc &&
            forall j :: 0 <= j < i ==> !ConverterEscapes(converters[j], argsDict)))
  {
    var steps := ConverterSteps(converters, required, argsDict);
    FoldRaises(steps);
    forall j | 0 <= j < |converters| {
      ConverterStepFacts(converters[j], required, argsDict);
    }
  }

  /** A rule's name is in `found` iff its value is present, not None, and converts; the
      stored value is the converted one (when every name has one rule). */
  lemma ConverterFound(converters: seq<(string, Converter)>, required: seq<string>, argsDict: map<string, Value>, i: int)
    requires NoDuplicates(Names(converters)) && 0 <= i < |converters|
    requires Fold(ConverterSteps(converters, required, argsDict)).Checked?
    ensures var c := Fold(ConverterSteps(converters, required, argsDict));
      var n := converters[i].0;
      && (n in c.found <==> ConverterConverts(converters[i], argsDict))
      && (n in c.found ==> c.found[n] == Apply(converters[i].1, argsDict[n]).value)
  {
    var steps := ConverterSteps(converters, required, argsDict);
    var n := converters[i].0;
    FoldFound(steps, n);
    ConverterStepFacts(converters[i], required, argsDict);
    forall j | 0 <= j < |converters| && j != i ensures !Puts(steps[j], n) {
      ConverterStepFacts(converters[j], required, argsDict);
      assert Names(converters)[j] != Names(converters)[i];
    }
  }

  /** A rule reports exactly one error when its value is None and the name is required,
      or when the converter raises TypeError, and none otherwise. */
  lemma ConverterErrors(converters: seq<(string, Converter)>, required: seq<string>, argsDict: map<string, Value>, i: int)
    requires NoDuplicates(Names(converters)) && 0 <= i < |converters|
    requires Fold(ConverterSteps(converters, required, argsDict)).Checked?
    ensures var c := Fold(ConverterSteps(converters, required, argsDict));
      var n := converters[i].0;
      multiset(c.errors)[CannotConvert(n, Get(argsDict, n))] ==
        if ConverterFails(converters[i], required, argsDict) then 1 else 0
  {
    var steps := ConverterSteps(converters, required, argsDict);
    var n := converters[i].0;
    var e := CannotConvert(n, Get(argsDict, n));
    FoldErrors(steps, e);
    FoldRaises(steps);
    ConverterStepFacts(converters[i], required, argsDict);
    forall j | 0 <= j < |converters| && j != i && steps[j].Step? ensures e !in steps[j].errors {
      ConverterStepFacts(converters[j], required, argsDict);
      assert Names(converters)[j] != Names(converters)[i];
    }
    ErrorCountSingle(steps, i, e);
  }

  /** Nothing else: `found` holds only rule names and every error is that of a failing rule. */
  lemma ConverterNothingElse(converters: seq<(string, Converter)>, required: seq<string>, argsDict: map<string, Value>)
    requires Fold(ConverterSteps(converters, required, argsDict)).Checked?
    ensures var c := Fold(ConverterSteps(converters, required, argsDict));
      && (forall k :: k in c.found ==> k in Names(converters))
      && (forall e :: e in c.errors ==> exists j :: (0 <= j < |converters| &&
            ConverterFails(converters[j], required, argsDict) && e == CannotConvert(converters[j].0, argsDict[converters[j].0])))
  {
    var steps := ConverterSteps(converters, required, argsDict);
    var c := Fold(steps);
    forall k | k in c.found ensures k in Names(converters) {
      FoldFound(steps, k);
      var j :| 0 <= j < |steps| && Puts(steps[j], k);
      ConverterStepFacts(converters[j], required, argsDict);
    }
    forall e | e in c.errors
      ensures exists j :: (0 <= j < |converters| &&
        ConverterFails(converters[j], required, argsDict) && e == CannotConvert(converters[j].0, argsDict[converters[j].0]))
    {
      FoldErrorOrigin(steps, e);
      var j :| 0 <= j < |steps| && steps[j].Step? && e in steps[j].errors;
      ConverterStepFacts(converters[j], required, argsDict);
    }
  }

  // ---------------------------------------------------------------------------
  // make_enum_checker

  /** `Enum.from_string` of one enum class: the member a text names, None when it names
      none, or the exception the call raises. */
  type EnumLookup = string -> Result<Option<Value>>

  function EnumStep(rule: (string, EnumLookup), required: seq<string>, argsDict: map<string, Value>): Step
  {
    var name := rule.0;
    if name !in argsDict then Step(None, [])
    else if argsDict[name] == VNone then
      (if name in required then Step(None, [NotAnEnumValue(name, VNone)]) else Step(None, []))
    else
      // `raise ValueError` on None, caught with the ValueError of `from_string` itself
      match rule.1(PyStr(argsDict[name]))
      case Ok(Some(member)) => Step(Some((name, member)), [])
      case Ok(None) => Step(None, [NotAnEnumValue(name, argsDict[name])])
      case Err(e) => if e == ValueError then Step(None, [NotAnEnumValue(name, argsDict[name])]) else StepRaises(e)
  }

  function EnumSteps(enums: seq<(string, EnumLookup)>, required: seq<string>, argsDict: map<string, Value>): (s: seq<Step>)
    ensures |s| == |enums| && forall i :: 0 <= i < |enums| ==> s[i] == EnumStep(enums[i], required, argsDict)
  {
    seq(|enums|, i requires 0 <= i < |enums| => EnumStep(enums[i], required, argsDict))
  }

  /** The closure of `make_enum_checker(enums, required)` applied to `argsDict`. */
  method CheckEnums(enums: seq<(string, EnumLookup)>, required: seq<string>, argsDict: map<string, Value>) returns (r: Checked)
    ensures r == Fold(EnumSteps(enums, required, argsDict))
  {
    ghost var steps := EnumSteps(enums, required, argsDict);
    var found: map<string, Value> := map[];
    var errors: seq<CheckError> := [];
    for i := 0 to |enums|
      invariant Fold(steps[..i]) == Checked(found, errors)
    {
      FoldStep(steps, i);
      var attrName := enums[i].0;
      if attrName !in argsDict {
        continue;
      }
      var value := argsDict[attrName];
      if value == VNone {
        if attrName in required {
          errors := errors + [NotAnEnumValue(attrName, value)];
        }
        continue;
      }
      match enums[i].1(PyStr(value))
      case Ok(vnum) =>
        if vnum.None? {
          errors := errors + [NotAnEnumValue(attrName, value)];
        } else {
          found := found[attrName := vnum.value];
        }
      case Err(e) =>
        if e == ValueError {
          errors := errors + [NotAnEnumValue(attrName, value)];
        } else {
          assert Fold(steps[..i + 1]) == Raised(e);
          FoldStaysRaised(steps, i + 1);
          return Raised(e);
        }
    }
    assert steps[..|enums|] == steps;
    r := Checked(found, errors);
  }

  /** The lookup of a present, non-None value raises something other than ValueError. */
  predicate EnumRuleEscapes(rule: (string, EnumLookup), argsDict: map<string, Value>)
  {
    rule.0 in argsDict && argsDict[rule.0] != VNone && rule.1(PyStr(argsDict[rule.0])).Err? &&
    rule.1(PyStr(argsDict[rule.0])).exc != ValueError
  }

  /** The rule fails: None for a required name, or text that names no member, whether
      `from_string` returns None or raises ValueError. */
  predicate EnumFails(rule: (string, EnumLookup), required: seq<string>, argsDict: map<string, Value>)
  {
    rule.0 in argsDict &&
    if argsDict[rule.0] == VNone then rule.0 in required
    else rule.1(PyStr(argsDict[rule.0])) in {Ok(None), Err(ValueError)}
  }

  /** The lookup of a present, non-None value finds a member. */
  predicate EnumFinds(rule: (string, EnumLookup), argsDict: map<string, Value>)
  {
    rule.0 in argsDict && argsDict[rule.0] != VNone && rule.1(PyStr(argsDict[rule.0])).Ok? &&
    rule.1(PyStr(argsDict[rule.0])).value.Some?
  }

  lemma EnumStepFacts(rule: (string, EnumLookup), required: seq<string>, argsDict: map<string, Value>)
    ensures var s := EnumStep(rule, required, argsDict);
      var n := rule.0;
      && (s.StepRaises? <==> EnumRuleEscapes(rule, argsDict))
      && (s.StepRaises? ==> s.exc == rule.1(PyStr(argsDict[n])).exc)
      && (forall k :: Puts(s, k) <==> k == n && EnumFinds(rule, argsDict))
      && (Puts(s, n) ==> s.put.value.1 == rule.1(PyStr(argsDict[n])).value.value)
      && (s.Step? ==> s.errors == if EnumFails(rule, required, argsDict) then [NotAnEnumValue(n, argsDict[n])] else [])
  {
  }

  /** Only ValueError is caught: any other exception of `from_string` escapes, the first one
      in rule order. */
  lemma EnumRaises(enums: seq<(string, EnumLookup)>, required: seq<string>, argsDict: map<string, Value>)
    ensures var c := Fold(EnumSteps(enums, required, argsDict));
      && (c.Raised? <==> exists i :: 0 <= i < |enums| && EnumRuleEscapes(enums[i], argsDict))
      && (c.Raised? ==> exists i :: (0 <= i < |enums| && EnumRuleEscapes(enums[i], argsDict) &&
            c.exc == enums[i].1(PyStr(argsDict[enums[i].0])).exc &&
            forall j :: 0 <= j < i ==> !EnumRuleEscapes(enums[j], argsDict)))
  {
    var steps := EnumSteps(enums, required, argsDict);
    FoldRaises(steps);
    forall j | 0 <= j < |enums| {
      EnumStepFacts(enums[j], required, argsDict);
    }
  }

  /** When the checker does not raise, a rule's name is in `found` iff its value is
      present, not None, and `from_string(str(value))` finds a member, which is what is
      stored. */
  lemma EnumFound(enums: seq<(string, EnumLookup)>, required: seq<string>, argsDict: map<string, Value>, i: int)
    requires NoDuplicates(Names(enums)) && 0 <= i < |enums|
    requires Fold(EnumSteps(enums, required, argsDict)).Checked?
    ensures var c := Fold(EnumSteps(enums, required, argsDict));
      var n := enums[i].0;
      && (n in c.found <==> EnumFinds(enums[i], argsDict))
      && (n in c.found ==> c.found[n] == enums[i].1(PyStr(argsDict[n])).value.value)
  {
    var steps := EnumSteps(enums, required, argsDict);
    var n := enums[i].0;
    FoldFound(steps, n);
    EnumStepFacts(enums[i], required, argsDict);
    forall j | 0 <= j < |enums| && j != i ensures !Puts(steps[j], n) {
      EnumStepFacts(enums[j], required, argsDict);
      assert Names(enums)[j] != Names(enums)[i];
    }
  }

  /** A rule reports exactly one error when it fails and none otherwise. */
  lemma EnumErrors(enums: seq<(string, EnumLookup)>, required: seq<string>, argsDict: map<string, Value>, i: int)
    requires NoDuplicates(Names(enums)) && 0 <= i < |enums|
    requires Fold(EnumSteps(enums, required, argsDict)).Checked?
    ensures var c := Fold(EnumSteps(enums, required, argsDict));
      var n := enums[i].0;
      multiset(c.errors)[NotAnEnumValue(n, Get(argsDict, n))] == if EnumFails(enums[i], required, argsDict) then 1 else 0
  {
    var steps := EnumSteps(enums, required, argsDict);
    var n := enums[i].0;
    var e := NotAnEnumValue(n, Get(argsDict, n));
    FoldErrors(steps, e);
    EnumStepFacts(enums[i], required, argsDict);
    forall j | 0 <= j < |enums| && j != i && steps[j].Step? ensures e !in steps[j].errors {
      EnumStepFacts(enums[j], required, argsDict);
      assert Names(enums)[j] != Names(enums)[i];
    }
    ErrorCountSingle(steps, i, e);
  }

  /** Nothing else: `found` holds only rule names and every error is that of a failing rule. */
  lemma EnumNothingElse(enums: seq<(string, EnumLookup)>, required: seq<string>, argsDict: map<string, Value>)
    requires Fold(EnumSteps(enums, required, argsDict)).Checked?
    ensures var c := Fold(EnumSteps(enums, required, argsDict));
      && (forall k :: k in c.found ==> k in Names(enums))
      && (forall e :: e in c.errors ==> exists j :: (0 <= j < |enums| &&
            EnumFails(enums[j], required, argsDict) && e == NotAnEnumValue(enums[j].0, argsDict[enums[j].0])))
  {
    var steps := EnumSteps(enums, required, argsDict);
    var c := Fold(steps);
    forall k | k in c.found ensures k in Names(enums) {
      FoldFound(steps, k);
      var j :| 0 <= j < |steps| && Puts(steps[j], k);
      EnumStepFacts(enums[j], required, argsDict);
    }
    forall e | e in c.errors
      ensures exists j :: (0 <= j < |enums| &&
        EnumFails(enums[j], required, argsDict) && e == NotAnEnumValue(enums[j].0, argsDict[enums[j].0]))
    {
      FoldErrorOrigin(steps, e);
      var j :| 0 <= j < |steps| && steps[j].Step? && e in steps[j].errors;
      EnumStepFacts(enums[j], required, argsDict);
    }
  }

  // ---------------------------------------------------------------------------
  // to_bool and make_bool_converter

  /** `to_bool`: the lower-cased `str(value)` must be one of five literals; anything else
      raises ValueError. */
  function ToBool(value: Value): (r: Result<bool>)
    ensures r.Err? ==> r.exc == ValueError
  {
    var v := Lower(PyStr(value));
    if v in ["none", "0", "false"] then Ok(false)
    else if v in ["true", "1"] then Ok(true)
    else Err(ValueError)
  }

  /** `to_bool` inverts `str` on booleans, and reads None as False. */
  lemma ToBoolOfBool(b: bool)
    ensures ToBool(VBool(b)) == Ok(b)
    ensures ToBool(VNone) == Ok(false)
  {
    assert Lower("True") == "true";
    assert Lower("False") == "false";
    assert Lower("None") == "none";
  }

  /** Text is read case-insensitively. */
  lemma ToBoolIgnoresCase(s: string)
    ensures ToBool(VStr(s)) == ToBool(VStr(Lower(s)))
  {
    LowerIdempotent(s);
  }

  /** Of the integers, only 0 and 1 are accepted. */
  lemma ToBoolOfInt(i: int)
    ensures ToBool(VInt(i)) == if i == 0 then Ok(false) else if i == 1 then Ok(true) else Err(ValueError)
  {
    var t := DecimalString(i);
    assert PyStr(VInt(i)) == t;
    if i < 0 {
      assert Lower(t)[0] == '-';
    } else if i < 10 {
      assert t == [DigitChar(i)];
      assert Lower(t) == t;
    } else {
      assert |t| >= 2 && IsDigit(t[0]);
      assert IsDigit(Lower(t)[0]);
    }
  }

  function BoolStep(name: string, required: seq<string>, argsDict: map<string, Value>): Step
  {
    if name !in argsDict then Step(None, [])
    else if argsDict[name] == VNone then
      // `errors.append()` is called without an argument: that raises TypeError
      (if name in required then StepRaises(TypeError) else Step(None, []))
    else
      match ToBool(argsDict[name])
      case Ok(b) => Step(Some((name, VBool(b))), [])
      case Err(_) => Step(None, [NotABoolean(name, argsDict[name])])
  }

  function BoolSteps(bools: seq<string>, required: seq<string>, argsDict: map<string, Value>): (s: seq<Step>)
    ensures |s| == |bools| && forall i :: 0 <= i < |bools| ==> s[i] == BoolStep(bools[i], required, argsDict)
  {
    seq(|bools|, i requires 0 <= i < |bools| => BoolStep(bools[i], required, argsDict))
  }

  /** The closure of `make_bool_converter(bools, required)` applied to `argsDict`. */
  method ConvertBools(bools: seq<string>, required: seq<string>, argsDict: map<string, Value>) returns (r: Checked)
    ensures r == Fold(BoolSteps(bools, required, argsDict))
  {
    ghost var steps := BoolSteps(bools, required, argsDict);
    var found: map<string, Value> := map[];
    var errors: seq<CheckError> := [];
    for i := 0 to |bools|
      invariant Fold(steps[..i]) == Checked(found, errors)
    {
      FoldStep(steps, i);
      var attrName := bools[i];
      if attrName !in argsDict {
        continue;
      }
      var attrValue := argsDict[attrName];
      if attrValue == VNone {
        if attrName in required {
          assert Fold(steps[..i + 1]) == Raised(TypeError);
          FoldStaysRaised(steps, i + 1);
          return Raised(TypeError);
        }
        continue;
      }
      match ToBool(attrValue)
      case Ok(b) =>
        found := found[attrName := VBool(b)];
      case Err(_) =>
        errors := errors + [NotABoolean(attrName, attrValue)];
    }
    assert steps[..|bools|] == steps;
    r := Checked(found, errors);
  }

  predicate BoolParses(name: string, argsDict: map<string, Value>)
  {
    name in argsDict && argsDict[name] != VNone && ToBool(argsDict[name]).Ok?
  }

  predicate BoolFails(name: string, argsDict: map<string, Value>)
  {
    name in argsDict && argsDict[name] != VNone && ToBool(argsDict[name]).Err?
  }

  lemma BoolStepFacts(name: string, required: seq<string>, argsDict: map<string, Value>)
    ensures var s := BoolStep(name, required, argsDict);
      && (s.StepRaises? <==> name in argsDict && argsDict[name] == VNone && name in required)
      && (s.StepRaises? ==> s.exc == TypeError)
      && (forall k :: Puts(s, k) <==> k == name && BoolParses(name, argsDict))
      && (Puts(s, name) ==> s.put.value.1 == VBool(ToBool(argsDict[name]).value))
      && (s.Step? ==> s.errors == if BoolFails(name, argsDict) then [NotABoolean(name, argsDict[name])] else [])
  {
  }

  /** The bool converter raises TypeError iff a required name is present with value None. */
  lemma BoolRaises(bools: seq<string>, required: seq<string>, argsDict: map<string, Value>)
    ensures var c := Fold(BoolSteps(bools, required, argsDict));
      && (c.Raised? <==> exists j :: 0 <= j < |bools| && bools[j] in argsDict && argsDict[bools[j]] == VNone && bools[j] in required)
      && (c.Raised? ==> c.exc == TypeError)
  {
    var steps := BoolSteps(bools, required, argsDict);
    FoldRaises(steps);
    forall j | 0 <= j < |bools| {
      BoolStepFacts(bools[j], required, argsDict);
    }
  }

  /** A name is in `found` iff its value is present, not None and accepted by `to_bool`;
      the stored value is the parsed boolean. */
  lemma BoolFound(bools: seq<string>, required: seq<string>, argsDict: map<string, Value>, i: int)
    requires NoDuplicates(bools) && 0 <= i < |bools|
    requires Fold(BoolSteps(bools, required, argsDict)).Checked?
    ensures var c := Fold(BoolSteps(bools, required, argsDict));
      var n := bools[i];
      && (n in c.found <==> BoolParses(n, argsDict))
      && (n in c.found ==> c.found[n] == VBool(ToBool(argsDict[n]).value))
  {
    var steps := BoolSteps(bools, required, argsDict);
    var n := bools[i];
    FoldFound(steps, n);
    BoolStepFacts(n, required, argsDict);
    forall j | 0 <= j < |bools| && j != i ensures !Puts(steps[j], n) {
      BoolStepFacts(bools[j], required, argsDict);
    }
  }

  /** A name reports exactly one error when `to_bool` rejects its value, and none otherwise. */
  lemma BoolErrors(bools: seq<string>, required: seq<string>, argsDict: map<string, Value>, i: int)
    requires NoDuplicates(bools) && 0 <= i < |bools|
    requires Fold(BoolSteps(bools, required, argsDict)).Checked?
    ensures var c := Fold(BoolSteps(bools, required, argsDict));
      var n := bools[i];
      multiset(c.errors)[NotABoolean(n, Get(argsDict, n))] == if BoolFails(n, argsDict) then 1 else 0
  {
    var steps := BoolSteps(bools, required, argsDict);
    var n := bools[i];
    var e := NotABoolean(n, Get(argsDict, n));
    FoldErrors(steps, e);
    FoldRaises(steps);
    BoolStepFacts(n, required, argsDict);
    forall j | 0 <= j < |bools| && j != i && steps[j].Step? ensures e !in steps[j].errors {
      BoolStepFacts(bools[j], required, argsDict);
    }
    ErrorCountSingle(steps, i, e);
  }

  /** Nothing else: `found` holds only rule names and every error is that of a failing name. */
  lemma BoolNothingElse(bools: seq<string>, required: seq<string>, argsDict: map<string, Value>)
    requires Fold(BoolSteps(bools, required, argsDict)).Checked?
    ensures var c := Fold(BoolSteps(bools, required, argsDict));
      && (forall k :: k in c.found ==> k in bools)
      && (forall e :: e in c.errors ==> e.NotABoolean? && BoolFails(e.name, argsDict) && e.value == argsDict[e.name])
  {
    var steps := BoolSteps(bools, required, argsDict);
    var c := Fold(steps);
    forall k | k in c.found ensures k in bools {
      FoldFound(steps, k);
      var j :| 0 <= j < |steps| && Puts(steps[j], k);
      BoolStepFacts(bools[j], required, argsDict);
    }
    forall e | e in c.errors ensures e.NotABoolean? && BoolFails(e.name, argsDict) && e.value == argsDict[e.name] {
      FoldErrorOrigin(steps, e);
      var j :| 0 <= j < |steps| && steps[j].Step? && e in steps[j].errors;
      BoolStepFacts(bools[j], required, argsDict);
    }
  }

  // ---------------------------------------------------------------------------
  // make_class_checker

  /** `isinstance(v, cls)` for a class of the model (the classes have no subclasses). */
  predicate IsInstance(v: Value, cls: string)
  {
    v.VObj? && v.cls == cls
  }

  /** The errors `check_for_class` appends, one per item that is not an instance. */
  function WrongClassErrors(name: string, cls: string, items: seq<Value>): (r: seq<CheckError>)
    ensures forall e :: e in r ==> e.WrongClass? && e.name == name && e.cls == cls && !IsInstance(e.value, cls)
    decreases |items|
  {
    if items == [] then []
    else
      WrongClassErrors(name, cls, items[..|items| - 1]) +
      (if IsInstance(items[|items| - 1], cls) then [] else [WrongClass(name, cls, items[|items| - 1])])
  }

  /** Each item that is not an instance gives one error per occurrence; instances give none. */
  lemma {:induction false} WrongClassErrorsCount(name: string, cls: string, items: seq<Value>)
    ensures forall x :: (multiset(WrongClassErrors(name, cls, items))[WrongClass(name, cls, x)] ==
      if IsInstance(x, cls) then 0 else multiset(items)[x])
  {
    if items != [] {
      var p := items[..|items| - 1];
      WrongClassErrorsCount(name, cls, p);
      assert items == p + [items[|items| - 1]];
    }
  }

  /** The checked items of a present value: None (reported only for a required name),
      the value itself, or the elements of a container. */
  function ClassStep(rule: (string, string, bool), required: seq<string>, argsDict: map<string, Value>): Step
  {
    var name := rule.0;
    var cls := rule.1;
    if name !in argsDict then Step(None, [])
    else if argsDict[name] == VNone then
      (if name in required then Step(None, WrongClassErrors(name, cls, [VNone])) else Step(None, []))
    else if !rule.2 then Step(Some((name, argsDict[name])), WrongClassErrors(name, cls, [argsDict[name]]))
    else
      match Iterate(argsDict[name])
      case Ok(items) => Step(Some((name, argsDict[name])), WrongClassErrors(name, cls, items))
      case Err(e) => StepRaises(e)
  }

  function ClassSteps(classes: seq<(string, string, bool)>, required: seq<string>, argsDict: map<string, Value>): (s: seq<Step>)
    ensures |s| == |classes| && forall i :: 0 <= i < |classes| ==> s[i] == ClassStep(classes[i], required, argsDict)
  {
    seq(|classes|, i requires 0 <= i < |classes| => ClassStep(classes[i], required, argsDict))
  }

  /** The inner loop of `check_for_class` over the elements of a container. */
  method CheckItems(name: string, cls: string, items: seq<Value>) returns (errors: seq<CheckError>)
    ensures errors == WrongClassErrors(name, cls, items)
  {
    errors := [];
    for k := 0 to |items|
      invariant errors == WrongClassErrors(name, cls, items[..k])
    {
      assert items[..k + 1][..k] == items[..k];
      if !IsInstance(items[k], cls) {
        errors := errors + [WrongClass(name, cls, items[k])];
      }
    }
    assert items[..|items|] == items;
  }

  /** The closure of `make_class_checker(classes, required)` applied to `argsDict`. */
  method CheckClasses(classes: seq<(string, string, bool)>, required: seq<string>, argsDict: map<string, Value>) returns (r: Checked)
    ensures r == Fold(ClassSteps(classes, required, argsDict))
  {
    ghost var steps := ClassSteps(classes, required, argsDict);
    var found: map<string, Value> := map[];
    var errors: seq<CheckError> := [];
    for i := 0 to |classes|
      invariant Fold(steps[..i]) == Checked(found, errors)
    {
      FoldStep(steps, i);
      var attrName := classes[i].0;
      var clazz := classes[i].1;
      if attrName !in argsDict {
        continue;
      }
      var value := argsDict[attrName];
      if value == VNone {
        if attrName in required {
          var errs := CheckItems(attrName, clazz, [value]);
          errors := errors + errs;
        }
        continue;
      }
      found := found[attrName := value];
      if !classes[i].2 {
        var errs := CheckItems(attrName, clazz, [value]);
        errors := errors + errs;
      } else {
        var items := Iterate(value);
        if items.Err? {
          assert Fold(steps[..i + 1]) == Raised(items.exc);
          FoldStaysRaised(steps, i + 1);
          return Raised(items.exc);
        }
        var errs := CheckItems(attrName, clazz, items.value);
        errors := errors + errs;
      }
    }
    assert steps[..|classes|] == steps;
    r := Checked(found, errors);
  }

  /** The items a rule checks: none when the name is absent or None and optional. */
  function CheckedItems(rule: (string, string, bool), required: seq<string>, argsDict: map<string, Value>): seq<Value>
  {
    var name := rule.0;
    if name !in argsDict then []
    else if argsDict[name] == VNone then (if name in required then [VNone] else [])
    else if !rule.2 then [argsDict[name]]
    else match Iterate(argsDict[name]) case Ok(items) => items case Err(_) => []
  }

  lemma ClassStepFacts(rule: (string, string, bool), required: seq<string>, argsDict: map<string, Value>)
    ensures var s := ClassStep(rule, required, argsDict);
      var n := rule.0;
      && (s.StepRaises? <==> rule.2 && n in argsDict && argsDict[n] != VNone && Iterate(argsDict[n]).Err?)
      && (forall k :: Puts(s, k) <==> k == n && n in argsDict && argsDict[n] != VNone && s.Step?)
      && (Puts(s, n) ==> s.put.value.1 == argsDict[n])
      && (s.Step? ==> s.errors == WrongClassErrors(n, rule.1, CheckedItems(rule, required, argsDict)))
  {
  }

  /** The class checker raises only when a container rule meets a present, non-None value
      that is not iterable. */
  lemma ClassRaises(classes: seq<(string, string, bool)>, required: seq<string>, argsDict: map<string, Value>)
    ensures var c := Fold(ClassSteps(classes, required, argsDict));
      && (c.Raised? <==> exists j :: (0 <= j < |classes| && classes[j].2 && classes[j].0 in argsDict &&
            argsDict[classes[j].0] != VNone && Iterate(argsDict[classes[j].0]).Err?))
      && (c.Raised? ==> c.exc == TypeError)
  {
    var steps := ClassSteps(classes, required, argsDict);
    FoldRaises(steps);
    forall j | 0 <= j < |classes| {
      ClassStepFacts(classes[j], required, argsDict);
    }
    if Fold(steps).Raised? {
      var k :| 0 <= k < |steps| && steps[k] == StepRaises(Fold(steps).exc);
      ClassStepFacts(classes[k], required, argsDict);
    }
  }

  /** A present, non-None value is stored as given, whatever the check finds. */
  lemma ClassFound(classes: seq<(string, string, bool)>, required: seq<string>, argsDict: map<string, Value>, i: int)
    requires NoDuplicates(ClassNames(classes)) && 0 <= i < |classes|
    requires Fold(ClassSteps(classes, required, argsDict)).Checked?
    ensures var c := Fold(ClassSteps(classes, required, argsDict));
      var n := classes[i].0;
      && (n in c.found <==> n in argsDict && argsDict[n] != VNone)
      && (n in c.found ==> c.found[n] == argsDict[n])
  {
    var steps := ClassSteps(classes, required, argsDict);
    var n := classes[i].0;
    FoldFound(steps, n);
    FoldRaises(steps);
    ClassStepFacts(classes[i], required, argsDict);
    forall j | 0 <= j < |classes| && j != i ensures !Puts(steps[j], n) {
      ClassStepFacts(classes[j], required, argsDict);
      assert ClassNames(classes)[j] != ClassNames(classes)[i];
    }
  }

  /** Nothing else: `found` holds only rule names and every error names a rule. */
  lemma ClassNothingElse(classes: seq<(string, string, bool)>, required: seq<string>, argsDict: map<string, Value>)
    requires Fold(ClassSteps(classes, required, argsDict)).Checked?
    ensures var c := Fold(ClassSteps(classes, required, argsDict));
      && (forall k :: k in c.found ==> k in ClassNames(classes))
      && (forall e :: e in c.errors ==> e.WrongClass? && e.name in ClassNames(classes) && !IsInstance(e.value, e.cls))
  {
    var steps := ClassSteps(classes, required, argsDict);
    forall k | k in Fold(steps).found ensures k in ClassNames(classes) {
      FoldFound(steps, k);
      var j :| 0 <= j < |steps| && Puts(steps[j], k);
      ClassStepFacts(classes[j], required, argsDict);
    }
    forall e | e in Fold(steps).errors
      ensures e.WrongClass? && e.name in ClassNames(classes) && !IsInstance(e.value, e.cls)
    {
      FoldErrorOrigin(steps, e);
      var j :| 0 <= j < |steps| && steps[j].Step? && e in steps[j].errors;
      ClassStepFacts(classes[j], required, argsDict);
    }
  }

  /** One error per occurrence of a checked item that is not an instance of the rule's
      class: the value itself for a scalar rule, each element for a container rule, and
      None for a required name given None. */
  lemma ClassErrors(classes: seq<(string, string, bool)>, required: seq<string>, argsDict: map<string, Value>, i: int)
    requires NoDuplicates(ClassNames(classes)) && 0 <= i < |classes|
    requires Fold(ClassSteps(classes, required, argsDict)).Checked?
    ensures var c := Fold(ClassSteps(classes, required, argsDict));
      var (n, cls) := (classes[i].0, classes[i].1);
      forall x :: multiset(c.errors)[WrongClass(n, cls, x)] ==
        if IsInstance(x, cls) then 0 else multiset(CheckedItems(classes[i], required, argsDict))[x]
  {
    var steps := ClassSteps(classes, required, argsDict);
    var n := classes[i].0;
    var cls := classes[i].1;
    FoldRaises(steps);
    ClassStepFacts(classes[i], required, argsDict);
    WrongClassErrorsCount(n, cls, CheckedItems(classes[i], required, argsDict));
    forall x ensures multiset(Fold(steps).errors)[WrongClass(n, cls, x)] ==
      if IsInstance(x, cls) then 0 else multiset(CheckedItems(classes[i], required, argsDict))[x]
    {
      var e := WrongClass(n, cls, x);
      FoldErrors(steps, e);
      forall j | 0 <= j < |classes| && j != i && steps[j].Step? ensures e !in steps[j].errors {
        ClassStepFacts(classes[j], required, argsDict);
        assert ClassNames(classes)[j] != ClassNames(classes)[i];
      }
      ErrorCountSingle(steps, i, e);
    }
  }

  // ---------------------------------------------------------------------------
  // pre_make

  /** The arguments of `pre_make`; `required` is None when the caller passes none. */
  datatype Rules = Rules(
    required: Option<seq<string>>,
    oneOfs: seq<seq<string>>,
    converters: seq<(string, Converter)>,
    enums: seq<(string, EnumLookup)>,
    classes: seq<(string, string, bool)>,
    bools: seq<string>)

  /** What the decorated `make` does: call the constructor with these keyword arguments,
      raise `ValueError(errors)`, or let an exception of a checker escape. */
  datatype MakeOutcome = Made(kwargs: map<string, Value>) | Rejected(errors: seq<CheckError>) | Crashed(exc: PyExc)

  datatype CheckerKind = RequiredChecker | OneOfChecker | ConverterChecker | EnumChecker | BoolChecker | ClassChecker

  /** The order of the `ccs` tuple. */
  const CheckerOrder: seq<CheckerKind> :=
    [RequiredChecker, OneOfChecker, ConverterChecker, EnumChecker, BoolChecker, ClassChecker]

  function CheckerResult(kind: CheckerKind, rules: Rules, required: seq<string>, argsDict: map<string, Value>): Checked
  {
    match kind
    case RequiredChecker => Fold(RequiredSteps(required, argsDict))
    case OneOfChecker => Fold(OneOfSteps(rules.oneOfs, argsDict))
    case ConverterChecker => Fold(ConverterSteps(rules.converters, required, argsDict))
    case EnumChecker => Fold(EnumSteps(rules.enums, required, argsDict))
    case BoolChecker => Fold(BoolSteps(rules.bools, required, argsDict))
    case ClassChecker => Fold(ClassSteps(rules.classes, required, argsDict))
  }

  /** `found.update(f); errors.extend(e)`, or the exception of either side. */
  function Merge(acc: Checked, c: Checked): Checked
  {
    match acc
    case Raised(e) => Raised(e)
    case Checked(found, errors) =>
      match c
      case Raised(e) => Raised(e)
      case Checked(f, es) => Checked(found + f, errors + es)
  }

  /** The state of `new_make` after running the first checkers of `kinds`, each giving
      `results(kind)`. */
  function Accumulate(kinds: seq<CheckerKind>, results: CheckerKind -> Checked): Checked
    decreases |kinds|
  {
    if kinds == [] then Checked(map[], [])
    else Merge(Accumulate(kinds[..|kinds| - 1], results), results(kinds[|kinds| - 1]))
  }

  function Results(rules: Rules, required: seq<string>, argsDict: map<string, Value>): CheckerKind -> Checked
  {
    kind => CheckerResult(kind, rules, required, argsDict)
  }

  /** `pre_make(...)(make_func)(**kwargs)`: the six checkers' results merged in `ccs`
      order (`NewMake` is the loop that does so). */
  function PreMake(rules: Rules, kwargs: map<string, Value>): MakeOutcome
  {
    match rules.required
    case None => Crashed(TypeError)  // `set(None)`
    case Some(required) =>
      var all := Accumulate(CheckerOrder, Results(rules, required, kwargs));
      match all
      case Raised(e) => Crashed(e)
      case Checked(found, errors) => if errors != [] then Rejected(errors) else Made(found)
  }

  method RunChecker(kind: CheckerKind, rules: Rules, required: seq<string>, argsDict: map<string, Value>) returns (r: Checked)
    ensures r == CheckerResult(kind, rules, required, argsDict)
  {
    match kind
    case RequiredChecker => r := CheckRequired(required, argsDict);
    case OneOfChecker => r := CheckOneOf(rules.oneOfs, argsDict);
    case ConverterChecker => r := Convert(rules.converters, required, argsDict);
    case EnumChecker => r := CheckEnums(rules.enums, required, argsDict);
    case BoolChecker => r := ConvertBools(rules.bools, required, argsDict);
    case ClassChecker => r := CheckClasses(rules.classes, required, argsDict);
  }

  /** `new_make(**kwargs)` of `pre_make(...)(make_func)`, returning what it would pass to
      `make_func` instead of calling it. */
  method NewMake(rules: Rules, kwargs: map<string, Value>) returns (r: MakeOutcome)
    ensures r == PreMake(rules, kwargs)
  {
    if rules.required.None? {
      return Crashed(TypeError);
    }
    var required := rules.required.value;
    ghost var results := Results(rules, required, kwargs);
    var ccs := CheckerOrder;
    var found: map<string, Value> := map[];
    var errors: seq<CheckError> := [];
    for i := 0 to |ccs|
      invariant Accumulate(ccs[..i], results) == Checked(found, errors)
    {
      assert ccs[..i + 1][..i] == ccs[..i];
      var c := RunChecker(ccs[i], rules, required, kwargs);
      assert c == results(ccs[i]);
      if c.Raised? {
        assert Accumulate(ccs[..i + 1], results) == Raised(c.exc);
        AccumulateStaysRaised(ccs, i + 1, results);
        return Crashed(c.exc);
      }
      found := found + c.found;
      errors := errors + c.errors;
    }
    assert ccs[..|ccs|] == ccs;
    if errors != [] {
      r := Rejected(errors);
    } else {
      r := Made(found);
    }
  }

  lemma {:induction false} AccumulateStaysRaised(kinds: seq<CheckerKind>, k: int, results: CheckerKind -> Checked)
    requires 0 <= k <= |kinds| && Accumulate(kinds[..k], results).Raised?
    ensures Accumulate(kinds, results) == Accumulate(kinds[..k], results)
    decreases |kinds| - k
  {
    if k < |kinds| {
      assert kinds[..k + 1][..k] == kinds[..k];
      AccumulateStaysRaised(kinds, k + 1, results);
    } else {
      assert kinds[..k] == kinds;
    }
  }

  /** The six checker results folded in `ccs` order. */
  lemma AccumulateAll(results: CheckerKind -> Checked)
    ensures Accumulate(CheckerOrder, results) ==
      Merge(Merge(Merge(Merge(Merge(Merge(Checked(map[], []),
        results(RequiredChecker)), results(OneOfChecker)), results(ConverterChecker)),
        results(EnumChecker)), results(BoolChecker)), results(ClassChecker))
  {
    var k := CheckerOrder;
    assert k[..1][..0] == [];
    assert Accumulate(k[..1], results) == Merge(Checked(map[], []), results(RequiredChecker));
    assert k[..2][..1] == k[..1];
    assert Accumulate(k[..2], results) == Merge(Accumulate(k[..1], results), results(OneOfChecker));
    assert k[..3][..2] == k[..2];
    assert Accumulate(k[..3], results) == Merge(Accumulate(k[..2], results), results(ConverterChecker));
    assert k[..4][..3] == k[..3];
    assert Accumulate(k[..4], results) == Merge(Accumulate(k[..3], results), results(EnumChecker));
    assert k[..5][..4] == k[..4];
    assert Accumulate(k[..5], results) == Merge(Accumulate(k[..4], results), results(BoolChecker));
    assert k[..6][..5] == k[..5];
    assert Accumulate(k[..6], results) == Merge(Accumulate(k[..5], results), results(ClassChecker));
    assert k[..6] == k;
  }

  /** Folding six results that way: the first exception wins, otherwise errors are
      concatenated and found maps merged in order. */
  lemma MergeSix(c1: Checked, c2: Checked, c3: Checked, c4: Checked, c5: Checked, c6: Checked)
    requires c1.Checked? && c2.Checked?
    ensures var r := Merge(Merge(Merge(Merge(Merge(Merge(Checked(map[], []), c1), c2), c3), c4), c5), c6);
      && (r.Raised? <==> c3.Raised? || c4.Raised? || c5.Raised? || c6.Raised?)
      && (r.Raised? ==>
            r.exc == (if c3.Raised? then c3.exc else if c4.Raised? then c4.exc else if c5.Raised? then c5.exc else c6.exc))
      && (r.Checked? ==>
            && r.errors == c1.errors + c2.errors + c3.errors + c4.errors + c5.errors + c6.errors
            && r.found == c1.found + c2.found + c3.found + c4.found + c5.found + c6.found)
  {
    assert map[] + c1.found == c1.found;
  }

  /** No short circuit: with a required list, every checker runs on the same input and the
      outcome is decided by all of them together: the exception of the first checker that
      raises, else a rejection carrying every error in checker order, else the
      constructor call with the union of the found maps, later checkers winning. */
  lemma PreMakeOutcome(rules: Rules, kwargs: map<string, Value>)
    requires rules.required.Some?
    ensures var req := rules.required.value;
      var c1 := CheckerResult(RequiredChecker, rules, req, kwargs);
      var c2 := CheckerResult(OneOfChecker, rules, req, kwargs);
      var c3 := CheckerResult(ConverterChecker, rules, req, kwargs);
      var c4 := CheckerResult(EnumChecker, rules, req, kwargs);
      var c5 := CheckerResult(BoolChecker, rules, req, kwargs);
      var c6 := CheckerResult(ClassChecker, rules, req, kwargs);
      var r := PreMake(rules, kwargs);
      && c1.Checked? && c2.Checked?
      && (r.Crashed? <==> c3.Raised? || c4.Raised? || c5.Raised? || c6.Raised?)
      && (r.Crashed? ==>
            r.exc == (if c3.Raised? then c3.exc else if c4.Raised? then c4.exc else if c5.Raised? then c5.exc else c6.exc))
      && (!r.Crashed? ==>
            var errors := c1.errors + c2.errors + c3.errors + c4.errors + c5.errors + c6.errors;
            && (r.Rejected? <==> errors != [])
            && (r.Rejected? ==> r.errors == errors)
            && (r.Made? ==> r.kwargs == c1.found + c2.found + c3.found + c4.found + c5.found + c6.found))
  {
    var req := rules.required.value;
    var results := Results(rules, req, kwargs);
    RequiredFound(req, kwargs);
    OneOfFound(rules.oneOfs, kwargs);
    AccumulateAll(results);
    MergeSix(results(RequiredChecker), results(OneOfChecker), results(ConverterChecker),
      results(EnumChecker), results(BoolChecker), results(ClassChecker));
  }

  /** Every name a rule mentions. */
  function RuleNames(rules: Rules, required: seq<string>): set<string>
  {
    (set n | n in required) + (set g, n | g in rules.oneOfs && n in g :: n) +
    (set n | n in Names(rules.converters)) + (set n | n in Names(rules.enums)) +
    (set n | n in rules.bools) + (set n | n in ClassNames(rules.classes))
  }

  /** `pre_make(required=None)` evaluates `set(None)` and raises TypeError. */
  lemma PreMakeWithoutRequired(rules: Rules, kwargs: map<string, Value>)
    requires rules.required.None?
    ensures PreMake(rules, kwargs) == Crashed(TypeError)
  {
  }

  /** The keys a checker stores are names its rules mention. */
  lemma FoundKeysAreRuleNames(kind: CheckerKind, rules: Rules, req: seq<string>, kwargs: map<string, Value>)
    requires CheckerResult(kind, rules, req, kwargs).Checked?
    ensures CheckerResult(kind, rules, req, kwargs).found.Keys <= RuleNames(rules, req)
  {
    var c := CheckerResult(kind, rules, req, kwargs);
    match kind
    case RequiredChecker => RequiredFound(req, kwargs);
    case OneOfChecker =>
      OneOfFound(rules.oneOfs, kwargs);
      forall k | k in c.found ensures k in RuleNames(rules, req) {
        var g :| g in rules.oneOfs && Existing(g, kwargs) == [k];
        ExistingMembers(g, kwargs);
        assert k in Existing(g, kwargs);
      }
    case ConverterChecker => ConverterNothingElse(rules.converters, req, kwargs);
    case EnumChecker => EnumNothingElse(rules.enums, req, kwargs);
    case BoolChecker => BoolNothingElse(rules.bools, req, kwargs);
    case ClassChecker => ClassNothingElse(rules.classes, req, kwargs);
  }

  /** Input keys named by no rule never reach the constructor. */
  lemma PreMakeDropsUnnamedKeys(rules: Rules, kwargs: map<string, Value>)
    requires PreMake(rules, kwargs).Made?
    ensures PreMake(rules, kwargs).kwargs.Keys <= RuleNames(rules, rules.required.value)
  {
    var req := rules.required.value;
    PreMakeOutcome(rules, kwargs);
    FoundKeysAreRuleNames(RequiredChecker, rules, req, kwargs);
    FoundKeysAreRuleNames(OneOfChecker, rules, req, kwargs);
    FoundKeysAreRuleNames(ConverterChecker, rules, req, kwargs);
    FoundKeysAreRuleNames(EnumChecker, rules, req, kwargs);
    FoundKeysAreRuleNames(BoolChecker, rules, req, kwargs);
    FoundKeysAreRuleNames(ClassChecker, rules, req, kwargs);
  }

  // ---------------------------------------------------------------------------
  // When a checker reports nothing

  /** The required checker reports nothing iff every required name is a key. */
  lemma RequiredClean(required: seq<string>, argsDict: map<string, Value>)
    ensures Fold(RequiredSteps(required, argsDict)).Checked?
    ensures Fold(RequiredSteps(required, argsDict)).errors == [] <==> forall n :: n in required ==> n in argsDict
  {
    RequiredErrors(required, argsDict);
    var c := Fold(RequiredSteps(required, argsDict));
    if c.errors != [] {
      assert multiset(c.errors)[c.errors[0]] > 0;
    }
    forall n | n in required && n !in argsDict ensures c.errors != [] {
      assert multiset(c.errors)[MissingRequired(n)] > 0;
    }
  }

  /** The one-of checker reports nothing iff every group has exactly one truthy member. */
  lemma OneOfClean(oneOfs: seq<seq<string>>, argsDict: map<string, Value>)
    ensures Fold(OneOfSteps(oneOfs, argsDict)).Checked?
    ensures Fold(OneOfSteps(oneOfs, argsDict)).errors == [] <==> forall g :: g in oneOfs ==> |Existing(g, argsDict)| == 1
  {
    OneOfFound(oneOfs, argsDict);
    var c := Fold(OneOfSteps(oneOfs, argsDict));
    if c.errors != [] {
      var e := c.errors[0];
      OneOfErrors(oneOfs, argsDict, e);
      assert multiset(c.errors)[e] > 0;
      assert e.NotExactlyOne? && |Existing(e.group, argsDict)| != 1 && multiset(oneOfs)[e.group] > 0;
      assert e.group in oneOfs;
    }
    forall g | g in oneOfs && |Existing(g, argsDict)| != 1 ensures c.errors != [] {
      OneOfErrors(oneOfs, argsDict, NotExactlyOne(g, Existing(g, argsDict)));
      assert multiset(c.errors)[NotExactlyOne(g, Existing(g, argsDict))] > 0;
    }
  }

  /** The converter reports nothing iff no rule fails. */
  lemma ConverterClean(converters: seq<(string, Converter)>, required: seq<string>, argsDict: map<string, Value>)
    requires NoDuplicates(Names(converters))
    requires Fold(ConverterSteps(converters, required, argsDict)).Checked?
    ensures Fold(ConverterSteps(converters, required, argsDict)).errors == [] <==>
      forall i :: 0 <= i < |converters| ==> !ConverterFails(converters[i], required, argsDict)
  {
    var c := Fold(ConverterSteps(converters, required, argsDict));
    if c.errors != [] {
      ConverterNothingElse(converters, required, argsDict);
      assert c.errors[0] in c.errors;
    }
    forall i | 0 <= i < |converters| && ConverterFails(converters[i], required, argsDict) ensures c.errors != [] {
      ConverterErrors(converters, required, argsDict, i);
    }
  }

  /** Every error of the class checker is that of a checked item that is not an instance. */
  lemma ClassErrorItem(classes: seq<(string, string, bool)>, required: seq<string>, argsDict: map<string, Value>, e: CheckError)
    requires Fold(ClassSteps(classes, required, argsDict)).Checked?
    requires e in Fold(ClassSteps(classes, required, argsDict)).errors
    ensures exists j :: (0 <= j < |classes| && e.WrongClass? && e.value in CheckedItems(classes[j], required, argsDict) &&
      !IsInstance(e.value, classes[j].1))
  {
    var steps := ClassSteps(classes, required, argsDict);
    FoldErrorOrigin(steps, e);
    var j :| 0 <= j < |steps| && steps[j].Step? && e in steps[j].errors;
    ClassStepFacts(classes[j], required, argsDict);
    var items := CheckedItems(classes[j], required, argsDict);
    var n, cls := classes[j].0, classes[j].1;
    assert e in WrongClassErrors(n, cls, items);
    WrongClassErrorsCount(n, cls, items);
    assert e == WrongClass(n, cls, e.value);
    assert multiset(WrongClassErrors(n, cls, items))[WrongClass(n, cls, e.value)] > 0;
  }

  /** The class checker reports nothing iff every checked item is an instance. */
  lemma ClassClean(classes: seq<(string, string, bool)>, required: seq<string>, argsDict: map<string, Value>)
    requires NoDuplicates(ClassNames(classes))
    requires Fold(ClassSteps(classes, required, argsDict)).Checked?
    ensures Fold(ClassSteps(classes, required, argsDict)).errors == [] <==>
      forall i, x :: 0 <= i < |classes| && x in CheckedItems(classes[i], required, argsDict) ==> IsInstance(x, classes[i].1)
  {
    var c := Fold(ClassSteps(classes, required, argsDict));
    if c.errors != [] {
      ClassErrorItem(classes, required, argsDict, c.errors[0]);
    }
    forall i, x | 0 <= i < |classes| && x in CheckedItems(classes[i], required, argsDict) && !IsInstance(x, classes[i].1)
      ensures c.errors != []
    {
      ClassItemError(classes, required, argsDict, i, x);
    }
  }

  lemma ClassItemError(classes: seq<(string, string, bool)>, required: seq<string>, argsDict: map<string, Value>, i: int, x: Value)
    requires NoDuplicates(ClassNames(classes)) && 0 <= i < |classes|
    requires Fold(ClassSteps(classes, required, argsDict)).Checked?
    requires x in CheckedItems(classes[i], required, argsDict) && !IsInstance(x, classes[i].1)
    ensures WrongClass(classes[i].0, classes[i].1, x) in Fold(ClassSteps(classes, required, argsDict)).errors
  {
    ClassErrors(classes, required, argsDict, i);
    var c := Fold(ClassSteps(classes, required, argsDict));
    assert multiset(CheckedItems(classes[i], required, argsDict))[x] > 0;
    assert multiset(c.errors)[WrongClass(classes[i].0, classes[i].1, x)] > 0;
  }

  /** A failing converter rule keeps the constructor from being called. */
  lemma PreMakeConverterFailure(rules: Rules, kwargs: map<string, Value>, i: int)
    requires rules.required.Some? && NoDuplicates(Names(rules.converters)) && 0 <= i < |rules.converters|
    requires ConverterFails(rules.converters[i], rules.required.value, kwargs)
    ensures !PreMake(rules, kwargs).Made?
  {
    PreMakeOutcome(rules, kwargs);
    if Fold(ConverterSteps(rules.converters, rules.required.value, kwargs)).Checked? {
      ConverterClean(rules.converters, rules.required.value, kwargs);
    }
  }

  /** An item of a class rule that is not an instance keeps the constructor from being
      called. */
  lemma PreMakeClassFailure(rules: Rules, kwargs: map<string, Value>, i: int, x: Value)
    requires rules.required.Some? && NoDuplicates(ClassNames(rules.classes)) && 0 <= i < |rules.classes|
    requires x in CheckedItems(rules.classes[i], rules.required.value, kwargs) && !IsInstance(x, rules.classes[i].1)
    ensures !PreMake(rules, kwargs).Made?
  {
    ClassFailureReported(rules.classes, rules.required.value, kwargs, i, x);
    PreMakeOutcome(rules, kwargs);
  }

  /** The class checker raises or reports an error when a checked item is not an instance. */
  lemma ClassFailureReported(classes: seq<(string, string, bool)>, required: seq<string>, argsDict: map<string, Value>, i: int, x: Value)
    requires NoDuplicates(ClassNames(classes)) && 0 <= i < |classes|
    requires x in CheckedItems(classes[i], required, argsDict) && !IsInstance(x, classes[i].1)
    ensures var c := Fold(ClassSteps(classes, required, argsDict)); c.Raised? || c.errors != []
  {
    if Fold(ClassSteps(classes, required, argsDict)).Checked? {
      ClassItemError(classes, required, argsDict, i, x);
    }
  }

  // ---------------------------------------------------------------------------
  // When pre_make calls the constructor

  /** A converter rule lets its value through: absent, None for an optional name, or
      converted. */
  predicate ConverterAcceptsRule(rule: (string, Converter), required: seq<string>, argsDict: map<string, Value>)
  {
    rule.0 !in argsDict ||
    if argsDict[rule.0] == VNone then rule.0 !in required else Apply(rule.1, argsDict[rule.0]).Converted?
  }

  /** A class rule lets its value through: it can be iterated when it must be, and every
      checked item is an instance. */
  predicate ClassAcceptsRule(rule: (string, string, bool), required: seq<string>, argsDict: map<string, Value>)
  {
    && !(rule.2 && rule.0 in argsDict && argsDict[rule.0] != VNone && Iterate(argsDict[rule.0]).Err?)
    && forall x :: x in CheckedItems(rule, required, argsDict) ==> IsInstance(x, rule.1)
  }

  lemma ConverterAccepts(converters: seq<(string, Converter)>, required: seq<string>, argsDict: map<string, Value>)
    requires NoDuplicates(Names(converters))
    ensures (Fold(ConverterSteps(converters, required, argsDict)).Checked? &&
             Fold(ConverterSteps(converters, required, argsDict)).errors == []) <==>
      forall i :: 0 <= i < |converters| ==> ConverterAcceptsRule(converters[i], required, argsDict)
  {
    ConverterRaises(converters, required, argsDict);
    if Fold(ConverterSteps(converters, required, argsDict)).Checked? {
      ConverterClean(converters, required, argsDict);
    }
  }

  lemma ClassAccepts(classes: seq<(string, string, bool)>, required: seq<string>, argsDict: map<string, Value>)
    requires NoDuplicates(ClassNames(classes))
    ensures (Fold(ClassSteps(classes, required, argsDict)).Checked? &&
             Fold(ClassSteps(classes, required, argsDict)).errors == []) <==>
      forall i :: 0 <= i < |classes| ==> ClassAcceptsRule(classes[i], required, argsDict)
  {
    ClassRaises(classes, required, argsDict);
    if Fold(ClassSteps(classes, required, argsDict)).Checked? {
      ClassClean(classes, required, argsDict);
    }
  }

  /** For rule tables without enum or bool rules (those of the VAST 2.0 entities): the
      constructor is called iff every required name is a key, every one-of group has one
      truthy member, and every converter and class rule lets its value through. */
  lemma PreMakeMadeIff(rules: Rules, kwargs: map<string, Value>)
    requires rules.required.Some? && rules.enums == [] && rules.bools == []
    requires NoDuplicates(Names(rules.converters)) && NoDuplicates(ClassNames(rules.classes))
    ensures var req := rules.required.value;
      PreMake(rules, kwargs).Made? <==>
        && (forall n :: n in req ==> n in kwargs)
        && (forall g :: g in rules.oneOfs ==> |Existing(g, kwargs)| == 1)
        && (forall i :: 0 <= i < |rules.converters| ==> ConverterAcceptsRule(rules.converters[i], req, kwargs))
        && (forall i :: 0 <= i < |rules.classes| ==> ClassAcceptsRule(rules.classes[i], req, kwargs))
  {
    var req := rules.required.value;
    PreMakeOutcome(rules, kwargs);
    RequiredClean(req, kwargs);
    OneOfClean(rules.oneOfs, kwargs);
    ConverterAccepts(rules.converters, req, kwargs);
    ClassAccepts(rules.classes, req, kwargs);
    assert EnumSteps(rules.enums, req, kwargs) == [];
    assert BoolSteps(rules.bools, req, kwargs) == [];
  }

  /** On a call of the constructor, the keyword arguments are those of the required
      checker, overridden by those of the one-of checker, the converter and the class
      checker, in that order. */
  lemma PreMakeKwargs(rules: Rules, kwargs: map<string, Value>)
    requires rules.required.Some? && rules.enums == [] && rules.bools == []
    requires PreMake(rules, kwargs).Made?
    ensures Fold(ConverterSteps(rules.converters, rules.required.value, kwargs)).Checked?
    ensures Fold(ClassSteps(rules.classes, rules.required.value, kwargs)).Checked?
    ensures Fold(RequiredSteps(rules.required.value, kwargs)).Checked? && Fold(OneOfSteps(rules.oneOfs, kwargs)).Checked?
    ensures var req := rules.required.value;
      PreMake(rules, kwargs).kwargs ==
        Fold(RequiredSteps(req, kwargs)).found + Fold(OneOfSteps(rules.oneOfs, kwargs)).found +
        Fold(ConverterSteps(rules.converters, req, kwargs)).found + Fold(ClassSteps(rules.classes, req, kwargs)).found
  {
    var req := rules.required.value;
    var c1 := CheckerResult(RequiredChecker, rules, req, kwargs);
    var c2 := CheckerResult(OneOfChecker, rules, req, kwargs);
    var c3 := CheckerResult(ConverterChecker, rules, req, kwargs);
    var c4 := CheckerResult(EnumChecker, rules, req, kwargs);
    var c5 := CheckerResult(BoolChecker, rules, req, kwargs);
    var c6 := CheckerResult(ClassChecker, rules, req, kwargs);
    PreMakeOutcome(rules, kwargs);
    assert EnumSteps(rules.enums, req, kwargs) == [];
    assert BoolSteps(rules.bools, req, kwargs) == [];
    assert c4 == Checked(map[], []) && c5 == Checked(map[], []);
    var f := c1.found + c2.found + c3.found;
    assert f + map[] + map[] == f;
  }

  /** The constructor receives a converted field as the converter's result, and None for
      a None input, when no one-of or class rule names the field. */
  lemma PreMakeConvertedValue(rules: Rules, kwargs: map<string, Value>, i: int)
    requires rules.required.Some? && rules.enums == [] && rules.bools == []
    requires NoDuplicates(Names(rules.converters)) && 0 <= i < |rules.converters|
    requires PreMake(rules, kwargs).Made?
    requires rules.converters[i].0 !in ClassNames(rules.classes)
    requires forall g :: g in rules.oneOfs ==> rules.converters[i].0 !in g
    ensures var n := rules.converters[i].0;
      Get(kwargs, n) != VNone ==> Apply(rules.converters[i].1, kwargs[n]).Converted?
    ensures var n := rules.converters[i].0;
      Get(PreMake(rules, kwargs).kwargs, n) ==
        if Get(kwargs, n) == VNone then VNone else Apply(rules.converters[i].1, kwargs[n]).value
  {
    var req := rules.required.value;
    var n := rules.converters[i].0;
    PreMakeKwargs(rules, kwargs);
    PreMakeOutcome(rules, kwargs);
    ConverterAccepts(rules.converters, req, kwargs);
    assert ConverterAcceptsRule(rules.converters[i], req, kwargs);
    RequiredFound(req, kwargs);
    OneOfFound(rules.oneOfs, kwargs);
    ConverterFound(rules.converters, req, kwargs, i);
    FoundKeysAreRuleNames(ClassChecker, rules, req, kwargs);
    ClassNothingElse(rules.classes, req, kwargs);
  }

  /** For rule tables without bool rules: `pre_make` lets an exception escape iff some
      converter raises something other than TypeError or a container class rule meets a
      value that cannot be iterated; a converter's exception wins over the class
      checker's. */
  lemma PreMakeCrashes(rules: Rules, kwargs: map<string, Value>)
    requires rules.required.Some? && rules.bools == []
    ensures var req := rules.required.value;
      var r := PreMake(rules, kwargs);
      var c3 := Fold(ConverterSteps(rules.converters, req, kwargs));
      var c4 := Fold(EnumSteps(rules.enums, req, kwargs));
      && (r.Crashed? <==>
            (exists i :: 0 <= i < |rules.converters| && ConverterEscapes(rules.converters[i], kwargs)) ||
            (exists i :: 0 <= i < |rules.enums| && EnumRuleEscapes(rules.enums[i], kwargs)) ||
            (exists j :: (0 <= j < |rules.classes| && rules.classes[j].2 && rules.classes[j].0 in kwargs &&
               kwargs[rules.classes[j].0] != VNone && Iterate(kwargs[rules.classes[j].0]).Err?)))
      && (r.Crashed? && c3.Raised? ==> r.exc == c3.exc)
      && (r.Crashed? && c3.Checked? && c4.Raised? ==> r.exc == c4.exc)
      && (r.Crashed? && c3.Checked? && c4.Checked? ==> r.exc == TypeError)
  {
    var req := rules.required.value;
    PreMakeOutcome(rules, kwargs);
    ConverterRaises(rules.converters, req, kwargs);
    EnumRaises(rules.enums, req, kwargs);
    ClassRaises(rules.classes, req, kwargs);
    assert BoolSteps(rules.bools, req, kwargs) == [];
  }

  /** The constructor receives the input value of a name that only a class rule (and
      perhaps the required list) mentions, None for a missing or None input. */
  lemma PreMakeClassValue(rules: Rules, kwargs: map<string, Value>, n: string)
    requires rules.required.Some? && rules.enums == [] && rules.bools == []
    requires PreMake(rules, kwargs).Made?
    requires NoDuplicates(ClassNames(rules.classes))
    requires n in ClassNames(rules.classes) && n !in Names(rules.converters)
    requires forall g :: g in rules.oneOfs ==> n !in g
    ensures Get(PreMake(rules, kwargs).kwargs, n) == Get(kwargs, n)
  {
    var req := rules.required.value;
    PreMakeKwargs(rules, kwargs);
    RequiredFound(req, kwargs);
    OneOfFound(rules.oneOfs, kwargs);
    ConverterNothingElse(rules.converters, req, kwargs);
    var i :| 0 <= i < |rules.classes| && rules.classes[i].0 == n;
    ClassFound(rules.classes, req, kwargs, i);
  }

  /** The constructor receives the input value of a name that only the required list
      mentions, None included. */
  lemma PreMakeRequiredValue(rules: Rules, kwargs: map<string, Value>, n: string)
    requires rules.required.Some? && rules.enums == [] && rules.bools == []
    requires PreMake(rules, kwargs).Made?
    requires n in rules.required.value && n !in Names(rules.converters) && n !in ClassNames(rules.classes)
    requires forall g :: g in rules.oneOfs ==> n !in g
    ensures Get(PreMake(rules, kwargs).kwargs, n) == Get(kwargs, n)
  {
    var req := rules.required.value;
    PreMakeKwargs(rules, kwargs);
    RequiredFound(req, kwargs);
    OneOfFound(rules.oneOfs, kwargs);
    ConverterNothingElse(rules.converters, req, kwargs);
    ClassNothingElse(rules.classes, req, kwargs);
  }

  lemma Singleton(s: seq<string>, n: string)
    requires |s| == 1 && n in s
    ensures s == [n]
  {
  }

  /** When every group has one truthy member, a member of a group is found iff it is
      truthy. */
  lemma OneOfMemberFound(oneOfs: seq<seq<string>>, kwargs: map<string, Value>, g: seq<string>, n: string)
    requires forall h :: h in oneOfs ==> |Existing(h, kwargs)| == 1
    requires g in oneOfs && n in g
    ensures Fold(OneOfSteps(oneOfs, kwargs)).Checked?
    ensures Get(Fold(OneOfSteps(oneOfs, kwargs)).found, n) == if Truthy(Get(kwargs, n)) then kwargs[n] else VNone
  {
    OneOfFound(oneOfs, kwargs);
    if Truthy(Get(kwargs, n)) {
      ExistingMembers(g, kwargs);
      assert n in Existing(g, kwargs);
      Singleton(Existing(g, kwargs), n);
    } else {
      forall h | h in oneOfs ensures Existing(h, kwargs) != [n] {
        ExistingMembers(h, kwargs);
        assert n !in Existing(h, kwargs);
      }
    }
  }

  /** On a call of the constructor, every one-of group had exactly one truthy member. */
  lemma PreMakeGroupsHold(rules: Rules, kwargs: map<string, Value>)
    requires PreMake(rules, kwargs).Made?
    ensures forall g :: g in rules.oneOfs ==> |Existing(g, kwargs)| == 1
  {
    PreMakeOutcome(rules, kwargs);
    OneOfClean(rules.oneOfs, kwargs);
  }

  /** The constructor receives the member of a one-of group that only that group
      mentions iff it is truthy, and then its input value. */
  lemma PreMakeOneOfValue(rules: Rules, kwargs: map<string, Value>, g: seq<string>, n: string)
    requires rules.required.Some? && rules.enums == [] && rules.bools == []
    requires PreMake(rules, kwargs).Made?
    requires g in rules.oneOfs && n in g
    requires n !in rules.required.value && n !in Names(rules.converters) && n !in ClassNames(rules.classes)
    ensures Get(PreMake(rules, kwargs).kwargs, n) == if Truthy(Get(kwargs, n)) then kwargs[n] else VNone
  {
    var req := rules.required.value;
    var c2 := Fold(OneOfSteps(rules.oneOfs, kwargs));
    PreMakeKwargs(rules, kwargs);
    RequiredFound(req, kwargs);
    ConverterNothingElse(rules.converters, req, kwargs);
    ClassNothingElse(rules.classes, req, kwargs);
    assert Get(PreMake(rules, kwargs).kwargs, n) == Get(c2.found, n);
    PreMakeGroupsHold(rules, kwargs);
    OneOfMemberFound(rules.oneOfs, kwargs, g, n);
  }
}
