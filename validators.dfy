/** The primitive validators of vast/validators.py.

    Each `make_*_validator` factory returns a closure `validate(value, attr_name, msg)`
    that returns nothing or raises. A closure is modelled as a `Validator` value and
    calling it as `Validate`, whose `Verdict` is the exception it raises, if any. The
    `attr_name` and `msg` arguments only feed the message text, which is not modelled. */
module Validators {
  import opened PyValues

  /** The types a type validator is made for. */
  datatype PyType = StrType | IntType | BoolType | ClassType(name: string)

  /** `sys.maxint` of a 64-bit CPython 2 build. A larger integer, or one below
      `-sys.maxint - 1`, is a `long`, and `long` is not a subclass of `int`. */
  const MaxInt: int := 0x7FFF_FFFF_FFFF_FFFF

  /** The integers that are Python 2 `int`s rather than `long`s. */
  predicate IsPlainInt(i: int)
  {
    -MaxInt - 1 <= i <= MaxInt
  }

  /** `isinstance(value, t)`: `bool` is a subclass of `int`, `long` is not; a model class
      has no subclasses. */
  predicate IsInstanceOf(value: Value, t: PyType)
  {
    match t
    case StrType => value.VStr?
    case IntType => (value.VInt? && IsPlainInt(value.i)) || value.VBool?
    case BoolType => value.VBool?
    case ClassType(name) => value.VObj? && value.cls == name
  }

  predicate IsNumber(v: Value)
  {
    v.VInt? || v.VBool?
  }

  /** The integer a number stands for: `True == 1` and `False == 0`. */
  function NumberOf(v: Value): int
    requires IsNumber(v)
  {
    if v.VInt? then v.i else if v.b then 1 else 0
  }

  /** The values whose Python 2 ordering is modelled: None, numbers and text. */
  predicate Comparable(v: Value)
  {
    v.VNone? || IsNumber(v) || v.VStr?
  }

  /** None sorts below every number, and numbers below all text. */
  function Rank(v: Value): int
    requires Comparable(v)
  {
    if v.VNone? then 0 else if v.VStr? then 2 else 1
  }

  /** Lexicographic order on code points. */
  predicate LexLess(a: string, b: string)
    decreases |a|
  {
    if a == [] then b != []
    else b != [] && (a[0] < b[0] || (a[0] == b[0] && LexLess(a[1..], b[1..])))
  }

  /** Python 2 `a < b`, or None for a pair whose ordering is not modelled. */
  function Less(a: Value, b: Value): (r: Option<bool>)
    ensures r.Some? <==> Comparable(a) && Comparable(b)
    ensures IsNumber(a) && IsNumber(b) ==> r == Some(NumberOf(a) < NumberOf(b))
    ensures a.VStr? && b.VStr? ==> r == Some(LexLess(a.s, b.s))
  {
    if !Comparable(a) || !Comparable(b) then None
    else if Rank(a) != Rank(b) then Some(Rank(a) < Rank(b))
    else if Rank(a) == 0 then Some(false)
    else if Rank(a) == 1 then Some(NumberOf(a) < NumberOf(b))
    else Some(LexLess(a.s, b.s))
  }

  /** Python `a == b` for the values a set can hold: numbers compare by value, tuples item
      by item, and model instances of one class field by field. */
  predicate PyEq(a: Value, b: Value)
    decreases a
  {
    if IsNumber(a) && IsNumber(b) then NumberOf(a) == NumberOf(b)
    else if a.VTuple? && b.VTuple? then
      |a.items| == |b.items| && forall i :: 0 <= i < |a.items| ==> PyEq(a.items[i], b.items[i])
    else if a.VObj? && b.VObj? then
      && a.cls == b.cls && |a.fields| == |b.fields|
      && forall i :: 0 <= i < |a.fields| ==> a.fields[i].0 == b.fields[i].0 && PyEq(a.fields[i].1, b.fields[i].1)
    else a == b
  }

  datatype Validator =
    | TypeValidator(t: PyType)
    | GreaterThan(bound: Value)
    | In(collection: seq<Value>)  // the elements of `set(_collection)`
    | MinMax
    | Compound(parts: seq<Validator>)

  /** What a validator call does: return, raise, or compare values whose ordering is not
      modelled. */
  datatype Verdict = Pass | Raise(exc: PyExc) | Unordered

  /** `make_in_validator(_collection)`: `set(_collection)` iterates the collection (the keys
      of a dict) and raises TypeError on an unhashable element. */
  function MakeInValidator(collection: Value): (r: Result<Validator>)
    ensures r.Ok? <==> Iterate(collection).Ok? && forall x :: x in Iterate(collection).value ==> Hashable(x)
    ensures r.Ok? ==> r.value == In(Iterate(collection).value)
    ensures r.Err? ==> r.exc == TypeError
  {
    match Iterate(collection)
    case Err(e) => Err(e)
    case Ok(items) =>
      if forall x :: x in items ==> Hashable(x) then Ok(In(items)) else Err(TypeError)
  }

  /** Calling the validator on `value`. */
  function Validate(validator: Validator, value: Value): Verdict
    decreases validator, 1
  {
    match validator
    case TypeValidator(t) =>
      if IsInstanceOf(value, t) then Pass else Raise(TypeError)
    case GreaterThan(bound) =>
      // `if must_be_greater_than_me >= value: raise ValueError`
      (match Less(bound, value)
       case None => Unordered
       case Some(lt) => if lt then Pass else Raise(ValueError))
    case In(items) =>
      if !Hashable(value) then Raise(TypeError)
      else if exists x :: x in items && PyEq(x, value) then Pass
      else Raise(ValueError)
    case MinMax =>
      // `min_val, max_val = value`, then `if min_val > max_val: raise ValueError`
      (match Iterate(value)
       case Err(e) => Raise(e)
       case Ok(items) =>
         if |items| != 2 then Raise(ValueError)
         else
           match Less(items[1], items[0])
           case None => Unordered
           case Some(gt) => if gt then Raise(ValueError) else Pass)
    case Compound(parts) => ValidateAll(parts, value)
  }

  /** The loop of `make_compound_validator`: each validator in turn, stopping at the
      first that raises. */
  function ValidateAll(parts: seq<Validator>, value: Value): Verdict
    decreases parts, 0
  {
    if parts == [] then Pass
    else
      assert parts[0] in parts;
      var v := Validate(parts[0], value);
      if v != Pass then v else ValidateAll(parts[1..], value)
  }

  const StrValidator: Validator := TypeValidator(StrType)
  const BoolValidator: Validator := TypeValidator(BoolType)
  const SemiPosIntValidator: Validator := Compound([TypeValidator(IntType), GreaterThan(VInt(-1))])
  const PosIntValidator: Validator := Compound([TypeValidator(IntType), GreaterThan(VInt(0))])
  const MinMaxValidator: Validator := MinMax

  // ---------------------------------------------------------------------------
  // Properties

  /** The type validator raises TypeError iff the value is not an instance. */
  lemma TypeValidatorRaisesIffNotInstance(t: PyType, value: Value)
    ensures Validate(TypeValidator(t), value) == Pass <==> IsInstanceOf(value, t)
    ensures Validate(TypeValidator(t), value) != Pass ==> Validate(TypeValidator(t), value) == Raise(TypeError)
  {
  }

  /** Greater-than is strict on numbers: a value equal to the bound is rejected. */
  lemma GreaterThanIsStrict(bound: Value, value: Value)
    requires IsNumber(bound) && IsNumber(value)
    ensures Validate(GreaterThan(bound), value) ==
      if NumberOf(value) > NumberOf(bound) then Pass else Raise(ValueError)
  {
  }

  /** On text, greater-than follows lexicographic order. */
  lemma GreaterThanOnText(bound: string, value: string)
    ensures Validate(GreaterThan(VStr(bound)), VStr(value)) ==
      if LexLess(bound, value) then Pass else Raise(ValueError)
  {
  }

  lemma {:induction false} LexLessIrreflexive(a: string)
    ensures !LexLess(a, a)
  {
    if a != [] {
      LexLessIrreflexive(a[1..]);
    }
  }

  lemma {:induction false} LexLessTransitive(a: string, b: string, c: string)
    requires LexLess(a, b) && LexLess(b, c)
    ensures LexLess(a, c)
    decreases |a|
  {
    if a != [] && a[0] == b[0] && b[0] == c[0] {
      LexLessTransitive(a[1..], b[1..], c[1..]);
    }
  }

  lemma {:induction false} LexLessTotal(a: string, b: string)
    ensures a == b || LexLess(a, b) || LexLess(b, a)
    decreases |a|
  {
    if a != [] && b != [] && a[0] == b[0] {
      LexLessTotal(a[1..], b[1..]);
      if a[1..] == b[1..] {
        assert a == [a[0]] + a[1..] && b == [b[0]] + b[1..];
      }
    }
  }

  /** On the modelled values `Less` is a strict order in which every two values that are
      not equal as Python values are ordered one way or the other, so `bound >= value`
      is exactly `not (bound < value)`. */
  lemma LessIsStrictTotalOrder(a: Value, b: Value, c: Value)
    requires Comparable(a) && Comparable(b) && Comparable(c)
    ensures Less(a, a) == Some(false)
    ensures Less(a, b) == Some(true) && Less(b, c) == Some(true) ==> Less(a, c) == Some(true)
    ensures PyEq(a, b) || Less(a, b) == Some(true) || Less(b, a) == Some(true)
  {
    if a.VStr? {
      LexLessIrreflexive(a.s);
    }
    if a.VStr? && b.VStr? && c.VStr? && LexLess(a.s, b.s) && LexLess(b.s, c.s) {
      LexLessTransitive(a.s, b.s, c.s);
    }
    if a.VStr? && b.VStr? {
      LexLessTotal(a.s, b.s);
    }
  }

  /** The in-validator accepts exactly the hashable values equal to an element of the
      collection; an unhashable value raises TypeError. */
  lemma InValidatorMembership(collection: Value, value: Value)
    requires MakeInValidator(collection).Ok?
    ensures var r := Validate(MakeInValidator(collection).value, value);
      && (r == Pass <==> Hashable(value) && exists x :: x in Iterate(collection).value && PyEq(x, value))
      && (r != Pass ==> r == Raise(if Hashable(value) then ValueError else TypeError))
  {
  }

  /** For a dict collection the keys are used: a text value passes iff it is a key. */
  lemma InValidatorOnDictUsesKeys(entries: seq<(string, Value)>, k: string)
    ensures MakeInValidator(VDict(entries)).Ok?
    ensures Validate(MakeInValidator(VDict(entries)).value, VStr(k)) ==
      if HasKey(entries, k) then Pass else Raise(ValueError)
  {
    var keys := KeysOf(entries);
    assert Iterate(VDict(entries)) == Ok(keys);
    KeysHashable(entries);
    KeysMatch(entries, k);
  }

  lemma KeysHashable(entries: seq<(string, Value)>)
    ensures forall x :: x in KeysOf(entries) ==> x.VStr? && Hashable(x)
  {
  }

  /** Some key compares equal to `VStr(k)` iff `k` is a key. */
  lemma KeysMatch(entries: seq<(string, Value)>, k: string)
    ensures (exists x :: x in KeysOf(entries) && PyEq(x, VStr(k))) <==> HasKey(entries, k)
  {
    var keys := KeysOf(entries);
    if HasKey(entries, k) {
      var i :| 0 <= i < |entries| && entries[i].0 == k;
      assert keys[i] in keys && PyEq(keys[i], VStr(k));
    } else {
      forall x | x in keys ensures !PyEq(x, VStr(k)) {
        var i :| 0 <= i < |keys| && keys[i] == x;
      }
    }
  }

  /** The min/max validator on a pair of numbers raises iff min > max: equal values pass. */
  lemma MinMaxOnPair(lo: Value, hi: Value)
    requires IsNumber(lo) && IsNumber(hi)
    ensures Validate(MinMax, VList([lo, hi])) == if NumberOf(lo) > NumberOf(hi) then Raise(ValueError) else Pass
    ensures Validate(MinMax, VTuple([lo, hi])) == if NumberOf(lo) > NumberOf(hi) then Raise(ValueError) else Pass
  {
  }

  /** Unpacking fails unless the value iterates to exactly two items: ValueError for the
      wrong count, TypeError for a value that cannot be iterated. */
  lemma MinMaxNeedsTwoItems(value: Value)
    ensures Iterate(value).Err? ==> Validate(MinMax, value) == Raise(TypeError)
    ensures Iterate(value).Ok? && |Iterate(value).value| != 2 ==> Validate(MinMax, value) == Raise(ValueError)
  {
  }

  /** The compound validator passes iff every component passes, and otherwise gives the
      verdict of the first component that does not pass. */
  lemma {:induction false} CompoundIsFirstFailure(parts: seq<Validator>, value: Value)
    ensures ValidateAll(parts, value) == Pass <==> forall i :: 0 <= i < |parts| ==> Validate(parts[i], value) == Pass
    ensures ValidateAll(parts, value) != Pass ==>
      exists i :: (0 <= i < |parts| && ValidateAll(parts, value) == Validate(parts[i], value) &&
        forall j :: 0 <= j < i ==> Validate(parts[j], value) == Pass)
  {
    if parts != [] {
      CompoundIsFirstFailure(parts[1..], value);
      if Validate(parts[0], value) == Pass && ValidateAll(parts[1..], value) != Pass {
        var i :| 0 <= i < |parts[1..]| && ValidateAll(parts[1..], value) == Validate(parts[1..][i], value) &&
          forall j :: 0 <= j < i ==> Validate(parts[1..][j], value) == Pass;
        assert forall j :: 0 <= j < i + 1 ==> Validate(parts[j], value) == Pass by {
          forall j | 0 <= j < i + 1 ensures Validate(parts[j], value) == Pass {
            if j > 0 {
              assert parts[j] == parts[1..][j - 1];
            }
          }
        }
        assert parts[i + 1] == parts[1..][i];
      }
      if ValidateAll(parts, value) == Pass {
        forall i | 0 <= i < |parts| ensures Validate(parts[i], value) == Pass {
          if i > 0 {
            assert parts[i] == parts[1..][i - 1];
          }
        }
      }
    }
  }

  /** POS_INT_VALIDATOR accepts exactly the `int`s > 0 (and True, which is 1). A `long`
      fails the type check first, whatever its sign. */
  lemma PosIntAcceptsPositive(value: Value)
    ensures Validate(PosIntValidator, value) == Pass <==>
      (value.VBool? && value.b) || (value.VInt? && 0 < value.i <= MaxInt)
    ensures Validate(PosIntValidator, value) != Pass ==>
      Validate(PosIntValidator, value) == Raise(if IsInstanceOf(value, IntType) then ValueError else TypeError)
  {
  }

  /** SEMI_POS_INT_VALIDATOR accepts exactly the `int`s >= 0, booleans included; a `long`
      raises TypeError. */
  lemma SemiPosIntAcceptsNonNegative(value: Value)
    ensures Validate(SemiPosIntValidator, value) == Pass <==>
      value.VBool? || (value.VInt? && 0 <= value.i <= MaxInt)
    ensures Validate(SemiPosIntValidator, value) != Pass ==>
      Validate(SemiPosIntValidator, value) == Raise(if IsInstanceOf(value, IntType) then ValueError else TypeError)
  {
  }

  /** The integer after `sys.maxint` is a `long`, rejected with TypeError by both integer
      validators, while `sys.maxint` itself passes. */
  lemma LongIsNotInt(n: int)
    requires n == MaxInt + 1
    ensures Validate(PosIntValidator, VInt(n)) == Raise(TypeError)
    ensures Validate(SemiPosIntValidator, VInt(n)) == Raise(TypeError)
    ensures Validate(PosIntValidator, VInt(n - 1)) == Pass
  {
    PosIntAcceptsPositive(VInt(n));
    SemiPosIntAcceptsNonNegative(VInt(n));
    PosIntAcceptsPositive(VInt(n - 1));
  }

  /** The type and greater-than scenarios of the validator tests. */
  lemma TextScenarios()
    ensures Validate(StrValidator, VStr("str")) == Pass
    ensures Validate(TypeValidator(IntType), VStr("5")) == Raise(TypeError)
    ensures Validate(GreaterThan(VStr("a")), VStr("b")) == Pass
    ensures Validate(GreaterThan(VStr("a")), VStr("A")) == Raise(ValueError)
  {
  }

  /** The min/max scenarios of the validator tests, which pass tuples. */
  lemma MinMaxScenarios()
    ensures Validate(MinMaxValidator, VTuple([VInt(1), VInt(10)])) == Pass
    ensures Validate(MinMaxValidator, VTuple([VInt(1), VInt(1)])) == Pass
    ensures Validate(MinMaxValidator, VTuple([VInt(11), VInt(10)])) == Raise(ValueError)
    ensures Validate(MinMaxValidator, VTuple([VInt(1), VInt(-11)])) == Raise(ValueError)
  {
    MinMaxOnPair(VInt(1), VInt(10));
    MinMaxOnPair(VInt(1), VInt(1));
    MinMaxOnPair(VInt(11), VInt(10));
    MinMaxOnPair(VInt(1), VInt(-11));
  }

  /** The in-validator scenarios over the tuple ("a", "b"). */
  lemma InTupleScenarios()
    ensures MakeInValidator(VTuple([VStr("a"), VStr("b")])) == Ok(In([VStr("a"), VStr("b")]))
    ensures Validate(In([VStr("a"), VStr("b")]), VStr("a")) == Pass
    ensures Validate(In([VStr("a"), VStr("b")]), VStr("c")) == Raise(ValueError)
  {
    assert VStr("a") in [VStr("a"), VStr("b")];
  }

  /** `set(_collection)` hashes a tuple item by item, so a collection of text tuples makes a
      validator that accepts an equal tuple, with numbers inside compared by value, while a
      tuple checked against a collection of text raises ValueError. */
  lemma InValidatorOnTuples()
    ensures MakeInValidator(VList([VTuple([VStr("a")])])) == Ok(In([VTuple([VStr("a")])]))
    ensures Validate(In([VTuple([VStr("a")])]), VTuple([VStr("a")])) == Pass
    ensures Validate(In([VStr("a")]), VTuple([VStr("a")])) == Raise(ValueError)
    ensures Validate(In([VTuple([VInt(1)])]), VTuple([VBool(true)])) == Pass
  {
    var t := VTuple([VStr("a")]);
    assert Hashable(t) by { assert Hashable(t.items[0]); }
    assert PyEq(t, t);
    assert t in [t];
    var one, yes := VTuple([VInt(1)]), VTuple([VBool(true)]);
    assert Hashable(yes) by { assert Hashable(yes.items[0]); }
    assert PyEq(one, yes) by { assert PyEq(one.items[0], yes.items[0]); }
    assert one in [one];
  }

  /** A model instance hashes its fields, so one holding a list is unhashable: in the
      collection it makes `set(_collection)` raise TypeError, and as the value checked
      it raises TypeError. */
  lemma InValidatorOnInstances()
    ensures MakeInValidator(VList([VObj("Creative", [("linear", VList([]))])])) == Err(TypeError)
    ensures Validate(In([VStr("a")]), VObj("Creative", [("linear", VList([]))])) == Raise(TypeError)
  {
    var o := VObj("Creative", [("linear", VList([]))]);
    assert !Hashable(o) by { assert !Hashable(o.fields[0].1); }
    assert o in Iterate(VList([o])).value;
  }
}
