/** Python 2 values as the rule engine and the tag-tree walkers see them, with the
    built-in operations the source applies to them: truth testing, `str()`, `int()`,
    `unicode()`, `dict.get`, subscripting by a string key, the `in` operator,
    iteration and hashing.

    One datatype covers both the keyword arguments handed to the model constructors and
    the tree produced by the external XML decoder: a decoded element is a `VDict` whose
    entries keep the decoder's key order (attributes are keyed with a leading "@"). */
module PyValues {

  datatype Option<T> = None | Some(value: T)

  /** The built-in exceptions that can escape from the modelled code. */
  datatype PyExc = TypeError | ValueError | KeyError | AttributeError

  datatype Result<T> = Ok(value: T) | Err(exc: PyExc)

  datatype Value =
    | VNone
    | VBool(b: bool)
    | VInt(i: int)
    | VStr(s: string)
    | VList(items: seq<Value>)                              // list
    | VTuple(items: seq<Value>)                             // tuple
    | VDict(entries: seq<(string, Value)>)                  // (ordered) dict with string keys
    | VEnum(enumClass: string, name: string, value: string) // a member of an Enum class
    | VObj(cls: string, fields: seq<(string, Value)>)       // an instance of a class of the model

  /** Python's truth test: None, False, 0, "" and empty containers are false; enum members
      and model instances (which define neither __len__ nor __nonzero__) are true. */
  predicate Truthy(v: Value)
  {
    match v
    case VNone => false
    case VBool(b) => b
    case VInt(i) => i != 0
    case VStr(s) => s != ""
    case VList(items) => items != []
    case VTuple(items) => items != []
    case VDict(entries) => entries != []
    case VEnum(_, _, _) => true
    case VObj(_, _) => true
  }

  // ---------------------------------------------------------------------------
  // Dictionaries as association lists

  predicate HasKey(entries: seq<(string, Value)>, k: string)
  {
    exists i :: 0 <= i < |entries| && entries[i].0 == k
  }

  /** The value of the first entry whose key is `k`. */
  function Lookup(entries: seq<(string, Value)>, k: string): (r: Option<Value>)
    ensures r.None? <==> !HasKey(entries, k)
    ensures r.Some? ==> exists i :: 0 <= i < |entries| && entries[i] == (k, r.value)
  {
    if entries == [] then None
    else if entries[0].0 == k then Some(entries[0].1)
    else
      var r := Lookup(entries[1..], k);
      assert HasKey(entries, k) <==> HasKey(entries[1..], k) by {
        if HasKey(entries, k) {
          var i :| 0 <= i < |entries| && entries[i].0 == k;
          assert entries[1..][i - 1].0 == k;
        }
        if HasKey(entries[1..], k) {
          var i :| 0 <= i < |entries[1..]| && entries[1..][i].0 == k;
          assert entries[i + 1].0 == k;
        }
      }
      if r.Some? then
        assert exists i :: 0 <= i < |entries[1..]| && entries[1..][i] == (k, r.value);
        var i :| 0 <= i < |entries[1..]| && entries[1..][i] == (k, r.value);
        assert entries[i + 1] == (k, r.value);
        r
      else r
  }

  /** `d.get(k, default)`: only a dict has `get`. */
  function DictGet(d: Value, k: string, default: Value): (r: Result<Value>)
    ensures r.Err? <==> !d.VDict?
    ensures r.Err? ==> r.exc == AttributeError
    ensures d.VDict? && !HasKey(d.entries, k) ==> r == Ok(default)
    ensures d.VDict? && HasKey(d.entries, k) ==> r.Ok? && Lookup(d.entries, k) == Some(r.value)
  {
    match d
    case VDict(entries) =>
      (match Lookup(entries, k)
       case Some(v) => Ok(v)
       case None => Ok(default))
    case _ => Err(AttributeError)
  }

  /** `d[k]` for a string key: KeyError on a dict without the key, TypeError on anything
      that is not a dict (strings and lists want integer indices, the rest are not
      subscriptable). */
  function Subscript(d: Value, k: string): (r: Result<Value>)
    ensures r.Ok? <==> d.VDict? && HasKey(d.entries, k)
    ensures r.Ok? ==> Lookup(d.entries, k) == Some(r.value)
    ensures r.Err? ==> r.exc == (if d.VDict? then KeyError else TypeError)
  {
    match d
    case VDict(entries) =>
      (match Lookup(entries, k)
       case Some(v) => Ok(v)
       case None => Err(KeyError))
    case _ => Err(TypeError)
  }

  predicate OccursAt(k: string, s: string, i: int)
  {
    0 <= i <= |s| - |k| && s[i..i + |k|] == k
  }

  predicate IsSubstring(k: string, s: string)
  {
    exists i :: 0 <= i <= |s| && OccursAt(k, s, i)
  }

  /** `k in c` for a string `k`: key membership for a dict, substring test for a string,
      element test for a list or tuple; TypeError for everything else. */
  function Contains(c: Value, k: string): (r: Result<bool>)
    ensures r.Err? <==> !(c.VDict? || c.VStr? || c.VList? || c.VTuple?)
    ensures c.VDict? ==> r == Ok(HasKey(c.entries, k))
  {
    match c
    case VDict(entries) => Ok(HasKey(entries, k))
    case VStr(s) => Ok(IsSubstring(k, s))
    case VList(items) => Ok(VStr(k) in items)
    case VTuple(items) => Ok(VStr(k) in items)
    case _ => Err(TypeError)
  }

  function KeysOf(entries: seq<(string, Value)>): (r: seq<Value>)
    ensures |r| == |entries|
    ensures forall i :: 0 <= i < |r| ==> r[i] == VStr(entries[i].0)
  {
    if entries == [] then [] else [VStr(entries[0].0)] + KeysOf(entries[1..])
  }

  function ValuesOf(entries: seq<(string, Value)>): (r: seq<Value>)
    ensures |r| == |entries|
    ensures forall i :: 0 <= i < |r| ==> r[i] == entries[i].1
  {
    if entries == [] then [] else [entries[0].1] + ValuesOf(entries[1..])
  }

  function CharsOf(s: string): (r: seq<Value>)
    ensures |r| == |s|
    ensures forall i :: 0 <= i < |r| ==> r[i] == VStr([s[i]])
  {
    if s == [] then [] else [VStr([s[0]])] + CharsOf(s[1..])
  }

  /** What a `for` loop over `v` visits: the items of a list or tuple, the keys of a dict,
      the one-character strings of a string; anything else is not iterable. */
  function Iterate(v: Value): (r: Result<seq<Value>>)
    ensures r.Err? <==> !(v.VList? || v.VTuple? || v.VDict? || v.VStr?)
    ensures r.Err? ==> r.exc == TypeError
    ensures v.VList? || v.VTuple? ==> r == Ok(v.items)
  {
    match v
    case VList(items) => Ok(items)
    case VTuple(items) => Ok(items)
    case VDict(entries) => Ok(KeysOf(entries))
    case VStr(s) => Ok(CharsOf(s))
    case _ => Err(TypeError)
  }

  /** `d.values()`: only a dict has it. */
  function DictValues(d: Value): (r: Result<seq<Value>>)
    ensures r.Ok? <==> d.VDict?
    ensures d.VDict? ==> r == Ok(ValuesOf(d.entries))
    ensures r.Err? ==> r.exc == AttributeError
  {
    match d
    case VDict(entries) => Ok(ValuesOf(entries))
    case _ => Err(AttributeError)
  }

  /** Whether `hash(v)` returns: lists and dicts are unhashable, a tuple hashes its items,
      and a model instance (a frozen attrs class) hashes its fields. Using an unhashable
      value as a dict key or set member raises TypeError. */
  predicate Hashable(v: Value)
    decreases v
  {
    match v
    case VList(_) => false
    case VDict(_) => false
    case VTuple(items) => forall i :: 0 <= i < |items| ==> Hashable(items[i])
    case VObj(_, fields) => forall i :: 0 <= i < |fields| ==> Hashable(fields[i].1)
    case _ => true
  }

  // ---------------------------------------------------------------------------
  // Decimal text

  predicate IsDigit(c: char) { '0' <= c <= '9' }

  predicate AllDigits(s: string) { forall i :: 0 <= i < |s| ==> IsDigit(s[i]) }

  function DigitChar(d: nat): (c: char)
    requires d < 10
    ensures IsDigit(c) && c as int - '0' as int == d
  {
    ('0' as int + d) as char
  }

  /** The value of a string of decimal digits, most significant first. */
  function DigitsValue(s: string): nat
    requires AllDigits(s)
  {
    if s == [] then 0
    else DigitsValue(s[..|s| - 1]) * 10 + (s[|s| - 1] as int - '0' as int)
  }

  /** The shortest decimal digits of `n`. */
  function NatDigits(n: nat): (r: string)
    ensures AllDigits(r) && r != []
    ensures n >= 10 ==> |r| >= 2
    ensures |r| == 1 <==> n < 10
  {
    if n < 10 then [DigitChar(n)] else NatDigits(n / 10) + [DigitChar(n % 10)]
  }

  /** Python's `str(n)` for an integer. */
  function DecimalString(n: int): string
  {
    if n < 0 then "-" + NatDigits(-n) else NatDigits(n)
  }

  lemma {:induction false} NatDigitsValue(n: nat)
    ensures DigitsValue(NatDigits(n)) == n
  {
    if n >= 10 {
      NatDigitsValue(n / 10);
      var d := NatDigits(n / 10) + [DigitChar(n % 10)];
      assert d[..|d| - 1] == NatDigits(n / 10);
    }
  }

  /** White space of Python 2 unicode text (`unicode.isspace`, Unicode 5.2): tab to
      carriage return, the four separators U+001C..U+001F, space, U+0085, no-break space,
      U+1680, U+180E, U+2000..U+200A, the line and paragraph separators, U+202F, U+205F
      and U+3000. `int()` reads each of them as a space. */
  predicate IsSpace(c: char)
  {
    || ('\t' <= c <= '\r') || ('\U{1C}' <= c <= ' ') || c == '\U{85}' || c == '\U{A0}'
    || c == '\U{1680}' || c == '\U{180E}' || ('\U{2000}' <= c <= '\U{200A}')
    || c == '\U{2028}' || c == '\U{2029}' || c == '\U{202F}' || c == '\U{205F}' || c == '\U{3000}'
  }

  function StripLeft(s: string): (r: string)
    ensures |r| <= |s|
  {
    if s != [] && IsSpace(s[0]) then StripLeft(s[1..]) else s
  }

  function StripRight(s: string): (r: string)
    ensures |r| <= |s|
  {
    if s != [] && IsSpace(s[|s| - 1]) then StripRight(s[..|s| - 1]) else s
  }

  /** The unicode text `int()` accepts in base 10: white space around it, an optional
      sign, white space again after the sign, and at least one ASCII decimal digit
      (leading zeros allowed). */
  function ParseInt(text: string): (r: Option<int>)
    ensures AllDigits(text) && text != [] ==> r == Some(DigitsValue(text))
  {
    var t := StripRight(StripLeft(text));
    assert AllDigits(text) && text != [] ==> t == text by {
      if AllDigits(text) && text != [] {
        assert IsDigit(text[0]) && IsDigit(text[|text| - 1]);
        StripNothing(text);
      }
    }
    ParseStripped(t)
  }

  /** `ParseInt` once the white space around the text is gone. */
  function ParseStripped(t: string): Option<int>
  {
    if t != [] && (t[0] == '-' || t[0] == '+') then
      match ParseDigits(StripLeft(t[1..]))
      case Some(n) => Some(if t[0] == '-' then -(n as int) else n as int)
      case None => None
    else ParseDigits(t)
  }

  function ParseDigits(u: string): Option<nat>
  {
    if u != [] && AllDigits(u) then Some(DigitsValue(u)) else None
  }

  /** Text without white space at either end is left as it is by the stripping. */
  lemma StripNothing(t: string)
    requires t != [] && !IsSpace(t[0]) && !IsSpace(t[|t| - 1])
    ensures StripRight(StripLeft(t)) == t
  {
  }

  /** A sign followed by text that is digits once its leading white space is gone parses
      to the signed value of the digits. */
  lemma ParseSigned(sign: char, rest: string, digits: string)
    requires sign == '-' || sign == '+'
    requires AllDigits(digits) && digits != [] && StripLeft(rest) == digits
    ensures ParseInt([sign] + rest) ==
      Some(if sign == '-' then -(DigitsValue(digits) as int) else DigitsValue(digits))
  {
    var t := [sign] + rest;
    assert |rest| >= |digits|;
    assert IsDigit(digits[|digits| - 1]);
    assert rest[|rest| - 1] == digits[|digits| - 1] by { StripLeftSuffix(rest); }
    StripNothing(t);
    assert t[1..] == rest;
  }

  lemma {:induction false} StripLeftSuffix(s: string)
    requires StripLeft(s) != []
    ensures s[|s| - 1] == StripLeft(s)[|StripLeft(s)| - 1]
  {
    if s != [] && IsSpace(s[0]) {
      StripLeftSuffix(s[1..]);
    }
  }

  /** A minus sign and digits parse to the negated value of the digits. */
  lemma ParseNegative(digits: string)
    requires AllDigits(digits) && digits != []
    ensures ParseInt("-" + digits) == Some(-(DigitsValue(digits) as int))
  {
    assert IsDigit(digits[0]) && IsDigit(digits[|digits| - 1]);
    StripNothing(digits);
    ParseSigned('-', digits, digits);
  }

  /** `int()` skips white space after the sign too, and reads a no-break space as a space;
      a sign without digits, or digits split by a space, is not an integer. */
  lemma IntTextScenarios()
    ensures ParseInt("- 5") == Some(-5) && ParseInt("+ 5") == Some(5)
    ensures ParseInt("\U{A0}5") == Some(5)
    ensures ParseInt("- ") == None && ParseInt("5 5") == None
  {
    assert StripLeft(" 5") == "5";
    ParseSigned('-', " 5", "5");
    ParseSigned('+', " 5", "5");
    assert StripLeft("\U{A0}5") == "5";
    assert StripRight("- ") == "-";
    assert !IsDigit(' ');
  }

  lemma DecimalStringParses(n: int)
    ensures ParseInt(DecimalString(n)) == Some(n)
  {
    if n < 0 {
      NatDigitsValue(-n);
      NegativeDigitsParse(-n);
      assert DecimalString(n) == "-" + NatDigits(-n);
    } else {
      NatDigitsValue(n);
      assert DecimalString(n) == NatDigits(n);
    }
  }

  /** The minus sign and digits that `str()` prints for a negative number read back. */
  lemma NegativeDigitsParse(m: nat)
    requires DigitsValue(NatDigits(m)) == m
    ensures ParseInt("-" + NatDigits(m)) == Some(-(m as int))
  {
    ParseNegative(NatDigits(m));
  }

  // ---------------------------------------------------------------------------
  // str(), repr(), int(), unicode()

  function JoinWith(sep: string, parts: seq<string>): string
  {
    if parts == [] then ""
    else if |parts| == 1 then parts[0]
    else parts[0] + sep + JoinWith(sep, parts[1..])
  }

  /** Python's `str(v)`. Exact for None, booleans, integers, strings and enum members;
      for containers and model instances it follows the shape of their repr. */
  function PyStr(v: Value): string
    decreases v, 2, 0
  {
    match v
    case VStr(s) => s
    case VEnum(c, n, _) => c + "." + n
    case _ => PyRepr(v)
  }

  function PyRepr(v: Value): string
    decreases v, 1, 0
  {
    match v
    case VNone => "None"
    case VBool(b) => if b then "True" else "False"
    case VInt(i) => DecimalString(i)
    case VStr(s) => "u'" + s + "'"
    case VEnum(c, n, x) => "<" + c + "." + n + ": '" + x + "'>"
    case VList(items) => "[" + JoinWith(", ", ReprItems(v, items)) + "]"
    case VTuple(items) => "(" + JoinWith(", ", ReprItems(v, items)) + (if |items| == 1 then ",)" else ")")
    case VDict(entries) => "OrderedDict([" + JoinWith(", ", ReprEntries(v, entries, "(u'", "', ", ")")) + "])"
    case VObj(cls, fields) => cls + "(" + JoinWith(", ", ReprEntries(v, fields, "", "=", "")) + ")"
  }

  function ReprItems(whole: Value, items: seq<Value>): seq<string>
    requires forall x :: x in items ==> x < whole
    decreases whole, 0, |items|
  {
    if items == [] then []
    else
      assert forall x :: x in items[1..] ==> x in items;
      assert items[0] in items;
      [PyRepr(items[0])] + ReprItems(whole, items[1..])
  }

  function ReprEntries(whole: Value, entries: seq<(string, Value)>, pre: string, mid: string, post: string): seq<string>
    requires forall e :: e in entries ==> e.1 < whole
    decreases whole, 0, |entries|
  {
    if entries == [] then []
    else
      assert forall e :: e in entries[1..] ==> e in entries;
      assert entries[0] in entries;
      [pre + entries[0].0 + mid + PyRepr(entries[0].1) + post] + ReprEntries(whole, entries[1..], pre, mid, post)
  }

  /** What a one-argument conversion such as `int(v)` does: return a value or raise. */
  datatype Conversion = Converted(value: Value) | Raises(exc: PyExc)

  /** Python 2 `int(v)`: integers unchanged, booleans to 0/1, decimal text parsed
      (ValueError when it is not an integer literal), TypeError for everything else. */
  function PyInt(v: Value): (r: Conversion)
    ensures r.Converted? ==> r.value.VInt?
    ensures r == Raises(TypeError) <==> !(v.VInt? || v.VBool? || v.VStr?)
    ensures v.VStr? ==> (r.Converted? <==> ParseInt(v.s).Some?)
  {
    match v
    case VInt(i) => Converted(VInt(i))
    case VBool(b) => Converted(VInt(if b then 1 else 0))
    case VStr(s) =>
      (match ParseInt(s)
       case Some(n) => Converted(VInt(n))
       case None => Raises(ValueError))
    case _ => Raises(TypeError)
  }

  /** Python 2 `unicode(v)`: the text of `str(v)`; it never raises for these values. */
  function PyUnicode(v: Value): (r: Conversion)
    ensures r.Converted? && r.value.VStr?
    ensures v.VStr? ==> r == Converted(v)
  {
    Converted(VStr(PyStr(v)))
  }

  // ---------------------------------------------------------------------------
  // Text helpers

  function LowerChar(c: char): char
  {
    if 'A' <= c <= 'Z' then (c as int - 'A' as int + 'a' as int) as char else c
  }

  /** `s.lower()` on ASCII letters. */
  function Lower(s: string): (r: string)
    ensures |r| == |s|
    ensures forall i :: 0 <= i < |s| ==> r[i] == LowerChar(s[i])
  {
    if s == [] then [] else [LowerChar(s[0])] + Lower(s[1..])
  }

  /** Lower-casing twice changes nothing more. */
  lemma LowerIdempotent(s: string)
    ensures Lower(Lower(s)) == Lower(s)
  {
    assert forall i :: 0 <= i < |s| ==> LowerChar(LowerChar(s[i])) == LowerChar(s[i]);
  }

  /** Python's `s.split(sep)` for a one-character separator. */
  function Split(s: string, sep: char): (r: seq<string>)
    ensures |r| >= 1
  {
    if s == [] then [""]
    else
      var rest := Split(s[1..], sep);
      if s[0] == sep then [""] + rest else [[s[0]] + rest[0]] + rest[1..]
  }

  lemma {:induction false} SplitNoSeparator(a: string, sep: char)
    requires sep !in a
    ensures Split(a, sep) == [a]
  {
    if a != [] {
      SplitNoSeparator(a[1..], sep);
      assert [a[0]] + a[1..] == a;
    }
  }

  lemma {:induction false} SplitField(a: string, sep: char, rest: string)
    requires sep !in a
    ensures Split(a + [sep] + rest, sep) == [a] + Split(rest, sep)
  {
    if a == [] {
      assert a + [sep] + rest == [sep] + rest;
      assert ([sep] + rest)[1..] == rest;
    } else {
      var s := a + [sep] + rest;
      assert s[1..] == a[1..] + [sep] + rest;
      SplitField(a[1..], sep, rest);
      assert [a[0]] + a[1..] == a;
    }
  }

  // ---------------------------------------------------------------------------
  // Enum classes

  /** An enum class of the `enum` package: its name and its (name, value) members in
      declaration order. */
  datatype EnumClass = EnumClass(name: string, members: seq<(string, string)>)

  predicate IsMember(e: EnumClass, v: Value)
  {
    v.VEnum? && v.enumClass == e.name && (v.name, v.value) in e.members
  }

  function Values(e: EnumClass): (r: seq<string>)
    ensures |r| == |e.members| && forall i :: 0 <= i < |r| ==> r[i] == e.members[i].1
  {
    seq(|e.members|, i requires 0 <= i < |e.members| => e.members[i].1)
  }

  /** The name of the first member whose value is `s`. */
  function NameOfValue(members: seq<(string, string)>, s: string): (r: Option<string>)
    ensures r.None? <==> forall i :: 0 <= i < |members| ==> members[i].1 != s
    ensures r.Some? ==> (r.value, s) in members
  {
    if members == [] then None
    else if members[0].1 == s then Some(members[0].0)
    else
      var r := NameOfValue(members[1..], s);
      assert forall i :: 1 <= i < |members| ==> members[i] == members[1..][i - 1];
      r
  }

  /** `E(v)` for an enum class `E`: a member of the class is returned as is, a value equal
      to a member's value gives that member, and anything else raises ValueError. */
  function EnumCall(e: EnumClass, v: Value): (r: Conversion)
  {
    if IsMember(e, v) then Converted(v)
    else if v.VStr? then
      match NameOfValue(e.members, v.s)
      case Some(n) => Converted(VEnum(e.name, n, v.s))
      case None => Raises(ValueError)
    else Raises(ValueError)
  }

  /** Calling an enum class converts exactly its members and the text of its declared
      values, always to a member; everything else is a ValueError, never a TypeError. */
  lemma EnumCallAcceptsOnlyDeclared(e: EnumClass, v: Value)
    ensures EnumCall(e, v).Converted? <==> IsMember(e, v) || (v.VStr? && v.s in Values(e))
    ensures EnumCall(e, v).Converted? ==> IsMember(e, EnumCall(e, v).value)
    ensures EnumCall(e, v).Converted? && v.VStr? && !IsMember(e, v) ==> EnumCall(e, v).value.value == v.s
    ensures EnumCall(e, v).Raises? ==> EnumCall(e, v).exc == ValueError
    ensures IsMember(e, v) ==> EnumCall(e, v) == Converted(v)
  {
    if v.VStr? && v.s in Values(e) {
      var i :| 0 <= i < |Values(e)| && Values(e)[i] == v.s;
      assert e.members[i].1 == v.s;
    }
  }

}
