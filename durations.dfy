/** The duration helpers shared by the parsers: "HH:MM:SS" text to seconds and back,
    and the two guards that wrap a parse function so that it is skipped on None or on
    any falsy input. */
module Durations {
  import opened PyValues

  // ---------------------------------------------------------------------------
  // Clock arithmetic

  /** The seconds of h hours, m minutes and s seconds. */
  function Seconds(h: int, m: int, s: int): int
  {
    h * 3600 + m * 60 + s
  }

  /** What `parse_duration` computes from the three fields: the minutes are squared. */
  function SecondsAsWritten(h: int, m: int, s: int): int
  {
    h * 3600 + m * m * 60 + s
  }

  /** Squaring the minutes adds `60·m·(m-1)` seconds, which is zero only for 0 and 1. */
  lemma SquareMinutes(h: int, m: int, s: int)
    ensures SecondsAsWritten(h, m, s) == Seconds(h, m, s) + 60 * (m * (m - 1))
    ensures m * (m - 1) == 0 <==> m == 0 || m == 1
  {
    assert m * m * 60 == m * 60 + 60 * (m * (m - 1));
    if m > 1 {
      assert m * (m - 1) >= m;
    } else if m < 0 {
      assert m * (m - 1) > 0;
    }
  }

  /** Floor division by 3600 and then by 60 splits any integer into hours, minutes
      below 60 and seconds below 60. */
  lemma UnparseArithmetic(d: int)
    ensures var h, m, s := d / 3600, (d % 3600) / 60, (d % 3600) % 60;
      0 <= m < 60 && 0 <= s < 60 && Seconds(h, m, s) == d
  {
    var r := d % 3600;
    assert d == (d / 3600) * 3600 + r && 0 <= r < 3600;
    assert r == (r / 60) * 60 + r % 60 && 0 <= r % 60 < 60;
    assert r / 60 < 60;
  }

  /** The split is unique: the fields of `Seconds(h, m, s)` with m and s below 60 are
      h, m and s. */
  lemma SecondsSplit(h: int, m: int, s: int)
    requires 0 <= m < 60 && 0 <= s < 60
    ensures var d := Seconds(h, m, s);
      d / 3600 == h && (d % 3600) / 60 == m && (d % 3600) % 60 == s
  {
    var r := m * 60 + s;
    assert 0 <= r < 3600;
    assert Seconds(h, m, s) == h * 3600 + r;
    assert (h * 3600 + r) / 3600 == h && (h * 3600 + r) % 3600 == r;
    assert r / 60 == m && r % 60 == s;
  }

  // ---------------------------------------------------------------------------
  // parse_duration

  /** The integer fields of the colon-separated text, when there are exactly three of
      them and `int()` accepts each one. */
  function DurationFields(text: string): (r: Option<(int, int, int)>)
    ensures r.Some? <==> var f := Split(text, ':');
      |f| == 3 && ParseInt(f[0]).Some? && ParseInt(f[1]).Some? && ParseInt(f[2]).Some?
  {
    var f := Split(text, ':');
    if |f| == 3 && ParseInt(f[0]).Some? && ParseInt(f[1]).Some? && ParseInt(f[2]).Some? then
      Some((ParseInt(f[0]).value, ParseInt(f[1]).value, ParseInt(f[2]).value))
    else None
  }

  /** `parse_duration(duration_str)` as written: `h * 3600 + m * m * 60 + s`. A value
      without `split` raises AttributeError; a wrong number of fields (the tuple unpack)
      or a field `int()` rejects raises ValueError. */
  function ParseDuration(durationStr: Value): (r: Result<int>)
    ensures r.Err? <==> !durationStr.VStr? || DurationFields(durationStr.s).None?
    ensures r.Err? ==> r.exc == (if durationStr.VStr? then ValueError else AttributeError)
  {
    if !durationStr.VStr? then Err(AttributeError)
    else
      match DurationFields(durationStr.s)
      case None => Err(ValueError)
      case Some((h, m, s)) => Ok(SecondsAsWritten(h, m, s))
  }

  /** The documented meaning, minutes times 60: the definition the round trips hold for. */
  function ParseDurationIntended(durationStr: Value): (r: Result<int>)
    ensures r.Err? <==> !durationStr.VStr? || DurationFields(durationStr.s).None?
    ensures r.Err? ==> r.exc == (if durationStr.VStr? then ValueError else AttributeError)
  {
    if !durationStr.VStr? then Err(AttributeError)
    else
      match DurationFields(durationStr.s)
      case None => Err(ValueError)
      case Some((h, m, s)) => Ok(Seconds(h, m, s))
  }

  /** The two agree exactly when the minutes field is 0 or 1. */
  lemma ParseDurationAgreesWithIntended(durationStr: Value)
    requires durationStr.VStr? && DurationFields(durationStr.s).Some?
    ensures var m := DurationFields(durationStr.s).value.1;
      && ParseDuration(durationStr).value == ParseDurationIntended(durationStr).value + 60 * (m * (m - 1))
      && (ParseDuration(durationStr) == ParseDurationIntended(durationStr) <==> m == 0 || m == 1)
  {
    var fields := DurationFields(durationStr.s).value;
    SquareMinutes(fields.0, fields.1, fields.2);
  }

  // ---------------------------------------------------------------------------
  // unparse_duration

  /** `"%02d" % n`: at least two characters, zero padded; a negative number already has
      two (its sign and a digit). */
  function Pad2(n: int): (r: string)
  {
    if 0 <= n < 10 then "0" + [DigitChar(n)] else DecimalString(n)
  }

  /** `unparse_duration(d)`: Python 2 `/` and `%` on a positive divisor floor, as Dafny's
      do, so the fields are exact for every integer. */
  function UnparseDuration(d: int): string
  {
    Pad2(d / 3600) + ":" + Pad2((d % 3600) / 60) + ":" + Pad2((d % 3600) % 60)
  }

  lemma Pad2Facts(n: int)
    ensures |Pad2(n)| >= 2 && ':' !in Pad2(n)
    ensures n >= 0 ==> AllDigits(Pad2(n))
    ensures ParseInt(Pad2(n)) == Some(n)
  {
    if 0 <= n < 10 {
      var t := Pad2(n);
      assert t[..1] == "0";
      assert DigitsValue(t[..1]) == 0 by { assert t[..1][..0] == []; }
    } else if n < 0 {
      DecimalStringParses(n);
      assert Pad2(n) == "-" + NatDigits(-n);
      assert forall i :: 1 <= i < |Pad2(n)| ==> IsDigit(Pad2(n)[i]) by {
        forall i | 1 <= i < |Pad2(n)| ensures IsDigit(Pad2(n)[i]) {
          assert Pad2(n)[i] == NatDigits(-n)[i - 1];
        }
      }
    } else {
      DecimalStringParses(n);
    }
  }

  /** Three fields without a colon, joined by colons, split back into themselves. */
  lemma SplitThree(a: string, b: string, c: string)
    requires ':' !in a && ':' !in b && ':' !in c
    ensures Split(a + ":" + b + ":" + c, ':') == [a, b, c]
  {
    assert a + ":" + b + ":" + c == a + [':'] + (b + [':'] + c);
    SplitField(a, ':', b + [':'] + c);
    SplitField(b, ':', c);
    SplitNoSeparator(c, ':');
  }

  lemma DurationFieldsOfThree(a: string, b: string, c: string, h: int, m: int, s: int)
    requires ':' !in a && ':' !in b && ':' !in c
    requires ParseInt(a) == Some(h) && ParseInt(b) == Some(m) && ParseInt(c) == Some(s)
    ensures DurationFields(a + ":" + b + ":" + c) == Some((h, m, s))
  {
    SplitThree(a, b, c);
  }

  /** The fields `parse_duration` reads back from `unparse_duration(d)` are the hours,
      minutes and seconds it printed. */
  lemma UnparseFields(d: int)
    ensures DurationFields(UnparseDuration(d)) == Some((d / 3600, (d % 3600) / 60, (d % 3600) % 60))
  {
    var h, m, s := d / 3600, (d % 3600) / 60, (d % 3600) % 60;
    Pad2Facts(h);
    Pad2Facts(m);
    Pad2Facts(s);
    DurationFieldsOfThree(Pad2(h), Pad2(m), Pad2(s), h, m, s);
  }

  /** The fields of `unparse_duration(d)`: hours, minutes below 60 and seconds below 60,
      each printed with at least two characters, which recombine to `d`. */
  lemma UnparseDurationFields(d: int)
    ensures var h, m, s := d / 3600, (d % 3600) / 60, (d % 3600) % 60;
      && 0 <= m < 60 && 0 <= s < 60 && Seconds(h, m, s) == d
      && Split(UnparseDuration(d), ':') == [Pad2(h), Pad2(m), Pad2(s)]
      && DurationFields(UnparseDuration(d)) == Some((h, m, s))
      && |Pad2(h)| >= 2 && |Pad2(m)| >= 2 && |Pad2(s)| >= 2
      && (d >= 0 ==> AllDigits(Pad2(h)) && AllDigits(Pad2(m)) && AllDigits(Pad2(s)))
  {
    UnparseArithmetic(d);
    var h, m, s := d / 3600, (d % 3600) / 60, (d % 3600) % 60;
    Pad2Facts(h);
    Pad2Facts(m);
    Pad2Facts(s);
    SplitThree(Pad2(h), Pad2(m), Pad2(s));
    UnparseFields(d);
  }

  /** Unparsing then parsing as written adds `60·m·(m-1)` seconds, `m` being the printed
      minutes. */
  lemma ParseUnparse(d: int)
    ensures var m := (d % 3600) / 60;
      ParseDuration(VStr(UnparseDuration(d))) == Ok(d + 60 * (m * (m - 1)))
  {
    UnparseFields(d);
    UnparseArithmetic(d);
    SquareMinutes(d / 3600, (d % 3600) / 60, (d % 3600) % 60);
  }

  lemma MinutesOfRemainder(r: int)
    requires 0 <= r < 3600
    ensures r / 60 == 0 || r / 60 == 1 <==> r < 120
  {
    var m := r / 60;
    assert 60 * m <= r < 60 * m + 60;
  }

  /** Of the remainders below an hour, exactly those below two minutes have 0 or 1 as
      their minutes. */
  lemma MinutesBelowTwo(r: int)
    requires 0 <= r < 3600
    ensures var m := r / 60; 60 * (m * (m - 1)) == 0 <==> r < 120
  {
    var m := r / 60;
    MinutesOfRemainder(r);
    SquareMinutes(0, m, 0);
    var p := m * (m - 1);
    assert 60 * p == 0 <==> p == 0;
  }

  /** Squaring the printed minutes changes nothing exactly when they are 0 or 1. */
  lemma AsWrittenIsExact(d: int)
    ensures SecondsAsWritten(d / 3600, (d % 3600) / 60, (d % 3600) % 60) == d <==> d % 3600 < 120
  {
    var m := (d % 3600) / 60;
    UnparseArithmetic(d);
    SquareMinutes(d / 3600, m, (d % 3600) % 60);
    MinutesBelowTwo(d % 3600);
  }

  /** The round trip `parse_duration(unparse_duration(d)) == d` holds exactly for the
      durations whose minutes are 0 or 1, e.g. 15 and "00:00:15". */
  lemma ParseUnparseRoundTrip(d: int)
    ensures ParseDuration(VStr(UnparseDuration(d))) == Ok(d) <==> d % 3600 < 120
  {
    var h, m, s := d / 3600, (d % 3600) / 60, (d % 3600) % 60;
    UnparseFields(d);
    assert ParseDuration(VStr(UnparseDuration(d))) == Ok(SecondsAsWritten(h, m, s));
    AsWrittenIsExact(d);
    SameResult(ParseDuration(VStr(UnparseDuration(d))), SecondsAsWritten(h, m, s), d);
  }

  lemma SameResult(r: Result<int>, x: int, d: int)
    requires r == Ok(x)
    ensures r == Ok(d) <==> x == d
  {
  }

  lemma Pad2OneDigit(n: int)
    requires 0 <= n < 10
    ensures Pad2(n) == ['0', DigitChar(n)]
  {
  }

  /** 125 seconds print as "00:02:05". */
  lemma PrintTwoMinutesFive(d: int)
    requires d == 125
    ensures UnparseDuration(d) == "00:02:05"
  {
    assert d == Seconds(0, 2, 5);
    UnparseOfFields(0, 2, 5);
    Pad2OneDigit(0);
    Pad2OneDigit(2);
    Pad2OneDigit(5);
    assert DigitChar(0) == '0' && DigitChar(2) == '2' && DigitChar(5) == '5';
  }

  /** A counterexample to the round trip: "00:02:05", the text of 125 seconds, reads back
      as 245 seconds. */
  lemma ParseUnparseCounterexample(d: int)
    requires d == 125
    ensures ParseDuration(VStr(UnparseDuration(d))) == Ok(245)
  {
    ParseUnparse(d);
    assert (d % 3600) / 60 == 2;
  }

  /** With minutes times 60 the round trip holds for every integer. */
  lemma ParseIntendedUnparseRoundTrip(d: int)
    ensures ParseDurationIntended(VStr(UnparseDuration(d))) == Ok(d)
  {
    UnparseFields(d);
    UnparseArithmetic(d);
  }

  // ---------------------------------------------------------------------------
  // Text in "HH:MM:SS" form

  function TwoDigitValue(a: char, b: char): nat
    requires IsDigit(a) && IsDigit(b)
  {
    10 * (a as int - '0' as int) + (b as int - '0' as int)
  }

  lemma TwoDigitsParse(a: char, b: char)
    requires IsDigit(a) && IsDigit(b)
    ensures ':' !in [a, b]
    ensures ParseInt([a, b]) == Some(TwoDigitValue(a, b))
  {
    assert AllDigits([a, b]);
    assert [a, b][..1] == [a];
    assert [a][..0] == [];
    assert DigitsValue([a]) == a as int - '0' as int;
    assert DigitsValue([a, b]) == TwoDigitValue(a, b);
  }

  lemma TwoDigitsPrint(a: char, b: char)
    requires IsDigit(a) && IsDigit(b)
    ensures Pad2(TwoDigitValue(a, b)) == [a, b]
  {
    var n := TwoDigitValue(a, b);
    assert DigitChar(b as int - '0' as int) == b;
    if n >= 10 {
      assert n / 10 == a as int - '0' as int && n % 10 == b as int - '0' as int;
      assert DigitChar(a as int - '0' as int) == a;
      assert NatDigits(n / 10) == [a];
      assert NatDigits(n) == NatDigits(n / 10) + [DigitChar(n % 10)];
    } else {
      assert a == '0';
    }
  }

  /** Two-digit hours, minutes below 60 and seconds below 60. */
  predicate ClockText(t: string)
  {
    && |t| == 8 && t[2] == ':' && t[5] == ':'
    && IsDigit(t[0]) && IsDigit(t[1]) && IsDigit(t[3]) && IsDigit(t[4]) && IsDigit(t[6]) && IsDigit(t[7])
    && t[3] <= '5' && t[6] <= '5'
  }

  lemma ClockTextJoin(t: string)
    requires ClockText(t)
    ensures t == [t[0], t[1]] + ":" + [t[3], t[4]] + ":" + [t[6], t[7]]
  {
  }

  lemma ClockTextFields(t: string)
    requires ClockText(t)
    ensures DurationFields(t) == Some((TwoDigitValue(t[0], t[1]), TwoDigitValue(t[3], t[4]), TwoDigitValue(t[6], t[7])))
  {
    TwoDigitsParse(t[0], t[1]);
    TwoDigitsParse(t[3], t[4]);
    TwoDigitsParse(t[6], t[7]);
    ClockTextJoin(t);
    DurationFieldsOfThree([t[0], t[1]], [t[3], t[4]], [t[6], t[7]],
      TwoDigitValue(t[0], t[1]), TwoDigitValue(t[3], t[4]), TwoDigitValue(t[6], t[7]));
  }

  /** Printing the seconds of `h:m:s` with `m, s < 60` prints the three fields. */
  lemma UnparseOfFields(h: int, m: int, s: int)
    requires 0 <= m < 60 && 0 <= s < 60
    ensures UnparseDuration(Seconds(h, m, s)) == Pad2(h) + ":" + Pad2(m) + ":" + Pad2(s)
  {
    SecondsSplit(h, m, s);
  }

  /** The seconds "HH:MM:SS" stands for, minutes times 60. */
  function ClockSeconds(t: string): int
    requires ClockText(t)
  {
    Seconds(TwoDigitValue(t[0], t[1]), TwoDigitValue(t[3], t[4]), TwoDigitValue(t[6], t[7]))
  }

  lemma ClockTextPrints(t: string)
    requires ClockText(t)
    ensures UnparseDuration(ClockSeconds(t)) == t
  {
    var h, m, s := TwoDigitValue(t[0], t[1]), TwoDigitValue(t[3], t[4]), TwoDigitValue(t[6], t[7]);
    UnparseOfFields(h, m, s);
    TwoDigitsPrint(t[0], t[1]);
    TwoDigitsPrint(t[3], t[4]);
    TwoDigitsPrint(t[6], t[7]);
    ClockTextJoin(t);
  }

  /** `unparse_duration(parse_duration(t)) == t` for "HH:MM:SS" text whose minutes are
      "00" or "01". */
  lemma UnparseParseRoundTrip(t: string)
    requires ClockText(t) && t[3] == '0' && (t[4] == '0' || t[4] == '1')
    ensures ParseDuration(VStr(t)).Ok? && UnparseDuration(ParseDuration(VStr(t)).value) == t
  {
    ClockTextFields(t);
    var h, m, s := TwoDigitValue(t[0], t[1]), TwoDigitValue(t[3], t[4]), TwoDigitValue(t[6], t[7]);
    SquareMinutes(h, m, s);
    assert m == 0 || m == 1;
    assert ParseDuration(VStr(t)) == Ok(ClockSeconds(t));
    ClockTextPrints(t);
  }

  /** With minutes times 60 the text round trip holds for every "HH:MM:SS". */
  lemma UnparseParseIntendedRoundTrip(t: string)
    requires ClockText(t)
    ensures ParseDurationIntended(VStr(t)).Ok? && UnparseDuration(ParseDurationIntended(VStr(t)).value) == t
  {
    ClockTextFields(t);
    assert ParseDurationIntended(VStr(t)) == Ok(ClockSeconds(t));
    ClockTextPrints(t);
  }

  // ---------------------------------------------------------------------------
  // accept_none, accept_falsy

  type ParseFunc = Value -> Result<Value>

  /** `accept_none(parse_func)`: skip the parse function on None. */
  function AcceptNone(parseFunc: ParseFunc): (parse: ParseFunc)
    ensures parse(VNone) == Ok(VNone)
    ensures forall x :: x != VNone ==> parse(x) == parseFunc(x)
  {
    x => if x == VNone then Ok(VNone) else parseFunc(x)
  }

  /** `accept_falsy(parse_func)`: skip the parse function on every falsy input. */
  function AcceptFalsy(parseFunc: ParseFunc): (parse: ParseFunc)
    ensures forall x :: !Truthy(x) ==> parse(x) == Ok(VNone)
    ensures forall x :: Truthy(x) ==> parse(x) == parseFunc(x)
  {
    x => if !Truthy(x) then Ok(VNone) else parseFunc(x)
  }

  /** The falsy guard covers the None guard: the two differ only on falsy values other
      than None (such as "", 0 or an empty map), which only the falsy guard skips. */
  lemma AcceptFalsyVersusAcceptNone(parseFunc: ParseFunc, x: Value)
    ensures AcceptFalsy(parseFunc)(x) != AcceptNone(parseFunc)(x) ==> x != VNone && !Truthy(x)
    ensures AcceptNone(AcceptFalsy(parseFunc))(x) == AcceptFalsy(parseFunc)(x)
    ensures AcceptFalsy(AcceptNone(parseFunc))(x) == AcceptFalsy(parseFunc)(x)
    ensures AcceptFalsy(AcceptFalsy(parseFunc))(x) == AcceptFalsy(parseFunc)(x)
  {
  }

  lemma AcceptFalsySkips(parseFunc: ParseFunc)
    ensures AcceptFalsy(parseFunc)(VStr("")) == Ok(VNone)
    ensures AcceptFalsy(parseFunc)(VDict([])) == Ok(VNone)
    ensures AcceptFalsy(parseFunc)(VInt(0)) == Ok(VNone)
    ensures AcceptNone(parseFunc)(VStr("")) == parseFunc(VStr(""))
    ensures AcceptNone(parseFunc)(VDict([])) == parseFunc(VDict([]))
  {
  }
}
