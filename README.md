# VAST 2.0 parsing and validation, modelled in Dafny

This project models the core of `vast`, a Python 2 library that reads VAST 2.0 video-ad
documents (the IAB Video Ad Serving Template) and turns them into immutable, validated
model objects. The model has five layers:

- the Python values the library handles (`PyValues`);
- the declarative rule engine `pre_make` with its six checkers (`Engine`);
- the primitive validators (`Validators`);
- the duration helpers shared by the parsers (`Durations`);
- the VAST 2.0 entities and their `make` factories (`ModelsV2`).

Above those layers sit the walkers and parsers over the decoded tag tree:

- `Sorting`;
- `TreeWalk`;
- `ParserV2` for `vast/parsers/vast_v2.py`;
- `XmlParser` for `vast/parsers/xml_parser.py`.

The two `_ParsedInLine` classes of `vast/parsers/vast_v2.py:55-120` and
`vast/parsers/xml_parser.py:62-128` are line for line the same. `TreeWalk` models them once, and the
table cites the first copy.

Modelling choices:

- **Values.** A Python value is the `Value` datatype. The decoded XML tree of `xmltodict` uses
  the same datatype: a dict is an ordered list of `(key, value)` entries, and attributes are
  keyed with a leading `@`. Lists and tuples are separate cases. Hashing follows Python 2:
  lists and dicts are unhashable. A tuple hashes its items, and a model instance hashes its
  fields, because every model class is a frozen attrs class.
- **Exceptions.** An exception that escapes appears as a `Result`, `Parse` or `MakeOutcome`
  error. The `ValueError(errors)` that `pre_make` raises carries the checkers' errors as
  structured `CheckError` values. A `make` that refuses its arguments gives `Refused` with
  those errors; which exception class it raises then is not part of this model.
- **Generators.** A generator (`creatives`, `media_files`, `mimetypes`, `durations`) is a
  `Stream`: the items it yields, and the exception it raises when drained, if any. This keeps
  laziness visible: `duration` reads only the first creative, so a later failure does not
  reach it (`TreeWalk.DurationOfFirstLinear`).
- **Loops.** The two accumulating loops `mime_to_bitrates` and `mime_to_sizes`, and the
  seen-set loop of `mimetypes`, are methods with `while` loops. Each is proved equal to a
  function of what draining `media_files` gives, and lemmas then state what that function
  means.
- **`check_and_convert`.** Its body is not part of this model. It is taken to be `pre_make`
  over the class's REQUIRED, SOME_OFS, CONVERTERS and CLASSES tables, followed by a call of
  the constructor. Each field is passed what the checkers found for it, or None
  (`ModelsV2.CheckAndConvert`).
- **`Enum.from_string`.** It is not part of this model. The enum checker takes the lookup as
  a parameter that returns a member, returns None, or raises an exception.
- **`parse_xml`.** It reads `version` and `ad` from an object whose class is not part of this
  model, so there they are parameters. In `xml_parser.py`, `from_xml_string` takes the
  `_parse_wrapper` it calls as a parameter. The module's own `_parse_wrapper` is modelled
  too, as `XmlParser.ParseWrapperAsWritten`. Its getter object, `_ParsedWrapper`, reads
  `impression` from `self.wrapper`, an attribute it never sets (xml_parser.py:49-51), so
  every call raises AttributeError before `Wrapper.make` is reached
  (`XmlParser.FromXmlStringWrapperRaises`).

Two behaviours of the source stand out and are proved:

- `_parse_inline` hands the Inline element itself to `_ParsedInLine`, which then looks for a
  `VAST` key inside it (`ParserV2.ParseInlineNeedsVast`).
- A Wrapper with a non-empty `creatives` map is always refused, because `from_creaive_dict`
  returns None (`ParserV2.ParseWrapperOutcome`).

## Model

| member | source | states |
|---|---|---|
| PyValues.DictGet | vast/parsers/vast_v2.py:13-21 | `d.get(k, default)`: the first value under `k`, the default when absent, AttributeError on anything but a dict |
| PyValues.Subscript | vast/parsers/vast_v2.py:58 | `d[k]`: the value under `k`; KeyError on a dict without it, TypeError on a value that cannot be subscripted by text |
| PyValues.Contains | vast/parsers/vast_v2.py:104 | `k in c`: key membership on a dict, substring on text, element test on a list or tuple, TypeError otherwise |
| PyValues.Iterate | vast/parsers/vast_v2.py:110 | a `for` loop visits a list's or tuple's items, a dict's keys, a string's characters; None and other values raise TypeError |
| PyValues.DictValues | vast/parsers/vast_v2.py:51 | `d.values()`: exactly the values of the entries in order, AttributeError on a non-dict |
| PyValues.NatDigitsValue | vast/models/vast_v2.py:111 | the printed decimal digits of a natural number read back as that number |
| PyValues.DecimalStringParses | vast/models/vast_v2.py:111 | `int(str(n)) == n` for every integer |
| PyValues.PyInt | vast/models/vast_v2.py:111 | `int(v)`: ints unchanged, booleans to 0/1, unicode text that is an integer literal (white space around it and after its sign allowed) to its value, ValueError for other text, TypeError for other values |
| PyValues.ParseSigned | vast/models/vast_v2.py:111 | a sign and then digits with any white space between them read as the signed value of the digits |
| PyValues.IntTextScenarios | vast/models/vast_v2.py:111 | `int(u"- 5")` is -5, `int(u"+ 5")` is 5, a no-break space is white space, and a bare sign or split digits are refused |
| PyValues.EnumCallAcceptsOnlyDeclared | vast/models/vast_v2.py:113-115 | calling an enum class converts exactly its members and its declared value texts, always to a member; anything else is ValueError, never TypeError |
| ModelsV2.EnumTables | vast/models/vast_v2.py:19-70 | the declared values of Delivery, ApiFramework, MimeType (six) and TrackingEventType (sixteen), each table free of repeats |
| Engine.FoldRaises | vast/models/shared.py:14-24 | a checker loop raises iff one iteration raises, and then with the first such exception |
| Engine.FoldFound | vast/models/shared.py:14-24 | a key is in `found` iff some iteration stores it, with the value of the last one that does |
| Engine.FoldErrors | vast/models/shared.py:14-24 | no iteration's errors are dropped |
| Engine.FoldErrorOrigin | vast/models/shared.py:14-24 | every error comes from some iteration |
| Engine.FoldStaysRaised | vast/models/shared.py:14-24 | once an iteration raises, later iterations do not run |
| Engine.CheckRequired | vast/models/shared.py:7-25 | the required checker's loop computes the fold of its per-name steps |
| Engine.RequiredFound | vast/models/shared.py:16-17 | a required name that is a key is stored with its value, None included; the checker never raises |
| Engine.RequiredErrors | vast/models/shared.py:18-23 | exactly one missing-name error per occurrence of a required name that is not a key |
| Engine.RequiredErrorCount | vast/models/shared.py:18-23 | an error's multiplicity equals the number of missing occurrences of its name |
| Engine.RequiredClean | vast/models/shared.py:14-24 | no errors iff every required name is a key |
| Engine.CollectExisting | vast/models/shared.py:36 | the comprehension collects the members whose `get` is truthy, in group order |
| Engine.CheckOneOf | vast/models/shared.py:28-49 | the one-of checker's loop computes the fold of its per-group steps |
| Engine.OneOfFound | vast/models/shared.py:35-47 | a key is stored, with its input value, iff it is the single truthy member of a group; never raises |
| Engine.ExistingMembers | vast/models/shared.py:36 | a name is among the truthy members iff it is in the group, is a key and its value is truthy |
| Engine.OneOfErrors | vast/models/shared.py:35-44 | each error `NotExactlyOne(g, existing)` occurs as often as the group `g` does when `existing` is `g`'s truthy members and their number is not 1, and never otherwise |
| Engine.OneOfAddsNoOtherMember | vast/models/shared.py:45-46 | in a passing group no other member is stored |
| Engine.OneOfClean | vast/models/shared.py:35-47 | no errors iff every group has exactly one truthy member |
| Engine.Convert | vast/models/shared.py:52-86 | the converter's loop computes the fold of its per-rule steps |
| Engine.ConverterStepFacts | vast/models/shared.py:60-84 | one rule: skip an absent name, report None for a required one, store the conversion, report TypeError, let others escape |
| Engine.ConverterRaises | vast/models/shared.py:73-84 | only TypeError is caught; the first other exception in rule order escapes |
| Engine.ConverterFound | vast/models/shared.py:60-74 | a name is stored iff present, non-None and converting, and holds the converted value |
| Engine.ConverterErrors | vast/models/shared.py:64-84 | one error for a required None or a TypeError conversion, none otherwise |
| Engine.ConverterNothingElse | vast/models/shared.py:56-85 | only rule names are stored; every error belongs to a failing rule |
| Engine.ConverterClean | vast/models/shared.py:56-85 | no errors iff no rule fails |
| Engine.CheckEnums | vast/models/shared.py:129-168 | the enum checker's loop computes the fold of its per-rule steps |
| Engine.EnumFound | vast/models/shared.py:136-157 | when the checker does not raise, a name is stored iff present, non-None and found by `from_string`, with that member |
| Engine.EnumErrors | vast/models/shared.py:141-165 | one error when the rule fails, none otherwise |
| Engine.EnumNothingElse | vast/models/shared.py:133-166 | only rule names are stored; every error belongs to a failing rule |
| Engine.EnumRaises | vast/models/shared.py:152-165 | `raise ValueError` and a ValueError of `from_string` are caught; the checker raises iff some rule's `from_string` raises anything else, and then with the first such exception in rule order |
| Engine.ToBool | vast/models/shared.py:202-208 | `to_bool`: the lower-cased text must be one of the five literals, else ValueError |
| Engine.ToBoolOfBool | vast/models/shared.py:202-208 | `to_bool(str(b)) == b`, and None reads as False |
| Engine.ToBoolIgnoresCase | vast/models/shared.py:202-208 | text is read case-insensitively |
| Engine.ToBoolOfInt | vast/models/shared.py:202-208 | of the integers only 0 and 1 are accepted |
| Engine.ConvertBools | vast/models/shared.py:171-199 | the bool converter's loop computes the fold of its per-name steps |
| Engine.BoolStepFacts | vast/models/shared.py:178-196 | one name: skip if absent, crash on a required None, store `to_bool`, or report its ValueError |
| Engine.BoolRaises | vast/models/shared.py:183-184 | the converter raises TypeError iff a required name is given None (`errors.append()` without an argument) |
| Engine.BoolFound | vast/models/shared.py:186-188 | a name is stored iff present, non-None and accepted, with the parsed boolean |
| Engine.BoolErrors | vast/models/shared.py:189-196 | one error when `to_bool` rejects the value, none otherwise |
| Engine.BoolNothingElse | vast/models/shared.py:175-197 | only rule names are stored; every error belongs to a failing name |
| Engine.WrongClassErrorsCount | vast/models/shared.py:97-105 | one error per occurrence of an item that is not an instance |
| Engine.CheckItems | vast/models/shared.py:121-122 | the inner loop reports exactly the non-instances of a container |
| Engine.CheckClasses | vast/models/shared.py:89-126 | the class checker's loop computes the fold of its per-rule steps |
| Engine.ClassStepFacts | vast/models/shared.py:107-122 | one rule: skip, report a required None, store the value and check it or its items |
| Engine.ClassRaises | vast/models/shared.py:121 | the checker raises iff a container rule's non-None value cannot be iterated, and then TypeError |
| Engine.ClassFound | vast/models/shared.py:116 | a present, non-None value is stored as given, whatever the check finds |
| Engine.ClassNothingElse | vast/models/shared.py:93-124 | only rule names are stored, and every error names a rule |
| Engine.ClassErrors | vast/models/shared.py:111-122 | one error per non-instance checked item, and one for a required None |
| Engine.ClassErrorItem | vast/models/shared.py:97-105 | every class error is that of a checked item that is not an instance |
| Engine.ClassClean | vast/models/shared.py:93-124 | no errors iff every checked item is an instance |
| Engine.ClassItemError | vast/models/shared.py:97-105 | a checked non-instance item causes an error |
| Engine.RunChecker | vast/models/shared.py:220-227 | builds and runs the checker of one kind of `ccs` |
| Engine.NewMake | vast/models/shared.py:231-243 | `new_make` merges the six results in `ccs` order and calls the constructor, raises `ValueError(errors)`, or lets an exception escape |
| Engine.AccumulateAll | vast/models/shared.py:233-238 | the merge loop over the six checkers in `ccs` order |
| Engine.MergeSix | vast/models/shared.py:233-238 | the first exception wins, else errors concatenate and found maps merge with later ones winning |
| Engine.PreMakeOutcome | vast/models/shared.py:211-246 | no short circuit: every checker runs on the same input; the exception of the first raising checker escapes (converter, enum, bool, class in that order), else a refusal with all errors in checker order, else the constructor call |
| Engine.PreMakeWithoutRequired | vast/models/shared.py:219 | `pre_make(required=None)` evaluates `set(None)` and raises TypeError |
| Engine.PreMakeDropsUnnamedKeys | vast/models/shared.py:231-243 | input keys no rule names never reach the constructor |
| Engine.PreMakeConverterFailure | vast/models/shared.py:239-240 | a failing converter rule prevents the constructor call |
| Engine.PreMakeClassFailure | vast/models/shared.py:239-240 | a non-instance class item prevents the constructor call |
| Engine.PreMakeMadeIff | vast/models/shared.py:231-243 | without enum or bool rules: built iff every required name is a key, every group has one truthy member, and every converter and class rule lets its value through |
| Engine.PreMakeKwargs | vast/models/shared.py:236-243 | the constructor's keyword arguments are the found maps merged in order |
| Engine.PreMakeConvertedValue | vast/models/shared.py:236-243 | a converted field reaches the constructor converted, None kept |
| Engine.PreMakeCrashes | vast/models/shared.py:231-243 | without bool rules: an exception escapes iff some converter, enum or class rule raises; it is the converter's first, else the enum checker's first, else TypeError |
| Engine.PreMakeClassValue | vast/models/shared.py:236-243 | a field only a class rule names reaches the constructor as given |
| Engine.PreMakeRequiredValue | vast/models/shared.py:236-243 | a field only the required list names reaches the constructor as given, None included |
| Engine.PreMakeOneOfValue | vast/models/shared.py:236-243 | a one-of member reaches the constructor iff truthy, with its input value |
| Validators.Less | vast/validators.py:31-36 | Python 2 `<` on None, numbers and text (None below numbers below text) |
| Validators.MakeInValidator | vast/validators.py:41-59 | `set(_collection)` iterates the collection (list, tuple, string or dict keys) and raises TypeError on an unhashable element (a list, a dict, a tuple holding one, or a model instance holding one in a field) |
| Validators.TypeValidatorRaisesIffNotInstance | vast/validators.py:2-19 | raises TypeError iff the value is not an instance; for `int` that excludes the `long`s outside `-sys.maxint - 1 .. sys.maxint` and includes booleans |
| Validators.GreaterThanIsStrict | vast/validators.py:22-38 | greater-than is strict: a value equal to the bound is rejected |
| Validators.GreaterThanOnText | vast/validators.py:22-38 | on text greater-than is lexicographic |
| Validators.LessIsStrictTotalOrder | vast/validators.py:31-36 | `<` is irreflexive, transitive and total on the modelled values, so the check is `not (bound < value)` |
| Validators.InValidatorMembership | vast/validators.py:48-57 | accepts exactly the hashable values equal to an element (numbers by value, tuples item by item); unhashable values raise TypeError |
| Validators.InValidatorOnDictUsesKeys | vast/validators.py:41-59 | for a dict collection a text value passes iff it is a key |
| Validators.MinMaxOnPair | vast/validators.py:62-77 | on a list or tuple of two numbers raises iff min > max; equal values pass |
| Validators.MinMaxNeedsTwoItems | vast/validators.py:69-75 | unpacking needs exactly two items: ValueError otherwise, TypeError for a non-iterable |
| Validators.CompoundIsFirstFailure | vast/validators.py:80-90 | passes iff every component passes, else the verdict of the first that does not |
| Validators.PosIntAcceptsPositive | vast/validators.py:99-102 | POS_INT_VALIDATOR accepts exactly True and the `int`s from 1 to `sys.maxint`; TypeError for non-`int`s (`long`s included), ValueError for the rest |
| Validators.LongIsNotInt | vast/validators.py:12-17 | `sys.maxint + 1` is a `long` and fails both integer validators with TypeError, while `sys.maxint` passes |
| Validators.SemiPosIntAcceptsNonNegative | vast/validators.py:95-98 | SEMI_POS_INT_VALIDATOR accepts exactly the booleans and the `int`s from 0 to `sys.maxint`; TypeError for non-`int`s (`long`s included), ValueError for the rest |
| Validators.TextScenarios | vast/tests/test_validators.py:7-112 | the type and greater-than scenarios of the validator tests get the verdicts those tests expect |
| Validators.MinMaxScenarios | vast/tests/test_validators.py:114-141 | the min/max tuples (1, 10) and (1, 1) pass; (11, 10) and (1, -11) raise ValueError |
| Validators.InTupleScenarios | vast/tests/test_validators.py:40-76 | the tuple ("a", "b") builds a validator that passes "a" and raises ValueError on "c" |
| Validators.InValidatorOnTuples | vast/validators.py:48-57 | a collection of tuples builds a validator that passes an equal tuple, (1,) equal to (True,); a tuple checked against text raises ValueError |
| Validators.InValidatorOnInstances | vast/validators.py:48-57 | a model instance holding a list is unhashable: in the collection `set()` raises TypeError, and as the value it raises TypeError |
| Durations.DurationFields | vast/parsers/shared.py:12 | three colon-separated fields that `int()` accepts, or nothing |
| Durations.ParseDuration | vast/parsers/shared.py:6-13 | `parse_duration` as written, `h*3600 + m*m*60 + s`; ValueError for malformed text |
| Durations.ParseDurationIntended | vast/parsers/shared.py:6-13 | the documented meaning, `h*3600 + m*60 + s` |
| Durations.ParseDurationAgreesWithIntended | vast/parsers/shared.py:13 | the two agree exactly when the minutes field is 0 or 1 |
| Durations.Pad2Facts | vast/parsers/shared.py:24 | `%02d` prints at least two characters that `int()` reads back |
| Durations.UnparseArithmetic | vast/parsers/shared.py:23 | floor division gives minutes and seconds below 60 that recombine to the input |
| Durations.UnparseDurationFields | vast/parsers/shared.py:16-24 | `unparse_duration` prints three fields that recombine to the input |
| Durations.SquareMinutes | vast/parsers/shared.py:13 | the as-written sum exceeds the intended one by `60*m*(m-1)`, which is 0 iff the minutes are 0 or 1 |
| Durations.UnparseFields | vast/parsers/shared.py:12-24 | the fields read back from the printed text are the hours, minutes and seconds of the floor divisions |
| Durations.MinutesBelowTwo | vast/parsers/shared.py:13-23 | for a remainder below an hour the excess vanishes iff the remainder is below 120 seconds |
| Durations.AsWrittenIsExact | vast/parsers/shared.py:13-23 | recombining the printed fields by the as-written sum gives the input iff its remainder modulo an hour is below 120 |
| Durations.ParseUnparse | vast/parsers/shared.py:6-24 | unparse then parse as written adds `60*m*(m-1)` seconds |
| Durations.ParseUnparseRoundTrip | vast/parsers/shared.py:6-24 | the as-written round trip holds iff the printed minutes are 0 or 1 |
| Durations.PrintTwoMinutesFive | vast/parsers/shared.py:16-24 | 125 seconds print as "00:02:05" |
| Durations.ParseUnparseCounterexample | vast/parsers/shared.py:6-24 | 125 seconds print as "00:02:05" and read back as 245 |
| Durations.ParseIntendedUnparseRoundTrip | vast/parsers/shared.py:6-24 | with minutes times 60 the round trip holds for every integer |
| Durations.ClockTextPrints | vast/parsers/shared.py:16-24 | printing the seconds of an `HH:MM:SS` text gives the text back |
| Durations.UnparseParseRoundTrip | vast/parsers/shared.py:6-24 | text round trip as written for `HH:MM:SS` with minutes 00 or 01 |
| Durations.UnparseParseIntendedRoundTrip | vast/parsers/shared.py:6-24 | text round trip for every `HH:MM:SS` with the intended parse |
| Durations.AcceptNone | vast/parsers/shared.py:27-33 | None gives None without calling the parse function; other inputs are parsed |
| Durations.AcceptFalsy | vast/parsers/shared.py:36-42 | every falsy input gives None without calling it; truthy inputs are parsed |
| Durations.AcceptFalsyVersusAcceptNone | vast/parsers/shared.py:27-42 | the guards differ only on falsy values other than None |
| Durations.AcceptFalsySkips | vast/parsers/shared.py:27-42 | "", {} and 0 are skipped by the falsy guard; the None guard passes "" and {} on to the parse function |
| ModelsV2.InstanceField | vast/models/vast_v2.py:101-213 | each field of a built instance holds what the checkers found, or None |
| ModelsV2.ApplyRaises | vast/models/vast_v2.py:109-116 | a conversion of the tables raises only TypeError or ValueError |
| ModelsV2.EscapedException | vast/models/shared.py:231-243 | what escapes is a conversion's ValueError or a container's TypeError |
| ModelsV2.AdRules | vast/models/vast_v2.py:413-415 | the Ad tables on the arguments of `make` |
| ModelsV2.AdMakeBuiltIff | vast/models/vast_v2.py:421-430 | built iff id is not None and exactly one of wrapper and inline is truthy; nothing escapes |
| ModelsV2.AdMakeFields | vast/models/vast_v2.py:413-430 | a built Ad holds its id as text and only the truthy one of wrapper and inline |
| ModelsV2.AdMakeWrapperOrInline | vast/models/vast_v2.py:432-438 | `make_wrapper`/`make_inline` build iff the id is not None and the ad they pass is truthy |
| ModelsV2.VastRules | vast/models/vast_v2.py:447-448 | the Vast tables on the arguments of `make` |
| ModelsV2.VastMakeOutcome | vast/models/vast_v2.py:453-469 | built iff the ad is an Ad and the version is "2.0"; a non-Ad is refused; another version fails the post-check with its message |
| ModelsV2.TrackingEventRules | vast/models/vast_v2.py:74-98 | the TrackingEvent tables on the arguments of `make` |
| ModelsV2.TrackingEventEscapes | vast/models/vast_v2.py:74-98 | only the enum call of the event type can raise past the checkers |
| ModelsV2.TrackingEventMakeOutcome | vast/models/vast_v2.py:74-98 | built iff neither field is None and the type is declared; an undeclared type escapes as ValueError |
| ModelsV2.TrackingEventMakeFields | vast/models/vast_v2.py:74-98 | a built event holds its uri as text and its type as a declared member |
| ModelsV2.WrapperRules | vast/models/vast_v2.py:375-404 | the Wrapper tables on the arguments of `make` |
| ModelsV2.WrapperMakeOutcome | vast/models/vast_v2.py:375-404 | built iff the ad system is not None and the creatives are None or Creatives only; a non-iterable creatives value escapes as TypeError |
| ModelsV2.WrapperMakeTexts | vast/models/vast_v2.py:375-404 | a built Wrapper holds `unicode` of each text, None kept |
| ModelsV2.WrapperMakeFields | vast/models/vast_v2.py:375-404 | a built Wrapper holds its tag URI and creatives as given |
| ModelsV2.InlineRules | vast/models/vast_v2.py:337-371 | the Inline tables on the arguments of `make` |
| ModelsV2.InlineMakeOutcome | vast/models/vast_v2.py:337-371 | built iff none of the four fields is None and the creatives hold Creatives only |
| ModelsV2.InlineMakeFields | vast/models/vast_v2.py:337-371 | a built Inline holds its texts as text and its creatives as given |
| ModelsV2.LinearCreativeRules | vast/models/vast_v2.py:216-264 | the LinearCreative tables on the arguments of `make` |
| ModelsV2.LinearCreativeMakeOutcome | vast/models/vast_v2.py:216-264 | built iff the duration converts to an int and the lists hold MediaFiles and TrackingEvents |
| ModelsV2.LinearCreativeMakeFields | vast/models/vast_v2.py:216-264 | a built LinearCreative holds its duration as an int and its lists as given; unnamed fields read None |
| ModelsV2.CreativeRules | vast/models/vast_v2.py:267-334 | the Creative tables on the arguments of `make` |
| ModelsV2.CreativeMakeOutcome | vast/models/vast_v2.py:267-334 | built iff the linear part is None or a LinearCreative; a bad sequence or API framework escapes as ValueError |
| ModelsV2.CreativeMakeFields | vast/models/vast_v2.py:267-334 | a built Creative holds its ids as text, its sequence as an int and its API framework as a member |
| ModelsV2.MediaFileRules | vast/models/vast_v2.py:108-116 | the MediaFile tables on the arguments of `make` |
| ModelsV2.MediaFileEscapes | vast/models/vast_v2.py:108-116 | only a non-numeric text for an int field or an undeclared enum value escapes |
| ModelsV2.MediaFileCheckOutcome | vast/models/vast_v2.py:101-183 | the checkers build the file iff the five required fields are given and every conversion succeeds |
| ModelsV2.MediaFileFields | vast/models/vast_v2.py:108-116 | every converted field of a built file holds its input's conversion |
| ModelsV2.MediaFileValidators | vast/models/vast_v2.py:185-190 | FLASH and JS get no bitrate rule, progressive files the bitrate rule, the others the min/max rule, always after VALIDATORS |
| ModelsV2.BitrateMessage | vast/models/vast_v2.py:196-201 | `_validate_bitrate` passes iff the bitrate is given and not negative |
| ModelsV2.MinMaxBitrateErrors | vast/models/vast_v2.py:203-213 | one message per missing bound and the comparison only when neither is missing |
| ModelsV2.ValidateMinMaxBitrateMessage | vast/models/vast_v2.py:203-213 | the appending method gives the joined messages, None iff both bounds are given and min <= max |
| ModelsV2.MinMaxBitrateAccepts | vast/models/vast_v2.py:203-213 | the min/max rule passes iff both bounds are given and min <= max |
| ModelsV2.MinMaxBitrateExamples | vast/models/vast_v2.py:206-213 | the missing-bound texts (both worded for min_bitrate) and the comparison message |
| ModelsV2.FlashOrJsSkipsBitrateRules | vast/models/vast_v2.py:185-186 | FLASH and JS files pass the bitrate rules whatever their bitrates |
| ModelsV2.ProgressiveBitrateRule | vast/models/vast_v2.py:187-188 | a progressive file fails iff its bitrate is None or negative |
| ModelsV2.StreamingBitrateRule | vast/models/vast_v2.py:189-190 | any other file fails iff a bound is missing or min exceeds max |
| ModelsV2.MediaFileMakeBitrateRules | vast/models/vast_v2.py:185-194 | after the checkers, `make` keeps the file iff the rule its type and delivery select passes; a failing rule's message is the outcome |
| ModelsV2.StreamingFileExample | vast/models/vast_v2.py:203-213 | a streaming 3GPP file with bounds 51 and 900 passes; without bounds it fails with the text twice |
| Sorting.InsertInt | vast/parsers/vast_v2.py:80 | insertion keeps a list sorted; its members are the old ones and the new element |
| Sorting.InsertIntCounts | vast/parsers/vast_v2.py:80 | insertion adds exactly one occurrence of the element and keeps every other count |
| Sorting.SortInts | vast/parsers/vast_v2.py:80 | `sorted(bitrates)`: ascending and a permutation |
| Sorting.InsertDistinct | vast/parsers/vast_v2.py:92-95 | inserting into a strictly sorted list keeps it strictly sorted with the element added once |
| Sorting.SortDistinct | vast/parsers/vast_v2.py:95 | `sorted(list(set))`: strictly ascending, exactly the pairs of the input |
| TreeWalk.ParsedInLineOf | vast/parsers/vast_v2.py:55-59 | keeps the root; TypeError for a non-dict, KeyError without VAST, {} for a missing Ad |
| TreeWalk.CreativesOfTree | vast/parsers/vast_v2.py:100-105 | the creatives walked are the values of InLine["Creatives"], none without the key, AttributeError when InLine or Creatives is not a dict |
| TreeWalk.FirstLinearChild | vast/parsers/vast_v2.py:103-105 | the first Linear child yielded is that of the first creative that has one, when every creative before it is passed over |
| TreeWalk.DurationOfFirstLinear | vast/parsers/vast_v2.py:113-120 | `duration` is the Duration lookup on the Linear child of the first creative that has one; the creatives after it play no part |
| TreeWalk.DurationWithoutLinear | vast/parsers/vast_v2.py:113-120 | with no creative holding a Linear child, `duration` is None |
| TreeWalk.FailingCreative | vast/parsers/vast_v2.py:103-105 | a creative whose `in` test raises ends the walk with TypeError and nothing yielded, when every creative before it is passed over |
| TreeWalk.DurationFailsFirst | vast/parsers/vast_v2.py:113-120 | such a creative before the first Linear child makes `duration` raise TypeError, whatever follows |
| TreeWalk.DurationOfMalformedInline | vast/parsers/vast_v2.py:100-120 | with InLine or its Creatives not a dict, `duration` raises AttributeError |
| TreeWalk.LinearChildrenConcat | vast/parsers/vast_v2.py:99-105 | the walk over creatives distributes over concatenation |
| TreeWalk.LinearChildrenOne | vast/parsers/vast_v2.py:103-105 | one creative yields its Linear child if it has one, nothing otherwise, TypeError for a non-container |
| TreeWalk.ThenAssociative | vast/parsers/vast_v2.py:107-111 | running generators one after another is associative |
| TreeWalk.MediaFilesConcat | vast/parsers/vast_v2.py:107-111 | the media files of `a + b` are those of `a`, then those of `b` |
| TreeWalk.MediaFileListOf | vast/parsers/vast_v2.py:110 | a creative's media files are its MediaFile list; without MediaFiles the loop raises TypeError |
| TreeWalk.TypesOfSnoc | vast/parsers/vast_v2.py:64-65 | one more file extends the type walk by its type |
| TreeWalk.TypesOfStays | vast/parsers/vast_v2.py:64-65 | once the type walk has failed, later files change nothing |
| TreeWalk.Mimetypes | vast/parsers/vast_v2.py:61-68 | the seen-set loop yields the first occurrences of the types, and raises where the walk raises |
| TreeWalk.FirstIndexOfPrefix | vast/parsers/vast_v2.py:66-68 | appending does not move a first occurrence |
| TreeWalk.DedupFirstOccurrences | vast/parsers/vast_v2.py:61-68 | the output is distinct, has the same members, and is in first-occurrence order |
| TreeWalk.MimetypesDistinct | vast/parsers/vast_v2.py:61-68 | `mimetypes` yields each type of the walk exactly once |
| TreeWalk.ScanSnoc | vast/parsers/vast_v2.py:73-77 | the accumulating loop, one more file |
| TreeWalk.ScanStays | vast/parsers/vast_v2.py:73-77 | once the loop has raised, later files change nothing |
| TreeWalk.MimeToBitrates | vast/parsers/vast_v2.py:70-82 | the two loops compute the per-type sorted bitrates or the first exception |
| TreeWalk.ScanBitrates | vast/parsers/vast_v2.py:73-77 | the first loop keeps, per type, exactly that type's bitrates in file order |
| TreeWalk.MimeToBitratesContents | vast/parsers/vast_v2.py:70-82 | keys are the types with a truthy bitrate; each maps to the sorted bitrates, repeats kept |
| TreeWalk.ScanBitratesOk | vast/parsers/vast_v2.py:73-77 | the first loop succeeds iff every file has a @type and, when its bitrate is truthy, a hashable type and an int bitrate |
| TreeWalk.MimeToBitratesSucceeds | vast/parsers/vast_v2.py:70-82 | succeeds iff the media-file walk does and every file passes the loop |
| TreeWalk.MimeToSizes | vast/parsers/vast_v2.py:84-97 | the two loops compute the per-type sorted distinct sizes or the first exception |
| TreeWalk.ScanSizes | vast/parsers/vast_v2.py:87-92 | the first loop keeps, per type, exactly the sizes of that type's files |
| TreeWalk.MimeToSizesContents | vast/parsers/vast_v2.py:84-97 | keys are the types with both dimensions; each maps to its distinct sizes in ascending order |
| TreeWalk.ScanSizesOk | vast/parsers/vast_v2.py:87-92 | the first loop succeeds iff every file has a @type and, when both dimensions are truthy, int dimensions and a hashable type |
| TreeWalk.MimeToSizesSucceeds | vast/parsers/vast_v2.py:84-97 | succeeds iff the media-file walk does and every file passes the loop |
| TreeWalk.EmptyTreeYieldsNothing | vast/parsers/vast_v2.py:55-120 | a tree without Ad, InLine or Creatives has no media files, types, bitrates, sizes, and duration None |
| ParserV2.Read | vast/parsers/vast_v2.py:11-46 | each getter is one `get`: the value, None when absent, AttributeError on a non-dict |
| ParserV2.WrapperCreativesArgument | vast/parsers/vast_v2.py:48-52 | the creatives argument is None iff the map is absent or empty, else a list of Nones that holds no Creative |
| ParserV2.ParseWrapperOutcome | vast/parsers/vast_v2.py:147-166 | succeeds iff the Wrapper is a dict with a non-None AdSystem and no creatives; a non-empty creatives map is refused |
| ParserV2.ParseInlineNeedsVast | vast/parsers/vast_v2.py:169-171 | an Inline dict without a VAST key raises KeyError, a non-dict TypeError; a result is truthy |
| ParserV2.ParseXmlDispatch | vast/parsers/vast_v2.py:123-144 | a truthy Wrapper wins over any Inline, a falsy one leaves it to a truthy Inline, otherwise ParseError; a failing branch parse is the result |
| ParserV2.MakeVastParsed | vast/parsers/vast_v2.py:128-142 | `Vast.make` over the built Ad succeeds only with version "2.0" and then holds both |
| ParserV2.ParseXmlBuilds | vast/parsers/vast_v2.py:123-144 | a parsed document is a Vast of version "2.0" whose Ad has a non-None id and holds the wrapper model or the parsed inline, the other None |
| ParserV2.ParseXmlWrapperAd | vast/parsers/vast_v2.py:127-134 | the wrapper branch's Vast and Ad fields |
| ParserV2.ParseXmlInlineAd | vast/parsers/vast_v2.py:135-142 | the inline branch's Vast and Ad fields |
| XmlParser.FromXmlRoot | vast/parsers/xml_parser.py:11-21 | keeps the root and exactly one of inline and wrapper; failures are ParseError or an escaped exception |
| XmlParser.FromXmlRootPrecedence | vast/parsers/xml_parser.py:13-20 | Inline first by key presence, then Wrapper, else ParseError; a missing Ad reads as {} |
| XmlParser.EmptyInlineShadowsWrapper | vast/parsers/xml_parser.py:15-16 | an empty Inline beside a Wrapper still wins, and raises TypeError |
| XmlParser.VersionOfParsed | vast/parsers/xml_parser.py:28-30 | the version is the VAST element's @version; KeyError without one |
| XmlParser.ParseWrapperAsWritten | vast/parsers/xml_parser.py:33-58 | the getters of `_ParsedWrapper` make `_parse_wrapper` raise AttributeError for every element |
| XmlParser.FromXmlString | vast/parsers/xml_parser.py:131-138 | {"inline": None} for an inline root; {"wrapper": w} when `_parse_wrapper` of the Wrapper succeeds with w, else its failure; a failing `from_xml_root` is the result |
| XmlParser.FromXmlStringOutcome | vast/parsers/xml_parser.py:11-21 | in terms of the Ad element: an Inline key gives {"inline": None} or the `_ParsedInLine` exception, else a Wrapper key gives `_parse_wrapper`'s result, else ParseError |
| XmlParser.FromXmlStringWrapperRaises | vast/parsers/xml_parser.py:131-146 | with the module's own `_parse_wrapper`, every wrapper document raises AttributeError and every inline one gives {"inline": None} |

## Left out

- XML decoding (`xmltodict.parse`) and all I/O: the model starts from the decoded tree.
- `validators.validate` is not part of this model. The VALIDATORS tables built from `make_greater_then_validator` are not evaluated; only the primitive validators of `vast/validators.py` are.
- ModelsV2.MediaFileMakeBitrateRules: the two size rules of VALIDATORS are not evaluated, only the bitrate rule `make` selects.
- ModelsV2.LinearCreativeMakeOutcome: stops before the `validators.validate` call of `LinearCreative.make`.
- ModelsV2.CreativeMakeOutcome: stops before `validators.validate`, and leaves out the SOME_OFS group with bound 2, whose checker semantics are not specified anywhere in the core.
- ModelsV2.CheckAndConvert: the body of `check_and_convert` and `with_checker_converter` are not part of this model; the composition is an assumption, and two tests contradict it. `vast/models/tests/test_vast_v2.py:33-43` expects `Vast.make(version=u"2.0", ad=None)` to raise `IllegalModelStateError`, where the model refuses with the checkers' errors (ValueError in `pre_make`). `vast/tests/test_validators.py:13-14` expects a MediaFile of type "g" to be built, where the model lets the enum call's ValueError escape. So the exception class of a refusal is not modelled.
- Engine.CheckEnums: `Enum.from_string` is not part of this model, so it is a parameter that may return a member or None, or raise any exception; `str(value)` is taken never to raise. No VAST 2.0 table has ENUMS rules.
- Converters are limited to `unicode`, `int`, `bool` and the enum classes, the ones the VAST 2.0 tables use.
- Floats are not modelled, and booleans are a separate case from integers except where `int()` and the validators convert them explicitly.
- `str` and `unicode` are one text type, read as the unicode text that `xmltodict` produces: `int()` and white space follow the unicode rules of Python 2. There is no case folding beyond ASCII.
- PyValues.PyInt: decimal digits outside ASCII (Unicode category Nd, such as U+0665 ARABIC-INDIC DIGIT FIVE) raise ValueError in the model, where Python 2 `int()` maps them to their ASCII digits first; Unicode white space, a sign and white space after the sign are modelled.
- Error message texts are structured values, except the post-check messages of MediaFile and Vast, which are modelled as text.
- `as_dict` and `vast/models/vast_3.py` are not part of this model.
- The class of `parsed_vast` that `parse_xml` receives is not part of this model, so its version and ad are parameters.
- The `_parse_wrapper` of `xml_parser.py` is a parameter of XmlParser.FromXmlString; XmlParser.ParseWrapperAsWritten models the module's own, which raises AttributeError at `impression`, so what it would pass to `Wrapper.make` is not modelled.
- TreeWalk.MimeToBitrates: the returned `defaultdict` is a map, so its key order and the default-factory behaviour of later lookups are not modelled.
- TreeWalk.MimeToSizes: the sets are lists of the pairs added, and only their sorted distinct form is observable.
- Integers are unbounded, one `VInt` case for both Python 2 `int` and `long`. The two differ only in `isinstance(value, int)`, which the model restricts to `-sys.maxint - 1 .. sys.maxint` of a 64-bit build (Validators.IsInstanceOf). Elsewhere, such as `int()` returning a `long` for long digit strings, the difference is not observable in the model.
- Validators.Less: Python 2 orders every pair of values (`0 >= [1]` is False, so `GreaterThan(VInt(0))` passes a list); the model orders only None, numbers and text, and reports `Unordered` for a comparison involving a list, tuple, dict, enum member or object (GreaterThan and MinMax).

## Findings

| source | as written | input that shows it | evidently intended | confidence | as-written member | corrected member |
|---|---|---|---|---|---|---|
| vast/parsers/shared.py:13 | `h * 3600 + m * m * 60 + s` squares the minutes | `parse_duration(unparse_duration(125))` reads "00:02:05" as 245 seconds | `h * 3600 + m * 60 + s`, the inverse of `unparse_duration` | not executed | Durations.ParseUnparseCounterexample | Durations.ParseIntendedUnparseRoundTrip |
