/** The VAST 2.0 entities of vast/models/vast_v2.py.

    Each entity is a frozen record with declarative rule tables (REQUIRED, SOME_OFS,
    CONVERTERS, CLASSES); its `make` passes every keyword, a missing one as None, through
    `pre_make` over those tables and calls the constructor with what the checkers found,
    a field nobody found being None. MediaFile and Vast then run hand-written post-checks
    on the built instance. The four enums are modelled by their declared (name, value)
    members; calling an enum class, which is what a CONVERTERS entry with an enum type
    does, returns the member with that value or raises ValueError. */
module ModelsV2 {
  import opened PyValues
  import opened Engine

  // ---------------------------------------------------------------------------
  // Enums

  const Delivery: EnumClass := EnumClass("Delivery", [("STREAMING", "streaming"), ("PROGRESSIVE", "progressive")])

  const ApiFramework: EnumClass := EnumClass("ApiFramework", [("VPAID", "VPAID")])

  const MimeType: EnumClass := EnumClass("MimeType", [
    ("MP4", "video/mp4"), ("JS", "application/javascript"), ("FLASH", "application/x-shockwave-flash"),
    ("WEBM", "video/webm"), ("GPP", "video/3gpp"), ("MPEG", "application/x-mpegURL")])

  const TrackingEventType: EnumClass := EnumClass("TrackingEventType", [
    ("CREATIVE_VIEW", "creativeView"), ("START", "start"), ("FIRST_QUARTILE", "firstQuartile"),
    ("MID_POINT", "midpoint"), ("THIRD_QUARTILE", "thirdQuartile"), ("COMPLETE", "complete"),
    ("MUTE", "mute"), ("UNMUTE", "unmute"), ("PAUSE", "pause"), ("REWIND", "rewind"),
    ("RESUME", "resume"), ("FULL_SCREEN", "fullscreen"), ("EXPAND", "expand"),
    ("COLLAPSE", "collapse"), ("ACCEPT_INVITATION", "acceptInvitation"), ("CLOSE", "close")])

  const FlashMember: Value := VEnum("MimeType", "FLASH", "application/x-shockwave-flash")
  const JsMember: Value := VEnum("MimeType", "JS", "application/javascript")
  const ProgressiveMember: Value := VEnum("Delivery", "PROGRESSIVE", "progressive")

  /** The declared values: two delivery modes, one API framework, six mime types and
      sixteen tracking-event types, each table free of repeated values. */
  lemma EnumTables()
    ensures Values(Delivery) == ["streaming", "progressive"]
    ensures Values(ApiFramework) == ["VPAID"]
    ensures Values(MimeType) == ["video/mp4", "application/javascript", "application/x-shockwave-flash",
      "video/webm", "video/3gpp", "application/x-mpegURL"]
    ensures |Values(TrackingEventType)| == 16
    ensures NoDuplicates(Values(Delivery)) && NoDuplicates(Values(MimeType)) && NoDuplicates(Values(TrackingEventType))
  {
  }

  // ---------------------------------------------------------------------------
  // Rule tables

  /** A record class: its name, its fields in declaration order, and its rule tables. A
      CONVERTERS entry pairs a type with several names; here each name has its own
      (name, type) entry, in table order, which is the form the converter of the engine
      takes. */
  datatype Entity = Entity(
    cls: string,
    fields: seq<string>,
    required: seq<string>,
    someOfs: seq<seq<string>>,
    converters: seq<(string, Converter)>,
    classes: seq<(string, string, bool)>)

  function RulesOf(e: Entity): Rules
  {
    Rules(Some(e.required), e.someOfs, e.converters, [], e.classes, [])
  }

  const TrackingEventEntity: Entity := Entity(
    "TrackingEvent",
    ["tracking_event_uri", "tracking_event_type"],
    ["tracking_event_uri", "tracking_event_type"],
    [],
    [("tracking_event_uri", UnicodeType), ("tracking_event_type", EnumType(TrackingEventType))],
    [])

  const MediaFileEntity: Entity := Entity(
    "MediaFile",
    ["asset", "delivery", "type", "width", "height", "codec", "id", "bitrate", "min_bitrate", "max_bitrate",
     "scalable", "maintain_aspect_ratio", "api_framework"],
    ["asset", "delivery", "type", "width", "height"],
    [],
    [("asset", UnicodeType), ("codec", UnicodeType), ("id", UnicodeType),
     ("width", IntType), ("height", IntType), ("bitrate", IntType), ("min_bitrate", IntType), ("max_bitrate", IntType),
     ("scalable", BoolType), ("maintain_aspect_ratio", BoolType),
     ("type", EnumType(MimeType)),
     ("api_framework", EnumType(ApiFramework)),
     ("delivery", EnumType(Delivery))],
    [])

  const LinearCreativeEntity: Entity := Entity(
    "LinearCreative",
    ["duration", "media_files", "video_clicks", "ad_parameters", "tracking_events"],
    ["duration", "media_files"],
    [],
    [("duration", IntType)],
    [("media_files", "MediaFile", true), ("tracking_events", "TrackingEvent", true)])

  /** Creative declares no REQUIRED, and its SOME_OFS group carries a bound (2) whose
      meaning lies outside this model, so the group is not checked here. */
  const CreativeEntity: Entity := Entity(
    "Creative",
    ["linear", "non_linear", "companion_ads", "id", "sequence", "ad_id", "api_framework"],
    [],
    [],
    [("id", UnicodeType), ("ad_id", UnicodeType), ("api_framework", EnumType(ApiFramework)), ("sequence", IntType)],
    [("linear", "LinearCreative", false)])

  const InlineEntity: Entity := Entity(
    "Inline",
    ["ad_system", "ad_title", "impression", "creatives"],
    ["ad_system", "ad_title", "impression", "creatives"],
    [],
    [("ad_system", UnicodeType), ("ad_title", UnicodeType), ("impression", UnicodeType)],
    [("creatives", "Creative", true)])

  const WrapperEntity: Entity := Entity(
    "Wrapper",
    ["ad_system", "vast_ad_tag_uri", "ad_title", "impression", "error", "creatives"],
    ["ad_system", "vast_ad_tag_uri"],
    [],
    [("ad_system", UnicodeType), ("ad_title", UnicodeType), ("impression", UnicodeType), ("error", UnicodeType)],
    [("creatives", "Creative", true)])

  /** Ad's SOME_OFS group (wrapper, inline) with bound 1: exactly one of them. */
  const AdEntity: Entity := Entity(
    "Ad",
    ["id", "wrapper", "inline"],
    ["id"],
    [["wrapper", "inline"]],
    [("id", UnicodeType)],
    [])

  const VastEntity: Entity := Entity(
    "Vast",
    ["version", "ad"],
    ["version", "ad"],
    [],
    [],
    [("ad", "Ad", false)])

  // ---------------------------------------------------------------------------
  // Building instances

  function FieldEntries(fields: seq<string>, found: map<string, Value>): (r: seq<(string, Value)>)
    ensures |r| == |fields|
  {
    if fields == [] then [] else [(fields[0], Get(found, fields[0]))] + FieldEntries(fields[1..], found)
  }

  /** The constructor call with the found keyword arguments, None for the others. */
  function Instance(e: Entity, found: map<string, Value>): Value
  {
    VObj(e.cls, FieldEntries(e.fields, found))
  }

  /** Attribute access on an instance. */
  function Field(instance: Value, name: string): Value
  {
    if instance.VObj? then (match Lookup(instance.fields, name) case Some(v) => v case None => VNone) else VNone
  }

  lemma {:induction false} FieldEntriesLookup(fields: seq<string>, found: map<string, Value>, f: string)
    requires f in fields
    ensures Lookup(FieldEntries(fields, found), f) == Some(Get(found, f))
  {
    if fields[0] != f {
      FieldEntriesLookup(fields[1..], found, f);
    }
  }

  /** Each field of a built instance holds what the checkers found for it, or None. */
  lemma InstanceField(e: Entity, found: map<string, Value>, f: string)
    requires f in e.fields
    ensures IsInstance(Instance(e, found), e.cls)
    ensures Field(Instance(e, found), f) == Get(found, f)
  {
    FieldEntriesLookup(e.fields, found, f);
  }

  /** What `make` does: return an instance, raise with the checkers' errors (`pre_make`
      raises ValueError; which class `check_and_convert` raises is not part of this
      model), let an exception escape, or fail a post-check with its message. */
  datatype EntityOutcome = Built(instance: Value) | Refused(errors: seq<CheckError>) | Escaped(exc: PyExc) | Invalid(message: string)

  /** `check_and_convert`: `pre_make` over the entity's tables, then the constructor. */
  function CheckAndConvert(e: Entity, kwargs: map<string, Value>): EntityOutcome
  {
    match PreMake(RulesOf(e), kwargs)
    case Made(found) => Built(Instance(e, found))
    case Rejected(errors) => Refused(errors)
    case Crashed(exc) => Escaped(exc)
  }

  /** A conversion raises only TypeError or ValueError. */
  lemma ApplyRaises(t: Converter, v: Value)
    ensures Apply(t, v).Raises? ==> Apply(t, v).exc == TypeError || Apply(t, v).exc == ValueError
  {
    if t.EnumType? {
      EnumCallAcceptsOnlyDeclared(t.enum, v);
    }
  }

  predicate SomeConverterEscapes(e: Entity, kwargs: map<string, Value>)
  {
    exists i :: 0 <= i < |RulesOf(e).converters| && ConverterEscapes(RulesOf(e).converters[i], kwargs)
  }

  /** What escapes from `check_and_convert` is the ValueError of a conversion, or else the
      TypeError of iterating a container rule's value. */
  lemma EscapedException(e: Entity, kwargs: map<string, Value>)
    ensures CheckAndConvert(e, kwargs).Escaped? ==>
      CheckAndConvert(e, kwargs).exc == if SomeConverterEscapes(e, kwargs) then ValueError else TypeError
  {
    var rules := RulesOf(e);
    PreMakeCrashes(rules, kwargs);
    ConverterRaises(rules.converters, e.required, kwargs);
    if Fold(ConverterSteps(rules.converters, e.required, kwargs)).Raised? {
      var i :| 0 <= i < |rules.converters| && ConverterEscapes(rules.converters[i], kwargs) &&
        Fold(ConverterSteps(rules.converters, e.required, kwargs)).exc == Apply(rules.converters[i].1, kwargs[rules.converters[i].0]).exc;
      ApplyRaises(e.converters[i].1, kwargs[rules.converters[i].0]);
    }
  }

  /** `unicode(v)` for a value the converter converts, None kept as None. */
  function Text(v: Value): Value
  {
    if v == VNone then VNone else VStr(PyStr(v))
  }

  /** Every element of an iterable value is an instance of `cls`. */
  predicate AllInstances(v: Value, cls: string)
  {
    Iterate(v).Ok? && forall x :: x in Iterate(v).value ==> IsInstance(x, cls)
  }

  /** A rule table names each converted field once and each class-checked field once. */
  predicate WellFormed(e: Entity)
  {
    NoDuplicates(Names(RulesOf(e).converters)) && NoDuplicates(ClassNames(e.classes))
  }

  lemma TrackingEventWellFormed()
    ensures WellFormed(TrackingEventEntity)
    ensures PlainConverter(TrackingEventEntity, 0) && PlainConverter(TrackingEventEntity, 1)
    ensures TrackingEventEntity.converters[0] == ("tracking_event_uri", UnicodeType)
    ensures TrackingEventEntity.converters[1] == ("tracking_event_type", EnumType(TrackingEventType))
  {
  }

  lemma MediaFileWellFormed()
    ensures WellFormed(MediaFileEntity)
  {
    var names := Names(RulesOf(MediaFileEntity).converters);
    assert names == ["asset", "codec", "id", "width", "height", "bitrate", "min_bitrate", "max_bitrate",
      "scalable", "maintain_aspect_ratio", "type", "api_framework", "delivery"];
  }

  lemma MediaFilePlainConverters()
    ensures forall i :: 0 <= i < 13 ==> PlainConverter(MediaFileEntity, i)
  {
  }

  lemma MediaFileConverters()
    ensures |MediaFileEntity.converters| == 13
    ensures MediaFileEntity.converters[0] == ("asset", UnicodeType)
    ensures MediaFileEntity.converters[1] == ("codec", UnicodeType) && MediaFileEntity.converters[2] == ("id", UnicodeType)
    ensures MediaFileEntity.converters[3] == ("width", IntType) && MediaFileEntity.converters[4] == ("height", IntType)
    ensures MediaFileEntity.converters[5] == ("bitrate", IntType)
    ensures MediaFileEntity.converters[6] == ("min_bitrate", IntType) && MediaFileEntity.converters[7] == ("max_bitrate", IntType)
    ensures MediaFileEntity.converters[8] == ("scalable", BoolType)
    ensures MediaFileEntity.converters[9] == ("maintain_aspect_ratio", BoolType)
    ensures MediaFileEntity.converters[10] == ("type", EnumType(MimeType))
    ensures MediaFileEntity.converters[11] == ("api_framework", EnumType(ApiFramework))
    ensures MediaFileEntity.converters[12] == ("delivery", EnumType(Delivery))
  {
    MediaFileTextAndIntConverters();
    MediaFileFlagAndEnumConverters();
  }

  lemma MediaFileTextAndIntConverters()
    ensures |MediaFileEntity.converters| == 13
    ensures MediaFileEntity.converters[0] == ("asset", UnicodeType)
    ensures MediaFileEntity.converters[1] == ("codec", UnicodeType) && MediaFileEntity.converters[2] == ("id", UnicodeType)
    ensures MediaFileEntity.converters[3] == ("width", IntType) && MediaFileEntity.converters[4] == ("height", IntType)
    ensures MediaFileEntity.converters[5] == ("bitrate", IntType)
    ensures MediaFileEntity.converters[6] == ("min_bitrate", IntType) && MediaFileEntity.converters[7] == ("max_bitrate", IntType)
  {
  }

  lemma MediaFileFlagAndEnumConverters()
    ensures |MediaFileEntity.converters| == 13
    ensures MediaFileEntity.converters[8] == ("scalable", BoolType)
    ensures MediaFileEntity.converters[9] == ("maintain_aspect_ratio", BoolType)
    ensures MediaFileEntity.converters[10] == ("type", EnumType(MimeType))
    ensures MediaFileEntity.converters[11] == ("api_framework", EnumType(ApiFramework))
    ensures MediaFileEntity.converters[12] == ("delivery", EnumType(Delivery))
  {
  }

  lemma LinearCreativeWellFormed()
    ensures WellFormed(LinearCreativeEntity) && PlainConverter(LinearCreativeEntity, 0)
    ensures LinearCreativeEntity.converters[0] == ("duration", IntType)
  {
  }

  lemma LinearCreativeLayout()
    ensures PlainClass(LinearCreativeEntity, "media_files") && PlainClass(LinearCreativeEntity, "tracking_events")
    ensures PlainUnnamed(LinearCreativeEntity, "video_clicks") && PlainUnnamed(LinearCreativeEntity, "ad_parameters")
  {
    var e := LinearCreativeEntity;
    assert ClassNames(e.classes) == ["media_files", "tracking_events"];
    assert Names(RulesOf(e).converters) == ["duration"];
    LinearCreativeUnnamed("video_clicks");
    LinearCreativeUnnamed("ad_parameters");
  }

  lemma LinearCreativeUnnamed(n: string)
    requires n == "video_clicks" || n == "ad_parameters"
    ensures n !in RuleNames(RulesOf(LinearCreativeEntity), LinearCreativeEntity.required)
  {
    var e := LinearCreativeEntity;
    var r := RulesOf(e);
    assert n !in e.required;
    assert r.oneOfs == [] && r.enums == [] && r.bools == [];
    assert Names(r.converters) == ["duration"];
    assert ClassNames(r.classes) == ["media_files", "tracking_events"];
  }

  lemma CreativeWellFormed()
    ensures WellFormed(CreativeEntity) && forall i :: 0 <= i < 4 ==> PlainConverter(CreativeEntity, i)
    ensures CreativeEntity.converters[0] == ("id", UnicodeType) && CreativeEntity.converters[1] == ("ad_id", UnicodeType)
    ensures CreativeEntity.converters[2] == ("api_framework", EnumType(ApiFramework))
    ensures CreativeEntity.converters[3] == ("sequence", IntType)
  {
  }

  lemma CreativeLayout()
    ensures PlainClass(CreativeEntity, "linear")
  {
    assert ClassNames(CreativeEntity.classes) == ["linear"];
    assert Names(RulesOf(CreativeEntity).converters) == ["id", "ad_id", "api_framework", "sequence"];
  }

  lemma InlineWellFormed()
    ensures WellFormed(InlineEntity) && forall i :: 0 <= i < 3 ==> PlainConverter(InlineEntity, i)
    ensures InlineEntity.converters[0] == ("ad_system", UnicodeType) && InlineEntity.converters[1] == ("ad_title", UnicodeType)
    ensures InlineEntity.converters[2] == ("impression", UnicodeType)
  {
  }

  lemma InlineLayout()
    ensures PlainClass(InlineEntity, "creatives")
  {
    assert ClassNames(InlineEntity.classes) == ["creatives"];
    assert Names(RulesOf(InlineEntity).converters) == ["ad_system", "ad_title", "impression"];
  }

  lemma WrapperWellFormed()
    ensures WellFormed(WrapperEntity) && forall i :: 0 <= i < 4 ==> PlainConverter(WrapperEntity, i)
    ensures WrapperEntity.converters[0] == ("ad_system", UnicodeType) && WrapperEntity.converters[1] == ("ad_title", UnicodeType)
    ensures WrapperEntity.converters[2] == ("impression", UnicodeType) && WrapperEntity.converters[3] == ("error", UnicodeType)
  {
  }

  lemma WrapperLayout()
    ensures PlainClass(WrapperEntity, "creatives") && PlainRequired(WrapperEntity, "vast_ad_tag_uri")
  {
    assert ClassNames(WrapperEntity.classes) == ["creatives"];
    assert Names(RulesOf(WrapperEntity).converters) == ["ad_system", "ad_title", "impression", "error"];
  }

  lemma AdWellFormed()
    ensures WellFormed(AdEntity) && PlainConverter(AdEntity, 0) && AdEntity.converters[0] == ("id", UnicodeType)
  {
  }

  lemma AdLayout()
    ensures PlainOneOf(AdEntity, ["wrapper", "inline"], "wrapper") && PlainOneOf(AdEntity, ["wrapper", "inline"], "inline")
  {
    assert Names(RulesOf(AdEntity).converters) == ["id"];
  }

  lemma VastWellFormed()
    ensures WellFormed(VastEntity)
  {
  }

  lemma VastLayout()
    ensures PlainClass(VastEntity, "ad") && PlainRequired(VastEntity, "version")
  {
    assert ClassNames(VastEntity.classes) == ["ad"];
    assert Names(RulesOf(VastEntity).converters) == [];
  }

  predicate InNoGroup(e: Entity, n: string)
  {
    forall g :: g in e.someOfs ==> n !in g
  }

  /** A field of a built instance holds what `pre_make` passed for it. */
  lemma BuiltField(e: Entity, kwargs: map<string, Value>, f: string)
    requires CheckAndConvert(e, kwargs).Built? && f in e.fields
    ensures IsInstance(CheckAndConvert(e, kwargs).instance, e.cls)
    ensures Field(CheckAndConvert(e, kwargs).instance, f) == Get(PreMake(RulesOf(e), kwargs).kwargs, f)
  {
    InstanceField(e, PreMake(RulesOf(e), kwargs).kwargs, f);
  }

  /** The i-th converter names a field that no class rule and no one-of group names. */
  predicate PlainConverter(e: Entity, i: int)
  {
    0 <= i < |e.converters| && e.converters[i].0 in e.fields &&
    e.converters[i].0 !in ClassNames(e.classes) && InNoGroup(e, e.converters[i].0)
  }

  /** A converted field holds the conversion of its input, or None for a None input. */
  lemma ConvertedField(e: Entity, kwargs: map<string, Value>, i: int, n: string, t: Converter)
    requires WellFormed(e) && PlainConverter(e, i) && e.converters[i] == (n, t)
    requires CheckAndConvert(e, kwargs).Built?
    ensures Get(kwargs, n) != VNone ==> Apply(t, kwargs[n]).Converted?
    ensures Field(CheckAndConvert(e, kwargs).instance, n) == if Get(kwargs, n) == VNone then VNone else Apply(t, kwargs[n]).value
  {
    BuiltField(e, kwargs, e.converters[i].0);
    PreMakeConvertedValue(RulesOf(e), kwargs, i);
  }

  /** A field a `unicode` converter converts holds the text of its input, None kept. */
  lemma TextField(e: Entity, kwargs: map<string, Value>, i: int, n: string)
    requires WellFormed(e) && PlainConverter(e, i) && e.converters[i] == (n, UnicodeType)
    requires CheckAndConvert(e, kwargs).Built?
    ensures Field(CheckAndConvert(e, kwargs).instance, n) == Text(Get(kwargs, n))
  {
    ConvertedField(e, kwargs, i, n, UnicodeType);
  }

  /** `n` is a field only class rules name. */
  predicate PlainClass(e: Entity, n: string)
  {
    n in e.fields && n in ClassNames(e.classes) && n !in Names(RulesOf(e).converters) && InNoGroup(e, n)
  }

  /** `n` is a field only the required list names. */
  predicate PlainRequired(e: Entity, n: string)
  {
    n in e.fields && n in e.required && n !in Names(RulesOf(e).converters) && n !in ClassNames(e.classes) &&
    InNoGroup(e, n)
  }

  /** `n` is a field only the one-of group `g` names. */
  predicate PlainOneOf(e: Entity, g: seq<string>, n: string)
  {
    n in e.fields && g in e.someOfs && n in g &&
    n !in e.required && n !in Names(RulesOf(e).converters) && n !in ClassNames(e.classes)
  }

  /** `n` is a field no rule names. */
  predicate PlainUnnamed(e: Entity, n: string)
  {
    n in e.fields && n !in RuleNames(RulesOf(e), e.required)
  }

  /** What a converter rule stores for a value: None for None, else the conversion (the
      value of a conversion that raises is never stored; None stands in for it). */
  function ConvertedValue(t: Converter, v: Value): Value
  {
    if v == VNone then VNone else match Apply(t, v) case Converted(x) => x case Raises(_) => VNone
  }

  /** Every converted field of a built instance holds the conversion of its input. */
  lemma ConvertedFields(e: Entity, kwargs: map<string, Value>)
    requires WellFormed(e) && forall i :: 0 <= i < |e.converters| ==> PlainConverter(e, i)
    requires CheckAndConvert(e, kwargs).Built?
    ensures forall i :: 0 <= i < |e.converters| ==>
      Field(CheckAndConvert(e, kwargs).instance, e.converters[i].0) == ConvertedValue(e.converters[i].1, Get(kwargs, e.converters[i].0))
  {
    forall i | 0 <= i < |e.converters| {
      ConvertedField(e, kwargs, i, e.converters[i].0, e.converters[i].1);
    }
  }

  /** A field an enum class converts holds the member its input names, None kept. */
  lemma EnumField(e: Entity, kwargs: map<string, Value>, i: int, n: string, en: EnumClass)
    requires WellFormed(e) && PlainConverter(e, i) && e.converters[i] == (n, EnumType(en))
    requires CheckAndConvert(e, kwargs).Built?
    ensures Get(kwargs, n) != VNone ==>
      EnumCall(en, Get(kwargs, n)).Converted? && Field(CheckAndConvert(e, kwargs).instance, n) == EnumCall(en, Get(kwargs, n)).value
    ensures Get(kwargs, n) == VNone ==> Field(CheckAndConvert(e, kwargs).instance, n) == VNone
  {
    ConvertedField(e, kwargs, i, n, EnumType(en));
  }

  /** A field an `int` converter converts holds the int of its input, None kept. */
  lemma IntField(e: Entity, kwargs: map<string, Value>, i: int, n: string)
    requires WellFormed(e) && PlainConverter(e, i) && e.converters[i] == (n, IntType)
    requires CheckAndConvert(e, kwargs).Built?
    ensures Get(kwargs, n) != VNone ==>
      PyInt(Get(kwargs, n)).Converted? && Field(CheckAndConvert(e, kwargs).instance, n) == PyInt(Get(kwargs, n)).value
    ensures Get(kwargs, n) == VNone ==> Field(CheckAndConvert(e, kwargs).instance, n) == VNone
  {
    ConvertedField(e, kwargs, i, n, IntType);
  }

  /** A field only a class rule checks holds its input as given. */
  lemma ClassField(e: Entity, kwargs: map<string, Value>, n: string)
    requires WellFormed(e) && PlainClass(e, n)
    requires CheckAndConvert(e, kwargs).Built?
    ensures Field(CheckAndConvert(e, kwargs).instance, n) == Get(kwargs, n)
  {
    BuiltField(e, kwargs, n);
    PreMakeClassValue(RulesOf(e), kwargs, n);
  }

  /** A field only the required list names holds its input as given, None included. */
  lemma RequiredField(e: Entity, kwargs: map<string, Value>, n: string)
    requires PlainRequired(e, n)
    requires CheckAndConvert(e, kwargs).Built?
    ensures Field(CheckAndConvert(e, kwargs).instance, n) == Get(kwargs, n)
  {
    BuiltField(e, kwargs, n);
    PreMakeRequiredValue(RulesOf(e), kwargs, n);
  }

  /** A field only a one-of group names holds its input when that is truthy, else None. */
  lemma OneOfField(e: Entity, kwargs: map<string, Value>, g: seq<string>, n: string)
    requires PlainOneOf(e, g, n)
    requires CheckAndConvert(e, kwargs).Built?
    ensures Field(CheckAndConvert(e, kwargs).instance, n) == if Truthy(Get(kwargs, n)) then kwargs[n] else VNone
  {
    BuiltField(e, kwargs, n);
    PreMakeOneOfValue(RulesOf(e), kwargs, g, n);
  }

  /** A field no rule names is None, whatever was passed for it. */
  lemma UnnamedField(e: Entity, kwargs: map<string, Value>, n: string)
    requires PlainUnnamed(e, n)
    requires CheckAndConvert(e, kwargs).Built?
    ensures Field(CheckAndConvert(e, kwargs).instance, n) == VNone
  {
    BuiltField(e, kwargs, n);
    PreMakeDropsUnnamedKeys(RulesOf(e), kwargs);
  }

  /** Every rule of the tables lets the input through: each one-of group has one truthy
      member, each converter accepts its value, each class rule its value or items. */
  predicate Accepts(e: Entity, kwargs: map<string, Value>)
  {
    && (forall g :: g in e.someOfs ==> |Existing(g, kwargs)| == 1)
    && (forall i :: 0 <= i < |e.converters| ==> ConverterAcceptsRule(e.converters[i], e.required, kwargs))
    && (forall i :: 0 <= i < |e.classes| ==> ClassAcceptsRule(e.classes[i], e.required, kwargs))
  }

  /** A container class rule is given a non-None value that cannot be iterated. */
  predicate IterationFails(e: Entity, kwargs: map<string, Value>)
  {
    exists j :: 0 <= j < |e.classes| && e.classes[j].2 && e.classes[j].0 in kwargs &&
      kwargs[e.classes[j].0] != VNone && Iterate(kwargs[e.classes[j].0]).Err?
  }

  /** What `check_and_convert` does with keyword arguments holding every required name: it
      builds the instance iff every rule accepts, and lets an exception escape iff a
      conversion raises something other than TypeError (a ValueError then) or a container
      cannot be iterated (a TypeError). */
  lemma CheckAndConvertOutcome(e: Entity, kwargs: map<string, Value>)
    requires WellFormed(e) && forall n :: n in e.required ==> n in kwargs
    ensures CheckAndConvert(e, kwargs).Built? <==> Accepts(e, kwargs)
    ensures CheckAndConvert(e, kwargs).Escaped? <==> SomeConverterEscapes(e, kwargs) || IterationFails(e, kwargs)
    ensures CheckAndConvert(e, kwargs).Escaped? ==>
      CheckAndConvert(e, kwargs).exc == if SomeConverterEscapes(e, kwargs) then ValueError else TypeError
  {
    PreMakeMadeIff(RulesOf(e), kwargs);
    PreMakeCrashes(RulesOf(e), kwargs);
    EscapedException(e, kwargs);
  }

  // ---------------------------------------------------------------------------
  // Ad

  function AdArgs(id: Value, wrapper: Value, inline: Value): map<string, Value>
  {
    map["id" := id, "wrapper" := wrapper, "inline" := inline]
  }

  function AdMake(id: Value, wrapper: Value, inline: Value): EntityOutcome
  {
    CheckAndConvert(AdEntity, AdArgs(id, wrapper, inline))
  }

  function AdMakeWrapper(id: Value, wrapper: Value): EntityOutcome
  {
    AdMake(id, wrapper, VNone)
  }

  function AdMakeInline(id: Value, inline: Value): EntityOutcome
  {
    AdMake(id, VNone, inline)
  }

  /** The Ad rules on the arguments of `make`. */
  lemma AdRules(id: Value, wrapper: Value, inline: Value)
    ensures forall n :: n in AdEntity.required ==> n in AdArgs(id, wrapper, inline)
    ensures Accepts(AdEntity, AdArgs(id, wrapper, inline)) <==> id != VNone && Truthy(wrapper) != Truthy(inline)
    ensures !SomeConverterEscapes(AdEntity, AdArgs(id, wrapper, inline))
    ensures !IterationFails(AdEntity, AdArgs(id, wrapper, inline))
  {
    var kw := AdArgs(id, wrapper, inline);
    var e := AdEntity;
    assert e.converters == [("id", UnicodeType)];
    assert Get(kw, "wrapper") == wrapper && Get(kw, "inline") == inline;
    assert ["wrapper", "inline"][..1] == ["wrapper"];
    assert Existing(["wrapper"], kw) == Existing([], kw) + (if Truthy(wrapper) then ["wrapper"] else []);
    assert Existing(["wrapper", "inline"], kw) ==
      Existing(["wrapper"], kw) + (if Truthy(inline) then ["inline"] else []);
    assert e.required == ["id"] && e.someOfs == [["wrapper", "inline"]] && e.classes == [];
    assert ConverterAcceptsRule(e.converters[0], ["id"], kw) <==> id != VNone;
    assert |Existing(["wrapper", "inline"], kw)| == 1 <==> Truthy(wrapper) != Truthy(inline);
    assert forall g :: g in e.someOfs ==> g == ["wrapper", "inline"];
  }

  /** An Ad is built iff its id is not None and exactly one of wrapper and inline is
      truthy; nothing escapes from its checkers. */
  lemma AdMakeBuiltIff(id: Value, wrapper: Value, inline: Value)
    ensures AdMake(id, wrapper, inline).Built? <==> id != VNone && Truthy(wrapper) != Truthy(inline)
    ensures !AdMake(id, wrapper, inline).Escaped?
  {
    AdWellFormed();
    AdRules(id, wrapper, inline);
    CheckAndConvertOutcome(AdEntity, AdArgs(id, wrapper, inline));
  }

  lemma AdIdField(kw: map<string, Value>)
    requires CheckAndConvert(AdEntity, kw).Built?
    ensures Field(CheckAndConvert(AdEntity, kw).instance, "id") == Text(Get(kw, "id"))
  {
    AdWellFormed();
    ConvertedField(AdEntity, kw, 0, "id", UnicodeType);
  }

  lemma AdOneOfFields(kw: map<string, Value>)
    requires CheckAndConvert(AdEntity, kw).Built?
    ensures IsInstance(CheckAndConvert(AdEntity, kw).instance, "Ad")
    ensures Field(CheckAndConvert(AdEntity, kw).instance, "wrapper") == if Truthy(Get(kw, "wrapper")) then kw["wrapper"] else VNone
    ensures Field(CheckAndConvert(AdEntity, kw).instance, "inline") == if Truthy(Get(kw, "inline")) then kw["inline"] else VNone
  {
    AdLayout();
    OneOfField(AdEntity, kw, ["wrapper", "inline"], "wrapper");
    OneOfField(AdEntity, kw, ["wrapper", "inline"], "inline");
  }

  /** A built Ad holds its id as text and only the truthy one of wrapper and inline; the
      other is None even when it was given as an empty value. */
  lemma AdMakeFields(id: Value, wrapper: Value, inline: Value)
    requires AdMake(id, wrapper, inline).Built?
    ensures var ad := AdMake(id, wrapper, inline).instance;
      && IsInstance(ad, "Ad")
      && Field(ad, "id") == VStr(PyStr(id))
      && Field(ad, "wrapper") == (if Truthy(wrapper) then wrapper else VNone)
      && Field(ad, "inline") == (if Truthy(inline) then inline else VNone)
  {
    var kw := AdArgs(id, wrapper, inline);
    AdMakeBuiltIff(id, wrapper, inline);
    AdIdField(kw);
    AdOneOfFields(kw);
    assert Get(kw, "id") == id && Get(kw, "wrapper") == wrapper && Get(kw, "inline") == inline;
  }

  /** `make_wrapper` and `make_inline` build iff the id is not None and the one ad they
      pass is truthy. */
  lemma AdMakeWrapperOrInline(id: Value, ad: Value)
    ensures AdMakeWrapper(id, ad).Built? <==> id != VNone && Truthy(ad)
    ensures AdMakeInline(id, ad).Built? <==> id != VNone && Truthy(ad)
  {
    AdMakeBuiltIff(id, ad, VNone);
    AdMakeBuiltIff(id, VNone, ad);
  }

  // ---------------------------------------------------------------------------
  // Vast

  /** `Vast._validate_version`: a message unless the version equals "2.0". */
  function VersionMessage(version: Value): Option<string>
  {
    if version == VStr("2.0") then None
    else Some("version must be 2.0 for vast 2 instance and was '" + PyStr(version) + "'")
  }

  function VastArgs(version: Value, ad: Value): map<string, Value>
  {
    map["version" := version, "ad" := ad]
  }

  function VastMake(version: Value, ad: Value): EntityOutcome
  {
    var made := CheckAndConvert(VastEntity, VastArgs(version, ad));
    if made.Built? then
      match VersionMessage(Field(made.instance, "version"))
      case Some(m) => Invalid(m)
      case None => made
    else made
  }

  /** The Vast rules on the arguments of `make`. */
  lemma VastRules(version: Value, ad: Value)
    ensures forall n :: n in VastEntity.required ==> n in VastArgs(version, ad)
    ensures Accepts(VastEntity, VastArgs(version, ad)) <==> IsInstance(ad, "Ad")
    ensures !SomeConverterEscapes(VastEntity, VastArgs(version, ad))
    ensures !IterationFails(VastEntity, VastArgs(version, ad))
  {
    var kw := VastArgs(version, ad);
    var e := VastEntity;
    assert e.converters == [] && e.someOfs == [];
    assert e.classes == [("ad", "Ad", false)];
    assert Get(kw, "ad") == ad;
    assert CheckedItems(e.classes[0], e.required, kw) == [ad];
    assert ClassAcceptsRule(e.classes[0], e.required, kw) <==> IsInstance(ad, "Ad");
  }

  /** The checkers of a Vast pass its version and its ad through unchanged. */
  lemma VastVersionField(kw: map<string, Value>)
    requires CheckAndConvert(VastEntity, kw).Built?
    ensures Field(CheckAndConvert(VastEntity, kw).instance, "version") == Get(kw, "version")
  {
    VastLayout();
    RequiredField(VastEntity, kw, "version");
  }

  lemma VastAdField(kw: map<string, Value>)
    requires CheckAndConvert(VastEntity, kw).Built?
    ensures Field(CheckAndConvert(VastEntity, kw).instance, "ad") == Get(kw, "ad")
  {
    VastWellFormed();
    VastLayout();
    ClassField(VastEntity, kw, "ad");
  }

  /** A Vast is built iff its ad is an Ad and its version is "2.0"; a non-Ad ad (None
      included) is refused by the class checker, and a wrong version, None included, fails
      the post-check with its message. */
  lemma VastMakeOutcome(version: Value, ad: Value)
    ensures VastMake(version, ad).Built? <==> IsInstance(ad, "Ad") && version == VStr("2.0")
    ensures VastMake(version, ad).Refused? <==> !IsInstance(ad, "Ad")
    ensures VastMake(version, ad).Invalid? <==> IsInstance(ad, "Ad") && version != VStr("2.0")
    ensures VastMake(version, ad).Invalid? ==>
      VastMake(version, ad).message == "version must be 2.0 for vast 2 instance and was '" + PyStr(version) + "'"
    ensures VastMake(version, ad).Built? ==>
      && IsInstance(VastMake(version, ad).instance, "Vast")
      && Field(VastMake(version, ad).instance, "version") == version && Field(VastMake(version, ad).instance, "ad") == ad
  {
    VastWellFormed();
    VastRules(version, ad);
    CheckAndConvertOutcome(VastEntity, VastArgs(version, ad));
    var kw := VastArgs(version, ad);
    if CheckAndConvert(VastEntity, kw).Built? {
      VastVersionField(kw);
      VastAdField(kw);
      assert Get(kw, "version") == version && Get(kw, "ad") == ad;
    }
  }

  // ---------------------------------------------------------------------------
  // TrackingEvent

  function TrackingEventArgs(uri: Value, eventType: Value): map<string, Value>
  {
    map["tracking_event_uri" := uri, "tracking_event_type" := eventType]
  }

  function TrackingEventMake(uri: Value, eventType: Value): EntityOutcome
  {
    CheckAndConvert(TrackingEventEntity, TrackingEventArgs(uri, eventType))
  }

  /** The TrackingEvent rules on the arguments of `make`. */
  lemma TrackingEventRules(uri: Value, eventType: Value)
    ensures forall n :: n in TrackingEventEntity.required ==> n in TrackingEventArgs(uri, eventType)
    ensures Accepts(TrackingEventEntity, TrackingEventArgs(uri, eventType)) <==>
      uri != VNone && eventType != VNone && EnumCall(TrackingEventType, eventType).Converted?
    ensures !IterationFails(TrackingEventEntity, TrackingEventArgs(uri, eventType))
  {
    TrackingEventArgsGet(uri, eventType);
    TrackingEventAccepts(uri, eventType);
    assert TrackingEventEntity.classes == [];
  }

  lemma TrackingEventAccepts(uri: Value, eventType: Value)
    ensures Accepts(TrackingEventEntity, TrackingEventArgs(uri, eventType)) <==>
      uri != VNone && eventType != VNone && EnumCall(TrackingEventType, eventType).Converted?
  {
    var e := TrackingEventEntity;
    assert |e.converters| == 2 && e.someOfs == [] && e.classes == [];
    AcceptsTwoConverters(e, TrackingEventArgs(uri, eventType));
    TrackingEventConverterRules(uri, eventType);
  }

  /** An entity whose only rules are two converters accepts iff both do. */
  lemma AcceptsTwoConverters(e: Entity, kw: map<string, Value>)
    requires |e.converters| == 2 && e.someOfs == [] && e.classes == []
    ensures Accepts(e, kw) <==>
      ConverterAcceptsRule(e.converters[0], e.required, kw) && ConverterAcceptsRule(e.converters[1], e.required, kw)
  {
  }

  lemma TrackingEventConverterRules(uri: Value, eventType: Value)
    ensures var kw := TrackingEventArgs(uri, eventType);
      var e := TrackingEventEntity;
      && (ConverterAcceptsRule(e.converters[0], e.required, kw) <==> uri != VNone)
      && (ConverterAcceptsRule(e.converters[1], e.required, kw) <==>
            eventType != VNone && EnumCall(TrackingEventType, eventType).Converted?)
  {
    var kw := TrackingEventArgs(uri, eventType);
    var e := TrackingEventEntity;
    assert e.converters[0] == ("tracking_event_uri", UnicodeType);
    assert e.converters[1].0 == "tracking_event_type" && e.converters[1].1 == EnumType(TrackingEventType);
    TrackingEventArgsGet(uri, eventType);
  }

  lemma TrackingEventArgsGet(uri: Value, eventType: Value)
    ensures var kw := TrackingEventArgs(uri, eventType);
      && "tracking_event_uri" in kw && "tracking_event_type" in kw
      && Get(kw, "tracking_event_uri") == uri && Get(kw, "tracking_event_type") == eventType
      && kw["tracking_event_uri"] == uri && kw["tracking_event_type"] == eventType
  {
  }

  lemma EscapesOfTwoConverters(e: Entity, kw: map<string, Value>)
    requires |e.converters| == 2
    ensures SomeConverterEscapes(e, kw) <==> ConverterEscapes(e.converters[0], kw) || ConverterEscapes(e.converters[1], kw)
  {
    assert RulesOf(e).converters == e.converters;
  }

  lemma TrackingEventConverterEscapes(uri: Value, eventType: Value)
    ensures var kw := TrackingEventArgs(uri, eventType);
      var e := TrackingEventEntity;
      && |e.converters| == 2
      && !ConverterEscapes(e.converters[0], kw)
      && (ConverterEscapes(e.converters[1], kw) <==> eventType != VNone && EnumCall(TrackingEventType, eventType).Raises?)
  {
    var e := TrackingEventEntity;
    assert |e.converters| == 2 && e.converters[0] == ("tracking_event_uri", UnicodeType);
    assert e.converters[1].0 == "tracking_event_type" && e.converters[1].1 == EnumType(TrackingEventType);
    TrackingEventArgsGet(uri, eventType);
  }

  /** Only the enum call of a TrackingEvent can raise past its checkers. */
  lemma TrackingEventEscapes(uri: Value, eventType: Value)
    ensures SomeConverterEscapes(TrackingEventEntity, TrackingEventArgs(uri, eventType)) <==>
      eventType != VNone && EnumCall(TrackingEventType, eventType).Raises?
  {
    TrackingEventConverterEscapes(uri, eventType);
    EscapesOfTwoConverters(TrackingEventEntity, TrackingEventArgs(uri, eventType));
  }

  /** A TrackingEvent is built iff neither field is None and the type is a declared
      tracking-event type (or its member); an undeclared type is not refused but makes the
      enum call's ValueError escape. */
  lemma TrackingEventMakeOutcome(uri: Value, eventType: Value)
    ensures TrackingEventMake(uri, eventType).Built? <==>
      uri != VNone && eventType != VNone && EnumCall(TrackingEventType, eventType).Converted?
    ensures TrackingEventMake(uri, eventType).Escaped? <==>
      eventType != VNone && EnumCall(TrackingEventType, eventType).Raises?
    ensures TrackingEventMake(uri, eventType).Escaped? ==> TrackingEventMake(uri, eventType).exc == ValueError
  {
    TrackingEventWellFormed();
    TrackingEventRules(uri, eventType);
    TrackingEventEscapes(uri, eventType);
    CheckAndConvertOutcome(TrackingEventEntity, TrackingEventArgs(uri, eventType));
  }

  lemma TrackingEventUriField(kw: map<string, Value>)
    requires CheckAndConvert(TrackingEventEntity, kw).Built?
    ensures Field(CheckAndConvert(TrackingEventEntity, kw).instance, "tracking_event_uri") == Text(Get(kw, "tracking_event_uri"))
  {
    TrackingEventWellFormed();
    ConvertedField(TrackingEventEntity, kw, 0, "tracking_event_uri", UnicodeType);
  }

  lemma TrackingEventTypeField(kw: map<string, Value>)
    requires CheckAndConvert(TrackingEventEntity, kw).Built?
    ensures IsInstance(CheckAndConvert(TrackingEventEntity, kw).instance, "TrackingEvent")
    ensures var t := Get(kw, "tracking_event_type");
      t != VNone ==> (EnumCall(TrackingEventType, t).Converted? &&
        Field(CheckAndConvert(TrackingEventEntity, kw).instance, "tracking_event_type") == EnumCall(TrackingEventType, t).value)
  {
    TrackingEventWellFormed();
    EnumField(TrackingEventEntity, kw, 1, "tracking_event_type", TrackingEventType);
  }

  /** A built TrackingEvent holds its uri as text and its type as a declared member. */
  lemma TrackingEventMakeFields(uri: Value, eventType: Value)
    requires TrackingEventMake(uri, eventType).Built?
    ensures EnumCall(TrackingEventType, eventType).Converted?
    ensures var t := TrackingEventMake(uri, eventType).instance;
      && IsInstance(t, "TrackingEvent")
      && Field(t, "tracking_event_uri") == VStr(PyStr(uri))
      && Field(t, "tracking_event_type") == EnumCall(TrackingEventType, eventType).value
      && IsMember(TrackingEventType, Field(t, "tracking_event_type"))
  {
    var kw := TrackingEventArgs(uri, eventType);
    TrackingEventMakeOutcome(uri, eventType);
    TrackingEventUriField(kw);
    TrackingEventTypeField(kw);
    assert Get(kw, "tracking_event_uri") == uri && Get(kw, "tracking_event_type") == eventType;
    EnumCallAcceptsOnlyDeclared(TrackingEventType, eventType);
  }

  // ---------------------------------------------------------------------------
  // Wrapper

  function WrapperArgs(adSystem: Value, vastAdTagUri: Value, adTitle: Value, impression: Value, error: Value,
                       creatives: Value): map<string, Value>
  {
    map["ad_system" := adSystem, "vast_ad_tag_uri" := vastAdTagUri, "ad_title" := adTitle,
        "impression" := impression, "error" := error, "creatives" := creatives]
  }

  lemma WrapperArgsGet(adSystem: Value, vastAdTagUri: Value, adTitle: Value, impression: Value, error: Value,
                       creatives: Value)
    ensures var kw := WrapperArgs(adSystem, vastAdTagUri, adTitle, impression, error, creatives);
      && Get(kw, "ad_system") == adSystem && Get(kw, "vast_ad_tag_uri") == vastAdTagUri
      && Get(kw, "ad_title") == adTitle && Get(kw, "impression") == impression
      && Get(kw, "error") == error && Get(kw, "creatives") == creatives
  {
  }

  function WrapperMake(adSystem: Value, vastAdTagUri: Value, adTitle: Value, impression: Value, error: Value,
                       creatives: Value): EntityOutcome
  {
    CheckAndConvert(WrapperEntity, WrapperArgs(adSystem, vastAdTagUri, adTitle, impression, error, creatives))
  }

  /** The Wrapper rules on the arguments of `make`. */
  lemma WrapperRules(kw: map<string, Value>)
    requires kw.Keys == {"ad_system", "vast_ad_tag_uri", "ad_title", "impression", "error", "creatives"}
    ensures forall n :: n in WrapperEntity.required ==> n in kw
    ensures Accepts(WrapperEntity, kw) <==>
      kw["ad_system"] != VNone && (kw["creatives"] == VNone || AllInstances(kw["creatives"], "Creative"))
  {
    var e := WrapperEntity;
    var req := e.required;
    assert |e.converters| == 4 && e.converters[0] == ("ad_system", UnicodeType);
    assert forall i :: 1 <= i < 4 ==> e.converters[i].1 == UnicodeType && e.converters[i].0 !in req;
    assert e.someOfs == [] && e.classes == [("creatives", "Creative", true)];
    assert "creatives" !in req;
    assert CheckedItems(e.classes[0], req, kw) ==
      if kw["creatives"] == VNone then [] else match Iterate(kw["creatives"]) case Ok(items) => items case Err(_) => [];
    assert ClassAcceptsRule(e.classes[0], req, kw) <==> kw["creatives"] == VNone || AllInstances(kw["creatives"], "Creative");
  }

  /** Only iterating the creatives of a Wrapper can raise past its checkers. */
  lemma WrapperEscapes(kw: map<string, Value>)
    requires kw.Keys == {"ad_system", "vast_ad_tag_uri", "ad_title", "impression", "error", "creatives"}
    ensures !SomeConverterEscapes(WrapperEntity, kw)
    ensures IterationFails(WrapperEntity, kw) <==> kw["creatives"] != VNone && Iterate(kw["creatives"]).Err?
  {
    var e := WrapperEntity;
    assert |RulesOf(e).converters| == 4 && forall i :: 0 <= i < 4 ==> RulesOf(e).converters[i].1 == UnicodeType;
    assert |e.classes| == 1 && e.classes[0] == ("creatives", "Creative", true);
    if kw["creatives"] != VNone && Iterate(kw["creatives"]).Err? {
      assert IterationFails(e, kw);
    }
  }

  /** A Wrapper is built iff its ad system is not None and its creatives are None or an
      iterable of Creatives. The tag URI is only required to be passed, which `make`
      always does, so even None is accepted. A creatives value that cannot be iterated
      makes a TypeError escape. */
  lemma WrapperMakeOutcome(adSystem: Value, vastAdTagUri: Value, adTitle: Value, impression: Value, error: Value,
                           creatives: Value)
    ensures WrapperMake(adSystem, vastAdTagUri, adTitle, impression, error, creatives).Built? <==>
      adSystem != VNone && (creatives == VNone || AllInstances(creatives, "Creative"))
    ensures WrapperMake(adSystem, vastAdTagUri, adTitle, impression, error, creatives).Escaped? <==>
      creatives != VNone && Iterate(creatives).Err?
    ensures WrapperMake(adSystem, vastAdTagUri, adTitle, impression, error, creatives).Escaped? ==>
      WrapperMake(adSystem, vastAdTagUri, adTitle, impression, error, creatives).exc == TypeError
    ensures !WrapperMake(adSystem, vastAdTagUri, adTitle, impression, error, creatives).Invalid?
  {
    var kw := WrapperArgs(adSystem, vastAdTagUri, adTitle, impression, error, creatives);
    WrapperArgsKeys(adSystem, vastAdTagUri, adTitle, impression, error, creatives);
    WrapperOutcomeOn(kw);
  }

  lemma WrapperArgsKeys(adSystem: Value, vastAdTagUri: Value, adTitle: Value, impression: Value, error: Value,
                        creatives: Value)
    ensures var kw := WrapperArgs(adSystem, vastAdTagUri, adTitle, impression, error, creatives);
      && kw.Keys == {"ad_system", "vast_ad_tag_uri", "ad_title", "impression", "error", "creatives"}
      && kw["ad_system"] == adSystem && kw["creatives"] == creatives
  {
  }

  lemma WrapperOutcomeOn(kw: map<string, Value>)
    requires kw.Keys == {"ad_system", "vast_ad_tag_uri", "ad_title", "impression", "error", "creatives"}
    ensures CheckAndConvert(WrapperEntity, kw).Built? <==>
      kw["ad_system"] != VNone && (kw["creatives"] == VNone || AllInstances(kw["creatives"], "Creative"))
    ensures CheckAndConvert(WrapperEntity, kw).Escaped? <==> kw["creatives"] != VNone && Iterate(kw["creatives"]).Err?
    ensures CheckAndConvert(WrapperEntity, kw).Escaped? ==> CheckAndConvert(WrapperEntity, kw).exc == TypeError
  {
    WrapperWellFormed();
    WrapperRules(kw);
    WrapperEscapes(kw);
    CheckAndConvertOutcome(WrapperEntity, kw);
  }

  lemma WrapperTextFields(kw: map<string, Value>)
    requires CheckAndConvert(WrapperEntity, kw).Built?
    ensures var w := CheckAndConvert(WrapperEntity, kw).instance;
      && Field(w, "ad_system") == Text(Get(kw, "ad_system")) && Field(w, "ad_title") == Text(Get(kw, "ad_title"))
      && Field(w, "impression") == Text(Get(kw, "impression")) && Field(w, "error") == Text(Get(kw, "error"))
  {
    WrapperWellFormed();
    TextField(WrapperEntity, kw, 0, "ad_system");
    TextField(WrapperEntity, kw, 1, "ad_title");
    TextField(WrapperEntity, kw, 2, "impression");
    TextField(WrapperEntity, kw, 3, "error");
  }

  lemma WrapperOtherFields(kw: map<string, Value>)
    requires CheckAndConvert(WrapperEntity, kw).Built?
    ensures IsInstance(CheckAndConvert(WrapperEntity, kw).instance, "Wrapper")
    ensures Field(CheckAndConvert(WrapperEntity, kw).instance, "vast_ad_tag_uri") == Get(kw, "vast_ad_tag_uri")
    ensures Field(CheckAndConvert(WrapperEntity, kw).instance, "creatives") == Get(kw, "creatives")
  {
    WrapperWellFormed();
    WrapperLayout();
    RequiredField(WrapperEntity, kw, "vast_ad_tag_uri");
    ClassField(WrapperEntity, kw, "creatives");
  }

  /** A built Wrapper holds `unicode` of each of its texts, None kept as None. */
  lemma WrapperMakeTexts(adSystem: Value, vastAdTagUri: Value, adTitle: Value, impression: Value, error: Value,
                         creatives: Value)
    requires WrapperMake(adSystem, vastAdTagUri, adTitle, impression, error, creatives).Built?
    ensures var w := WrapperMake(adSystem, vastAdTagUri, adTitle, impression, error, creatives).instance;
      && Field(w, "ad_system") == Text(adSystem) && Field(w, "ad_title") == Text(adTitle)
      && Field(w, "impression") == Text(impression) && Field(w, "error") == Text(error)
  {
    var kw := WrapperArgs(adSystem, vastAdTagUri, adTitle, impression, error, creatives);
    WrapperTextFields(kw);
    WrapperArgsGet(adSystem, vastAdTagUri, adTitle, impression, error, creatives);
  }

  /** A built Wrapper holds its tag URI and its creatives as given. */
  lemma WrapperMakeFields(adSystem: Value, vastAdTagUri: Value, adTitle: Value, impression: Value, error: Value,
                          creatives: Value)
    requires WrapperMake(adSystem, vastAdTagUri, adTitle, impression, error, creatives).Built?
    ensures var w := WrapperMake(adSystem, vastAdTagUri, adTitle, impression, error, creatives).instance;
      && IsInstance(w, "Wrapper") && Field(w, "vast_ad_tag_uri") == vastAdTagUri && Field(w, "creatives") == creatives
  {
    var kw := WrapperArgs(adSystem, vastAdTagUri, adTitle, impression, error, creatives);
    WrapperOtherFields(kw);
    WrapperArgsGet(adSystem, vastAdTagUri, adTitle, impression, error, creatives);
  }

  // ---------------------------------------------------------------------------
  // Inline

  function InlineArgs(adSystem: Value, adTitle: Value, impression: Value, creatives: Value): map<string, Value>
  {
    map["ad_system" := adSystem, "ad_title" := adTitle, "impression" := impression, "creatives" := creatives]
  }

  function InlineMake(adSystem: Value, adTitle: Value, impression: Value, creatives: Value): EntityOutcome
  {
    CheckAndConvert(InlineEntity, InlineArgs(adSystem, adTitle, impression, creatives))
  }

  /** The Inline rules on the arguments of `make`. */
  lemma InlineRules(kw: map<string, Value>)
    requires kw.Keys == {"ad_system", "ad_title", "impression", "creatives"}
    ensures forall n :: n in InlineEntity.required ==> n in kw
    ensures Accepts(InlineEntity, kw) <==>
      kw["ad_system"] != VNone && kw["ad_title"] != VNone && kw["impression"] != VNone &&
      kw["creatives"] != VNone && AllInstances(kw["creatives"], "Creative")
  {
    var e := InlineEntity;
    var req := e.required;
    assert |e.converters| == 3 && e.converters[0] == ("ad_system", UnicodeType);
    assert e.converters[1] == ("ad_title", UnicodeType) && e.converters[2] == ("impression", UnicodeType);
    assert e.someOfs == [] && e.classes == [("creatives", "Creative", true)];
    assert "creatives" in req;
    assert CheckedItems(e.classes[0], req, kw) ==
      if kw["creatives"] == VNone then [VNone] else match Iterate(kw["creatives"]) case Ok(items) => items case Err(_) => [];
    assert kw["creatives"] == VNone ==> !IsInstance(VNone, "Creative");
    assert ClassAcceptsRule(e.classes[0], req, kw) <==> kw["creatives"] != VNone && AllInstances(kw["creatives"], "Creative");
  }

  /** Only iterating the creatives of an Inline can raise past its checkers. */
  lemma InlineEscapes(kw: map<string, Value>)
    requires kw.Keys == {"ad_system", "ad_title", "impression", "creatives"}
    ensures !SomeConverterEscapes(InlineEntity, kw)
    ensures IterationFails(InlineEntity, kw) <==> kw["creatives"] != VNone && Iterate(kw["creatives"]).Err?
  {
    var e := InlineEntity;
    assert |RulesOf(e).converters| == 3 && forall i :: 0 <= i < 3 ==> RulesOf(e).converters[i].1 == UnicodeType;
    assert |e.classes| == 1 && e.classes[0] == ("creatives", "Creative", true);
    if kw["creatives"] != VNone && Iterate(kw["creatives"]).Err? {
      assert IterationFails(e, kw);
    }
  }

  /** An Inline is built iff none of its four fields is None and its creatives are an
      iterable of Creatives (None is refused, being required); creatives that cannot be
      iterated make a TypeError escape. */
  lemma InlineMakeOutcome(adSystem: Value, adTitle: Value, impression: Value, creatives: Value)
    ensures InlineMake(adSystem, adTitle, impression, creatives).Built? <==>
      adSystem != VNone && adTitle != VNone && impression != VNone && creatives != VNone &&
      AllInstances(creatives, "Creative")
    ensures InlineMake(adSystem, adTitle, impression, creatives).Escaped? <==>
      creatives != VNone && Iterate(creatives).Err?
    ensures InlineMake(adSystem, adTitle, impression, creatives).Escaped? ==>
      InlineMake(adSystem, adTitle, impression, creatives).exc == TypeError
  {
    var kw := InlineArgs(adSystem, adTitle, impression, creatives);
    assert kw["ad_system"] == adSystem && kw["ad_title"] == adTitle && kw["impression"] == impression;
    assert kw["creatives"] == creatives;
    InlineWellFormed();
    InlineRules(kw);
    InlineEscapes(kw);
    CheckAndConvertOutcome(InlineEntity, kw);
  }

  lemma InlineTextFields(kw: map<string, Value>)
    requires CheckAndConvert(InlineEntity, kw).Built?
    ensures var a := CheckAndConvert(InlineEntity, kw).instance;
      && Field(a, "ad_system") == Text(Get(kw, "ad_system")) && Field(a, "ad_title") == Text(Get(kw, "ad_title"))
      && Field(a, "impression") == Text(Get(kw, "impression"))
  {
    InlineWellFormed();
    TextField(InlineEntity, kw, 0, "ad_system");
    TextField(InlineEntity, kw, 1, "ad_title");
    TextField(InlineEntity, kw, 2, "impression");
  }

  /** A built Inline holds the text of each of its texts and its creatives as given. */
  lemma InlineMakeFields(adSystem: Value, adTitle: Value, impression: Value, creatives: Value)
    requires InlineMake(adSystem, adTitle, impression, creatives).Built?
    ensures var a := InlineMake(adSystem, adTitle, impression, creatives).instance;
      && IsInstance(a, "Inline")
      && Field(a, "ad_system") == VStr(PyStr(adSystem)) && Field(a, "ad_title") == VStr(PyStr(adTitle))
      && Field(a, "impression") == VStr(PyStr(impression)) && Field(a, "creatives") == creatives
  {
    var kw := InlineArgs(adSystem, adTitle, impression, creatives);
    InlineMakeOutcome(adSystem, adTitle, impression, creatives);
    InlineTextFields(kw);
    InlineWellFormed();
    InlineLayout();
    ClassField(InlineEntity, kw, "creatives");
    BuiltField(InlineEntity, kw, "creatives");
    assert Get(kw, "ad_system") == adSystem && Get(kw, "ad_title") == adTitle;
    assert Get(kw, "impression") == impression && Get(kw, "creatives") == creatives;
  }

  // ---------------------------------------------------------------------------
  // LinearCreative

  function LinearCreativeArgs(duration: Value, mediaFiles: Value, videoClicks: Value, adParameters: Value,
                              trackingEvents: Value): map<string, Value>
  {
    map["duration" := duration, "media_files" := mediaFiles, "video_clicks" := videoClicks,
        "ad_parameters" := adParameters, "tracking_events" := trackingEvents]
  }

  lemma LinearCreativeArgsLookup(duration: Value, mediaFiles: Value, videoClicks: Value, adParameters: Value,
                                 trackingEvents: Value)
    ensures var kw := LinearCreativeArgs(duration, mediaFiles, videoClicks, adParameters, trackingEvents);
      && kw.Keys == {"duration", "media_files", "video_clicks", "ad_parameters", "tracking_events"}
      && kw["duration"] == duration && kw["media_files"] == mediaFiles && kw["tracking_events"] == trackingEvents
      && Get(kw, "duration") == duration && Get(kw, "media_files") == mediaFiles
      && Get(kw, "tracking_events") == trackingEvents
  {
  }

  /** `LinearCreative.make` up to its `validators.validate` call. */
  function LinearCreativeMake(duration: Value, mediaFiles: Value, videoClicks: Value, adParameters: Value,
                              trackingEvents: Value): EntityOutcome
  {
    CheckAndConvert(LinearCreativeEntity, LinearCreativeArgs(duration, mediaFiles, videoClicks, adParameters, trackingEvents))
  }

  /** The LinearCreative rules on the arguments of `make`. */
  lemma LinearCreativeRules(kw: map<string, Value>)
    requires kw.Keys == {"duration", "media_files", "video_clicks", "ad_parameters", "tracking_events"}
    ensures forall n :: n in LinearCreativeEntity.required ==> n in kw
    ensures Accepts(LinearCreativeEntity, kw) <==>
      && kw["duration"] != VNone && PyInt(kw["duration"]).Converted?
      && kw["media_files"] != VNone && AllInstances(kw["media_files"], "MediaFile")
      && (kw["tracking_events"] == VNone || AllInstances(kw["tracking_events"], "TrackingEvent"))
  {
    var e := LinearCreativeEntity;
    var req := e.required;
    assert |e.converters| == 1 && e.converters[0] == ("duration", IntType);
    assert e.someOfs == [] && |e.classes| == 2;
    assert e.classes[0] == ("media_files", "MediaFile", true) && e.classes[1] == ("tracking_events", "TrackingEvent", true);
    assert "media_files" in req && "tracking_events" !in req;
    assert kw["media_files"] == VNone ==> !IsInstance(VNone, "MediaFile");
    assert CheckedItems(e.classes[0], req, kw) ==
      if kw["media_files"] == VNone then [VNone] else match Iterate(kw["media_files"]) case Ok(items) => items case Err(_) => [];
    assert CheckedItems(e.classes[1], req, kw) ==
      if kw["tracking_events"] == VNone then [] else match Iterate(kw["tracking_events"]) case Ok(items) => items case Err(_) => [];
    assert ClassAcceptsRule(e.classes[0], req, kw) <==> kw["media_files"] != VNone && AllInstances(kw["media_files"], "MediaFile");
    assert ClassAcceptsRule(e.classes[1], req, kw) <==>
      kw["tracking_events"] == VNone || AllInstances(kw["tracking_events"], "TrackingEvent");
  }

  /** What can raise past the LinearCreative checkers: `int` of a duration that is text but
      not a number, and iterating a non-iterable media-file or tracking-event list. */
  lemma LinearCreativeEscapes(kw: map<string, Value>)
    requires kw.Keys == {"duration", "media_files", "video_clicks", "ad_parameters", "tracking_events"}
    ensures SomeConverterEscapes(LinearCreativeEntity, kw) <==>
      kw["duration"] != VNone && PyInt(kw["duration"]).Raises? && PyInt(kw["duration"]).exc == ValueError
    ensures IterationFails(LinearCreativeEntity, kw) <==>
      (kw["media_files"] != VNone && Iterate(kw["media_files"]).Err?) ||
      (kw["tracking_events"] != VNone && Iterate(kw["tracking_events"]).Err?)
  {
    var e := LinearCreativeEntity;
    assert |RulesOf(e).converters| == 1 && RulesOf(e).converters[0] == ("duration", IntType);
    if ConverterEscapes(RulesOf(e).converters[0], kw) {
      assert SomeConverterEscapes(e, kw);
    }
    assert |e.classes| == 2;
    assert e.classes[0] == ("media_files", "MediaFile", true) && e.classes[1] == ("tracking_events", "TrackingEvent", true);
    if kw["media_files"] != VNone && Iterate(kw["media_files"]).Err? {
      assert IterationFails(e, kw);
    }
    if kw["tracking_events"] != VNone && Iterate(kw["tracking_events"]).Err? {
      assert IterationFails(e, kw);
    }
  }

  /** A LinearCreative is built iff its duration converts to an int, its media files are an
      iterable of MediaFiles and its tracking events are None or an iterable of
      TrackingEvents. A non-numeric duration text makes `int`'s ValueError escape; an
      uniterable list makes a TypeError escape. */
  lemma LinearCreativeMakeOutcome(duration: Value, mediaFiles: Value, videoClicks: Value, adParameters: Value,
                                  trackingEvents: Value)
    ensures LinearCreativeMake(duration, mediaFiles, videoClicks, adParameters, trackingEvents).Built? <==>
      && duration != VNone && PyInt(duration).Converted?
      && mediaFiles != VNone && AllInstances(mediaFiles, "MediaFile")
      && (trackingEvents == VNone || AllInstances(trackingEvents, "TrackingEvent"))
    ensures LinearCreativeMake(duration, mediaFiles, videoClicks, adParameters, trackingEvents).Escaped? <==>
      || (duration != VNone && PyInt(duration).Raises? && PyInt(duration).exc == ValueError)
      || (mediaFiles != VNone && Iterate(mediaFiles).Err?)
      || (trackingEvents != VNone && Iterate(trackingEvents).Err?)
    ensures LinearCreativeMake(duration, mediaFiles, videoClicks, adParameters, trackingEvents).Escaped? ==>
      LinearCreativeMake(duration, mediaFiles, videoClicks, adParameters, trackingEvents).exc ==
        if duration != VNone && PyInt(duration).Raises? && PyInt(duration).exc == ValueError then ValueError else TypeError
  {
    var kw := LinearCreativeArgs(duration, mediaFiles, videoClicks, adParameters, trackingEvents);
    LinearCreativeArgsLookup(duration, mediaFiles, videoClicks, adParameters, trackingEvents);
    LinearCreativeWellFormed();
    LinearCreativeRules(kw);
    LinearCreativeEscapes(kw);
    CheckAndConvertOutcome(LinearCreativeEntity, kw);
  }

  lemma LinearCreativeDurationField(kw: map<string, Value>)
    requires CheckAndConvert(LinearCreativeEntity, kw).Built?
    ensures IsInstance(CheckAndConvert(LinearCreativeEntity, kw).instance, "LinearCreative")
    ensures var d := Get(kw, "duration");
      d != VNone ==> (PyInt(d).Converted? && Field(CheckAndConvert(LinearCreativeEntity, kw).instance, "duration") == PyInt(d).value)
  {
    LinearCreativeWellFormed();
    IntField(LinearCreativeEntity, kw, 0, "duration");
  }

  lemma LinearCreativeListFields(kw: map<string, Value>)
    requires CheckAndConvert(LinearCreativeEntity, kw).Built?
    ensures var c := CheckAndConvert(LinearCreativeEntity, kw).instance;
      && Field(c, "media_files") == Get(kw, "media_files") && Field(c, "tracking_events") == Get(kw, "tracking_events")
  {
    LinearCreativeWellFormed();
    LinearCreativeLayout();
    ClassField(LinearCreativeEntity, kw, "media_files");
    ClassField(LinearCreativeEntity, kw, "tracking_events");
  }

  lemma LinearCreativeUnnamedFields(kw: map<string, Value>)
    requires CheckAndConvert(LinearCreativeEntity, kw).Built?
    ensures var c := CheckAndConvert(LinearCreativeEntity, kw).instance;
      Field(c, "video_clicks") == VNone && Field(c, "ad_parameters") == VNone
  {
    LinearCreativeLayout();
    UnnamedField(LinearCreativeEntity, kw, "video_clicks");
    UnnamedField(LinearCreativeEntity, kw, "ad_parameters");
  }

  /** A built LinearCreative holds its duration as an int and its lists as given; video
      clicks and ad parameters, which no rule names, are dropped and read None. */
  lemma LinearCreativeMakeFields(duration: Value, mediaFiles: Value, videoClicks: Value, adParameters: Value,
                                 trackingEvents: Value)
    requires LinearCreativeMake(duration, mediaFiles, videoClicks, adParameters, trackingEvents).Built?
    ensures PyInt(duration).Converted?
    ensures var c := LinearCreativeMake(duration, mediaFiles, videoClicks, adParameters, trackingEvents).instance;
      && IsInstance(c, "LinearCreative")
      && Field(c, "duration") == PyInt(duration).value
      && Field(c, "media_files") == mediaFiles && Field(c, "tracking_events") == trackingEvents
      && Field(c, "video_clicks") == VNone && Field(c, "ad_parameters") == VNone
  {
    var kw := LinearCreativeArgs(duration, mediaFiles, videoClicks, adParameters, trackingEvents);
    LinearCreativeMakeOutcome(duration, mediaFiles, videoClicks, adParameters, trackingEvents);
    LinearCreativeArgsLookup(duration, mediaFiles, videoClicks, adParameters, trackingEvents);
    LinearCreativeDurationField(kw);
    LinearCreativeListFields(kw);
    LinearCreativeUnnamedFields(kw);
  }

  // ---------------------------------------------------------------------------
  // Creative

  function CreativeArgs(linear: Value, nonLinear: Value, companionAds: Value, id: Value, sequence: Value, adId: Value,
                        apiFramework: Value): map<string, Value>
  {
    map["linear" := linear, "non_linear" := nonLinear, "companion_ads" := companionAds, "id" := id,
        "sequence" := sequence, "ad_id" := adId, "api_framework" := apiFramework]
  }

  lemma CreativeArgsLookup(linear: Value, nonLinear: Value, companionAds: Value, id: Value, sequence: Value, adId: Value,
                           apiFramework: Value)
    ensures var kw := CreativeArgs(linear, nonLinear, companionAds, id, sequence, adId, apiFramework);
      && kw.Keys == {"linear", "non_linear", "companion_ads", "id", "sequence", "ad_id", "api_framework"}
      && kw["linear"] == linear && kw["sequence"] == sequence && kw["api_framework"] == apiFramework
      && Get(kw, "linear") == linear && Get(kw, "id") == id && Get(kw, "ad_id") == adId
      && Get(kw, "sequence") == sequence && Get(kw, "api_framework") == apiFramework
  {
  }

  /** `Creative.make` up to its `validators.validate` call. */
  function CreativeMake(linear: Value, nonLinear: Value, companionAds: Value, id: Value, sequence: Value, adId: Value,
                        apiFramework: Value): EntityOutcome
  {
    CheckAndConvert(CreativeEntity, CreativeArgs(linear, nonLinear, companionAds, id, sequence, adId, apiFramework))
  }

  /** The Creative rules on the arguments of `make`. */
  lemma CreativeRules(kw: map<string, Value>)
    requires kw.Keys == {"linear", "non_linear", "companion_ads", "id", "sequence", "ad_id", "api_framework"}
    ensures forall n :: n in CreativeEntity.required ==> n in kw
    ensures Accepts(CreativeEntity, kw) <==>
      && (kw["linear"] == VNone || IsInstance(kw["linear"], "LinearCreative"))
      && (kw["sequence"] == VNone || PyInt(kw["sequence"]).Converted?)
      && (kw["api_framework"] == VNone || EnumCall(ApiFramework, kw["api_framework"]).Converted?)
  {
    var e := CreativeEntity;
    var req := e.required;
    assert req == [] && e.someOfs == [];
    assert |e.converters| == 4 && e.converters[0] == ("id", UnicodeType) && e.converters[1] == ("ad_id", UnicodeType);
    assert e.converters[2] == ("api_framework", EnumType(ApiFramework)) && e.converters[3] == ("sequence", IntType);
    assert |e.classes| == 1 && e.classes[0] == ("linear", "LinearCreative", false);
    assert CheckedItems(e.classes[0], req, kw) == if kw["linear"] == VNone then [] else [kw["linear"]];
  }

  /** What can raise past the Creative checkers: `int` of a sequence that is text but not
      a number, and an API framework that is not a declared one. */
  lemma CreativeEscapes(kw: map<string, Value>)
    requires kw.Keys == {"linear", "non_linear", "companion_ads", "id", "sequence", "ad_id", "api_framework"}
    ensures SomeConverterEscapes(CreativeEntity, kw) <==>
      || (kw["sequence"] != VNone && PyInt(kw["sequence"]).Raises? && PyInt(kw["sequence"]).exc == ValueError)
      || (kw["api_framework"] != VNone && EnumCall(ApiFramework, kw["api_framework"]).Raises?)
    ensures !IterationFails(CreativeEntity, kw)
  {
    var e := CreativeEntity;
    var c := RulesOf(e).converters;
    assert |c| == 4 && c[0] == ("id", UnicodeType) && c[1] == ("ad_id", UnicodeType);
    assert c[2] == ("api_framework", EnumType(ApiFramework)) && c[3] == ("sequence", IntType);
    EnumCallAcceptsOnlyDeclared(ApiFramework, kw["api_framework"]);
    if ConverterEscapes(c[2], kw) {
      assert SomeConverterEscapes(e, kw);
    }
    if ConverterEscapes(c[3], kw) {
      assert SomeConverterEscapes(e, kw);
    }
    assert |e.classes| == 1 && !e.classes[0].2;
  }

  /** A Creative, with every field optional, is built iff its linear part is None or a
      LinearCreative, its sequence converts to an int and its API framework is declared,
      each when given; the two conversions are also what can raise past the checkers, with
      ValueError. */
  lemma CreativeMakeOutcome(linear: Value, nonLinear: Value, companionAds: Value, id: Value, sequence: Value, adId: Value,
                            apiFramework: Value)
    ensures CreativeMake(linear, nonLinear, companionAds, id, sequence, adId, apiFramework).Built? <==>
      && (linear == VNone || IsInstance(linear, "LinearCreative"))
      && (sequence == VNone || PyInt(sequence).Converted?)
      && (apiFramework == VNone || EnumCall(ApiFramework, apiFramework).Converted?)
    ensures CreativeMake(linear, nonLinear, companionAds, id, sequence, adId, apiFramework).Escaped? <==>
      || (sequence != VNone && PyInt(sequence).Raises? && PyInt(sequence).exc == ValueError)
      || (apiFramework != VNone && EnumCall(ApiFramework, apiFramework).Raises?)
    ensures CreativeMake(linear, nonLinear, companionAds, id, sequence, adId, apiFramework).Escaped? ==>
      CreativeMake(linear, nonLinear, companionAds, id, sequence, adId, apiFramework).exc == ValueError
  {
    var kw := CreativeArgs(linear, nonLinear, companionAds, id, sequence, adId, apiFramework);
    CreativeArgsLookup(linear, nonLinear, companionAds, id, sequence, adId, apiFramework);
    CreativeWellFormed();
    CreativeRules(kw);
    CreativeEscapes(kw);
    CheckAndConvertOutcome(CreativeEntity, kw);
  }

  lemma CreativeTextFields(kw: map<string, Value>)
    requires CheckAndConvert(CreativeEntity, kw).Built?
    ensures var c := CheckAndConvert(CreativeEntity, kw).instance;
      Field(c, "id") == Text(Get(kw, "id")) && Field(c, "ad_id") == Text(Get(kw, "ad_id"))
  {
    CreativeWellFormed();
    TextField(CreativeEntity, kw, 0, "id");
    TextField(CreativeEntity, kw, 1, "ad_id");
  }

  lemma CreativeApiFrameworkField(kw: map<string, Value>)
    requires CheckAndConvert(CreativeEntity, kw).Built?
    ensures var a := Get(kw, "api_framework");
      a != VNone ==> (EnumCall(ApiFramework, a).Converted? &&
        Field(CheckAndConvert(CreativeEntity, kw).instance, "api_framework") == EnumCall(ApiFramework, a).value)
    ensures Get(kw, "api_framework") == VNone ==> Field(CheckAndConvert(CreativeEntity, kw).instance, "api_framework") == VNone
  {
    CreativeWellFormed();
    EnumField(CreativeEntity, kw, 2, "api_framework", ApiFramework);
  }

  lemma CreativeSequenceField(kw: map<string, Value>)
    requires CheckAndConvert(CreativeEntity, kw).Built?
    ensures var q := Get(kw, "sequence");
      q != VNone ==> (PyInt(q).Converted? && Field(CheckAndConvert(CreativeEntity, kw).instance, "sequence") == PyInt(q).value)
    ensures Get(kw, "sequence") == VNone ==> Field(CheckAndConvert(CreativeEntity, kw).instance, "sequence") == VNone
  {
    CreativeWellFormed();
    IntField(CreativeEntity, kw, 3, "sequence");
  }

  lemma CreativeLinearField(kw: map<string, Value>)
    requires CheckAndConvert(CreativeEntity, kw).Built?
    ensures IsInstance(CheckAndConvert(CreativeEntity, kw).instance, "Creative")
    ensures Field(CheckAndConvert(CreativeEntity, kw).instance, "linear") == Get(kw, "linear")
  {
    CreativeWellFormed();
    CreativeLayout();
    ClassField(CreativeEntity, kw, "linear");
  }

  /** A built Creative holds its linear part as given, its ids as text, its sequence as an
      int and its API framework as a declared member, each None when not given. */
  lemma CreativeMakeFields(linear: Value, nonLinear: Value, companionAds: Value, id: Value, sequence: Value, adId: Value,
                           apiFramework: Value)
    requires CreativeMake(linear, nonLinear, companionAds, id, sequence, adId, apiFramework).Built?
    ensures var c := CreativeMake(linear, nonLinear, companionAds, id, sequence, adId, apiFramework).instance;
      && IsInstance(c, "Creative") && Field(c, "linear") == linear
      && Field(c, "id") == Text(id) && Field(c, "ad_id") == Text(adId)
      && (sequence == VNone ==> Field(c, "sequence") == VNone)
      && (sequence != VNone ==> PyInt(sequence).Converted? && Field(c, "sequence") == PyInt(sequence).value)
      && (apiFramework == VNone ==> Field(c, "api_framework") == VNone)
      && (apiFramework != VNone ==> IsMember(ApiFramework, Field(c, "api_framework")))
  {
    var kw := CreativeArgs(linear, nonLinear, companionAds, id, sequence, adId, apiFramework);
    CreativeArgsLookup(linear, nonLinear, companionAds, id, sequence, adId, apiFramework);
    CreativeTextFields(kw);
    CreativeApiFrameworkField(kw);
    CreativeSequenceField(kw);
    CreativeLinearField(kw);
    EnumCallAcceptsOnlyDeclared(ApiFramework, apiFramework);
  }

  // ---------------------------------------------------------------------------
  // MediaFile

  /** `int(v)` of a non-None value raises ValueError: text that is not a number. */
  predicate IntEscapes(v: Value)
  {
    v != VNone && PyInt(v).Raises? && PyInt(v).exc == ValueError
  }

  /** Calling enum class `en` on a non-None value raises: not one of its values. */
  predicate EnumEscapes(en: EnumClass, v: Value)
  {
    v != VNone && EnumCall(en, v).Raises?
  }

  lemma EscapesByKind(rule: (string, Converter), kw: map<string, Value>)
    requires rule.0 in kw
    ensures rule.1 == IntType ==> (ConverterEscapes(rule, kw) <==> IntEscapes(kw[rule.0]))
    ensures rule.1.EnumType? ==> (ConverterEscapes(rule, kw) <==> EnumEscapes(rule.1.enum, kw[rule.0]))
    ensures rule.1 == UnicodeType || rule.1 == BoolType ==> !ConverterEscapes(rule, kw)
  {
    if rule.1.EnumType? {
      EnumCallAcceptsOnlyDeclared(rule.1.enum, kw[rule.0]);
    }
  }

  /** None, or a value `int` converts. */
  predicate OptionalInt(v: Value)
  {
    v == VNone || PyInt(v).Converted?
  }

  const MediaFileKeys: set<string> := {"asset", "delivery", "type", "width", "height", "codec", "id", "bitrate",
    "min_bitrate", "max_bitrate", "scalable", "maintain_aspect_ratio", "api_framework"}

  function MediaFileArgs(asset: Value, delivery: Value, mimeType: Value, width: Value, height: Value, codec: Value,
                         id: Value, bitrate: Value, minBitrate: Value, maxBitrate: Value, scalable: Value,
                         maintainAspectRatio: Value, apiFramework: Value): (kw: map<string, Value>)
    ensures kw.Keys == MediaFileKeys
    ensures kw["delivery"] == delivery && kw["type"] == mimeType && kw["bitrate"] == bitrate
    ensures kw["min_bitrate"] == minBitrate && kw["max_bitrate"] == maxBitrate
  {
    map["asset" := asset, "delivery" := delivery, "type" := mimeType, "width" := width, "height" := height,
        "codec" := codec, "id" := id, "bitrate" := bitrate, "min_bitrate" := minBitrate, "max_bitrate" := maxBitrate,
        "scalable" := scalable, "maintain_aspect_ratio" := maintainAspectRatio, "api_framework" := apiFramework]
  }

  /** The conversions of the MediaFile rules on the arguments of `make`, by kind. */
  lemma MediaFileTextAndIntRules(kw: map<string, Value>)
    requires kw.Keys == MediaFileKeys
    ensures (forall i :: 0 <= i < 8 ==> ConverterAcceptsRule(MediaFileEntity.converters[i], MediaFileEntity.required, kw)) <==>
      && kw["asset"] != VNone
      && kw["width"] != VNone && PyInt(kw["width"]).Converted?
      && kw["height"] != VNone && PyInt(kw["height"]).Converted?
      && OptionalInt(kw["bitrate"]) && OptionalInt(kw["min_bitrate"]) && OptionalInt(kw["max_bitrate"])
  {
    var e := MediaFileEntity;
    var req := e.required;
    MediaFileConverters();
    assert req == ["asset", "delivery", "type", "width", "height"];
    assert "codec" !in req && "id" !in req && "bitrate" !in req && "min_bitrate" !in req && "max_bitrate" !in req;
  }

  lemma MediaFileFlagAndEnumRules(kw: map<string, Value>)
    requires kw.Keys == MediaFileKeys
    ensures (forall i :: 8 <= i < 13 ==> ConverterAcceptsRule(MediaFileEntity.converters[i], MediaFileEntity.required, kw)) <==>
      && kw["type"] != VNone && EnumCall(MimeType, kw["type"]).Converted?
      && kw["delivery"] != VNone && EnumCall(Delivery, kw["delivery"]).Converted?
      && (kw["api_framework"] == VNone || EnumCall(ApiFramework, kw["api_framework"]).Converted?)
  {
    var e := MediaFileEntity;
    var req := e.required;
    MediaFileFlagAndEnumConverters();
    assert req == ["asset", "delivery", "type", "width", "height"];
    assert "scalable" !in req && "maintain_aspect_ratio" !in req && "api_framework" !in req;
    assert "type" in req && "delivery" in req;
    MediaFileKeysPresent(kw);
    FlagAndEnumRulesOf(e.converters, req, kw, MimeType, ApiFramework, Delivery);
  }

  lemma MediaFileKeysPresent(kw: map<string, Value>)
    requires kw.Keys == MediaFileKeys
    ensures "asset" in kw && "delivery" in kw && "type" in kw && "width" in kw && "height" in kw
    ensures "codec" in kw && "id" in kw && "bitrate" in kw && "min_bitrate" in kw && "max_bitrate" in kw
    ensures "scalable" in kw && "maintain_aspect_ratio" in kw && "api_framework" in kw
  {
  }

  /** The flag and enum rules of a MediaFile-shaped converter table, for any three enum
      classes. */
  lemma FlagAndEnumRulesOf(c: seq<(string, Converter)>, req: seq<string>, kw: map<string, Value>,
                           mime: EnumClass, api: EnumClass, delivery: EnumClass)
    requires |c| == 13 && c[8] == ("scalable", BoolType) && c[9] == ("maintain_aspect_ratio", BoolType)
    requires c[10] == ("type", EnumType(mime)) && c[11] == ("api_framework", EnumType(api))
    requires c[12] == ("delivery", EnumType(delivery))
    requires "type" in req && "delivery" in req
    requires "scalable" !in req && "maintain_aspect_ratio" !in req && "api_framework" !in req
    requires "type" in kw && "delivery" in kw && "api_framework" in kw && "scalable" in kw && "maintain_aspect_ratio" in kw
    ensures (forall i :: 8 <= i < 13 ==> ConverterAcceptsRule(c[i], req, kw)) <==>
      && kw["type"] != VNone && EnumCall(mime, kw["type"]).Converted?
      && kw["delivery"] != VNone && EnumCall(delivery, kw["delivery"]).Converted?
      && (kw["api_framework"] == VNone || EnumCall(api, kw["api_framework"]).Converted?)
  {
    assert ConverterAcceptsRule(c[8], req, kw) && ConverterAcceptsRule(c[9], req, kw);
    if kw["type"] != VNone && EnumCall(mime, kw["type"]).Converted?
      && kw["delivery"] != VNone && EnumCall(delivery, kw["delivery"]).Converted?
      && (kw["api_framework"] == VNone || EnumCall(api, kw["api_framework"]).Converted?)
    {
      forall i | 8 <= i < 13 ensures ConverterAcceptsRule(c[i], req, kw) {
        assert i == 8 || i == 9 || i == 10 || i == 11 || i == 12;
      }
    } else {
      assert !ConverterAcceptsRule(c[10], req, kw) || !ConverterAcceptsRule(c[11], req, kw) ||
        !ConverterAcceptsRule(c[12], req, kw);
    }
  }

  /** The MediaFile rules on the arguments of `make`. */
  lemma MediaFileRules(kw: map<string, Value>)
    requires kw.Keys == MediaFileKeys
    ensures forall n :: n in MediaFileEntity.required ==> n in kw
    ensures Accepts(MediaFileEntity, kw) <==>
      && kw["asset"] != VNone
      && kw["width"] != VNone && PyInt(kw["width"]).Converted?
      && kw["height"] != VNone && PyInt(kw["height"]).Converted?
      && OptionalInt(kw["bitrate"]) && OptionalInt(kw["min_bitrate"]) && OptionalInt(kw["max_bitrate"])
      && kw["type"] != VNone && EnumCall(MimeType, kw["type"]).Converted?
      && kw["delivery"] != VNone && EnumCall(Delivery, kw["delivery"]).Converted?
      && (kw["api_framework"] == VNone || EnumCall(ApiFramework, kw["api_framework"]).Converted?)
    ensures !IterationFails(MediaFileEntity, kw)
  {
    var e := MediaFileEntity;
    assert |e.converters| == 13 && e.someOfs == [] && e.classes == [];
    MediaFileTextAndIntRules(kw);
    MediaFileFlagAndEnumRules(kw);
  }

  lemma MediaFileIntEscapes(kw: map<string, Value>)
    requires kw.Keys == MediaFileKeys
    ensures (exists i :: 3 <= i < 8 && ConverterEscapes(MediaFileEntity.converters[i], kw)) <==>
      IntEscapes(kw["width"]) || IntEscapes(kw["height"]) || IntEscapes(kw["bitrate"]) ||
      IntEscapes(kw["min_bitrate"]) || IntEscapes(kw["max_bitrate"])
  {
    var c := MediaFileEntity.converters;
    MediaFileConverters();
    forall i | 3 <= i < 8 { EscapesByKind(c[i], kw); }
    if IntEscapes(kw["width"]) { assert ConverterEscapes(c[3], kw); }
    if IntEscapes(kw["height"]) { assert ConverterEscapes(c[4], kw); }
    if IntEscapes(kw["bitrate"]) { assert ConverterEscapes(c[5], kw); }
    if IntEscapes(kw["min_bitrate"]) { assert ConverterEscapes(c[6], kw); }
    if IntEscapes(kw["max_bitrate"]) { assert ConverterEscapes(c[7], kw); }
  }

  lemma MediaFileEnumEscapes(kw: map<string, Value>)
    requires kw.Keys == MediaFileKeys
    ensures (exists i :: 10 <= i < 13 && ConverterEscapes(MediaFileEntity.converters[i], kw)) <==>
      EnumEscapes(MimeType, kw["type"]) || EnumEscapes(ApiFramework, kw["api_framework"]) ||
      EnumEscapes(Delivery, kw["delivery"])
  {
    var c := MediaFileEntity.converters;
    MediaFileConverters();
    forall i | 10 <= i < 13 { EscapesByKind(c[i], kw); }
    if EnumEscapes(MimeType, kw["type"]) { assert ConverterEscapes(c[10], kw); }
    if EnumEscapes(ApiFramework, kw["api_framework"]) { assert ConverterEscapes(c[11], kw); }
    if EnumEscapes(Delivery, kw["delivery"]) { assert ConverterEscapes(c[12], kw); }
  }

  /** What can raise past the MediaFile checkers: `int` of a numeric field given as text
      that is not a number, and an enum field that is not one of its declared values. */
  lemma MediaFileEscapes(kw: map<string, Value>)
    requires kw.Keys == MediaFileKeys
    ensures SomeConverterEscapes(MediaFileEntity, kw) <==>
      || IntEscapes(kw["width"]) || IntEscapes(kw["height"]) || IntEscapes(kw["bitrate"])
      || IntEscapes(kw["min_bitrate"]) || IntEscapes(kw["max_bitrate"])
      || EnumEscapes(MimeType, kw["type"]) || EnumEscapes(ApiFramework, kw["api_framework"])
      || EnumEscapes(Delivery, kw["delivery"])
  {
    var c := MediaFileEntity.converters;
    MediaFileConverters();
    MediaFileIntEscapes(kw);
    MediaFileEnumEscapes(kw);
    assert RulesOf(MediaFileEntity).converters == c;
    forall i | 0 <= i < 3 || 8 <= i < 10 ensures !ConverterEscapes(c[i], kw) { EscapesByKind(c[i], kw); }
    EscapesByRanges(c, kw);
  }

  /** With the text and flag rules unable to raise, an escape comes from a numeric or an
      enum rule. */
  lemma EscapesByRanges(c: seq<(string, Converter)>, kw: map<string, Value>)
    requires |c| == 13
    requires forall i :: 0 <= i < 3 || 8 <= i < 10 ==> !ConverterEscapes(c[i], kw)
    ensures (exists i :: 0 <= i < |c| && ConverterEscapes(c[i], kw)) <==>
      (exists i :: 3 <= i < 8 && ConverterEscapes(c[i], kw)) || (exists i :: 10 <= i < 13 && ConverterEscapes(c[i], kw))
  {
  }

  /** The checkers of a MediaFile build it iff the five required fields are given, the
      numeric ones convert with `int` and the enum ones are declared values; a numeric
      text that is not a number or an undeclared enum value makes a ValueError escape. */
  lemma MediaFileCheckOutcome(kw: map<string, Value>)
    requires kw.Keys == MediaFileKeys
    ensures CheckAndConvert(MediaFileEntity, kw).Built? <==>
      && kw["asset"] != VNone
      && kw["width"] != VNone && PyInt(kw["width"]).Converted?
      && kw["height"] != VNone && PyInt(kw["height"]).Converted?
      && OptionalInt(kw["bitrate"]) && OptionalInt(kw["min_bitrate"]) && OptionalInt(kw["max_bitrate"])
      && kw["type"] != VNone && EnumCall(MimeType, kw["type"]).Converted?
      && kw["delivery"] != VNone && EnumCall(Delivery, kw["delivery"]).Converted?
      && (kw["api_framework"] == VNone || EnumCall(ApiFramework, kw["api_framework"]).Converted?)
    ensures CheckAndConvert(MediaFileEntity, kw).Escaped? <==>
      || IntEscapes(kw["width"]) || IntEscapes(kw["height"]) || IntEscapes(kw["bitrate"])
      || IntEscapes(kw["min_bitrate"]) || IntEscapes(kw["max_bitrate"])
      || EnumEscapes(MimeType, kw["type"]) || EnumEscapes(ApiFramework, kw["api_framework"])
      || EnumEscapes(Delivery, kw["delivery"])
    ensures CheckAndConvert(MediaFileEntity, kw).Escaped? ==> CheckAndConvert(MediaFileEntity, kw).exc == ValueError
  {
    MediaFileWellFormed();
    MediaFileRules(kw);
    MediaFileEscapes(kw);
    CheckAndConvertOutcome(MediaFileEntity, kw);
  }

  /** The validators `MediaFile.make` hands to `validators.validate`: the two size rules of
      VALIDATORS and the bitrate rule chosen for the file, if any. */
  datatype MediaFileValidator = GreaterThen(field: string, bound: int) | ValidateBitrate | ValidateMinMaxBitrate

  const MediaFileBaseValidators: seq<MediaFileValidator> := [GreaterThen("height", 0), GreaterThen("width", 0)]

  predicate IsFlashOrJs(instance: Value)
  {
    Field(instance, "type") == FlashMember || Field(instance, "type") == JsMember
  }

  /** The branch of `make`: FLASH and JS files get no bitrate rule, progressive files the
      bitrate rule, all others the min/max bitrate rule, always after VALIDATORS. */
  function MediaFileValidators(instance: Value): (r: seq<MediaFileValidator>)
    ensures |r| >= 2 && r[..2] == MediaFileBaseValidators
    ensures ValidateBitrate in r <==> !IsFlashOrJs(instance) && Field(instance, "delivery") == ProgressiveMember
    ensures ValidateMinMaxBitrate in r <==> !IsFlashOrJs(instance) && Field(instance, "delivery") != ProgressiveMember
    ensures IsFlashOrJs(instance) ==> r == MediaFileBaseValidators
  {
    if IsFlashOrJs(instance) then MediaFileBaseValidators
    else if Field(instance, "delivery") == ProgressiveMember then MediaFileBaseValidators + [ValidateBitrate]
    else MediaFileBaseValidators + [ValidateMinMaxBitrate]
  }

  /** `_validate_bitrate` on the file's bitrate. */
  function BitrateMessage(bitrate: Value): (r: Option<string>)
    ensures r.None? <==> bitrate != VNone && !(bitrate.VInt? && bitrate.i < 0)
  {
    if bitrate == VNone then Some("media file bitrate cannot be None for progressive media")
    else if bitrate.VInt? && bitrate.i < 0 then Some("media file bitrate must be > 0 but was " + PyStr(bitrate))
    else None
  }

  /** Python's `a > b` on the two converted bitrates, which are ints when given. */
  predicate IntGreater(a: Value, b: Value)
  {
    a.VInt? && b.VInt? && a.i > b.i
  }

  const MissingBitrateMessage := "media file min_bitrate cannot be None for streaming media"

  function MinGreaterMessage(minBitrate: Value, maxBitrate: Value): string
  {
    "media file min_bitrate=" + PyStr(minBitrate) + " is greater than max_bitrate=" + PyStr(maxBitrate)
  }

  /** The messages of `_validate_min_max_bitrate`: one per missing bound, both worded
      for min_bitrate, and the comparison only when neither is missing. */
  function MinMaxBitrateErrors(minBitrate: Value, maxBitrate: Value): (r: seq<string>)
    ensures |r| == (if minBitrate == VNone then 1 else 0) + (if maxBitrate == VNone then 1 else 0) +
      (if minBitrate != VNone && maxBitrate != VNone && IntGreater(minBitrate, maxBitrate) then 1 else 0)
    ensures forall m :: m in r ==> m == MissingBitrateMessage || m == MinGreaterMessage(minBitrate, maxBitrate)
  {
    if minBitrate == VNone || maxBitrate == VNone then
      (if minBitrate == VNone then [MissingBitrateMessage] else []) +
      (if maxBitrate == VNone then [MissingBitrateMessage] else [])
    else if IntGreater(minBitrate, maxBitrate) then [MinGreaterMessage(minBitrate, maxBitrate)]
    else []
  }

  /** `",".join(errors) or None`. */
  function JoinedOrNone(errors: seq<string>): Option<string>
  {
    var joined := JoinWith(",", errors);
    if joined == "" then None else Some(joined)
  }

  /** `_validate_min_max_bitrate`, step by step as the source appends. */
  method ValidateMinMaxBitrateMessage(minBitrate: Value, maxBitrate: Value) returns (r: Option<string>)
    ensures r == JoinedOrNone(MinMaxBitrateErrors(minBitrate, maxBitrate))
    ensures r.None? <==> minBitrate != VNone && maxBitrate != VNone && !IntGreater(minBitrate, maxBitrate)
  {
    var errors: seq<string> := [];
    if minBitrate == VNone {
      errors := errors + [MissingBitrateMessage];
    }
    if maxBitrate == VNone {
      errors := errors + [MissingBitrateMessage];
    }
    if errors == [] && IntGreater(minBitrate, maxBitrate) {
      errors := errors + [MinGreaterMessage(minBitrate, maxBitrate)];
    }
    assert errors == MinMaxBitrateErrors(minBitrate, maxBitrate);
    MinMaxBitrateAccepts(minBitrate, maxBitrate);
    r := JoinedOrNone(errors);
  }

  lemma JoinNonEmpty(parts: seq<string>)
    requires parts != [] && forall p :: p in parts ==> p != ""
    ensures JoinWith(",", parts) != ""
  {
    if |parts| == 1 {
      assert parts[0] in parts;
    } else {
      assert |parts[0] + "," + JoinWith(",", parts[1..])| > 0;
    }
  }

  /** The min/max rule passes iff both bounds are given and min <= max, and then only. */
  lemma MinMaxBitrateAccepts(minBitrate: Value, maxBitrate: Value)
    ensures JoinedOrNone(MinMaxBitrateErrors(minBitrate, maxBitrate)).None? <==>
      minBitrate != VNone && maxBitrate != VNone && !IntGreater(minBitrate, maxBitrate)
  {
    var errors := MinMaxBitrateErrors(minBitrate, maxBitrate);
    if errors != [] {
      assert MissingBitrateMessage != "";
      assert forall m :: m in errors ==> m != "" by {
        forall m | m in errors ensures m != "" {
          if m == MinGreaterMessage(minBitrate, maxBitrate) {
            assert |MinGreaterMessage(minBitrate, maxBitrate)| > 0;
          }
        }
      }
      JoinNonEmpty(errors);
    }
  }

  /** The missing-bound messages: both bounds missing gives the min_bitrate text twice,
      joined by ","; equal bounds pass. */
  lemma MinMaxBitrateExamples()
    ensures JoinedOrNone(MinMaxBitrateErrors(VNone, VNone)) == Some(MissingBitrateMessage + "," + MissingBitrateMessage)
    ensures JoinedOrNone(MinMaxBitrateErrors(VInt(5), VNone)) == Some(MissingBitrateMessage)
    ensures JoinedOrNone(MinMaxBitrateErrors(VNone, VInt(5))) == Some(MissingBitrateMessage)
    ensures JoinedOrNone(MinMaxBitrateErrors(VInt(500), VInt(500))) == None
    ensures JoinedOrNone(MinMaxBitrateErrors(VInt(600), VInt(500))) == Some(MinGreaterMessage(VInt(600), VInt(500)))
  {
    assert MissingBitrateMessage != "";
    assert MinGreaterMessage(VInt(600), VInt(500)) != "" by {
      assert |MinGreaterMessage(VInt(600), VInt(500))| > 0;
    }
  }

  /** The message of the bitrate rule `make` chose for a built file, if it fails. */
  function BitrateRuleMessage(instance: Value): Option<string>
  {
    var vs := MediaFileValidators(instance);
    if ValidateBitrate in vs then BitrateMessage(Field(instance, "bitrate"))
    else if ValidateMinMaxBitrate in vs then JoinedOrNone(MinMaxBitrateErrors(Field(instance, "min_bitrate"), Field(instance, "max_bitrate")))
    else None
  }

  /** `MediaFile.make` on the keyword dict it builds: the checkers, then the chosen
      bitrate rule (the size rules of VALIDATORS are not evaluated). */
  function MediaFileMake(kw: map<string, Value>): EntityOutcome
  {
    var made := CheckAndConvert(MediaFileEntity, kw);
    if made.Built? then
      match BitrateRuleMessage(made.instance)
      case Some(m) => Invalid(m)
      case None => made
    else made
  }

  /** A FLASH or JS file passes the bitrate rules whatever its delivery and bitrates. */
  lemma FlashOrJsSkipsBitrateRules(instance: Value)
    requires IsFlashOrJs(instance)
    ensures ValidateBitrate !in MediaFileValidators(instance) && ValidateMinMaxBitrate !in MediaFileValidators(instance)
    ensures BitrateRuleMessage(instance) == None
  {
  }

  /** A progressive file of another type fails iff its bitrate is None or negative;
      bitrate 0 passes although the message reads "> 0". */
  lemma ProgressiveBitrateRule(instance: Value)
    requires !IsFlashOrJs(instance) && Field(instance, "delivery") == ProgressiveMember
    ensures BitrateRuleMessage(instance) == BitrateMessage(Field(instance, "bitrate"))
    ensures BitrateRuleMessage(instance).None? <==>
      Field(instance, "bitrate") != VNone && !(Field(instance, "bitrate").VInt? && Field(instance, "bitrate").i < 0)
  {
  }

  /** Any other file fails iff a bitrate bound is missing or min exceeds max. */
  lemma StreamingBitrateRule(instance: Value)
    requires !IsFlashOrJs(instance) && Field(instance, "delivery") != ProgressiveMember
    ensures BitrateRuleMessage(instance) ==
      JoinedOrNone(MinMaxBitrateErrors(Field(instance, "min_bitrate"), Field(instance, "max_bitrate")))
    ensures BitrateRuleMessage(instance).None? <==>
      Field(instance, "min_bitrate") != VNone && Field(instance, "max_bitrate") != VNone &&
      !IntGreater(Field(instance, "min_bitrate"), Field(instance, "max_bitrate"))
  {
    MinMaxBitrateAccepts(Field(instance, "min_bitrate"), Field(instance, "max_bitrate"));
  }

  /** Every converted field of a built MediaFile holds the conversion of its input. */
  lemma MediaFileFields(kw: map<string, Value>)
    requires CheckAndConvert(MediaFileEntity, kw).Built?
    ensures IsInstance(CheckAndConvert(MediaFileEntity, kw).instance, "MediaFile")
    ensures forall i :: 0 <= i < |MediaFileEntity.converters| ==>
      Field(CheckAndConvert(MediaFileEntity, kw).instance, MediaFileEntity.converters[i].0) ==
        ConvertedValue(MediaFileEntity.converters[i].1, Get(kw, MediaFileEntity.converters[i].0))
  {
    MediaFileWellFormed();
    MediaFilePlainConverters();
    ConvertedFields(MediaFileEntity, kw);
    BuiltField(MediaFileEntity, kw, "asset");
  }

  /** The fields the bitrate rules read, on a built MediaFile. */
  lemma MediaFileRuleFields(kw: map<string, Value>)
    requires CheckAndConvert(MediaFileEntity, kw).Built?
    ensures var f := CheckAndConvert(MediaFileEntity, kw).instance;
      && Field(f, "type") == ConvertedValue(EnumType(MimeType), Get(kw, "type"))
      && Field(f, "delivery") == ConvertedValue(EnumType(Delivery), Get(kw, "delivery"))
      && Field(f, "bitrate") == ConvertedValue(IntType, Get(kw, "bitrate"))
      && Field(f, "min_bitrate") == ConvertedValue(IntType, Get(kw, "min_bitrate"))
      && Field(f, "max_bitrate") == ConvertedValue(IntType, Get(kw, "max_bitrate"))
  {
    MediaFileFields(kw);
    MediaFileConverters();
    assert MediaFileEntity.converters[10].0 == "type" && MediaFileEntity.converters[12].0 == "delivery";
    assert MediaFileEntity.converters[5].0 == "bitrate";
    assert MediaFileEntity.converters[6].0 == "min_bitrate" && MediaFileEntity.converters[7].0 == "max_bitrate";
  }

  /** After the checkers built a MediaFile, `make` keeps it iff the bitrate rule its
      converted type and delivery select passes: none for FLASH and JS, the bitrate rule for
      progressive files (bitrate given and not negative), the min/max rule for the others
      (both bounds given, min <= max). A failing rule's message is the outcome. */
  lemma MediaFileMakeBitrateRules(kw: map<string, Value>)
    requires CheckAndConvert(MediaFileEntity, kw).Built?
    ensures var t := ConvertedValue(EnumType(MimeType), Get(kw, "type"));
      t == FlashMember || t == JsMember ==> MediaFileMake(kw) == CheckAndConvert(MediaFileEntity, kw)
    ensures var t := ConvertedValue(EnumType(MimeType), Get(kw, "type"));
      var d := ConvertedValue(EnumType(Delivery), Get(kw, "delivery"));
      var b := ConvertedValue(IntType, Get(kw, "bitrate"));
      t != FlashMember && t != JsMember && d == ProgressiveMember ==>
        && (MediaFileMake(kw).Built? <==> b != VNone && !(b.VInt? && b.i < 0))
        && (!MediaFileMake(kw).Built? ==> MediaFileMake(kw) == Invalid(BitrateMessage(b).value))
    ensures var t := ConvertedValue(EnumType(MimeType), Get(kw, "type"));
      var d := ConvertedValue(EnumType(Delivery), Get(kw, "delivery"));
      var lo := ConvertedValue(IntType, Get(kw, "min_bitrate"));
      var hi := ConvertedValue(IntType, Get(kw, "max_bitrate"));
      t != FlashMember && t != JsMember && d != ProgressiveMember ==>
        && (MediaFileMake(kw).Built? <==> lo != VNone && hi != VNone && !IntGreater(lo, hi))
        && (!MediaFileMake(kw).Built? ==> MediaFileMake(kw) == Invalid(JoinedOrNone(MinMaxBitrateErrors(lo, hi)).value))
    ensures MediaFileMake(kw).Built? ==> MediaFileMake(kw) == CheckAndConvert(MediaFileEntity, kw)
  {
    var f := CheckAndConvert(MediaFileEntity, kw).instance;
    MediaFileRuleFields(kw);
    if IsFlashOrJs(f) {
      FlashOrJsSkipsBitrateRules(f);
    } else if Field(f, "delivery") == ProgressiveMember {
      ProgressiveBitrateRule(f);
    } else {
      StreamingBitrateRule(f);
    }
  }

  /** Two files of the sample feed: a streaming 3GPP file with bounds 51 and 900 keeps its
      built instance, and the same file without bounds fails with the min_bitrate text
      twice. */
  lemma StreamingFileExample(f: Value)
    requires Field(f, "type") == VEnum("MimeType", "GPP", "video/3gpp")
    requires Field(f, "delivery") == VEnum("Delivery", "STREAMING", "streaming")
    ensures Field(f, "min_bitrate") == VInt(51) && Field(f, "max_bitrate") == VInt(900) ==> BitrateRuleMessage(f) == None
    ensures Field(f, "min_bitrate") == VNone && Field(f, "max_bitrate") == VNone ==>
      BitrateRuleMessage(f) == Some(MissingBitrateMessage + "," + MissingBitrateMessage)
  {
    StreamingBitrateRule(f);
    MinMaxBitrateExamples();
  }
}
