/** The VAST 2.0 parser in vast/parsers/vast_v2.py: the `_ParsedAd` and `_ParsedWrapper`
    getters, `_parse_wrapper`, `_parse_inline` and the `parse_xml` dispatch, which is
    wrapper-first and goes by the truthiness of the Wrapper and Inline elements.

    `parse_xml` reads `version` and `ad` from an object whose class is not part of this
    model; they are its parameters here. */
module ParserV2 {
  import opened PyValues
  import opened Engine
  import opened ModelsV2
  import opened TreeWalk

  /** The getters of `_ParsedAd` and `_ParsedWrapper`, each a `get` of one key. */
  datatype Getter = Id | Inline | Wrapper | VastAdTagUri | AdSystem | AdTitle | Impression | Error

  function Key(g: Getter): string
  {
    match g
    case Id => "@id"
    case Inline => "Inline"
    case Wrapper => "Wrapper"
    case VastAdTagUri => "VASTAdTagURI"
    case AdSystem => "AdSystem"
    case AdTitle => "AdTitle"
    case Impression => "Impression"
    case Error => "Error"
  }

  /** A getter returns the value under its key, None when the key is absent, and raises
      AttributeError on anything but a dict. */
  function Read(g: Getter, node: Value): (r: Result<Value>)
    ensures node.VDict? && HasKey(node.entries, Key(g)) ==> r == Ok(Lookup(node.entries, Key(g)).value)
    ensures node.VDict? && !HasKey(node.entries, Key(g)) ==> r == Ok(VNone)
    ensures !node.VDict? ==> r == Err(AttributeError)
  {
    DictGet(node, Key(g), VNone)
  }

  /** `_ParsedWrapper.creatives`: the values of the wrapper's "creatives" map, {} when
      absent. */
  function WrapperCreatives(wrapper: Value): Stream
  {
    match DictGet(wrapper, "creatives", VDict([]))
    case Err(e) => Stream([], Some(e))
    case Ok(creatives) =>
      match DictValues(creatives)
      case Err(e) => Stream([], Some(e))
      case Ok(values) => Stream(values, None)
  }

  /** `[from_creaive_dict(c) for c in creatives] or None`: one None per creative, since
      `from_creaive_dict` returns None, and None instead of an empty list. */
  function CreativesArgument(creatives: seq<Value>): Value
  {
    if creatives == [] then VNone else VList(seq(|creatives|, _ => VNone))
  }

  /** `_parse_wrapper`: reads the wrapper's texts and creatives and calls `Wrapper.make`.
      The first getter raises AttributeError when the Wrapper element is not a dict. */
  function ParseWrapper(ad: Value): Parse<Value>
  {
    match Read(Wrapper, ad)
    case Err(e) => Failed(Uncaught(e))
    case Ok(wrapper) =>
      if !wrapper.VDict? then Failed(Uncaught(AttributeError))
      else
        var creatives := WrapperCreatives(wrapper);
        if creatives.failure.Some? then Failed(Uncaught(creatives.failure.value))
        else
          var made := WrapperMake(Read(AdSystem, wrapper).value, Read(VastAdTagUri, wrapper).value,
                                  Read(AdTitle, wrapper).value, Read(Impression, wrapper).value,
                                  Read(Error, wrapper).value, CreativesArgument(creatives.items));
          if made.Built? then Parsed(made.instance) else Failed(MakeFailed("Wrapper", made))
  }

  /** The `_ParsedInLine` instance as a value. */
  function InlineObject(p: ParsedInLine): Value
  {
    VObj("_ParsedInLine", [("_root", p.root), ("_inline", p.inline)])
  }

  /** `_parse_inline`: `_ParsedInLine(ad.inline)`, which looks for a VAST element inside
      the Inline element it is given. */
  function ParseInline(ad: Value): Parse<Value>
  {
    match Read(Inline, ad)
    case Err(e) => Failed(Uncaught(e))
    case Ok(inline) =>
      match ParsedInLineOf(inline)
      case Err(e) => Failed(Uncaught(e))
      case Ok(p) => Parsed(InlineObject(p))
  }

  /** `Vast.make(version=version, ad=<the Ad built>)`, where a refused Ad propagates. */
  function MakeVast(version: Value, ad: EntityOutcome): Parse<Value>
  {
    if !ad.Built? then Failed(MakeFailed("Ad", ad))
    else
      var vast := VastMake(version, ad.instance);
      if vast.Built? then Parsed(vast.instance) else Failed(MakeFailed("Vast", vast))
  }

  /** `parse_xml`: a wrapper Ad when the Wrapper element is truthy, else an inline Ad when
      the Inline element is truthy, else ParseError. */
  function ParseXml(version: Value, ad: Value): Parse<Value>
  {
    match Read(Wrapper, ad)
    case Err(e) => Failed(Uncaught(e))
    case Ok(wrapper) =>
      if Truthy(wrapper) then
        match ParseWrapper(ad)
        case Failed(f) => Failed(f)
        case Parsed(w) => MakeVast(version, AdMakeWrapper(Read(Id, ad).value, w))
      else
        var inline := Read(Inline, ad).value;
        if Truthy(inline) then
          match ParseInline(ad)
          case Failed(f) => Failed(f)
          case Parsed(i) => MakeVast(version, AdMakeInline(Read(Id, ad).value, i))
        else Failed(NoAdKind)
  }

  // ---------------------------------------------------------------------------
  // Properties

  /** The creatives argument `_parse_wrapper` passes: None exactly when the "creatives"
      map is absent or empty, and otherwise a list of Nones, which holds no Creative. */
  lemma WrapperCreativesArgument(wrapper: Value)
    requires wrapper.VDict?
    ensures var c := DictGet(wrapper, "creatives", VDict([])).value;
      var creatives := WrapperCreatives(wrapper);
      var arg := CreativesArgument(creatives.items);
      && (creatives.failure.None? <==> c.VDict?)
      && (creatives.failure.None? ==> (arg == VNone <==> c == VDict([])))
      && (creatives.failure.None? && arg != VNone ==> Iterate(arg).Ok? && !AllInstances(arg, "Creative"))
  {
    var c := DictGet(wrapper, "creatives", VDict([])).value;
    var creatives := WrapperCreatives(wrapper);
    if c.VDict? {
      assert creatives.items == ValuesOf(c.entries);
      var arg := CreativesArgument(creatives.items);
      if arg != VNone {
        assert arg.VList? && arg.items[0] == VNone;
        assert !IsInstance(Iterate(arg).value[0], "Creative");
      }
    }
  }

  /** `_parse_wrapper` succeeds iff the Wrapper element is a dict with a non-None AdSystem
      whose "creatives" map is absent or empty; creatives are then None, never []. A
      non-empty "creatives" map becomes a list of Nones, which `Wrapper.make` refuses. */
  lemma ParseWrapperOutcome(ad: Value)
    requires ad.VDict?
    ensures var wrapper := Read(Wrapper, ad).value;
      var creatives := DictGet(wrapper, "creatives", VDict([]));
      && (ParseWrapper(ad).Parsed? <==>
            wrapper.VDict? && Read(AdSystem, wrapper).value != VNone && creatives.value == VDict([]))
      && (ParseWrapper(ad).Parsed? ==>
            IsInstance(ParseWrapper(ad).value, "Wrapper") && Field(ParseWrapper(ad).value, "creatives") == VNone)
      && (wrapper.VDict? && creatives.value.VDict? && creatives.value.entries != [] ==>
            ParseWrapper(ad).Failed? && ParseWrapper(ad).failure.MakeFailed?
            && ParseWrapper(ad).failure.outcome.Refused?)
  {
    var wrapper := Read(Wrapper, ad).value;
    if wrapper.VDict? {
      WrapperCreativesArgument(wrapper);
      var creatives := WrapperCreatives(wrapper);
      if creatives.failure.None? {
        var arg := CreativesArgument(creatives.items);
        var adSystem, tagUri, title := Read(AdSystem, wrapper).value, Read(VastAdTagUri, wrapper).value, Read(AdTitle, wrapper).value;
        var impression, error := Read(Impression, wrapper).value, Read(Error, wrapper).value;
        WrapperMakeOutcome(adSystem, tagUri, title, impression, error, arg);
        if WrapperMake(adSystem, tagUri, title, impression, error, arg).Built? {
          WrapperMakeFields(adSystem, tagUri, title, impression, error, arg);
        }
      }
    }
  }

  /** `_parse_inline` only succeeds on an Inline element that itself holds a VAST element:
      a decoded Inline dict without one raises KeyError, anything else but a dict
      TypeError. */
  lemma ParseInlineNeedsVast(ad: Value)
    requires ad.VDict?
    ensures var inline := Read(Inline, ad).value;
      && (inline.VDict? && !HasKey(inline.entries, "VAST") ==> ParseInline(ad) == Failed(Uncaught(KeyError)))
      && (!inline.VDict? ==> ParseInline(ad) == Failed(Uncaught(TypeError)))
      && (ParseInline(ad).Parsed? ==> Truthy(ParseInline(ad).value))
  {
  }

  /** The dispatch of `parse_xml`: a truthy Wrapper wins over any Inline, a falsy one
      leaves the decision to a truthy Inline, and with neither the ad is not parsed. */
  lemma ParseXmlDispatch(version: Value, ad: Value)
    ensures !ad.VDict? ==> ParseXml(version, ad) == Failed(Uncaught(AttributeError))
    ensures ad.VDict? && Truthy(Read(Wrapper, ad).value) && ParseWrapper(ad).Failed? ==>
      ParseXml(version, ad) == ParseWrapper(ad)
    ensures ad.VDict? && Truthy(Read(Wrapper, ad).value) && ParseWrapper(ad).Parsed? ==>
      ParseXml(version, ad) == MakeVast(version, AdMakeWrapper(Read(Id, ad).value, ParseWrapper(ad).value))
    ensures ad.VDict? && !Truthy(Read(Wrapper, ad).value) && Truthy(Read(Inline, ad).value) && ParseInline(ad).Parsed? ==>
      ParseXml(version, ad) == MakeVast(version, AdMakeInline(Read(Id, ad).value, ParseInline(ad).value))
    ensures ad.VDict? && !Truthy(Read(Wrapper, ad).value) && Truthy(Read(Inline, ad).value) && ParseInline(ad).Failed? ==>
      ParseXml(version, ad) == ParseInline(ad)
    ensures ad.VDict? && !Truthy(Read(Wrapper, ad).value) && !Truthy(Read(Inline, ad).value) ==>
      ParseXml(version, ad) == Failed(NoAdKind)
  {
  }

  /** `Vast.make` over what `Ad.make` built: it only succeeds on a built Ad and version
      "2.0", and then holds both. */
  lemma MakeVastParsed(version: Value, ad: EntityOutcome)
    requires MakeVast(version, ad).Parsed?
    ensures ad.Built? && version == VStr("2.0")
    ensures var vast := MakeVast(version, ad).value;
      IsInstance(vast, "Vast") && Field(vast, "version") == version && Field(vast, "ad") == ad.instance
  {
    VastMakeOutcome(version, ad.instance);
  }

  /** What a parsed VAST document is: a Vast of version "2.0" whose Ad has a non-None id
      and holds the wrapper model when the Wrapper element is truthy (even if an Inline
      element is present too), or else the `_ParsedInLine` of the Inline element. */
  lemma ParseXmlBuilds(version: Value, ad: Value)
    requires ParseXml(version, ad).Parsed?
    ensures ad.VDict? && version == VStr("2.0") && Read(Id, ad).value != VNone
    ensures var vast := ParseXml(version, ad).value;
      var built := Field(vast, "ad");
      && IsInstance(vast, "Vast") && Field(vast, "version") == version && IsInstance(built, "Ad")
      && Field(built, "id") == VStr(PyStr(Read(Id, ad).value))
      && (Truthy(Read(Wrapper, ad).value) ==>
            Field(built, "wrapper") == ParseWrapper(ad).value && IsInstance(Field(built, "wrapper"), "Wrapper")
            && Field(built, "inline") == VNone)
      && (!Truthy(Read(Wrapper, ad).value) ==>
            Field(built, "inline") == ParseInline(ad).value && Field(built, "wrapper") == VNone)
  {
    ParseXmlDispatch(version, ad);
    var id := Read(Id, ad).value;
    if Truthy(Read(Wrapper, ad).value) {
      ParseXmlWrapperAd(version, id, ParseWrapper(ad).value);
      ParseWrapperOutcome(ad);
    } else {
      ParseXmlInlineAd(version, id, ParseInline(ad).value);
    }
  }

  lemma ParseXmlWrapperAd(version: Value, id: Value, w: Value)
    requires MakeVast(version, AdMakeWrapper(id, w)).Parsed?
    ensures version == VStr("2.0") && id != VNone
    ensures var vast := MakeVast(version, AdMakeWrapper(id, w)).value;
      var built := Field(vast, "ad");
      && IsInstance(vast, "Vast") && Field(vast, "version") == version && IsInstance(built, "Ad")
      && Field(built, "id") == VStr(PyStr(id)) && Field(built, "wrapper") == w && Field(built, "inline") == VNone
  {
    MakeVastParsed(version, AdMakeWrapper(id, w));
    AdMakeWrapperOrInline(id, w);
    AdMakeFields(id, w, VNone);
  }

  lemma ParseXmlInlineAd(version: Value, id: Value, i: Value)
    requires MakeVast(version, AdMakeInline(id, i)).Parsed?
    ensures version == VStr("2.0") && id != VNone
    ensures var vast := MakeVast(version, AdMakeInline(id, i)).value;
      var built := Field(vast, "ad");
      && IsInstance(vast, "Vast") && Field(vast, "version") == version && IsInstance(built, "Ad")
      && Field(built, "id") == VStr(PyStr(id)) && Field(built, "inline") == i && Field(built, "wrapper") == VNone
  {
    MakeVastParsed(version, AdMakeInline(id, i));
    AdMakeWrapperOrInline(id, i);
    AdMakeFields(id, VNone, i);
  }
}
