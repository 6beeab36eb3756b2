/** The parser in vast/parsers/xml_parser.py, from the decoded tree on: `_ParsedVast`
    (`from_xml_root` and `version`) and the dispatch of `from_xml_string` after
    decoding. Unlike `parse_xml`, `from_xml_root` is Inline-first and goes by the
    presence of the Inline and Wrapper keys, whatever their values.

    This module's `_parse_wrapper` is a parameter of `FromXmlString`, and
    `ParseWrapperAsWritten` is what the module passes; its `_parse_inline` returns None. */
module XmlParser {
  import opened PyValues
  import opened TreeWalk

  /** `_ParsedVast`: the root, and either the `_ParsedInLine` of the Inline element or
      the Wrapper element, the only field of its `_ParsedWrapper`. */
  datatype ParsedVast = ParsedVast(root: Value, inline: Option<ParsedInLine>, wrapper: Option<Value>)

  /** `_ParsedVast.from_xml_root`. */
  function FromXmlRoot(root: Value): (r: Parse<ParsedVast>)
    ensures r.Parsed? ==> r.value.root == root && (r.value.inline.Some? <==> r.value.wrapper.None?)
    ensures r.Failed? ==> r.failure.NoAdKind? || r.failure.Uncaught?
  {
    match Subscript(root, "VAST")
    case Err(e) => Failed(Uncaught(e))
    case Ok(vast) =>
      match DictGet(vast, "Ad", VDict([]))
      case Err(e) => Failed(Uncaught(e))
      case Ok(ad) =>
        match Contains(ad, "Inline")
        case Err(e) => Failed(Uncaught(e))
        case Ok(hasInline) =>
          if hasInline then
            match Subscript(ad, "Inline")
            case Err(e) => Failed(Uncaught(e))
            case Ok(inline) =>
              match ParsedInLineOf(inline)
              case Err(e) => Failed(Uncaught(e))
              case Ok(p) => Parsed(ParsedVast(root, Some(p), None))
          else
            match Contains(ad, "Wrapper")
            case Err(e) => Failed(Uncaught(e))
            case Ok(hasWrapper) =>
              if !hasWrapper then Failed(NoAdKind)
              else
                match Subscript(ad, "Wrapper")
                case Err(e) => Failed(Uncaught(e))
                case Ok(wrapper) => Parsed(ParsedVast(root, None, Some(wrapper)))
  }

  /** `_ParsedVast.version`: root["VAST"]["@version"]. */
  function Version(p: ParsedVast): Result<Value>
  {
    match Subscript(p.root, "VAST")
    case Err(e) => Err(e)
    case Ok(vast) => Subscript(vast, "@version")
  }

  /** This module's `_parse_wrapper` on the `_ParsedWrapper` of a Wrapper element. It reads
      `ad_system`, `vast_ad_tag_uri` and `ad_title` with `.get` on the element, and then
      `impression`, whose getter reads `self.wrapper`, an attribute `_ParsedWrapper` never
      sets. So it raises AttributeError, whatever the element is, before `Wrapper.make`
      is reached. */
  function ParseWrapperAsWritten(element: Value): (r: Parse<Value>)
    ensures r == Failed(Uncaught(AttributeError))
  {
    match DictGet(element, "AdSystem", VNone)
    case Err(e) => Failed(Uncaught(e))
    case Ok(_) =>
      match DictGet(element, "VASTAdTagURI", VNone)
      case Err(e) => Failed(Uncaught(e))
      case Ok(_) =>
        match DictGet(element, "AdTitle", VNone)
        case Err(e) => Failed(Uncaught(e))
        case Ok(_) => Failed(Uncaught(AttributeError))
  }

  /** `from_xml_string` after `xmltodict.parse`: `{"wrapper": _parse_wrapper(...)}` when
      the ad is a wrapper, else `{"inline": _parse_inline(...)}`, which is None. A
      `_ParsedWrapper` instance is always truthy. */
  function FromXmlString(root: Value, parseWrapper: Value -> Parse<Value>): (r: Parse<Value>)
    ensures r.Parsed? ==> FromXmlRoot(root).Parsed? && r.value.VDict? && |r.value.entries| == 1
    ensures r.Parsed? ==> (r.value.entries[0].0 == "wrapper" <==> FromXmlRoot(root).value.wrapper.Some?)
    ensures r.Parsed? ==> (r.value.entries[0].0 == "inline" <==> FromXmlRoot(root).value.wrapper.None?)
    ensures r.Parsed? && r.value.entries[0].0 == "inline" ==> r.value.entries[0].1 == VNone
    ensures FromXmlRoot(root).Failed? ==> r == Failed(FromXmlRoot(root).failure)
    ensures var p := FromXmlRoot(root);
      p.Parsed? && p.value.wrapper.None? ==> r == Parsed(VDict([("inline", VNone)]))
    ensures var p := FromXmlRoot(root);
      p.Parsed? && p.value.wrapper.Some? ==>
        var w := parseWrapper(p.value.wrapper.value);
        && (r.Parsed? <==> w.Parsed?)
        && (r.Parsed? ==> r.value == VDict([("wrapper", w.value)]))
        && (r.Failed? ==> r.failure == w.failure)
  {
    match FromXmlRoot(root)
    case Failed(f) => Failed(f)
    case Parsed(p) =>
      match p.wrapper
      case Some(wrapper) =>
        (match parseWrapper(wrapper)
         case Failed(f) => Failed(f)
         case Parsed(w) => Parsed(VDict([("wrapper", w)])))
      case None => Parsed(VDict([("inline", VNone)]))
  }

  // ---------------------------------------------------------------------------
  // Properties

  /** Inline first, by key presence: an Ad with an "Inline" key never yields the wrapper,
      whatever the key holds; without it a "Wrapper" key yields the wrapper; with neither,
      or without an Ad at all (read as {}), ParseError. */
  lemma FromXmlRootPrecedence(root: Value)
    requires Subscript(root, "VAST").Ok? && Subscript(root, "VAST").value.VDict?
    ensures var vast := Subscript(root, "VAST").value;
      var ad := DictGet(vast, "Ad", VDict([])).value;
      && (!HasKey(vast.entries, "Ad") ==> FromXmlRoot(root) == Failed(NoAdKind))
      && (ad.VDict? && HasKey(ad.entries, "Inline") ==>
            && (FromXmlRoot(root).Parsed? <==> ParsedInLineOf(Lookup(ad.entries, "Inline").value).Ok?)
            && (FromXmlRoot(root).Parsed? ==>
                  FromXmlRoot(root).value.inline == Some(ParsedInLineOf(Lookup(ad.entries, "Inline").value).value)))
      && (ad.VDict? && !HasKey(ad.entries, "Inline") && HasKey(ad.entries, "Wrapper") ==>
            FromXmlRoot(root) == Parsed(ParsedVast(root, None, Some(Lookup(ad.entries, "Wrapper").value))))
      && (ad.VDict? && !HasKey(ad.entries, "Inline") && !HasKey(ad.entries, "Wrapper") ==>
            FromXmlRoot(root) == Failed(NoAdKind))
  {
  }

  /** An empty Inline element (decoded as None) next to a Wrapper still wins, and then
      fails: `_ParsedInLine(None)` raises TypeError. */
  lemma EmptyInlineShadowsWrapper(root: Value, wrapper: Value)
    requires root == VDict([("VAST", VDict([("Ad", VDict([("Inline", VNone), ("Wrapper", wrapper)]))]))])
    ensures FromXmlRoot(root) == Failed(Uncaught(TypeError))
  {
    var ad := VDict([("Inline", VNone), ("Wrapper", wrapper)]);
    assert ad.entries[0].0 == "Inline";
    assert Subscript(root, "VAST").value == VDict([("Ad", ad)]);
  }

  /** What `from_xml_string` returns for a decoded document, in terms of its Ad element:
      an Ad holding an "Inline" key gives {"inline": None} once `_ParsedInLine` accepts
      the element, whatever Wrapper holds; without one, a "Wrapper" key gives
      {"wrapper": ...} of what `_parse_wrapper` makes of that element, or its failure; with
      neither key, or no Ad at all, ParseError. */
  lemma FromXmlStringOutcome(root: Value, parseWrapper: Value -> Parse<Value>)
    requires Subscript(root, "VAST").Ok? && Subscript(root, "VAST").value.VDict?
    ensures var vast := Subscript(root, "VAST").value;
      var ad := DictGet(vast, "Ad", VDict([])).value;
      var r := FromXmlString(root, parseWrapper);
      && (!HasKey(vast.entries, "Ad") ==> r == Failed(NoAdKind))
      && (ad.VDict? && HasKey(ad.entries, "Inline") ==>
            var p := ParsedInLineOf(Lookup(ad.entries, "Inline").value);
            && (p.Ok? ==> r == Parsed(VDict([("inline", VNone)])))
            && (p.Err? ==> r == Failed(Uncaught(p.exc))))
      && (ad.VDict? && !HasKey(ad.entries, "Inline") && HasKey(ad.entries, "Wrapper") ==>
            var w := parseWrapper(Lookup(ad.entries, "Wrapper").value);
            && (w.Parsed? ==> r == Parsed(VDict([("wrapper", w.value)])))
            && (w.Failed? ==> r == Failed(w.failure)))
      && (ad.VDict? && !HasKey(ad.entries, "Inline") && !HasKey(ad.entries, "Wrapper") ==>
            r == Failed(NoAdKind))
  {
    FromXmlRootPrecedence(root);
  }

  /** With its own `_parse_wrapper`, `from_xml_string` on a Wrapper document always raises
      AttributeError; only inline documents give a result. */
  lemma FromXmlStringWrapperRaises(root: Value)
    requires FromXmlRoot(root).Parsed?
    ensures FromXmlRoot(root).value.wrapper.Some? ==>
      FromXmlString(root, ParseWrapperAsWritten) == Failed(Uncaught(AttributeError))
    ensures FromXmlRoot(root).value.wrapper.None? ==>
      FromXmlString(root, ParseWrapperAsWritten) == Parsed(VDict([("inline", VNone)]))
  {
  }

  /** The version of a root that `from_xml_root` accepts is its VAST element's @version,
      and reading it raises KeyError when there is none. */
  lemma VersionOfParsed(root: Value)
    requires FromXmlRoot(root).Parsed?
    ensures var vast := Subscript(root, "VAST").value;
      && vast.VDict?
      && (Version(FromXmlRoot(root).value).Ok? <==> HasKey(vast.entries, "@version"))
      && (Version(FromXmlRoot(root).value).Ok? ==>
            Version(FromXmlRoot(root).value).value == Lookup(vast.entries, "@version").value)
      && (Version(FromXmlRoot(root).value).Err? ==> Version(FromXmlRoot(root).value).exc == KeyError)
  {
  }
}
