/** The `_ParsedInLine` walker over a decoded VAST tag tree, which both parser modules
    define identically: the linear creatives of the InLine element, their media files,
    the first duration, and the three groupings of media files by mime type. Also the
    outcome type of the two parsers.

    A generator is modelled by what draining it produces: the items it yields, then
    either normal exhaustion or the exception that stops it. Because generators are lazy,
    an exception raised while looking for the next item only surfaces after the items
    before it have been consumed. */
module TreeWalk {
  import opened PyValues
  import opened Sorting
  import opened ModelsV2

  datatype Stream = Stream(items: seq<Value>, failure: Option<PyExc>)

  /** Running one generator after another, as a nested `for` loop does. */
  function Then(a: Stream, b: Stream): Stream
  {
    if a.failure.Some? then a else Stream(a.items + b.items, b.failure)
  }

  /** What a parser either returns or raises: ParseError when the ad is neither an inline
      nor a wrapper ad, the refusal of a model's `make`, or a built-in exception. */
  datatype ParseFailure = NoAdKind | MakeFailed(entity: string, outcome: EntityOutcome) | Uncaught(exc: PyExc)

  datatype Parse<T> = Parsed(value: T) | Failed(failure: ParseFailure)

  // ---------------------------------------------------------------------------
  // _ParsedInLine.__init__

  datatype ParsedInLine = ParsedInLine(root: Value, inline: Value)

  /** `_ParsedInLine(root)`: keeps the root and its InLine element, root["VAST"]["Ad"]
      ["InLine"], where a missing Ad or InLine counts as an empty map. */
  function ParsedInLineOf(root: Value): (r: Result<ParsedInLine>)
    ensures r.Ok? ==> r.value.root == root
    ensures !root.VDict? ==> r == Err(TypeError)
    ensures root.VDict? && !HasKey(root.entries, "VAST") ==> r == Err(KeyError)
    ensures (Subscript(root, "VAST").Ok? && Subscript(root, "VAST").value.VDict?
             && !HasKey(Subscript(root, "VAST").value.entries, "Ad")) ==> r == Ok(ParsedInLine(root, VDict([])))
  {
    match Subscript(root, "VAST")
    case Err(e) => Err(e)
    case Ok(vast) =>
      match DictGet(vast, "Ad", VDict([]))
      case Err(e) => Err(e)
      case Ok(ad) =>
        match DictGet(ad, "InLine", VDict([]))
        case Err(e) => Err(e)
        case Ok(inline) => Ok(ParsedInLine(root, inline))
  }

  // ---------------------------------------------------------------------------
  // creatives, media_files, durations, duration

  /** The "Linear" child of each creative that has one, in order. */
  function LinearChildren(creatives: seq<Value>): (s: Stream)
    decreases |creatives|
  {
    if creatives == [] then Stream([], None)
    else
      var first := creatives[0];
      match Contains(first, "Linear")
      case Err(e) => Stream([], Some(e))
      case Ok(has) =>
        if !has then LinearChildren(creatives[1..])
        else
          match Subscript(first, "Linear")
          case Err(e) => Stream([], Some(e))
          case Ok(linear) => Then(Stream([linear], None), LinearChildren(creatives[1..]))
  }

  /** `creatives`: the linear creatives under InLine["Creatives"], {} when absent. */
  function Creatives(p: ParsedInLine): Stream
  {
    match DictGet(p.inline, "Creatives", VDict([]))
    case Err(e) => Stream([], Some(e))
    case Ok(creatives) =>
      match DictValues(creatives)
      case Err(e) => Stream([], Some(e))
      case Ok(values) => LinearChildren(values)
  }

  /** What `for media_file in creative.get("MediaFiles", {}).get("MediaFile")` visits. A
      creative without MediaFiles, or without a MediaFile inside them, leaves None to
      iterate, which raises TypeError. */
  function MediaFileList(creative: Value): Stream
  {
    match DictGet(creative, "MediaFiles", VDict([]))
    case Err(e) => Stream([], Some(e))
    case Ok(files) =>
      match DictGet(files, "MediaFile", VNone)
      case Err(e) => Stream([], Some(e))
      case Ok(list) =>
        match Iterate(list)
        case Err(e) => Stream([], Some(e))
        case Ok(items) => Stream(items, None)
  }

  function MediaFilesOf(creatives: seq<Value>, rest: Option<PyExc>): Stream
    decreases |creatives|
  {
    if creatives == [] then Stream([], rest)
    else Then(MediaFileList(creatives[0]), MediaFilesOf(creatives[1..], rest))
  }

  /** `media_files`: the media files of each linear creative, in order. */
  function MediaFiles(p: ParsedInLine): Stream
  {
    MediaFilesOf(Creatives(p).items, Creatives(p).failure)
  }

  /** `duration`: `next(durations, None)`, the Duration of the first linear creative, or
      None when there is no linear creative. Only the first creative is looked for, so a
      failure further on is never reached. */
  function Duration(p: ParsedInLine): (r: Result<Value>)
    ensures Creatives(p).items != [] ==> r == Subscript(Creatives(p).items[0], "Duration")
    ensures Creatives(p) == Stream([], None) ==> r == Ok(VNone)
    ensures Creatives(p).items == [] && Creatives(p).failure.Some? ==> r == Err(Creatives(p).failure.value)
  {
    var creatives := Creatives(p);
    if creatives.items != [] then Subscript(creatives.items[0], "Duration")
    else match creatives.failure
      case Some(e) => Err(e)
      case None => Ok(VNone)
  }

  /** The walk over creatives distributes over concatenation: the linear children of
      `a + b` are those of `a` followed by those of `b`, unless `a` already fails. */
  lemma {:induction false} LinearChildrenConcat(a: seq<Value>, b: seq<Value>)
    ensures LinearChildren(a + b) == Then(LinearChildren(a), LinearChildren(b))
    decreases |a|
  {
    if a == [] {
      assert a + b == b;
    } else {
      assert (a + b)[0] == a[0] && (a + b)[1..] == a[1..] + b;
      LinearChildrenConcat(a[1..], b);
    }
  }

  /** One creative on its own: its Linear child when it is a dict that has one, nothing
      for a dict without one, and a failure for anything else whose `in` test or lookup
      raises. */
  lemma LinearChildrenOne(c: Value)
    ensures c.VDict? && HasKey(c.entries, "Linear") ==>
      LinearChildren([c]) == Stream([Lookup(c.entries, "Linear").value], None)
    ensures c.VDict? && !HasKey(c.entries, "Linear") ==> LinearChildren([c]) == Stream([], None)
    ensures !(c.VDict? || c.VStr? || c.VList? || c.VTuple?) ==> LinearChildren([c]) == Stream([], Some(TypeError))
  {
    assert [c][1..] == [];
  }

  lemma ThenAssociative(a: Stream, b: Stream, c: Stream)
    ensures Then(Then(a, b), c) == Then(a, Then(b, c))
  {
    assert (a.items + b.items) + c.items == a.items + (b.items + c.items);
  }

  /** Likewise the media files of `a + b` are those of `a`, then those of `b`. */
  lemma {:induction false} MediaFilesConcat(a: seq<Value>, b: seq<Value>, rest: Option<PyExc>)
    ensures MediaFilesOf(a + b, rest) == Then(MediaFilesOf(a, None), MediaFilesOf(b, rest))
    decreases |a|
  {
    if a == [] {
      assert a + b == b;
    } else {
      assert (a + b)[0] == a[0] && (a + b)[1..] == a[1..] + b;
      MediaFilesConcat(a[1..], b, rest);
      ThenAssociative(MediaFileList(a[0]), MediaFilesOf(a[1..], None), MediaFilesOf(b, rest));
    }
  }

  /** A linear creative's media files are its MediaFile list; a creative missing either
      level makes the walk raise TypeError. */
  lemma MediaFileListOf(c: Value)
    ensures c.VDict? && Subscript(c, "MediaFiles").Ok? && Subscript(c, "MediaFiles").value.VDict?
            && Subscript(Subscript(c, "MediaFiles").value, "MediaFile").Ok?
            && Subscript(Subscript(c, "MediaFiles").value, "MediaFile").value.VList? ==>
      MediaFileList(c) == Stream(Subscript(Subscript(c, "MediaFiles").value, "MediaFile").value.items, None)
    ensures c.VDict? && !HasKey(c.entries, "MediaFiles") ==> MediaFileList(c) == Stream([], Some(TypeError))
  {
  }

  /** The creatives the walk looks at are the values of InLine["Creatives"]: none when the
      key is absent, and AttributeError when InLine or its Creatives is not a dict. */
  lemma CreativesOfTree(p: ParsedInLine)
    ensures p.inline.VDict? && !HasKey(p.inline.entries, "Creatives") ==> Creatives(p) == Stream([], None)
    ensures Subscript(p.inline, "Creatives").Ok? && Subscript(p.inline, "Creatives").value.VDict? ==>
      Creatives(p) == LinearChildren(ValuesOf(Subscript(p.inline, "Creatives").value.entries))
    ensures Subscript(p.inline, "Creatives").Ok? && !Subscript(p.inline, "Creatives").value.VDict? ==>
      Creatives(p) == Stream([], Some(AttributeError))
    ensures !p.inline.VDict? ==> Creatives(p) == Stream([], Some(AttributeError))
  {
  }

  /** A creative the walk passes over: its `"Linear" in v` test is False. */
  predicate SkipsLinear(c: Value)
  {
    Contains(c, "Linear") == Ok(false)
  }

  /** Creatives that are all passed over yield nothing and raise nothing. */
  lemma {:induction false} SkippedCreatives(cs: seq<Value>)
    requires forall j :: 0 <= j < |cs| ==> SkipsLinear(cs[j])
    ensures LinearChildren(cs) == Stream([], None)
    decreases |cs|
  {
    if cs != [] {
      assert forall j :: 0 <= j < |cs[1..]| ==> cs[1..][j] == cs[j + 1];
      SkippedCreatives(cs[1..]);
    }
  }

  /** Creatives that are passed over can be dropped from the front of the walk: it goes
      straight to creative `i` when every creative before it is passed over. */
  lemma {:induction false} SkipTo(cs: seq<Value>, i: int)
    requires 0 <= i <= |cs|
    requires forall j :: 0 <= j < i ==> SkipsLinear(cs[j])
    ensures LinearChildren(cs) == LinearChildren(cs[i..])
    decreases i
  {
    if i > 0 {
      assert SkipsLinear(cs[0]);
      assert LinearChildren(cs) == LinearChildren(cs[1..]);
      assert forall j :: 0 <= j < i - 1 ==> cs[1..][j] == cs[j + 1];
      SkipTo(cs[1..], i - 1);
      assert cs[1..][i - 1..] == cs[i..];
    }
  }

  /** A walk starting at a creative that has a Linear child yields that child first. */
  lemma HeadLinear(cs: seq<Value>)
    requires cs != [] && cs[0].VDict? && HasKey(cs[0].entries, "Linear")
    ensures LinearChildren(cs).items != []
    ensures LinearChildren(cs).items[0] == Lookup(cs[0].entries, "Linear").value
  {
    assert Subscript(cs[0], "Linear") == Ok(Lookup(cs[0].entries, "Linear").value);
  }

  /** The first Linear child of the walk is that of the first creative that has one,
      provided every creative before it is passed over. */
  lemma FirstLinearChild(cs: seq<Value>, i: int)
    requires 0 <= i < |cs| && cs[i].VDict? && HasKey(cs[i].entries, "Linear")
    requires forall j :: 0 <= j < i ==> SkipsLinear(cs[j])
    ensures LinearChildren(cs).items != []
    ensures LinearChildren(cs).items[0] == Lookup(cs[i].entries, "Linear").value
  {
    SkipTo(cs, i);
    assert cs[i..][0] == cs[i];
    HeadLinear(cs[i..]);
  }

  /** `duration` is the Duration of the Linear child of the first creative that has one,
      provided every creative before it is passed over. The creatives after it are never
      looked at, so whatever they hold, failures included, does not change the result. */
  lemma DurationOfFirstLinear(p: ParsedInLine, cs: seq<Value>, i: int)
    requires Creatives(p) == LinearChildren(cs)
    requires 0 <= i < |cs| && cs[i].VDict? && HasKey(cs[i].entries, "Linear")
    requires forall j :: 0 <= j < i ==> SkipsLinear(cs[j])
    ensures Duration(p) == Subscript(Lookup(cs[i].entries, "Linear").value, "Duration")
  {
    FirstLinearChild(cs, i);
  }

  /** Without any Linear child, `next(durations, None)` gives None. */
  lemma DurationWithoutLinear(p: ParsedInLine, cs: seq<Value>)
    requires Creatives(p) == LinearChildren(cs)
    requires forall j :: 0 <= j < |cs| ==> SkipsLinear(cs[j])
    ensures Duration(p) == Ok(VNone)
  {
    SkippedCreatives(cs);
  }

  /** A creative whose `in` test raises (one that is neither a dict, a text nor a list)
      ends the walk with TypeError before any Linear child after it. */
  lemma FailingCreative(cs: seq<Value>, i: int)
    requires 0 <= i < |cs| && !(cs[i].VDict? || cs[i].VStr? || cs[i].VList? || cs[i].VTuple?)
    requires forall j :: 0 <= j < i ==> SkipsLinear(cs[j])
    ensures LinearChildren(cs) == Stream([], Some(TypeError))
  {
    SkipTo(cs, i);
    assert cs[i..][0] == cs[i];
  }

  /** Such a creative before the first Linear child makes `duration` raise TypeError,
      whatever follows. */
  lemma DurationFailsFirst(p: ParsedInLine, cs: seq<Value>, i: int)
    requires Creatives(p) == LinearChildren(cs)
    requires 0 <= i < |cs| && !(cs[i].VDict? || cs[i].VStr? || cs[i].VList? || cs[i].VTuple?)
    requires forall j :: 0 <= j < i ==> SkipsLinear(cs[j])
    ensures Duration(p) == Err(TypeError)
  {
    FailingCreative(cs, i);
  }

  /** With InLine or its Creatives not a dict, `duration` raises AttributeError. */
  lemma DurationOfMalformedInline(p: ParsedInLine)
    requires !p.inline.VDict? || (Subscript(p.inline, "Creatives").Ok? && !Subscript(p.inline, "Creatives").value.VDict?)
    ensures Duration(p) == Err(AttributeError)
  {
    CreativesOfTree(p);
  }

  // ---------------------------------------------------------------------------
  // mimetypes

  /** The @type of each media file, up to the first file that has none or whose @type
      cannot be put in a set (the walk stops there with that exception). */
  function TypesOf(files: seq<Value>): Stream
  {
    if files == [] then Stream([], None)
    else
      var before := TypesOf(files[..|files| - 1]);
      if before.failure.Some? then before
      else
        match Subscript(files[|files| - 1], "@type")
        case Err(e) => Stream(before.items, Some(e))
        case Ok(t) => if Hashable(t) then Stream(before.items + [t], None) else Stream(before.items, Some(TypeError))
  }

  /** The first occurrence of each value, in order. */
  function Dedup(xs: seq<Value>): seq<Value>
  {
    if xs == [] then []
    else
      var d := Dedup(xs[..|xs| - 1]);
      if xs[|xs| - 1] in xs[..|xs| - 1] then d else d + [xs[|xs| - 1]]
  }

  /** What draining `mimetypes` produces, from what draining `media_files` produces. */
  function MimetypesOf(files: Stream): Stream
  {
    var types := TypesOf(files.items);
    Stream(Dedup(types.items), if types.failure.Some? then types.failure else files.failure)
  }

  lemma TypesOfSnoc(files: seq<Value>, i: int)
    requires 0 <= i < |files|
    ensures files[..i + 1][..i] == files[..i]
    ensures TypesOf(files[..i + 1]) ==
      var before := TypesOf(files[..i]);
      if before.failure.Some? then before
      else
        match Subscript(files[i], "@type")
        case Err(e) => Stream(before.items, Some(e))
        case Ok(t) => if Hashable(t) then Stream(before.items + [t], None) else Stream(before.items, Some(TypeError))
  {
    assert files[..i + 1][..i] == files[..i];
  }

  /** Once the walk has stopped, later files change nothing. */
  lemma {:induction false} TypesOfStays(files: seq<Value>, i: int)
    requires 0 <= i <= |files|
    requires TypesOf(files[..i]).failure.Some?
    ensures TypesOf(files) == TypesOf(files[..i])
    decreases |files| - i
  {
    if i < |files| {
      TypesOfSnoc(files, i);
      TypesOfStays(files, i + 1);
    } else {
      assert files[..i] == files;
    }
  }

  /** `mimetypes`: a generator that keeps a set of the types seen so far and yields each
      type not yet in it. */
  method Mimetypes(files: Stream) returns (out: Stream)
    ensures out == MimetypesOf(files)
  {
    var seen: set<Value> := {};
    var yielded: seq<Value> := [];
    ghost var types: seq<Value> := [];
    var i := 0;
    while i < |files.items|
      invariant 0 <= i <= |files.items|
      invariant TypesOf(files.items[..i]) == Stream(types, None)
      invariant yielded == Dedup(types)
      invariant forall x :: x in seen <==> x in types
    {
      TypesOfSnoc(files.items, i);
      var mimetype := Subscript(files.items[i], "@type");
      if mimetype.Err? {
        TypesOfStays(files.items, i + 1);
        return Stream(yielded, Some(mimetype.exc));
      }
      if !Hashable(mimetype.value) {
        TypesOfStays(files.items, i + 1);
        return Stream(yielded, Some(TypeError));
      }
      assert (types + [mimetype.value])[..|types|] == types;
      if mimetype.value !in seen {
        yielded := yielded + [mimetype.value];
      }
      seen := seen + {mimetype.value};
      types := types + [mimetype.value];
      i := i + 1;
    }
    assert files.items[..i] == files.items;
    out := Stream(yielded, files.failure);
  }

  predicate Distinct(xs: seq<Value>)
  {
    forall i, j :: 0 <= i < j < |xs| ==> xs[i] != xs[j]
  }

  function FirstIndex(xs: seq<Value>, x: Value): (k: nat)
    requires x in xs
    ensures k < |xs| && xs[k] == x && x !in xs[..k]
  {
    if xs[0] == x then 0
    else
      assert xs == [xs[0]] + xs[1..];
      var k := 1 + FirstIndex(xs[1..], x);
      assert xs[..k] == [xs[0]] + xs[1..][..k - 1];
      k
  }

  lemma {:induction false} FirstIndexOfPrefix(xs: seq<Value>, y: Value, x: Value)
    requires x in xs
    ensures x in xs + [y] && FirstIndex(xs + [y], x) == FirstIndex(xs, x)
  {
    assert (xs + [y])[0] == xs[0];
    if xs[0] != x {
      assert (xs + [y])[1..] == xs[1..] + [y];
      FirstIndexOfPrefix(xs[1..], y, x);
    }
  }

  /** `mimetypes` yields every type it walks over exactly once, and in the order of their
      first occurrence. */
  lemma {:induction false} DedupFirstOccurrences(xs: seq<Value>)
    ensures Distinct(Dedup(xs))
    ensures forall x :: x in Dedup(xs) <==> x in xs
    ensures forall i, j :: 0 <= i < j < |Dedup(xs)| ==> FirstIndex(xs, Dedup(xs)[i]) < FirstIndex(xs, Dedup(xs)[j])
  {
    if xs != [] {
      var init, y := xs[..|xs| - 1], xs[|xs| - 1];
      assert xs == init + [y];
      DedupFirstOccurrences(init);
      var d := Dedup(init);
      forall x | x in init ensures FirstIndex(xs, x) == FirstIndex(init, x) {
        FirstIndexOfPrefix(init, y, x);
      }
      if y !in init {
        assert forall k :: 0 <= k < |init| ==> xs[k] == init[k];
        assert FirstIndex(xs, y) == |init|;
        forall i | 0 <= i < |d| ensures FirstIndex(xs, d[i]) < |init| {
          assert d[i] in init;
        }
        assert Dedup(xs) == d + [y];
      }
    }
  }

  /** What the mime types of a drained `media_files` are: the distinct types of the files
      it yields, in first-seen order, when every file has a hashable @type. */
  lemma MimetypesDistinct(files: Stream)
    ensures Distinct(MimetypesOf(files).items)
    ensures forall x :: x in MimetypesOf(files).items <==> x in TypesOf(files.items).items
  {
    DedupFirstOccurrences(TypesOf(files.items).items);
  }

  // ---------------------------------------------------------------------------
  // A loop over media files that stops at the first exception

  function Scan<S>(files: seq<Value>, init: S, step: (S, Value) -> Result<S>): Result<S>
  {
    if files == [] then Ok(init)
    else
      match Scan(files[..|files| - 1], init, step)
      case Err(e) => Err(e)
      case Ok(s) => step(s, files[|files| - 1])
  }

  lemma ScanSnoc<S>(files: seq<Value>, i: int, init: S, step: (S, Value) -> Result<S>)
    requires 0 <= i < |files|
    ensures Scan(files[..i + 1], init, step) ==
      match Scan(files[..i], init, step)
      case Err(e) => Err(e)
      case Ok(s) => step(s, files[i])
  {
    assert files[..i + 1][..i] == files[..i];
  }

  lemma {:induction false} ScanStays<S>(files: seq<Value>, i: int, init: S, step: (S, Value) -> Result<S>)
    requires 0 <= i <= |files|
    requires Scan(files[..i], init, step).Err?
    ensures Scan(files, init, step) == Scan(files[..i], init, step)
    decreases |files| - i
  {
    if i < |files| {
      ScanSnoc(files, i, init, step);
      ScanStays(files, i + 1, init, step);
    } else {
      assert files[..i] == files;
    }
  }

  /** A defaultdict lookup: the list stored under `k`, or a fresh empty one. */
  function Listed<T>(m: map<Value, seq<T>>, k: Value): seq<T>
  {
    if k in m then m[k] else []
  }

  // ---------------------------------------------------------------------------
  // mime_to_bitrates

  /** One pass of the first loop of `mime_to_bitrates`: a file with a truthy @bitrate
      appends `int(bitrate)` to the list of its @type. */
  function AddBitrate(m: map<Value, seq<int>>, file: Value): Result<map<Value, seq<int>>>
  {
    match Subscript(file, "@type")
    case Err(e) => Err(e)
    case Ok(t) =>
      match DictGet(file, "@bitrate", VNone)
      case Err(e) => Err(e)
      case Ok(b) =>
        if !Truthy(b) then Ok(m)
        else if !Hashable(t) then Err(TypeError)
        else
          match PyInt(b)
          case Raises(e) => Err(e)
          case Converted(n) => Ok(m[t := Listed(m, t) + [n.i]])
  }

  function SortedBitrates(m: map<Value, seq<int>>): map<Value, seq<int>>
  {
    map k | k in m :: SortInts(m[k])
  }

  /** What `mime_to_bitrates` returns or raises, given what draining `media_files`
      produces. */
  function MimeToBitratesOf(files: Stream): Result<map<Value, seq<int>>>
  {
    match Scan(files.items, map[], AddBitrate)
    case Err(e) => Err(e)
    case Ok(m) => if files.failure.Some? then Err(files.failure.value) else Ok(SortedBitrates(m))
  }

  method MimeToBitrates(files: Stream) returns (r: Result<map<Value, seq<int>>>)
    ensures r == MimeToBitratesOf(files)
  {
    var mimeToBitrates: map<Value, seq<int>> := map[];
    var i := 0;
    while i < |files.items|
      invariant 0 <= i <= |files.items|
      invariant Scan(files.items[..i], map[], AddBitrate) == Ok(mimeToBitrates)
    {
      ScanSnoc(files.items, i, map[], AddBitrate);
      var file := files.items[i];
      var failed := false;
      var mimetype := Subscript(file, "@type");
      if mimetype.Err? {
        r := Err(mimetype.exc);
        failed := true;
      } else {
        var bitrate := DictGet(file, "@bitrate", VNone).value;
        if Truthy(bitrate) {
          if !Hashable(mimetype.value) {
            r := Err(TypeError);
            failed := true;
          } else {
            var n := PyInt(bitrate);
            if n.Raises? {
              r := Err(n.exc);
              failed := true;
            } else {
              mimeToBitrates := mimeToBitrates[mimetype.value := Listed(mimeToBitrates, mimetype.value) + [n.value.i]];
            }
          }
        }
      }
      if failed {
        ScanStays(files.items, i + 1, map[], AddBitrate);
        return;
      }
      i := i + 1;
    }
    assert files.items[..i] == files.items;
    if files.failure.Some? {
      return Err(files.failure.value);
    }
    var sorted := SortEach(mimeToBitrates);
    r := Ok(sorted);
  }

  /** The second loop of `mime_to_bitrates`: `mime_to_bitrates[k].sort()` for every key. */
  method SortEach(unsorted: map<Value, seq<int>>) returns (m: map<Value, seq<int>>)
    ensures m == SortedBitrates(unsorted)
  {
    m := unsorted;
    var keys := m.Keys;
    while keys != {}
      invariant keys <= unsorted.Keys && m.Keys == unsorted.Keys
      invariant forall k :: k in unsorted ==> m[k] == if k in keys then unsorted[k] else SortInts(unsorted[k])
      decreases keys
    {
      var k :| k in keys;
      m := m[k := SortInts(m[k])];
      keys := keys - {k};
    }
  }

  /** The int bitrates of the files of type `k` that have a truthy @bitrate, in file
      order. */
  function BitratesFor(files: seq<Value>, k: Value): seq<int>
  {
    if files == [] then []
    else
      var f := files[|files| - 1];
      BitratesFor(files[..|files| - 1], k) +
        if Subscript(f, "@type") == Ok(k) && DictGet(f, "@bitrate", VNone).Ok?
           && Truthy(DictGet(f, "@bitrate", VNone).value) && PyInt(DictGet(f, "@bitrate", VNone).value).Converted?
        then [PyInt(DictGet(f, "@bitrate", VNone).value).value.i]
        else []
  }

  /** The accumulating loop keeps, per type, exactly that type's bitrates. */
  lemma {:induction false} ScanBitrates(files: seq<Value>)
    requires Scan(files, map[], AddBitrate).Ok?
    ensures var m := Scan(files, map[], AddBitrate).value;
      forall k :: (k in m <==> BitratesFor(files, k) != []) && (k in m ==> m[k] == BitratesFor(files, k))
  {
    if files != [] {
      var init := files[..|files| - 1];
      ScanBitrates(init);
    }
  }

  /** `mime_to_bitrates` maps exactly the types that have a file with a truthy bitrate,
      each to the ascending sort of that type's bitrates, duplicates kept; files without a
      bitrate contribute nothing. */
  lemma MimeToBitratesContents(files: Stream)
    requires MimeToBitratesOf(files).Ok?
    ensures var m := MimeToBitratesOf(files).value;
      forall k :: (k in m <==> BitratesFor(files.items, k) != [])
        && (k in m ==> SortedInts(m[k]) && multiset(m[k]) == multiset(BitratesFor(files.items, k)))
  {
    ScanBitrates(files.items);
  }

  /** A file the first loop of `mime_to_bitrates` passes without raising: it has a
      @type, and when its @bitrate is truthy the type is hashable and the bitrate an int. */
  predicate BitrateFileOk(f: Value)
  {
    && Subscript(f, "@type").Ok?
    && var b := DictGet(f, "@bitrate", VNone).value;
       Truthy(b) ==> Hashable(Subscript(f, "@type").value) && PyInt(b).Converted?
  }

  lemma {:induction false} ScanBitratesOk(files: seq<Value>)
    ensures Scan(files, map[], AddBitrate).Ok? <==> forall i :: 0 <= i < |files| ==> BitrateFileOk(files[i])
  {
    if files != [] {
      var init := files[..|files| - 1];
      ScanBitratesOk(init);
      assert forall i :: 0 <= i < |init| ==> init[i] == files[i];
    }
  }

  /** The walk fails on a media-files walk that fails, and succeeds when every file has a
      hashable @type and every truthy bitrate is an integer. */
  lemma MimeToBitratesSucceeds(files: Stream)
    ensures MimeToBitratesOf(files).Ok? <==>
      files.failure.None? && forall i :: 0 <= i < |files.items| ==> BitrateFileOk(files.items[i])
  {
    ScanBitratesOk(files.items);
  }

  // ---------------------------------------------------------------------------
  // mime_to_sizes

  /** One pass of the first loop of `mime_to_sizes`: a file with a truthy @width and a
      truthy @height adds `(int(width), int(height))` to the set of its @type. Each set is
      kept as the list of what was added to it. */
  function AddSize(m: map<Value, seq<(int, int)>>, file: Value): Result<map<Value, seq<(int, int)>>>
  {
    match Subscript(file, "@type")
    case Err(e) => Err(e)
    case Ok(t) =>
      match DictGet(file, "@width", VNone)
      case Err(e) => Err(e)
      case Ok(w) =>
        match DictGet(file, "@height", VNone)
        case Err(e) => Err(e)
        case Ok(h) =>
          if !(Truthy(w) && Truthy(h)) then Ok(m)
          else
            match PyInt(w)
            case Raises(e) => Err(e)
            case Converted(width) =>
              match PyInt(h)
              case Raises(e) => Err(e)
              case Converted(height) =>
                if !Hashable(t) then Err(TypeError)
                else Ok(m[t := Listed(m, t) + [(width.i, height.i)]])
  }

  function SortedSizes(m: map<Value, seq<(int, int)>>): map<Value, seq<(int, int)>>
  {
    map k | k in m :: SortDistinct(m[k])
  }

  function MimeToSizesOf(files: Stream): Result<map<Value, seq<(int, int)>>>
  {
    match Scan(files.items, map[], AddSize)
    case Err(e) => Err(e)
    case Ok(m) => if files.failure.Some? then Err(files.failure.value) else Ok(SortedSizes(m))
  }

  method MimeToSizes(files: Stream) returns (r: Result<map<Value, seq<(int, int)>>>)
    ensures r == MimeToSizesOf(files)
  {
    var mimeToSizes: map<Value, seq<(int, int)>> := map[];
    var i := 0;
    while i < |files.items|
      invariant 0 <= i <= |files.items|
      invariant Scan(files.items[..i], map[], AddSize) == Ok(mimeToSizes)
    {
      ScanSnoc(files.items, i, map[], AddSize);
      var file := files.items[i];
      var failed := false;
      var mimetype := Subscript(file, "@type");
      if mimetype.Err? {
        r := Err(mimetype.exc);
        failed := true;
      } else {
        var width, height := DictGet(file, "@width", VNone).value, DictGet(file, "@height", VNone).value;
        if Truthy(width) && Truthy(height) {
          var w, h := PyInt(width), PyInt(height);
          if w.Raises? || h.Raises? {
            r := Err(if w.Raises? then w.exc else h.exc);
            failed := true;
          } else if !Hashable(mimetype.value) {
            r := Err(TypeError);
            failed := true;
          } else {
            mimeToSizes := mimeToSizes[mimetype.value := Listed(mimeToSizes, mimetype.value) + [(w.value.i, h.value.i)]];
          }
        }
      }
      if failed {
        ScanStays(files.items, i + 1, map[], AddSize);
        return;
      }
      i := i + 1;
    }
    assert files.items[..i] == files.items;
    if files.failure.Some? {
      return Err(files.failure.value);
    }
    var sorted := SortEachDistinct(mimeToSizes);
    r := Ok(sorted);
  }

  /** The second loop of `mime_to_sizes`: each set becomes its sorted list. */
  method SortEachDistinct(unsorted: map<Value, seq<(int, int)>>) returns (m: map<Value, seq<(int, int)>>)
    ensures m == SortedSizes(unsorted)
  {
    m := unsorted;
    var keys := m.Keys;
    while keys != {}
      invariant keys <= unsorted.Keys && m.Keys == unsorted.Keys
      invariant forall k :: k in unsorted ==> m[k] == if k in keys then unsorted[k] else SortDistinct(unsorted[k])
      decreases keys
    {
      var k :| k in keys;
      m := m[k := SortDistinct(m[k])];
      keys := keys - {k};
    }
  }

  /** The (width, height) of each file of type `k` whose width and height are both
      truthy, in file order. */
  function SizesFor(files: seq<Value>, k: Value): seq<(int, int)>
  {
    if files == [] then []
    else
      var f := files[|files| - 1];
      var w, h := DictGet(f, "@width", VNone), DictGet(f, "@height", VNone);
      SizesFor(files[..|files| - 1], k) +
        if Subscript(f, "@type") == Ok(k) && w.Ok? && h.Ok? && Truthy(w.value) && Truthy(h.value)
           && PyInt(w.value).Converted? && PyInt(h.value).Converted?
        then [(PyInt(w.value).value.i, PyInt(h.value).value.i)]
        else []
  }

  lemma {:induction false} ScanSizes(files: seq<Value>)
    requires Scan(files, map[], AddSize).Ok?
    ensures var m := Scan(files, map[], AddSize).value;
      forall k :: (k in m <==> SizesFor(files, k) != []) && (k in m ==> m[k] == SizesFor(files, k))
  {
    if files != [] {
      var init := files[..|files| - 1];
      ScanSizes(init);
    }
  }

  /** `mime_to_sizes` maps exactly the types that have a file with both dimensions, each
      to its sizes ascending (by width, then height), each size once. */
  lemma MimeToSizesContents(files: Stream)
    requires MimeToSizesOf(files).Ok?
    ensures var m := MimeToSizesOf(files).value;
      forall k :: (k in m <==> SizesFor(files.items, k) != [])
        && (k in m ==> StrictlySorted(m[k]) && forall p :: p in m[k] <==> p in SizesFor(files.items, k))
  {
    ScanSizes(files.items);
  }

  /** A file the first loop of `mime_to_sizes` passes without raising: it has a @type, and
      when its @width and @height are both truthy they are ints and the type is hashable. */
  predicate SizeFileOk(f: Value)
  {
    && Subscript(f, "@type").Ok?
    && var w, h := DictGet(f, "@width", VNone).value, DictGet(f, "@height", VNone).value;
       Truthy(w) && Truthy(h) ==> PyInt(w).Converted? && PyInt(h).Converted? && Hashable(Subscript(f, "@type").value)
  }

  lemma {:induction false} ScanSizesOk(files: seq<Value>)
    ensures Scan(files, map[], AddSize).Ok? <==> forall i :: 0 <= i < |files| ==> SizeFileOk(files[i])
  {
    if files != [] {
      var init := files[..|files| - 1];
      ScanSizesOk(init);
      assert forall i :: 0 <= i < |init| ==> init[i] == files[i];
    }
  }

  /** The walk fails on a media-files walk that fails, and succeeds when every file has a
      @type and every file with both dimensions has int dimensions and a hashable type. */
  lemma MimeToSizesSucceeds(files: Stream)
    ensures MimeToSizesOf(files).Ok? <==>
      files.failure.None? && forall i :: 0 <= i < |files.items| ==> SizeFileOk(files.items[i])
  {
    ScanSizesOk(files.items);
  }

  // ---------------------------------------------------------------------------
  // An empty tree

  /** A tree whose VAST element lacks Ad, whose Ad lacks InLine, or whose InLine lacks
      Creatives has no creatives, no media files, no mime types, empty groupings and no
      duration. */
  lemma EmptyTreeYieldsNothing(root: Value)
    requires Subscript(root, "VAST").Ok? && Subscript(root, "VAST").value.VDict?
    requires var vast := Subscript(root, "VAST").value;
      || !HasKey(vast.entries, "Ad")
      || (var ad := Subscript(vast, "Ad").value;
          ad.VDict? && (!HasKey(ad.entries, "InLine")
                        || (var inline := Subscript(ad, "InLine").value;
                            inline.VDict? && !HasKey(inline.entries, "Creatives"))))
    ensures ParsedInLineOf(root).Ok?
    ensures var p := ParsedInLineOf(root).value;
      && Creatives(p) == Stream([], None)
      && MediaFiles(p) == Stream([], None)
      && MimetypesOf(MediaFiles(p)) == Stream([], None)
      && MimeToBitratesOf(MediaFiles(p)) == Ok(map[])
      && MimeToSizesOf(MediaFiles(p)) == Ok(map[])
      && Duration(p) == Ok(VNone)
  {
    var p := ParsedInLineOf(root).value;
    assert ValuesOf([]) == [];
    assert Creatives(p) == Stream([], None);
    assert SortedBitrates(map[]) == map[];
    assert SortedSizes(map[]) == map[];
  }
}
