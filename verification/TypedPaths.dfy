/** The path of a typed HTTP tool: placeholders that fill exactly one segment each. */
module TypedPaths {
  import opened GoText
  import opened Json
  import opened Inputs
  import opened Percent
  import opened RawPaths
  import opened Template
  import opened FormatStrings

  // ----------------------------------------------------------------- load-time check

  predicate HasSeparator(text: Text) {
    '/' in text || '\\' in text
  }

  /** validHTTPToolPath. */
  predicate ValidToolPath(path: Text) {
    && IsRelativeForm(path)
    && forall i :: 0 <= i < |Split(path, '/')| ==>
         var segment := Split(path, '/')[i];
         Unescape(segment).Some? && !HasSeparator(Unescape(segment).value) && !Traverses(segment)
  }

  /** The whole segment is one placeholder. */
  predicate IsPlaceholder(segment: Text) {
    segment != [] && PlaceholderEnd(segment, 0) == Some(|segment|)
  }

  function PlaceholderName(segment: Text): Text {
    if |segment| >= 2 then segment[1..|segment| - 1] else []
  }

  /** The placeholder part of validHTTPTool, for one segment. */
  predicate ValidSegment(segment: Text, inputs: InputMap) {
    '{' in segment || '}' in segment ==>
      && IsPlaceholder(segment)
      && PlaceholderName(segment) in inputs
      && inputs[PlaceholderName(segment)].required
      && (inputs[PlaceholderName(segment)].kind.StringType? || inputs[PlaceholderName(segment)].kind.IntegerType?)
  }

  predicate ValidTypedPath(path: Text, inputs: InputMap) {
    && ValidToolPath(path)
    && forall i :: 0 <= i < |Split(path, '/')| ==> ValidSegment(Split(path, '/')[i], inputs)
  }

  /** A placeholder for a required string or integer, or a harmless text that is written encoded. */
  ghost predicate IsWritten(segment: Text, inputs: InputMap) {
    || (exists name ::
          && IsInputName(name) && segment == "{" + name + "}" && name in inputs && inputs[name].required
          && inputs[name].kind in {StringType, IntegerType})
    || (exists text :: IsHarmless(text) && segment == Escape(text, Segment))
  }

  lemma PlainStaysHarmless(segment: Text, k: nat)
    requires '%' !in segment
    ensures DecodedTimes(segment, k) == Some(segment)
  {
    UnescapePlain(segment);
    DecodingStops(segment, 0, k);
  }

  /** Everything that the check asks of one segment. */
  ghost predicate IsFine(segment: Text, inputs: InputMap) {
    && ValidSegment(segment, inputs) && !Traverses(segment)
    && Unescape(segment).Some? && !HasSeparator(Unescape(segment).value)
    && '/' !in segment && '?' !in segment && '#' !in segment && '\\' !in segment
  }

  lemma PlaceholderBytes(name: Text)
    requires IsInputName(name)
    ensures forall c :: c in "{" + name + "}" ==> c != '%' && c != '/' && c != '\\' && c != '?' && c != '#'
  {
  }

  lemma PlaceholderIsPlain(segment: Text)
    requires '%' !in segment && segment != "." && segment != ".."
    ensures Unescape(segment) == Some(segment) && !Traverses(segment)
  {
    UnescapePlain(segment);
    forall k: nat | k <= 4
      ensures !IsDotAfter(segment, k)
    {
      PlainStaysHarmless(segment, k);
    }
  }

  lemma PlaceholderIsFine(name: Text, inputs: InputMap)
    requires IsInputName(name) && name in inputs && inputs[name].required
    requires inputs[name].kind in {StringType, IntegerType}
    ensures IsFine("{" + name + "}", inputs)
  {
    var segment := "{" + name + "}";
    assert segment[0] == '{' && segment[|segment| - 1] == '}' && segment[1..|segment| - 1] == name;
    PlaceholderIff(segment, 0, |segment|);
    PlaceholderBytes(name);
    PlaceholderIsPlain(segment);
  }

  lemma LiteralIsFine(text: Text, inputs: InputMap)
    requires IsHarmless(text)
    ensures IsFine(Escape(text, Segment), inputs)
  {
    EscapedTextLacks(text, '{');
    EscapedTextLacks(text, '}');
    EscapedTextLacks(text, '/');
    EscapedTextLacks(text, '?');
    EscapedTextLacks(text, '#');
    EscapedTextLacks(text, '\\');
    UnescapeEscape(text, Segment);
    HarmlessEscapedStays(text);
  }

  lemma HarmlessEscapedStays(text: Text)
    requires IsHarmless(text)
    ensures !Traverses(Escape(text, Segment))
  {
    HarmlessDoesNotTraverse(text);
    forall k: nat | k <= 4
      ensures !IsDotAfter(Escape(text, Segment), k)
    {
      EscapedDoesNotTraverse(text, k);
    }
  }

  lemma WrittenIsFine(segment: Text, inputs: InputMap)
    requires IsWritten(segment, inputs)
    ensures IsFine(segment, inputs)
  {
    if name :| IsInputName(name) && segment == "{" + name + "}" && name in inputs && inputs[name].required
               && inputs[name].kind in {StringType, IntegerType} {
      PlaceholderIsFine(name, inputs);
    } else {
      var text :| IsHarmless(text) && segment == Escape(text, Segment);
      LiteralIsFine(text, inputs);
    }
  }

  lemma FineSegmentsLoad(path: Text, inputs: InputMap)
    requires "/" <= path && !("//" <= path) && !ContainsAny(path, "?#\\")
    requires forall s :: s in Split(path, '/') ==> IsFine(s, inputs)
    ensures ValidTypedPath(path, inputs)
  {
    forall i | 0 <= i < |Split(path, '/')|
      ensures IsFine(Split(path, '/')[i], inputs)
    {
      assert Split(path, '/')[i] in Split(path, '/');
    }
  }

  /** Every path of such segments loads. */
  lemma WrittenPathsLoad(segments: seq<Text>, inputs: InputMap)
    requires segments != [] && forall s :: s in segments ==> IsWritten(s, inputs)
    requires |segments| == 1 || segments[0] != []
    ensures ValidTypedPath(Join([[]] + segments, '/'), inputs)
  {
    RootedAreFine(segments, inputs);
    FineAreRelative([[]] + segments, inputs);
    forall s | s in segments
      ensures '/' !in s
    {
      WrittenIsFine(s, inputs);
    }
    JoinOfRooted(segments);
    FineSegmentsLoad(Join([[]] + segments, '/'), inputs);
  }

  lemma RootedAreFine(segments: seq<Text>, inputs: InputMap)
    requires forall s :: s in segments ==> IsWritten(s, inputs)
    ensures forall s :: s in [[]] + segments ==> IsFine(s, inputs)
  {
    EmptyDoesNotTraverse();
    assert IsFine([], inputs);
    forall s | s in segments
      ensures IsFine(s, inputs)
    {
      WrittenIsFine(s, inputs);
    }
  }

  lemma FineAreRelative(segments: seq<Text>, inputs: InputMap)
    requires forall s :: s in segments ==> IsFine(s, inputs)
    ensures !ContainsAny(Join(segments, '/'), "?#\\")
  {
    JoinLacks(segments, '?');
    JoinLacks(segments, '#');
    JoinLacks(segments, '\\');
  }

  // ------------------------------------------------------------------------ rendering

  /** scalarString; numbers are formatted by `numeral`. */
  function ScalarText(value: Json, numeral: real -> Text): Option<Text> {
    match value
    case String(text) => Some(text)
    case Bool(flag) => Some(if flag then "true" else "false")
    case Number(n) => Some(numeral(n))
    case _ => None
  }

  datatype PathFault = MissingPathArgument | NotAScalar | EmptyArgument | NotOneSegment | BadSegment

  datatype SegmentResult = Piece(escaped: Text, decoded: Text) | Fault(fault: PathFault)

  /** One segment, as the body of the loop in renderTypedPath treats it. */
  function RenderSegment(segment: Text, args: Arguments, numeral: real -> Text): SegmentResult {
    if "{" <= segment && HasSuffix(segment, "}") then
      var name := PlaceholderName(segment);
      if name !in args then Fault(MissingPathArgument)
      else
        match ScalarText(args[name], numeral)
        case None => Fault(NotAScalar)
        case Some(text) =>
          if text == [] then Fault(EmptyArgument)
          else if IsDotSegment(text) || HasSeparator(text) then Fault(NotOneSegment)
          else Piece(Escape(text, Segment), text)
    else
      match Unescape(segment)
      case None => Fault(BadSegment)
      case Some(text) => Piece(Escape(text, Segment), text)
  }

  datatype PathResult = RenderedPath(pair: PathPair) | PathFailed(fault: PathFault)

  /** The pieces that all segments render to. */
  ghost predicate ArePieces(segments: seq<Text>, args: Arguments, numeral: real -> Text, escaped: seq<Text>, decoded: seq<Text>) {
    && |escaped| == |decoded| == |segments|
    && forall i :: 0 <= i < |segments| ==> RenderSegment(segments[i], args, numeral) == Piece(escaped[i], decoded[i])
  }

  /** The leftmost segment that cannot be rendered decides; otherwise all pieces are joined. */
  ghost predicate IsRenderingOf(r: PathResult, segments: seq<Text>, args: Arguments, numeral: real -> Text) {
    match r
    case PathFailed(fault) =>
      exists i :: 0 <= i < |segments| && RenderSegment(segments[i], args, numeral) == Fault(fault) &&
                  forall k :: 0 <= k < i ==> RenderSegment(segments[k], args, numeral).Piece?
    case RenderedPath(pair) =>
      exists escaped, decoded ::
        ArePieces(segments, args, numeral, escaped, decoded) && pair == PathPair(Join(escaped, '/'), Join(decoded, '/'))
  }

  method RenderTypedPath(template: Text, args: Arguments, numeral: real -> Text) returns (r: PathResult)
    ensures IsRenderingOf(r, Split(template, '/'), args, numeral)
  {
    var segments := Split(template, '/');
    var escaped: seq<Text> := [];
    var decoded: seq<Text> := [];
    for index := 0 to |segments|
      invariant |escaped| == |decoded| == index
      invariant forall i :: 0 <= i < index ==>
                  RenderSegment(segments[i], args, numeral) == Piece(escaped[i], decoded[i])
    {
      var rendered := RenderSegment(segments[index], args, numeral);
      if rendered.Fault? {
        return PathFailed(rendered.fault);
      }
      escaped := escaped + [rendered.escaped];
      decoded := decoded + [rendered.decoded];
    }
    assert ArePieces(segments, args, numeral, escaped, decoded);
    r := RenderedPath(PathPair(Join(escaped, '/'), Join(decoded, '/')));
  }

  // ------------------------------------------------------------- one input, one segment

  /** The decimal text of an integer. */
  predicate IsIntegerText(text: Text) {
    text != [] && forall i :: 0 <= i < |text| ==> '0' <= text[i] <= '9' || text[i] == '-'
  }

  ghost predicate FormatsIntegers(numeral: real -> Text) {
    forall n :: IsIntegral(n) ==> IsIntegerText(numeral(n))
  }

  /** The segment of the template stands for this text: the argument's, or that of the segment once decoded. */
  ghost predicate IsIntended(text: Text, segment: Text, args: Arguments, numeral: real -> Text) {
    if IsPlaceholder(segment) then
      var name := segment[1..|segment| - 1];
      name in args && (args[name] == String(text) || (args[name].Number? && numeral(args[name].number) == text))
    else Unescape(segment) == Some(text)
  }

  /** The caller passed a string that cannot be one path segment. */
  ghost predicate IsUnfit(segment: Text, args: Arguments) {
    && IsPlaceholder(segment)
    && var name := segment[1..|segment| - 1];
       name in args && args[name].String?
       && (args[name].text in {"", ".", ".."} || '/' in args[name].text || '\\' in args[name].text)
  }

  lemma PlaceholderShape(segment: Text)
    requires IsPlaceholder(segment)
    ensures "{" <= segment && HasSuffix(segment, "}")
  {
  }

  ghost predicate FaithfulAt(segment: Text, args: Arguments, numeral: real -> Text) {
    var r := RenderSegment(segment, args, numeral);
    if IsUnfit(segment, args) then r == Fault(EmptyArgument) || r == Fault(NotOneSegment)
    else
      && r.Piece? && r.escaped == Escape(r.decoded, Segment) && !HasSeparator(r.decoded)
      && IsIntended(r.decoded, segment, args, numeral)
  }

  lemma IntegerTextIsOneSegment(text: Text)
    requires IsIntegerText(text)
    ensures text != [] && !IsDotSegment(text) && !HasSeparator(text)
  {
    assert '0' <= text[0] <= '9' || text[0] == '-';
  }

  lemma SegmentsAreFaithful(segment: Text, inputs: InputMap, args: Arguments, numeral: real -> Text)
    requires ValidSegment(segment, inputs) && CheckedArguments(inputs, args) && FormatsIntegers(numeral)
    requires Unescape(segment).Some? && !HasSeparator(Unescape(segment).value)
    ensures FaithfulAt(segment, args, numeral)
  {
    if "{" <= segment && HasSuffix(segment, "}") {
      assert segment[0] == '{';
      var name := PlaceholderName(segment);
      assert AcceptsValue(inputs[name], args[name]);
      if args[name].Number? {
        IntegerTextIsOneSegment(numeral(args[name].number));
      }
    } else if IsPlaceholder(segment) {
      PlaceholderShape(segment);
    }
  }

  /** The segments of a URL path, encoded and decoded, are these texts, one for one. */
  ghost predicate HasSegments(pair: PathPair, texts: seq<Text>) {
    && Split(pair.decoded, '/') == texts
    && |Split(pair.escaped, '/')| == |texts|
    && forall i :: 0 <= i < |texts| ==> Unescape(Split(pair.escaped, '/')[i]) == Some(texts[i])
  }

  /** The texts that the segments of a path template stand for. */
  ghost predicate AreIntended(texts: seq<Text>, segments: seq<Text>, args: Arguments, numeral: real -> Text) {
    && |texts| == |segments|
    && forall i :: 0 <= i < |texts| ==> IsIntended(texts[i], segments[i], args, numeral)
  }

  lemma RenderedSegments(segments: seq<Text>, args: Arguments, numeral: real -> Text, r: PathResult)
    requires segments != [] && forall s :: s in segments ==> FaithfulAt(s, args, numeral)
    requires IsRenderingOf(r, segments, args, numeral) && r.RenderedPath?
    ensures exists texts ::
              && AreIntended(texts, segments, args, numeral) && HasSegments(r.pair, texts)
              && r.pair.escaped == Join(EscapeAll(texts), '/') && Unescape(r.pair.escaped) == Some(r.pair.decoded)
  {
    var escaped, texts :| ArePieces(segments, args, numeral, escaped, texts) &&
      r.pair == PathPair(Join(escaped, '/'), Join(texts, '/'));
    forall i | 0 <= i < |segments|
      ensures '/' !in texts[i] && escaped[i] == Escape(texts[i], Segment)
      ensures IsIntended(texts[i], segments[i], args, numeral)
    {
      assert FaithfulAt(segments[i], args, numeral);
    }
    assert escaped == EscapeAll(texts);
    JoinedSegments(texts);
    UnescapeJoin(texts);
    assert AreIntended(texts, segments, args, numeral);
  }

  /**
    A checked tool with checked arguments: rendering fails iff some string
    argument is empty, a dot segment, or contains a separator; otherwise each
    template segment becomes exactly one segment with the intended text.
   */
  lemma TypedPathsAreFaithful(path: Text, inputs: InputMap, args: Arguments, numeral: real -> Text, r: PathResult)
    requires ValidTypedPath(path, inputs) && CheckedArguments(inputs, args) && FormatsIntegers(numeral)
    requires IsRenderingOf(r, Split(path, '/'), args, numeral)
    ensures r.PathFailed? <==> exists s :: s in Split(path, '/') && IsUnfit(s, args)
    ensures r.PathFailed? ==> r.fault == EmptyArgument || r.fault == NotOneSegment
    ensures r.RenderedPath? ==>
              exists texts ::
                && AreIntended(texts, Split(path, '/'), args, numeral) && HasSegments(r.pair, texts)
                && r.pair.escaped == Join(EscapeAll(texts), '/') && Unescape(r.pair.escaped) == Some(r.pair.decoded)
  {
    var segments := Split(path, '/');
    forall s | s in segments
      ensures FaithfulAt(s, args, numeral)
    {
      SegmentsAreFaithful(s, inputs, args, numeral);
    }
    match r
    case RenderedPath(_) =>
      RenderedSegments(segments, args, numeral, r);
    case PathFailed(fault) =>
      var i :| 0 <= i < |segments| && RenderSegment(segments[i], args, numeral) == Fault(fault);
      assert segments[i] in segments && FaithfulAt(segments[i], args, numeral);
  }

  lemma JoinedSegments(texts: seq<Text>)
    requires texts != [] && forall t :: t in texts ==> '/' !in t
    ensures HasSegments(PathPair(Join(EscapeAll(texts), '/'), Join(texts, '/')), texts)
  {
    SplitJoin(texts, '/');
    EscapedPieces(texts);
    SplitJoin(EscapeAll(texts), '/');
  }
}
