/** The path of a raw HTTP tool call: canonical form and allowlist. */
module RawPaths {
  import opened GoText
  import opened Percent
  import opened PathMatch

  // ------------------------------------------------------------------ dot segments

  predicate IsDotSegment(segment: Text) {
    segment == "." || segment == ".."
  }

  /** The segment after `k` rounds of percent-decoding, while they succeed. */
  function DecodedTimes(segment: Text, k: nat): Option<Text> {
    if k == 0 then Some(segment)
    else
      match DecodedTimes(segment, k - 1)
      case Some(text) => Unescape(text)
      case None => None
  }

  predicate IsDotAfter(segment: Text, k: nat) {
    DecodedTimes(segment, k).Some? && IsDotSegment(DecodedTimes(segment, k).value)
  }

  /** A dot segment is hidden under at most four rounds of encoding. */
  predicate Traverses(segment: Text) {
    exists k: nat :: k <= 4 && IsDotAfter(segment, k)
  }

  lemma {:induction false} DecodingStops(segment: Text, k: nat, later: nat)
    requires k <= later
    requires
      var text := DecodedTimes(segment, k);
      text.None? || Unescape(text.value) == text
    ensures DecodedTimes(segment, later) == DecodedTimes(segment, k)
  {
    if k < later {
      DecodingStops(segment, k, later - 1);
    }
  }

  method PathSegmentTraverses(segment: Text) returns (traverses: bool)
    ensures traverses <==> Traverses(segment)
  {
    var current := segment;
    for depth := 0 to 4
      invariant DecodedTimes(segment, depth) == Some(current)
      invariant forall k: nat :: k < depth ==> !IsDotAfter(segment, k)
    {
      if IsDotSegment(current) {
        assert IsDotAfter(segment, depth);
        return true;
      }
      var decoded := Unescape(current);
      if decoded.None? || decoded.value == current {
        forall k: nat | depth < k <= 4
          ensures !IsDotAfter(segment, k)
        {
          if decoded.None? {
            assert DecodedTimes(segment, depth + 1).None?;
            DecodingStops(segment, depth + 1, k);
          } else {
            DecodingStops(segment, depth, k);
          }
        }
        return false;
      }
      current := decoded.value;
    }
    assert IsDotSegment(current) <==> IsDotAfter(segment, 4);
    return IsDotSegment(current);
  }

  // ----------------------------------------------------------------- canonical form

  datatype PathPair = PathPair(escaped: Text, decoded: Text)

  datatype RawFault = NotRelative | Undecodable | HasBackslash | CrossOrigin | HasTraversal

  datatype RawPath = Canonical(pair: PathPair) | Refused(fault: RawFault)

  predicate IsRelativeForm(value: Text) {
    "/" <= value && !("//" <= value) && !ContainsAny(value, "?#\\")
  }

  /** canonicalizeRawPath. */
  ghost function Canonicalized(value: Text): RawPath {
    var trimmed := TrimSpace(value);
    if !IsRelativeForm(trimmed) then Refused(NotRelative)
    else
      match Unescape(trimmed)
      case None => Refused(Undecodable)
      case Some(decoded) =>
        if '\\' in decoded then Refused(HasBackslash)
        else if "//" <= decoded then Refused(CrossOrigin)
        else if exists i :: 0 <= i < |Split(decoded, '/')| && Traverses(Split(decoded, '/')[i]) then Refused(HasTraversal)
        else Canonical(PathPair(Join(EscapeAll(Split(decoded, '/')), '/'), decoded))
  }

  method CanonicalizeRawPath(value: Text) returns (r: RawPath)
    ensures r == Canonicalized(value)
  {
    var trimmed := TrimSpace(value);
    if !IsRelativeForm(trimmed) {
      return Refused(NotRelative);
    }
    var unescaped := Unescape(trimmed);
    if unescaped.None? {
      return Refused(Undecodable);
    }
    var decoded := unescaped.value;
    if '\\' in decoded {
      return Refused(HasBackslash);
    }
    if "//" <= decoded {
      return Refused(CrossOrigin);
    }
    var segments := Split(decoded, '/');
    for i := 0 to |segments|
      invariant forall k :: 0 <= k < i ==> !Traverses(segments[k])
    {
      var traverses := PathSegmentTraverses(segments[i]);
      if traverses {
        return Refused(HasTraversal);
      }
    }
    var escaped: seq<Text> := [];
    for i := 0 to |segments|
      invariant |escaped| == i
      invariant forall k :: 0 <= k < i ==> escaped[k] == Escape(segments[k], Segment)
    {
      escaped := escaped + [Escape(segments[i], Segment)];
    }
    assert escaped == EscapeAll(segments);
    r := Canonical(PathPair(Join(escaped, '/'), decoded));
  }

  // -------------------------------------------------------------------- normal form

  predicate IsPathByte(c: Byte) {
    c == '/' || IsEncodedByte(c, Segment)
  }

  lemma {:induction false} JoinedBytes(segments: seq<Text>)
    ensures forall i :: 0 <= i < |Join(EscapeAll(segments), '/')| ==> IsPathByte(Join(EscapeAll(segments), '/')[i])
  {
    if |segments| == 1 {
      EscapedBytes(segments[0], Segment);
    } else if |segments| > 1 {
      EscapedBytes(segments[0], Segment);
      assert EscapeAll(segments)[1..] == EscapeAll(segments[1..]);
      JoinedBytes(segments[1..]);
    }
  }

  lemma SlashesSurviveDecoding(s: Text)
    requires Unescape(s).Some?
    ensures "//" <= s ==> "//" <= Unescape(s).value
  {
    if "//" <= s {
      assert s == "//" + s[2..];
      UnescapePlain("//");
      UnescapeConcat("//", s[2..]);
    }
  }

  lemma JoinStartsWithSlash(decoded: Text)
    requires "/" <= decoded
    ensures "/" <= Join(EscapeAll(Split(decoded, '/')), '/')
  {
    var segments := Split(decoded, '/');
    assert segments == [[]] + Split(decoded[1..], '/');
    assert EscapeAll(segments)[0] == [];
  }

  lemma DecodingKeepsSlash(s: Text)
    requires "/" <= s && Unescape(s).Some?
    ensures "/" <= Unescape(s).value
  {
  }

  lemma EscapedFormIsRelative(decoded: Text)
    requires "/" <= decoded && !("//" <= decoded)
    ensures
      var escaped := Join(EscapeAll(Split(decoded, '/')), '/');
      Unescape(escaped) == Some(decoded) && IsRelativeForm(escaped) && TrimSpace(escaped) == escaped
  {
    var segments := Split(decoded, '/');
    var escaped := Join(EscapeAll(segments), '/');
    UnescapeJoin(segments);
    JoinSplit(decoded, '/');
    JoinStartsWithSlash(decoded);
    SlashesSurviveDecoding(escaped);
    JoinedBytes(segments);
    PathBytesAreVisible(escaped);
    TrimSpaceIsIdentity(escaped);
  }

  lemma PathBytesAreVisible(s: Text)
    requires forall i :: 0 <= i < |s| ==> IsPathByte(s[i])
    ensures forall i :: 0 <= i < |s| ==> IsVisibleAscii(s[i])
    ensures !ContainsAny(s, "?#\\")
  {
  }

  /**
    An accepted path is in normal form: the escaped path decodes to the path
    that the allowlist is checked against, and is its own canonical form.
   */
  lemma RawPathIsNormalForm(value: Text)
    requires Canonicalized(value).Canonical?
    ensures
      var pair := Canonicalized(value).pair;
      Unescape(pair.escaped) == Some(pair.decoded) && Canonicalized(pair.escaped) == Canonical(pair)
  {
    DecodingKeepsSlash(TrimSpace(value));
    EscapedFormIsRelative(Canonicalized(value).pair.decoded);
  }

  lemma {:induction false} EscapedPieces(texts: seq<Text>)
    ensures forall t :: t in EscapeAll(texts) ==> '/' !in t
    ensures forall i :: 0 <= i < |texts| ==> Unescape(EscapeAll(texts)[i]) == Some(texts[i])
  {
    if texts != [] {
      EscapedTextLacks(texts[0], '/');
      UnescapeEscape(texts[0], Segment);
      EscapedPieces(texts[1..]);
    }
  }

  /** The segments of what is sent are the escaped segments of what was checked. */
  lemma SentSegments(decoded: Text)
    ensures Split(Join(EscapeAll(Split(decoded, '/')), '/'), '/') == EscapeAll(Split(decoded, '/'))
  {
    EscapedPieces(Split(decoded, '/'));
    SplitJoin(EscapeAll(Split(decoded, '/')), '/');
  }

  /** One decoding takes the escaping away. */
  lemma {:induction false} EscapedDecodesLater(segment: Text, k: nat)
    ensures DecodedTimes(Escape(segment, Segment), k + 1) == DecodedTimes(segment, k)
  {
    if k == 0 {
      UnescapeEscape(segment, Segment);
      assert DecodedTimes(Escape(segment, Segment), 0) == Some(Escape(segment, Segment));
    } else {
      EscapedDecodesLater(segment, k - 1);
    }
  }

  lemma EscapedDotIsDot(segment: Text)
    requires IsDotSegment(Escape(segment, Segment))
    ensures IsDotSegment(segment)
  {
    UnescapeEscape(segment, Segment);
    UnescapePlain(".");
    UnescapePlain("..");
  }

  lemma EscapedDoesNotTraverse(segment: Text, k: nat)
    requires !Traverses(segment) && k <= 5
    ensures !IsDotAfter(Escape(segment, Segment), k)
  {
    if k == 0 {
      assert !IsDotAfter(segment, 0);
      if IsDotSegment(Escape(segment, Segment)) {
        EscapedDotIsDot(segment);
      }
    } else {
      EscapedDecodesLater(segment, k - 1);
      assert !IsDotAfter(segment, k - 1);
    }
  }

  lemma AcceptedSegments(value: Text)
    requires Canonicalized(value).Canonical?
    ensures
      var pair := Canonicalized(value).pair;
      var segments := Split(pair.decoded, '/');
      pair.escaped == Join(EscapeAll(segments), '/') && forall i :: 0 <= i < |segments| ==> !Traverses(segments[i])
  {
  }

  /** No segment of the path that is sent is a dot segment, even after five decodings. */
  lemma AcceptedPathsDoNotTraverse(value: Text, i: nat, k: nat)
    requires Canonicalized(value).Canonical? && k <= 5
    requires i < |Split(Canonicalized(value).pair.escaped, '/')|
    ensures DecodedTimes(Split(Canonicalized(value).pair.escaped, '/')[i], k) !in {Some("."), Some("..")}
  {
    var decoded := Canonicalized(value).pair.decoded;
    AcceptedSegments(value);
    SentSegments(decoded);
    EscapedDoesNotTraverse(Split(decoded, '/')[i], k);
  }

  // ------------------------------------------------------- what is refused, and no more

  /** Nothing that an accepted path names or sends can leave the path of the base, or start a query or another host. */
  lemma AcceptedPathsStayInside(value: Text)
    requires Canonicalized(value).Canonical?
    ensures
      var pair := Canonicalized(value).pair;
      && Unescape(TrimSpace(value)) == Some(pair.decoded)
      && "/" <= pair.decoded && !("//" <= pair.decoded) && '\\' !in pair.decoded
      && forall i :: 0 <= i < |pair.escaped| ==> pair.escaped[i] !in {'?', '#', '\\', ' '}
  {
    DecodingKeepsSlash(TrimSpace(value));
    JoinedBytes(Split(Canonicalized(value).pair.decoded, '/'));
    PathBytesAreVisible(Canonicalized(value).pair.escaped);
  }

  /** A segment that never was "." or "..", up to four decodings. */
  ghost predicate IsHarmless(segment: Text) {
    && '/' !in segment && '\\' !in segment
    && forall k: nat :: k <= 4 ==> DecodedTimes(segment, k) !in {Some("."), Some("..")}
  }

  lemma HarmlessDoesNotTraverse(segment: Text)
    requires IsHarmless(segment)
    ensures !Traverses(segment)
  {
    forall k: nat | k <= 4
      ensures !IsDotAfter(segment, k)
    {
      assert DecodedTimes(segment, k) !in {Some("."), Some("..")};
    }
  }

  lemma {:induction false} JoinLacks(parts: seq<Text>, c: Byte)
    requires c != '/' && forall p :: p in parts ==> c !in p
    ensures c !in Join(parts, '/')
  {
    if |parts| > 1 {
      assert forall p :: p in parts[1..] ==> p in parts;
      JoinLacks(parts[1..], c);
    }
  }

  lemma JoinOfRooted(segments: seq<Text>)
    requires segments != [] && forall s :: s in segments ==> '/' !in s
    requires |segments| == 1 || segments[0] != []
    ensures
      var decoded := Join([[]] + segments, '/');
      "/" <= decoded && !("//" <= decoded) && Split(decoded, '/') == [[]] + segments
  {
    var rooted := [[]] + segments;
    assert rooted[1..] == segments;
    assert Join(rooted, '/') == "/" + Join(segments, '/');
    SplitJoin(rooted, '/');
    if |segments| > 1 {
      assert Join(segments, '/')[0] == segments[0][0] && segments[0] in segments;
    } else {
      assert segments[0] in segments;
    }
  }

  lemma DecodedFormIsAccepted(decoded: Text)
    requires "/" <= decoded && !("//" <= decoded) && '\\' !in decoded
    requires forall i :: 0 <= i < |Split(decoded, '/')| ==> !Traverses(Split(decoded, '/')[i])
    ensures
      var escaped := Join(EscapeAll(Split(decoded, '/')), '/');
      Canonicalized(escaped) == Canonical(PathPair(escaped, decoded))
  {
    EscapedFormIsRelative(decoded);
  }

  /** Every path of harmless segments can be requested: its escaped form is accepted and means those segments. */
  lemma HarmlessPathsAreAccepted(segments: seq<Text>)
    requires segments != [] && forall s :: s in segments ==> IsHarmless(s)
    requires |segments| == 1 || segments[0] != []
    ensures
      var escaped := Join(EscapeAll([[]] + segments), '/');
      Canonicalized(escaped) == Canonical(PathPair(escaped, Join([[]] + segments, '/')))
  {
    var rooted := [[]] + segments;
    var decoded := Join(rooted, '/');
    JoinOfRooted(segments);
    JoinLacks(rooted, '\\');
    RootedDoNotTraverse(segments);
    DecodedFormIsAccepted(decoded);
  }

  lemma RootedDoNotTraverse(segments: seq<Text>)
    requires forall s :: s in segments ==> IsHarmless(s)
    ensures forall i :: 0 <= i < |segments| + 1 ==> !Traverses(([[]] + segments)[i])
  {
    EmptyDoesNotTraverse();
    forall i | 0 <= i < |segments|
      ensures !Traverses(segments[i])
    {
      assert segments[i] in segments;
      HarmlessDoesNotTraverse(segments[i]);
    }
  }

  lemma EmptyDoesNotTraverse()
    ensures !Traverses([])
  {
    forall k: nat | k <= 4
      ensures !IsDotAfter([], k)
    {
      DecodingStops([], 0, k);
    }
  }

  /** The path part of compileRawRequest: canonical form first, then the allowlist on the decoded path. */
  method AdmitRawPath(patterns: seq<Text>, value: Text) returns (admitted: Option<PathPair>)
    ensures admitted.Some? <==>
            Canonicalized(value).Canonical? && IsAllowed(patterns, Canonicalized(value).pair.decoded)
    ensures admitted.Some? ==>
              && admitted.value == Canonicalized(value).pair
              && Unescape(admitted.value.escaped) == Some(admitted.value.decoded)
  {
    var path := CanonicalizeRawPath(value);
    if path.Refused? {
      return None;
    }
    RawPathIsNormalForm(value);
    var allowed := MatchesAnyPath(patterns, path.pair.decoded);
    admitted := if allowed then Some(path.pair) else None;
  }
}
