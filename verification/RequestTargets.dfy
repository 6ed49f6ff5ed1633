/** What goes out for the paths that tool calls build, raw and typed. */
module RequestTargets {
  import opened GoText
  import opened Inputs
  import opened Percent
  import opened RawPaths
  import opened TargetUrl
  import opened TypedPaths

  /** The base's escaped path, followed by the call's. */
  predicate IsSentVerbatim(base: UrlPath, pair: PathPair) {
    EscapedPath(BuildTarget(base, pair)) == TrimSuffix(EscapedPath(base), "/") + pair.escaped
  }

  lemma JoinIsEscapedPath(texts: seq<Text>)
    requires |texts| >= 2
    ensures IsEscapedPath(Join(EscapeAll(texts), '/'))
  {
    JoinedBytes(texts);
  }

  lemma SlashSplits(path: Text)
    requires "/" <= path
    ensures |Split(path, '/')| >= 2
  {
    assert path == "/" + path[1..];
  }

  /** Every raw path that is admitted goes out as its escaped form, behind the base's. */
  lemma RawTargetIsSentVerbatim(base: UrlPath, value: Text)
    requires Canonicalized(value).Canonical? && !EndsWithEncodedSlash(EscapedPath(base))
    ensures IsSentVerbatim(base, Canonicalized(value).pair)
  {
    var pair := Canonicalized(value).pair;
    RawPathIsNormalForm(value);
    DecodingKeepsSlash(TrimSpace(value));
    SlashSplits(pair.decoded);
    JoinIsEscapedPath(Split(pair.decoded, '/'));
    TargetIsSentVerbatim(base, pair);
  }

  /** So does every path that a checked tool renders from checked arguments. */
  lemma TypedTargetIsSentVerbatim(base: UrlPath, path: Text, inputs: InputMap, args: Arguments,
                                  numeral: real -> Text, r: PathResult)
    requires ValidTypedPath(path, inputs) && CheckedArguments(inputs, args) && FormatsIntegers(numeral)
    requires IsRenderingOf(r, Split(path, '/'), args, numeral) && r.RenderedPath?
    requires !EndsWithEncodedSlash(EscapedPath(base))
    ensures IsSentVerbatim(base, r.pair)
  {
    TypedPathsAreFaithful(path, inputs, args, numeral, r);
    var texts :| AreIntended(texts, Split(path, '/'), args, numeral) && HasSegments(r.pair, texts)
                 && r.pair.escaped == Join(EscapeAll(texts), '/');
    SlashSplits(path);
    JoinIsEscapedPath(texts);
    TargetIsSentVerbatim(base, r.pair);
  }
}
