/** The path allowlist of raw HTTP tools: `*` is one segment, `**` any number. */
module PathMatch {
  import opened GoText

  /** matchPathSegments. */
  predicate Match(pattern: seq<Text>, candidate: seq<Text>)
    decreases |pattern| + |candidate|
  {
    if pattern == [] then candidate == []
    else if pattern[0] == "**" then
      Match(pattern[1..], candidate) || (candidate != [] && Match(pattern, candidate[1..]))
    else
      && candidate != []
      && (pattern[0] == "*" || pattern[0] == candidate[0])
      && Match(pattern[1..], candidate[1..])
  }

  // ------------------------------------------------------- what a match means: a cut

  function Flatten(blocks: seq<seq<Text>>): seq<Text> {
    if blocks == [] then [] else blocks[0] + Flatten(blocks[1..])
  }

  predicate BlockFits(part: Text, block: seq<Text>) {
    if part == "**" then true
    else if part == "*" then |block| == 1
    else block == [part]
  }

  /** `blocks` cuts the candidate into one block per pattern part, in order. */
  ghost predicate IsCut(pattern: seq<Text>, candidate: seq<Text>, blocks: seq<seq<Text>>) {
    && |blocks| == |pattern|
    && Flatten(blocks) == candidate
    && forall i :: 0 <= i < |pattern| ==> BlockFits(pattern[i], blocks[i])
  }

  lemma {:induction false} MatchGivesCut(pattern: seq<Text>, candidate: seq<Text>) returns (blocks: seq<seq<Text>>)
    requires Match(pattern, candidate)
    ensures IsCut(pattern, candidate, blocks)
    decreases |pattern| + |candidate|
  {
    if pattern == [] {
      blocks := [];
    } else if pattern[0] == "**" {
      if Match(pattern[1..], candidate) {
        var rest := MatchGivesCut(pattern[1..], candidate);
        blocks := [[]] + rest;
        assert blocks[1..] == rest;
        assert [] + candidate == candidate;
      } else {
        var rest := MatchGivesCut(pattern, candidate[1..]);
        blocks := [[candidate[0]] + rest[0]] + rest[1..];
        assert blocks[1..] == rest[1..];
        assert candidate == [candidate[0]] + candidate[1..];
        assert [candidate[0]] + rest[0] + Flatten(rest[1..]) == [candidate[0]] + (rest[0] + Flatten(rest[1..]));
      }
    } else {
      var rest := MatchGivesCut(pattern[1..], candidate[1..]);
      blocks := [[candidate[0]]] + rest;
      assert blocks[1..] == rest;
    }
  }

  lemma {:induction false} CutGivesMatch(pattern: seq<Text>, candidate: seq<Text>, blocks: seq<seq<Text>>)
    requires IsCut(pattern, candidate, blocks)
    ensures Match(pattern, candidate)
    decreases |pattern| + |candidate|
  {
    if pattern != [] {
      var rest := candidate[|blocks[0]|..];
      assert rest == Flatten(blocks[1..]);
      if blocks[0] == [] {
        CutGivesMatch(pattern[1..], candidate, blocks[1..]);
      } else if pattern[0] == "**" {
        var shorter := [blocks[0][1..]] + blocks[1..];
        assert shorter[1..] == blocks[1..];
        assert candidate == blocks[0] + Flatten(blocks[1..]);
        assert candidate[1..] == blocks[0][1..] + Flatten(blocks[1..]);
        CutGivesMatch(pattern, candidate[1..], shorter);
      } else {
        CutGivesMatch(pattern[1..], candidate[1..], blocks[1..]);
      }
    }
  }

  /** The matcher is exact: it accepts iff some cut fits. */
  lemma MatchIffCut(pattern: seq<Text>, candidate: seq<Text>)
    ensures Match(pattern, candidate) <==> exists blocks :: IsCut(pattern, candidate, blocks)
  {
    if Match(pattern, candidate) {
      var blocks := MatchGivesCut(pattern, candidate);
    }
    if blocks :| IsCut(pattern, candidate, blocks) {
      CutGivesMatch(pattern, candidate, blocks);
    }
  }

  // --------------------------------------------------------------- laws of matching

  lemma {:induction false} FlattenConcat(a: seq<seq<Text>>, b: seq<seq<Text>>)
    ensures Flatten(a + b) == Flatten(a) + Flatten(b)
  {
    if a == [] {
      assert a + b == b;
    } else {
      assert (a + b)[1..] == a[1..] + b;
      FlattenConcat(a[1..], b);
    }
  }

  /** The candidate splits where the pattern is split. */
  ghost predicate MatchesApart(p: seq<Text>, q: seq<Text>, candidate: seq<Text>) {
    exists i :: 0 <= i <= |candidate| && Match(p, candidate[..i]) && Match(q, candidate[i..])
  }

  lemma CutsJoin(p: seq<Text>, q: seq<Text>, left: seq<seq<Text>>, right: seq<seq<Text>>)
    requires |left| == |p| && |right| == |q|
    ensures IsCut(p + q, Flatten(left) + Flatten(right), left + right) <==>
              IsCut(p, Flatten(left), left) && IsCut(q, Flatten(right), right)
  {
    FlattenConcat(left, right);
    var both, blocks := p + q, left + right;
    assert forall k :: 0 <= k < |p| ==> both[k] == p[k] && blocks[k] == left[k];
    assert forall k :: 0 <= k < |q| ==> both[|p| + k] == q[k] && blocks[|p| + k] == right[k];
  }

  lemma MatchSplits(p: seq<Text>, q: seq<Text>, candidate: seq<Text>)
    requires Match(p + q, candidate)
    ensures MatchesApart(p, q, candidate)
  {
    var blocks := MatchGivesCut(p + q, candidate);
    var left, right := blocks[..|p|], blocks[|p|..];
    assert blocks == left + right;
    FlattenConcat(left, right);
    CutsJoin(p, q, left, right);
    var i := |Flatten(left)|;
    assert candidate[..i] == Flatten(left) && candidate[i..] == Flatten(right);
    CutGivesMatch(p, candidate[..i], left);
    CutGivesMatch(q, candidate[i..], right);
  }

  lemma SplitsMatch(p: seq<Text>, q: seq<Text>, candidate: seq<Text>, i: nat)
    requires i <= |candidate| && Match(p, candidate[..i]) && Match(q, candidate[i..])
    ensures Match(p + q, candidate)
  {
    var left := MatchGivesCut(p, candidate[..i]);
    var right := MatchGivesCut(q, candidate[i..]);
    CutsJoin(p, q, left, right);
    assert candidate == candidate[..i] + candidate[i..];
    CutGivesMatch(p + q, candidate, left + right);
  }

  /** Matching distributes over concatenation of patterns, in both directions. */
  lemma MatchConcat(p: seq<Text>, q: seq<Text>, candidate: seq<Text>)
    ensures Match(p + q, candidate) <==> MatchesApart(p, q, candidate)
  {
    if Match(p + q, candidate) {
      MatchSplits(p, q, candidate);
    }
    if i :| 0 <= i <= |candidate| && Match(p, candidate[..i]) && Match(q, candidate[i..]) {
      SplitsMatch(p, q, candidate, i);
    }
  }

  lemma AnyNumberMatchesAll(candidate: seq<Text>)
    ensures Match(["**"], candidate)
  {
    CutGivesMatch(["**"], candidate, [candidate]);
  }

  /** Two adjacent `**` mean the same as one. */
  lemma DoubleStarCollapses(p: seq<Text>, q: seq<Text>, candidate: seq<Text>)
    ensures Match(p + ["**", "**"] + q, candidate) <==> Match(p + ["**"] + q, candidate)
  {
    forall c: seq<Text>
      ensures Match(["**", "**"] + q, c) <==> Match(["**"] + q, c)
    {
      StarStarAbsorbs(q, c);
    }
    assert p + ["**", "**"] + q == p + (["**", "**"] + q);
    assert p + ["**"] + q == p + (["**"] + q);
    MatchConcat(p, ["**", "**"] + q, candidate);
    MatchConcat(p, ["**"] + q, candidate);
  }

  lemma StarStarAbsorbs(q: seq<Text>, candidate: seq<Text>)
    ensures Match(["**", "**"] + q, candidate) <==> Match(["**"] + q, candidate)
  {
    assert ["**", "**"] + q == ["**"] + (["**"] + q);
    MatchConcat(["**"], ["**"] + q, candidate);
    if Match(["**"] + q, candidate) {
      AnyNumberMatchesAll(candidate[..0]);
      assert candidate[0..] == candidate;
    }
    if i :| 0 <= i <= |candidate| && Match(["**"], candidate[..i]) && Match(["**"] + q, candidate[i..]) {
      MatchConcat(["**"], q, candidate[i..]);
      var j :| 0 <= j <= |candidate[i..]| && Match(["**"], candidate[i..][..j]) && Match(q, candidate[i..][j..]);
      assert candidate[i..][j..] == candidate[i + j..];
      AnyNumberMatchesAll(candidate[..i + j]);
      MatchConcat(["**"], q, candidate);
    }
  }

  /** A star stands for one segment, whichever it is. */
  lemma StarMatchesOne(candidate: seq<Text>)
    ensures Match(["*"], candidate) <==> |candidate| == 1
  {
    assert ["*"][1..] == [];
    if |candidate| == 1 {
      assert candidate[1..] == [];
    }
  }

  /** A pattern without stars matches itself and nothing else. */
  lemma {:induction false} PlainMatchesItself(pattern: seq<Text>, candidate: seq<Text>)
    requires "*" !in pattern && "**" !in pattern
    ensures Match(pattern, candidate) <==> candidate == pattern
    decreases |pattern|
  {
    if pattern != [] {
      assert pattern[0] in pattern && forall p :: p in pattern[1..] ==> p in pattern;
      if candidate != [] {
        PlainMatchesItself(pattern[1..], candidate[1..]);
        assert pattern == [pattern[0]] + pattern[1..] && candidate == [candidate[0]] + candidate[1..];
      }
    }
  }

  // ------------------------------------------------------------------- the allowlist

  /** strings.Trim(value, "/"). */
  function TrimSlashes(value: Text): Text {
    if value != [] && value[0] == '/' then TrimSlashes(value[1..])
    else if value != [] && value[|value| - 1] == '/' then TrimSlashes(value[..|value| - 1])
    else value
  }

  function SplitPathSegments(value: Text): seq<Text> {
    var trimmed := TrimSlashes(value);
    if trimmed == [] then [] else Split(trimmed, '/')
  }

  function Slashes(n: nat): Text {
    seq(n, i => '/')
  }

  lemma {:induction false} LeadingSlashesGo(n: nat, s: Text)
    ensures TrimSlashes(Slashes(n) + s) == TrimSlashes(s)
  {
    if n == 0 {
      assert Slashes(0) + s == s;
    } else {
      assert (Slashes(n) + s)[1..] == Slashes(n - 1) + s;
      LeadingSlashesGo(n - 1, s);
    }
  }

  lemma {:induction false} TrailingSlashesGo(s: Text, n: nat)
    requires s != [] && s[0] != '/' && s[|s| - 1] != '/'
    ensures TrimSlashes(s + Slashes(n)) == s
  {
    var all := s + Slashes(n);
    if n == 0 {
      assert all == s;
    } else {
      assert all[..|all| - 1] == s + Slashes(n - 1);
      TrailingSlashesGo(s, n - 1);
    }
  }

  lemma {:induction false} JoinEnds(segments: seq<Text>)
    requires segments != [] && segments[0] != [] && segments[|segments| - 1] != []
    ensures
      var joined := Join(segments, '/');
      joined != [] && joined[0] == segments[0][0]
      && joined[|joined| - 1] == segments[|segments| - 1][|segments[|segments| - 1]| - 1]
  {
    if |segments| > 1 {
      JoinLast(segments);
    }
  }

  lemma {:induction false} JoinLast(segments: seq<Text>)
    requires segments != [] && segments[|segments| - 1] != []
    ensures
      var joined, last := Join(segments, '/'), segments[|segments| - 1];
      joined != [] && joined[|joined| - 1] == last[|last| - 1]
  {
    if |segments| > 1 {
      JoinLast(segments[1..]);
    }
  }

  /** Slashes around a path make no difference; what is between them are its segments. */
  lemma SegmentsAreRead(before: nat, segments: seq<Text>, behind: nat)
    requires segments != [] && segments[0] != [] && segments[|segments| - 1] != []
    requires forall s :: s in segments ==> '/' !in s
    ensures SplitPathSegments(Slashes(before) + (Join(segments, '/') + Slashes(behind))) == segments
  {
    var joined := Join(segments, '/');
    assert segments[0] in segments && segments[|segments| - 1] in segments;
    JoinEnds(segments);
    LeadingSlashesGo(before, joined + Slashes(behind));
    TrailingSlashesGo(joined, behind);
    SplitJoin(segments, '/');
  }

  /** Some configured pattern has a cut that fits the path. */
  ghost predicate IsAllowed(patterns: seq<Text>, path: Text) {
    exists i, blocks :: 0 <= i < |patterns| && IsCut(SplitPathSegments(patterns[i]), SplitPathSegments(path), blocks)
  }

  method MatchesAnyPath(patterns: seq<Text>, candidate: Text) returns (allowed: bool)
    ensures allowed <==> IsAllowed(patterns, candidate)
  {
    var segments := SplitPathSegments(candidate);
    for i := 0 to |patterns|
      invariant forall k, blocks :: 0 <= k < i ==> !IsCut(SplitPathSegments(patterns[k]), segments, blocks)
    {
      MatchIffCut(SplitPathSegments(patterns[i]), segments);
      if Match(SplitPathSegments(patterns[i]), segments) {
        return true;
      }
    }
    return false;
  }
}
