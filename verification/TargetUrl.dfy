/** The request URL: the path of a tool call appended to the path of the base URL. */
module TargetUrl {
  import opened GoText
  import opened Percent
  import opened RawPaths

  /** The path fields of a url.URL; an empty raw path means the default encoding. */
  datatype UrlPath = UrlPath(path: Text, rawPath: Text)

  /** The path part of url.Parse. */
  function Parse(text: Text): Option<UrlPath> {
    match Unescape(text)
    case None => None
    case Some(path) => Some(UrlPath(path, if text == Escape(path, Path) then [] else text))
  }

  predicate IsValidEncoded(s: Text) {
    forall i :: 0 <= i < |s| ==> IsKept(s[i], Path) || s[i] in "!'()*[]%"
  }

  /** URL.EscapedPath: the raw path if it is a valid encoding of the path, else the default encoding. */
  function EscapedPath(u: UrlPath): Text {
    if u.rawPath != [] && IsValidEncoded(u.rawPath) && Unescape(u.rawPath) == Some(u.path) then u.rawPath
    else if u.path == "*" then "*"
    else Escape(u.path, Path)
  }

  function BuildTarget(base: UrlPath, pair: PathPair): UrlPath {
    var baseDecoded := TrimSuffix(base.path, "/");
    var baseEscaped := TrimSuffix(EscapedPath(base), "/");
    UrlPath(baseDecoded + pair.decoded, baseEscaped + pair.escaped)
  }

  /** What is sent always decodes to the path field. */
  lemma EscapedPathDecodes(u: UrlPath)
    ensures Unescape(EscapedPath(u)) == Some(u.path)
  {
    UnescapeEscape(u.path, Path);
    assert Unescape("*") == Push('*', Unescape(""));
  }

  lemma StarIsEscaped()
    ensures Escape("*", Path) == "%2A" && Unescape("%2A") == Some("*") && Unescape("*") == Some("*")
  {
    assert Escape("*"[1..], Path) == [];
    UnescapeEscape("*", Path);
    UnescapePlain("*");
  }

  /** The path of a base URL is sent as it was written, if it could be; %2A alone comes out as a star. */
  lemma ParsedPathIsSentBack(text: Text)
    requires Parse(text).Some? && IsValidEncoded(text)
    ensures EscapedPath(Parse(text).value) == if text == "%2A" then "*" else text
  {
    StarIsEscaped();
  }

  lemma EscapedPathIsValid(u: UrlPath)
    ensures IsValidEncoded(EscapedPath(u))
  {
    EscapedBytes(u.path, Path);
  }

  // ------------------------------------------------------- when the two fields agree

  predicate EndsWithSlash(s: Text) {
    s != [] && s[|s| - 1] == '/'
  }

  /** The text ends in %2F or %2f. */
  predicate EndsWithEncodedSlash(s: Text) {
    |s| >= 3 && s[|s| - 3] == '%' && s[|s| - 2] == '2' && s[|s| - 1] in "Ff"
  }

  /** How many bytes of an encoded text the first decoded byte takes. */
  function Width(s: Text): (n: nat)
    requires s != [] && Unescape(s).Some?
    ensures 1 <= n <= |s|
  {
    if s[0] == '%' then 3 else 1
  }

  /** The last encoded unit stands for a slash. */
  predicate LastUnitIsSlash(s: Text)
    requires s != [] && Unescape(s).Some?
  {
    if Width(s) == |s| then EndsWithSlash(s) || EndsWithEncodedSlash(s) else LastUnitIsSlash(s[Width(s)..])
  }

  lemma EncodedSlash(high: Byte, low: Byte)
    requires IsHex(high) && IsHex(low)
    ensures (16 * HexValue(high) + HexValue(low)) as char == '/' <==> high == '2' && low in "Ff"
  {
  }

  lemma {:induction false} LastUnitDecodes(s: Text)
    requires s != [] && Unescape(s).Some?
    ensures EndsWithSlash(Unescape(s).value) <==> LastUnitIsSlash(s)
  {
    if Width(s) < |s| {
      LastUnitDecodes(s[Width(s)..]);
    } else if Width(s) == 3 {
      EncodedSlash(s[1], s[2]);
    }
  }

  lemma {:induction false} LastUnitIsSuffix(s: Text)
    requires s != [] && Unescape(s).Some?
    ensures LastUnitIsSlash(s) <==> EndsWithSlash(s) || EndsWithEncodedSlash(s)
  {
    if Width(s) < |s| {
      LastUnitIsSuffix(s[Width(s)..]);
    }
  }

  /** Dropping a plain slash at the end of an encoded text drops the one it decodes to. */
  lemma {:induction false} DropLastSlash(s: Text)
    requires Unescape(s).Some? && EndsWithSlash(s)
    ensures Unescape(s).value != []
    ensures Unescape(s[..|s| - 1]) == Some(Unescape(s).value[..|Unescape(s).value| - 1])
  {
    var shorter := s[..|s| - 1];
    var tail := s[Width(s)..];
    if tail == [] {
      assert shorter == [] && Unescape(s).value == ['/'];
    } else {
      DropLastSlash(tail);
      assert shorter[Width(s)..] == tail[..|tail| - 1];
      assert shorter != [] && shorter[0] == s[0];
      var c, rest := Unescape(s).value[0], Unescape(tail).value;
      assert Unescape(s).value == [c] + rest;
      assert ([c] + rest)[..|rest|] == [c] + rest[..|rest| - 1];
      if Width(s) == 3 {
        assert |shorter| >= 3 && shorter[1] == s[1] && shorter[2] == s[2];
      }
    }
  }

  lemma SlashSuffix(s: Text)
    ensures TrimSuffix(s, "/") == if EndsWithSlash(s) then s[..|s| - 1] else s
  {
    assert HasSuffix(s, "/") <==> EndsWithSlash(s);
  }

  /**
    The raw path of the target decodes to its path exactly when the escaped
    path of the base does not end in an encoded slash.
   */
  lemma TargetFieldsAgree(base: UrlPath, pair: PathPair)
    requires Unescape(pair.escaped) == Some(pair.decoded)
    ensures Unescape(BuildTarget(base, pair).rawPath) == Some(BuildTarget(base, pair).path) <==>
            !EndsWithEncodedSlash(EscapedPath(base))
  {
    var baseEscaped := EscapedPath(base);
    EscapedPathDecodes(base);
    if baseEscaped != [] {
      LastUnitDecodes(baseEscaped);
      LastUnitIsSuffix(baseEscaped);
    }
    SlashSuffix(baseEscaped);
    SlashSuffix(base.path);
    if EndsWithSlash(baseEscaped) {
      DropLastSlash(baseEscaped);
    }
    UnescapeConcat(TrimSuffix(baseEscaped, "/"), pair.escaped);
    if EndsWithEncodedSlash(baseEscaped) {
      assert |base.path + pair.decoded| != |TrimSuffix(base.path, "/") + pair.decoded|;
    }
  }

  lemma EncodedSlashDecodes()
    ensures Unescape("/a%2F") == Some("/a/")
  {
    UnescapePlain("/a");
    UnescapeEncoded('/', Segment, "");
    assert Encode('/', Segment) + "" == "%2F";
    assert ['/'] + "" == "/" && "/a" + "/" == "/a/";
    UnescapeConcat("/a", "%2F");
    assert "/a" + "%2F" == "/a%2F";
  }

  /** The base URL http://host/a%2F is such a base. */
  lemma EncodedSlashBreaksAgreement()
    ensures
      var base := UrlPath("/a/", "/a%2F");
      var target := BuildTarget(base, PathPair("/x", "/x"));
      && Parse("/a%2F") == Some(base)
      && Unescape(target.rawPath) != Some(target.path)
  {
    var base := UrlPath("/a/", "/a%2F");
    EncodedSlashDecodes();
    EscapedPlain("/a/");
    UnescapePlain("/x");
    assert EscapedPath(base) == "/a%2F";
    TargetFieldsAgree(base, PathPair("/x", "/x"));
  }

  lemma {:induction false} EscapedPlain(s: Text)
    requires forall i :: 0 <= i < |s| ==> IsKept(s[i], Path)
    ensures Escape(s, Path) == s
  {
    if s != [] {
      EscapedPlain(s[1..]);
    }
  }

  predicate IsEscapedPath(s: Text) {
    s != [] && forall i :: 0 <= i < |s| ==> IsPathByte(s[i])
  }

  /** Then the request goes out with exactly the base's escaped path followed by the call's. */
  lemma TargetIsSentVerbatim(base: UrlPath, pair: PathPair)
    requires Unescape(pair.escaped) == Some(pair.decoded) && IsEscapedPath(pair.escaped)
    requires !EndsWithEncodedSlash(EscapedPath(base))
    ensures EscapedPath(BuildTarget(base, pair)) == TrimSuffix(EscapedPath(base), "/") + pair.escaped
  {
    TargetFieldsAgree(base, pair);
    EscapedPathIsValid(base);
  }
}
