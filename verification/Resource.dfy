/**
  Resource indicators (section 2 of RFC 8707): the canonical form of a server's
  URL, which published resource a server may claim (section 3.3 of RFC 9728),
  and the resolver that decides once.

  A URL is the record that url.Parse returns; its path is the escaped path.
 */
module Resource {
  import opened GoText

  datatype Url = Url(scheme: Text, host: Text, path: Text, query: Text, fragment: Text)

  /** strings.EqualFold compares texts in this form; exact for ASCII and the code points that fold to it. */
  function Folded(s: Text): Text {
    if s == [] then []
    else if |s| >= 2 && s[0] as int == 0xC5 && s[1] as int == 0xBF then "s" + Folded(s[2..])
    else if |s| >= 3 && s[0] as int == 0xE2 && s[1] as int == 0x84 && s[2] as int == 0xAA then "k" + Folded(s[3..])
    else [if 'A' <= s[0] <= 'Z' then (s[0] as int + 32) as char else s[0]] + Folded(s[1..])
  }

  predicate EqualFold(a: Text, b: Text) {
    Folded(a) == Folded(b)
  }

  lemma {:induction false} AsciiFolds(s: Text)
    requires IsAscii(s)
    ensures |Folded(s)| == |s|
    ensures forall i :: 0 <= i < |s| ==> Folded(s)[i] as int == s[i] as int + (if IsUpper(s[i]) then 32 else 0)
  {
    if s != [] {
      AsciiFolds(s[1..]);
    }
  }

  /** ASCII texts are equal up to case iff they are equal in lower case. */
  lemma FoldIsLowerCase(a: Text, b: Text)
    requires IsAscii(a) && IsAscii(b)
    ensures EqualFold(a, b) <==> ToLower(a) == ToLower(b)
  {
    AsciiFolds(a);
    AsciiFolds(b);
    AsciiInLowerCase(a);
    AsciiInLowerCase(b);
    assert Folded(a) == ToLower(a) && Folded(b) == ToLower(b);
  }

  predicate HasPrefix(s: Text, prefix: Text) {
    prefix <= s
  }

  // -------------------------------------------------------------- canonical form

  /** canonicalResourceURI; None is the error for a URL that is not absolute. */
  function Canonical(u: Url): Option<Url> {
    if u.scheme == "" || u.host == "" then None
    else Some(Url(ToLower(u.scheme), ToLower(u.host), if u.path == "/" && u.query == "" then "" else u.path, u.query, ""))
  }

  /** No two bytes of the result stand for a letter that has a lower case. */
  lemma {:induction false} ToLowerHead(s: Text)
    ensures s != [] ==> ToLower(s) != [] && (ToLower(s)[0] == s[0] || ToLower(s)[0] as int < 128)
    ensures |ToLower(s)| >= 2 && ToLower(s)[0] as int == 0x84 ==>
              |s| >= 2 && s[0] as int == 0x84 && (ToLower(s)[1] == s[1] || ToLower(s)[1] as int < 128)
  {
    if |s| >= 2 && s[0] as int == 0x84 {
      ToLowerHead(s[1..]);
    }
  }

  lemma {:induction false} ToLowerIsIdempotent(s: Text)
    ensures ToLower(ToLower(s)) == ToLower(s)
  {
    var low := ToLower(s);
    if s == [] {
    } else {
      var n := if |s| >= 2 && s[0] as int == 0xC4 && s[1] as int == 0xB0 then 2
               else if |s| >= 3 && s[0] as int == 0xE2 && s[1] as int == 0x84 && s[2] as int == 0xAA then 3
               else 1;
      ToLowerIsIdempotent(s[n..]);
      ToLowerHead(s[n..]);
      assert low == [low[0]] + ToLower(s[n..]) && low[1..] == ToLower(s[n..]);
    }
  }

  lemma CanonicalIsIdempotent(u: Url)
    requires Canonical(u).Some?
    ensures Canonical(Canonical(u).value) == Canonical(u)
  {
    ToLowerHead(u.scheme);
    ToLowerHead(u.host);
    ToLowerIsIdempotent(u.scheme);
    ToLowerIsIdempotent(u.host);
  }

  /** Canonical URLs are those in lower case, without a fragment, whose path is not a bare slash. */
  lemma CanonicalStays(u: Url)
    ensures Canonical(u) == Some(u) <==>
              && u.scheme != "" && u.host != "" && ToLower(u.scheme) == u.scheme && ToLower(u.host) == u.host
              && u.fragment == "" && !(u.path == "/" && u.query == "")
  {
  }

  /** Two URLs have one canonical form iff they differ in case, in the fragment and in a bare final slash only. */
  lemma SameCanonicalIff(u: Url, v: Url)
    requires Canonical(u).Some? && Canonical(v).Some?
    ensures Canonical(u) == Canonical(v) <==>
              && ToLower(u.scheme) == ToLower(v.scheme) && ToLower(u.host) == ToLower(v.host) && u.query == v.query
              && (u.path == v.path || (u.query == "" && u.path in {"", "/"} && v.path in {"", "/"}))
  {
  }

  /** Covering does not see the difference between the path of a URL and that of its canonical form. */
  lemma CanonicalKeepsSegments(u: Url)
    requires Canonical(u).Some?
    ensures Segments(Canonical(u).value.path) == Segments(u.path) && Canonical(u).value.query == u.query
  {
  }

  // -------------------------------------------------------------------- covering

  /** resourceCoversServer. */
  predicate Covers(resource: Url, server: Url) {
    if resource.fragment != "" then false
    else if !EqualFold(resource.scheme, server.scheme) || !EqualFold(resource.host, server.host) then false
    else
      var rp, sp := TrimSuffix(resource.path, "/"), TrimSuffix(server.path, "/");
      rp == "" || rp == sp || HasPrefix(sp, rp + "/")
  }

  /** The segments of a path, without a final slash; the root has none. */
  function Segments(path: Text): seq<Text> {
    var trimmed := TrimSuffix(path, "/");
    if trimmed == "" then [] else Split(trimmed, '/')
  }

  lemma {:induction false} SplitConcat(a: Text, b: Text)
    ensures Split(a + "/" + b, '/') == Split(a, '/') + Split(b, '/')
  {
    var s := a + "/" + b;
    if a == [] {
      assert s[1..] == b;
    } else {
      SplitConcat(a[1..], b);
      assert s[1..] == a[1..] + "/" + b;
      PrependPiece(a[0], Split(a[1..], '/'), Split(b, '/'));
    }
  }

  lemma PrependPiece(c: Byte, first: seq<Text>, second: seq<Text>)
    requires first != []
    ensures
      var both := first + second;
      && [[]] + both == ([[]] + first) + second
      && [[c] + both[0]] + both[1..] == ([[c] + first[0]] + first[1..]) + second
  {
    assert (first + second)[1..] == first[1..] + second;
  }

  lemma {:induction false} JoinConcat(a: seq<Text>, b: seq<Text>)
    requires a != [] && b != []
    ensures Join(a + b, '/') == Join(a, '/') + "/" + Join(b, '/')
  {
    assert (a + b)[1..] == a[1..] + b;
    if |a| > 1 {
      JoinConcat(a[1..], b);
      assert Join(a + b, '/') == a[0] + "/" + (Join(a[1..], '/') + "/" + Join(b, '/'));
    } else {
      assert a + b == [a[0]] + b;
    }
  }

  lemma ExtendedByPieces(r: Text, s: Text)
    requires HasPrefix(s, r + "/")
    ensures Split(r, '/') <= Split(s, '/')
  {
    var rest := s[|r| + 1..];
    assert s == r + "/" + rest;
    SplitConcat(r, rest);
  }

  lemma JoinOfExtended(a: seq<Text>, b: seq<Text>)
    requires a != [] && b != []
    ensures HasPrefix(Join(a + b, '/'), Join(a, '/') + "/")
  {
    JoinConcat(a, b);
    PrefixOfConcat(Join(a, '/') + "/", Join(b, '/'));
  }

  lemma PrefixOfConcat(a: Text, b: Text)
    ensures a <= a + b
  {
  }

  lemma RestOfPrefix(a: seq<Text>, b: seq<Text>)
    requires a <= b
    ensures b == a + b[|a|..]
  {
  }

  lemma ExtendedAfterSlash(r: Text, s: Text)
    requires Split(r, '/') <= Split(s, '/')
    ensures r == s || HasPrefix(s, r + "/")
  {
    var rs, ss := Split(r, '/'), Split(s, '/');
    JoinSplit(r, '/');
    JoinSplit(s, '/');
    RestOfPrefix(rs, ss);
    if ss[|rs|..] == [] {
      assert rs + [] == rs;
    } else {
      JoinOfExtended(rs, ss[|rs|..]);
    }
  }

  /** For a text, to be equal or to be extended after a slash is to be extended by pieces. */
  lemma PrefixOfPieces(r: Text, s: Text)
    ensures r == s || HasPrefix(s, r + "/") <==> Split(r, '/') <= Split(s, '/')
  {
    if HasPrefix(s, r + "/") {
      ExtendedByPieces(r, s);
    }
    if Split(r, '/') <= Split(s, '/') {
      ExtendedAfterSlash(r, s);
    }
  }

  /** A resource covers a server iff scheme and host agree and its path is a segment prefix. */
  lemma CoversIff(resource: Url, server: Url)
    ensures Covers(resource, server) <==>
              && resource.fragment == ""
              && EqualFold(resource.scheme, server.scheme) && EqualFold(resource.host, server.host)
              && Segments(resource.path) <= Segments(server.path)
  {
    var rp, sp := TrimSuffix(resource.path, "/"), TrimSuffix(server.path, "/");
    PrefixOfPieces(rp, sp);
    if rp != "" && sp == "" {
      assert !HasPrefix(sp, rp + "/");
    }
  }

  lemma CoversIsReflexive(u: Url)
    requires u.fragment == ""
    ensures Covers(u, u)
  {
  }

  lemma CoversIsTransitive(a: Url, b: Url, c: Url)
    requires Covers(a, b) && Covers(b, c)
    ensures Covers(a, c)
  {
    CoversIff(a, b);
    CoversIff(b, c);
    CoversIff(a, c);
  }

  /** Two resources that cover each other name the same scheme, host and segments. */
  lemma CoveringBothWays(a: Url, b: Url)
    requires Covers(a, b) && Covers(b, a)
    ensures EqualFold(a.scheme, b.scheme) && EqualFold(a.host, b.host) && Segments(a.path) == Segments(b.path)
  {
    CoversIff(a, b);
    CoversIff(b, a);
  }

  // -------------------------------------------------------------------- resolving

  /** What one metadata location answers. */
  datatype Metadata = Unreadable | NamesNothing | NamesUnparsable | Names(resource: Url)

  const WELL_KNOWN: Text := "/.well-known/oauth-protected-resource"

  /** protectedResourceMetadataURLs. */
  function MetadataUrls(server: Url): seq<Url> {
    var path := TrimSuffix(server.path, "/");
    var root := Url(server.scheme, server.host, WELL_KNOWN, "", "");
    if path == "" then [root] else [root.(path := WELL_KNOWN + path), root]
  }

  /** The first readable metadata decides. */
  function Published(locations: seq<Url>, canonical: Url, fetch: Url -> Metadata): Option<Url>
    decreases |locations|
  {
    if locations == [] then None
    else
      match fetch(locations[0])
      case Unreadable => Published(locations[1..], canonical, fetch)
      case NamesNothing => None
      case NamesUnparsable => None
      case Names(resource) => if Covers(resource, canonical) then Some(resource) else None
  }

  function Resolution(server: Option<Url>, fetch: Url -> Metadata): Option<Url> {
    match server
    case None => None
    case Some(u) =>
      match Canonical(u)
      case None => None
      case Some(canonical) =>
        var published := Published(MetadataUrls(canonical), canonical, fetch);
        if published.Some? then published else Some(canonical)
  }

  lemma {:induction false} PublishedCovers(locations: seq<Url>, canonical: Url, fetch: Url -> Metadata)
    ensures
      var published := Published(locations, canonical, fetch);
      published.Some? ==> Covers(published.value, canonical)
    decreases |locations|
  {
    if locations != [] {
      PublishedCovers(locations[1..], canonical, fetch);
    }
  }

  /** Where metadata is looked for: under the well-known path in front of the server's own, then at the host's root. */
  lemma WhereMetadataIs(server: Url)
    ensures
      var locations, path := MetadataUrls(server), TrimSuffix(server.path, "/");
      && |locations| == (if path == "" then 1 else 2)
      && (forall l :: l in locations ==> l.scheme == server.scheme && l.host == server.host && l.query == "" && l.fragment == "")
      && locations[0].path == "/.well-known/oauth-protected-resource" + path
      && locations[|locations| - 1].path == "/.well-known/oauth-protected-resource"
  {
    var path := TrimSuffix(server.path, "/");
    if path == "" {
      assert WELL_KNOWN + path == WELL_KNOWN;
    }
  }

  lemma {:induction false} PublishedIs(locations: seq<Url>, canonical: Url, fetch: Url -> Metadata, i: nat)
    requires i <= |locations| && forall j :: 0 <= j < i ==> fetch(locations[j]).Unreadable?
    ensures i == |locations| ==> Published(locations, canonical, fetch) == None
    ensures i < |locations| && !fetch(locations[i]).Unreadable? ==>
              var answer := fetch(locations[i]);
              Published(locations, canonical, fetch) ==
                if answer.Names? && Covers(answer.resource, canonical) then Some(answer.resource) else None
    decreases |locations|
  {
    if i > 0 {
      PublishedIs(locations[1..], canonical, fetch, i - 1);
    }
  }

  /**
    What is sent: the resource that the first readable location names, if it
    covers the server, and the server's canonical URL in every other case.
   */
  lemma ResolutionIs(server: Url, fetch: Url -> Metadata, i: nat)
    requires Canonical(server).Some?
    requires
      var locations := MetadataUrls(Canonical(server).value);
      && i <= |locations| && (forall j :: 0 <= j < i ==> fetch(locations[j]).Unreadable?)
      && (i < |locations| ==> !fetch(locations[i]).Unreadable?)
    ensures
      var canonical := Canonical(server).value;
      var locations := MetadataUrls(canonical);
      var named := if i < |locations| then fetch(locations[i]) else Unreadable;
      Resolution(Some(server), fetch) ==
        if named.Names? && Covers(named.resource, canonical) then Some(named.resource) else Some(canonical)
  {
    PublishedIs(MetadataUrls(Canonical(server).value), Canonical(server).value, fetch, i);
  }

  /** Whatever is published: nothing is sent iff the URL is not absolute, and what is sent covers the server. */
  lemma ResolutionCovers(server: Option<Url>, fetch: Url -> Metadata)
    ensures Resolution(server, fetch).Some? <==> server.Some? && Canonical(server.value).Some?
    ensures Resolution(server, fetch).Some? ==> Covers(Resolution(server, fetch).value, Canonical(server.value).value)
  {
    if server.Some? && Canonical(server.value).Some? {
      var canonical := Canonical(server.value).value;
      PublishedCovers(MetadataUrls(canonical), canonical, fetch);
      CoversIsReflexive(canonical);
    }
  }

  /** `server` is the configured URL, parsed if it can be; a value of None is the empty text. */
  class ResourceResolver {
    const server: Option<Url>
    var resolved: bool
    var value: Option<Url>

    constructor (configured: Option<Url>)
      ensures !resolved && value == None && server == configured
    {
      server, resolved, value := configured, false, None;
    }

    method Resolve(fetch: Url -> Metadata) returns (r: Option<Url>)
      requires !resolved ==> value == None
      modifies this
      ensures resolved && r == value
      ensures value == if old(resolved) then old(value) else Resolution(server, fetch)
    {
      if resolved {
        return value;
      }
      if server.None? || Canonical(server.value).None? {
        resolved := true;
        return None;
      }
      var fallback := Canonical(server.value).value;
      value := Some(fallback);
      var published := FetchPublishedResource(fallback, fetch);
      if published.Some? {
        value := published;
      }
      resolved := true;
      return value;
    }
  }

  method FetchPublishedResource(canonical: Url, fetch: Url -> Metadata) returns (r: Option<Url>)
    ensures r == Published(MetadataUrls(canonical), canonical, fetch)
  {
    var locations := MetadataUrls(canonical);
    for i := 0 to |locations|
      invariant Published(locations[i..], canonical, fetch) == Published(locations, canonical, fetch)
    {
      assert locations[i..][0] == locations[i] && locations[i..][1..] == locations[i + 1..];
      var metadata := fetch(locations[i]);
      if metadata.Unreadable? {
        continue;
      }
      if !metadata.Names? {
        return None;
      }
      if !Covers(metadata.resource, canonical) {
        return None;
      }
      return Some(metadata.resource);
    }
    return None;
  }

  /** Whatever is published in between, a resolver keeps its first answer. */
  method ResolveAgain(server: Option<Url>, first: Url -> Metadata, later: Url -> Metadata)
    returns (one: Option<Url>, two: Option<Url>)
    ensures one == two
    ensures one.None? <==> server.None? || Canonical(server.value).None?
    ensures one.Some? ==> Covers(one.value, Canonical(server.value).value)
  {
    var resolver := new ResourceResolver(server);
    one := resolver.Resolve(first);
    two := resolver.Resolve(later);
    ResolutionCovers(server, first);
  }

  // --------------------------------------------------------- authorization requests

  /** url.Values. */
  type Query = map<Text, seq<Text>>

  const RESOURCE: Text := "resource"

  function Get(query: Query, key: Text): Text {
    if key in query && query[key] != [] then query[key][0] else ""
  }

  /** withResourceParam, on the query of the authorization URL. */
  function WithResource(query: Query, resource: Text): Query {
    if resource == "" || Get(query, RESOURCE) != "" then query else query[RESOURCE := [resource]]
  }

  /** The parameter is added once: a resource that is there stays, whichever is offered later. */
  lemma ResourceIsAddedOnce(query: Query, resource: Text, later: Text)
    ensures resource != "" || Get(query, RESOURCE) != "" ==>
              WithResource(WithResource(query, resource), later) == WithResource(query, resource)
    ensures WithResource(WithResource(query, resource), resource) == WithResource(query, resource)
    ensures Get(WithResource(query, resource), RESOURCE) == if Get(query, RESOURCE) != "" then Get(query, RESOURCE) else resource
    ensures WithResource(query, resource) - {RESOURCE} == query - {RESOURCE}
  {
  }
}
