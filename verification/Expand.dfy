/**
  Environment expansion in configuration values: a token grammar that says what
  a value means, and the one-pass scanner that is proved to follow it.
 */
module Expand {
  import opened GoText

  type Environment = map<Text, Text>

  // --------------------------------------------------------------------- grammar

  datatype Token =
    | Plain(c: Byte)
    | Dollar                             // $$
    | Bare(name: Text)                   // $NAME
    | Braced(name: Text)                 // ${NAME}
    | Fallback(name: Text, fallback: Text) // ${NAME:-fallback}

  predicate IsVarStart(c: Byte) {
    c == '_' || 'a' <= c <= 'z' || 'A' <= c <= 'Z'
  }

  predicate IsVarRune(c: Byte) {
    IsVarStart(c) || '0' <= c <= '9'
  }

  /** The text that a token was read from. */
  function Source(token: Token): Text {
    match token
    case Plain(c) => [c]
    case Dollar => "$$"
    case Bare(name) => "$" + name
    case Braced(name) => "${" + name + "}"
    case Fallback(name, fallback) => "${" + name + ":-" + fallback + "}"
  }

  /** How many bytes that text has. */
  function Width(token: Token): nat {
    match token
    case Plain(_) => 1
    case Dollar => 2
    case Bare(name) => 1 + |name|
    case Braced(name) => 3 + |name|
    case Fallback(name, fallback) => 5 + |name| + |fallback|
  }

  /** strings.IndexByte: the position of the first `c`. */
  function IndexByte(s: Text, c: Byte): (i: Option<nat>)
    ensures i.Some? ==> i.value < |s|
  {
    if s == [] then None
    else if s[0] == c then Some(0)
    else
      match IndexByte(s[1..], c)
      case None => None
      case Some(k) => Some(k + 1)
  }

  lemma {:induction false} IndexByteFinds(s: Text, c: Byte)
    ensures
      match IndexByte(s, c)
      case Some(i) => s[i] == c && forall k :: 0 <= k < i ==> s[k] != c
      case None => forall k :: 0 <= k < |s| ==> s[k] != c
  {
    if s != [] {
      IndexByteFinds(s[1..], c);
      assert forall k :: 1 <= k < |s| ==> s[k] == s[1..][k - 1];
    }
  }

  /** strings.Index(s, ":-"). */
  function IndexMark(s: Text): (i: Option<nat>)
    ensures i.Some? ==> i.value + 2 <= |s| && s[i.value] == ':' && s[i.value + 1] == '-'
  {
    if |s| < 2 then None
    else if s[0] == ':' && s[1] == '-' then Some(0)
    else
      match IndexMark(s[1..])
      case None => None
      case Some(k) => Some(k + 1)
  }

  /** What stands between the braces. */
  function Spec(spec: Text): Token {
    match IndexMark(spec)
    case Some(k) => Fallback(spec[..k], spec[k + 2..])
    case None => Braced(spec)
  }

  /** The longest run of name characters at the start of `s`. */
  function NameRun(s: Text): (n: nat)
    ensures n <= |s|
  {
    if s != [] && IsVarRune(s[0]) then 1 + NameRun(s[1..]) else 0
  }

  /** The first token of a text. */
  function First(s: Text): Token
    requires s != []
  {
    if s[0] != '$' || |s| == 1 then Plain(s[0])
    else if s[1] == '$' then Dollar
    else if s[1] == '{' then
      match IndexByte(s[2..], '}')
      case None => Plain('$')
      case Some(k) => Spec(s[2..2 + k])
    else if IsVarStart(s[1]) then Bare(s[1..1 + NameRun(s[1..])])
    else Plain('$')
  }

  /** A closed reference in braces at the start of a text. */
  lemma BracedFirst(s: Text, k: nat)
    requires |s| >= 2 && s[0] == '$' && s[1] == '{' && IndexByte(s[2..], '}') == Some(k)
    ensures First(s) == Spec(s[2..2 + k]) && Width(First(s)) == k + 3 <= |s|
  {
  }

  lemma FirstFits(s: Text)
    requires s != []
    ensures 0 < Width(First(s)) <= |s|
  {
    if |s| > 1 && s[0] == '$' && s[1] == '{' && IndexByte(s[2..], '}').Some? {
      BracedFirst(s, IndexByte(s[2..], '}').value);
    }
  }

  function Tokens(s: Text): seq<Token> {
    if s == [] then []
    else
      FirstFits(s);
      [First(s)] + Tokens(s[Width(First(s))..])
  }

  // --------------------------------------------------------------------- meaning

  function Value(token: Token, env: Environment): Text {
    match token
    case Plain(c) => [c]
    case Dollar => "$"
    case Bare(name) => if name in env then env[name] else ""
    case Braced(name) => if name in env then env[name] else ""
    case Fallback(name, fallback) => if name in env && env[name] != "" then env[name] else fallback
  }

  function Values(tokens: seq<Token>, env: Environment): Text {
    if tokens == [] then [] else Value(tokens[0], env) + Values(tokens[1..], env)
  }

  /** The token refers to a variable without a fallback. */
  predicate IsReference(token: Token) {
    token.Bare? || token.Braced?
  }

  predicate IsMissing(token: Token, env: Environment) {
    IsReference(token) && token.name != "" && token.name !in env
  }

  /** The name in the leftmost reference to an unset variable, or the empty text. */
  function FirstMissing(tokens: seq<Token>, env: Environment): Text {
    if tokens == [] then ""
    else if IsMissing(tokens[0], env) then tokens[0].name
    else FirstMissing(tokens[1..], env)
  }

  datatype Expansion = Expansion(text: Text, missing: Text)

  function Expanded(s: Text, env: Environment): Expansion {
    Expansion(Values(Tokens(s), env), FirstMissing(Tokens(s), env))
  }

  // --------------------------------------------------------------------- scanner

  method Lookup(name: Text, env: Environment, missing: Text) returns (value: Text, missing': Text)
    ensures value == if name in env then env[name] else ""
    ensures missing' == if name !in env && missing == "" then name else missing
  {
    value := if name in env then env[name] else "";
    missing' := if name !in env && missing == "" then name else missing;
  }

  /** The reported name after a token: the first one stays. */
  function NowMissing(missing: Text, token: Token, env: Environment): Text {
    if missing == "" && IsMissing(token, env) then token.name else missing
  }

  /** The body of the loop at position `i`: what is written, and where the scanner goes on. */
  method ScanToken(s: Text, i: nat, env: Environment, missing: Text)
    returns (chunk: Text, next: nat, missing': Text)
    requires i < |s|
    ensures
      var token := First(s[i..]);
      && chunk == Value(token, env) && next == i + Width(token)
      && missing' == NowMissing(missing, token, env)
  {
    if s[i] != '$' || i + 1 >= |s| {
      return [s[i]], i + 1, missing;
    }
    if s[i + 1] == '$' {
      return "$", i + 2, missing;
    }
    if s[i + 1] == '{' {
      chunk, next, missing' := ScanBraced(s, i, env, missing);
      return;
    }
    if !IsVarStart(s[i + 1]) {
      return "$", i + 1, missing;
    }
    chunk, next, missing' := ScanName(s, i, env, missing);
  }

  method ScanName(s: Text, i: nat, env: Environment, missing: Text)
    returns (chunk: Text, next: nat, missing': Text)
    requires i + 1 < |s| && s[i] == '$' && IsVarStart(s[i + 1])
    ensures
      var token := First(s[i..]);
      && chunk == Value(token, env) && next == i + Width(token)
      && missing' == NowMissing(missing, token, env)
  {
    var j := i + 2;
    while j < |s| && IsVarRune(s[j])
      invariant i + 2 <= j <= |s|
      invariant forall k :: i + 1 <= k < j ==> IsVarRune(s[k])
    {
      j := j + 1;
    }
    BareToken(s, i, j);
    chunk, missing' := Lookup(s[i + 1..j], env, missing);
    next := j;
  }

  lemma {:induction false} NameRunIs(s: Text, n: nat)
    requires n <= |s| && forall i :: 0 <= i < n ==> IsVarRune(s[i])
    requires n < |s| ==> !IsVarRune(s[n])
    ensures NameRun(s) == n
  {
    if n > 0 {
      NameRunIs(s[1..], n - 1);
    }
  }

  lemma BareToken(s: Text, i: nat, j: nat)
    requires i + 2 <= j <= |s| && s[i] == '$' && IsVarStart(s[i + 1])
    requires forall k :: i + 1 <= k < j ==> IsVarRune(s[k])
    requires j < |s| ==> !IsVarRune(s[j])
    ensures First(s[i..]) == Bare(s[i + 1..j])
  {
    var tail, n := s[i + 1..], j - i - 1;
    NameRunIs(tail, n);
    assert s[i..][1..] == tail && s[i..][1..1 + n] == tail[..n] == s[i + 1..j];
  }

  lemma SliceOfDrop(s: Text, i: nat, k: nat)
    requires i + 2 + k <= |s|
    ensures s[i..][2..2 + k] == s[i + 2..i + 2 + k] && s[i..][2..] == s[i + 2..]
  {
  }

  lemma BracedToken(s: Text, i: nat, k: nat)
    requires i + 1 < |s| && s[i] == '$' && s[i + 1] == '{' && IndexByte(s[i + 2..], '}') == Some(k)
    ensures First(s[i..]) == Spec(s[i + 2..i + 2 + k]) && Width(First(s[i..])) == k + 3
  {
    assert s[i..][2..] == s[i + 2..];
    BracedFirst(s[i..], k);
    SliceOfDrop(s, i, k);
  }

  lemma UnclosedToken(s: Text, i: nat)
    requires i + 1 < |s| && s[i] == '$' && s[i + 1] == '{' && IndexByte(s[i + 2..], '}') == None
    ensures First(s[i..]) == Plain('$')
  {
    assert s[i..][2..] == s[i + 2..];
  }

  method ScanBraced(s: Text, i: nat, env: Environment, missing: Text)
    returns (chunk: Text, next: nat, missing': Text)
    requires i + 1 < |s| && s[i] == '$' && s[i + 1] == '{'
    ensures
      var token := First(s[i..]);
      && chunk == Value(token, env) && next == i + Width(token)
      && missing' == NowMissing(missing, token, env)
  {
    var rel := IndexByte(s[i + 2..], '}');
    if rel.None? {
      UnclosedToken(s, i);
      return "$", i + 1, missing;
    }
    BracedToken(s, i, rel.value);
    chunk, missing' := ScanSpec(s[i + 2..i + 2 + rel.value], env, missing);
    next := i + 3 + rel.value;
  }

  /** What stands between braces: a name, or a name with a fallback. */
  method ScanSpec(spec: Text, env: Environment, missing: Text) returns (chunk: Text, missing': Text)
    ensures chunk == Value(Spec(spec), env) && missing' == NowMissing(missing, Spec(spec), env)
  {
    var idx := IndexMark(spec);
    if idx.Some? {
      var name, fallback := spec[..idx.value], spec[idx.value + 2..];
      chunk := if name in env && env[name] != "" then env[name] else fallback;
      missing' := missing;
    } else {
      chunk, missing' := Lookup(spec, env, missing);
    }
  }

  /** One round of the scanner consumes the first token of what is left. */
  lemma TakeToken(s: Text, i: nat, env: Environment)
    requires i < |s|
    ensures
      var token := First(s[i..]);
      var next := i + Width(token);
      && i < next <= |s|
      && Tokens(s[i..]) == [token] + Tokens(s[next..])
      && Values(Tokens(s[i..]), env) == Value(token, env) + Values(Tokens(s[next..]), env)
      && FirstMissing(Tokens(s[i..]), env) ==
         if IsMissing(token, env) then token.name else FirstMissing(Tokens(s[next..]), env)
  {
    var token := First(s[i..]);
    FirstFits(s[i..]);
    assert s[i..][Width(token)..] == s[i + Width(token)..];
    assert Tokens(s[i..])[1..] == Tokens(s[i + Width(token)..]);
  }

  /** What is written and reported so far, completed by the expansion of the rest. */
  function Appended(out: Text, missing: Text, rest: Expansion): Expansion {
    Expansion(out + rest.text, if missing != "" then missing else rest.missing)
  }

  /** A token, followed by what the rest expands to. */
  function Starting(token: Token, rest: Expansion, env: Environment): Expansion {
    Expansion(Value(token, env) + rest.text, if IsMissing(token, env) then token.name else rest.missing)
  }

  lemma TakeValue(s: Text, i: nat, env: Environment)
    requires i < |s|
    ensures
      var token := First(s[i..]);
      var next := i + Width(token);
      i < next <= |s| && Expanded(s[i..], env) == Starting(token, Expanded(s[next..], env), env)
  {
    TakeToken(s, i, env);
  }

  lemma AppendedStarting(out: Text, missing: Text, token: Token, rest: Expansion, env: Environment)
    ensures Appended(out, missing, Starting(token, rest, env)) ==
            Appended(out + Value(token, env), NowMissing(missing, token, env), rest)
  {
    Associative(out, Value(token, env), rest.text);
  }

  lemma StepCompletes(out: Text, missing: Text, token: Token, here: Expansion, rest: Expansion, whole: Expansion,
                      env: Environment)
    requires Appended(out, missing, here) == whole && here == Starting(token, rest, env)
    ensures Appended(out + Value(token, env), NowMissing(missing, token, env), rest) == whole
  {
    AppendedStarting(out, missing, token, rest, env);
  }

  ghost predicate IsExpandedUpTo(s: Text, i: nat, out: Text, missing: Text, env: Environment) {
    i <= |s| && Appended(out, missing, Expanded(s[i..], env)) == Expanded(s, env)
  }

  lemma TokenAppended(s: Text, i: nat, next: nat, token: Token, out: Text, missing: Text, env: Environment)
    requires i < next <= |s| && Expanded(s[i..], env) == Starting(token, Expanded(s[next..], env), env)
    requires Appended(out, missing, Expanded(s[i..], env)) == Expanded(s, env)
    ensures Appended(out + Value(token, env), NowMissing(missing, token, env), Expanded(s[next..], env)) == Expanded(s, env)
  {
    StepCompletes(out, missing, token, Expanded(s[i..], env), Expanded(s[next..], env), Expanded(s, env), env);
  }

  lemma ScanStep(s: Text, i: nat, out: Text, missing: Text, env: Environment)
    requires i < |s| && IsExpandedUpTo(s, i, out, missing, env)
    ensures
      var token := First(s[i..]);
      var next := i + Width(token);
      i < next <= |s| && IsExpandedUpTo(s, next, out + Value(token, env), NowMissing(missing, token, env), env)
  {
    TakeValue(s, i, env);
    TokenAppended(s, i, i + Width(First(s[i..])), First(s[i..]), out, missing, env);
  }

  method Advance(s: Text, i: nat, out: Text, missing: Text, env: Environment)
    returns (next: nat, out': Text, missing': Text)
    requires i < |s| && IsExpandedUpTo(s, i, out, missing, env)
    ensures i < next <= |s| && IsExpandedUpTo(s, next, out', missing', env)
  {
    ScanStep(s, i, out, missing, env);
    var chunk: Text;
    chunk, next, missing' := ScanToken(s, i, env, missing);
    out' := out + chunk;
  }

  method ExpandEnvStrict(s: Text, env: Environment) returns (r: Expansion)
    ensures r == Expanded(s, env)
  {
    var out: Text := [];
    var missing: Text := [];
    var i := 0;
    assert s[0..] == s;
    while i < |s|
      invariant IsExpandedUpTo(s, i, out, missing, env)
    {
      i, out, missing := Advance(s, i, out, missing, env);
    }
    r := Expansion(out, missing);
  }

  // ------------------------------------------------------------------------- laws

  function Sources(tokens: seq<Token>): Text {
    if tokens == [] then [] else Source(tokens[0]) + Sources(tokens[1..])
  }

  lemma SpecIsSource(spec: Text)
    ensures Source(Spec(spec)) == "${" + spec + "}"
  {
    var k := IndexMark(spec);
    if k.Some? {
      assert spec == spec[..k.value] + ":-" + spec[k.value + 2..];
      assert "${" + spec[..k.value] + ":-" + spec[k.value + 2..] + "}" == "${" + spec + "}";
    }
  }

  lemma FirstIsSource(s: Text)
    requires s != []
    ensures Width(First(s)) <= |s| && s[..Width(First(s))] == Source(First(s))
  {
    FirstFits(s);
    if |s| > 1 && s[0] == '$' && s[1] == '{' && IndexByte(s[2..], '}').Some? {
      var k := IndexByte(s[2..], '}').value;
      BracedFirst(s, k);
      IndexByteFinds(s[2..], '}');
      BracedSource(s, k);
    }
  }

  lemma BracedSource(s: Text, k: nat)
    requires 2 + k < |s| && s[0] == '$' && s[1] == '{' && s[2 + k] == '}'
    ensures s[..k + 3] == Source(Spec(s[2..2 + k]))
  {
    SpecIsSource(s[2..2 + k]);
    BracesAround(s, k);
  }

  lemma BracesAround(s: Text, k: nat)
    requires 2 + k < |s| && s[0] == '$' && s[1] == '{' && s[2 + k] == '}'
    ensures s[..k + 3] == "${" + s[2..2 + k] + "}"
  {
  }

  /** Reading a text as tokens loses nothing. */
  lemma {:induction false} TokensAreLossless(s: Text)
    ensures Sources(Tokens(s)) == s
    decreases |s|
  {
    if s != [] {
      FirstIsSource(s);
      FirstFits(s);
      TokensAreLossless(s[Width(First(s))..]);
      assert s == s[..Width(First(s))] + s[Width(First(s))..];
    }
  }

  function Doubled(s: Text): Text {
    if s == [] then [] else (if s[0] == '$' then "$$" else [s[0]]) + Doubled(s[1..])
  }

  /** Doubling every dollar sign protects a value from expansion. */
  lemma {:induction false} DoublingProtects(s: Text, env: Environment)
    ensures Expanded(Doubled(s), env) == Expansion(s, "")
  {
    if s != [] {
      var d := Doubled(s);
      var head := if s[0] == '$' then "$$" else [s[0]];
      assert d == head + Doubled(s[1..]) && d[|head|..] == Doubled(s[1..]);
      assert Width(First(d)) == |head|;
      TakeToken(d, 0, env);
      assert d[0..] == d;
      DoublingProtects(s[1..], env);
      assert [s[0]] + s[1..] == s;
    }
  }

  /** A token of the text ends at position `i`, or `i` is its start. */
  predicate IsBoundary(s: Text, i: nat)
    decreases |s|
  {
    if i == 0 then true
    else if i > |s| then false
    else
      FirstFits(s);
      var n := Width(First(s));
      n <= i && IsBoundary(s[n..], i - n)
  }

  lemma {:induction false} SameIndexByte(s: Text, c: Byte, n: nat)
    requires n <= |s|
    ensures IndexByte(s[..n], c) ==
            if IndexByte(s, c).Some? && IndexByte(s, c).value < n then IndexByte(s, c) else None
  {
    if n > 0 && s[0] != c {
      assert s[..n][1..] == s[1..][..n - 1];
      SameIndexByte(s[1..], c, n - 1);
    }
  }

  lemma {:induction false} SameNameRun(s: Text, n: nat)
    requires n <= |s|
    ensures NameRun(s[..n]) == if NameRun(s) <= n then NameRun(s) else n
  {
    if n > 0 && IsVarRune(s[0]) {
      assert s[..n][1..] == s[1..][..n - 1];
      SameNameRun(s[1..], n - 1);
    }
  }

  lemma ClosedIsLocal(s: Text, i: nat, k: nat)
    requires |s| >= 2 && s[0] == '$' && s[1] == '{' && IndexByte(s[2..], '}') == Some(k) && k + 3 <= i <= |s|
    ensures First(s[..i]) == First(s)
  {
    var cut := s[..i];
    assert cut[2..] == s[2..][..i - 2];
    SameIndexByte(s[2..], '}', i - 2);
    BracedFirst(s, k);
    BracedFirst(cut, k);
    assert cut[2..2 + k] == s[2..2 + k];
  }

  lemma UnclosedIsLocal(s: Text, i: nat)
    requires |s| >= 2 && s[0] == '$' && s[1] == '{' && IndexByte(s[2..], '}').None? && 0 < i <= |s|
    ensures First(s[..i]) == First(s)
  {
    if i > 1 {
      SameIndexByte(s[2..], '}', i - 2);
      assert s[..i][2..] == s[2..][..i - 2];
    }
  }

  lemma BareIsLocal(s: Text, i: nat)
    requires |s| >= 2 && s[0] == '$' && IsVarStart(s[1]) && Width(First(s)) <= i <= |s|
    ensures i > 0 && First(s[..i]) == First(s)
  {
    var n := NameRun(s[1..]);
    SameNameRun(s[1..], i - 1);
    assert s[..i][1..] == s[1..][..i - 1];
    assert s[..i][1..1 + n] == s[1..1 + n];
  }

  /** Cutting a text behind its first token does not change that token. */
  lemma FirstIsLocal(s: Text, i: nat)
    requires s != [] && Width(First(s)) <= i <= |s|
    ensures i > 0 && First(s[..i]) == First(s)
  {
    if |s| >= 2 && s[0] == '$' && s[1] == '{' {
      match IndexByte(s[2..], '}') {
        case Some(k) =>
          BracedFirst(s, k);
          ClosedIsLocal(s, i, k);
        case None =>
          UnclosedIsLocal(s, i);
      }
    } else if |s| >= 2 && s[0] == '$' && IsVarStart(s[1]) {
      BareIsLocal(s, i);
    }
  }

  lemma TakeFirst(s: Text)
    requires s != []
    ensures Width(First(s)) <= |s| && Tokens(s) == [First(s)] + Tokens(s[Width(First(s))..])
  {
    FirstFits(s);
  }

  lemma FirstOfPrefix(a: Text, b: Text)
    requires a + b != [] && Width(First(a + b)) <= |a|
    ensures a != [] && First(a) == First(a + b)
  {
    FirstFits(a + b);
    FirstIsLocal(a + b, |a|);
    assert (a + b)[..|a|] == a;
  }

  lemma BoundaryOfTail(a: Text, b: Text)
    requires a != [] && IsBoundary(a + b, |a|)
    ensures Width(First(a + b)) <= |a|
    ensures IsBoundary(a[Width(First(a + b))..] + b, |a| - Width(First(a + b)))
  {
    var n := Width(First(a + b));
    assert (a + b)[n..] == a[n..] + b;
  }

  lemma TokensOfConcat(a: Text, b: Text, n: nat)
    requires a != [] && n == Width(First(a + b)) <= |a|
    ensures Tokens(a) == [First(a + b)] + Tokens(a[n..])
    ensures Tokens(a + b) == [First(a + b)] + Tokens(a[n..] + b)
  {
    FirstOfPrefix(a, b);
    TakeFirst(a);
    TakeFirst(a + b);
    DropOfConcat(a, b, n);
  }

  lemma {:induction false} TokensConcat(a: Text, b: Text)
    requires IsBoundary(a + b, |a|)
    ensures Tokens(a + b) == Tokens(a) + Tokens(b)
    decreases |a|
  {
    if a == [] {
      assert a + b == b;
    } else {
      var n := Width(First(a + b));
      FirstFits(a + b);
      BoundaryOfTail(a, b);
      TokensConcat(a[n..], b);
      TokensOfConcat(a, b, n);
      PrependSplit(First(a + b), Tokens(a[n..] + b), Tokens(a[n..]), Tokens(b));
    }
  }

  lemma PrependSplit(token: Token, tail: seq<Token>, left: seq<Token>, right: seq<Token>)
    requires tail == left + right
    ensures [token] + tail == [token] + left + right
  {
  }

  lemma {:induction false} ConcatTokens(a: seq<Token>, b: seq<Token>, env: Environment)
    ensures Values(a + b, env) == Values(a, env) + Values(b, env)
    ensures FirstMissing(a + b, env) == if FirstMissing(a, env) != "" then FirstMissing(a, env) else FirstMissing(b, env)
  {
    if a == [] {
      assert a + b == b;
    } else {
      assert (a + b)[1..] == a[1..] + b;
      ConcatTokens(a[1..], b, env);
    }
  }

  /** Expansion distributes over concatenation wherever a token ends. */
  lemma ExpansionDistributes(a: Text, b: Text, env: Environment)
    requires IsBoundary(a + b, |a|)
    ensures
      var left, right := Expanded(a, env), Expanded(b, env);
      Expanded(a + b, env) == Expansion(left.text + right.text, if left.missing != "" then left.missing else right.missing)
  {
    TokensConcat(a, b);
    ConcatTokens(Tokens(a), Tokens(b), env);
  }

  ghost predicate IsLeftmostMissing(tokens: seq<Token>, i: nat, env: Environment) {
    && i < |tokens| && IsMissing(tokens[i], env)
    && forall k :: 0 <= k < i ==> !IsMissing(tokens[k], env)
  }

  /** The reported name is that of the leftmost reference to an unset variable. */
  lemma {:induction false} MissingIsLeftmost(tokens: seq<Token>, env: Environment)
    ensures FirstMissing(tokens, env) == "" <==> forall i :: 0 <= i < |tokens| ==> !IsMissing(tokens[i], env)
    ensures FirstMissing(tokens, env) != "" ==>
              exists i: nat :: IsLeftmostMissing(tokens, i, env) && tokens[i].name == FirstMissing(tokens, env)
  {
    if tokens != [] {
      if IsMissing(tokens[0], env) {
        assert IsLeftmostMissing(tokens, 0, env);
      } else {
        MissingIsLeftmost(tokens[1..], env);
        assert forall k :: 0 < k < |tokens| ==> tokens[k] == tokens[1..][k - 1];
        if i: nat :| IsLeftmostMissing(tokens[1..], i, env) && tokens[1..][i].name == FirstMissing(tokens[1..], env) {
          assert IsLeftmostMissing(tokens, i + 1, env);
        }
      }
    }
  }

  lemma {:induction false} IndexByteSkips(a: Text, c: Byte, b: Text)
    requires c !in a
    ensures IndexByte(a + [c] + b, c) == Some(|a|)
  {
    if a != [] {
      assert (a + [c] + b)[1..] == a[1..] + [c] + b;
      IndexByteSkips(a[1..], c, b);
    }
  }

  predicate HasMark(s: Text) {
    exists i :: 0 <= i < |s| - 1 && s[i] == ':' && s[i + 1] == '-'
  }

  lemma {:induction false} IndexMarkSkips(name: Text, rest: Text)
    requires !HasMark(name)
    ensures IndexMark(name + ":-" + rest) == Some(|name|)
  {
    var s := name + ":-" + rest;
    if name != [] {
      assert s[1..] == name[1..] + ":-" + rest;
      IndexMarkSkips(name[1..], rest);
      assert s[0] == name[0] && s[1] == if |name| > 1 then name[1] else ':';
    }
  }

  function FallbackText(name: Text, fallback: Text): Text {
    "${" + name + ":-" + fallback + "}"
  }

  lemma SpecIsRead(spec: Text, rest: Text)
    requires '}' !in spec
    ensures First("${" + spec + "}" + rest) == Spec(spec)
  {
    var s := "${" + spec + "}" + rest;
    assert s[2..] == spec + ['}'] + rest;
    IndexByteSkips(spec, '}', rest);
    BracedFirst(s, |spec|);
    assert s[2..2 + |spec|] == spec;
  }

  lemma SpecParts(name: Text, fallback: Text)
    ensures
      var spec := name + ":-" + fallback;
      |spec| == |name| + 2 + |fallback| && spec[..|name|] == name && spec[|name| + 2..] == fallback
  {
  }

  lemma FallbackShape(name: Text, fallback: Text, rest: Text)
    ensures FallbackText(name, fallback) + rest == "${" + (name + ":-" + fallback) + "}" + rest
  {
  }

  lemma FallbackTail(name: Text, fallback: Text, rest: Text)
    ensures (FallbackText(name, fallback) + rest)[Width(Fallback(name, fallback))..] == rest
  {
    assert |FallbackText(name, fallback)| == Width(Fallback(name, fallback));
  }

  lemma FirstOfFallback(name: Text, fallback: Text, rest: Text)
    requires '}' !in name && '}' !in fallback && !HasMark(name)
    ensures
      var s := FallbackText(name, fallback) + rest;
      First(s) == Fallback(name, fallback) && s[Width(Fallback(name, fallback))..] == rest
  {
    FallbackShape(name, fallback, rest);
    SpecIsRead(name + ":-" + fallback, rest);
    IndexMarkSkips(name, fallback);
    SpecParts(name, fallback);
    FallbackTail(name, fallback, rest);
  }

  /** A fallback is inserted as it stands, whatever it contains, and only when the variable is unset or empty. */
  lemma FallbackIsVerbatim(name: Text, fallback: Text, rest: Text, env: Environment)
    requires '}' !in name && '}' !in fallback && !HasMark(name)
    ensures
      var value := if name in env && env[name] != "" then env[name] else fallback;
      Expanded(FallbackText(name, fallback) + rest, env) ==
      Expansion(value + Expanded(rest, env).text, Expanded(rest, env).missing)
  {
    FirstOfFallback(name, fallback, rest);
    TakeFirst(FallbackText(name, fallback) + rest);
  }

  // ------------------------------------------------------------ tokens are read back

  /** A letter or an underscore, and then letters, digits and underscores. */
  predicate IsVarName(name: Text) {
    && name != [] && !('0' <= name[0] <= '9')
    && forall i :: 0 <= i < |name| ==>
         'a' <= name[i] <= 'z' || 'A' <= name[i] <= 'Z' || '0' <= name[i] <= '9' || name[i] == '_'
  }

  /** The text could go on a name. */
  predicate StartsLikeName(text: Text) {
    text != [] && ('a' <= text[0] <= 'z' || 'A' <= text[0] <= 'Z' || '0' <= text[0] <= '9' || text[0] == '_')
  }

  /** Written in front of that text, the token is not taken for another one. */
  predicate IsClear(token: Token, rest: Text) {
    match token
    case Plain(c) =>
      c == '$' && rest != [] ==>
        && rest[0] != '$' && (rest[0] == '{' ==> '}' !in rest)
        && (StartsLikeName(rest) ==> '0' <= rest[0] <= '9')
    case Dollar => true
    case Bare(name) => IsVarName(name) && !StartsLikeName(rest)
    case Braced(name) => '}' !in name && !HasMark(name)
    case Fallback(name, fallback) => '}' !in name && !HasMark(name) && '}' !in fallback
  }

  lemma {:induction false} NoMark(s: Text)
    requires !HasMark(s)
    ensures IndexMark(s) == None
  {
    if |s| >= 2 {
      MarkOfTail(s);
      NoMark(s[1..]);
    }
  }

  lemma MarkOfTail(s: Text)
    requires s != [] && !HasMark(s)
    ensures !HasMark(s[1..])
  {
    forall i | 0 <= i < |s| - 2
      ensures !(s[1..][i] == ':' && s[1..][i + 1] == '-')
    {
      assert s[1..][i] == s[i + 1] && s[1..][i + 1] == s[i + 2];
      assert !(s[i + 1] == ':' && s[i + 1 + 1] == '-');
    }
  }

  lemma PlainIsRead(c: Byte, rest: Text)
    requires IsClear(Plain(c), rest)
    ensures First([c] + rest) == Plain(c)
  {
    var s := [c] + rest;
    if c == '$' && rest != [] {
      assert s[1] == rest[0] && s[1..] == rest;
      if rest[0] == '{' {
        assert s[2..] == rest[1..];
        IndexByteFinds(rest[1..], '}');
        assert forall b :: b in rest[1..] ==> b in rest;
      }
    }
  }

  lemma BareIsRead(name: Text, rest: Text)
    requires IsVarName(name) && !StartsLikeName(rest)
    ensures First("$" + name + rest) == Bare(name)
  {
    var s := "$" + name + rest;
    var n := 1 + |name|;
    assert s[1..n] == name;
    assert forall k :: 1 <= k < n ==> s[k] == name[k - 1];
    assert n < |s| ==> s[n] == rest[0];
    BareToken(s, 0, n);
    assert s[0..] == s;
  }

  lemma TokenIsRead(token: Token, rest: Text)
    requires IsClear(token, rest)
    ensures Source(token) + rest != [] && First(Source(token) + rest) == token && Width(token) == |Source(token)|
  {
    match token
    case Plain(c) => PlainIsRead(c, rest);
    case Dollar => assert (Source(token) + rest)[..2] == "$$";
    case Bare(name) => BareIsRead(name, rest);
    case Braced(name) =>
      NoMark(name);
      SpecIsRead(name, rest);
    case Fallback(name, fallback) => FirstOfFallback(name, fallback, rest);
  }

  /** Every token is clear in front of what is written behind it. */
  predicate AreClear(tokens: seq<Token>) {
    tokens != [] ==> IsClear(tokens[0], Sources(tokens[1..])) && AreClear(tokens[1..])
  }

  /** Whatever tokens are written, as long as they are clear, exactly those are read. */
  lemma {:induction false} TokensAreReadBack(tokens: seq<Token>)
    requires AreClear(tokens)
    ensures Tokens(Sources(tokens)) == tokens
  {
    if tokens != [] {
      var token, rest := tokens[0], Sources(tokens[1..]);
      TokensAreReadBack(tokens[1..]);
      TokenIsRead(token, rest);
      TakeFirst(Source(token) + rest);
      assert (Source(token) + rest)[|Source(token)|..] == rest;
      assert [token] + tokens[1..] == tokens;
    }
  }

  /** A reference stands for the value of its variable, with or without braces; if that is unset, it is reported. */
  lemma ReferencesStandForValues(name: Text, rest: Text, env: Environment)
    requires IsVarName(name)
    ensures
      var after := Expanded(rest, env);
      var whole := if name in env then Expansion(env[name] + after.text, after.missing) else Expansion(after.text, name);
      && (!StartsLikeName(rest) ==> Expanded("$" + name + rest, env) == whole)
      && Expanded("${" + name + "}" + rest, env) == whole
  {
    assert [] + Expanded(rest, env).text == Expanded(rest, env).text;
    if !StartsLikeName(rest) {
      TokenComesFirst(Bare(name), rest, env);
    }
    assert forall i :: 0 <= i < |name| ==> name[i] != '}' && name[i] != ':';
    TokenComesFirst(Braced(name), rest, env);
  }

  lemma TokenComesFirst(token: Token, rest: Text, env: Environment)
    requires IsClear(token, rest)
    ensures Expanded(Source(token) + rest, env) == Starting(token, Expanded(rest, env), env)
  {
    TokenIsRead(token, rest);
    var s := Source(token) + rest;
    assert s[0..] == s && s[|Source(token)|..] == rest;
    TakeValue(s, 0, env);
  }
}
