/**
  Go strings and the string operations the program relies on.

  A Go string is a sequence of bytes. A byte is written as the character with
  the same code, so that literals such as "$arg" stay readable.
*/
module GoText {

  type Byte = c: char | c as int < 256 witness 'a'

  type Text = seq<Byte>

  datatype Option<+T> = None | Some(value: T)

  predicate HasSuffix(s: Text, suffix: Text) {
    |suffix| <= |s| && s[|s| - |suffix|..] == suffix
  }

  function TrimSuffix(s: Text, suffix: Text): Text {
    if HasSuffix(s, suffix) then s[..|s| - |suffix|] else s
  }

  /** True iff some byte of `s` is one of `chars`. */
  predicate ContainsAny(s: Text, chars: Text) {
    exists i :: 0 <= i < |s| && s[i] in chars
  }

  /**
    strings.ToLower, exact wherever the result is ASCII: the letters A to Z, and
    the two other code points whose lower case is ASCII, U+0130 (i) and U+212A (k).
   */
  function ToLower(s: Text): Text {
    if s == [] then []
    else if |s| >= 2 && s[0] as int == 0xC4 && s[1] as int == 0xB0 then "i" + ToLower(s[2..])
    else if |s| >= 3 && s[0] as int == 0xE2 && s[1] as int == 0x84 && s[2] as int == 0xAA then "k" + ToLower(s[3..])
    else [if 'A' <= s[0] <= 'Z' then (s[0] as int + 32) as char else s[0]] + ToLower(s[1..])
  }

  lemma {:induction false} LowerCaseStays(s: Text)
    requires forall i :: 0 <= i < |s| ==> 97 <= s[i] as int <= 122
    ensures ToLower(s) == s
  {
    if s != [] {
      LowerCaseStays(s[1..]);
      assert s == [s[0]] + s[1..];
    }
  }

  predicate IsAscii(s: Text) {
    forall i :: 0 <= i < |s| ==> s[i] as int < 128
  }

  predicate IsUpper(c: Byte) {
    65 <= c as int <= 90
  }

  /** Of an ASCII text, the letters A to Z change case and nothing else changes. */
  lemma {:induction false} AsciiInLowerCase(s: Text)
    requires IsAscii(s)
    ensures |ToLower(s)| == |s|
    ensures forall i :: 0 <= i < |s| ==> ToLower(s)[i] as int == s[i] as int + (if IsUpper(s[i]) then 32 else 0)
  {
    if s != [] {
      AsciiInLowerCase(s[1..]);
    }
  }

  // ---------------------------------------------------------------- whitespace

  /** The UTF-8 encodings of the code points that unicode.IsSpace accepts. */
  predicate IsSpaceRune(r: Text) {
    || (|r| == 1 && (r[0] == ' ' || 9 <= r[0] as int <= 13))
    || (|r| == 2 && r[0] as int == 0xC2 && r[1] as int in {0x85, 0xA0})
    || (|r| == 3 && r[0] as int == 0xE1 && r[1] as int == 0x9A && r[2] as int == 0x80)
    || (|r| == 3 && r[0] as int == 0xE2 && r[1] as int == 0x80
        && (0x80 <= r[2] as int <= 0x8A || r[2] as int in {0xA8, 0xA9, 0xAF}))
    || (|r| == 3 && r[0] as int == 0xE2 && r[1] as int == 0x81 && r[2] as int == 0x9F)
    || (|r| == 3 && r[0] as int == 0xE3 && r[1] as int == 0x80 && r[2] as int == 0x80)
  }

  function TrimLeft(s: Text): Text {
    if |s| >= 1 && IsSpaceRune(s[..1]) then TrimLeft(s[1..])
    else if |s| >= 2 && IsSpaceRune(s[..2]) then TrimLeft(s[2..])
    else if |s| >= 3 && IsSpaceRune(s[..3]) then TrimLeft(s[3..])
    else s
  }

  function TrimRight(s: Text): Text {
    if |s| >= 1 && IsSpaceRune(s[|s| - 1..]) then TrimRight(s[..|s| - 1])
    else if |s| >= 2 && IsSpaceRune(s[|s| - 2..]) then TrimRight(s[..|s| - 2])
    else if |s| >= 3 && IsSpaceRune(s[|s| - 3..]) then TrimRight(s[..|s| - 3])
    else s
  }

  function TrimSpace(s: Text): Text {
    TrimRight(TrimLeft(s))
  }

  predicate IsVisibleAscii(c: Byte) {
    33 <= c as int <= 126
  }

  lemma SpaceRuneIsNotVisible(r: Text)
    requires IsSpaceRune(r)
    ensures r != [] && !IsVisibleAscii(r[0]) && !IsVisibleAscii(r[|r| - 1])
  {
  }

  lemma TrimSpaceIsIdentity(s: Text)
    requires s != [] ==> IsVisibleAscii(s[0]) && IsVisibleAscii(s[|s| - 1])
    ensures TrimSpace(s) == s
  {
    forall n: nat | 0 < n <= |s|
      ensures !IsSpaceRune(s[..n]) && !IsSpaceRune(s[|s| - n..])
    {
      if IsSpaceRune(s[..n]) {
        SpaceRuneIsNotVisible(s[..n]);
      }
      if IsSpaceRune(s[|s| - n..]) {
        SpaceRuneIsNotVisible(s[|s| - n..]);
      }
    }
    assert TrimLeft(s) == s;
    assert TrimRight(s) == s;
  }

  /** Blanks, tabs and line ends around a text. */
  predicate AreBlanks(s: Text) {
    forall i :: 0 <= i < |s| ==> s[i] == ' ' || s[i] == '\t' || s[i] == '\n' || s[i] == '\r'
  }

  lemma {:induction false} TrimLeftDrops(before: Text, s: Text)
    requires AreBlanks(before)
    ensures TrimLeft(before + s) == TrimLeft(s)
  {
    if before == [] {
      assert before + s == s;
    } else {
      assert (before + s)[..1] == [before[0]] && (before + s)[1..] == before[1..] + s;
      TrimLeftDrops(before[1..], s);
    }
  }

  lemma LastBlankGoes(s: Text, c: Byte)
    requires AreBlanks([c])
    ensures TrimRight(s + [c]) == TrimRight(s)
  {
    var all := s + [c];
    assert [c][0] == c;
    assert all[|all| - 1..] == [c] && all[..|all| - 1] == s;
    assert IsSpaceRune([c]);
  }

  lemma {:induction false} TrimRightDrops(s: Text, behind: Text)
    requires AreBlanks(behind)
    ensures TrimRight(s + behind) == TrimRight(s)
  {
    var n := |behind|;
    if n == 0 {
      assert s + behind == s;
    } else {
      assert s + behind == s + behind[..n - 1] + [behind[n - 1]];
      LastBlankGoes(s + behind[..n - 1], behind[n - 1]);
      TrimRightDrops(s, behind[..n - 1]);
    }
  }

  /** Trimming takes away what surrounds a text, and nothing of the text. */
  lemma BlanksAreTrimmed(before: Text, s: Text, behind: Text)
    requires AreBlanks(before) && AreBlanks(behind)
    requires s != [] ==> IsVisibleAscii(s[0]) && IsVisibleAscii(s[|s| - 1])
    ensures TrimSpace(before + s + behind) == s
  {
    assert before + s + behind == before + (s + behind);
    TrimLeftDrops(before, s + behind);
    if s == [] {
      TrimLeftDrops(behind, []);
      assert s + behind == behind + [];
    } else {
      LeftStays(s + behind);
      TrimRightDrops(s, behind);
      TrimSpaceIsIdentity(s);
      LeftStays(s);
    }
  }

  lemma LeftStays(s: Text)
    requires s != [] && IsVisibleAscii(s[0])
    ensures TrimLeft(s) == s
  {
    forall n: nat | 0 < n <= |s|
      ensures !IsSpaceRune(s[..n])
    {
      if IsSpaceRune(s[..n]) {
        SpaceRuneIsNotVisible(s[..n]);
      }
    }
  }

  lemma {:induction false} TrimRightKeepsVisibleStart(s: Text)
    requires s != [] && IsVisibleAscii(s[0])
    ensures TrimRight(s) != []
  {
    if IsSpaceRune(s[|s| - 1..]) {
      SpaceRuneIsNotVisible(s[|s| - 1..]);
      TrimRightKeepsVisibleStart(s[..|s| - 1]);
    } else if |s| >= 2 && IsSpaceRune(s[|s| - 2..]) {
      SpaceRuneIsNotVisible(s[|s| - 2..]);
      TrimRightKeepsVisibleStart(s[..|s| - 2]);
    } else if |s| >= 3 && IsSpaceRune(s[|s| - 3..]) {
      SpaceRuneIsNotVisible(s[|s| - 3..]);
      TrimRightKeepsVisibleStart(s[..|s| - 3]);
    }
  }

  /** A text that starts with a visible character is not blank. */
  lemma VisibleStartIsNotBlank(s: Text)
    requires s != [] && IsVisibleAscii(s[0])
    ensures TrimSpace(s) != []
  {
    forall n: nat | 0 < n <= |s|
      ensures !IsSpaceRune(s[..n])
    {
      if IsSpaceRune(s[..n]) {
        SpaceRuneIsNotVisible(s[..n]);
      }
    }
    assert TrimLeft(s) == s;
    TrimRightKeepsVisibleStart(s);
  }

  // -------------------------------------------------------------- split and join

  /** strings.Split(s, string(sep)). */
  function Split(s: Text, sep: Byte): (parts: seq<Text>)
    ensures parts != []
    ensures forall p :: p in parts ==> sep !in p
  {
    if s == [] then [[]]
    else
      var rest := Split(s[1..], sep);
      if s[0] == sep then [[]] + rest
      else [[s[0]] + rest[0]] + rest[1..]
  }

  /** strings.Join(parts, string(sep)). */
  function Join(parts: seq<Text>, sep: Byte): Text {
    if parts == [] then []
    else if |parts| == 1 then parts[0]
    else parts[0] + [sep] + Join(parts[1..], sep)
  }

  lemma {:induction false} JoinSplit(s: Text, sep: Byte)
    ensures Join(Split(s, sep), sep) == s
  {
    if s != [] {
      JoinSplit(s[1..], sep);
      var rest := Split(s[1..], sep);
      if s[0] == sep {
        assert ([[]] + rest)[1..] == rest;
      } else {
        assert ([[s[0]] + rest[0]] + rest[1..])[1..] == rest[1..];
        assert s == [s[0]] + s[1..];
      }
    }
  }

  lemma {:induction false} SplitPiece(piece: Text, sep: Byte)
    requires sep !in piece
    ensures Split(piece, sep) == [piece]
  {
    if piece != [] {
      assert forall c :: c in piece[1..] ==> c in piece;
      SplitPiece(piece[1..], sep);
      assert [piece[0]] + piece[1..] == piece;
    }
  }

  lemma {:induction false} SplitPrepend(piece: Text, rest: Text, sep: Byte)
    requires sep !in piece
    ensures Split(piece + [sep] + rest, sep) == [piece] + Split(rest, sep)
  {
    var s := piece + [sep] + rest;
    if piece == [] {
      assert s[1..] == rest;
    } else {
      assert forall c :: c in piece[1..] ==> c in piece;
      SplitPrepend(piece[1..], rest, sep);
      assert s[1..] == piece[1..] + [sep] + rest;
      assert [piece[0]] + piece[1..] == piece;
    }
  }

  lemma {:induction false} SplitJoin(parts: seq<Text>, sep: Byte)
    requires parts != []
    requires forall p :: p in parts ==> sep !in p
    ensures Split(Join(parts, sep), sep) == parts
  {
    if |parts| == 1 {
      SplitPiece(parts[0], sep);
    } else {
      assert forall p :: p in parts[1..] ==> p in parts;
      SplitJoin(parts[1..], sep);
      SplitPrepend(parts[0], Join(parts[1..], sep), sep);
      assert [parts[0]] + parts[1..] == parts;
    }
  }

  // -------------------------------------------------------------- concatenation

  lemma Associative<T>(a: seq<T>, b: seq<T>, c: seq<T>)
    ensures a + (b + c) == a + b + c
  {
  }

  lemma DropOfConcat<T>(a: seq<T>, b: seq<T>, n: nat)
    requires n <= |a|
    ensures (a + b)[n..] == a[n..] + b
  {
  }

  lemma HeadOfDrop<T>(s: seq<T>, k: nat)
    requires k < |s|
    ensures s[k..] != [] && s[k..][0] == s[k] && s[k..][1..] == s[k + 1..]
  {
  }

  lemma TailOfConcat<T>(a: seq<T>, b: seq<T>)
    requires a != []
    ensures a + b != [] && (a + b)[0] == a[0] && (a + b)[1..] == a[1..] + b
  {
  }
}
