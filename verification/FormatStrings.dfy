/**
  What a format string means, told without scanning: it is written as literal
  pieces with names in braces between them, and each name stands for its argument.
 */
module FormatStrings {
  import opened GoText
  import opened Json
  import opened Inputs
  import opened Template

  // ----------------------------------------------------------------------- pieces

  /** The pieces, with the names in braces between them. */
  function Written(literals: seq<Text>, names: seq<Text>): Text
    requires |literals| == |names| + 1
  {
    if names == [] then literals[0] else literals[0] + ("{" + names[0] + "}" + Written(literals[1..], names[1..]))
  }

  /** The pieces, with what is printed for the arguments between them. */
  function Substituted(literals: seq<Text>, names: seq<Text>, args: Arguments, sprint: Json -> Text): Text
    requires |literals| == |names| + 1 && forall n :: n in names ==> n in args
  {
    if names == [] then literals[0]
    else literals[0] + (sprint(args[names[0]]) + Substituted(literals[1..], names[1..], args, sprint))
  }

  /** No part of the text is a name in braces. */
  ghost predicate IsLiteral(text: Text) {
    forall i, j :: 0 <= i < j < |text| && text[i] == '{' && text[j] == '}' ==> !IsInputName(text[i + 1..j])
  }

  ghost predicate ArePieces(literals: seq<Text>, names: seq<Text>) {
    && |literals| == |names| + 1
    && (forall k :: 0 <= k < |literals| ==> IsLiteral(literals[k]))
    && (forall k :: 0 <= k < |names| ==> IsInputName(names[k]))
  }

  /** Letters, digits, dashes and underscores, of which a digit or a dash does not come first. */
  lemma InputNameIff(name: Text)
    ensures IsInputName(name) <==>
              && name != [] && !('0' <= name[0] <= '9') && name[0] != '-'
              && forall i :: 0 <= i < |name| ==>
                   'a' <= name[i] <= 'z' || 'A' <= name[i] <= 'Z' || '0' <= name[i] <= '9' || name[i] in {'_', '-'}
  {
  }

  // ---------------------------------------------------------------- what is scanned

  lemma {:induction false} NameEndStops(text: Text, i: nat)
    requires i <= |text|
    ensures
      var j := NameEnd(text, i);
      && (forall k :: i <= k < j ==> IsNameByte(text[k]))
      && (j < |text| ==> !IsNameByte(text[j]))
    decreases |text| - i
  {
    if i < |text| && IsNameByte(text[i]) {
      NameEndStops(text, i + 1);
    }
  }

  /** The scanner finds exactly a name in braces. */
  lemma PlaceholderIff(text: Text, i: nat, end: nat)
    requires i < |text|
    ensures PlaceholderEnd(text, i) == Some(end) <==>
              && i + 3 <= end <= |text| && text[i] == '{' && text[end - 1] == '}' && IsInputName(text[i + 1..end - 1])
  {
    if i + 1 < |text| {
      NameEndStops(text, i + 1);
    }
    if i + 3 <= end <= |text| && text[end - 1] == '}' && IsInputName(text[i + 1..end - 1]) {
      var name := text[i + 1..end - 1];
      assert forall k :: i + 1 <= k < end - 1 ==> text[k] == name[k - i - 1];
      assert NameEnd(text, i + 1) == end - 1;
    }
  }

  /** The stretch of the text from `i` up to `end` is a literal piece, and a name in braces or nothing follows. */
  ghost predicate IsStretch(text: Text, i: nat, end: nat) {
    i <= end <= |text| && IsLiteral(text[i..end]) && (end < |text| ==> text[end] == '{')
  }

  lemma SliceOfSlice(s: Text, i: nat, end: nat, a: nat, b: nat)
    requires i <= end <= |s| && a <= b <= end - i
    ensures s[i..end][a..b] == s[i + a..i + b]
  {
    var inner, outer := s[i..end][a..b], s[i + a..i + b];
    forall k | 0 <= k < b - a
      ensures inner[k] == outer[k]
    {
      assert s[i..end][a + k] == s[i + (a + k)];
    }
  }

  lemma NoNameInLiteral(text: Text, i: nat, end: nat, e: nat)
    requires i + 1 < e <= end <= |text| && IsLiteral(text[i..end]) && text[i] == '{' && text[e - 1] == '}'
    ensures !IsInputName(text[i + 1..e - 1])
  {
    var piece := text[i..end];
    assert piece[0] == '{' && piece[e - 1 - i] == '}';
    SliceOfSlice(text, i, end, 1, e - 1 - i);
  }

  lemma NoBraceInName(text: Text, from: nat, at: nat, to: nat)
    requires from <= at < to <= |text| && text[at] == '{'
    ensures !IsInputName(text[from..to])
  {
    assert text[from..to][at - from] == '{';
  }

  lemma NothingInStretch(text: Text, i: nat, end: nat)
    requires IsStretch(text, i, end) && i < end
    ensures PlaceholderEnd(text, i).None?
  {
    forall e: nat
      ensures PlaceholderEnd(text, i) != Some(e)
    {
      PlaceholderIff(text, i, e);
      if i + 3 <= e <= |text| && text[i] == '{' && text[e - 1] == '}' {
        if e <= end {
          NoNameInLiteral(text, i, end, e);
        } else if end < e - 1 {
          NoBraceInName(text, i + 1, end, e - 1);
        }
      }
    }
  }

  lemma LiteralTail(text: Text)
    requires text != [] && IsLiteral(text)
    ensures IsLiteral(text[1..])
  {
    forall i, j | 0 <= i < j < |text| - 1 && text[1..][i] == '{' && text[1..][j] == '}'
      ensures !IsInputName(text[1..][i + 1..j])
    {
      assert text[1..][i + 1..j] == text[i + 2..j + 1];
    }
  }

  /** Literal pieces are copied. */
  lemma {:induction false} StretchIsCopied(text: Text, i: nat, end: nat, args: Arguments, sprint: Json -> Text)
    requires IsStretch(text, i, end)
    ensures Format(text, i, args, sprint) == Prepend(text[i..end], Format(text, end, args, sprint))
    decreases end - i
  {
    if i < end {
      NothingInStretch(text, i, end);
      LiteralTail(text[i..end]);
      assert text[i..end][1..] == text[i + 1..end];
      StretchIsCopied(text, i + 1, end, args, sprint);
      assert text[i..end] == [text[i]] + text[i + 1..end];
      PrependTwice([text[i]], text[i + 1..end], Format(text, end, args, sprint));
    }
  }

  // --------------------------------------------------------------- what it comes to

  /** Where the first piece ends, and the first name in braces. */
  lemma PiecesAt(text: Text, i: nat, literals: seq<Text>, names: seq<Text>)
    requires i <= |text| && ArePieces(literals, names) && text[i..] == Written(literals, names)
    ensures
      var end := i + |literals[0]|;
      && IsStretch(text, i, end) && text[i..end] == literals[0]
      && if names == [] then end == |text|
         else
           var next := end + |names[0]| + 2;
           && end < next <= |text| && PlaceholderEnd(text, end) == Some(next) && text[end + 1..next - 1] == names[0]
           && text[next..] == Written(literals[1..], names[1..])
  {
    var end := i + |literals[0]|;
    if names == [] {
      assert text[i..] == literals[0] + [];
      SplitConcat(text, i, literals[0], []);
    } else {
      NamePieceAt(text, i, literals[0], names[0], Written(literals[1..], names[1..]));
    }
  }

  lemma NamePieceAt(text: Text, i: nat, literal: Text, name: Text, rest: Text)
    requires i <= |text| && text[i..] == literal + ("{" + name + "}" + rest) && IsInputName(name)
    ensures
      var end := i + |literal|;
      var next := end + |name| + 2;
      && next <= |text| && text[i..end] == literal && text[end] == '{'
      && PlaceholderEnd(text, end) == Some(next) && text[end + 1..next - 1] == name && text[next..] == rest
  {
    var end := i + |literal|;
    SplitConcat(text, i, literal, "{" + name + "}" + rest);
    NameInBraces(text, end, name, rest);
    PlaceholderIff(text, end, end + |name| + 2);
  }

  lemma SplitConcat(text: Text, i: nat, head: Text, rest: Text)
    requires i <= |text| && text[i..] == head + rest
    ensures i + |head| <= |text| && text[i..i + |head|] == head && text[i + |head|..] == rest
  {
    assert text[i..i + |head|] == text[i..][..|head|];
    assert text[i + |head|..] == text[i..][|head|..];
  }

  lemma NameInBraces(text: Text, at: nat, name: Text, rest: Text)
    requires at <= |text| && text[at..] == "{" + name + "}" + rest
    ensures
      var next := at + |name| + 2;
      && next <= |text| && text[at] == '{' && text[next - 1] == '}' && text[at + 1..next - 1] == name && text[next..] == rest
  {
    assert text[at..] == ("{" + name) + ("}" + rest);
    SplitConcat(text, at, "{" + name, "}" + rest);
    SplitConcat(text, at + 1 + |name|, "}", rest);
    assert text[at..at + 1 + |name|][1..] == text[at + 1..at + 1 + |name|];
  }

  /** The argument is there and can be printed. */
  predicate IsPrintable(name: Text, args: Arguments) {
    name in args && args[name].IsScalar()
  }

  ghost predicate AllPrintable(names: seq<Text>, args: Arguments) {
    forall n :: n in names ==> IsPrintable(n, args)
  }

  /** The leftmost name that cannot be printed. */
  predicate IsFirstBad(names: seq<Text>, args: Arguments, k: nat) {
    k < |names| && !IsPrintable(names[k], args) && forall j :: 0 <= j < k ==> IsPrintable(names[j], args)
  }

  lemma FirstBadLater(names: seq<Text>, args: Arguments, k: nat)
    requires IsFirstBad(names, args, k) && k > 0
    ensures IsFirstBad(names[1..], args, k - 1) && names[1..][k - 1] == names[k] && IsPrintable(names[0], args)
  {
    assert forall j :: 0 <= j < k - 1 ==> names[1..][j] == names[j + 1];
  }

  lemma PiecesTail(literals: seq<Text>, names: seq<Text>)
    requires ArePieces(literals, names) && names != []
    ensures ArePieces(literals[1..], names[1..])
  {
  }

  /** The first piece is copied, and the first name is substituted or decides. */
  lemma FirstPiece(text: Text, i: nat, literals: seq<Text>, names: seq<Text>, args: Arguments, sprint: Json -> Text)
    requires i <= |text| && ArePieces(literals, names) && text[i..] == Written(literals, names)
    ensures names == [] ==> Format(text, i, args, sprint) == Formatted(literals[0])
    ensures names != [] && !IsPrintable(names[0], args) ==>
              Format(text, i, args, sprint) == FormatFault(if names[0] in args then FormatNotScalar else MissingFormatInput)
    ensures names != [] && IsPrintable(names[0], args) ==>
              var next := i + |literals[0]| + |names[0]| + 2;
              next <= |text| &&
              Format(text, i, args, sprint) ==
                Prepend(literals[0], Prepend(sprint(args[names[0]]), Format(text, next, args, sprint)))
  {
    var end := i + |literals[0]|;
    PiecesAt(text, i, literals, names);
    StretchIsCopied(text, i, end, args, sprint);
    if names != [] {
      FormatSubstitutes(text, end, end + |names[0]| + 2, args, sprint);
    }
  }

  lemma {:induction false} FormatFillsIn(text: Text, i: nat, literals: seq<Text>, names: seq<Text>, args: Arguments,
                                         sprint: Json -> Text)
    requires i <= |text| && ArePieces(literals, names) && text[i..] == Written(literals, names)
    requires AllPrintable(names, args)
    ensures Format(text, i, args, sprint) == Formatted(Substituted(literals, names, args, sprint))
    decreases |names|
  {
    FirstPiece(text, i, literals, names, args, sprint);
    if names != [] {
      PiecesAt(text, i, literals, names);
      PiecesTail(literals, names);
      assert IsPrintable(names[0], args) && AllPrintable(names[1..], args);
      FormatFillsIn(text, i + |literals[0]| + |names[0]| + 2, literals[1..], names[1..], args, sprint);
    }
  }

  lemma {:induction false} FormatBlames(text: Text, i: nat, literals: seq<Text>, names: seq<Text>, k: nat, args: Arguments,
                                        sprint: Json -> Text)
    requires i <= |text| && ArePieces(literals, names) && text[i..] == Written(literals, names)
    requires IsFirstBad(names, args, k)
    ensures Format(text, i, args, sprint) == FormatFault(if names[k] in args then FormatNotScalar else MissingFormatInput)
    decreases |names|
  {
    FirstPiece(text, i, literals, names, args, sprint);
    if k == 0 {
      assert !IsPrintable(names[0], args);
    } else {
      PiecesAt(text, i, literals, names);
      PiecesTail(literals, names);
      FirstBadLater(names, args, k);
      FormatBlames(text, i + |literals[0]| + |names[0]| + 2, literals[1..], names[1..], k - 1, args, sprint);
    }
  }

  lemma {:induction false} StretchHasNoNames(text: Text, i: nat, end: nat)
    requires IsStretch(text, i, end)
    ensures FormatNames(text, i) == FormatNames(text, end)
    decreases end - i
  {
    if i < end {
      NothingInStretch(text, i, end);
      LiteralTail(text[i..end]);
      assert text[i..end][1..] == text[i + 1..end];
      StretchHasNoNames(text, i + 1, end);
    }
  }

  lemma FirstNameIsSeen(text: Text, i: nat, literals: seq<Text>, names: seq<Text>)
    requires i <= |text| && ArePieces(literals, names) && text[i..] == Written(literals, names)
    ensures names == [] ==> FormatNames(text, i) == {}
    ensures names != [] ==>
              var next := i + |literals[0]| + |names[0]| + 2;
              next <= |text| && FormatNames(text, i) == {names[0]} + FormatNames(text, next)
  {
    PiecesAt(text, i, literals, names);
    StretchHasNoNames(text, i, i + |literals[0]|);
  }

  lemma NamesGrow(names: seq<Text>)
    requires names != []
    ensures (set n | n in names) == {names[0]} + (set n | n in names[1..])
  {
    assert names == [names[0]] + names[1..];
  }

  /** The load-time checker sees exactly the names in braces. */
  lemma {:induction false} NamesAreSeen(text: Text, i: nat, literals: seq<Text>, names: seq<Text>)
    requires i <= |text| && ArePieces(literals, names) && text[i..] == Written(literals, names)
    ensures FormatNames(text, i) == set n | n in names
    decreases |names|
  {
    FirstNameIsSeen(text, i, literals, names);
    if names != [] {
      PiecesAt(text, i, literals, names);
      PiecesTail(literals, names);
      NamesAreSeen(text, i + |literals[0]| + |names[0]| + 2, literals[1..], names[1..]);
      NamesGrow(names);
    }
  }

  lemma BehindTheFirst(c: Byte, rest: Text, from: nat, to: nat)
    requires from <= to <= |rest|
    ensures ([c] + rest)[from + 1..to + 1] == rest[from..to]
  {
    var all := [c] + rest;
    forall k | from <= k < to
      ensures all[k + 1] == rest[k]
    {
    }
  }

  lemma LiteralGrows(c: Byte, rest: Text, text: Text, i: nat)
    requires i < |text| && text[i] == c && rest <= text[i + 1..] && IsLiteral(rest) && PlaceholderEnd(text, i).None?
    ensures IsLiteral([c] + rest)
  {
    var all := [c] + rest;
    forall j, k | 0 <= j < k < |all| && all[j] == '{' && all[k] == '}'
      ensures !IsInputName(all[j + 1..k])
    {
      if j > 0 {
        BehindTheFirst(c, rest, j, k - 1);
      } else if IsInputName(all[1..k]) {
        assert forall m :: 0 <= m < |rest| ==> rest[m] == text[i + 1..][m] == text[i + 1 + m];
        assert text[i + 1..i + k] == all[1..k];
        PlaceholderIff(text, i, i + k + 1);
      }
    }
  }

  /** Every text is written so. */
  lemma {:induction false} EveryTextIsWritten(text: Text, i: nat) returns (literals: seq<Text>, names: seq<Text>)
    requires i <= |text|
    ensures ArePieces(literals, names) && text[i..] == Written(literals, names)
    decreases |text| - i
  {
    if i == |text| {
      literals, names := [[]], [];
    } else if PlaceholderEnd(text, i).Some? {
      var end := PlaceholderEnd(text, i).value;
      PlaceholderIff(text, i, end);
      var rest, others := EveryTextIsWritten(text, end);
      var name := text[i + 1..end - 1];
      literals, names := [[]] + rest, [name] + others;
      assert literals[1..] == rest && names[1..] == others;
      assert text[i..] == "{" + name + "}" + text[end..];
    } else {
      var rest, others := EveryTextIsWritten(text, i + 1);
      WrittenStarts(rest, others);
      LiteralGrows(text[i], rest[0], text, i);
      literals, names := [[text[i]] + rest[0]] + rest[1..], others;
      assert literals[1..] == rest[1..];
      assert text[i..] == [text[i]] + text[i + 1..];
    }
  }

  lemma WrittenStarts(literals: seq<Text>, names: seq<Text>)
    requires |literals| == |names| + 1
    ensures literals[0] <= Written(literals, names)
  {
  }
}
