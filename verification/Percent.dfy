/**
  Percent-encoding of URL paths (section 2.1 and section 3.3 of RFC 3986), as
  net/url does it.
 */
module Percent {
  import opened GoText

  /** Which reserved characters stay as they are. */
  datatype Mode = Segment | Path

  predicate IsUnreserved(c: Byte) {
    'a' <= c <= 'z' || 'A' <= c <= 'Z' || '0' <= c <= '9' || c in "-_.~"
  }

  predicate IsKept(c: Byte, mode: Mode) {
    IsUnreserved(c) || (match mode case Segment => c in "$&+:=@" case Path => c in "$&+,/:;=@")
  }

  function HexDigit(n: nat): (c: Byte)
    requires n < 16
  {
    if n < 10 then ('0' as int + n) as char else ('A' as int + n - 10) as char
  }

  predicate IsHex(c: Byte) {
    '0' <= c <= '9' || 'a' <= c <= 'f' || 'A' <= c <= 'F'
  }

  function HexValue(c: Byte): (n: nat)
    requires IsHex(c)
    ensures n < 16
  {
    if '0' <= c <= '9' then c as int - '0' as int
    else if 'a' <= c <= 'f' then c as int - 'a' as int + 10
    else c as int - 'A' as int + 10
  }

  function Encode(c: Byte, mode: Mode): Text {
    if IsKept(c, mode) then [c]
    else ['%', HexDigit(c as int / 16), HexDigit(c as int % 16)]
  }

  /** url.PathEscape for mode Segment. */
  function Escape(s: Text, mode: Mode): Text {
    if s == [] then [] else Encode(s[0], mode) + Escape(s[1..], mode)
  }

  /** url.PathUnescape; None when a percent sign is not followed by two hex digits. */
  function Unescape(s: Text): Option<Text> {
    if s == [] then Some([])
    else if s[0] == '%' then
      if |s| >= 3 && IsHex(s[1]) && IsHex(s[2])
      then Push((16 * HexValue(s[1]) + HexValue(s[2])) as char, Unescape(s[3..]))
      else None
    else Push(s[0], Unescape(s[1..]))
  }

  function Push(c: Byte, rest: Option<Text>): Option<Text> {
    match rest
    case Some(text) => Some([c] + text)
    case None => None
  }

  function Concat(head: Option<Text>, rest: Option<Text>): Option<Text> {
    if head.Some? && rest.Some? then Some(head.value + rest.value) else None
  }

  lemma {:induction false} UnescapePlain(s: Text)
    requires '%' !in s
    ensures Unescape(s) == Some(s)
  {
    if s != [] {
      assert forall c :: c in s[1..] ==> c in s;
      UnescapePlain(s[1..]);
      assert [s[0]] + s[1..] == s;
    }
  }

  lemma UnescapeEncoded(c: Byte, mode: Mode, rest: Text)
    ensures Unescape(Encode(c, mode) + rest) == Push(c, Unescape(rest))
  {
    var encoded := Encode(c, mode) + rest;
    if IsKept(c, mode) {
      assert encoded[1..] == rest;
    } else {
      assert encoded[3..] == rest;
    }
  }

  /** Decoding undoes encoding, in either mode and for every byte string. */
  lemma {:induction false} UnescapeEscape(s: Text, mode: Mode)
    ensures Unescape(Escape(s, mode)) == Some(s)
  {
    if s != [] {
      UnescapeEncoded(s[0], mode, Escape(s[1..], mode));
      UnescapeEscape(s[1..], mode);
      assert [s[0]] + s[1..] == s;
    }
  }

  lemma PushConcat(c: Byte, head: Option<Text>, rest: Option<Text>)
    ensures Push(c, Concat(head, rest)) == Concat(Push(c, head), rest)
  {
    if head.Some? && rest.Some? {
      assert [c] + (head.value + rest.value) == [c] + head.value + rest.value;
    }
  }

  /** Decoding distributes over concatenation wherever the first part decodes by itself. */
  lemma {:induction false} UnescapeConcat(a: Text, b: Text)
    requires Unescape(a).Some?
    ensures Unescape(a + b) == Concat(Unescape(a), Unescape(b))
  {
    if a == [] {
      assert a + b == b;
      if Unescape(b).Some? {
        assert [] + Unescape(b).value == Unescape(b).value;
      }
    } else if a[0] == '%' {
      assert (a + b)[3..] == a[3..] + b;
      UnescapeConcat(a[3..], b);
      PushConcat((16 * HexValue(a[1]) + HexValue(a[2])) as char, Unescape(a[3..]), Unescape(b));
    } else {
      assert (a + b)[1..] == a[1..] + b;
      UnescapeConcat(a[1..], b);
      PushConcat(a[0], Unescape(a[1..]), Unescape(b));
    }
  }

  /** An encoded text: visible ASCII without any delimiter of a URL. */
  predicate IsEncodedByte(c: Byte, mode: Mode) {
    IsKept(c, mode) || c == '%'
  }

  lemma {:induction false} EscapedBytes(s: Text, mode: Mode)
    ensures forall i :: 0 <= i < |Escape(s, mode)| ==> IsEncodedByte(Escape(s, mode)[i], mode)
  {
    if s != [] {
      EscapedBytes(s[1..], mode);
    }
  }

  /** A byte other than the percent sign is never produced by a kept text that lacks it. */
  lemma EscapedTextLacks(s: Text, c: Byte)
    requires !IsEncodedByte(c, Segment)
    ensures c !in Escape(s, Segment)
  {
    EscapedBytes(s, Segment);
  }

  /** Each segment, escaped, and joined again: the join decodes to the join of the segments. */
  function EscapeAll(segments: seq<Text>): (escaped: seq<Text>)
    ensures |escaped| == |segments|
    ensures forall i :: 0 <= i < |segments| ==> escaped[i] == Escape(segments[i], Segment)
  {
    if segments == [] then [] else [Escape(segments[0], Segment)] + EscapeAll(segments[1..])
  }

  lemma UnescapeSlash(segment: Text, escaped: Text, rest: Text)
    requires Unescape(escaped) == Some(segment)
    ensures Unescape(escaped + ['/'] + rest) == Concat(Some(segment + ['/']), Unescape(rest))
  {
    assert escaped + ['/'] + rest == escaped + (['/'] + rest);
    UnescapeConcat(escaped, ['/'] + rest);
    assert (['/'] + rest)[1..] == rest;
    if Unescape(rest).Some? {
      assert segment + (['/'] + Unescape(rest).value) == segment + ['/'] + Unescape(rest).value;
    }
  }

  lemma {:induction false} UnescapeJoin(segments: seq<Text>)
    ensures Unescape(Join(EscapeAll(segments), '/')) == Some(Join(segments, '/'))
  {
    var escaped := EscapeAll(segments);
    if |segments| == 1 {
      UnescapeEscape(segments[0], Segment);
    } else if |segments| > 1 {
      assert escaped[1..] == EscapeAll(segments[1..]);
      UnescapeJoin(segments[1..]);
      UnescapeEscape(segments[0], Segment);
      UnescapeSlash(segments[0], escaped[0], Join(escaped[1..], '/'));
    }
  }

  // ----------------------------------------------------- which bytes, and which digits

  const UPPER_HEX: Text := "0123456789ABCDEF"
  const LOWER_HEX: Text := "0123456789abcdef"

  /** Letters, digits, and the marks that net/url lets stand in a segment, or in a path. */
  predicate MayStand(c: Byte, mode: Mode) {
    || ('a' <= c <= 'z') || ('A' <= c <= 'Z') || ('0' <= c <= '9')
    || c == '-' || c == '_' || c == '.' || c == '~' || c == '$' || c == '&' || c == '+' || c == ':' || c == '=' || c == '@'
    || (mode == Path && (c == '/' || c == ',' || c == ';'))
  }

  /** How many bytes of a text may not stand as they are. */
  function Unfit(s: Text, mode: Mode): nat {
    if s == [] then 0 else (if MayStand(s[0], mode) then 0 else 1) + Unfit(s[1..], mode)
  }

  /** Encoding adds two bytes for each of those, and touches nothing else. */
  lemma {:induction false} EscapedLength(s: Text, mode: Mode)
    ensures |Escape(s, mode)| == |s| + 2 * Unfit(s, mode)
    ensures Unfit(s, mode) == 0 ==> Escape(s, mode) == s
  {
    if s != [] {
      EscapedLength(s[1..], mode);
      assert s == [s[0]] + s[1..];
    }
  }

  predicate IsDigitOf(c: Byte, n: nat) {
    n < 16 && (c == UPPER_HEX[n] || c == LOWER_HEX[n])
  }

  lemma DigitOf(c: Byte, n: nat)
    requires IsDigitOf(c, n)
    ensures IsHex(c) && HexValue(c) == n
  {
  }

  /** A percent sign and two hex digits, upper or lower case, stand for the byte with that code. */
  lemma EveryByteIsDecoded(high: nat, low: nat, h: Byte, l: Byte, rest: Text)
    requires IsDigitOf(h, high) && IsDigitOf(l, low)
    ensures Unescape(['%', h, l] + rest) == Push((16 * high + low) as char, Unescape(rest))
  {
    DigitOf(h, high);
    DigitOf(l, low);
    assert (['%', h, l] + rest)[3..] == rest;
  }

  /** Encoding writes upper-case digits. */
  lemma EncodedInUpperCase(c: Byte, mode: Mode)
    requires !MayStand(c, mode)
    ensures Encode(c, mode) == ['%', UPPER_HEX[c as int / 16], UPPER_HEX[c as int % 16]]
  {
  }

  lemma HexIff(c: Byte)
    ensures IsHex(c) <==> c in UPPER_HEX || c in LOWER_HEX
  {
    if '0' <= c <= '9' {
      assert UPPER_HEX[c as int - '0' as int] == c;
    } else if 'A' <= c <= 'F' {
      assert UPPER_HEX[10 + (c as int - 'A' as int)] == c;
    } else if 'a' <= c <= 'f' {
      assert LOWER_HEX[10 + (c as int - 'a' as int)] == c;
    }
  }

  predicate IsHexAt(s: Text, i: nat) {
    i < |s| && (s[i] in UPPER_HEX || s[i] in LOWER_HEX)
  }

  /** Every percent sign from `i` on has its two digits. */
  ghost predicate PercentsAreComplete(s: Text) {
    forall i :: 0 <= i < |s| && s[i] == '%' ==> IsHexAt(s, i + 1) && IsHexAt(s, i + 2)
  }

  lemma CompleteTail(s: Text, n: nat)
    requires n <= |s| && forall i :: 0 <= i < n && s[i] == '%' ==> IsHexAt(s, i + 1) && IsHexAt(s, i + 2)
    ensures PercentsAreComplete(s) <==> PercentsAreComplete(s[n..])
  {
    forall i | 0 <= i < |s| - n
      ensures s[n..][i] == s[n + i] && IsHexAt(s[n..], i + 1) == IsHexAt(s, n + i + 1)
              && IsHexAt(s[n..], i + 2) == IsHexAt(s, n + i + 2)
    {
    }
    if PercentsAreComplete(s[n..]) {
      forall i | n <= i < |s| && s[i] == '%'
        ensures IsHexAt(s, i + 1) && IsHexAt(s, i + 2)
      {
        assert s[n..][i - n] == '%';
      }
    }
  }

  /** Exactly which texts can be decoded. */
  lemma {:induction false} DecodableIff(s: Text)
    ensures Unescape(s).Some? <==> PercentsAreComplete(s)
    decreases |s|
  {
    if s != [] && s[0] == '%' {
      if |s| >= 3 {
        HexIff(s[1]);
        HexIff(s[2]);
      }
      if |s| >= 3 && IsHex(s[1]) && IsHex(s[2]) {
        DecodableIff(s[3..]);
        CompleteTail(s, 3);
      } else {
        assert !(IsHexAt(s, 1) && IsHexAt(s, 2));
      }
    } else if s != [] {
      DecodableIff(s[1..]);
      CompleteTail(s, 1);
    }
  }
}
