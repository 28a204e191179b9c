/**
 The two decode-until-stable loops: on octets for public URLs, on characters for static image URLs.
 Both stop within their round budget, so the error after the loop is never the one raised. Which
 octets or characters are unsafe is left to a predicate.
 */
module UrlDecoding {
  import opened Common
  import opened UrlEscapes

  const PERCENT: Byte := 0x25

  predicate HexOctet(b: Byte) {
    IsHex(b as char)
  }

  predicate EscapedAt(b: seq<Byte>, i: nat) {
    i + 2 < |b| && b[i] == PERCENT && HexOctet(b[i + 1]) && HexOctet(b[i + 2])
  }

  function DecodedOctet(b: seq<Byte>, i: nat): Byte
    requires EscapedAt(b, i)
  {
    16 * HexValue(b[i + 1] as char) + HexValue(b[i + 2] as char)
  }

  /** One round of percent-decoding; a stray percent sign stays as it is. */
  function Unquote(b: seq<Byte>): seq<Byte>
    decreases |b|
  {
    if b == [] then []
    else if EscapedAt(b, 0) then [DecodedOctet(b, 0)] + Unquote(b[3..])
    else [b[0]] + Unquote(b[1..])
  }

  function Escapes(b: seq<Byte>): nat
    decreases |b|
  {
    if b == [] then 0
    else if EscapedAt(b, 0) then 1 + Escapes(b[3..])
    else Escapes(b[1..])
  }

  // ---------------------------------------------------------------- what a round removes

  function AsciiCount(b: seq<Byte>): nat {
    if b == [] then 0 else (if b[0] < 0x80 then 1 else 0) + AsciiCount(b[1..])
  }

  predicate Continuation(b: Byte) {
    0x80 <= b < 0xC0
  }

  /** The octets that start a character; in valid UTF-8, the number of characters. */
  function StartCount(b: seq<Byte>): nat {
    if b == [] then 0 else (if Continuation(b[0]) then 0 else 1) + StartCount(b[1..])
  }

  /** Every escape decoded takes two octets, at least two ASCII ones, and at least two characters away. */
  lemma {:induction false} RoundShrinks(b: seq<Byte>)
    ensures |Unquote(b)| == |b| - 2 * Escapes(b)
    ensures AsciiCount(Unquote(b)) + 2 * Escapes(b) <= AsciiCount(b)
    ensures StartCount(Unquote(b)) + 2 * Escapes(b) <= StartCount(b)
    ensures Escapes(b) == 0 ==> Unquote(b) == b
    decreases |b|
  {
    if b == [] {
    } else if EscapedAt(b, 0) {
      RoundShrinks(b[3..]);
      TripleCounts(b);
      var rest := Unquote(b[3..]);
      assert ([DecodedOctet(b, 0)] + rest)[1..] == rest;
    } else {
      RoundShrinks(b[1..]);
      var rest := Unquote(b[1..]);
      assert ([b[0]] + rest)[1..] == rest;
      assert b == [b[0]] + b[1..];
    }
  }

  lemma TripleCounts(b: seq<Byte>)
    requires EscapedAt(b, 0)
    ensures AsciiCount(b) == 3 + AsciiCount(b[3..])
    ensures StartCount(b) == 3 + StartCount(b[3..])
  {
    assert b[1..][1..] == b[2..] && b[2..][1..] == b[3..];
    assert AsciiCount(b[1..]) == 1 + AsciiCount(b[2..]) && AsciiCount(b[2..]) == 1 + AsciiCount(b[3..]);
    assert StartCount(b[1..]) == 1 + StartCount(b[2..]) && StartCount(b[2..]) == 1 + StartCount(b[3..]);
  }

  lemma RoundIsStableIff(b: seq<Byte>)
    ensures Unquote(b) == b <==> Escapes(b) == 0
    ensures Unquote(b) != b ==> AsciiCount(Unquote(b)) + 2 <= AsciiCount(b)
  {
    RoundShrinks(b);
  }

  // ---------------------------------------------------------------- the octet loop

  function Encode(s: string): seq<Byte> {
    if s == "" then [] else Utf8(s[0]) + Encode(s[1..])
  }

  lemma {:induction false} AsciiAppend(a: seq<Byte>, b: seq<Byte>)
    ensures AsciiCount(a + b) == AsciiCount(a) + AsciiCount(b)
    ensures StartCount(a + b) == StartCount(a) + StartCount(b)
    decreases |a|
  {
    if a == [] {
      assert a + b == b;
    } else {
      assert (a + b)[1..] == a[1..] + b;
      AsciiAppend(a[1..], b);
    }
  }

  lemma CountsOfOne(a: Byte, rest: seq<Byte>)
    ensures AsciiCount([a] + rest) == (if a < 0x80 then 1 else 0) + AsciiCount(rest)
    ensures StartCount([a] + rest) == (if Continuation(a) then 0 else 1) + StartCount(rest)
  {
    assert ([a] + rest)[1..] == rest;
  }

  lemma {:induction false} ContinuationsCount(u: seq<Byte>)
    requires forall i :: 0 <= i < |u| ==> Continuation(u[i])
    ensures AsciiCount(u) == 0 && StartCount(u) == 0
    decreases |u|
  {
    if u != [] {
      ContinuationsCount(u[1..]);
    }
  }

  lemma OneCharacter(c: char)
    ensures AsciiCount(Utf8(c)) <= 1
    ensures StartCount(Utf8(c)) == 1
  {
    var u := Utf8(c);
    assert u == [u[0]] + u[1..];
    CountsOfOne(u[0], u[1..]);
    ContinuationsCount(u[1..]);
  }

  lemma {:induction false} EncodedCounts(s: string)
    ensures AsciiCount(Encode(s)) <= |s|
    ensures StartCount(Encode(s)) == |s|
    decreases |s|
  {
    if s != "" {
      EncodedCounts(s[1..]);
      OneCharacter(s[0]);
      AsciiAppend(Utf8(s[0]), Encode(s[1..]));
    }
  }

  /** Decoding with no bound on the rounds: every decoding up to the fixpoint is safe. */
  predicate StablySafe(b: seq<Byte>, unsafe: seq<Byte> -> bool)
    decreases AsciiCount(b)
  {
    var decoded := Unquote(b);
    RoundIsStableIff(b);
    !unsafe(decoded) && (decoded == b || StablySafe(decoded, unsafe))
  }

  function Rounds(b: seq<Byte>, n: nat): seq<Byte>
    decreases n
  {
    if n == 0 then b else Rounds(Unquote(b), n - 1)
  }

  predicate UnsafeAfter(b: seq<Byte>, unsafe: seq<Byte> -> bool, n: nat) {
    unsafe(Rounds(b, n))
  }

  /** Accepted means safe after every number of rounds, however many one cares to run. */
  lemma StablySafeIsWholeChain(b: seq<Byte>, unsafe: seq<Byte> -> bool)
    ensures StablySafe(b, unsafe) <==> forall n: nat :: n > 0 ==> !UnsafeAfter(b, unsafe, n)
  {
    if StablySafe(b, unsafe) {
      forall n: nat | n > 0 ensures !UnsafeAfter(b, unsafe, n) {
        SafeChain(b, unsafe, n);
      }
    } else {
      var n := UnsafeChain(b, unsafe);
    }
  }

  lemma {:induction false} SafeChain(b: seq<Byte>, unsafe: seq<Byte> -> bool, n: nat)
    requires StablySafe(b, unsafe) && n > 0
    ensures !UnsafeAfter(b, unsafe, n)
    decreases n
  {
    var decoded := Unquote(b);
    assert Rounds(b, n) == Rounds(decoded, n - 1);
    if n > 1 {
      SafeChain(decoded, unsafe, n - 1);
    }
  }

  lemma {:induction false} UnsafeChain(b: seq<Byte>, unsafe: seq<Byte> -> bool) returns (n: nat)
    requires !StablySafe(b, unsafe)
    ensures n > 0 && UnsafeAfter(b, unsafe, n)
    decreases AsciiCount(b)
  {
    var decoded := Unquote(b);
    RoundIsStableIff(b);
    if unsafe(decoded) {
      assert Rounds(b, 1) == Rounds(decoded, 0);
      return 1;
    }
    n := UnsafeChain(decoded, unsafe);
    assert Rounds(b, n + 1) == Rounds(decoded, n);
    n := n + 1;
  }

  /** `_decode_url_component_until_stable`: len + 1 rounds always reach the fixpoint. */
  method DecodeUntilStable(component: string, unsafe: seq<Byte> -> bool) returns (outcome: Outcome<string>)
    ensures outcome == if WellFormed(component) && StablySafe(Encode(component), unsafe) then Done(component)
                       else Raised("invalid public URL")
  {
    var valid := ValidatePercentEscapes(component);
    if !valid {
      return Raised("invalid public URL");
    }
    var current := Encode(component);
    EncodedCounts(component);
    for round := 0 to |component| + 1
      invariant AsciiCount(current) + 2 * round <= |component|
      invariant StablySafe(Encode(component), unsafe) == StablySafe(current, unsafe)
    {
      var decoded := Unquote(current);
      RoundIsStableIff(current);
      if unsafe(decoded) {
        return Raised("invalid public URL");
      }
      if decoded == current {
        return Done(component);
      }
      current := decoded;
    }
    assert false;
    return Raised("invalid public URL");
  }

  // ---------------------------------------------------------------- what a round decodes

  /** Three octets of an escape are those of its three characters. */
  lemma EncodedTriple(s: string)
    requires EscapeAt(s, 0)
    ensures Encode(s) == [PERCENT, s[1] as int, s[2] as int] + Encode(s[3..])
  {
    var tail := s[1..];
    assert tail[0] == s[1] && tail[1..][0] == s[2] && tail[1..][1..] == s[3..];
    assert Encode(s) == Utf8('%') + Encode(tail);
    assert Encode(tail) == Utf8(s[1]) + Encode(tail[1..]);
    assert Encode(tail[1..]) == Utf8(s[2]) + Encode(s[3..]);
    assert Utf8('%') == [PERCENT] && Utf8(s[1]) == [s[1] as int] && Utf8(s[2]) == [s[2] as int];
    hide Utf8, Encode;
    assert [PERCENT] + ([s[1] as int] + ([s[2] as int] + Encode(s[3..])))
           == [PERCENT, s[1] as int, s[2] as int] + Encode(s[3..]);
  }

  lemma {:induction false} UnquoteSkips(u: seq<Byte>, rest: seq<Byte>)
    requires forall i :: 0 <= i < |u| ==> u[i] != PERCENT
    ensures Unquote(u + rest) == u + Unquote(rest)
    decreases |u|
  {
    if u == [] {
      assert u + rest == rest;
    } else {
      assert (u + rest)[1..] == u[1..] + rest;
      UnquoteSkips(u[1..], rest);
      assert [u[0]] + (u[1..] + Unquote(rest)) == u + Unquote(rest);
    }
  }

  /** One round turns a well-formed text into the octets it denotes. */
  lemma {:induction false} RoundDecodes(s: string)
    requires WellFormed(s)
    ensures Unquote(Encode(s)) == Octets(s)
    decreases |s|
  {
    if s == "" {
    } else if s[0] == '%' {
      EncodedTriple(s);
      RoundDecodes(s[3..]);
      DecodedTriple(s, Encode(s[3..]));
    } else {
      RoundDecodes(s[1..]);
      Utf8Classes(s[0]);
      UnquoteSkips(Utf8(s[0]), Encode(s[1..]));
    }
  }

  lemma DecodedTriple(s: string, rest: seq<Byte>)
    requires EscapeAt(s, 0)
    ensures Unquote([PERCENT, s[1] as int, s[2] as int] + rest) == [EscapedOctet(s, 0)] + Unquote(rest)
  {
    var b: seq<Byte> := [PERCENT, s[1] as int, s[2] as int] + rest;
    assert b[3..] == rest;
    assert EscapedAt(b, 0);
  }

  /** Escaping octets and decoding one round gives them back, whatever they are. */
  lemma {:induction false} RoundInvertsEscaping(octets: seq<Byte>)
    ensures WellFormed(EscapeAll(octets)) && Unquote(Encode(EscapeAll(octets))) == octets
    decreases |octets|
  {
    if octets == [] {
    } else {
      var text, rest := EscapeAll(octets), EscapeAll(octets[1..]);
      RoundInvertsEscaping(octets[1..]);
      EscapeSpells(octets[0]);
      assert text == Escape(octets[0]) + rest && text[3..] == rest;
      assert EscapeAt(text, 0) && EscapedOctet(text, 0) == octets[0];
      EncodedTriple(text);
      DecodedTriple(text, Encode(rest));
      assert octets == [octets[0]] + octets[1..];
      hide Encode, Unquote, EscapeAll;
    }
  }

  // ---------------------------------------------------------------- strict UTF-8 decoding

  predicate ScalarValue(v: int) {
    0 <= v < 0xD800 || 0xE000 <= v < 0x110000
  }

  function SequenceLength(first: Byte): nat {
    if first < 0x80 then 1 else if first < 0xE0 then 2 else if first < 0xF0 then 3 else 4
  }

  /** The code point the leading octets spell, overlong or not. */
  function CodePoint(b: seq<Byte>): int
    requires b != [] && SequenceLength(b[0]) <= |b|
  {
    var n, first: int := SequenceLength(b[0]), b[0];
    if n == 1 then first
    else if n == 2 then (first - 0xC0) * 0x40 + Low(b[1])
    else if n == 3 then ((first - 0xE0) * 0x40 + Low(b[1])) * 0x40 + Low(b[2])
    else (((first - 0xF0) * 0x40 + Low(b[1])) * 0x40 + Low(b[2])) * 0x40 + Low(b[3])
  }

  function Low(b: Byte): int {
    (b as int) - 0x80
  }

  /** Strict decoding: each character must be the shortest form of a scalar value. */
  function Decode(b: seq<Byte>): Option<string>
    decreases |b|
  {
    if b == [] then Some("")
    else if |b| < SequenceLength(b[0]) || !ScalarValue(CodePoint(b)) then None
    else
      var c := CodePoint(b) as char;
      if !(Utf8(c) <= b) then None
      else
        var rest := Decode(b[|Utf8(c)|..]);
        if rest.None? then None else Some([c] + rest.value)
  }

  lemma Utf8Spells(c: char, rest: seq<Byte>)
    ensures SequenceLength((Utf8(c) + rest)[0]) == |Utf8(c)|
    ensures CodePoint(Utf8(c) + rest) == c as int
  {
    var v, u := c as int, Utf8(c);
    Split64(v);
    Split64(v / 0x40);
    Split64(v / 0x1000);
    forall i | 0 <= i < |u| ensures (u + rest)[i] == u[i] {
    }
  }

  lemma Split64(v: nat)
    ensures v == v / 0x40 * 0x40 + v % 0x40
    ensures v / 0x40 / 0x40 == v / 0x1000 && v / 0x1000 / 0x40 == v / 0x40000
  {
  }

  lemma {:induction false} DecodeOfEncode(s: string)
    ensures Decode(Encode(s)) == Some(s)
    decreases |s|
  {
    if s != "" {
      var u, rest := Utf8(s[0]), Encode(s[1..]);
      DecodeOfEncode(s[1..]);
      Utf8Spells(s[0], rest);
      assert (u + rest)[|u|..] == rest;
      assert ScalarValue(s[0] as int);
      assert s == [s[0]] + s[1..];
      hide Utf8, CodePoint;
    }
  }

  /** Decoding and encoding are inverse, so a decoded text is the only one with those octets. */
  lemma {:induction false} EncodeOfDecode(b: seq<Byte>)
    requires Decode(b).Some?
    ensures Encode(Decode(b).value) == b
    decreases |b|
  {
    if b != [] {
      var c := CodePoint(b) as char;
      var tail := b[|Utf8(c)|..];
      assert Utf8(c) <= b && Decode(tail).Some? && Decode(b).value == [c] + Decode(tail).value;
      hide CodePoint, ScalarValue, Utf8, SequenceLength, Decode, Encode;
      EncodeOfDecode(tail);
      EncodeStep(c, Decode(tail).value);
      assert b == Utf8(c) + tail;
    }
  }

  lemma EncodeStep(c: char, rest: string)
    ensures Encode([c] + rest) == Utf8(c) + Encode(rest)
  {
    hide Utf8;
    assert ([c] + rest)[1..] == rest;
  }

  // ---------------------------------------------------------------- the character loop

  /** One round on characters: check the escapes, decode them, read the octets as UTF-8. */
  function Round(s: string): Option<string> {
    if WellFormed(s) then Decode(Unquote(Encode(s))) else None
  }

  /** The octets a round reads as UTF-8 are those the text denotes. */
  lemma RoundReadsOctets(s: string)
    ensures Round(s).Some? ==> WellFormed(s) && Encode(Round(s).value) == Octets(s)
    ensures forall text :: WellFormed(s) && Encode(text) == Octets(s) ==> Round(s) == Some(text)
  {
    if WellFormed(s) {
      RoundDecodes(s);
      if Round(s).Some? {
        EncodeOfDecode(Octets(s));
      }
      forall text | Encode(text) == Octets(s) ensures Round(s) == Some(text) {
        DecodeOfEncode(text);
      }
    }
  }

  lemma RoundRemovesCharacters(s: string)
    requires Round(s).Some? && Round(s).value != s
    ensures |Round(s).value| + 2 <= |s|
  {
    var b := Encode(s);
    var text := Round(s).value;
    RoundShrinks(b);
    EncodeOfDecode(Unquote(b));
    EncodedCounts(s);
    EncodedCounts(text);
    if Escapes(b) == 0 {
      DecodeOfEncode(s);
    }
  }

  /** Decoding with no bound on the rounds. */
  function FullyDecoded(s: string, safe: string -> bool): Option<string>
    decreases |s|
  {
    var next := Round(s);
    if next.None? || !safe(next.value) then None
    else if next.value == s then Some(s)
    else
      RoundRemovesCharacters(s);
      FullyDecoded(next.value, safe)
  }

  /** `_decode_static_url_component`. */
  method DecodeStaticComponent(component: string, safe: string -> bool) returns (outcome: Outcome<string>)
    ensures outcome == match FullyDecoded(component, safe)
                       case Some(text) => Done(text)
                       case None => Raised("invalid static image URL")
  {
    var current := component;
    for round := 0 to |component| + 1
      invariant |current| + 2 * round <= |component|
      invariant FullyDecoded(component, safe) == FullyDecoded(current, safe)
    {
      var valid := ValidatePercentEscapes(current);
      if !valid {
        return Raised("invalid static image URL");
      }
      var decoded := Decode(Unquote(Encode(current)));
      if decoded.None? {
        return Raised("invalid static image URL");
      }
      if !safe(decoded.value) {
        return Raised("invalid static image URL");
      }
      if decoded.value == current {
        return Done(current);
      }
      RoundRemovesCharacters(current);
      current := decoded.value;
    }
    assert false;
    return Raised("invalid static image URL");
  }

  /** The text after `n` rounds, if none of them fails. */
  function RoundTimes(s: string, n: nat): Option<string>
    decreases n
  {
    if n == 0 then Some(s)
    else if Round(s).None? then None
    else RoundTimes(Round(s).value, n - 1)
  }

  predicate SafeAfter(s: string, safe: string -> bool, n: nat) {
    RoundTimes(s, n).Some? && safe(RoundTimes(s, n).value)
  }

  /** Accepted means decodable and safe after every number of rounds; the result is what enough rounds give. */
  lemma FullyDecodedIsWholeChain(s: string, safe: string -> bool)
    ensures FullyDecoded(s, safe).Some? <==> forall n: nat :: n > 0 ==> SafeAfter(s, safe, n)
    ensures FullyDecoded(s, safe).Some? ==>
              forall n: nat :: n >= |s| ==> RoundTimes(s, n) == FullyDecoded(s, safe)
  {
    if FullyDecoded(s, safe).Some? {
      forall n: nat
        ensures n > 0 ==> SafeAfter(s, safe, n)
        ensures n >= |s| ==> RoundTimes(s, n) == FullyDecoded(s, safe)
      {
        DecodedChain(s, safe, n);
      }
    } else {
      var n := UnsafeRound(s, safe);
    }
  }

  lemma {:induction false} DecodedChain(s: string, safe: string -> bool, n: nat)
    requires FullyDecoded(s, safe).Some?
    ensures n > 0 ==> SafeAfter(s, safe, n)
    ensures n >= |s| ==> RoundTimes(s, n) == FullyDecoded(s, safe)
    decreases n, |s|
  {
    var next := Round(s).value;
    if n > 0 {
      assert RoundTimes(s, n) == RoundTimes(next, n - 1);
      if next == s {
        DecodedChain(s, safe, n - 1);
        StableStays(s, n - 1);
      } else {
        RoundRemovesCharacters(s);
        DecodedChain(next, safe, n - 1);
      }
    } else if next != s {
      RoundRemovesCharacters(s);
    }
  }

  lemma {:induction false} StableStays(s: string, n: nat)
    requires Round(s) == Some(s)
    ensures RoundTimes(s, n) == Some(s)
    decreases n
  {
    if n > 0 {
      StableStays(s, n - 1);
    }
  }

  lemma {:induction false} UnsafeRound(s: string, safe: string -> bool) returns (n: nat)
    requires FullyDecoded(s, safe).None?
    ensures n > 0 && !SafeAfter(s, safe, n)
    decreases |s|
  {
    var next := Round(s);
    if next.None? || !safe(next.value) {
      assert next.Some? ==> RoundTimes(s, 1) == RoundTimes(next.value, 0);
      return 1;
    }
    RoundRemovesCharacters(s);
    n := UnsafeRound(next.value, safe);
    assert RoundTimes(s, n + 1) == RoundTimes(next.value, n);
    n := n + 1;
  }

  /** What the loop accepts is safe, has no escape left, and is a fixpoint of the round. */
  lemma {:induction false} FullyDecodedIsPlain(s: string, safe: string -> bool)
    requires FullyDecoded(s, safe).Some?
    ensures var text := FullyDecoded(s, safe).value;
            safe(text) && '%' !in text && Round(text) == Some(text) && |text| <= |s|
    decreases |s|
  {
    var next := Round(s).value;
    if next == s {
      var b := Encode(s);
      EncodeOfDecode(Unquote(b));
      RoundIsStableIff(b);
      NoEscapesNoPercent(s);
    } else {
      RoundRemovesCharacters(s);
      FullyDecodedIsPlain(next, safe);
    }
  }

  lemma {:induction false} NoEscapesNoPercent(s: string)
    requires WellFormed(s) && Escapes(Encode(s)) == 0
    ensures '%' !in s
    decreases |s|
  {
    if s != "" {
      if s[0] == '%' {
        EncodedEscape(s);
      } else {
        SkipLiteral(Utf8(s[0]), Encode(s[1..]));
        Utf8Classes(s[0]);
        NoEscapesNoPercent(s[1..]);
        assert s == [s[0]] + s[1..];
      }
    }
  }

  lemma EncodedEscape(s: string)
    requires EscapeAt(s, 0)
    ensures EscapedAt(Encode(s), 0)
  {
    assert s[1..][0] == s[1] && s[1..][1..][0] == s[2];
    assert Encode(s) == Utf8(s[0]) + Encode(s[1..]);
    assert Encode(s[1..]) == Utf8(s[1]) + Encode(s[1..][1..]);
    assert Encode(s[1..][1..]) == Utf8(s[2]) + Encode(s[1..][1..][1..]);
  }

  /** Octets other than the percent sign start no escape. */
  lemma {:induction false} SkipLiteral(u: seq<Byte>, rest: seq<Byte>)
    requires forall i :: 0 <= i < |u| ==> u[i] != PERCENT
    ensures Escapes(u + rest) == Escapes(rest)
    decreases |u|
  {
    if u == [] {
      assert u + rest == rest;
    } else {
      assert (u + rest)[1..] == u[1..] + rest;
      SkipLiteral(u[1..], rest);
    }
  }
}
