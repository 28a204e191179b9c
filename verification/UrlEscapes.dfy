/**
 Percent-escape normalisation of one URL component, as sections 6.2.2.1 and 6.2.2.2 of RFC 3986
 describe it: upper-case escapes, none around an unreserved octet, every octet preserved.
 */
module UrlEscapes {
  import opened Common

  type Byte = b: int | 0 <= b < 256

  // ---------------------------------------------------------------- characters and octets

  /** The UTF-8 encoding of one Unicode scalar value. */
  function Utf8(c: char): (octets: seq<Byte>)
    ensures 1 <= |octets| <= 4
  {
    var v := c as int;
    if v < 0x80 then [v]
    else if v < 0x800 then [0xC0 + v / 0x40, 0x80 + v % 0x40]
    else if v < 0x10000 then [0xE0 + v / 0x1000, 0x80 + v / 0x40 % 0x40, 0x80 + v % 0x40]
    else [0xF0 + v / 0x40000, 0x80 + v / 0x1000 % 0x40, 0x80 + v / 0x40 % 0x40, 0x80 + v % 0x40]
  }

  predicate IsHex(c: char) {
    '0' <= c <= '9' || 'A' <= c <= 'F' || 'a' <= c <= 'f'
  }

  function HexValue(c: char): (v: int)
    requires IsHex(c)
    ensures 0 <= v < 16
  {
    if c <= '9' then c as int - '0' as int
    else if c <= 'F' then c as int - 'A' as int + 10
    else c as int - 'a' as int + 10
  }

  function HexDigit(v: int): (c: char)
    requires 0 <= v < 16
    ensures IsHex(c) && HexValue(c) == v && !('a' <= c <= 'f')
  {
    if v < 10 then ('0' as int + v) as char else ('A' as int + v - 10) as char
  }

  function Upper(c: char): (u: char)
    requires IsHex(c)
    ensures u == HexDigit(HexValue(c))
  {
    if 'a' <= c <= 'f' then (c as int - 'a' as int + 'A' as int) as char else c
  }

  predicate Unreserved(c: char) {
    'A' <= c <= 'Z' || 'a' <= c <= 'z' || '0' <= c <= '9' || c == '-' || c == '.' || c == '_' || c == '~'
  }

  /** Reserved characters a component may keep literally; a query may keep `?` as well. */
  predicate SafeReserved(c: char, query: bool) {
    c in "/:@!$&'()*+,;=" || (query && c == '?')
  }

  predicate EscapeAt(s: string, i: nat) {
    i + 2 < |s| && s[i] == '%' && IsHex(s[i + 1]) && IsHex(s[i + 2])
  }

  function EscapedOctet(s: string, i: nat): Byte
    requires EscapeAt(s, i)
  {
    16 * HexValue(s[i + 1]) + HexValue(s[i + 2])
  }

  function Escape(octet: Byte): string {
    ['%', HexDigit(octet / 16), HexDigit(octet % 16)]
  }

  function EscapeAll(octets: seq<Byte>): string {
    if octets == [] then "" else Escape(octets[0]) + EscapeAll(octets[1..])
  }

  /** Every percent sign starts a two-digit escape. */
  predicate WellFormed(s: string)
    decreases |s|
  {
    if s == "" then true
    else if s[0] == '%' then EscapeAt(s, 0) && WellFormed(s[3..])
    else WellFormed(s[1..])
  }

  // ---------------------------------------------------------------- spelled out

  /** An escape is the percent sign and the octet's two hexadecimal digits, the high one first. */
  lemma EscapeSpells(octet: Byte)
    ensures Escape(octet) == ['%', "0123456789ABCDEF"[octet / 16], "0123456789ABCDEF"[octet % 16]]
    ensures EscapeAt(Escape(octet), 0) && EscapedOctet(Escape(octet), 0) == octet
  {
    HexSpells(octet / 16);
    HexSpells(octet % 16);
  }

  /** Digits of either case are read alike, and no other character is one. */
  lemma HexSpells(v: int)
    requires 0 <= v < 16
    ensures HexDigit(v) == "0123456789ABCDEF"[v]
    ensures forall c :: IsHex(c) && HexValue(c) == v <==> c == "0123456789ABCDEF"[v] || c == "0123456789abcdef"[v]
  {
  }

  /** The encodings of section 7 of RFC 3629, one of each length. */
  lemma Utf8Examples()
    ensures Utf8('A') == [0x41]
    ensures Utf8('\U{0391}') == [0xCE, 0x91]
    ensures Utf8('\U{2262}') == [0xE2, 0x89, 0xA2]
    ensures Utf8('\U{233B4}') == [0xF0, 0xA3, 0x8E, 0xB4]
  {
  }

  // ---------------------------------------------------------------- the two functions

  function Canon(s: string, query: bool): string
    requires WellFormed(s)
    decreases |s|
  {
    if s == "" then ""
    else if s[0] != '%' then
      (if Unreserved(s[0]) || SafeReserved(s[0], query) then [s[0]] else EscapeAll(Utf8(s[0]))) + Canon(s[1..], query)
    else
      var octet := EscapedOctet(s, 0);
      (if Unreserved(octet as char) then [octet as char] else ['%', Upper(s[1]), Upper(s[2])]) + Canon(s[3..], query)
  }

  lemma WellFormedFrom(s: string, i: nat)
    requires i < |s|
    ensures s[i] != '%' ==> WellFormed(s[i..]) == WellFormed(s[i + 1..])
    ensures s[i] == '%' && EscapeAt(s, i) ==> WellFormed(s[i..]) == WellFormed(s[i + 3..])
    ensures s[i] == '%' && !EscapeAt(s, i) ==> !WellFormed(s[i..])
  {
    var t := s[i..];
    assert t[1..] == s[i + 1..];
    assert EscapeAt(t, 0) == EscapeAt(s, i);
    if EscapeAt(s, i) {
      assert t[3..] == s[i + 3..];
    }
  }

  /** `_validate_percent_escape_syntax`. */
  method ValidatePercentEscapes(component: string) returns (ok: bool)
    ensures ok == WellFormed(component)
  {
    var position := 0;
    while position < |component|
      invariant 0 <= position <= |component|
      invariant WellFormed(component) == WellFormed(component[position..])
    {
      WellFormedFrom(component, position);
      if component[position] != '%' {
        position := position + 1;
        continue;
      }
      if position + 2 >= |component| || !IsHex(component[position + 1]) || !IsHex(component[position + 2]) {
        return false;
      }
      position := position + 3;
    }
    return true;
  }

  /** `_canonical_url_component`. */
  method CanonicalComponent(component: string, query: bool) returns (outcome: Outcome<string>)
    ensures outcome == if WellFormed(component) then Done(Canon(component, query)) else Raised("invalid public URL")
  {
    var valid := ValidatePercentEscapes(component);
    if !valid {
      return Raised("invalid public URL");
    }
    hide Canon, EscapeAll, Utf8, Unreserved, SafeReserved, HexValue, IsHex;
    assert component[0..] == component;
    var normalized := "";
    var position := 0;
    while position < |component|
      invariant 0 <= position <= |component| && WellFormed(component[position..])
      invariant normalized + Canon(component[position..], query) == Canon(component, query)
    {
      var character := component[position];
      CanonFrom(component, position, query);
      Associate(normalized, Piece(component, position, query),
        Canon(component[position + Width(component, position)..], query));
      if character != '%' {
        if Unreserved(character) || SafeReserved(character, query) {
          normalized := normalized + [character];
        } else {
          var escaped := EscapeOctets(Utf8(character));
          normalized := normalized + escaped;
        }
        position := position + 1;
        continue;
      }
      var octet := EscapedOctet(component, position);
      if Unreserved(octet as char) {
        normalized := normalized + [octet as char];
      } else {
        normalized := normalized + ['%', Upper(component[position + 1]), Upper(component[position + 2])];
      }
      position := position + 3;
    }
    CanonEnd(component, query);
    assert normalized + "" == normalized;
    return Done(normalized);
  }

  function Width(s: string, i: nat): nat
    requires i < |s|
  {
    if s[i] == '%' then 3 else 1
  }

  /** What the character or escape at `i` becomes. */
  function Piece(s: string, i: nat, query: bool): string
    requires i < |s| && (s[i] == '%' ==> EscapeAt(s, i))
  {
    if s[i] != '%' then
      if Unreserved(s[i]) || SafeReserved(s[i], query) then [s[i]] else EscapeAll(Utf8(s[i]))
    else
      var octet := EscapedOctet(s, i);
      if Unreserved(octet as char) then [octet as char] else ['%', Upper(s[i + 1]), Upper(s[i + 2])]
  }

  lemma Associate(a: string, b: string, c: string)
    ensures a + (b + c) == (a + b) + c
  {
  }

  lemma CanonEnd(s: string, query: bool)
    ensures Canon(s[|s|..], query) == ""
  {
  }

  lemma CanonFrom(s: string, i: nat, query: bool)
    requires i < |s| && WellFormed(s[i..])
    ensures s[i] == '%' ==> EscapeAt(s, i)
    ensures i + Width(s, i) <= |s| && WellFormed(s[i + Width(s, i)..])
    ensures Canon(s[i..], query) == Piece(s, i, query) + Canon(s[i + Width(s, i)..], query)
  {
    var t := s[i..];
    assert t[1..] == s[i + 1..];
    assert EscapeAt(t, 0) == EscapeAt(s, i);
    if EscapeAt(s, i) {
      assert t[3..] == s[i + 3..];
      assert EscapedOctet(t, 0) == EscapedOctet(s, i);
    }
    hide Unreserved, SafeReserved, Utf8, EscapeAll, HexValue;
  }

  method EscapeOctets(octets: seq<Byte>) returns (text: string)
    ensures text == EscapeAll(octets)
  {
    text := "";
    for i := 0 to |octets|
      invariant text + EscapeAll(octets[i..]) == EscapeAll(octets)
    {
      assert octets[i..][1..] == octets[i + 1..];
      text := text + Escape(octets[i]);
    }
  }

  // ---------------------------------------------------------------- what a component means

  /** An octet, and whether it stands there as a literal reserved character. */
  datatype Token = Token(octet: Byte, delimiter: bool)

  function Plain(octets: seq<Byte>): seq<Token> {
    seq(|octets|, i requires 0 <= i < |octets| => Token(octets[i], false))
  }

  function Meaning(s: string, query: bool): seq<Token>
    requires WellFormed(s)
    decreases |s|
  {
    if s == "" then []
    else if s[0] == '%' then [Token(EscapedOctet(s, 0), false)] + Meaning(s[3..], query)
    else Literal(s[0], query) + Meaning(s[1..], query)
  }

  function Literal(c: char, query: bool): seq<Token> {
    if SafeReserved(c, query) then [Token(c as int, true)] else Plain(Utf8(c))
  }

  function Octets(s: string): seq<Byte>
    requires WellFormed(s)
    decreases |s|
  {
    if s == "" then []
    else if s[0] == '%' then [EscapedOctet(s, 0)] + Octets(s[3..])
    else Utf8(s[0]) + Octets(s[1..])
  }

  predicate ValidToken(t: Token, query: bool) {
    t.delimiter ==> SafeReserved(t.octet as char, query)
  }

  predicate ValidTokens(tokens: seq<Token>, query: bool) {
    forall i :: 0 <= i < |tokens| ==> ValidToken(tokens[i], query)
  }

  function RenderOne(t: Token): string {
    if t.delimiter || Unreserved(t.octet as char) then [t.octet as char] else Escape(t.octet)
  }

  /** The one canonical spelling of a meaning. */
  function Render(tokens: seq<Token>): string {
    if tokens == [] then "" else RenderOne(tokens[0]) + Render(tokens[1..])
  }

  lemma {:induction false} RenderAppend(a: seq<Token>, b: seq<Token>)
    ensures Render(a + b) == Render(a) + Render(b)
    decreases |a|
  {
    if a == [] {
      assert a + b == b;
    } else {
      assert (a + b)[1..] == a[1..] + b;
      RenderAppend(a[1..], b);
    }
  }

  /** Octets outside ASCII are never unreserved. */
  lemma Utf8Classes(c: char)
    ensures c as int < 0x80 ==> Utf8(c) == [c as int]
    ensures c as int >= 0x80 ==> forall i :: 0 <= i < |Utf8(c)| ==> Utf8(c)[i] >= 0x80
  {
  }

  lemma {:induction false} RenderPlain(octets: seq<Byte>)
    requires forall i :: 0 <= i < |octets| ==> !Unreserved(octets[i] as char)
    ensures Render(Plain(octets)) == EscapeAll(octets)
    decreases |octets|
  {
    if octets != [] {
      assert Plain(octets)[1..] == Plain(octets[1..]);
      RenderPlain(octets[1..]);
    }
  }

  /** The canonical form is the rendering of the meaning. */
  lemma {:induction false} CanonRendersMeaning(s: string, query: bool)
    requires WellFormed(s)
    ensures Canon(s, query) == Render(Meaning(s, query))
    decreases |s|
  {
    if s == "" {
    } else if s[0] == '%' {
      CanonRendersMeaning(s[3..], query);
      CanonRendersEscape(s);
      hide Utf8, EscapeAll, Escape, HexValue, IsHex, Unreserved, SafeReserved;
      assert Meaning(s, query)[1..] == Meaning(s[3..], query);
    } else {
      CanonRendersMeaning(s[1..], query);
      CanonRendersLiteral(s[0], query);
      hide Utf8, EscapeAll, Escape, HexValue, IsHex, Unreserved, SafeReserved, Plain, Render;
      RenderAppend(Literal(s[0], query), Meaning(s[1..], query));
    }
  }

  lemma {:induction false} MeaningIsValid(s: string, query: bool)
    requires WellFormed(s)
    ensures ValidTokens(Meaning(s, query), query)
    decreases |s|
  {
    if s == "" {
    } else if s[0] == '%' {
      MeaningIsValid(s[3..], query);
      hide HexValue, IsHex;
    } else {
      MeaningIsValid(s[1..], query);
      LiteralIsValid(s[0], query);
      hide Literal;
    }
  }

  lemma LiteralIsValid(c: char, query: bool)
    ensures ValidTokens(Literal(c, query), query)
  {
    hide Utf8;
  }

  lemma CanonRendersEscape(s: string)
    requires EscapeAt(s, 0)
    ensures Escape(EscapedOctet(s, 0)) == ['%', Upper(s[1]), Upper(s[2])]
  {
    var octet := EscapedOctet(s, 0);
    assert octet / 16 == HexValue(s[1]) && octet % 16 == HexValue(s[2]);
  }

  lemma CanonRendersLiteral(c: char, query: bool)
    requires c != '%'
    ensures SafeReserved(c, query) ==> Render([Token(c as int, true)]) == [c]
    ensures !SafeReserved(c, query) ==>
              Render(Plain(Utf8(c))) == if Unreserved(c) then [c] else EscapeAll(Utf8(c))
  {
    Utf8Classes(c);
    if SafeReserved(c, query) {
      assert [Token(c as int, true)][1..] == [];
    } else if Unreserved(c) {
      assert Plain(Utf8(c)) == [Token(c as int, false)];
      assert Plain(Utf8(c))[1..] == [];
    } else {
      RenderPlain(Utf8(c));
    }
  }

  /** A rendering is well formed and means what it was rendered from. */
  lemma {:induction false} RenderRoundTrip(tokens: seq<Token>, query: bool)
    requires ValidTokens(tokens, query)
    ensures WellFormed(Render(tokens))
    ensures Meaning(Render(tokens), query) == tokens
    decreases |tokens|
  {
    if tokens != [] {
      var t, rest := tokens[0], tokens[1..];
      RenderRoundTrip(rest, query);
      RenderStep(t, Render(rest), query);
      hide RenderOne, Meaning, WellFormed;
      assert tokens == [t] + rest;
    }
  }

  lemma RenderStep(t: Token, rest: string, query: bool)
    requires ValidToken(t, query) && WellFormed(rest)
    ensures WellFormed(RenderOne(t) + rest)
    ensures Meaning(RenderOne(t) + rest, query) == [t] + Meaning(rest, query)
  {
    var text := RenderOne(t) + rest;
    if t.delimiter || Unreserved(t.octet as char) {
      assert text[1..] == rest;
      Utf8Classes(t.octet as char);
      assert Plain(Utf8(t.octet as char)) == [Token(t.octet, false)];
    } else {
      assert text[3..] == rest;
      assert EscapeAt(text, 0);
      assert EscapedOctet(text, 0) == t.octet;
    }
  }

  function OctetsOf(tokens: seq<Token>): seq<Byte> {
    seq(|tokens|, i requires 0 <= i < |tokens| => tokens[i].octet)
  }

  lemma OctetsAppend(a: seq<Token>, b: seq<Token>)
    ensures OctetsOf(a + b) == OctetsOf(a) + OctetsOf(b)
  {
  }

  lemma OctetsOfLiteral(c: char, query: bool)
    ensures OctetsOf(Literal(c, query)) == Utf8(c)
  {
    Utf8Classes(c);
    if SafeReserved(c, query) {
      assert c as int < 0x80;
    } else {
      hide Utf8, SafeReserved;
      assert OctetsOf(Plain(Utf8(c))) == Utf8(c);
    }
  }

  /** The octets of a component are those of its meaning. */
  lemma {:induction false} OctetsOfMeaning(s: string, query: bool)
    requires WellFormed(s)
    ensures Octets(s) == OctetsOf(Meaning(s, query))
    decreases |s|
  {
    if s == "" {
    } else if s[0] == '%' {
      OctetsOfMeaning(s[3..], query);
      OctetsAppend([Token(EscapedOctet(s, 0), false)], Meaning(s[3..], query));
      assert OctetsOf([Token(EscapedOctet(s, 0), false)]) == [EscapedOctet(s, 0)];
      hide OctetsOf;
    } else {
      OctetsOfMeaning(s[1..], query);
      OctetsOfLiteral(s[0], query);
      hide OctetsOf, Literal, Utf8;
      OctetsAppend(Literal(s[0], query), Meaning(s[1..], query));
    }
  }

  // ---------------------------------------------------------------- the main results

  /** The canonical form is well formed, keeps every octet, and is its own canonical form. */
  lemma CanonIsNormal(s: string, query: bool)
    requires WellFormed(s)
    ensures WellFormed(Canon(s, query))
    ensures Octets(Canon(s, query)) == Octets(s)
    ensures Canon(Canon(s, query), query) == Canon(s, query)
  {
    CanonRendersMeaning(s, query);
    MeaningIsValid(s, query);
    RenderRoundTrip(Meaning(s, query), query);
    CanonRendersMeaning(Canon(s, query), query);
    OctetsOfMeaning(s, query);
    OctetsOfMeaning(Canon(s, query), query);
  }

  /**
   Two components get the same canonical form exactly when they denote the same octets with the
   same ones standing as literal delimiters: nothing is conflated, nothing equivalent told apart.
   */
  lemma CanonDecidesEquivalence(s: string, t: string, query: bool)
    requires WellFormed(s) && WellFormed(t)
    ensures Canon(s, query) == Canon(t, query) <==> Meaning(s, query) == Meaning(t, query)
  {
    CanonRendersMeaning(s, query);
    MeaningIsValid(s, query);
    MeaningIsValid(t, query);
    CanonRendersMeaning(t, query);
    RenderRoundTrip(Meaning(s, query), query);
    RenderRoundTrip(Meaning(t, query), query);
  }

  /** Escapes in upper case around reserved or non-ASCII octets only, literals allowed ones only. */
  predicate CanonicalForm(s: string, query: bool)
    decreases |s|
  {
    if s == "" then true
    else if s[0] == '%' then
      && EscapeAt(s, 0) && s[1] == Upper(s[1]) && s[2] == Upper(s[2])
      && !Unreserved(EscapedOctet(s, 0) as char)
      && CanonicalForm(s[3..], query)
    else (Unreserved(s[0]) || SafeReserved(s[0], query)) && CanonicalForm(s[1..], query)
  }

  lemma {:induction false} RenderIsCanonical(tokens: seq<Token>, query: bool)
    requires ValidTokens(tokens, query)
    ensures CanonicalForm(Render(tokens), query)
    decreases |tokens|
  {
    if tokens != [] {
      var t, rest := tokens[0], tokens[1..];
      RenderIsCanonical(rest, query);
      var text := Render(tokens);
      if t.delimiter || Unreserved(t.octet as char) {
        assert text[1..] == Render(rest);
      } else {
        assert text[3..] == Render(rest);
        assert EscapedOctet(text, 0) == t.octet;
      }
    }
  }

  lemma CanonIsCanonical(s: string, query: bool)
    requires WellFormed(s)
    ensures CanonicalForm(Canon(s, query), query)
  {
    CanonRendersMeaning(s, query);
    MeaningIsValid(s, query);
    RenderIsCanonical(Meaning(s, query), query);
  }

  /**
   Which single characters and escapes the canonical form keeps: a path keeps the unreserved characters and the
   reserved ones listed, a query the question mark too; only an escaped unreserved character is decoded.
   */
  lemma KeptCharacters(c: char, octet: Byte, query: bool)
    requires c != '%'
    ensures Canon([c], query) == [c]
            <==> c in "ABCDEFGHIJKLMNOPQRSTUVWXYZ" || c in "abcdefghijklmnopqrstuvwxyz" || c in "0123456789"
                 || c in "-._~/:@!$&'()*+,;=" || (query && c == '?')
    ensures WellFormed(Escape(octet))
    ensures Canon(Escape(octet), query)
            == if || octet as char in "ABCDEFGHIJKLMNOPQRSTUVWXYZ" || octet as char in "abcdefghijklmnopqrstuvwxyz"
                  || octet as char in "0123456789" || octet as char in "-._~"
               then [octet as char] else Escape(octet)
  {
    UnreservedSpells(c);
    UnreservedSpells(octet as char);
    EscapeSpells(octet);
    assert Escape(octet)[3..] == "" && [c][1..] == "";
    assert Canon("", query) == "";
    CanonRendersEscape(Escape(octet));
    EscapedIsLonger(Utf8(c));
    hide Unreserved, Utf8, EscapeAll;
  }

  lemma UnreservedSpells(c: char)
    ensures Unreserved(c)
            <==> c in "ABCDEFGHIJKLMNOPQRSTUVWXYZ" || c in "abcdefghijklmnopqrstuvwxyz" || c in "0123456789"
                 || c in "-._~"
  {
    LetterSpells(c, 'A', "ABCDEFGHIJKLMNOPQRSTUVWXYZ");
    LetterSpells(c, 'a', "abcdefghijklmnopqrstuvwxyz");
    LetterSpells(c, '0', "0123456789");
  }

  lemma LetterSpells(c: char, first: char, text: string)
    requires forall i :: 0 <= i < |text| ==> text[i] as int == first as int + i
    ensures c in text <==> first as int <= c as int < first as int + |text|
  {
    if first as int <= c as int < first as int + |text| {
      assert text[c as int - first as int] == c;
    }
  }

  lemma EscapedIsLonger(octets: seq<Byte>)
    requires octets != []
    ensures |EscapeAll(octets)| >= 3
  {
  }
}
