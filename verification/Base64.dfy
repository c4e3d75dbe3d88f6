/** Canonical base64: RFC 4648 sections 3.5 and 4. */
module Base64 {
  import opened Wrappers

  type Byte = b: int | 0 <= b < 256

  // ---- The alphabet ----

  /** The symbol of a six-bit value, and back. */
  function Symbol(v: nat): char
    requires v < 64
  {
    if v < 26 then ('A' as int + v) as char
    else if v < 52 then ('a' as int + v - 26) as char
    else if v < 62 then ('0' as int + v - 52) as char
    else if v == 62 then '+' else '/'
  }

  predicate IsSymbol(c: char) {
    'A' <= c <= 'Z' || 'a' <= c <= 'z' || '0' <= c <= '9' || c == '+' || c == '/'
  }

  function Value(c: char): (v: nat)
    requires IsSymbol(c)
    ensures v < 64 && Symbol(v) == c
  {
    if 'A' <= c <= 'Z' then c as int - 'A' as int
    else if 'a' <= c <= 'z' then c as int - 'a' as int + 26
    else if '0' <= c <= '9' then c as int - '0' as int + 52
    else if c == '+' then 62 else 63
  }

  lemma SymbolValue(v: nat)
    requires v < 64
    ensures IsSymbol(Symbol(v)) && Value(Symbol(v)) == v && Symbol(v) != '='
  {
  }

  // ---- Three bytes and their four six-bit values ----

  function First(b0: Byte): nat { b0 / 4 }

  function Second(b0: Byte, b1: Byte): (v: nat) ensures v < 64 { b0 % 4 * 16 + b1 / 16 }

  function Third(b1: Byte, b2: Byte): (v: nat) ensures v < 64 { b1 % 16 * 4 + b2 / 64 }

  function Fourth(b2: Byte): nat { b2 % 64 }

  function Byte0(v0: nat, v1: nat): Byte requires v0 < 64 && v1 < 64 { v0 * 4 + v1 / 16 }

  function Byte1(v1: nat, v2: nat): Byte requires v1 < 64 && v2 < 64 { v1 % 16 * 16 + v2 / 4 }

  function Byte2(v2: nat, v3: nat): Byte requires v2 < 64 && v3 < 64 { v2 % 4 * 64 + v3 }

  lemma BytesOfValues(b0: Byte, b1: Byte, b2: Byte)
    ensures Byte0(First(b0), Second(b0, b1)) == b0
    ensures Byte1(Second(b0, b1), Third(b1, b2)) == b1
    ensures Byte2(Third(b1, b2), Fourth(b2)) == b2
  {
  }

  lemma ValuesOfBytes(v0: nat, v1: nat, v2: nat, v3: nat)
    requires v0 < 64 && v1 < 64 && v2 < 64 && v3 < 64
    ensures First(Byte0(v0, v1)) == v0
    ensures Second(Byte0(v0, v1), Byte1(v1, v2)) == v1
    ensures Third(Byte1(v1, v2), Byte2(v2, v3)) == v2
    ensures Fourth(Byte2(v2, v3)) == v3
    ensures Second(Byte0(v0, v1), 0) == v1 - v1 % 16
    ensures Third(Byte1(v1, v2), 0) == v2 - v2 % 4
  {
  }

  // ---- Encoding and lenient decoding ----

  /** Three bytes to four symbols; one or two left over are filled up with zero bits and padded with `=`. */
  function Encode(bytes: seq<Byte>): string {
    if bytes == [] then []
    else if |bytes| == 1 then [Symbol(First(bytes[0])), Symbol(Second(bytes[0], 0)), '=', '=']
    else if |bytes| == 2 then
      [Symbol(First(bytes[0])), Symbol(Second(bytes[0], bytes[1])), Symbol(Third(bytes[1], 0)), '=']
    else
      [Symbol(First(bytes[0])), Symbol(Second(bytes[0], bytes[1])), Symbol(Third(bytes[1], bytes[2])),
       Symbol(Fourth(bytes[2]))] + Encode(bytes[3..])
  }

  /** `BASE64_PATTERN`, four characters at a time: only the last group may be padded. */
  predicate Pattern(t: string) {
    t == []
    || (|t| >= 4 && IsSymbol(t[0]) && IsSymbol(t[1])
        && ((IsSymbol(t[2]) && IsSymbol(t[3]) && Pattern(t[4..]))
            || (IsSymbol(t[2]) && t[3] == '=' && |t| == 4)
            || (t[2] == '=' && t[3] == '=' && |t| == 4)))
  }

  /** What `atob` reads: it drops the pad bits without looking at them. */
  function Decode(t: string): seq<Byte>
    requires Pattern(t)
  {
    if t == [] then []
    else if t[2] == '=' then [Byte0(Value(t[0]), Value(t[1]))]
    else if t[3] == '=' then [Byte0(Value(t[0]), Value(t[1])), Byte1(Value(t[1]), Value(t[2]))]
    else
      [Byte0(Value(t[0]), Value(t[1])), Byte1(Value(t[1]), Value(t[2])), Byte2(Value(t[2]), Value(t[3]))] + Decode(t[4..])
  }

  /** RFC 4648 section 3.5: the bits that padding fills up are zero. */
  predicate ZeroPadBits(t: string)
    requires Pattern(t)
  {
    t != [] ==>
      if t[|t| - 2] == '=' then IsSymbol(t[|t| - 3]) && Value(t[|t| - 3]) % 16 == 0
      else t[|t| - 1] == '=' ==> IsSymbol(t[|t| - 2]) && Value(t[|t| - 2]) % 4 == 0
  }

  lemma DecodeSymbols(v0: nat, v1: nat, v2: nat, v3: nat, rest: string)
    requires v0 < 64 && v1 < 64 && v2 < 64 && v3 < 64 && Pattern(rest)
    ensures var t := [Symbol(v0), Symbol(v1), Symbol(v2), Symbol(v3)] + rest;
      Pattern(t) && Decode(t) == [Byte0(v0, v1), Byte1(v1, v2), Byte2(v2, v3)] + Decode(rest)
  {
    SymbolValue(v0);
    SymbolValue(v1);
    SymbolValue(v2);
    SymbolValue(v3);
    var t := [Symbol(v0), Symbol(v1), Symbol(v2), Symbol(v3)] + rest;
    assert t[4..] == rest;
  }

  lemma DecodeSymbolsPadded(v0: nat, v1: nat, v2: nat)
    requires v0 < 64 && v1 < 64 && v2 < 64
    ensures Pattern([Symbol(v0), Symbol(v1), '=', '=']) && Decode([Symbol(v0), Symbol(v1), '=', '=']) == [Byte0(v0, v1)]
    ensures Pattern([Symbol(v0), Symbol(v1), Symbol(v2), '='])
    ensures Decode([Symbol(v0), Symbol(v1), Symbol(v2), '=']) == [Byte0(v0, v1), Byte1(v1, v2)]
  {
    SymbolValue(v0);
    SymbolValue(v1);
    SymbolValue(v2);
  }

  lemma DecodeLastGroup(b0: Byte, b1: Byte)
    ensures Pattern(Encode([b0])) && Decode(Encode([b0])) == [b0]
    ensures Pattern(Encode([b0, b1])) && Decode(Encode([b0, b1])) == [b0, b1]
  {
    var v0, v1, w1, v2 := First(b0), Second(b0, 0), Second(b0, b1), Third(b1, 0);
    assert Encode([b0]) == [Symbol(v0), Symbol(v1), '=', '='];
    assert Encode([b0, b1]) == [Symbol(v0), Symbol(w1), Symbol(v2), '='];
    DecodeSymbolsPadded(v0, v1, 0);
    DecodeSymbolsPadded(v0, w1, v2);
    BytesOfValues(b0, 0, 0);
    BytesOfValues(b0, b1, 0);
  }

  lemma DecodeGroup(b0: Byte, b1: Byte, b2: Byte, rest: seq<Byte>)
    requires Pattern(Encode(rest))
    ensures var t := Encode([b0, b1, b2] + rest);
      Pattern(t) && Decode(t) == [b0, b1, b2] + Decode(Encode(rest))
  {
    var v0, v1, v2, v3 := First(b0), Second(b0, b1), Third(b1, b2), Fourth(b2);
    EncodeGroup(b0, b1, b2, rest);
    DecodeSymbols(v0, v1, v2, v3, Encode(rest));
    BytesOfValues(b0, b1, b2);
  }

  lemma EncodeGroup(b0: Byte, b1: Byte, b2: Byte, rest: seq<Byte>)
    ensures Encode([b0, b1, b2] + rest) ==
      [Symbol(First(b0)), Symbol(Second(b0, b1)), Symbol(Third(b1, b2)), Symbol(Fourth(b2))] + Encode(rest)
  {
    assert ([b0, b1, b2] + rest)[3..] == rest;
  }

  predicate RoundTrips(bytes: seq<Byte>) {
    Pattern(Encode(bytes)) && Decode(Encode(bytes)) == bytes
  }

  lemma ByteRoundTrips(b0: Byte)
    ensures RoundTrips([b0])
  {
    DecodeLastGroup(b0, 0);
  }

  lemma PairRoundTrips(b0: Byte, b1: Byte)
    ensures RoundTrips([b0, b1])
  {
    DecodeLastGroup(b0, b1);
  }

  lemma GroupRoundTrips(b0: Byte, b1: Byte, b2: Byte, rest: seq<Byte>)
    requires RoundTrips(rest)
    ensures RoundTrips([b0, b1, b2] + rest)
  {
    DecodeGroup(b0, b1, b2, rest);
  }

  lemma {:induction false} EachRoundTrips(bytes: seq<Byte>)
    ensures RoundTrips(bytes)
  {
    if |bytes| == 1 {
      ByteRoundTrips(bytes[0]);
      assert bytes == [bytes[0]];
    } else if |bytes| == 2 {
      PairRoundTrips(bytes[0], bytes[1]);
      assert bytes == [bytes[0], bytes[1]];
    } else if |bytes| > 2 {
      EachRoundTrips(bytes[3..]);
      GroupRoundTrips(bytes[0], bytes[1], bytes[2], bytes[3..]);
      assert bytes == [bytes[0], bytes[1], bytes[2]] + bytes[3..];
    }
  }

  lemma DecodeUndoesEncode(bytes: seq<Byte>)
    ensures Pattern(Encode(bytes)) && Decode(Encode(bytes)) == bytes
  {
    EachRoundTrips(bytes);
  }

  lemma PadBitsOfRest(t: string)
    requires Pattern(t) && |t| > 4
    ensures IsSymbol(t[2]) && IsSymbol(t[3]) && Pattern(t[4..]) && |t| >= 8
    ensures ZeroPadBits(t) == ZeroPadBits(t[4..])
  {
  }

  lemma SymbolInjective(v: nat, w: nat)
    requires v < 64 && w < 64
    ensures Symbol(v) == Symbol(w) <==> v == w
  {
    SymbolValue(v);
    SymbolValue(w);
  }

  lemma SameFour(t: string, a: char, b: char, c: char, d: char)
    requires |t| == 4
    ensures [a, b, c, d] == t <==> a == t[0] && b == t[1] && c == t[2] && d == t[3]
  {
  }

  lemma EncodeValues(v0: nat, v1: nat, v2: nat, v3: nat, rest: seq<Byte>)
    requires v0 < 64 && v1 < 64 && v2 < 64 && v3 < 64
    ensures Encode([Byte0(v0, v1), Byte1(v1, v2), Byte2(v2, v3)] + rest)
         == [Symbol(v0), Symbol(v1), Symbol(v2), Symbol(v3)] + Encode(rest)
  {
    var b0, b1, b2 := Byte0(v0, v1), Byte1(v1, v2), Byte2(v2, v3);
    ValuesOfBytes(v0, v1, v2, v3);
    EncodeGroup(b0, b1, b2, rest);
  }

  lemma EncodePaddedValues(v0: nat, v1: nat, v2: nat)
    requires v0 < 64 && v1 < 64 && v2 < 64
    ensures Encode([Byte0(v0, v1)]) == [Symbol(v0), Symbol(v1 - v1 % 16), '=', '=']
    ensures Encode([Byte0(v0, v1), Byte1(v1, v2)]) == [Symbol(v0), Symbol(v1), Symbol(v2 - v2 % 4), '=']
  {
    ValuesOfBytes(v0, v1, v2, 0);
  }

  /** A padded group, from its values on: the last symbol comes back without its pad bits. */
  lemma EncodeTwoValues(t: string, v0: nat, v1: nat)
    requires |t| == 4 && v0 < 64 && v1 < 64 && t[0] == Symbol(v0) && t[1] == Symbol(v1) && t[2] == '=' && t[3] == '='
    ensures Encode([Byte0(v0, v1)]) == t <==> v1 % 16 == 0
  {
    EncodePaddedValues(v0, v1, 0);
    SymbolInjective(v1 - v1 % 16, v1);
    SameFour(t, Symbol(v0), Symbol(v1 - v1 % 16), '=', '=');
  }

  lemma EncodeThreeValues(t: string, v0: nat, v1: nat, v2: nat)
    requires |t| == 4 && v0 < 64 && v1 < 64 && v2 < 64
    requires t[0] == Symbol(v0) && t[1] == Symbol(v1) && t[2] == Symbol(v2) && t[3] == '='
    ensures Encode([Byte0(v0, v1), Byte1(v1, v2)]) == t <==> v2 % 4 == 0
  {
    EncodePaddedValues(v0, v1, v2);
    SymbolInjective(v2 - v2 % 4, v2);
    SameFour(t, Symbol(v0), Symbol(v1), Symbol(v2 - v2 % 4), '=');
  }

  lemma EncodeTwoSymbols(t: string)
    requires Pattern(t) && |t| == 4 && t[2] == '='
    ensures Encode(Decode(t)) == t <==> Value(t[1]) % 16 == 0
  {
    EncodeTwoValues(t, Value(t[0]), Value(t[1]));
  }

  lemma EncodeThreeSymbols(t: string)
    requires Pattern(t) && |t| == 4 && t[2] != '=' && t[3] == '='
    ensures Encode(Decode(t)) == t <==> Value(t[2]) % 4 == 0
  {
    EncodeThreeValues(t, Value(t[0]), Value(t[1]), Value(t[2]));
  }

  lemma SpellGroup(t: string, v0: nat, v1: nat, v2: nat, v3: nat)
    requires |t| >= 4 && v0 < 64 && v1 < 64 && v2 < 64 && v3 < 64
    requires Symbol(v0) == t[0] && Symbol(v1) == t[1] && Symbol(v2) == t[2] && Symbol(v3) == t[3]
    ensures [Symbol(v0), Symbol(v1), Symbol(v2), Symbol(v3)] == t[..4]
  {
  }

  lemma DecodeFullGroup(t: string)
    requires Pattern(t) && |t| >= 4 && IsSymbol(t[2]) && IsSymbol(t[3])
    ensures Decode(t) == [Byte0(Value(t[0]), Value(t[1])), Byte1(Value(t[1]), Value(t[2])), Byte2(Value(t[2]), Value(t[3]))]
                         + Decode(t[4..])
  {
  }

  lemma EncodeFullGroup(t: string)
    requires Pattern(t) && |t| >= 4 && IsSymbol(t[2]) && IsSymbol(t[3])
    ensures Encode(Decode(t)) == t[..4] + Encode(Decode(t[4..]))
  {
    DecodeFullGroup(t);
    EncodeValues(Value(t[0]), Value(t[1]), Value(t[2]), Value(t[3]), Decode(t[4..]));
    SpellGroup(t, Value(t[0]), Value(t[1]), Value(t[2]), Value(t[3]));
  }

  /** Encoding undoes lenient decoding exactly on the texts whose pad bits are zero. */
  lemma {:induction false} EncodeUndoesDecode(t: string)
    requires Pattern(t)
    ensures Encode(Decode(t)) == t <==> ZeroPadBits(t)
  {
    if |t| == 4 && t[2] == '=' {
      EncodeTwoSymbols(t);
    } else if |t| == 4 && t[3] == '=' {
      EncodeThreeSymbols(t);
    } else if t != [] {
      EncodeFullGroup(t);
      EncodeUndoesDecode(t[4..]);
      if |t| > 4 { PadBitsOfRest(t); }
      assert t == t[..4] + t[4..];
      if Encode(Decode(t)) == t { assert Encode(Decode(t))[4..] == Encode(Decode(t[4..])); }
    }
  }

  // ---- The two library functions ----

  predicate Latin1(s: string) {
    forall i :: 0 <= i < |s| ==> s[i] as int < 256
  }

  function Codes(s: string): seq<Byte>
    requires Latin1(s)
  {
    seq(|s|, i requires 0 <= i < |s| => s[i] as int)
  }

  function Binary(bytes: seq<Byte>): (s: string)
    ensures Latin1(s) && Codes(s) == bytes
  {
    seq(|bytes|, i requires 0 <= i < |bytes| => bytes[i] as char)
  }

  /** `btoa` and `atob`, on strings of characters below 256. */
  function Btoa(binary: string): string
    requires Latin1(binary)
  {
    Encode(Codes(binary))
  }

  function Atob(text: string): string
    requires Pattern(text)
  {
    Binary(Decode(text))
  }

  /** What is accepted: non-empty, of the pattern, and with zero pad bits. */
  predicate Canonical(t: string) {
    t != [] && Pattern(t) && ZeroPadBits(t)
  }

  lemma {:induction false} PatternLength(t: string)
    requires Pattern(t)
    ensures |t| % 4 == 0
    decreases |t|
  {
    if |t| > 4 { PatternLength(t[4..]); }
  }

  method EncodeBase64(bytes: array<Byte>) returns (text: string)
    ensures text == Encode(bytes[..])
  {
    var binary := "";
    for i := 0 to bytes.Length
      invariant binary == Binary(bytes[..i])
    {
      binary := binary + [bytes[i] as char];
    }
    text := Btoa(binary);
    assert bytes[..] == bytes[..bytes.Length];
  }

  /** Refuses everything that is not the encoding of its bytes. */
  method DecodeBase64(value: string) returns (result: Option<array<Byte>>)
    ensures result.Some? <==> Canonical(value)
    ensures result.Some? ==> fresh(result.value) && Encode(result.value[..]) == value
  {
    if value == "" || |value| % 4 != 0 || !Pattern(value) {
      if Pattern(value) { PatternLength(value); }
      return None;
    }
    var binary := Atob(value);
    var bytes := new Byte[|binary|];
    for index := 0 to |binary|
      invariant bytes[..index] == Codes(binary)[..index]
    {
      bytes[index] := binary[index] as int;
    }
    assert bytes[..] == bytes[..|binary|] == Decode(value);
    var again := EncodeBase64(bytes);
    EncodeUndoesDecode(value);
    if again != value {
      return None;
    }
    return Some(bytes);
  }

  /** Canonical text and non-empty byte strings are in bijection: each canonical text is the encoding of exactly one
      non-empty byte string, and each non-empty byte string encodes to canonical text. */
  lemma CanonicalTextIsEncoding(t: string)
    ensures Canonical(t) <==> exists bytes: seq<Byte> :: bytes != [] && Encode(bytes) == t
    ensures Canonical(t) ==> Decode(t) != [] && Encode(Decode(t)) == t
  {
    if Canonical(t) {
      EncodeUndoesDecode(t);
      assert Decode(t) != [];
    }
    forall bytes: seq<Byte> | bytes != [] && Encode(bytes) == t ensures Canonical(t) {
      DecodeUndoesEncode(bytes);
      EncodeUndoesDecode(t);
    }
  }

  /** Text with non-zero pad bits is refused, whatever it decodes to. */
  lemma NonZeroPadBitsAreRefused(t: string)
    requires t != [] && Pattern(t) && !ZeroPadBits(t)
    ensures !Canonical(t) && Encode(Decode(t)) != t
  {
    EncodeUndoesDecode(t);
  }
}
