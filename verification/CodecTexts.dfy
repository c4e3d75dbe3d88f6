/** What the codecs write, spelt out: the alphabet and the bits of base64, the escapes of JSON strings, and the texts of
    documents, additional data, cursors and verification codes. */
module CodecTexts {
  import opened Wrappers
  import opened Text
  import opened Json
  import opened JsonArray
  import opened Base64
  import CursorText
  import CanonicalBytes
  import Envelopes
  import SafetyNumber

  // ---- Base64: table 1 of RFC 4648, and its section 4 ----

  const UPPER: string := "ABCDEFGHIJKLMNOPQRSTUVWXYZ"
  const LOWER: string := "abcdefghijklmnopqrstuvwxyz"
  const TEN: string := "0123456789"
  const ALPHABET: string := UPPER + LOWER + TEN + "+/"

  lemma LettersInOrder(v: nat)
    requires v < 26
    ensures UPPER[v] as int == 65 + v && LOWER[v] as int == 97 + v
  {
  }

  lemma DigitsInOrder(v: nat)
    requires v < 10
    ensures TEN[v] as int == 48 + v
  {
  }

  lemma AlphabetAt(upper: string, lower: string, ten: string, rest: string, v: nat)
    requires |upper| == 26 && |lower| == 26 && |ten| == 10 && |rest| == 2 && v < 64
    ensures var all := upper + lower + ten + rest;
      |all| == 64
      && all[v] == if v < 26 then upper[v] else if v < 52 then lower[v - 26] else if v < 62 then ten[v - 52] else rest[v - 62]
  {
  }

  lemma SymbolsAreTheAlphabet(v: nat)
    requires v < 64
    ensures |ALPHABET| == 64 && Symbol(v) == ALPHABET[v]
  {
    AlphabetAt(UPPER, LOWER, TEN, "+/", v);
    if v < 52 { LettersInOrder(v % 26); } else if v < 62 { DigitsInOrder(v - 52); }
  }

  /** A group's 24 bits are the same number in bytes and in symbols, first ones highest. */
  lemma GroupsKeepTheirBits(b0: Byte, b1: Byte, b2: Byte, rest: seq<Byte>) returns (v0: nat, v1: nat, v2: nat, v3: nat)
    ensures v0 < 64 && v1 < 64 && v2 < 64 && v3 < 64
    ensures b0 * 65536 + b1 * 256 + b2 == v0 * 262144 + v1 * 4096 + v2 * 64 + v3
    ensures Encode([b0, b1, b2] + rest) == [ALPHABET[v0], ALPHABET[v1], ALPHABET[v2], ALPHABET[v3]] + Encode(rest)
  {
    v0, v1, v2, v3 := First(b0), Second(b0, b1), Third(b1, b2), Fourth(b2);
    EncodeGroup(b0, b1, b2, rest);
    SymbolsAreTheAlphabet(v0);
    SymbolsAreTheAlphabet(v1);
    SymbolsAreTheAlphabet(v2);
    SymbolsAreTheAlphabet(v3);
  }

  /** One byte left over gives twelve bits and two pads, two give eighteen and one. */
  lemma TailsKeepTheirBits(b0: Byte, b1: Byte) returns (v0: nat, v1: nat, w1: nat, w2: nat)
    ensures v0 < 64 && v1 < 64 && w1 < 64 && w2 < 64
    ensures b0 * 16 == v0 * 64 + v1 && Encode([b0]) == [ALPHABET[v0], ALPHABET[v1], '=', '=']
    ensures (b0 * 256 + b1) * 4 == v0 * 4096 + w1 * 64 + w2 && Encode([b0, b1]) == [ALPHABET[v0], ALPHABET[w1], ALPHABET[w2], '=']
  {
    v0, v1, w1, w2 := First(b0), Second(b0, 0), Second(b0, b1), Third(b1, 0);
    SymbolsAreTheAlphabet(v0);
    SymbolsAreTheAlphabet(v1);
    SymbolsAreTheAlphabet(w1);
    SymbolsAreTheAlphabet(w2);
    assert [b0, b1][0] == b0;
  }

  // ---- JSON strings: section 7 of RFC 8259, as `JSON.stringify` chooses ----

  const SHORT: map<char, char> :=
    map['"' := '"', '\\' := '\\', 8 as char := 'b', 9 as char := 't', 10 as char := 'n', 12 as char := 'f', 13 as char := 'r']

  /** Quotes, backslashes and five controls have short escapes, the other controls four hexadecimal digits, and everything
      else stands for itself. */
  lemma EscapesAre(c: char)
    ensures EscapeChar(c) ==
      if c in SHORT then ['\\', SHORT[c]]
      else if c as int < 32 then "\\u00" + ["01"[c as int / 16], "0123456789abcdef"[c as int % 16]]
      else [c]
  {
  }

  predicate Verbatim(s: string) {
    forall i :: 0 <= i < |s| ==> s[i] != '"' && s[i] != '\\' && s[i] as int >= 32
  }

  lemma {:induction false} VerbatimEscapes(s: string)
    requires Verbatim(s)
    ensures Escape(s) == s
  {
    if s != "" {
      VerbatimEscapes(s[1..]);
      assert s == [s[0]] + s[1..];
    }
  }

  lemma VerbatimQuotes(s: string)
    requires Verbatim(s)
    ensures Quote(s) == "\"" + s + "\""
  {
    VerbatimEscapes(s);
  }

  // ---- Decimal ----

  /** The last digit is the remainder by ten, and what is before it the quotient, if there is one. */
  lemma DecimalDigits(n: nat, d: nat)
    requires d < 10
    ensures Decimal(10 * n + d) == (if n == 0 then [] else Decimal(n)) + ["0123456789"[d]]
  {
  }

  // ---- Documents and additional data ----

  /** A document's object: the body first. */
  lemma DocumentText(d: Envelopes.Document)
    ensures Envelopes.PrintDocument(d) == "{\"body\":" + Quote(d.body) + ",\"title\":" + Quote(d.title) + "}"
  {
  }

  /** The parts with a comma between two. */
  function Joined(parts: seq<string>): string {
    if parts == [] then "" else if |parts| == 1 then parts[0] else parts[0] + "," + Joined(parts[1..])
  }

  function Printed(fields: seq<Field>): (parts: seq<string>)
    ensures |parts| == |fields| && forall k :: 0 <= k < |fields| ==> parts[k] == PrintField(fields[k])
  {
    seq(|fields|, k requires 0 <= k < |fields| => PrintField(fields[k]))
  }

  lemma {:induction false} ItemsAreJoined(fields: seq<Field>)
    requires fields != []
    ensures PrintItems(fields) == Joined(Printed(fields)) + "]"
    decreases |fields|
  {
    var parts := Printed(fields);
    if |fields| > 1 {
      ItemsAreJoined(fields[1..]);
      assert parts[1..] == Printed(fields[1..]);
      assert PrintItems(fields) == parts[0] + ("," + PrintItems(fields[1..]));
      assert parts[0] + ("," + (Joined(parts[1..]) + "]")) == parts[0] + "," + Joined(parts[1..]) + "]";
    }
  }

  /** An array is its fields in brackets, with commas between them. */
  lemma ArrayText(fields: seq<Field>, parts: seq<string>)
    requires fields != [] && |parts| == |fields| && forall k :: 0 <= k < |fields| ==> parts[k] == PrintField(fields[k])
    ensures PrintArray(fields) == "[" + Joined(parts) + "]"
  {
    ItemsAreJoined(fields);
    assert parts == Printed(fields);
  }

  predicate UuidsOf(c: CanonicalBytes.NoteContext) {
    CanonicalBytes.IsUuid(c.workspaceId, '8') && CanonicalBytes.IsUuid(c.noteId, '8')
  }

  /** A version 2 note's data: the tag, the versions and the algorithm, and the three fields, if the ids are UUIDs and the
      revision is a positive safe integer; a version 1 note's says nothing about the note; no other version has any. */
  lemma NoteDataText(version: nat, c: Option<CanonicalBytes.NoteContext>)
    ensures CanonicalBytes.NoteAdditionalData(version, c) ==
      if version == 1 then Some("cipherspace.note|1|AES-GCM|1")
      else if version == 2 && c.Some? && UuidsOf(c.value) && 1 <= c.value.localRevision <= 9007199254740991
      then Some(PrintArray([Str("cipherspace.note"), Num(2), Str("AES-GCM"), Num(1), Str(c.value.workspaceId), Str(c.value.noteId),
                            Num(c.value.localRevision)]))
      else None
  {
  }

  predicate UuidsOfComment(c: CanonicalBytes.CommentContext) {
    && CanonicalBytes.IsUuid(c.workspaceId, '8') && CanonicalBytes.IsUuid(c.noteId, '8')
    && CanonicalBytes.IsUuid(c.commentId, '8') && CanonicalBytes.IsUuid(c.authorId, '8')
    && (c.parentCommentId == None || CanonicalBytes.IsUuid(c.parentCommentId.value, '8'))
  }

  lemma CommentFieldsAre(c: CanonicalBytes.CommentContext, fields: seq<Field>)
    requires fields == [Str("cipherspace.comment"), Num(2), Str("AES-GCM"), Num(1), Str(c.workspaceId), Str(c.noteId), Str(c.commentId),
                        Str(c.authorId), if c.parentCommentId == None then Null else Str(c.parentCommentId.value)]
    ensures fields == CanonicalBytes.CommentFields(c)
  {
  }

  /** A comment's data, likewise, of five fields; a comment without a parent has a null for it. */
  lemma CommentDataText(version: nat, c: Option<CanonicalBytes.CommentContext>, fields: seq<Field>)
    requires c.Some? ==>
      fields == [Str("cipherspace.comment"), Num(2), Str("AES-GCM"), Num(1), Str(c.value.workspaceId), Str(c.value.noteId), Str(c.value.commentId),
                 Str(c.value.authorId), if c.value.parentCommentId == None then Null else Str(c.value.parentCommentId.value)]
    ensures version == 1 ==> CanonicalBytes.CommentAdditionalData(version, c) == Some("cipherspace.comment|1|AES-GCM|1")
    ensures version != 1 && !(version == 2 && c.Some? && UuidsOfComment(c.value)) ==> CanonicalBytes.CommentAdditionalData(version, c) == None
    ensures version == 2 && c.Some? && UuidsOfComment(c.value) ==>
      fields != [] && CanonicalBytes.CommentAdditionalData(version, c) == Some(PrintArray(fields))
  {
    if c.Some? { CommentFieldsAre(c.value, fields); }
  }

  predicate Hex(s: string, length: nat) {
    |s| == length && forall i :: 0 <= i < |s| ==> s[i] in "0123456789abcdef"
  }

  /** Five groups of 8, 4, 4, 4 and 12 lower-case digits with dashes between them; the third starts with the version, from
      1 to 8 for data and to 5 elsewhere, and the fourth with the variant. */
  lemma UuidIsExactly(s: string, top: char) returns (a: string, b: string, c: string, d: string, e: string)
    ensures |s| != 36 ==> !CanonicalBytes.IsUuid(s, top)
    ensures |s| == 36 ==>
      && a == s[..8] && b == s[9..13] && c == s[14..18] && d == s[19..23] && e == s[24..]
      && (CanonicalBytes.IsUuid(s, top) <==>
      && s == a + "-" + b + "-" + c + "-" + d + "-" + e
      && Hex(a, 8) && Hex(b, 4) && Hex(c, 4) && Hex(d, 4) && Hex(e, 12)
      && '1' <= c[0] <= top && d[0] in "89ab")
  {
    a, b, c, d, e := "", "", "", "", "";
    if |s| != 36 { return; }
    a, b, c, d, e := s[..8], s[9..13], s[14..18], s[19..23], s[24..];
    forall x: char ensures CanonicalBytes.IsHex(x) <==> x in "0123456789abcdef" { HexDigits(x); }
    var t := a + "-" + b + "-" + c + "-" + d + "-" + e;
    assert forall i :: 0 <= i < 36 && i !in {8, 13, 18, 23} ==> t[i] == s[i];
    assert t[8] == '-' && t[13] == '-' && t[18] == '-' && t[23] == '-';
  }

  lemma HexDigits(x: char)
    ensures CanonicalBytes.IsHex(x) <==> x in "0123456789abcdef"
  {
  }

  // ---- Cursors and verification codes ----

  function PrintedMembers(members: seq<Member>): (parts: seq<string>)
    ensures |parts| == |members| && forall k :: 0 <= k < |members| ==> parts[k] == Quote(members[k].name) + (":" + PrintField(members[k].value))
  {
    seq(|members|, k requires 0 <= k < |members| => Quote(members[k].name) + (":" + PrintField(members[k].value)))
  }

  lemma Rejoin(a: string, b: string, close: string)
    ensures a + ("," + (b + close)) == a + "," + b + close
  {
  }

  /** An object is its members in braces, with commas between them. */
  lemma {:induction false} ObjectText(members: seq<Member>, parts: seq<string>)
    requires members != [] && parts == PrintedMembers(members)
    ensures PrintMembers(members) == Joined(parts) + "}"
    decreases |members|
  {
    if |members| > 1 {
      var rest := PrintedMembers(members[1..]);
      ObjectText(members[1..], rest);
      assert parts[1..] == rest;
      Rejoin(parts[0], Joined(rest), "}");
      assert PrintMembers(members) == parts[0] + ("," + PrintMembers(members[1..]));
    }
  }

  /** A cursor's object, under its base64url text: the sequence as a string, version 1, and the workspace. */
  lemma CursorObjectText(workspaceId: string, sequence: nat, members: seq<Member>)
    requires CursorText.Ascii(workspaceId)
    requires members == [Member("sequence", Str(Decimal(sequence))), Member("version", Num(1)), Member("workspaceId", Str(workspaceId))]
    ensures var decoded := CursorText.DecodeUrl(CursorText.CursorFor(workspaceId, sequence));
      decoded.Some? && CursorText.FromBytes(decoded.value) == Some(PrintObject(members))
  {
    CursorText.CursorIsAscii(workspaceId, sequence);
    CursorText.TextSurvives(PrintObject(CursorText.CursorMembers(workspaceId, sequence)));
  }

  lemma CodeFieldsAre(i: SafetyNumber.Identity, fields: seq<Field>)
    requires fields == [Str("cipherspace.identity-verification"), Num(1), Str(i.userId), Str(i.signingFingerprint), Num(i.bundleSequence),
                        Str(i.bundleHash), Str(i.encryptionFingerprint), Num(i.encryptionVersion)]
    ensures fields == SafetyNumber.CodeFields(i)
  {
  }

  /** A verification code: its prefix, and in base64url the array of the tag, version 1 and the six fields. */
  lemma VerificationCodeText(i: SafetyNumber.Identity, fields: seq<Field>)
    requires SafetyNumber.AsciiIdentity(i)
    requires fields == [Str("cipherspace.identity-verification"), Num(1), Str(i.userId), Str(i.signingFingerprint), Num(i.bundleSequence),
                        Str(i.bundleHash), Str(i.encryptionFingerprint), Num(i.encryptionVersion)]
    ensures var code := SafetyNumber.VerificationCode(i);
      && |code| >= 19 && code[..19] == "cipherspace-verify:"
      && var decoded := CursorText.DecodeUrl(code[19..]);
      decoded.Some? && CursorText.FromBytes(decoded.value) == Some(PrintArray(fields))
  {
    CodeFieldsAre(i, fields);
    SafetyNumber.CodeIsAscii(i);
    CodeDecodes(i, PrintArray(SafetyNumber.CodeFields(i)));
  }

  lemma CodeDecodes(i: SafetyNumber.Identity, text: string)
    requires SafetyNumber.AsciiIdentity(i) && text == PrintArray(SafetyNumber.CodeFields(i)) && CursorText.Ascii(text)
    ensures var code := SafetyNumber.VerificationCode(i);
      && |code| >= 19 && code[..19] == "cipherspace-verify:"
      && var decoded := CursorText.DecodeUrl(code[19..]);
      decoded.Some? && CursorText.FromBytes(decoded.value) == Some(text)
  {
    CursorText.TextSurvives(text);
    var code := SafetyNumber.VerificationCode(i);
    assert code[19..] == CursorText.EncodeUrl(CursorText.Bytes(text));
  }
}
