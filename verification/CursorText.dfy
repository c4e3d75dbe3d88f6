/** The text of a pull cursor: base64url (section 5 of RFC 4648) of a small JSON object. */
module CursorText {
  import opened Wrappers
  import opened Text
  import opened Json
  import opened JsonArray
  import opened Base64

  // ---- base64url without padding ----

  function UrlChar(c: char): char {
    if c == '+' then '-' else if c == '/' then '_' else c
  }

  function PlainChar(c: char): char {
    if c == '-' then '+' else if c == '_' then '/' else c
  }

  function Translate(t: string, f: char -> char): (r: string)
    ensures |r| == |t| && forall i :: 0 <= i < |t| ==> r[i] == f(t[i])
  {
    seq(|t|, i requires 0 <= i < |t| => f(t[i]))
  }

  /** Drops the padding. */
  function Strip(t: string): string {
    if t != [] && t[|t| - 1] == '=' then Strip(t[..|t| - 1]) else t
  }

  function Pad(t: string): string {
    if |t| % 4 == 2 then t + "==" else if |t| % 4 == 3 then t + "=" else t
  }

  function EncodeUrl(bytes: seq<Byte>): string {
    Translate(Strip(Encode(bytes)), UrlChar)
  }

  /** The bytes of an unpadded base64url text; None for other texts. */
  function DecodeUrl(t: string): Option<seq<Byte>> {
    if forall i :: 0 <= i < |t| ==> t[i] !in {'+', '/', '='} && IsSymbol(PlainChar(t[i]))
    then
      var padded := Pad(Translate(t, PlainChar));
      if Pattern(padded) then Some(Decode(padded)) else None
    else None
  }

  lemma {:induction false} PaddingIsLast(t: string)
    requires Pattern(t) && t != []
    ensures |t| % 4 == 0 && forall i :: 0 <= i < |t| - 2 ==> IsSymbol(t[i])
    ensures t[|t| - 2] == '=' ==> t[|t| - 1] == '='
    ensures IsSymbol(t[|t| - 2]) || t[|t| - 2] == '='
    ensures IsSymbol(t[|t| - 1]) || t[|t| - 1] == '='
    decreases |t|
  {
    if |t| > 4 {
      PaddingIsLast(t[4..]);
      assert forall i :: 4 <= i < |t| ==> t[i] == t[4..][i - 4];
      forall i | 0 <= i < |t| - 2 ensures IsSymbol(t[i]) {
        if i >= 4 { assert IsSymbol(t[4..][i - 4]); }
      }
    }
  }

  lemma StripOne(t: string)
    requires |t| >= 2 && t[|t| - 1] == '=' && t[|t| - 2] != '='
    ensures Strip(t) == t[..|t| - 1] && t == Strip(t) + "="
  {
    assert t[..|t| - 1][|t| - 2] == t[|t| - 2];
  }

  lemma StripTwo(t: string)
    requires |t| >= 3 && t[|t| - 1] == '=' && t[|t| - 2] == '=' && t[|t| - 3] != '='
    ensures Strip(t) == t[..|t| - 2] && t == Strip(t) + "=="
  {
    var u := t[..|t| - 1];
    StripOne(u);
    assert u[..|u| - 1] == t[..|t| - 2];
  }

  predicate Symbols(t: string) {
    forall i :: 0 <= i < |t| ==> IsSymbol(t[i])
  }

  lemma PadUndoesStripTwo(t: string)
    requires |t| >= 4 && |t| % 4 == 0 && t[|t| - 2] == '=' && t[|t| - 1] == '=' && Symbols(t[..|t| - 2])
    ensures Pad(Strip(t)) == t && Symbols(Strip(t))
  {
    assert IsSymbol(t[..|t| - 2][|t| - 3]);
    StripTwo(t);
  }

  lemma PadUndoesStripOne(t: string)
    requires |t| >= 4 && |t| % 4 == 0 && t[|t| - 1] == '=' && Symbols(t[..|t| - 1])
    ensures Pad(Strip(t)) == t && Symbols(Strip(t))
  {
    assert IsSymbol(t[..|t| - 1][|t| - 2]);
    StripOne(t);
  }

  lemma PadUndoesStrip(t: string)
    requires Pattern(t)
    ensures Pad(Strip(t)) == t && Symbols(Strip(t))
  {
    if t != [] {
      PaddingIsLast(t);
      if t[|t| - 2] == '=' {
        PadUndoesStripTwo(t);
      } else if t[|t| - 1] == '=' {
        PadUndoesStripOne(t);
      }
    }
  }

  lemma DecodeUrlUndoesEncodeUrl(bytes: seq<Byte>)
    ensures DecodeUrl(EncodeUrl(bytes)) == Some(bytes)
  {
    DecodeUndoesEncode(bytes);
    var stripped := Strip(Encode(bytes));
    PadUndoesStrip(Encode(bytes));
    forall i | 0 <= i < |stripped|
      ensures PlainChar(UrlChar(stripped[i])) == stripped[i] && UrlChar(stripped[i]) !in {'+', '/', '='}
    {
      assert IsSymbol(stripped[i]);
    }
    assert Translate(EncodeUrl(bytes), PlainChar) == stripped;
  }

  // ---- Cursors ----

  predicate Ascii(s: string) {
    forall i :: 0 <= i < |s| ==> s[i] as int < 128
  }

  function CursorMembers(workspaceId: string, sequence: nat): seq<Member> {
    [Member("sequence", Str(Decimal(sequence))), Member("version", Num(1)), Member("workspaceId", Str(workspaceId))]
  }

  /** ASCII text as its UTF-8 bytes, and back. */
  function Bytes(s: string): (b: seq<Byte>)
    requires Ascii(s)
    ensures |b| == |s| && forall i :: 0 <= i < |s| ==> b[i] == s[i] as int
  {
    seq(|s|, i requires 0 <= i < |s| => s[i] as int)
  }

  function FromBytes(b: seq<Byte>): Option<string> {
    if forall i :: 0 <= i < |b| ==> b[i] < 128 then Some(seq(|b|, i requires 0 <= i < |b| => b[i] as char)) else None
  }

  /** The value of a name in a parsed object: the last one wins. */
  function Lookup(members: seq<Member>, name: string): Option<Field> {
    if members == [] then None
    else if members[|members| - 1].name == name then Some(members[|members| - 1].value)
    else Lookup(members[..|members| - 1], name)
  }

  /** Exactly the three names, in any order. */
  predicate CursorShape(members: seq<Member>) {
    (set m | m in members :: m.name) == {"sequence", "version", "workspaceId"}
  }

  /** The checks and the number of `sequenceFromCursor` on a parsed object. */
  function SequenceOf(workspaceId: string, members: seq<Member>): Option<nat> {
    if !CursorShape(members) then None
    else if Lookup(members, "version") != Some(Num(1)) || Lookup(members, "workspaceId") != Some(Str(workspaceId)) then None
    else
      match Lookup(members, "sequence")
      case Some(Str(digits)) => ParseNatural(digits)
      case _ => None
  }

  /** `cursorFor` */
  function CursorFor(workspaceId: string, sequence: nat): string
    requires Ascii(workspaceId)
  {
    CursorIsAscii(workspaceId, sequence);
    EncodeUrl(Bytes(PrintObject(CursorMembers(workspaceId, sequence))))
  }

  /** `sequenceFromCursor`; None where it throws. */
  function SequenceFromCursor(workspaceId: string, cursor: Option<string>): Option<nat> {
    if cursor.None? then Some(0)
    else
      match DecodeUrl(cursor.value)
      case None => None
      case Some(bytes) =>
        match FromBytes(bytes)
        case None => None
        case Some(text) =>
          match ReadObject(text)
          case None => None
          case Some(members) => SequenceOf(workspaceId, members)
  }

  lemma {:induction false} EscapeIsAscii(s: string)
    requires Ascii(s)
    ensures Ascii(Escape(s))
  {
    if s != [] {
      assert Ascii(s[1..]);
      EscapeIsAscii(s[1..]);
      assert Ascii(EscapeChar(s[0]));
    }
  }

  lemma {:induction false} DecimalIsAscii(n: nat)
    ensures Ascii(Decimal(n))
  {
    DecimalRoundTrip(n);
  }

  lemma AsciiConcat(a: string, b: string)
    requires Ascii(a) && Ascii(b)
    ensures Ascii(a + b)
  {
  }

  lemma QuoteIsAscii(s: string)
    requires Ascii(s)
    ensures Ascii(Quote(s))
  {
    EscapeIsAscii(s);
  }

  lemma PrintMembersIsAscii(members: seq<Member>)
    requires members != [] && forall m :: m in members ==> Ascii(m.name) && Ascii(PrintField(m.value))
    ensures Ascii(PrintMembers(members))
    decreases |members|
  {
    QuoteIsAscii(members[0].name);
    if |members| > 1 { PrintMembersIsAscii(members[1..]); }
  }

  lemma MemberIsAscii(m: Member)
    requires Ascii(m.name) && (m.value.Str? ==> Ascii(m.value.text))
    ensures Ascii(m.name) && Ascii(PrintField(m.value))
  {
    match m.value
    case Str(s) => QuoteIsAscii(s);
    case Num(n) => DecimalIsAscii(n);
    case Null =>
  }

  lemma CursorMembersAreAscii(workspaceId: string, sequence: nat)
    requires Ascii(workspaceId)
    ensures forall m :: m in CursorMembers(workspaceId, sequence) ==> Ascii(m.name) && Ascii(PrintField(m.value))
  {
    DecimalIsAscii(sequence);
    var ms := CursorMembers(workspaceId, sequence);
    MemberIsAscii(ms[0]);
    MemberIsAscii(ms[1]);
    MemberIsAscii(ms[2]);
  }

  lemma CursorIsAscii(workspaceId: string, sequence: nat)
    requires Ascii(workspaceId)
    ensures Ascii(PrintObject(CursorMembers(workspaceId, sequence)))
  {
    CursorMembersAreAscii(workspaceId, sequence);
    PrintMembersIsAscii(CursorMembers(workspaceId, sequence));
    AsciiConcat("{", PrintMembers(CursorMembers(workspaceId, sequence)));
  }

  lemma TextSurvives(text: string)
    requires Ascii(text)
    ensures DecodeUrl(EncodeUrl(Bytes(text))) == Some(Bytes(text)) && FromBytes(Bytes(text)) == Some(text)
  {
    DecodeUrlUndoesEncodeUrl(Bytes(text));
    assert FromBytes(Bytes(text)).value == text;
  }

  lemma OwnMembers(workspaceId: string, sequence: nat, reader: string)
    ensures SequenceOf(reader, CursorMembers(workspaceId, sequence)) == if reader == workspaceId then Some(sequence) else None
  {
    var ms := CursorMembers(workspaceId, sequence);
    assert ms[..2][..1] == [ms[0]] && ms[..2] == [ms[0], ms[1]];
    assert ms[0] in ms && ms[1] in ms && ms[2] in ms;
    DecimalRoundTrip(sequence);
    assert Lookup(ms, "workspaceId") == Some(Str(workspaceId));
    assert Lookup(ms, "version") == Lookup(ms[..2], "version") == Some(Num(1));
    assert Lookup(ms, "sequence") == Lookup(ms[..2], "sequence") == Lookup([ms[0]], "sequence");
    assert (set m | m in ms :: m.name) == {"sequence", "version", "workspaceId"};
  }

  /** A cursor decodes to the sequence it was made from for its own workspace, and to nothing for any other. */
  lemma CursorRoundTrip(workspaceId: string, sequence: nat, reader: string)
    requires Ascii(workspaceId)
    ensures SequenceFromCursor(reader, Some(CursorFor(workspaceId, sequence))) ==
      if reader == workspaceId then Some(sequence) else None
  {
    var members := CursorMembers(workspaceId, sequence);
    CursorIsAscii(workspaceId, sequence);
    TextSurvives(PrintObject(members));
    ReadPrintedObject(members);
    OwnMembers(workspaceId, sequence, reader);
  }

  /** What a cursor must hold to be read, beyond being base64url of an ASCII object: exactly the three names, version 1, the
      reader's own workspace and the digits of the sequence; no cursor at all means the start. */
  lemma CursorReadsExactly(reader: string, cursor: string, members: seq<Member>, n: nat)
    requires DecodeUrl(cursor).Some? && FromBytes(DecodeUrl(cursor).value).Some?
    requires ReadObject(FromBytes(DecodeUrl(cursor).value).value) == Some(members)
    ensures SequenceFromCursor(reader, None) == Some(0)
    ensures SequenceFromCursor(reader, Some(cursor)) == Some(n) <==>
      && (forall m :: m in members ==> m.name in {"sequence", "version", "workspaceId"})
      && Lookup(members, "version") == Some(Num(1)) && Lookup(members, "workspaceId") == Some(Str(reader))
      && exists digits :: Lookup(members, "sequence") == Some(Str(digits)) && CanonicalNatural(digits) && DigitsValue(digits) == n
  {
    ShapeExactly(members);
    SequenceExactly(reader, members, n);
  }

  lemma SequenceExactly(reader: string, members: seq<Member>, n: nat)
    ensures SequenceOf(reader, members) == Some(n) <==>
      && CursorShape(members)
      && Lookup(members, "version") == Some(Num(1)) && Lookup(members, "workspaceId") == Some(Str(reader))
      && exists digits :: Lookup(members, "sequence") == Some(Str(digits)) && CanonicalNatural(digits) && DigitsValue(digits) == n
  {
  }

  /** The names of an object are the three exactly if there is no other and each is there. */
  lemma ShapeExactly(members: seq<Member>)
    ensures CursorShape(members) <==>
      && (forall m :: m in members ==> m.name in {"sequence", "version", "workspaceId"})
      && Lookup(members, "sequence").Some? && Lookup(members, "version").Some? && Lookup(members, "workspaceId").Some?
  {
    LookupIsThere(members, "sequence");
    LookupIsThere(members, "version");
    LookupIsThere(members, "workspaceId");
    SameNames(set m | m in members :: m.name, {"sequence", "version", "workspaceId"}, members);
  }

  lemma SameNames(names: set<string>, three: set<string>, members: seq<Member>)
    requires names == set m | m in members :: m.name
    ensures names == three <==> (forall m :: m in members ==> m.name in three) && forall name :: name in three ==> exists m :: m in members && m.name == name
  {
  }

  lemma {:induction false} LookupIsThere(members: seq<Member>, name: string)
    ensures Lookup(members, name).Some? <==> exists m :: m in members && m.name == name
    decreases |members|
  {
    if members != [] && members[|members| - 1].name != name {
      LookupIsThere(members[..|members| - 1], name);
    } else if members != [] {
      assert members[|members| - 1] in members;
    }
  }
}
