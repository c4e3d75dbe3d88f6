/** Flat JSON arrays and objects of strings, natural numbers and nulls, as `JSON.stringify` prints them without
    white space, with readers that undo the printing. */
module JsonArray {
  import opened Wrappers
  import opened Text
  import opened Json

  datatype Field = Str(text: string) | Num(value: nat) | Null

  function PrintField(f: Field): string {
    match f
    case Str(s) => Quote(s)
    case Num(n) => Decimal(n)
    case Null => "null"
  }

  /** The leading digits of a text. */
  function Digits(t: string): (d: string)
    ensures AllDigits(d) && d <= t
  {
    if t == [] || !IsDigit(t[0]) then []
    else
      assert forall i :: 1 <= i < |[t[0]] + Digits(t[1..])| ==> ([t[0]] + Digits(t[1..]))[i] == Digits(t[1..])[i - 1];
      [t[0]] + Digits(t[1..])
  }

  /** A value, with the text after it. */
  function ReadField(t: string): (r: Option<(Field, string)>)
    ensures r.Some? ==> |r.value.1| < |t|
  {
    if t == [] then None
    else if t[0] == '"' then
      (match ReadString(t)
       case None => None
       case Some((s, rest)) => Some((Str(s), rest)))
    else if IsDigit(t[0]) then
      (match ParseNatural(Digits(t))
       case None => None
       case Some(n) => Some((Num(n), t[|Digits(t)|..])))
    else if "null" <= t then Some((Null, t[4..]))
    else None
  }

  /** What may follow a value. */
  predicate Delimited(rest: string) {
    rest != [] && !IsDigit(rest[0])
  }

  lemma {:induction false} DigitsOf(d: string, rest: string)
    requires AllDigits(d) && Delimited(rest)
    ensures Digits(d + rest) == d
  {
    if d == [] {
      assert d + rest == rest;
    } else {
      assert (d + rest)[1..] == d[1..] + rest;
      DigitsOf(d[1..], rest);
      assert d == [d[0]] + d[1..];
    }
  }

  lemma ReadPrintedField(f: Field, rest: string)
    requires Delimited(rest)
    ensures ReadField(PrintField(f) + rest) == Some((f, rest))
  {
    var t := PrintField(f) + rest;
    match f
    case Str(s) => ReadQuoted(s, rest);
    case Num(n) =>
      DecimalRoundTrip(n);
      DigitsOf(Decimal(n), rest);
      assert t[|Decimal(n)|..] == rest;
    case Null =>
      assert t[4..] == rest;
  }

  // ---- Arrays ----

  /** The items of a non-empty array and its closing bracket. */
  function PrintItems(fields: seq<Field>): string
    requires fields != []
  {
    PrintField(fields[0]) + if |fields| == 1 then "]" else "," + PrintItems(fields[1..])
  }

  function PrintArray(fields: seq<Field>): string
    requires fields != []
  {
    "[" + PrintItems(fields)
  }

  function ReadItems(t: string): Option<seq<Field>>
    decreases |t|
  {
    match ReadField(t)
    case None => None
    case Some((f, rest)) =>
      if rest == "]" then Some([f])
      else if rest == [] || rest[0] != ',' then None
      else
        match ReadItems(rest[1..])
        case None => None
        case Some(fs) => Some([f] + fs)
  }

  function ReadArray(t: string): Option<seq<Field>> {
    if t != [] && t[0] == '[' then ReadItems(t[1..]) else None
  }

  predicate ItemsRead(fields: seq<Field>)
    requires fields != []
  {
    ReadItems(PrintItems(fields)) == Some(fields)
  }

  lemma LastItemReads(f: Field)
    ensures ItemsRead([f])
  {
    ReadPrintedField(f, "]");
    assert PrintItems([f]) == PrintField(f) + "]";
  }

  lemma NextItemReads(f: Field, others: seq<Field>)
    requires others != [] && ItemsRead(others)
    ensures ItemsRead([f] + others)
  {
    var rest := "," + PrintItems(others);
    ReadPrintedField(f, rest);
    assert rest[1..] == PrintItems(others);
    assert ([f] + others)[1..] == others;
    assert PrintItems([f] + others) == PrintField(f) + rest;
  }

  lemma {:induction false} ReadPrintedItems(fields: seq<Field>)
    requires fields != []
    ensures ItemsRead(fields)
    decreases |fields|
  {
    if |fields| == 1 {
      LastItemReads(fields[0]);
      assert fields == [fields[0]];
    } else {
      ReadPrintedItems(fields[1..]);
      NextItemReads(fields[0], fields[1..]);
      assert fields == [fields[0]] + fields[1..];
    }
  }

  /** Reading undoes printing, so a printed array determines its fields. */
  lemma ReadPrintedArray(fields: seq<Field>)
    requires fields != []
    ensures ReadArray(PrintArray(fields)) == Some(fields)
  {
    assert PrintArray(fields)[1..] == PrintItems(fields);
    ReadPrintedItems(fields);
  }

  lemma PrintArrayInjective(a: seq<Field>, b: seq<Field>)
    requires a != [] && b != [] && PrintArray(a) == PrintArray(b)
    ensures a == b
  {
    ReadPrintedArray(a);
    ReadPrintedArray(b);
  }

  // ---- Objects ----

  datatype Member = Member(name: string, value: Field)

  function PrintMember(m: Member): string {
    Quote(m.name) + (":" + PrintField(m.value))
  }

  function PrintMembers(members: seq<Member>): string
    requires members != []
  {
    PrintMember(members[0]) + if |members| == 1 then "}" else "," + PrintMembers(members[1..])
  }

  function PrintObject(members: seq<Member>): string
    requires members != []
  {
    "{" + PrintMembers(members)
  }

  function ReadMember(t: string): (r: Option<(Member, string)>)
    ensures r.Some? ==> |r.value.1| < |t|
  {
    match ReadString(t)
    case None => None
    case Some((name, after)) =>
      if after == [] || after[0] != ':' then None
      else
        match ReadField(after[1..])
        case None => None
        case Some((value, rest)) => Some((Member(name, value), rest))
  }

  function ReadMembers(t: string): Option<seq<Member>>
    decreases |t|
  {
    match ReadMember(t)
    case None => None
    case Some((m, rest)) =>
      if rest == "}" then Some([m])
      else if rest == [] || rest[0] != ',' then None
      else
        match ReadMembers(rest[1..])
        case None => None
        case Some(ms) => Some([m] + ms)
  }

  function ReadObject(t: string): Option<seq<Member>> {
    if t != [] && t[0] == '{' then ReadMembers(t[1..]) else None
  }

  lemma ReadPrintedMember(m: Member, rest: string)
    requires Delimited(rest)
    ensures ReadMember(PrintMember(m) + rest) == Some((m, rest))
  {
    var value := PrintField(m.value) + rest;
    assert PrintMember(m) + rest == Quote(m.name) + (":" + value);
    ReadQuoted(m.name, ":" + value);
    ReadPrintedField(m.value, rest);
    ReadValue(PrintMember(m) + rest, m, value, rest);
  }

  lemma ReadValue(t: string, m: Member, value: string, rest: string)
    requires ReadString(t) == Some((m.name, ":" + value)) && ReadField(value) == Some((m.value, rest))
    ensures ReadMember(t) == Some((m, rest))
  {
    assert (":" + value)[1..] == value;
  }

  predicate MembersRead(members: seq<Member>)
    requires members != []
  {
    ReadMembers(PrintMembers(members)) == Some(members)
  }

  lemma LastMemberReads(m: Member)
    ensures MembersRead([m])
  {
    ReadPrintedMember(m, "}");
    assert PrintMembers([m]) == PrintMember(m) + "}";
  }

  lemma NextMemberReads(m: Member, others: seq<Member>)
    requires others != [] && MembersRead(others)
    ensures MembersRead([m] + others)
  {
    var rest := "," + PrintMembers(others);
    ReadPrintedMember(m, rest);
    assert rest[1..] == PrintMembers(others);
    assert ([m] + others)[1..] == others;
    assert PrintMembers([m] + others) == PrintMember(m) + rest;
  }

  lemma {:induction false} ReadPrintedMembers(members: seq<Member>)
    requires members != []
    ensures MembersRead(members)
    decreases |members|
  {
    if |members| == 1 {
      LastMemberReads(members[0]);
      assert members == [members[0]];
    } else {
      ReadPrintedMembers(members[1..]);
      NextMemberReads(members[0], members[1..]);
      assert members == [members[0]] + members[1..];
    }
  }

  lemma ReadPrintedObject(members: seq<Member>)
    requires members != []
    ensures ReadObject(PrintObject(members)) == Some(members)
  {
    assert PrintObject(members)[1..] == PrintMembers(members);
    ReadPrintedMembers(members);
  }
}
