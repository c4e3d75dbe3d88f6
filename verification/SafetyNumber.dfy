/** The number two people compare to verify an identity, and the code it is computed from. */
module SafetyNumber {
  import opened Wrappers
  import opened Text
  import opened Json
  import opened JsonArray
  import opened Base64
  import opened CursorText

  // ---- The code ----

  /** The fields of an identity that the code names. */
  datatype Identity = Identity(
    userId: string, signingFingerprint: string, bundleSequence: nat, bundleHash: string, encryptionFingerprint: string,
    encryptionVersion: nat)

  predicate AsciiIdentity(i: Identity) {
    Ascii(i.userId) && Ascii(i.signingFingerprint) && Ascii(i.bundleHash) && Ascii(i.encryptionFingerprint)
  }

  function KeyFields(i: Identity): seq<Field> {
    [Str(i.userId), Str(i.signingFingerprint), Num(i.bundleSequence)]
  }

  function BundleFields(i: Identity): seq<Field> {
    [Str(i.bundleHash), Str(i.encryptionFingerprint), Num(i.encryptionVersion)]
  }

  function CodeFields(i: Identity): seq<Field> {
    [Str("cipherspace.identity-verification"), Num(1)] + KeyFields(i) + BundleFields(i)
  }

  const PREFIX: string := "cipherspace-verify:"

  lemma {:induction false} PrintItemsIsAscii(fields: seq<Field>)
    requires fields != [] && forall f :: f in fields ==> Ascii(PrintField(f))
    ensures Ascii(PrintItems(fields))
    decreases |fields|
  {
    if |fields| > 1 { PrintItemsIsAscii(fields[1..]); }
  }

  lemma FieldIsAscii(f: Field)
    requires f.Str? ==> Ascii(f.text)
    ensures Ascii(PrintField(f))
  {
    match f
    case Str(s) => QuoteIsAscii(s);
    case Num(n) => DecimalIsAscii(n);
    case Null =>
  }

  predicate AsciiField(f: Field) {
    f.Str? ==> Ascii(f.text)
  }

  lemma ArrayIsAscii(fields: seq<Field>)
    requires fields != [] && forall f :: f in fields ==> AsciiField(f)
    ensures Ascii(PrintArray(fields))
  {
    forall f | f in fields ensures Ascii(PrintField(f)) { FieldIsAscii(f); }
    PrintItemsIsAscii(fields);
    AsciiConcat("[", PrintItems(fields));
  }

  lemma CodeFieldsAreAscii(i: Identity)
    requires AsciiIdentity(i)
    ensures forall f :: f in CodeFields(i) ==> AsciiField(f)
  {
    var tag, keys, bundle := [Str("cipherspace.identity-verification"), Num(1)], KeyFields(i), BundleFields(i);
    assert forall f :: f in tag ==> AsciiField(f);
    assert forall f :: f in keys ==> AsciiField(f);
    assert forall f :: f in bundle ==> AsciiField(f);
    assert CodeFields(i) == tag + keys + bundle;
  }

  lemma CodeIsAscii(i: Identity)
    requires AsciiIdentity(i)
    ensures Ascii(PrintArray(CodeFields(i)))
  {
    CodeFieldsAreAscii(i);
    ArrayIsAscii(CodeFields(i));
  }

  /** `createPersonalVerificationCode` */
  function VerificationCode(i: Identity): string
    requires AsciiIdentity(i)
  {
    CodeIsAscii(i);
    PREFIX + EncodeUrl(Bytes(PrintArray(CodeFields(i))))
  }

  /** Equal codes mean the same identity, field by field. */
  lemma VerificationCodeInjective(i: Identity, j: Identity)
    requires AsciiIdentity(i) && AsciiIdentity(j) && VerificationCode(i) == VerificationCode(j)
    ensures i == j
  {
    CodeIsAscii(i);
    CodeIsAscii(j);
    var a, b := PrintArray(CodeFields(i)), PrintArray(CodeFields(j));
    assert VerificationCode(i)[|PREFIX|..] == EncodeUrl(Bytes(a));
    assert VerificationCode(j)[|PREFIX|..] == EncodeUrl(Bytes(b));
    TextSurvives(a);
    TextSurvives(b);
    PrintArrayInjective(CodeFields(i), CodeFields(j));
    FieldsInjective(i, j);
  }

  lemma FieldsInjective(i: Identity, j: Identity)
    requires CodeFields(i) == CodeFields(j)
    ensures i == j
  {
    var f, g := CodeFields(i), CodeFields(j);
    assert f[2] == g[2] && f[3] == g[3] && f[4] == g[4] && f[5] == g[5] && f[6] == g[6] && f[7] == g[7];
  }

  // ---- The number ----

  function BigEndian(digest: seq<Byte>): nat {
    if digest == [] then 0 else BigEndian(digest[..|digest| - 1]) * 256 + digest[|digest| - 1]
  }

  function Pow256(k: nat): (p: nat)
    ensures p >= 1
  {
    if k == 0 then 1 else 256 * Pow256(k - 1)
  }

  /** Bytes weigh by their place, the first most: a byte is its value, and what comes first counts 256 times more for each
      byte that follows. */
  lemma {:induction false} BigEndianWeighs(a: seq<Byte>, b: seq<Byte>, x: Byte)
    ensures BigEndian([x]) == x && BigEndian(a + b) == BigEndian(a) * Pow256(|b|) + BigEndian(b)
    decreases |b|
  {
    assert [x][..0] == [];
    assert BigEndian([]) == 0;
    if b == [] {
      assert a + b == a;
    } else {
      var rest := b[..|b| - 1];
      assert (a + b)[..|a + b| - 1] == a + rest;
      BigEndianWeighs(a, rest, x);
    }
  }

  function Pow10(k: nat): (p: nat)
    ensures p >= 1
  {
    if k == 0 then 1 else 10 * Pow10(k - 1)
  }

  /** `padStart(width, "0")` */
  function PadStart(s: string, width: nat): (r: string)
    ensures |r| == if |s| < width then width else |s|
    decreases width - |s|
  {
    if |s| >= width then s else PadStart(['0'] + s, width)
  }

  /** The five-character groups of a text, with a space between two. */
  function Grouped(s: string): string {
    if |s| < 5 then [] else if |s| < 10 then s[..5] else s[..5] + [' '] + Grouped(s[5..])
  }

  const DIGIT_COUNT: nat := 60

  /** The number of a digest's value. */
  function Shown(value: nat): string {
    Grouped(PadStart(Decimal(value % Pow10(DIGIT_COUNT)), DIGIT_COUNT))
  }

  /** `safetyNumberForVerificationCode`, from the digest on. */
  method SafetyNumberOf(digest: seq<Byte>) returns (number: string)
    ensures number == Shown(BigEndian(digest))
  {
    var value: nat := 0;
    for k := 0 to |digest|
      invariant value == BigEndian(digest[..k])
    {
      assert digest[..k + 1][..k] == digest[..k];
      value := value * 256 + digest[k];
    }
    assert digest[..|digest|] == digest;
    number := Shown(value);
  }

  lemma {:induction false} DecimalLength(n: nat, k: nat)
    requires k >= 1 && n < Pow10(k)
    ensures |Decimal(n)| <= k
    decreases k
  {
    if n >= 10 {
      assert k > 1;
      DecimalLength(n / 10, k - 1);
    }
  }

  lemma {:induction false} LeadingZero(s: string)
    requires AllDigits(s)
    ensures AllDigits(['0'] + s) && DigitsValue(['0'] + s) == DigitsValue(s)
    decreases |s|
  {
    var t := ['0'] + s;
    if s == [] {
      assert t[..0] == [];
    } else {
      LeadingZero(s[..|s| - 1]);
      assert t[..|t| - 1] == ['0'] + s[..|s| - 1];
    }
  }

  lemma {:induction false} PaddedValue(s: string, width: nat)
    requires AllDigits(s)
    ensures AllDigits(PadStart(s, width)) && DigitsValue(PadStart(s, width)) == DigitsValue(s)
    decreases width - |s|
  {
    if |s| < width {
      LeadingZero(s);
      PaddedValue(['0'] + s, width);
    }
  }

  lemma {:induction false} GroupedInjective(s: string, t: string)
    requires |s| == |t| && |s| % 5 == 0 && Grouped(s) == Grouped(t)
    ensures s == t
    decreases |s|
  {
    if |s| >= 5 {
      assert Grouped(s)[..5] == s[..5] && Grouped(t)[..5] == t[..5];
      if |s| >= 10 {
        assert Grouped(s)[6..] == Grouped(s[5..]) && Grouped(t)[6..] == Grouped(t[5..]);
        GroupedInjective(s[5..], t[5..]);
      }
      assert s == s[..5] + s[5..] && t == t[..5] + t[5..];
    }
  }

  lemma {:induction false} GroupedLength(s: string, n: nat)
    requires |s| == 5 * n && n >= 1
    ensures |Grouped(s)| == 6 * n - 1
    decreases n
  {
    if n > 1 { GroupedLength(s[5..], n - 1); }
  }

  lemma Regroup(s: string, rest: string, n: nat, g: nat, j: nat)
    requires |s| == 5 * n && 1 <= g < n && (j < 5 || (j == 5 && g < n - 1)) && rest == s[5..] && |rest| == 5 * (n - 1)
    ensures |Grouped(rest)| == 6 * (n - 1) - 1 && |Grouped(s)| == 6 * n - 1
    ensures Grouped(s)[6 * g + j] == Grouped(rest)[6 * (g - 1) + j]
  {
    GroupedLength(rest, n - 1);
    GroupedLength(s, n);
    var head := s[..5] + [' '];
    assert Grouped(s) == head + Grouped(rest);
  }

  /** The groups of a text of `n` times five characters: five, a space, five, and so on. */
  lemma {:induction false} GroupedShows(s: string, n: nat, g: nat, j: nat)
    requires |s| == 5 * n && g < n && (j < 5 || (j == 5 && g < n - 1))
    ensures |Grouped(s)| == 6 * n - 1
    ensures Grouped(s)[6 * g + j] == if j == 5 then ' ' else s[5 * g + j]
    decreases n
  {
    GroupedLength(s, n);
    if g > 0 {
      Regroup(s, s[5..], n, g, j);
      GroupedShows(s[5..], n - 1, g - 1, j);
    }
  }

  lemma PaddedLength(value: nat)
    ensures |PadStart(Decimal(value % Pow10(60)), 60)| == 60
  {
    DecimalLength(value % Pow10(60), 60);
  }

  lemma TenToSixty()
    ensures Pow10(60) == 1000000000000000000000000000000000000000000000000000000000000
  {
    assert Pow10(5) == 100000;
    PowAdds(5, 5);
    PowAdds(10, 10);
    PowAdds(20, 20);
    PowAdds(40, 20);
  }

  lemma {:induction false} PowAdds(a: nat, b: nat)
    ensures Pow10(a + b) == Pow10(a) * Pow10(b)
    decreases a
  {
    if a > 0 { PowAdds(a - 1, b); }
  }

  /** The number is twelve groups of five digits with a space between two, and its sixty digits read back to the value
      modulo ten to the sixtieth. */
  lemma NumberShows(value: nat) returns (digits: string)
    ensures |digits| == 60 && AllDigits(digits)
    ensures DigitsValue(digits) == value % 1000000000000000000000000000000000000000000000000000000000000
    ensures |Shown(value)| == 71
    ensures forall k :: 0 <= k < 71 ==> Shown(value)[k] == if k % 6 == 5 then ' ' else digits[k / 6 * 5 + k % 6]
  {
    var n := value % Pow10(60);
    digits := PadStart(Decimal(n), 60);
    TenToSixty();
    PaddedLength(value);
    DecimalRoundTrip(n);
    PaddedValue(Decimal(n), 60);
    forall k | 0 <= k < 71 ensures |Shown(value)| == 71 && Shown(value)[k] == if k % 6 == 5 then ' ' else digits[k / 6 * 5 + k % 6] {
      GroupedShows(digits, 12, k / 6, k % 6);
    }
    GroupedShows(digits, 12, 0, 0);
  }

  /** Two digests show the same number exactly when their values agree modulo 10^60: the sixty digits lose nothing
      else, neither leading zeros nor the grouping. */
  lemma SameNumberExactly(a: nat, b: nat)
    ensures Shown(a) == Shown(b) <==>
      a % 1000000000000000000000000000000000000000000000000000000000000 == b % 1000000000000000000000000000000000000000000000000000000000000
  {
    TenToSixty();
    var x, y := a % Pow10(DIGIT_COUNT), b % Pow10(DIGIT_COUNT);
    DecimalRoundTrip(x);
    DecimalRoundTrip(y);
    DecimalLength(x, DIGIT_COUNT);
    DecimalLength(y, DIGIT_COUNT);
    PaddedValue(Decimal(x), DIGIT_COUNT);
    PaddedValue(Decimal(y), DIGIT_COUNT);
    if Shown(a) == Shown(b) { GroupedInjective(PadStart(Decimal(x), DIGIT_COUNT), PadStart(Decimal(y), DIGIT_COUNT)); }
  }
}
