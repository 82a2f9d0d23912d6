/** Opaque 128-bit identities (QUuid), their textual form, their order and
    their hash, as src/projectmodel.cpp uses them through AssetRef. */
module Uuids {
  import opened Wrappers

  type Nibble = x: int | 0 <= x < 16

  /** The 32 hexadecimal digits of a uuid, most significant first, in the
      order of its fields: data1 (8 digits), data2 (4), data3 (4), data4 (16). */
  type Uuid = d: seq<Nibble> | |d| == 32 witness NilUuid

  /** The null uuid: every digit zero. */
  const NilUuid: seq<Nibble> :=
    [0, 0, 0, 0, 0, 0, 0, 0, 0, 0, 0, 0, 0, 0, 0, 0, 0, 0, 0, 0, 0, 0, 0, 0, 0, 0, 0, 0, 0, 0, 0, 0]

  predicate IsNull(u: Uuid) {
    u == NilUuid
  }

  // ---------------------------------------------------------------------
  // Textual form "{xxxxxxxx-xxxx-xxxx-xxxx-xxxxxxxxxxxx}", lower-case hex
  // ---------------------------------------------------------------------

  function HexDigit(n: Nibble): (c: char)
    ensures HexValue(c) == Some(n)
  {
    if n < 10 then ('0' as int + n) as char else ('a' as int + n - 10) as char
  }

  /** The value of one hexadecimal digit of either case, None for any other character. */
  function HexValue(c: char): Option<Nibble> {
    if '0' <= c <= '9' then Some(c as int - '0' as int)
    else if 'a' <= c <= 'f' then Some(c as int - 'a' as int + 10)
    else if 'A' <= c <= 'F' then Some(c as int - 'A' as int + 10)
    else None
  }

  /** The dashes between the five digit groups, as positions of the 36-character body. */
  predicate IsDashPos(i: int) {
    i == 8 || i == 13 || i == 18 || i == 23
  }

  /** Position of digit k within the 36-character body. */
  function DigitPos(k: nat): (i: nat)
    requires k < 32
    ensures i < 36 && !IsDashPos(i)
  {
    if k < 8 then k else if k < 12 then k + 1 else if k < 16 then k + 2 else if k < 20 then k + 3 else k + 4
  }

  /** Which digit a non-dash position of the body holds. */
  function DigitAt(i: nat): (k: nat)
    requires i < 36 && !IsDashPos(i)
    ensures k < 32 && DigitPos(k) == i
  {
    if i < 8 then i else if i < 13 then i - 1 else if i < 18 then i - 2 else if i < 23 then i - 3 else i - 4
  }

  /** The 36 characters between the braces of the canonical form. */
  function Body(u: Uuid): (b: string)
    ensures |b| == 36
  {
    seq(36, i requires 0 <= i < 36 => if IsDashPos(i) then '-' else HexDigit(u[DigitAt(i)]))
  }

  /** QUuid::toString(): braces around the dashed lower-case digits. */
  function ToString(u: Uuid): (s: string)
    ensures |s| == 38 && s[0] == '{' && s[37] == '}'
  {
    "{" + Body(u) + "}"
  }

  /** The first 36 characters of b are four dashes at the group boundaries and hex digits elsewhere. */
  predicate IsDashedHex(b: string)
    requires |b| >= 36
  {
    forall i :: 0 <= i < 36 ==> if IsDashPos(i) then b[i] == '-' else HexValue(b[i]).Some?
  }

  /** QUuid(const QString&): an optional opening brace, then the 8-4-4-4-12
      dashed hex digits; whatever follows them is ignored, and any other text
      gives the null uuid. */
  function FromString(s: string): (u: Uuid)
  {
    var b := if |s| > 0 && s[0] == '{' then s[1..] else s;
    if |b| >= 36 && IsDashedHex(b) then
      seq(32, k requires 0 <= k < 32 => HexValue(b[DigitPos(k)]).value)
    else
      NilUuid
  }

  /** The textual form is read back as the same uuid. */
  lemma FromToString(u: Uuid)
    ensures FromString(ToString(u)) == u
  {
    var s := ToString(u);
    var b := s[1..];
    assert b[..36] == Body(u);
    forall i | 0 <= i < 36
      ensures if IsDashPos(i) then b[i] == '-' else HexValue(b[i]).Some?
    {
      assert b[i] == Body(u)[i];
    }
    var d := seq(32, k requires 0 <= k < 32 => HexValue(b[DigitPos(k)]).value);
    forall k | 0 <= k < 32 ensures d[k] == u[k] {
      assert b[DigitPos(k)] == Body(u)[DigitPos(k)];
    }
  }

  /** The textual form is injective: distinct uuids print differently. */
  lemma ToStringInjective(u: Uuid, v: Uuid)
    requires ToString(u) == ToString(v)
    ensures u == v
  {
    FromToString(u);
    FromToString(v);
  }

  // ---------------------------------------------------------------------
  // Order (QUuid::operator<)
  // ---------------------------------------------------------------------

  /** QUuid::variant(): -1 for the null uuid, otherwise decided by the top
      bits of data4[0] (digit 16): NCS 0, DCE 2, Microsoft 6, Reserved 7. */
  function Variant(u: Uuid): (v: int)
    ensures v == -1 <==> IsNull(u)
  {
    if IsNull(u) then -1
    else if u[16] < 8 then 0
    else if u[16] < 12 then 2
    else if u[16] < 14 then 6
    else 7
  }

  /** Comparing data1, data2, data3 and the bytes of data4 in turn as unsigned
      numbers is comparing the digit sequences lexicographically. */
  predicate LexLess(a: seq<Nibble>, b: seq<Nibble>)
    requires |a| == |b|
  {
    |a| > 0 && (a[0] < b[0] || (a[0] == b[0] && LexLess(a[1..], b[1..])))
  }

  /** QUuid::operator<: the variant first, then the fields. */
  predicate Less(a: Uuid, b: Uuid) {
    if Variant(a) != Variant(b) then Variant(a) < Variant(b) else LexLess(a, b)
  }

  lemma {:induction false} LexLessIrreflexive(a: seq<Nibble>)
    ensures !LexLess(a, a)
  {
    if |a| > 0 {
      LexLessIrreflexive(a[1..]);
    }
  }

  lemma {:induction false} LexLessTransitive(a: seq<Nibble>, b: seq<Nibble>, c: seq<Nibble>)
    requires |a| == |b| == |c|
    requires LexLess(a, b) && LexLess(b, c)
    ensures LexLess(a, c)
  {
    if a[0] == b[0] && b[0] == c[0] {
      LexLessTransitive(a[1..], b[1..], c[1..]);
    }
  }

  lemma {:induction false} LexLessTotal(a: seq<Nibble>, b: seq<Nibble>)
    requires |a| == |b| && a != b
    ensures LexLess(a, b) || LexLess(b, a)
  {
    if a[0] == b[0] {
      assert a == [a[0]] + a[1..] && b == [b[0]] + b[1..];
      LexLessTotal(a[1..], b[1..]);
    }
  }

  /** The uuid order is a strict total order: irreflexive, transitive, and
      any two distinct uuids are comparable. */
  lemma LessIsStrictTotalOrder(a: Uuid, b: Uuid, c: Uuid)
    ensures !Less(a, a)
    ensures Less(a, b) && Less(b, c) ==> Less(a, c)
    ensures a != b ==> Less(a, b) || Less(b, a)
    ensures Less(a, b) ==> !Less(b, a)
  {
    LexLessIrreflexive(a);
    if Less(a, b) && Less(b, c) && Variant(a) == Variant(b) == Variant(c) {
      LexLessTransitive(a, b, c);
    }
    if a != b && Variant(a) == Variant(b) {
      LexLessTotal(a, b);
    }
    if Less(a, b) && Less(b, a) {
      LexLessTransitive(a, b, a);
    }
  }

  // ---------------------------------------------------------------------
  // Hash (qHash(const QUuid&) with seed 0)
  // ---------------------------------------------------------------------

  /** Digits read as one big-endian unsigned word of at most 32 bits. */
  function Word(ds: seq<Nibble>): bv32
    requires |ds| <= 8
  {
    if ds == [] then 0 else (Word(ds[..|ds| - 1]) << 4) | (ds[|ds| - 1] as bv32)
  }

  /** data1 ^ data2 ^ (data3 << 16) ^ data4[0..4] ^ data4[4..8], each data4 half
      read as a big-endian 32-bit word. */
  function Hash(u: Uuid): bv32 {
    Word(u[..8]) ^ Word(u[8..12]) ^ (Word(u[12..16]) << 16) ^ Word(u[16..24]) ^ Word(u[24..])
  }
}
