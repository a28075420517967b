/** Strings as the program stores them: bytes holding Unicode scalar values, encoded as
    section 3 of RFC 3629 lays out, with the library operations the text field relies on. */
module Utf8 {
  import opened Wrappers

  type Byte = b: int | 0 <= b < 0x100
  type Scalar = c: int | 0 <= c < 0xD800 || 0xE000 <= c < 0x11_0000

  function Width(c: Scalar): (w: nat)
  {
    if c < 0x80 then 1 else if c < 0x800 then 2 else if c < 0x1_0000 then 3 else 4
  }

  predicate Continuation(b: Byte)
  {
    0x80 <= b < 0xC0
  }

  function Encode(c: Scalar): (bytes: seq<Byte>)
    ensures |bytes| == Width(c) && !Continuation(bytes[0])
    ensures forall i :: 1 <= i < |bytes| ==> Continuation(bytes[i])
  {
    if c < 0x80 then [c]
    else if c < 0x800 then [0xC0 + c / 0x40, 0x80 + c % 0x40]
    else if c < 0x1_0000 then [0xE0 + c / 0x1000, 0x80 + c / 0x40 % 0x40, 0x80 + c % 0x40]
    else [0xF0 + c / 0x4_0000, 0x80 + c / 0x1000 % 0x40, 0x80 + c / 0x40 % 0x40, 0x80 + c % 0x40]
  }

  function Text(cs: seq<Scalar>): (bytes: seq<Byte>)
  {
    if cs == [] then [] else Encode(cs[0]) + Text(cs[1..])
  }

  ghost predicate WellFormed(bytes: seq<Byte>)
  {
    exists cs :: Text(cs) == bytes
  }

  /** The characters a well-formed string holds; `CharsOf` shows there is one answer only. */
  ghost function Chars(bytes: seq<Byte>): (cs: seq<Scalar>)
    requires WellFormed(bytes)
    ensures Text(cs) == bytes
  {
    var cs :| Text(cs) == bytes;
    cs
  }

  // ---- reading one character ----

  function LeadWidth(b: Byte): (w: nat)
  {
    if b < 0x80 then 1 else if b < 0xE0 then 2 else if b < 0xF0 then 3 else 4
  }

  /** The number the first bytes spell: the lead byte says how many to read and each
      continuation byte adds six bits. */
  function Value(bytes: seq<Byte>): (v: int)
    requires bytes != [] && LeadWidth(bytes[0]) <= |bytes|
  {
    var w, b: int := LeadWidth(bytes[0]), bytes[0];
    if w == 1 then b
    else if w == 2 then Append(b % 0x20, bytes[1])
    else if w == 3 then Append(Append(b % 0x10, bytes[1]), bytes[2])
    else Append(Append(Append(b % 0x08, bytes[1]), bytes[2]), bytes[3])
  }

  function Append(high: int, b: Byte): (v: int)
  {
    high * 0x40 + b % 0x40
  }

  lemma AppendsDigit(n: nat, high: int, b: Byte)
    requires high == n / 0x40 && b == 0x80 + n % 0x40
    ensures Append(high, b) == n
  {}

  lemma ValueOfEncoding(c: Scalar, rest: seq<Byte>)
    ensures var bytes := Encode(c) + rest;
      LeadWidth(bytes[0]) == Width(c) && Value(bytes) == c
  {
    hide Append;
    var e, bytes := Encode(c), Encode(c) + rest;
    assert forall i :: 0 <= i < |e| ==> bytes[i] == e[i];
    if Width(c) == 1 {
      assert bytes[0] == c;
    } else if Width(c) == 2 {
      assert bytes[0] % 0x20 == c / 0x40;
      AppendsDigit(c, c / 0x40, bytes[1]);
    } else if Width(c) == 3 {
      assert bytes[0] % 0x10 == c / 0x1000 == c / 0x40 / 0x40;
      AppendsDigit(c / 0x40, c / 0x1000, bytes[1]);
      AppendsDigit(c, c / 0x40, bytes[2]);
    } else {
      assert bytes[0] % 0x08 == c / 0x4_0000 == c / 0x1000 / 0x40;
      assert c / 0x1000 == c / 0x40 / 0x40;
      AppendsDigit(c / 0x1000, c / 0x4_0000, bytes[1]);
      AppendsDigit(c / 0x40, c / 0x1000, bytes[2]);
      AppendsDigit(c, c / 0x40, bytes[3]);
    }
  }

  lemma FirstOfText(cs: seq<Scalar>)
    requires cs != []
    ensures var b := Text(cs);
      b != [] && LeadWidth(b[0]) == Width(cs[0]) <= |b| && Value(b) == cs[0]
  {
    ValueOfEncoding(cs[0], Text(cs[1..]));
  }

  /** `chars().next()` */
  function First(bytes: seq<Byte>): (c: Option<Scalar>)
    requires WellFormed(bytes)
    ensures forall cs :: Text(cs) == bytes ==> c == (if cs == [] then None else Some(cs[0]))
  {
    if bytes == [] then None
    else
      assert forall cs | Text(cs) == bytes ::
          cs != [] && LeadWidth(bytes[0]) <= |bytes| && Value(bytes) == cs[0] by {
        forall cs | Text(cs) == bytes
          ensures cs != [] && LeadWidth(bytes[0]) <= |bytes| && Value(bytes) == cs[0]
        {
          FirstOfText(cs);
        }
      }
      Some(Value(bytes))
  }

  // ---- reading back from the end ----

  /** Where the character ending at `k` starts: back over its continuation bytes. */
  function LeadBefore(bytes: seq<Byte>, k: nat): (i: nat)
    requires k <= |bytes|
    ensures i <= k
  {
    if k == 0 then 0
    else if Continuation(bytes[k - 1]) then LeadBefore(bytes, k - 1)
    else k - 1
  }

  lemma {:induction false} LeadBeforeEncoding(before: seq<Byte>, c: Scalar, k: nat)
    requires 1 <= k <= Width(c)
    ensures LeadBefore(before + Encode(c), |before| + k) == |before|
  {
    assert (before + Encode(c))[|before| + k - 1] == Encode(c)[k - 1];
    if k > 1 {
      LeadBeforeEncoding(before, c, k - 1);
    }
  }

  lemma {:induction false} TextOfConcat(a: seq<Scalar>, b: seq<Scalar>)
    ensures Text(a + b) == Text(a) + Text(b)
  {
    if a == [] {
      assert a + b == b;
    } else {
      TextOfConcat(a[1..], b);
      assert (a + b)[1..] == a[1..] + b;
    }
  }

  lemma TextOfOne(c: Scalar)
    ensures Text([c]) == Encode(c)
  {
    assert [c][1..] == [];
  }

  lemma LastOfText(cs: seq<Scalar>)
    requires cs != []
    ensures var b, last := Text(cs), cs[|cs| - 1]; var i := LeadBefore(b, |b|);
      b != [] && i == |b| - Width(last) && LeadWidth(b[i]) <= |b| - i && Value(b[i..]) == last
  {
    hide Value, Encode, LeadBefore, Text;
    var before, last := cs[..|cs| - 1], cs[|cs| - 1];
    assert cs == before + [last];
    TextOfConcat(before, [last]);
    TextOfOne(last);
    LeadBeforeEncoding(Text(before), last, Width(last));
    var b := Text(cs);
    assert b[|Text(before)|..] == Encode(last) + [];
    ValueOfEncoding(last, []);
    assert Encode(last) + [] == Encode(last);
  }

  /** `chars().next_back()` */
  function Last(bytes: seq<Byte>): (c: Option<Scalar>)
    requires WellFormed(bytes)
    ensures forall cs :: Text(cs) == bytes ==> c == (if cs == [] then None else Some(cs[|cs| - 1]))
  {
    if bytes == [] then None
    else
      var i := LeadBefore(bytes, |bytes|);
      assert forall cs | Text(cs) == bytes ::
          cs != [] && i < |bytes| && LeadWidth(bytes[i]) <= |bytes| - i && Value(bytes[i..]) == cs[|cs| - 1] by {
        forall cs | Text(cs) == bytes
          ensures cs != [] && i < |bytes| && LeadWidth(bytes[i]) <= |bytes| - i && Value(bytes[i..]) == cs[|cs| - 1]
        {
          LastOfText(cs);
        }
      }
      Some(Value(bytes[i..]))
  }

  // ---- one reading only ----

  lemma {:induction false} TextInjective(a: seq<Scalar>, b: seq<Scalar>)
    requires Text(a) == Text(b)
    ensures a == b
  {
    if a != [] && b != [] {
      FirstOfText(a);
      FirstOfText(b);
      assert Text(a[1..]) == Text(a)[Width(a[0])..] == Text(b[1..]);
      TextInjective(a[1..], b[1..]);
      assert a == [a[0]] + a[1..] && b == [b[0]] + b[1..];
    }
  }

  lemma CharsOf(cs: seq<Scalar>)
    ensures WellFormed(Text(cs)) && Chars(Text(cs)) == cs
  {
    TextInjective(cs, Chars(Text(cs)));
  }

  // ---- character boundaries ----

  /** `is_char_boundary` */
  predicate IsCharBoundary(bytes: seq<Byte>, i: nat)
  {
    i == 0 || i == |bytes| || (i < |bytes| && !Continuation(bytes[i]))
  }

  /** The byte index of character `k`. */
  function Offset(cs: seq<Scalar>, k: nat): (i: nat)
    requires k <= |cs|
  {
    |Text(cs[..k])|
  }

  lemma SplitAt(cs: seq<Scalar>, k: nat)
    requires k <= |cs|
    ensures Offset(cs, k) <= |Text(cs)|
    ensures Text(cs)[..Offset(cs, k)] == Text(cs[..k]) && Text(cs)[Offset(cs, k)..] == Text(cs[k..])
  {
    assert cs == cs[..k] + cs[k..];
    TextOfConcat(cs[..k], cs[k..]);
  }

  lemma OffsetStep(cs: seq<Scalar>, k: nat)
    requires k < |cs|
    ensures Offset(cs, k + 1) == Offset(cs, k) + Width(cs[k])
  {
    assert cs[..k + 1] == cs[..k] + [cs[k]];
    TextOfConcat(cs[..k], [cs[k]]);
    TextOfOne(cs[k]);
  }

  lemma {:induction false} OffsetMonotone(cs: seq<Scalar>, j: nat, k: nat)
    requires j < k <= |cs|
    ensures Offset(cs, j) < Offset(cs, k)
  {
    OffsetStep(cs, k - 1);
    if j < k - 1 {
      OffsetMonotone(cs, j, k - 1);
    }
  }

  lemma OffsetIsBoundary(cs: seq<Scalar>, k: nat)
    requires k <= |cs|
    ensures IsCharBoundary(Text(cs), Offset(cs, k))
  {
    SplitAt(cs, k);
    if k < |cs| {
      assert Text(cs[k..])[0] == Encode(cs[k..][0])[0];
    } else {
      assert cs[..k] == cs;
    }
  }

  /** Every boundary is where some character starts, or the end. */
  lemma {:induction false} BoundaryIsOffset(cs: seq<Scalar>, i: nat) returns (k: nat)
    requires i <= |Text(cs)| && IsCharBoundary(Text(cs), i)
    ensures k <= |cs| && Offset(cs, k) == i
  {
    if i == 0 {
      k := 0;
    } else {
      var w := Width(cs[0]);
      assert forall j :: 1 <= j < w ==> Continuation(Text(cs)[j]);
      assert i < |Text(cs)| ==> Text(cs)[i] == Text(cs[1..])[i - w];
      var j := BoundaryIsOffset(cs[1..], i - w);
      k := j + 1;
      assert cs[..k][1..] == cs[1..][..j];
    }
  }
}
