/** The bytes of the wire format in numbers: the digits of varints and fixed-width numbers, what a
    varint spells, and the tags and payloads of unknown fields. */
module WireBytes {
  import opened Wire
  import opened WireLaws

  // ---------------------------------------------------------------- numbers

  /** The number the low seven bits of some bytes spell, the lowest first. */
  function Base128(s: Bytes): nat {
    if s == [] then 0 else s[0] % 128 + 128 * Base128(s[1..])
  }

  /** A varint is the number's digits to base 128, the lowest first, each but the last marked by
      its top bit, and no longer than it has to be: these are the only such bytes. */
  lemma {:induction false} VarintDigits(v: nat)
    ensures var s := EncodeVarint(v);
      && Base128(s) == v && s[|s| - 1] < 128 && (|s| > 1 ==> s[|s| - 1] > 0)
      && forall i | 0 <= i < |s| - 1 :: s[i] >= 128
  {
    if v >= 128 {
      VarintDigits(v / 128);
      assert EncodeVarint(v)[1..] == EncodeVarint(v / 128);
    }
  }

  lemma Quotients(v: nat)
    ensures v / 256 / 256 == v / 0x1_0000 && v / 0x1_0000 / 256 == v / 0x100_0000
    ensures v / 0x100_0000 / 256 == v / 0x1_0000_0000
  {
  }

  lemma FixedStep(v: nat, n: nat)
    requires n > 0
    ensures EncodeFixed(v, n) == [v % 256] + EncodeFixed(v / 256, n - 1)
  {
  }

  /** A fixed-width number is its bytes, the lowest first, four at a time. */
  lemma FixedBytes(v: nat, n: nat)
    requires n >= 4
    ensures EncodeFixed(v, n) ==
      [v % 256, v / 256 % 256, v / 0x1_0000 % 256, v / 0x100_0000 % 256] + EncodeFixed(v / 0x1_0000_0000, n - 4)
  {
    hide EncodeFixed;
    Quotients(v);
    var b, c, d, e := v / 256, v / 0x1_0000, v / 0x100_0000, v / 0x1_0000_0000;
    FixedStep(v, n);
    FixedStep(b, n - 1);
    FixedStep(c, n - 2);
    FixedStep(d, n - 3);
  }

  lemma {:induction false} DecodeUpTo(s: Bytes, budget: nat, n: nat)
    requires n < |s| && n < budget && s[n] < 128 && forall i | 0 <= i < n :: s[i] >= 128
    ensures DecodeVarint(s, budget) == Got(Base128(s[..n + 1]), s[n + 1..])
  {
    assert s[..n + 1][1..] == s[1..][..n];
    if n == 0 {
      assert s[..1] == [s[0]];
    } else {
      DecodeUpTo(s[1..], budget - 1, n - 1);
      assert s[1..][n..] == s[n + 1..];
    }
  }

  lemma {:induction false} DecodeNever(s: Bytes, budget: nat)
    requires forall i | 0 <= i < |s| && i < budget :: s[i] >= 128
    ensures DecodeVarint(s, budget) == Fail
  {
    if s != [] && budget > 0 {
      DecodeNever(s[1..], budget - 1);
    }
  }

  /** A varint ends at the first byte without the top bit, which must be among the first ten; it
      spells what the low bits up to there say, cut to the width asked for. Without such a byte
      it is refused. */
  lemma VarintSpells(s: Bytes, modulus: nat, n: nat)
    requires modulus > 0 && forall i | 0 <= i < n && i < |s| :: s[i] >= 128
    ensures n < 10 && n < |s| && s[n] < 128 ==>
      ReadVarint(s, modulus) == Got(Base128(s[..n + 1]) % modulus, s[n + 1..])
    ensures n >= 10 || n >= |s| ==> ReadVarint(s, modulus) == Fail
  {
    if n >= 10 || n >= |s| {
      DecodeNever(s, 10);
    } else if s[n] < 128 {
      DecodeUpTo(s, 10, n);
    }
  }

  // ---------------------------------------------------------------- unknown fields

  /** Eight times the field's number plus 0 for a varint, 1 for eight bytes, 2 for a length and as
      many bytes, 3 for the fields up to the tag that ends in 4, and 5 for four bytes. */
  lemma UnknownBytes(number: nat, v: nat, bytes: Bytes, fields: seq<UnknownField>)
    ensures EncodeUnknown(Varint(number, v)) == EncodeVarint(8 * number) + EncodeVarint(v)
    ensures EncodeUnknown(Fixed64(number, v)) == EncodeVarint(8 * number + 1) + EncodeFixed(v, 8)
    ensures EncodeUnknown(LengthDelimited(number, bytes)) ==
      EncodeVarint(8 * number + 2) + (EncodeVarint(|bytes|) + bytes)
    ensures EncodeUnknown(Group(number, fields)) ==
      EncodeVarint(8 * number + 3) + (EncodeUnknowns(fields) + EncodeVarint(8 * number + 4))
    ensures EncodeUnknown(Fixed32(number, v)) == EncodeVarint(8 * number + 5) + EncodeFixed(v, 4)
  {
    hide EncodeVarint, EncodeFixed, EncodeUnknowns;
  }

  /** Unknown fields are written one after another. */
  lemma {:induction false} UnknownsAppend(us: seq<UnknownField>, u: UnknownField)
    ensures EncodeUnknowns([]) == [] && EncodeUnknowns(us + [u]) == EncodeUnknowns(us) + EncodeUnknown(u)
  {
    hide EncodeUnknown;
    if us == [] {
      assert us + [u] == [u] && [u][1..] == [];
    } else {
      assert (us + [u])[1..] == us[1..] + [u];
      UnknownsAppend(us[1..], u);
    }
  }
}
