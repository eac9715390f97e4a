// Little-endian numbers in value atoms: the decoders' loops against plain place value.
module NumberCodecs {
  import opened Common
  import opened Json

  const I64_MAX: nat := 0x7FFF_FFFF_FFFF_FFFF

  // What a byte string denotes, least significant byte first, at any length.
  function LeValue(bytes: seq<Byte>): nat {
    if bytes == [] then 0 else bytes[0] + 256 * LeValue(bytes[1..])
  }

  function Pow2(k: nat): (p: nat)
    ensures 0 < p
  {
    if k == 0 then 1 else 2 * Pow2(k - 1)
  }

  // Bitwise or.
  function BitOr(a: nat, b: nat): nat
    decreases a + b
  {
    if a == 0 then b
    else if b == 0 then a
    else (if a % 2 == 1 || b % 2 == 1 then 1 else 0) + 2 * BitOr(a / 2, b / 2)
  }

  // `(byte as u128) << k`.
  function ShiftLeft(byte: Byte, k: nat): nat {
    byte * Pow2(k) % U128_LIMIT
  }

  lemma {:induction false} Pow2Sum(j: nat, k: nat)
    ensures Pow2(j + k) == Pow2(j) * Pow2(k)
  {
    if j == 0 {
    } else {
      Pow2Sum(j - 1, k);
    }
  }

  lemma Pow2Of8()
    ensures Pow2(8) == 256
  {
    assert Pow2(4) == 16;
    Pow2Sum(4, 4);
  }

  lemma Pow2Of64()
    ensures Pow2(64) == 0x1_0000_0000_0000_0000
  {
    Pow2Of8();
    Pow2Sum(8, 8);
    Pow2Sum(16, 16);
    Pow2Sum(32, 32);
  }

  lemma Pow2Of128()
    ensures Pow2(128) == U128_LIMIT
  {
    Pow2Of64();
    Pow2Sum(64, 64);
  }

  // Or-ing in a number shifted clear of the bits already there adds it.
  lemma {:induction false} OrDisjoint(a: nat, b: nat, k: nat)
    requires a < Pow2(k)
    ensures BitOr(a, b * Pow2(k)) == a + b * Pow2(k)
    decreases k
  {
    if k > 0 && a > 0 && b > 0 {
      var half := b * Pow2(k - 1);
      assert b * Pow2(k) == 2 * half;
      OrDisjoint(a / 2, b, k - 1);
      assert BitOr(a, 2 * half) == (if a % 2 == 1 then 1 else 0) + 2 * BitOr(a / 2, half);
    }
  }

  lemma PullOut(a: nat, x: nat, p: nat, v: nat)
    ensures a + 256 * (x + p * v) == a + 256 * x + (256 * p) * v
  {
  }

  lemma {:induction false} LeValueAppend(a: seq<Byte>, b: seq<Byte>)
    ensures LeValue(a + b) == LeValue(a) + Pow2(8 * |a|) * LeValue(b)
  {
    if a == [] {
      assert a + b == b;
    } else {
      assert (a + b)[0] == a[0] && (a + b)[1..] == a[1..] + b;
      LeValueAppend(a[1..], b);
      Pow2Of8();
      Pow2Sum(8, 8 * |a[1..]|);
      assert 8 * |a| == 8 + 8 * |a[1..]|;
      PullOut(a[0], LeValue(a[1..]), Pow2(8 * |a[1..]|), LeValue(b));
    }
  }

  lemma {:induction false} LeValueBound(a: seq<Byte>)
    ensures LeValue(a) < Pow2(8 * |a|)
  {
    if a == [] {
    } else {
      LeValueBound(a[1..]);
      Pow2Of8();
      Pow2Sum(8, 8 * |a[1..]|);
    }
  }

  lemma {:induction false} LeValueZero(a: seq<Byte>)
    ensures LeValue(a) == 0 <==> forall k :: 0 <= k < |a| ==> a[k] == 0
  {
    if a == [] {
    } else {
      LeValueZero(a[1..]);
      assert forall k :: 0 < k < |a| ==> a[k] == a[1..][k - 1];
    }
  }

  lemma {:induction false} Pow2Grows(j: nat, k: nat)
    requires j <= k
    ensures 1 <= Pow2(j) <= Pow2(k)
    decreases k
  {
    if j < k {
      Pow2Grows(j, k - 1);
    } else if j > 0 {
      Pow2Grows(j - 1, k - 1);
    }
  }

  lemma LeValueOneMore(bytes: seq<Byte>, i: nat)
    requires i < |bytes| && i < 16
    ensures LeValue(bytes[..i + 1]) == LeValue(bytes[..i]) + bytes[i] * Pow2(8 * i) < U128_LIMIT
  {
    assert bytes[..i + 1] == bytes[..i] + [bytes[i]];
    assert [bytes[i]][1..] == [];
    assert LeValue([bytes[i]]) == bytes[i];
    LeValueAppend(bytes[..i], [bytes[i]]);
    LeValueBound(bytes[..i + 1]);
    Pow2Grows(8 * (i + 1), 128);
    Pow2Of128();
  }

  // One round of either decoding loop.
  lemma DecodeRound(bytes: seq<Byte>, i: nat)
    requires i < |bytes| && i < 16
    ensures BitOr(LeValue(bytes[..i]), ShiftLeft(bytes[i], 8 * i)) == LeValue(bytes[..i + 1]) < U128_LIMIT
  {
    var shifted := bytes[i] * Pow2(8 * i);
    LeValueOneMore(bytes, i);
    LeValueBound(bytes[..i]);
    RemainderUnique(shifted, 0, shifted, U128_LIMIT);
    OrDisjoint(LeValue(bytes[..i]), bytes[i], 8 * i);
  }

  lemma LargeTail(bytes: seq<Byte>)
    requires |bytes| > 16 && LeValue(bytes[16..]) != 0
    ensures LeValue(bytes) > I64_MAX
  {
    assert bytes == bytes[..16] + bytes[16..];
    LeValueAppend(bytes[..16], bytes[16..]);
    Pow2Of128();
    var tail := LeValue(bytes[16..]);
    assert U128_LIMIT * tail >= U128_LIMIT;
  }

  // The `number` field of a cell: present exactly when the bytes are non-empty and denote
  // at most i64::MAX, whatever their length, and then exact.
  method ReadNumber(bytes: seq<Byte>) returns (number: Option<nat>)
    ensures number.Some? <==> bytes != [] && LeValue(bytes) <= I64_MAX
    ensures number.Some? ==> number.value == LeValue(bytes)
  {
    var n: nat := 0;
    var numBytes := if |bytes| < 16 then |bytes| else 16;
    var isSmall := |bytes| <= 16 || forall k :: 16 <= k < |bytes| ==> bytes[k] == 0;
    number := None;
    assert bytes == bytes[..numBytes] + bytes[numBytes..];
    LeValueAppend(bytes[..numBytes], bytes[numBytes..]);
    LeValueZero(bytes[numBytes..]);
    if isSmall && bytes != [] {
      for i := 0 to numBytes
        invariant n == LeValue(bytes[..i])
      {
        DecodeRound(bytes, i);
        n := BitOr(n, ShiftLeft(bytes[i], 8 * i));
      }
      if n <= I64_MAX {
        number := Some(n);
      }
    } else if bytes != [] {
      LargeTail(bytes);
    }
  }

  // ------------------------------------------------------------------ decimal output

  function ToDecimal(n: nat): string {
    if n < 10 then ["0123456789"[n]] else ToDecimal(n / 10) + ["0123456789"[n % 10]]
  }

  lemma {:induction false} DecimalRoundTrip(n: nat)
    ensures FromDecimal(ToDecimal(n)) == n
    ensures forall i :: 0 <= i < |ToDecimal(n)| ==> Digit(ToDecimal(n)[i])
    ensures n > 0 ==> ToDecimal(n)[0] != '0'
    ensures ToDecimal(n) != []
  {
    if n < 10 {
      assert ToDecimal(n)[..0] == [];
    } else {
      DecimalRoundTrip(n / 10);
      var s := ToDecimal(n);
      assert s[..|s| - 1] == ToDecimal(n / 10);
    }
  }

  // What `contract_value_to_big_int` prints: its first atom, taken mod 2^128.
  function PrintedValue(atoms: seq<seq<Byte>>): nat {
    if atoms == [] then 0 else LeValue(atoms[0]) % U128_LIMIT
  }

  lemma LowPart(low: nat, high: nat, p: nat, x: nat)
    requires 0 < p && low < p && x == low + p * high
    ensures x % p == low
  {
    assert p * high == high * p;
    RemainderUnique(x, high, low, p);
  }

  lemma TruncationIsModulo(bytes: seq<Byte>, n: nat)
    ensures LeValue(if |bytes| > n then bytes[..n] else bytes) == LeValue(bytes) % Pow2(8 * n)
  {
    if |bytes| > n {
      var low, high := bytes[..n], bytes[n..];
      assert bytes == low + high;
      LeValueAppend(low, high);
      LeValueBound(low);
      LowPart(LeValue(low), LeValue(high), Pow2(8 * n), LeValue(bytes));
    } else {
      LeValueBound(bytes);
      Pow2Grows(8 * |bytes|, 8 * n);
      LowPart(LeValue(bytes), 0, Pow2(8 * n), LeValue(bytes));
    }
  }

  method ValueToBigInt(atoms: seq<seq<Byte>>) returns (s: string)
    ensures FromDecimal(s) == PrintedValue(atoms)
    ensures s == ToDecimal(PrintedValue(atoms))
    ensures atoms == [] ==> s == "0"
    ensures atoms != [] ==> FromDecimal(s) == LeValue(atoms[0]) % U128_LIMIT
  {
    if atoms == [] || atoms[0] == [] {
      DecimalRoundTrip(0);
      return "0";
    }
    var bytes := atoms[0];
    var n: nat := 0;
    var numBytes := if |bytes| < 16 then |bytes| else 16;
    for i := 0 to numBytes
      invariant n == LeValue(bytes[..i])
    {
      DecodeRound(bytes, i);
      n := BitOr(n, ShiftLeft(bytes[i], 8 * i));
    }
    TruncationIsModulo(bytes, 16);
    Pow2Of128();
    assert bytes[..numBytes] == if |bytes| > 16 then bytes[..16] else bytes;
    assert n == PrintedValue(atoms);
    DecimalRoundTrip(n);
    s := ToDecimal(n);
  }

  // ------------------------------------------------------------------- truncation

  datatype Segment = Field | Compress | Bytes(length: nat) | Alternatives

  function TruncateAtom(atom: seq<Byte>, seg: Segment): seq<Byte> {
    if seg.Bytes? && |atom| > seg.length then atom[..seg.length] else atom
  }

  // `parse_aligned_value`: atoms beyond the alignment's segments count as fields.
  function TruncateAtoms(atoms: seq<seq<Byte>>, segs: seq<Segment>): (r: seq<seq<Byte>>)
  {
    if atoms == [] then []
    else
      [TruncateAtom(atoms[0], if segs == [] then Field else segs[0])]
      + TruncateAtoms(atoms[1..], if segs == [] then [] else segs[1..])
  }

  // No atom is dropped or added; one aligned to Bytes(N) is reduced mod 256^N and fits in
  // N bytes, every other one is untouched.
  lemma {:induction false} AlignedAtoms(atoms: seq<seq<Byte>>, segs: seq<Segment>)
    ensures |TruncateAtoms(atoms, segs)| == |atoms|
    ensures forall i :: 0 <= i < |atoms| ==>
      if i < |segs| && segs[i].Bytes? then
        && TruncateAtoms(atoms, segs)[i] <= atoms[i]
        && |TruncateAtoms(atoms, segs)[i]| == Min(|atoms[i]|, segs[i].length)
        && LeValue(TruncateAtoms(atoms, segs)[i]) == LeValue(atoms[i]) % Pow2(8 * segs[i].length)
      else TruncateAtoms(atoms, segs)[i] == atoms[i]
  {
    if atoms == [] {
    } else {
      AlignedAtoms(atoms[1..], if segs == [] then [] else segs[1..]);
      if segs != [] && segs[0].Bytes? {
        TruncationIsModulo(atoms[0], segs[0].length);
      }
    }
  }

  // ------------------------------------------------------------------- hexadecimal input

  predicate IsHex(s: string) {
    forall i :: 0 <= i < |s| ==> HexValue(s[i]).Some?
  }

  // The integer a hex string denotes.
  function HexNumber(s: string): nat {
    if s == [] then 0
    else 16 * HexNumber(s[..|s| - 1]) + (match HexValue(s[|s| - 1]) case Some(d) => d case None => 0)
  }

  lemma HexValueBound(c: char)
    ensures HexValue(c).Some? ==> HexValue(c).value < 16
  {
  }

  function DecodeHex(s: string): Option<seq<Byte>>
    requires |s| % 2 == 0
  {
    if s == [] then Some([])
    else
      match (DecodeHex(s[..|s| - 2]), HexValue(s[|s| - 2]), HexValue(s[|s| - 1]))
      case (Some(bs), Some(hi), Some(lo)) =>
        HexValueBound(s[|s| - 2]);
        HexValueBound(s[|s| - 1]);
        Some(bs + [16 * hi + lo])
      case _ => None
  }

  function Reversed<T>(s: seq<T>): seq<T> {
    if s == [] then [] else [s[|s| - 1]] + Reversed(s[..|s| - 1])
  }

  // A field element as an atom: least significant byte first, no trailing zeros.
  function FieldAtom(v: nat): seq<Byte> {
    if v == 0 then [] else [v % 256] + FieldAtom(v / 256)
  }

  function Padded(s: string): (p: string)
    ensures |p| % 2 == 0
  {
    if |s| % 2 == 1 then ['0'] + s else s
  }

  // `contract_big_int_to_value`; modulus is the order of the prime field.
  function BigIntToValue(s: string, modulus: nat): Result<seq<seq<Byte>>, string> {
    match DecodeHex(Padded(s))
    case None => Err("hex decode")
    case Some(bytes) =>
      var v := LeValue(Reversed(bytes));
      if v < modulus then Ok([FieldAtom(v)]) else Err("out of bounds for prime field")
  }

  lemma {:induction false} FieldAtomIsExact(v: nat)
    ensures LeValue(FieldAtom(v)) == v
    ensures FieldAtom(v) != [] ==> FieldAtom(v)[|FieldAtom(v)| - 1] != 0
  {
    if v != 0 {
      FieldAtomIsExact(v / 256);
    }
  }

  lemma LastPair(init: string, hi: char, lo: char)
    ensures IsHex(init + [hi, lo]) <==> IsHex(init) && HexValue(hi).Some? && HexValue(lo).Some?
    ensures HexValue(hi).Some? && HexValue(lo).Some? ==>
      HexNumber(init + [hi, lo]) == 256 * HexNumber(init) + (16 * HexValue(hi).value + HexValue(lo).value)
  {
    var s, n := init + [hi, lo], |init|;
    assert s[n] == hi && s[n + 1] == lo && forall i :: 0 <= i < n ==> s[i] == init[i];
    assert s[..n + 1] == init + [hi];
    assert s[..n + 1][..n] == init;
  }

  lemma LastByteFirst(bs: seq<Byte>, b: Byte)
    ensures LeValue(Reversed(bs + [b])) == b + 256 * LeValue(Reversed(bs))
  {
    assert (bs + [b])[..|bs|] == bs;
    assert Reversed(bs + [b]) == [b] + Reversed(bs);
  }

  lemma {:induction false} DecodedHexIsNumber(s: string)
    requires |s| % 2 == 0
    ensures DecodeHex(s).Some? <==> IsHex(s)
    ensures DecodeHex(s).Some? ==> LeValue(Reversed(DecodeHex(s).value)) == HexNumber(s)
  {
    if s == [] {
    } else {
      var init := s[..|s| - 2];
      DecodedHexIsNumber(init);
      LastPair(init, s[|s| - 2], s[|s| - 1]);
      assert s == init + [s[|s| - 2], s[|s| - 1]];
      if DecodeHex(s).Some? {
        var bs := DecodeHex(s).value;
        LastByteFirst(bs[..|bs| - 1], bs[|bs| - 1]);
        assert bs == bs[..|bs| - 1] + [bs[|bs| - 1]];
        assert bs[..|bs| - 1] == DecodeHex(init).value;
      }
    }
  }

  lemma {:induction false} LeadingZero(s: string)
    ensures HexNumber(['0'] + s) == HexNumber(s) && (IsHex(['0'] + s) <==> IsHex(s))
  {
    var z := ['0'] + s;
    if s == [] {
      assert z[..|z| - 1] == [];
    } else {
      LeadingZero(s[..|s| - 1]);
      assert z[..|z| - 1] == ['0'] + s[..|s| - 1];
    }
    assert forall i :: 0 <= i < |s| ==> s[i] == z[i + 1];
  }

  lemma PaddedHexIsNumber(s: string)
    ensures DecodeHex(Padded(s)).Some? <==> IsHex(s)
    ensures DecodeHex(Padded(s)).Some? ==> LeValue(Reversed(DecodeHex(Padded(s)).value)) == HexNumber(s)
  {
    LeadingZero(s);
    DecodedHexIsNumber(Padded(s));
  }

  // Hex in, decimal out: succeeds exactly on hex strings denoting a field element, and
  // prints that integer mod 2^128.
  lemma HexToDecimal(s: string, modulus: nat)
    ensures BigIntToValue(s, modulus).Ok? <==> IsHex(s) && HexNumber(s) < modulus
    ensures BigIntToValue(s, modulus).Ok? ==>
      var atoms := BigIntToValue(s, modulus).value; |atoms| == 1 && LeValue(atoms[0]) == HexNumber(s)
    ensures BigIntToValue(s, modulus).Ok? ==>
      PrintedValue(BigIntToValue(s, modulus).value) == HexNumber(s) % U128_LIMIT
  {
    PaddedHexIsNumber(s);
    FieldAtomIsExact(HexNumber(s));
  }
}
