/** Crockford Base32 bit by bit: the bits of the bytes, the highest first, five to a symbol. */
module Bits {
  import opened Types
  import opened Arithmetic
  import opened Codec

  /** Bit `i` of the bytes, counted from the highest bit of the first; beyond the end there are zeros. */
  function ByteBit(b: Bytes, i: nat): nat {
    if i / 8 < |b| then b[i / 8] / Pow2(7 - i % 8) % 2 else 0
  }

  /** Bit `i` of the symbol values, five to a symbol. */
  function SymbolBit(v: Symbols, i: nat): nat
    requires i < 5 * |v|
  {
    v[i / 5] / Pow2(4 - i % 5) % 2
  }

  /** The bit of a number that has `q` bits below it. */
  function BitAbove(n: nat, q: nat): nat {
    HighBits(n, q) % 2
  }

  // ------------------------------------------------------------------ bits of numbers ------

  lemma HighOfHigh(n: nat, a: nat, b: nat)
    ensures HighBits(HighBits(n, a), b) == HighBits(n, a + b)
  {
    hide Pow2;
    Pow2Adds(a, b);
    DivDiv(n, Pow2(a), Pow2(b));
  }

  /** Adding above the lowest `w` bits: those below stay, those above are the other number's. */
  lemma BitOfSum(n: nat, d: nat, w: nat, q: nat)
    requires d < Pow2(w)
    ensures BitAbove(ShiftLeft(n, w) + d, q) == if q < w then BitAbove(d, q) else BitAbove(n, q - w)
  {
    hide Pow2;
    if q < w {
      EvenPower(w - q);
      Pow2Adds(q, w - q);
      BitBelow(n, d, Pow2(q), Pow2(w - q - 1));
    } else {
      DivUnique(n * Pow2(w) + d, Pow2(w), n, d);
      HighOfHigh(n * Pow2(w) + d, w, q - w);
    }
  }

  lemma BitBelow(n: nat, d: nat, low: nat, half: nat)
    requires low > 0
    ensures (Times(n, low * (2 * half)) + d) / low % 2 == d / low % 2
  {
    var more := Times(half, n);
    Regroup(n, low, half);
    DivAdd(low, 2 * more, d);
    DivAdd(2, more, d / low);
  }

  lemma Regroup(n: nat, low: nat, half: nat)
    ensures Times(n, low * (2 * half)) == low * (2 * Times(half, n))
  {
    Associate(low, 2 * half, n);
    Associate(2, half, n);
  }

  lemma EvenPower(k: nat)
    requires k > 0
    ensures Pow2(k) == 2 * Pow2(k - 1)
  {
  }

  lemma ByteBelow(d: nat, w: nat)
    requires (w == 8 && d < 256) || (w == 5 && d < 32)
    ensures d < Pow2(w)
  {
    Pow2Values();
  }

  lemma {:induction false} NumberBit(b: Bytes, i: nat)
    requires i < 8 * |b|
    ensures BitAbove(NumberOfBytes(b), 8 * |b| - 1 - i) == ByteBit(b, i)
  {
    hide Pow2, HighBits;
    var most, last := b[..|b| - 1], b[|b| - 1];
    var q := 8 * |b| - 1 - i;
    ByteBelow(last, 8);
    Pow2Values();
    assert ShiftLeft(NumberOfBytes(most), 8) + last == NumberOfBytes(b);
    BitOfSum(NumberOfBytes(most), last, 8, q);
    if q < 8 {
      assert i / 8 == |b| - 1 && q == 7 - i % 8;
      OneBit(last, q);
    } else {
      NumberBit(most, i);
    }
  }

  lemma {:induction false} SymbolNumberBit(v: Symbols, i: nat)
    requires i < 5 * |v|
    ensures BitAbove(NumberOfSymbols(v), 5 * |v| - 1 - i) == SymbolBit(v, i)
  {
    hide Pow2, HighBits;
    var most, last := v[..|v| - 1], v[|v| - 1];
    var q := 5 * |v| - 1 - i;
    ByteBelow(last, 5);
    Pow2Values();
    assert ShiftLeft(NumberOfSymbols(most), 5) + last == NumberOfSymbols(v);
    BitOfSum(NumberOfSymbols(most), last, 5, q);
    if q < 5 {
      assert i / 5 == |v| - 1 && q == 4 - i % 5;
      OneBit(last, q);
    } else {
      SymbolNumberBit(most, i);
    }
  }

  lemma OneBit(d: nat, q: nat)
    ensures BitAbove(d, q) == d / Pow2(q) % 2
  {
  }

  /** A digit in base 32 is five bits. */
  lemma FiveBits(n: nat, q: nat)
    ensures HighBits(n, q) % 32 ==
      16 * BitAbove(n, q + 4) + 8 * BitAbove(n, q + 3) + 4 * BitAbove(n, q + 2) + 2 * BitAbove(n, q + 1) + BitAbove(n, q)
  {
    hide Pow2;
    var x := HighBits(n, q);
    HighOfHigh(n, q, 1);
    HighOfHigh(n, q, 2);
    HighOfHigh(n, q, 3);
    HighOfHigh(n, q, 4);
    Pow2Values();
    FiveDigits(x);
  }

  lemma FiveDigits(x: nat)
    ensures x % 32 == 16 * (x / 16 % 2) + 8 * (x / 8 % 2) + 4 * (x / 4 % 2) + 2 * (x / 2 % 2) + x % 2
  {
    DivDiv(x, 2, 2);
    DivDiv(x, 4, 2);
    DivDiv(x, 8, 2);
    DivDiv(x, 16, 2);
    FiveHalvings(x, x / 2, x / 4, x / 8, x / 16, x / 32);
  }

  lemma FiveHalvings(x: nat, a: nat, b: nat, c: nat, d: nat, e: nat)
    requires a == x / 2 && b == a / 2 && c == b / 2 && d == c / 2 && e == d / 2
    ensures x == 32 * e + 16 * (d % 2) + 8 * (c % 2) + 4 * (b % 2) + 2 * (a % 2) + x % 2
  {
  }

  lemma {:induction false} SymbolDigit(n: nat, len: nat, j: nat)
    requires j < len
    ensures SymbolsOfNumber(n, len)[j] == HighBits(n, 5 * (len - 1 - j)) % 32
  {
    hide Pow2;
    Pow2Values();
    if j < len - 1 {
      SymbolDigit(n / 32, len - 1, j);
      HighOfHigh(n, 5, 5 * (len - 2 - j));
    }
  }

  lemma {:induction false} ByteDigitBit(n: nat, len: nat, i: nat)
    requires i < 8 * len
    ensures ByteBit(BytesOfNumber(n, len), i) == BitAbove(n, 8 * len - 1 - i)
  {
    hide Pow2, HighBits;
    Pow2Values();
    var q := 8 * len - 1 - i;
    if i / 8 == len - 1 {
      assert q == 7 - i % 8 && q < 8;
      OneBit(n % 256, q);
      ByteBelow(n % 256, 8);
      BitOfSum(n / 256, n % 256, 8, q);
    } else {
      ByteDigitBit(n / 256, len - 1, i);
      HighOfHigh(n, 8, q - 8);
      DivideBy256(n);
    }
  }

  lemma DivideBy256(n: nat)
    ensures HighBits(n, 8) == n / 256
  {
    Pow2Values();
  }

  // ------------------------------------------------------------------ the encodings --------

  /** Bit `i` of the bytes, in their number padded with zeros at the end. */
  lemma PaddedBit(b: Bytes, pad: nat, i: nat)
    requires i < 8 * |b| + pad
    ensures BitAbove(ShiftLeft(NumberOfBytes(b), pad), 8 * |b| + pad - 1 - i) == ByteBit(b, i)
  {
    hide Pow2, HighBits;
    var n, q := NumberOfBytes(b), 8 * |b| + pad - 1 - i;
    PowerPositive(pad);
    BitOfSum(n, 0, pad, q);
    if q >= pad {
      NumberBit(b, i);
    } else {
      NoBit(q);
    }
  }

  lemma PowerPositive(k: nat)
    ensures 0 < Pow2(k)
  {
  }

  lemma NoBit(q: nat)
    ensures BitAbove(0, q) == 0
  {
    DivUnique(0, Pow2(q), 0, 0);
  }

  /** Symbol `j` of an encoding spells bits 5j to 5j + 4 of the bytes, and there are as many symbols as that
      takes. */
  lemma EncodedBits(b: Bytes, j: nat)
    requires j < (8 * |b| + 4) / 5
    ensures |CrockfordText(b)| == (8 * |b| + 4) / 5
    ensures var k := 16 * ByteBit(b, 5 * j) + 8 * ByteBit(b, 5 * j + 1) + 4 * ByteBit(b, 5 * j + 2) + 2 * ByteBit(b, 5 * j + 3)
                     + ByteBit(b, 5 * j + 4);
      k < 32 && CrockfordText(b)[j] == "0123456789ABCDEFGHJKMNPQRSTVWXYZ"[k]
  {
    hide Pow2, HighBits, ShiftLeft, NumberOfBytes, SymbolsOfNumber, BitAbove, ByteBit;
    var pad, count := Padding(|b|), SymbolCount(|b|);
    var n := ShiftLeft(NumberOfBytes(b), pad);
    var q := 5 * (count - 1 - j);
    SymbolDigit(n, count, j);
    FiveBits(n, q);
    PaddedBit(b, pad, 5 * j);
    PaddedBit(b, pad, 5 * j + 1);
    PaddedBit(b, pad, 5 * j + 2);
    PaddedBit(b, pad, 5 * j + 3);
    PaddedBit(b, pad, 5 * j + 4);
  }

  /** A text decodes if and only if all its characters are symbols and the bits beyond the last whole byte
      are zero, and then the bits of the bytes are those of the symbols. */
  lemma DecodedBits(s: string)
    ensures CrockfordBytes(s).Some? <==>
      AllSymbols(s) && forall i :: 8 * (5 * |s| / 8) <= i < 5 * |s| ==> SymbolBit(Values(s), i) == 0
    ensures CrockfordBytes(s).Some? ==>
      |CrockfordBytes(s).value| == 5 * |s| / 8
      && forall i :: 0 <= i < 8 * (5 * |s| / 8) ==> ByteBit(CrockfordBytes(s).value, i) == SymbolBit(Values(s), i)
  {
    hide Pow2, HighBits, LowBits, NumberOfSymbols, BytesOfNumber, BitAbove, ByteBit, SymbolBit, Values, AllSymbols;
    if AllSymbols(s) {
      var v := Values(s);
      var n, k, len := NumberOfSymbols(v), Leftover(|s|), 5 * |s| / 8;
      assert 8 * len + k == 5 * |s|;
      LowBitsZero(n, k);
      forall i | 0 <= i < 5 * |s| ensures BitAbove(n, 5 * |s| - 1 - i) == SymbolBit(v, i) {
        SymbolNumberBit(v, i);
      }
      assert LowBits(n, k) == 0 <==> forall i :: 8 * len <= i < 5 * |s| ==> SymbolBit(v, i) == 0 by {
        if LowBits(n, k) != 0 {
          var q :| 0 <= q < k && BitAbove(n, q) != 0;
          assert SymbolBit(v, 5 * |s| - 1 - q) != 0;
        }
      }
      forall i | 0 <= i < 8 * len ensures ByteBit(BytesOfNumber(HighBits(n, k), len), i) == SymbolBit(v, i) {
        ByteDigitBit(HighBits(n, k), len, i);
        BitOfHigh(n, k, 8 * len - 1 - i);
      }
    }
  }

  lemma BitOfHigh(n: nat, k: nat, q: nat)
    ensures BitAbove(HighBits(n, k), q) == BitAbove(n, k + q)
  {
    HighOfHigh(n, k, q);
  }

  /** The lowest bits of a number are zero when each of them is. */
  lemma {:induction false} LowBitsZero(n: nat, k: nat)
    ensures LowBits(n, k) == 0 <==> forall q :: 0 <= q < k ==> BitAbove(n, q) == 0
  {
    if k == 0 {
      NoShift(n);
    } else {
      LowBitsZero(n, k - 1);
      OneMoreLowBit(n, k - 1);
    }
  }

  lemma OneMoreLowBit(n: nat, k: nat)
    ensures LowBits(n, k + 1) == 0 <==> LowBits(n, k) == 0 && BitAbove(n, k) == 0
  {
    hide Pow2;
    EvenPower(k + 1);
    var p := Pow2(k);
    QuotientAndRest(n, p);
    HalfQuotient(n, p, n / p, n % p);
  }

  lemma HalfQuotient(n: nat, p: nat, q: nat, r: nat)
    requires p > 0 && n == p * q + r && r < p
    ensures n % (2 * p) == if q % 2 == 0 then r else p + r
  {
    var h := q / 2;
    Associate(2, p, h);
    Associate(p, 2, h);
    if q % 2 == 0 {
      assert q == 2 * h;
      DivUnique(n, 2 * p, h, r);
    } else {
      assert q == 2 * h + 1;
      Distribute(2 * h, 1, p);
      DivUnique(n, 2 * p, h, p + r);
    }
  }
}
