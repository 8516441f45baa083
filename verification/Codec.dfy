/** The Crockford Base32 of `scrigno-core`. The loops shift bits through a 32-bit accumulator that is
    never masked; what they compute is one number written in another base. */
module Codec {
  import opened Types
  import opened Arithmetic

  const WORD: nat := 0x1_0000_0000
  const CROCKFORD_ALPHABET: string := "0123456789ABCDEFGHJKMNPQRSTVWXYZ"

  // ------------------------------------------------------------------ numbers --------------

  function Pow2(k: nat): (r: nat)
    ensures r > 0
  {
    if k == 0 then 1 else 2 * Pow2(k - 1)
  }

  /** The number whose digits in base 256 are the bytes. */
  function NumberOfBytes(b: Bytes): nat {
    if b == [] then 0 else NumberOfBytes(b[..|b| - 1]) * 256 + b[|b| - 1]
  }

  type Symbols = s: seq<nat> | forall i :: 0 <= i < |s| ==> s[i] < 32 witness []

  /** The number whose digits in base 32 are the symbol values. */
  function NumberOfSymbols(v: Symbols): nat {
    if v == [] then 0 else NumberOfSymbols(v[..|v| - 1]) * 32 + v[|v| - 1]
  }

  function BytesOfNumber(n: nat, len: nat): (b: Bytes)
    ensures |b| == len
  {
    if len == 0 then [] else BytesOfNumber(n / 256, len - 1) + [n % 256]
  }

  function SymbolsOfNumber(n: nat, len: nat): (v: Symbols)
    ensures |v| == len
  {
    if len == 0 then [] else SymbolsOfNumber(n / 32, len - 1) + [n % 32]
  }

  lemma {:induction false} BytesOfNumberOfBytes(b: Bytes)
    ensures BytesOfNumber(NumberOfBytes(b), |b|) == b && NumberOfBytes(b) < Pow2(8 * |b|)
  {
    if b != [] {
      BytesOfNumberOfBytes(b[..|b| - 1]);
      Pow2Plus8(8 * |b| - 8);
    }
  }

  lemma {:induction false} SymbolsOfNumberOfSymbols(v: Symbols)
    ensures SymbolsOfNumber(NumberOfSymbols(v), |v|) == v && NumberOfSymbols(v) < Pow2(5 * |v|)
  {
    if v != [] {
      SymbolsOfNumberOfSymbols(v[..|v| - 1]);
      Pow2Plus5(5 * |v| - 5);
    }
  }

  lemma {:induction false} NumberOfBytesOfNumber(n: nat, len: nat)
    requires n < Pow2(8 * len)
    ensures NumberOfBytes(BytesOfNumber(n, len)) == n
  {
    if len > 0 {
      Pow2Plus8(8 * len - 8);
      NumberOfBytesOfNumber(n / 256, len - 1);
    }
  }

  lemma {:induction false} NumberOfSymbolsOfNumber(n: nat, len: nat)
    requires n < Pow2(5 * len)
    ensures NumberOfSymbols(SymbolsOfNumber(n, len)) == n
  {
    if len > 0 {
      Pow2Plus5(5 * len - 5);
      NumberOfSymbolsOfNumber(n / 32, len - 1);
    }
  }

  lemma Pow2Plus8(k: nat)
    ensures Pow2(k + 8) == 256 * Pow2(k)
  {
    Pow2Plus5(k);
    assert Pow2(k + 8) == 2 * Pow2(k + 7) && Pow2(k + 7) == 2 * Pow2(k + 6) && Pow2(k + 6) == 2 * Pow2(k + 5);
  }

  lemma Pow2Plus5(k: nat)
    ensures Pow2(k + 5) == 32 * Pow2(k)
  {
    assert Pow2(k + 5) == 2 * Pow2(k + 4) && Pow2(k + 4) == 2 * Pow2(k + 3) && Pow2(k + 3) == 2 * Pow2(k + 2);
    assert Pow2(k + 2) == 2 * Pow2(k + 1) && Pow2(k + 1) == 2 * Pow2(k);
  }

  lemma Pow2Values()
    ensures Pow2(0) == 1 && Pow2(1) == 2 && Pow2(2) == 4 && Pow2(3) == 8 && Pow2(4) == 16 && Pow2(5) == 32
    ensures Pow2(6) == 64 && Pow2(7) == 128 && Pow2(8) == 256 && Pow2(9) == 512 && Pow2(10) == 1024
    ensures Pow2(11) == 2048 && Pow2(12) == 4096
  {
    assert Pow2(3) == 8;
    assert Pow2(5) == 32;
    Pow2Plus5(1);
    Pow2Plus5(2);
    Pow2Plus5(3);
    Pow2Plus5(4);
    Pow2Plus5(5);
    Pow2Plus5(6);
    Pow2Plus5(7);
  }

  // ------------------------------------------------------------------ the alphabet ---------

  function ToAsciiUppercase(c: char): char {
    if 'a' <= c <= 'z' then (c as int - 32) as char else c
  }

  function Upper(s: string): (u: string)
    ensures |u| == |s| && forall i :: 0 <= i < |s| ==> u[i] == ToAsciiUppercase(s[i])
  {
    seq(|s|, i requires 0 <= i < |s| => ToAsciiUppercase(s[i]))
  }

  function IndexIn(alphabet: string, c: char): (r: Option<nat>)
    ensures r.Some? ==> r.value < |alphabet| && alphabet[r.value] == c
    ensures r.None? ==> c !in alphabet
  {
    if alphabet == "" then None
    else if alphabet[0] == c then Some(0)
    else
      var rest := IndexIn(alphabet[1..], c);
      if rest.Some? then Some(rest.value + 1) else None
  }

  /** `crockford_char_value`, which takes lower case too. */
  function CrockfordValue(c: char): (r: Option<nat>)
    ensures r.Some? ==> r.value < 32 && CROCKFORD_ALPHABET[r.value] == ToAsciiUppercase(c)
    ensures r.None? ==> ToAsciiUppercase(c) !in CROCKFORD_ALPHABET
  {
    IndexIn(CROCKFORD_ALPHABET, ToAsciiUppercase(c))
  }

  function Symbol(k: nat): char
    requires k < 32
  {
    CROCKFORD_ALPHABET[k]
  }

  predicate AllSymbols(s: string) {
    forall i :: 0 <= i < |s| ==> CrockfordValue(s[i]).Some?
  }

  function Values(s: string): (v: Symbols)
    requires AllSymbols(s)
    ensures |v| == |s|
  {
    seq(|s|, i requires 0 <= i < |s| => CrockfordValue(s[i]).value)
  }

  function Spell(v: Symbols): (s: string)
    ensures |s| == |v|
  {
    seq(|v|, i requires 0 <= i < |v| => Symbol(v[i]))
  }

  lemma {:induction false} ValueOfSymbol(k: nat)
    requires k < 32
    ensures CrockfordValue(CROCKFORD_ALPHABET[k]) == Some(k)
  {
    var c := CROCKFORD_ALPHABET[k];
    assert c == ToAsciiUppercase(c);
    DistinctSymbols(CrockfordValue(c).value, k);
  }

  lemma DistinctSymbols(i: nat, j: nat)
    requires i < 32 && j < 32 && CROCKFORD_ALPHABET[i] == CROCKFORD_ALPHABET[j]
    ensures i == j
  {
    SymbolCode(i);
    SymbolCode(j);
  }

  /** The alphabet is in ASCII order: digits, then letters without I, L, O and U. */
  lemma SymbolCode(i: nat)
    requires i < 32
    ensures CROCKFORD_ALPHABET[i] as int ==
      i + if i < 10 then 48 else if i < 18 then 55 else if i < 20 then 56 else if i < 22 then 57 else if i < 27 then 58 else 59
  {
  }

  lemma SpellValues(v: Symbols)
    ensures AllSymbols(Spell(v)) && Values(Spell(v)) == v && Upper(Spell(v)) == Spell(v)
  {
    forall i | 0 <= i < |v| ensures CrockfordValue(Spell(v)[i]) == Some(v[i]) && ToAsciiUppercase(Spell(v)[i]) == Spell(v)[i] {
      ValueOfSymbol(v[i]);
    }
  }

  lemma ValuesSpell(s: string)
    requires AllSymbols(s)
    ensures Spell(Values(s)) == Upper(s)
  {
  }

  // ------------------------------------------------------------------ shifts ---------------

  /** `n << k`, `n >> k` and `n & ((1 << k) - 1)` of unbounded numbers. */
  function ShiftLeft(n: nat, k: nat): nat {
    Times(n, Pow2(k))
  }

  function HighBits(n: nat, k: nat): nat {
    Quotient(n, Pow2(k))
  }

  function LowBits(n: nat, k: nat): nat {
    Rest(n, Pow2(k))
  }

  lemma NoShift(n: nat)
    ensures ShiftLeft(n, 0) == n && HighBits(n, 0) == n && LowBits(n, 0) == 0
  {
  }

  /** Shifting left by some bits and adding as many new ones does the same to a number and to its lowest
      32 bits. */
  lemma ShiftModulo(q: nat, bits: nat, d: nat, p: nat, rest: nat, word: nat)
    requires word > 0 && p * rest == word && d < p
    ensures bits * p % word + d == ((word * q + bits) * p + d) % word
  {
    ProductPositive(p, rest);
    QuotientAndRest(bits, rest);
    var high, low := bits / rest, bits % rest;
    Distribute(rest * high, low, p);
    Associate(p, rest, high);
    assert bits * p == word * high + low * p;
    Below(p, rest, low, d);
    DivUnique(bits * p, word, high, low * p);
    Distribute(word * q, bits, p);
    Associate(word, q, p);
    Distribute(q * p, high, word);
    DivUnique((word * q + bits) * p + d, word, q * p + high, low * p + d);
  }

  lemma ShiftInWord(total: nat, bits: nat, d: nat, w: nat)
    requires bits == total % WORD && (w == 5 || w == 8) && d < Pow2(w)
    ensures ShiftLeft(bits, w) % WORD + d == (ShiftLeft(total, w) + d) % WORD
  {
    hide Pow2;
    Pow2Values();
    QuotientAndRest(total, WORD);
    ShiftModulo(total / WORD, bits, d, Pow2(w), if w == 5 then 0x800_0000 else 0x100_0000, WORD);
  }

  /** The bits that were there are still there, further up. */
  lemma ShiftInHigh(total: nat, d: nat, w: nat, k: nat)
    requires (w == 5 || w == 8) && d < Pow2(w)
    ensures HighBits(ShiftLeft(total, w) + d, k + w) == HighBits(total, k)
  {
    hide Pow2;
    Pow2Values();
    Pow2Plus5(k);
    Pow2Plus8(k);
    var p := Pow2(w);
    DivDiv(total * p + d, p, Pow2(k));
    DivUnique(total * p + d, p, total, d);
  }

  /** The bits from `low` up to a word are those of the number. */
  lemma WordBits(total: nat, bits: nat, low: nat, p: nat, rest: nat)
    requires bits == total % WORD && low > 0 && p > 0 && low * (p * rest) == WORD
    ensures bits / low % p == total / low % p && bits % low == total % low
  {
    var q := total / WORD;
    QuotientAndRest(total, WORD);
    Associate(low, p * rest, q);
    DivAdd(low, p * rest * q, bits);
    Associate(p, rest, q);
    DivAdd(p, rest * q, bits / low);
  }

  /** Taking `w` bits out from above the lowest `k`: a word still has them. */
  lemma ShiftOut(total: nat, bits: nat, w: nat, k: nat)
    requires bits == total % WORD && (w == 5 || w == 8) && k < 8
    ensures HighBits(total, k) == HighBits(total, k + w) * Pow2(w) + HighBits(bits, k) % Pow2(w)
    ensures LowBits(bits, k) == LowBits(total, k)
  {
    WordHasBits(total, bits, w, k);
    HigherBits(total, w, k);
    hide Pow2, HighBits, LowBits;
    QuotientAndRest(HighBits(total, k), Pow2(w));
  }

  lemma WordHasBits(total: nat, bits: nat, w: nat, k: nat)
    requires bits == total % WORD && (w == 5 || w == 8) && k < 8
    ensures HighBits(bits, k) % Pow2(w) == HighBits(total, k) % Pow2(w) && LowBits(bits, k) == LowBits(total, k)
  {
    hide Pow2;
    var rest := WordParts(w, k);
    WordBits(total, bits, Pow2(k), Pow2(w), rest);
  }

  lemma HigherBits(total: nat, w: nat, k: nat)
    ensures HighBits(total, k + w) == HighBits(total, k) / Pow2(w)
  {
    hide Pow2;
    Pow2Adds(k, w);
    DivDiv(total, Pow2(k), Pow2(w));
  }

  lemma WordParts(w: nat, k: nat) returns (rest: nat)
    requires (w == 5 || w == 8) && k < 8
    ensures Pow2(k) * (Pow2(w) * rest) == WORD
  {
    hide Pow2;
    Pow2Values();
    var r := if k == 0 then 0x100_0000 else if k == 1 then 0x80_0000 else if k == 2 then 0x40_0000 else if k == 3 then 0x20_0000
      else if k == 4 then 0x10_0000 else if k == 5 then 0x8_0000 else if k == 6 then 0x4_0000 else 0x2_0000;
    assert Pow2(k) * r == 0x100_0000;
    rest := if w == 5 then 8 * r else r;
    assert Pow2(w) * rest == 256 * r;
    assert Pow2(k) * (256 * r) == 256 * (Pow2(k) * r);
  }

  /** The bits left at the end fill the high end of one more symbol. */
  lemma LastBits(total: nat, k: nat)
    requires 0 < k < 5
    ensures ShiftLeft(LowBits(total, k), 5 - k) < 32
    ensures HighBits(total, k) * 32 + ShiftLeft(LowBits(total, k), 5 - k) == ShiftLeft(total, 5 - k)
  {
    hide Pow2;
    Pow2Values();
    if k == 1 {
    } else if k == 2 {
    } else if k == 3 {
    } else {
    }
  }

  // ------------------------------------------------------------------ Crockford as numbers -

  /** How many symbols hold `n` bytes, and how many bits of the last one are padding. */
  function SymbolCount(n: nat): nat {
    (8 * n + 4) / 5
  }

  function Padding(n: nat): (r: nat)
    ensures r < 5 && 5 * SymbolCount(n) == 8 * n + r
  {
    5 * SymbolCount(n) - 8 * n
  }

  lemma CountOf(n: nat, m: nat, k: nat)
    requires 5 * m == 8 * n + k && k < 5
    ensures m == SymbolCount(n) && Padding(n) == k
  {
  }

  /** The encoding: the number the bytes denote, padded with zero bits, in base 32. */
  function CrockfordText(b: Bytes): string {
    Spell(SymbolsOfNumber(ShiftLeft(NumberOfBytes(b), Padding(|b|)), SymbolCount(|b|)))
  }

  /** The bits left over after the last whole byte of `n` symbols. */
  function Leftover(n: nat): nat {
    5 * n % 8
  }

  lemma LeftoverOf(n: nat, m: nat, k: nat)
    requires 8 * m == 5 * n - k && k < 8
    ensures Leftover(n) == k && m == 5 * n / 8
  {
  }

  /** The decoding: the number the symbols denote without its leftover bits, which must be zero, in
      base 256. */
  function CrockfordBytes(s: string): Option<Bytes> {
    if !AllSymbols(s) then None
    else
      var n, k := NumberOfSymbols(Values(s)), Leftover(|s|);
      if LowBits(n, k) != 0 then None else Some(BytesOfNumber(HighBits(n, k), 5 * |s| / 8))
  }

  // ------------------------------------------------------------------ Crockford with shifts

  /** After `n` bytes that make `total`: the accumulator is their number modulo a machine word, and the
      symbols written are all of it but the lowest `bitCount` bits. */
  ghost predicate Encoding(total: nat, n: nat, bits: nat, bitCount: nat, v: Symbols) {
    && bits == total % WORD && bitCount <= 12 && 5 * |v| == 8 * n - bitCount
    && NumberOfSymbols(v) == HighBits(total, bitCount)
  }

  /** `crockford_encode`. */
  method CrockfordEncode(input: Bytes) returns (out: string)
    ensures out == CrockfordText(input)
  {
    hide CrockfordText, Encoding, NumberOfBytes, NumberOfSymbols, ShiftLeft, HighBits, LowBits, Symbol;
    var bits: nat, bitCount: nat := 0, 0;
    ghost var total: nat, v: Symbols := 0, [];
    out := "";
    EncodingStarts(input);
    var i := 0;
    while i < |input|
      invariant 0 <= i <= |input| && total == NumberOfBytes(input[..i])
      invariant bitCount < 5 && out == Spell(v) && Encoding(total, i, bits, bitCount, v)
    {
      ByteIn(input, i, bits, bitCount, v);
      total := total * 256 + input[i];
      bits := ShiftLeft(bits, 8) % WORD + input[i];
      bitCount := bitCount + 8;
      while bitCount >= 5
        invariant out == Spell(v) && Encoding(total, i + 1, bits, bitCount, v)
      {
        bitCount := bitCount - 5;
        var idx := HighBits(bits, bitCount) % 32;
        SymbolOut(total, i + 1, bits, bitCount, v);
        out := out + [Symbol(idx)];
        v := v + [idx];
      }
      i := i + 1;
    }
    assert input[..i] == input;
    if bitCount > 0 {
      var remainder := LowBits(bits, bitCount);
      var idx := ShiftLeft(remainder, 5 - bitCount) % 32;
      LastSymbol(input, bits, bitCount, v);
      out := out + [Symbol(idx)];
    } else {
      NoLastSymbol(input, bits, v);
    }
  }

  lemma EncodingStarts(input: Bytes)
    ensures Encoding(0, 0, 0, 0, []) && NumberOfBytes(input[..0]) == 0
  {
    NoShift(0);
  }

  lemma ByteIn(input: Bytes, i: nat, bits: nat, k: nat, v: Symbols)
    requires i < |input| && k < 5 && Encoding(NumberOfBytes(input[..i]), i, bits, k, v)
    ensures var total := NumberOfBytes(input[..i]) * 256 + input[i];
      && total == NumberOfBytes(input[..i + 1])
      && Encoding(total, i + 1, ShiftLeft(bits, 8) % WORD + input[i], k + 8, v)
  {
    hide Pow2, HighBits;
    assert input[..i + 1][..i] == input[..i];
    Pow2Values();
    ShiftInWord(NumberOfBytes(input[..i]), bits, input[i], 8);
    ShiftInHigh(NumberOfBytes(input[..i]), input[i], 8, k);
  }

  lemma SymbolOut(total: nat, n: nat, bits: nat, k: nat, v: Symbols)
    requires k < 8 && Encoding(total, n, bits, k + 5, v)
    ensures HighBits(bits, k) % 32 < 32 && Encoding(total, n, bits, k, v + [HighBits(bits, k) % 32])
    ensures Spell(v + [HighBits(bits, k) % 32]) == Spell(v) + [Symbol(HighBits(bits, k) % 32)]
  {
    hide Pow2, HighBits, NumberOfSymbols, Spell;
    Pow2Values();
    ShiftOut(total, bits, 5, k);
    OneMoreSymbol(v, HighBits(bits, k) % 32);
  }

  lemma OneMoreSymbol(v: Symbols, d: nat)
    requires d < 32
    ensures var longer: Symbols := v + [d];
      NumberOfSymbols(longer) == NumberOfSymbols(v) * 32 + d && Spell(longer) == Spell(v) + [Symbol(d)]
  {
    var longer: Symbols := v + [d];
    assert longer[..|longer| - 1] == v;
  }

  lemma LastSymbol(input: Bytes, bits: nat, k: nat, v: Symbols)
    requires 0 < k < 5 && Encoding(NumberOfBytes(input), |input|, bits, k, v)
    ensures Spell(v) + [Symbol(ShiftLeft(LowBits(bits, k), 5 - k) % 32)] == CrockfordText(input)
  {
    hide Encoding, NumberOfBytes, NumberOfSymbols, Spell, LowBits, ShiftLeft, SymbolsOfNumber, CrockfordText, SymbolCount, Padding, Pow2,
         Symbol;
    var d := ShiftLeft(LowBits(bits, k), 5 - k);
    LastSymbolNumber(NumberOfBytes(input), |input|, bits, k, v);
    OneMoreSymbol(v, d);
    EncodedText(input, v + [d]);
    DivUnique(d, 32, 0, d);
  }

  lemma EncodedText(input: Bytes, v: Symbols)
    requires |v| == SymbolCount(|input|) && NumberOfSymbols(v) == ShiftLeft(NumberOfBytes(input), Padding(|input|))
    ensures Spell(v) == CrockfordText(input)
  {
    hide NumberOfBytes, NumberOfSymbols, Spell, ShiftLeft, SymbolsOfNumber, SymbolCount, Padding, Pow2;
    SymbolsOfNumberOfSymbols(v);
  }

  lemma LastSymbolNumber(total: nat, n: nat, bits: nat, k: nat, v: Symbols)
    requires 0 < k < 5 && Encoding(total, n, bits, k, v)
    ensures ShiftLeft(LowBits(bits, k), 5 - k) < 32
    ensures NumberOfSymbols(v) * 32 + ShiftLeft(LowBits(bits, k), 5 - k) == ShiftLeft(total, 5 - k)
    ensures |v| + 1 == SymbolCount(n) && Padding(n) == 5 - k
  {
    hide Pow2, HighBits, LowBits, ShiftLeft, NumberOfSymbols;
    ShiftOut(total, bits, 5, k);
    LastBits(total, k);
    CountOf(n, |v| + 1, 5 - k);
  }

  lemma NoLastSymbol(input: Bytes, bits: nat, v: Symbols)
    requires Encoding(NumberOfBytes(input), |input|, bits, 0, v)
    ensures Spell(v) == CrockfordText(input)
  {
    hide HighBits, ShiftLeft, NumberOfBytes, NumberOfSymbols, SymbolCount, Padding, SymbolsOfNumber;
    CountOf(|input|, |v|, 0);
    NoShift(NumberOfBytes(input));
    EncodedText(input, v);
  }

  /** After the symbols `v`: the bytes written are all of their number but the lowest `bitCount` bits. */
  ghost predicate Decoding(v: Symbols, bits: nat, bitCount: nat, out: Bytes) {
    && bits == NumberOfSymbols(v) % WORD && bitCount < 13 && 8 * |out| == 5 * |v| - bitCount
    && NumberOfBytes(out) == HighBits(NumberOfSymbols(v), bitCount)
  }

  /** `crockford_decode`. */
  method CrockfordDecode(input: string) returns (r: Option<Bytes>)
    ensures r == CrockfordBytes(input)
  {
    hide CrockfordBytes, Decoding, CrockfordValue, ShiftLeft, HighBits, LowBits;
    var bits: nat, bitCount: nat := 0, 0;
    ghost var v: Symbols := [];
    var out: Bytes := [];
    DecodingStarts();
    var i := 0;
    while i < |input|
      invariant 0 <= i <= |input| && |v| == i && (forall j :: 0 <= j < i ==> CrockfordValue(input[j]) == Some(v[j]))
      invariant bitCount < 8 && Decoding(v, bits, bitCount, out)
    {
      var val := CrockfordValue(input[i]);
      if val.None? {
        NotAllSymbols(input, i);
        return None;
      }
      SymbolIn(v, bits, bitCount, out, val.value);
      v := v + [val.value];
      bits := ShiftLeft(bits, 5) % WORD + val.value;
      bitCount := bitCount + 5;
      if bitCount >= 8 {
        bitCount := bitCount - 8;
        ByteOut(v, bits, bitCount, out);
        out := out + [HighBits(bits, bitCount) % 256];
      }
      i := i + 1;
    }
    AllDecoded(input, v, bits, out, bitCount);
    if bitCount > 0 {
      var remainder := LowBits(bits, bitCount);
      if remainder != 0 {
        return None;
      }
    }
    r := Some(out);
  }

  lemma NotAllSymbols(s: string, i: nat)
    requires i < |s| && CrockfordValue(s[i]).None?
    ensures CrockfordBytes(s) == None
  {
  }

  lemma DecodingStarts()
    ensures Decoding([], 0, 0, [])
  {
    NoShift(0);
  }

  lemma SymbolIn(v: Symbols, bits: nat, k: nat, out: Bytes, d: nat)
    requires k < 8 && d < 32 && Decoding(v, bits, k, out)
    ensures Decoding(v + [d], ShiftLeft(bits, 5) % WORD + d, k + 5, out)
  {
    hide Pow2, HighBits;
    OneMoreSymbol(v, d);
    Pow2Values();
    ShiftInWord(NumberOfSymbols(v), bits, d, 5);
    ShiftInHigh(NumberOfSymbols(v), d, 5, k);
  }

  lemma ByteOut(v: Symbols, bits: nat, k: nat, out: Bytes)
    requires k < 5 && Decoding(v, bits, k + 8, out)
    ensures Decoding(v, bits, k, out + [HighBits(bits, k) % 256])
  {
    hide Pow2, HighBits;
    Pow2Values();
    ShiftOut(NumberOfSymbols(v), bits, 8, k);
    var longer: Bytes := out + [HighBits(bits, k) % 256];
    assert longer[..|longer| - 1] == out;
  }

  lemma AllDecoded(s: string, v: Symbols, bits: nat, out: Bytes, k: nat)
    requires |v| == |s| && forall j :: 0 <= j < |s| ==> CrockfordValue(s[j]) == Some(v[j])
    requires k < 8 && Decoding(v, bits, k, out)
    ensures CrockfordBytes(s) == if k > 0 && LowBits(bits, k) != 0 then None else Some(out)
  {
    hide Pow2, NumberOfBytes, NumberOfSymbols, Leftover, LowBits, HighBits, BytesOfNumber;
    ShiftOut(NumberOfSymbols(v), bits, 5, k);
    NoShift(NumberOfSymbols(v));
    LeftoverOf(|s|, |out|, k);
    BytesOfNumberOfBytes(out);
    assert AllSymbols(s) && Values(s) == v;
  }

  // ------------------------------------------------------------------ Crockford, both ways -

  /** Decoding undoes encoding, for every byte string. */
  lemma CrockfordRoundTrip(b: Bytes)
    ensures CrockfordBytes(CrockfordText(b)) == Some(b)
  {
    hide Pow2, NumberOfSymbols, SymbolsOfNumber, BytesOfNumber, NumberOfBytes, ShiftLeft, HighBits, LowBits, Spell, Values, Leftover;
    var n, pad, len := NumberOfBytes(b), Padding(|b|), SymbolCount(|b|);
    BytesOfNumberOfBytes(b);
    PaddedBelow(n, pad, 8 * |b|);
    var v := SymbolsOfNumber(ShiftLeft(n, pad), len);
    NumberOfSymbolsOfNumber(ShiftLeft(n, pad), len);
    SpellValues(v);
    ShiftBack(n, pad);
    LeftoverOf(len, |b|, pad);
  }

  lemma PaddedBelow(n: nat, pad: nat, width: nat)
    requires n < Pow2(width)
    ensures ShiftLeft(n, pad) < Pow2(width + pad)
  {
    Pow2Adds(width, pad);
    MulAtLeast(Pow2(pad), Pow2(width) - n);
    Distribute(Pow2(width) - n, n, Pow2(pad));
  }

  lemma {:induction false} Pow2Adds(a: nat, b: nat)
    ensures Pow2(a + b) == Pow2(a) * Pow2(b)
  {
    if b > 0 {
      Pow2Adds(a, b - 1);
      assert Pow2(a + b) == 2 * Pow2(a + (b - 1)) && Pow2(b) == 2 * Pow2(b - 1);
    }
  }

  lemma ShiftBack(n: nat, k: nat)
    ensures HighBits(ShiftLeft(n, k), k) == n && LowBits(ShiftLeft(n, k), k) == 0
  {
    hide Pow2;
    DivUnique(n * Pow2(k), Pow2(k), n, 0);
  }

  lemma ShiftForth(n: nat, k: nat)
    requires LowBits(n, k) == 0
    ensures ShiftLeft(HighBits(n, k), k) == n
  {
    hide Pow2;
    QuotientAndRest(n, Pow2(k));
  }

  lemma HighBitsBelow(n: nat, k: nat, width: nat)
    requires n < Pow2(width + k)
    ensures HighBits(n, k) < Pow2(width)
  {
    hide Pow2;
    Pow2Adds(width, k);
    var p, q := Pow2(k), HighBits(n, k);
    QuotientAndRest(n, p);
    if q >= Pow2(width) {
      MulMono(Pow2(width), q, p);
    }
  }

  /** What decodes is, but for case, the encoding of what it decodes to, exactly when its length is one
      an encoding has: no more than four leftover bits. A longer text may still be accepted. */
  lemma CanonicalIffShort(s: string)
    requires CrockfordBytes(s).Some?
    ensures CrockfordText(CrockfordBytes(s).value) == Upper(s) <==> Leftover(|s|) < 5
  {
    hide Pow2, NumberOfSymbols, SymbolsOfNumber, BytesOfNumber, NumberOfBytes, ShiftLeft, HighBits, LowBits, Spell, Values, Upper;
    var b, k := CrockfordBytes(s).value, Leftover(|s|);
    assert 8 * |b| + k == 5 * |s|;
    if k < 5 {
      var v := Values(s);
      var n := NumberOfSymbols(v);
      CountOf(|b|, |s|, k);
      SymbolsOfNumberOfSymbols(v);
      HighBitsBelow(n, k, 8 * |b|);
      NumberOfBytesOfNumber(HighBits(n, k), |b|);
      ShiftForth(n, k);
      ValuesSpell(s);
    } else {
      assert |CrockfordText(b)| == SymbolCount(|b|) < |s|;
    }
  }

  /** One such text: a lone zero decodes to nothing, whose encoding is empty. */
  lemma LoneZeroDecodes()
    ensures CrockfordBytes("0") == Some([]) && CrockfordText([]) == ""
  {
    ValueOfSymbol(0);
    assert Symbol(0) == '0' && CrockfordValue("0"[0]) == Some(0);
    assert Values("0") == [0];
    assert [0][..0] == [];
    assert NumberOfSymbols([0]) == 0;
    assert Leftover(1) == 5 && 5 * 1 / 8 == 0;
    assert LowBits(0, 5) == 0;
  }
}
