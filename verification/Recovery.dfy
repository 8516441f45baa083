/** Recovery codes: 32 bytes as 52 Crockford symbols, shown in dashed groups of four. */
module Recovery {
  import opened Types
  import opened Codec

  const CODE_LEN: nat := 32
  const GROUP_LEN: nat := 4

  /** The Unicode property White_Space. */
  predicate IsWhitespace(c: char) {
    var n := c as int;
    || 9 <= n <= 13 || n == 32 || n == 0x85 || n == 0xA0 || n == 0x1680 || 0x2000 <= n <= 0x200A
    || n == 0x2028 || n == 0x2029 || n == 0x202F || n == 0x205F || n == 0x3000
  }

  predicate IsSeparator(c: char) {
    IsWhitespace(c) || c == '-'
  }

  /** A text without its separators. */
  function Cleaned(code: string): string {
    if code == "" then ""
    else Cleaned(code[..|code| - 1]) + if IsSeparator(code[|code| - 1]) then "" else [code[|code| - 1]]
  }

  /** The text with a dash before every fourth character but the first. */
  function Grouped(raw: string): string {
    if raw == "" then ""
    else
      var n := |raw| - 1;
      Grouped(raw[..n]) + (if n > 0 && n % GROUP_LEN == 0 then "-" else "") + [raw[n]]
  }

  /** `format_grouped`. */
  method FormatGrouped(raw: string) returns (out: string)
    ensures out == Grouped(raw)
  {
    out := "";
    var i := 0;
    while i < |raw|
      invariant 0 <= i <= |raw| && out == Grouped(raw[..i])
    {
      assert raw[..i + 1][..i] == raw[..i];
      if i > 0 && i % GROUP_LEN == 0 {
        out := out + "-";
      }
      out := out + [raw[i]];
      i := i + 1;
    }
    assert raw[..i] == raw;
  }

  /** `generate_code`, with the random bytes given. */
  method GenerateCode(bytes: Bytes) returns (code: string)
    requires |bytes| == CODE_LEN
    ensures code == Grouped(CrockfordText(bytes))
    ensures |code| == 64
  {
    var raw := CrockfordEncode(bytes);
    code := FormatGrouped(raw);
    GroupedLength(raw);
  }

  /** `parse_code`. A code is accepted exactly when, but for case, dashes and white space, it is the
      encoding of the 32 bytes it stands for. */
  method ParseCode(code: string) returns (r: Option<Bytes>)
    ensures r.Some? ==> |r.value| == 32 && Upper(Cleaned(code)) == CrockfordText(r.value)
    ensures forall b: Bytes :: |b| == 32 && Upper(Cleaned(code)) == CrockfordText(b) ==> r == Some(b)
  {
    hide CrockfordText, CrockfordBytes, Upper;
    var cleaned := "";
    var i := 0;
    while i < |code|
      invariant 0 <= i <= |code| && cleaned == Cleaned(code[..i])
    {
      assert code[..i + 1][..i] == code[..i];
      if !IsWhitespace(code[i]) && code[i] != '-' {
        cleaned := cleaned + [code[i]];
      }
      i := i + 1;
    }
    assert code[..i] == code;
    var decoded := CrockfordDecode(cleaned);
    SpellingIff(cleaned);
    if decoded.None? || |decoded.value| != CODE_LEN {
      return None;
    }
    r := decoded;
  }

  /** What decodes to 32 bytes is a spelling of their encoding, and the other way round. */
  lemma SpellingIff(s: string)
    ensures CrockfordBytes(s).Some? && |CrockfordBytes(s).value| == CODE_LEN ==>
              Upper(s) == CrockfordText(CrockfordBytes(s).value)
    ensures forall b: Bytes :: |b| == CODE_LEN && Upper(s) == CrockfordText(b) ==> CrockfordBytes(s) == Some(b)
  {
    hide CrockfordText, CrockfordBytes, Upper;
    if CrockfordBytes(s).Some? && |CrockfordBytes(s).value| == CODE_LEN {
      SymbolsOf32Bytes(s);
      CanonicalIffShort(s);
    }
    forall b: Bytes | |b| == CODE_LEN && Upper(s) == CrockfordText(b) ensures CrockfordBytes(s) == Some(b) {
      CaseDoesNotMatter(s);
      CrockfordRoundTrip(b);
    }
  }

  lemma SymbolsOf32Bytes(s: string)
    requires CrockfordBytes(s).Some? && |CrockfordBytes(s).value| == CODE_LEN
    ensures |s| == 52 && Leftover(|s|) == 4
  {
  }

  lemma CaseDoesNotMatter(s: string)
    ensures CrockfordBytes(Upper(s)) == CrockfordBytes(s)
  {
    hide LowBits, HighBits, NumberOfSymbols;
    assert forall i :: 0 <= i < |s| ==> CrockfordValue(Upper(s)[i]) == CrockfordValue(s[i]);
    if AllSymbols(s) {
      assert Values(Upper(s)) == Values(s);
    } else {
      var i :| 0 <= i < |s| && CrockfordValue(s[i]).None?;
      assert CrockfordValue(Upper(s)[i]).None?;
    }
  }

  lemma {:induction false} GroupedLength(raw: string)
    ensures |Grouped(raw)| == if raw == "" then 0 else |raw| + (|raw| - 1) / GROUP_LEN
  {
    if raw != "" {
      GroupedLength(raw[..|raw| - 1]);
    }
  }

  lemma {:induction false} CleanedGrouped(raw: string)
    requires forall i :: 0 <= i < |raw| ==> !IsSeparator(raw[i])
    ensures Cleaned(Grouped(raw)) == raw
  {
    if raw != "" {
      var n := |raw| - 1;
      CleanedGrouped(raw[..n]);
      var head := Grouped(raw[..n]);
      var dashed := head + if n > 0 && n % GROUP_LEN == 0 then "-" else "";
      assert Grouped(raw) == dashed + [raw[n]] && Grouped(raw)[..|dashed|] == dashed;
      assert dashed != head ==> dashed[..|head|] == head;
      assert raw == raw[..n] + [raw[n]];
    }
  }

  lemma SymbolsAreNoSeparators(b: Bytes)
    ensures forall i :: 0 <= i < |CrockfordText(b)| ==> !IsSeparator(CrockfordText(b)[i])
    ensures Upper(CrockfordText(b)) == CrockfordText(b)
  {
    hide SymbolsOfNumber, NumberOfBytes, ShiftLeft;
    var v := SymbolsOfNumber(ShiftLeft(NumberOfBytes(b), Padding(|b|)), SymbolCount(|b|));
    SpellValues(v);
    forall i | 0 <= i < |v| ensures !IsSeparator(Spell(v)[i]) {
      SymbolCode(v[i]);
    }
  }

  /** The code of 32 bytes is parsed back to them. */
  method GenerateThenParse(bytes: Bytes) returns (r: Option<Bytes>)
    requires |bytes| == CODE_LEN
    ensures r == Some(bytes)
  {
    var code := GenerateCode(bytes);
    SymbolsAreNoSeparators(bytes);
    CleanedGrouped(CrockfordText(bytes));
    r := ParseCode(code);
  }

  // ------------------------------------------------------------------ written out ----------

  /** Character `i` of a grouped text: every fifth is a dash. */
  lemma {:induction false} GroupedAt(raw: string, i: nat)
    requires i < |raw| + (|raw| - 1) / 4
    ensures |Grouped(raw)| == |raw| + (|raw| - 1) / 4
    ensures Grouped(raw)[i] == if i % 5 == 4 then '-' else raw[i - i / 5]
  {
    GroupedLength(raw);
    var n := |raw| - 1;
    var head := Grouped(raw[..n]);
    GroupedLength(raw[..n]);
    if i < |head| {
      GroupedAt(raw[..n], i);
    }
  }

  /** Dashes and white space do not count, wherever they are; letters and digits do. */
  lemma {:induction false} OnlySymbolsCount(a: string, c: char, b: string)
    ensures c == '-' || c == ' ' || 9 <= c as int <= 13 || c as int == 0xA0 ==> Cleaned(a + [c] + b) == Cleaned(a) + Cleaned(b)
    ensures '0' <= c <= '9' || 'A' <= c <= 'Z' || 'a' <= c <= 'z' ==> Cleaned(a + [c] + b) == Cleaned(a) + [c] + Cleaned(b)
  {
    if b == "" {
      assert a + [c] + b == a + [c] && (a + [c])[..|a|] == a;
    } else {
      var n := |b| - 1;
      OnlySymbolsCount(a, c, b[..n]);
      assert (a + [c] + b)[..|a| + 1 + n] == a + [c] + b[..n];
    }
  }

  /** Lower case counts as upper case. */
  lemma CaseIsIgnored(c: char)
    requires 'a' <= c <= 'z'
    ensures CrockfordValue(c) == CrockfordValue((c as int - 32) as char)
  {
  }
}
