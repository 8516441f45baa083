/** The padded Base64 of `scrigno-core` (section 4 of RFC 4648), three bytes at a time. */
module Base64 {
  import opened Types
  import opened Arithmetic

  const PAD: char := '='

  // ------------------------------------------------------------------ the alphabet ---------

  /** A to Z, a to z, 0 to 9, plus, slash. */
  function StdChar(k: nat): char
    requires k < 64
  {
    if k < 26 then (65 + k) as char
    else if k < 52 then (71 + k) as char
    else if k < 62 then (k - 4) as char
    else if k == 62 then '+' else '/'
  }

  /** `base64_char_value`: the position in the alphabet. */
  function CharValue(c: char): (r: Option<nat>)
    ensures r.Some? ==> r.value < 64 && StdChar(r.value) == c
    ensures r.None? ==> forall k | 0 <= k < 64 :: StdChar(k) != c
  {
    if 'A' <= c <= 'Z' then Some(c as int - 65)
    else if 'a' <= c <= 'z' then Some(c as int - 71)
    else if '0' <= c <= '9' then Some(c as int + 4)
    else if c == '+' then Some(62)
    else if c == '/' then Some(63)
    else None
  }

  lemma ValueOfChar(k: nat)
    requires k < 64
    ensures CharValue(StdChar(k)) == Some(k) && StdChar(k) != PAD
  {
  }

  // ------------------------------------------------------------------ one group ------------

  /** Three bytes as one number, and four characters as one number. */
  function FromBytes(a: nat, b: nat, c: nat): nat {
    a * 65_536 + b * 256 + c
  }

  function FromValues(a: nat, b: nat, c: nat, d: nat): nat {
    a * 262_144 + b * 4_096 + c * 64 + d
  }

  /** The four characters of up to three bytes: a missing byte counts as zero and its character becomes
      padding. */
  function EncodeGroup(g: Bytes): (s: string)
    requires 1 <= |g| <= 3
    ensures |s| == 4
  {
    var n := FromBytes(g[0], if |g| > 1 then g[1] else 0, if |g| > 2 then g[2] else 0);
    [StdChar(n / 262_144), StdChar(n / 4_096 % 64),
     if |g| > 1 then StdChar(n / 64 % 64) else PAD, if |g| > 2 then StdChar(n % 64) else PAD]
  }

  /** How many characters at the end are padding, of the last three. */
  function Pads(s: string): nat
    requires |s| == 4
  {
    if s[3] != PAD then 0 else if s[2] != PAD then 1 else if s[1] != PAD then 2 else 3
  }

  predicate Data(c: char) {
    CharValue(c).Some?
  }

  /** Data characters and behind them no more than two of padding. */
  predicate WellFormed(s: string)
    requires |s| == 4
  {
    && Pads(s) <= 2 && Data(s[0]) && Data(s[1]) && (Pads(s) < 2 ==> Data(s[2])) && (Pads(s) < 1 ==> Data(s[3]))
  }

  function Value(c: char): (v: nat)
    ensures v < 64
  {
    var v := CharValue(c);
    if v.Some? then v.value else 0
  }

  /** As many bytes are missing as there are padding characters. */
  function DecodeGroup(s: string): (r: Option<Bytes>)
    requires |s| == 4
    ensures r.Some? <==> WellFormed(s)
    ensures r.Some? ==> 1 <= |r.value| == 3 - Pads(s) <= 3
  {
    if !WellFormed(s) then None
    else
      var n := FromValues(Value(s[0]), Value(s[1]), Value(s[2]), Value(s[3]));
      Some([n / 65_536, n / 256 % 256, n % 256][..3 - Pads(s)])
  }

  // ------------------------------------------------------------------ whole texts ----------

  function Encoded(b: Bytes): string {
    if b == [] then ""
    else
      var k := if |b| < 3 then |b| else 3;
      EncodeGroup(b[..k]) + Encoded(b[k..])
  }

  function Decoded(s: string): Option<Bytes> {
    if s == "" then Some([])
    else if |s| % 4 != 0 then None
    else Joined(DecodeGroup(s[..4]), Decoded(s[4..]))
  }

  function Joined(a: Option<Bytes>, b: Option<Bytes>): Option<Bytes> {
    if a.None? || b.None? then None else Some(a.value + b.value)
  }

  lemma JoinedTwice(a: Bytes, b: Option<Bytes>, c: Option<Bytes>)
    ensures Joined(Some(a), Joined(b, c)) == Joined(Joined(Some(a), b), c)
  {
    if b.Some? && c.Some? {
      assert a + (b.value + c.value) == a + b.value + c.value;
    }
  }

  /** `base64_encode`. */
  method Encode(input: Bytes) returns (out: string)
    ensures out == Encoded(input)
  {
    hide EncodeGroup;
    out := "";
    var i := 0;
    assert input[0..] == input;
    while i < |input|
      invariant 0 <= i <= |input| && out + Encoded(input[i..]) == Encoded(input)
    {
      var end := if i + 3 <= |input| then i + 3 else |input|;
      assert input[i..end] == input[i..][..end - i] && input[end..] == input[i..][end - i..];
      out := out + EncodeGroup(input[i..end]);
      i := end;
    }
  }

  /** `base64_decode`. */
  method Decode(input: string) returns (r: Option<Bytes>)
    ensures r == Decoded(input)
  {
    if input == "" {
      return Some([]);
    }
    if |input| % 4 != 0 {
      return None;
    }
    hide DecodeGroup, Joined, Decoded;
    var out: Bytes := [];
    var i := 0;
    ghost var groups, done := |input| / 4, 0;
    QuotientAndRest(|input|, 4);
    DecodingStarts(input);
    while i < |input|
      invariant i == 4 * done && done <= groups
      invariant Decoded(input) == Joined(Some(out), Decoded(input[i..]))
    {
      RestOf(input, i, groups - done);
      var group := DecodeChunk(input[i..i + 4]);
      JoinedTwice(out, group, Decoded(input[i + 4..]));
      JoinedCases(out, group, Decoded(input[i + 4..]));
      if group.None? {
        return None;
      }
      out := out + group.value;
      i := i + 4;
      done := done + 1;
    }
    DecodingEnds(input, out, i);
    r := Some(out);
  }

  lemma RestOf(s: string, i: nat, groups: nat)
    requires i + 4 * groups == |s| && groups > 0
    ensures Decoded(s[i..]) == Joined(DecodeGroup(s[i..i + 4]), Decoded(s[i + 4..]))
  {
    hide DecodeGroup, Joined, Decoded;
    assert s[i..] == s[i..i + 4] + s[i + 4..];
    DivUnique(|s| - i - 4, 4, groups - 1, 0);
    DecodedStep(s[i..i + 4], s[i + 4..]);
  }

  lemma DecodingStarts(s: string)
    ensures Decoded(s) == Joined(Some([]), Decoded(s[0..]))
  {
    assert s[0..] == s;
    var d := Decoded(s);
    assert d.Some? ==> [] + d.value == d.value;
  }

  lemma JoinedCases(a: Bytes, b: Option<Bytes>, c: Option<Bytes>)
    ensures b.None? ==> Joined(Some(a), Joined(b, c)) == None
    ensures b.Some? ==> Joined(Some(a), b) == Some(a + b.value)
  {
  }

  lemma DecodingEnds(s: string, out: Bytes, i: nat)
    requires i == |s|
    ensures Joined(Some(out), Decoded(s[i..])) == Some(out)
  {
    assert out + [] == out;
  }

  /** The body of the loop in `base64_decode`: padding is counted, and data behind padding refused. */
  method DecodeChunk(chunk: string) returns (r: Option<Bytes>)
    requires |chunk| == 4
    ensures r == DecodeGroup(chunk)
  {
    hide CharValue, FromValues, DecodeGroup, WellFormed, Pads;
    var vals: seq<nat>, pad := [0, 0, 0, 0], 0;
    var i := 0;
    while i < 4
      invariant 0 <= i <= 4 && |vals| == 4 && 0 <= pad <= i
      invariant forall j :: 0 <= j < i ==> vals[j] == Value(chunk[j])
      invariant forall j :: 0 <= j < i - pad ==> Data(chunk[j])
      invariant forall j :: i - pad <= j < i ==> chunk[j] == PAD
    {
      PadIsNoData();
      if chunk[i] == PAD {
        pad := pad + 1;
        vals := vals[i := 0];
      } else {
        if pad > 0 {
          DataBehindPadding(chunk, i - pad, i);
          return None;
        }
        var v := CharValue(chunk[i]);
        if v.None? {
          NoSuchCharacter(chunk, i);
          return None;
        }
        vals := vals[i := v.value];
      }
      i := i + 1;
    }
    PadsCounted(chunk, pad);
    if pad > 2 {
      return None;
    }
    var n := FromValues(vals[0], vals[1], vals[2], vals[3]);
    Decodes(chunk);
    var out: Bytes := [n / 65_536 % 256];
    if pad < 2 {
      out := out + [n / 256 % 256];
    }
    if pad < 1 {
      out := out + [n % 256];
    }
    assert out == [n / 65_536, n / 256 % 256, n % 256][..3 - pad];
    r := Some(out);
  }

  lemma PadIsNoData()
    ensures CharValue(PAD) == None && Value(PAD) == 0 && !Data(PAD)
  {
  }

  lemma DataBehindPadding(s: string, j: nat, i: nat)
    requires |s| == 4 && j < i < 4 && s[j] == PAD && s[i] != PAD
    ensures DecodeGroup(s) == None
  {
    PadIsNoData();
    hide CharValue;
  }

  lemma NoSuchCharacter(s: string, i: nat)
    requires |s| == 4 && i < 4 && s[i] != PAD && CharValue(s[i]).None?
    ensures DecodeGroup(s) == None
  {
    hide CharValue;
  }

  lemma PadsCounted(s: string, pad: nat)
    requires |s| == 4 && pad <= 4 && (forall j :: 0 <= j < 4 - pad ==> Data(s[j])) && forall j :: 4 - pad <= j < 4 ==> s[j] == PAD
    ensures pad > 2 ==> DecodeGroup(s) == None
    ensures pad <= 2 ==> WellFormed(s) && Pads(s) == pad
  {
    PadIsNoData();
    hide CharValue;
  }

  lemma Decodes(s: string)
    requires |s| == 4 && WellFormed(s)
    ensures var n := FromValues(Value(s[0]), Value(s[1]), Value(s[2]), Value(s[3]));
      && n / 65_536 % 256 == n / 65_536
      && DecodeGroup(s) == Some([n / 65_536, n / 256 % 256, n % 256][..3 - Pads(s)])
  {
    hide WellFormed, Pads, Value;
  }

  // ------------------------------------------------------------------ both ways ------------

  lemma ValuesOfNumber(n: nat)
    requires n < 16_777_216
    ensures n / 262_144 < 64 && FromValues(n / 262_144, n / 4_096 % 64, n / 64 % 64, n % 64) == n
  {
    var a, b := n / 64, n / 4_096;
    assert a / 64 == b && b / 64 == n / 262_144;
    assert n == a * 64 + n % 64 && a == b * 64 + a % 64 && b == b / 64 * 64 + b % 64;
  }

  lemma BytesOfNumber(a: byte, b: byte, c: byte)
    ensures var n := FromBytes(a, b, c);
      n < 16_777_216 && n / 65_536 == a && n / 256 % 256 == b && n % 256 == c
  {
    var n := FromBytes(a, b, c);
    DivUnique(n, 65_536, a, b * 256 + c);
    DivUnique(n, 256, a * 256 + b, c);
    DivUnique(a * 256 + b, 256, a, b);
  }

  /** A missing byte leaves no bits in the characters that become padding. */
  lemma MissingBytes(a: nat, b: nat)
    ensures FromBytes(a, b, 0) % 64 == 0 && FromBytes(a, 0, 0) / 64 % 64 == 0
  {
    DivUnique(FromBytes(a, b, 0), 64, a * 1_024 + b * 4, 0);
    DivUnique(FromBytes(a, 0, 0), 64, a * 1_024, 0);
    DivUnique(a * 1_024, 64, a * 16, 0);
  }

  lemma GroupRoundTrip(g: Bytes)
    requires 1 <= |g| <= 3
    ensures DecodeGroup(EncodeGroup(g)) == Some(g) && Pads(EncodeGroup(g)) == 3 - |g|
  {
    hide CharValue, StdChar, FromBytes, FromValues;
    var b, c := if |g| > 1 then g[1] else 0, if |g| > 2 then g[2] else 0;
    var n, s := FromBytes(g[0], b, c), EncodeGroup(g);
    BytesOfNumber(g[0], b, c);
    ValuesOfNumber(n);
    ValueOfChar(n / 262_144);
    ValueOfChar(n / 4_096 % 64);
    ValueOfChar(n / 64 % 64);
    ValueOfChar(n % 64);
    PadIsNoData();
    MissingBytes(g[0], b);
    assert FromValues(Value(s[0]), Value(s[1]), Value(s[2]), Value(s[3])) == n;
    assert g == [g[0], b, c][..|g|];
  }

  /** Decoding undoes encoding, for every byte string. */
  lemma {:induction false} RoundTrip(b: Bytes)
    ensures Decoded(Encoded(b)) == Some(b) && |Encoded(b)| == (|b| + 2) / 3 * 4
  {
    hide EncodeGroup, DecodeGroup, Pads, Encoded, Decoded;
    EncodedStep(b);
    if b != [] {
      var k := if |b| < 3 then |b| else 3;
      var rest := b[k..];
      RoundTrip(rest);
      GroupRoundTrip(b[..k]);
      DecodedStep(EncodeGroup(b[..k]), Encoded(rest));
      assert b == b[..k] + rest;
    }
  }

  lemma EncodedStep(b: Bytes)
    ensures b == [] ==> Encoded(b) == "" && Decoded(Encoded(b)) == Some(b)
    ensures b != [] ==> var k := if |b| < 3 then |b| else 3; Encoded(b) == EncodeGroup(b[..k]) + Encoded(b[k..])
  {
  }

  lemma DecodedStep(a: string, t: string)
    requires |a| == 4 && |t| % 4 == 0
    ensures Decoded(a + t) == Joined(DecodeGroup(a), Decoded(t))
  {
    hide DecodeGroup, Joined;
    assert (a + t)[..4] == a && (a + t)[4..] == t;
    assert |a + t| == |t| / 4 * 4 + 4;
  }

  /** Padding in the last group only, and the bits that belong to no byte are zero. */
  predicate Canonical(s: string)
    requires |s| % 4 == 0
  {
    s == "" || (CanonicalGroup(s[..4]) && Canonical(s[4..]) && (s[4..] == "" || Pads(s[..4]) == 0))
  }

  predicate CanonicalGroup(s: string)
    requires |s| == 4
  {
    (Pads(s) == 1 ==> Value(s[2]) % 4 == 0) && (Pads(s) == 2 ==> Value(s[1]) % 16 == 0)
  }

  lemma GroupCanonicalIff(s: string)
    requires |s| == 4 && WellFormed(s)
    ensures EncodeGroup(DecodeGroup(s).value) == s <==> CanonicalGroup(s)
  {
    hide CharValue, StdChar, FromBytes, FromValues;
    var v0, v1, v2, v3 := Value(s[0]), Value(s[1]), Value(s[2]), Value(s[3]);
    var n, g := FromValues(v0, v1, v2, v3), DecodeGroup(s).value;
    PadIsNoData();
    DroppedBits(v0, v1, v2, v3);
    var w1 := if Pads(s) == 2 then v1 - v1 % 16 else v1;
    var w2 := if Pads(s) == 1 then v2 - v2 % 4 else v2;
    ValuesBack(v0, w1, w2, v3);
    assert FromBytes(g[0], if |g| > 1 then g[1] else 0, if |g| > 2 then g[2] else 0) == FromValues(v0, w1, w2, v3);
    assert s[0] == StdChar(v0) && s[1] == StdChar(v1);
    ValueOfChar(v1);
    ValueOfChar(w1);
    ValueOfChar(v2);
    ValueOfChar(w2);
  }

  lemma ValuesBack(a: nat, b: nat, c: nat, d: nat)
    requires a < 64 && b < 64 && c < 64 && d < 64
    ensures var n := FromValues(a, b, c, d);
      n / 262_144 == a && n / 4_096 % 64 == b && n / 64 % 64 == c && n % 64 == d
  {
    var n := FromValues(a, b, c, d);
    assert n / 64 == a * 4_096 + b * 64 + c;
    assert n / 4_096 == a * 64 + b;
  }

  /** What is left of four values when the bits that make no byte are dropped. */
  lemma DroppedBits(a: nat, b: nat, c: nat, d: nat)
    requires a < 64 && b < 64 && c < 64 && d < 64
    ensures var n := FromValues(a, b, c, d);
      && FromBytes(n / 65_536, n / 256 % 256, n % 256) == n
      && (d == 0 ==> FromBytes(n / 65_536, n / 256 % 256, 0) == FromValues(a, b, c - c % 4, 0))
      && (d == 0 && c == 0 ==> FromBytes(n / 65_536, 0, 0) == FromValues(a, b - b % 16, 0, 0))
  {
    var n := FromValues(a, b, c, d);
    QuotientAndRest(b, 16);
    QuotientAndRest(c, 4);
    DivUnique(n, 65_536, a * 4 + b / 16, b % 16 * 4_096 + c * 64 + d);
    DivUnique(n, 256, a * 1_024 + b * 16 + c / 4, c % 4 * 64 + d);
    DivUnique(a * 1_024 + b * 16 + c / 4, 256, a * 4 + b / 16, b % 16 * 16 + c / 4);
  }

  lemma NothingFromNothing(s: string)
    requires Decoded(s).Some?
    ensures s == "" <==> Decoded(s).value == []
  {
  }

  /** An encoding never has padding anywhere but at its end. */
  lemma PaddedInside(s: string)
    requires |s| >= 8 && Decoded(s).Some? && DecodeGroup(s[..4]).Some? && Pads(s[..4]) > 0
    ensures Encoded(Decoded(s).value) != s
  {
    hide EncodeGroup, DecodeGroup;
    var b := Decoded(s).value;
    var k := if |b| < 3 then |b| else 3;
    if b != [] {
      GroupRoundTrip(b[..k]);
      assert Encoded(b)[..4] == EncodeGroup(b[..k]);
      if |b| < 3 {
        assert b[k..] == [];
        assert |Encoded(b)| == 4;
      }
    }
  }

  /** A text that decodes is the encoding of what it decodes to exactly when it is canonical. The decoder
      accepts more: padding inside the text, and leftover bits that are not zero. */
  lemma {:induction false} CanonicalIff(s: string)
    requires Decoded(s).Some?
    ensures |s| % 4 == 0 && (Encoded(Decoded(s).value) == s <==> Canonical(s))
  {
    hide EncodeGroup, DecodeGroup, CanonicalGroup, Pads, WellFormed;
    if s != "" {
      var g, rest := DecodeGroup(s[..4]).value, Decoded(s[4..]).value;
      GroupCanonicalIff(s[..4]);
      CanonicalIff(s[4..]);
      NothingFromNothing(s[4..]);
      assert s == s[..4] + s[4..];
      if |g| == 3 || rest == [] {
        var k := |g|;
        assert (g + rest)[..k] == g && (g + rest)[k..] == rest;
        assert Encoded(g + rest) == EncodeGroup(g) + Encoded(rest);
      } else {
        PaddedInside(s);
      }
    }
  }

  /** One such text: its leftover bits are not zero. */
  lemma LeftoverBitsAreDropped()
    ensures Decoded("AB==") == Some([0]) && Encoded([0]) != "AB=="
  {
    hide DecodeGroup, EncodeGroup, Encoded, CanonicalGroup;
    OneGroup();
    var s, b: Bytes := "AB==", [0];
    assert s[..4] == s && s[4..] == "" && b + [] == b;
    assert Decoded("") == Some([]);
    CanonicalIff(s);
  }

  lemma OneGroup()
    ensures DecodeGroup("AB==") == Some([0]) && !CanonicalGroup("AB==")
  {
    hide CharValue, FromValues, Value;
    var s: string := ['A', 'B', '=', '='];
    assert s == "AB==";
    FirstLetters();
    var bytes: Bytes := [0, 16, 0];
    assert Pads(s) == 2 && bytes[..1] == [0];
  }

  lemma FirstLetters()
    ensures Data('A') && Data('B') && FromValues(Value('A'), Value('B'), Value('='), Value('=')) == 4_096 && Value('B') == 1
  {
  }

  // ------------------------------------------------------------------ written out ----------

  /** The alphabet of section 4 of RFC 4648, by character codes. */
  lemma StandardAlphabet(k: nat)
    requires k < 64
    ensures StdChar(k) as int ==
      if k < 26 then 65 + k else if k < 52 then 97 + k - 26 else if k < 62 then 48 + k - 52 else if k == 62 then 43 else 47
  {
  }

  /** Group `i` of an encoding spells the next three bytes, six bits to a character; for a byte that is
      missing there is padding. */
  lemma {:induction false} EncodedAt(b: Bytes, i: nat)
    requires 3 * i < |b|
    ensures 4 * i + 4 <= |Encoded(b)|
    ensures var x, y, z := b[3 * i], if 3 * i + 1 < |b| then b[3 * i + 1] else 0, if 3 * i + 2 < |b| then b[3 * i + 2] else 0;
      Encoded(b)[4 * i..4 * i + 4] ==
        [StdChar(x / 4), StdChar(x % 4 * 16 + y / 16),
         if 3 * i + 1 < |b| then StdChar(y % 16 * 4 + z / 64) else '=', if 3 * i + 2 < |b| then StdChar(z % 64) else '=']
  {
    hide EncodeGroup, StdChar, Encoded;
    var k := if |b| < 3 then |b| else 3;
    FirstGroup(b, k);
    if i == 0 {
      GroupSpelled(b[..k]);
    } else {
      var rest := b[3..];
      EncodedAt(rest, i - 1);
      assert Encoded(b)[4 * i..4 * i + 4] == Encoded(rest)[4 * (i - 1)..4 * (i - 1) + 4];
      assert rest[3 * (i - 1)] == b[3 * i];
    }
  }

  lemma FirstGroup(b: Bytes, k: nat)
    requires b != [] && k == if |b| < 3 then |b| else 3
    ensures Encoded(b) == EncodeGroup(b[..k]) + Encoded(b[k..])
  {
    hide EncodeGroup;
  }

  lemma GroupSpelled(g: Bytes)
    requires 1 <= |g| <= 3
    ensures var x, y, z := g[0], if |g| > 1 then g[1] else 0, if |g| > 2 then g[2] else 0;
      EncodeGroup(g) ==
        [StdChar(x / 4), StdChar(x % 4 * 16 + y / 16),
         if |g| > 1 then StdChar(y % 16 * 4 + z / 64) else '=', if |g| > 2 then StdChar(z % 64) else '=']
  {
    hide StdChar;
    var x, y, z := g[0], if |g| > 1 then g[1] else 0, if |g| > 2 then g[2] else 0;
    SixBits(x, y, z);
  }

  lemma SixBits(x: byte, y: byte, z: byte)
    ensures var n := FromBytes(x, y, z);
      n / 262_144 == x / 4 && n / 4_096 % 64 == x % 4 * 16 + y / 16 && n / 64 % 64 == y % 16 * 4 + z / 64 && n % 64 == z % 64
  {
    var n := FromBytes(x, y, z);
    var a, b, c := x * 1_024 + y * 4 + z / 64, x * 16 + y / 16, x / 4;
    DivUnique(n, 64, a, z % 64);
    DivUnique(n, 4_096, b, y % 16 * 256 + z);
    DivUnique(n, 262_144, c, x % 4 * 65_536 + y * 256 + z);
    DivUnique(a, 64, b, y % 16 * 4 + z / 64);
    DivUnique(b, 64, c, x % 4 * 16 + y / 16);
  }

  /** What a group of four characters decodes to. */
  lemma GroupRead(s: string)
    requires |s| == 4
    ensures var v0, v1, v2, v3 := CharValue(s[0]), CharValue(s[1]), CharValue(s[2]), CharValue(s[3]);
      DecodeGroup(s) ==
        if v0.None? || v1.None? then None
        else if s[2] == '=' && s[3] == '=' then Some([v0.value * 4 + v1.value / 16])
        else if v2.None? then None
        else if s[3] == '=' then Some([v0.value * 4 + v1.value / 16, v1.value % 16 * 16 + v2.value / 4])
        else if v3.None? then None
        else Some([v0.value * 4 + v1.value / 16, v1.value % 16 * 16 + v2.value / 4, v2.value % 4 * 64 + v3.value])
  {
    hide CharValue, FromValues;
    PadIsNoData();
    var a, b, c, d := Value(s[0]), Value(s[1]), Value(s[2]), Value(s[3]);
    EightBits(a, b, c, d);
    var full := [a * 4 + b / 16, b % 16 * 16 + c / 4, c % 4 * 64 + d];
    assert full[..3] == full && full[..2] == [full[0], full[1]] && full[..1] == [full[0]];
  }

  lemma EightBits(a: nat, b: nat, c: nat, d: nat)
    requires a < 64 && b < 64 && c < 64 && d < 64
    ensures var n := FromValues(a, b, c, d);
      n / 65_536 == a * 4 + b / 16 && n / 256 % 256 == b % 16 * 16 + c / 4 && n % 256 == c % 4 * 64 + d
  {
    var n := FromValues(a, b, c, d);
    var m := a * 1_024 + b * 16 + c / 4;
    DivUnique(n, 65_536, a * 4 + b / 16, b % 16 * 4_096 + c * 64 + d);
    DivUnique(n, 256, m, c % 4 * 64 + d);
    DivUnique(m, 256, a * 4 + b / 16, b % 16 * 16 + c / 4);
  }
}
