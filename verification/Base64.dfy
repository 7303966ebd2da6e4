/** Base64 as Go decodes it (RFC 4648, sections 4 and 5): carriage returns and line feeds are
    ignored, padding is required or forbidden, and unused trailing bits are not checked. */
module Base64 {
  import opened Documents

  type Byte = x: int | 0 <= x < 256

  datatype Alphabet = Standard | UrlSafe

  datatype Encoding = Encoding(alphabet: Alphabet, padded: bool)

  const STD := Encoding(Standard, true)
  const URL := Encoding(UrlSafe, true)
  const RAW_STD := Encoding(Standard, false)
  const RAW_URL := Encoding(UrlSafe, false)

  function Symbol(a: Alphabet, v: int): char
    requires 0 <= v < 64
  {
    if v < 26 then 'A' + v as char
    else if v < 52 then 'a' + (v - 26) as char
    else if v < 62 then '0' + (v - 52) as char
    else if v == 62 then (if a == Standard then '+' else '-')
    else (if a == Standard then '/' else '_')
  }

  function Sextet(a: Alphabet, c: char): (r: Option<int>)
    ensures r.Some? ==> 0 <= r.value < 64
  {
    if 'A' <= c <= 'Z' then Some(c as int - 'A' as int)
    else if 'a' <= c <= 'z' then Some(c as int - 'a' as int + 26)
    else if '0' <= c <= '9' then Some(c as int - '0' as int + 52)
    else if c == (if a == Standard then '+' else '-') then Some(62)
    else if c == (if a == Standard then '/' else '_') then Some(63)
    else None
  }

  function First(v0: int, v1: int): Byte
    requires 0 <= v0 < 64 && 0 <= v1 < 64
  {
    v0 * 4 + v1 / 16
  }

  function Second(v1: int, v2: int): Byte
    requires 0 <= v1 < 64 && 0 <= v2 < 64
  {
    (v1 % 16) * 16 + v2 / 4
  }

  function Third(v2: int, v3: int): Byte
    requires 0 <= v2 < 64 && 0 <= v3 < 64
  {
    (v2 % 4) * 64 + v3
  }

  function WithoutNewlines(s: string): string {
    if s == "" then ""
    else if s[0] == '\n' || s[0] == '\r' then WithoutNewlines(s[1..])
    else [s[0]] + WithoutNewlines(s[1..])
  }

  /** The first n characters of s are symbols of the alphabet. */
  predicate Symbols(a: Alphabet, s: string, n: nat)
    requires n <= |s|
  {
    forall i | 0 <= i < n :: Sextet(a, s[i]).Some?
  }

  /** The bytes of the first two, three or four symbols. */
  function Quantum(a: Alphabet, s: string, n: nat): seq<Byte>
    requires 2 <= n <= 4 && n <= |s| && Symbols(a, s, n)
  {
    var v0, v1 := Sextet(a, s[0]).value, Sextet(a, s[1]).value;
    if n == 2 then [First(v0, v1)]
    else
      var v2 := Sextet(a, s[2]).value;
      if n == 3 then [First(v0, v1), Second(v1, v2)]
      else [First(v0, v1), Second(v1, v2), Third(v2, Sextet(a, s[3]).value)]
  }

  /** Full quanta of four symbols, then possibly a last one that is padded or cut short. */
  function DecodeQuanta(e: Encoding, s: string): Option<seq<Byte>> {
    if s == "" then Some([])
    else if |s| >= 4 && Symbols(e.alphabet, s, 4) then
      var rest := DecodeQuanta(e, s[4..]);
      if rest.Some? then Some(Quantum(e.alphabet, s, 4) + rest.value) else None
    else if e.padded then
      if |s| == 4 && Symbols(e.alphabet, s, 3) && s[3] == '=' then Some(Quantum(e.alphabet, s, 3))
      else if |s| == 4 && Symbols(e.alphabet, s, 2) && s[2..] == "==" then Some(Quantum(e.alphabet, s, 2))
      else None
    else if 2 <= |s| <= 3 && Symbols(e.alphabet, s, |s|) then Some(Quantum(e.alphabet, s, |s|))
    else None
  }

  function Decode(e: Encoding, s: string): Option<seq<Byte>> {
    DecodeQuanta(e, WithoutNewlines(s))
  }

  /** The three decoders, in the order they are tried. */
  function DecodeBase64URL(encoded: string): Option<seq<Byte>> {
    match Decode(STD, encoded)
    case Some(b) => Some(b)
    case None =>
      match Decode(URL, encoded)
      case Some(b) => Some(b)
      case None => Decode(RAW_STD, encoded)
  }

  function Encode(e: Encoding, b: seq<Byte>): string {
    if b == [] then ""
    else if |b| == 1 then
      [Symbol(e.alphabet, b[0] / 4), Symbol(e.alphabet, b[0] % 4 * 16)] + if e.padded then "==" else ""
    else if |b| == 2 then
      [Symbol(e.alphabet, b[0] / 4), Symbol(e.alphabet, b[0] % 4 * 16 + b[1] / 16), Symbol(e.alphabet, b[1] % 16 * 4)]
      + if e.padded then "=" else ""
    else
      [Symbol(e.alphabet, b[0] / 4), Symbol(e.alphabet, b[0] % 4 * 16 + b[1] / 16),
       Symbol(e.alphabet, b[1] % 16 * 4 + b[2] / 64), Symbol(e.alphabet, b[2] % 64)]
      + Encode(e, b[3..])
  }

  lemma SymbolSextet(a: Alphabet, v: int)
    requires 0 <= v < 64
    ensures Sextet(a, Symbol(a, v)) == Some(v)
    ensures Symbol(a, v) != '\n' && Symbol(a, v) != '\r' && Symbol(a, v) != '='
  {
  }

  /** A character that belongs to both alphabets means the same in both. */
  lemma SameSextet(a: Alphabet, b: Alphabet, c: char)
    requires Sextet(a, c).Some? && Sextet(b, c).Some?
    ensures Sextet(a, c) == Sextet(b, c)
  {
  }

  lemma SameQuantum(a: Alphabet, b: Alphabet, s: string, n: nat)
    requires 2 <= n <= 4 && n <= |s| && Symbols(a, s, n) && Symbols(b, s, n)
    ensures Quantum(a, s, n) == Quantum(b, s, n)
  {
    forall i | 0 <= i < n ensures Sextet(a, s[i]) == Sextet(b, s[i]) {
      SameSextet(a, b, s[i]);
    }
  }

  /** How many symbols the quantum at the start of an accepted string has. */
  function QuantumSize(e: Encoding, s: string): nat {
    if |s| >= 4 && Symbols(e.alphabet, s, 4) then 4
    else if |s| >= 3 && Symbols(e.alphabet, s, 3) then 3
    else 2
  }

  lemma AcceptedQuantum(e: Encoding, s: string)
    requires s != "" && DecodeQuanta(e, s).Some?
    ensures var n := QuantumSize(e, s);
      && 2 <= n <= |s| && Symbols(e.alphabet, s, n)
      && (n < |s| && n < 4 ==> Sextet(e.alphabet, s[n]) == None && s[n] == '=' && |s| == 4)
      && DecodeQuanta(e, s).value == Quantum(e.alphabet, s, n) + if n == 4 then DecodeQuanta(e, s[4..]).value else []
  {
  }

  lemma {:induction false} QuantaAgree(e: Encoding, f: Encoding, s: string)
    requires DecodeQuanta(e, s).Some? && DecodeQuanta(f, s).Some?
    ensures DecodeQuanta(e, s) == DecodeQuanta(f, s)
    decreases |s|
  {
    if s != "" {
      AcceptedQuantum(e, s);
      AcceptedQuantum(f, s);
      var n := QuantumSize(e, s);
      assert Sextet(Standard, '=') == None && Sextet(UrlSafe, '=') == None;
      assert n == QuantumSize(f, s);
      SameQuantum(e.alphabet, f.alphabet, s, n);
      if n == 4 {
        QuantaAgree(e, f, s[4..]);
      }
    }
  }

  /** Any two decoders that accept an input decode it to the same bytes, so the order in which
      they are tried never changes a result. */
  lemma DecodersAgree(e: Encoding, f: Encoding, s: string)
    requires Decode(e, s).Some? && Decode(f, s).Some?
    ensures Decode(e, s) == Decode(f, s)
  {
    QuantaAgree(e, f, WithoutNewlines(s));
  }

  lemma {:induction false} NoNewlines(s: string)
    requires '\n' !in s && '\r' !in s
    ensures WithoutNewlines(s) == s
  {
    if s != "" {
      assert s == [s[0]] + s[1..];
      NoNewlines(s[1..]);
    }
  }

  lemma EncodeGroups(e: Encoding, b: seq<Byte>)
    requires |b| > 3
    ensures Encode(e, b) == Encode(e, b[..3]) + Encode(e, b[3..])
  {
    assert b[..3][3..] == [];
  }

  /** The symbols of a group hold its bytes. */
  lemma GroupBytes(b0: Byte, b1: Byte, b2: Byte)
    ensures First(b0 / 4, b0 % 4 * 16 + b1 / 16) == b0
    ensures Second(b0 % 4 * 16 + b1 / 16, b1 % 16 * 4 + b2 / 64) == b1
    ensures Third(b1 % 16 * 4 + b2 / 64, b2 % 64) == b2
  {
  }

  lemma GroupSymbols(e: Encoding, b: seq<Byte>)
    requires 1 <= |b| <= 3
    ensures var s, b1, b2 := Encode(e, b), if |b| > 1 then b[1] else 0, if |b| > 2 then b[2] else 0;
      && |s| == (if e.padded || |b| == 3 then 4 else |b| + 1)
      && s[0] == Symbol(e.alphabet, b[0] / 4)
      && s[1] == Symbol(e.alphabet, b[0] % 4 * 16 + b1 / 16)
      && (|b| > 1 ==> s[2] == Symbol(e.alphabet, b1 % 16 * 4 + b2 / 64))
      && (|b| > 2 ==> s[3] == Symbol(e.alphabet, b2 % 64))
      && forall i | |b| + 1 <= i < |s| :: s[i] == '='
  {
    if |b| == 3 {
      assert b[3..] == [];
    }
  }

  /** One group of bytes encodes to one quantum that decodes to it. */
  lemma GroupRoundTrip(e: Encoding, b: seq<Byte>)
    requires 1 <= |b| <= 3
    ensures var s := Encode(e, b);
      && |s| == (if e.padded || |b| == 3 then 4 else |b| + 1)
      && Symbols(e.alphabet, s, |b| + 1) && Quantum(e.alphabet, s, |b| + 1) == b
      && (forall i | |b| + 1 <= i < |s| :: s[i] == '=')
      && '\n' !in s && '\r' !in s
  {
    var a, b1, b2 := e.alphabet, if |b| > 1 then b[1] else 0, if |b| > 2 then b[2] else 0;
    GroupSymbols(e, b);
    GroupBytes(b[0], b1, b2);
    SymbolSextet(a, b[0] / 4);
    SymbolSextet(a, b[0] % 4 * 16 + b1 / 16);
    SymbolSextet(a, b1 % 16 * 4 + b2 / 64);
    SymbolSextet(a, b2 % 64);
  }

  /** A single quantum of n symbols, padded if the encoding says so, decodes to its bytes. */
  lemma QuantumAlone(e: Encoding, s: string, n: nat)
    requires 2 <= n <= 4 && |s| == (if e.padded then 4 else n) && Symbols(e.alphabet, s, n)
    requires forall i | n <= i < |s| :: s[i] == '='
    ensures DecodeQuanta(e, s) == Some(Quantum(e.alphabet, s, n))
  {
    assert Sextet(e.alphabet, '=') == None;
    if n == 4 {
      assert s[4..] == "";
      assert DecodeQuanta(e, s[4..]) == Some([]);
      assert Quantum(e.alphabet, s, 4) + [] == Quantum(e.alphabet, s, 4);
    } else if e.padded {
      assert Sextet(e.alphabet, s[n]) == None;
      assert !Symbols(e.alphabet, s, 4);
      if n == 2 {
        assert !Symbols(e.alphabet, s, 3) && s[2..] == "==";
      }
    }
  }

  lemma {:induction false} QuantaRoundTrip(e: Encoding, b: seq<Byte>)
    ensures DecodeQuanta(e, Encode(e, b)) == Some(b)
    ensures '\n' !in Encode(e, b) && '\r' !in Encode(e, b)
    decreases |b|
  {
    if b == [] {
    } else if |b| <= 3 {
      GroupRoundTrip(e, b);
      QuantumAlone(e, Encode(e, b), |b| + 1);
    } else {
      GroupRoundTrip(e, b[..3]);
      QuantaRoundTrip(e, b[3..]);
      EncodeGroups(e, b);
      var s, head := Encode(e, b), Encode(e, b[..3]);
      assert s[..4] == head && s[4..] == Encode(e, b[3..]);
      assert forall i | 0 <= i < 4 :: s[i] == head[i];
      assert b == b[..3] + b[3..];
    }
  }

  /** Decoding what an encoding produced gives the bytes back. */
  lemma RoundTrip(e: Encoding, b: seq<Byte>)
    ensures Decode(e, Encode(e, b)) == Some(b)
  {
    QuantaRoundTrip(e, b);
    NoNewlines(Encode(e, b));
  }

  /** The fallback decodes padded standard, padded URL-safe and unpadded standard encodings. */
  lemma FallbackRoundTrip(e: Encoding, b: seq<Byte>)
    requires e == STD || e == URL || e == RAW_STD
    ensures DecodeBase64URL(Encode(e, b)) == Some(b)
  {
    var s := Encode(e, b);
    RoundTrip(e, b);
    if Decode(STD, s).Some? {
      DecodersAgree(STD, e, s);
    } else if Decode(URL, s).Some? {
      DecodersAgree(URL, e, s);
    }
  }

  /** Whether the encoding uses the two characters in which the alphabets differ. */
  predicate UsesUrlSymbols(s: string) {
    '-' in s || '_' in s
  }

  lemma SymbolsConcat(a: Alphabet, x: string, y: string)
    requires Symbols(a, x, |x|) && Symbols(a, y, |y|)
    ensures Symbols(a, x + y, |x + y|)
  {
  }

  lemma {:induction false} EncodedSymbols(e: Encoding, b: seq<Byte>)
    requires !e.padded
    ensures Symbols(e.alphabet, Encode(e, b), |Encode(e, b)|)
    decreases |b|
  {
    if 1 <= |b| <= 3 {
      GroupRoundTrip(e, b);
    } else if b != [] {
      GroupRoundTrip(e, b[..3]);
      EncodedSymbols(e, b[3..]);
      SymbolsConcat(e.alphabet, Encode(e, b[..3]), Encode(e, b[3..]));
      EncodeGroups(e, b);
    }
  }

  function CutLength(n: nat): nat {
    if n % 3 == 0 then 0 else n % 3 + 1
  }

  lemma {:induction false} EncodedLength(e: Encoding, b: seq<Byte>)
    requires !e.padded
    ensures |Encode(e, b)| % 4 == CutLength(|b|)
    decreases |b|
  {
    if |b| >= 3 {
      EncodedLength(e, b[3..]);
      assert |Encode(e, b)| == 4 + |Encode(e, b[3..])|;
    }
  }

  lemma {:induction false} PaddedLength(e: Encoding, s: string)
    requires e.padded && DecodeQuanta(e, s).Some?
    ensures |s| % 4 == 0
    decreases |s|
  {
    if |s| > 4 {
      PaddedLength(e, s[4..]);
    }
  }

  lemma {:induction false} AcceptedSymbols(e: Encoding, s: string)
    requires !e.padded && DecodeQuanta(e, s).Some?
    ensures Symbols(e.alphabet, s, |s|)
    decreases |s|
  {
    if |s| >= 4 {
      AcceptedSymbols(e, s[4..]);
      forall i | 0 <= i < |s| ensures Sextet(e.alphabet, s[i]).Some? {
        assert i >= 4 ==> s[i] == s[4..][i-4];
      }
    }
  }

  lemma {:induction false} SymbolsAccepted(e: Encoding, s: string)
    requires !e.padded && Symbols(e.alphabet, s, |s|) && |s| % 4 != 1
    ensures DecodeQuanta(e, s).Some?
    decreases |s|
  {
    if |s| >= 4 {
      SymbolsAccepted(e, s[4..]);
    }
  }

  /** With whole groups there is nothing to pad. */
  lemma {:induction false} WholeGroups(b: seq<Byte>)
    requires |b| % 3 == 0
    ensures Encode(RAW_URL, b) == Encode(URL, b)
    decreases |b|
  {
    if b != [] {
      WholeGroups(b[3..]);
    }
  }

  /** The comment in the source promises unpadded URL-safe input; the third decoder, being the
      unpadded standard one, keeps that promise exactly for inputs that need no padding or use
      none of the characters peculiar to the URL-safe alphabet. */
  lemma UnpaddedUrlSafeIff(b: seq<Byte>)
    ensures DecodeBase64URL(Encode(RAW_URL, b)) == Some(b) <==> |b| % 3 == 0 || !UsesUrlSymbols(Encode(RAW_URL, b))
    ensures |b| % 3 != 0 && UsesUrlSymbols(Encode(RAW_URL, b)) ==> DecodeBase64URL(Encode(RAW_URL, b)) == None
  {
    if |b| % 3 == 0 {
      WholeGroups(b);
      FallbackRoundTrip(URL, b);
    } else {
      CutShort(b);
    }
  }

  /** One byte whose unpadded URL-safe encoding no decoder accepts. */
  lemma UnpaddedUrlSafeFails()
    ensures Encode(RAW_URL, [251]) == "-w" && DecodeBase64URL("-w") == None
  {
    assert UsesUrlSymbols(Encode(RAW_URL, [251]));
    UnpaddedUrlSafeIff([251]);
  }

  lemma CutShort(b: seq<Byte>)
    requires |b| % 3 != 0
    ensures DecodeBase64URL(Encode(RAW_URL, b)) == if UsesUrlSymbols(Encode(RAW_URL, b)) then None else Some(b)
  {
    QuantaRoundTrip(RAW_URL, b);
    NoNewlines(Encode(RAW_URL, b));
    EncodedSymbols(RAW_URL, b);
    EncodedLength(RAW_URL, b);
    OnlyThirdDecoder(b, Encode(RAW_URL, b));
  }

  lemma OnlyThirdDecoder(b: seq<Byte>, s: string)
    requires WithoutNewlines(s) == s && DecodeQuanta(RAW_URL, s) == Some(b)
    requires Symbols(UrlSafe, s, |s|) && |s| % 4 > 1
    ensures DecodeBase64URL(s) == if UsesUrlSymbols(s) then None else Some(b)
  {
    PaddedRefuses(STD, s);
    PaddedRefuses(URL, s);
    RawStandardIff(b, s);
  }

  lemma PaddedRefuses(e: Encoding, s: string)
    requires e.padded && |s| % 4 != 0 && WithoutNewlines(s) == s
    ensures Decode(e, s) == None
  {
    if Decode(e, s).Some? {
      PaddedLength(e, s);
    }
  }

  lemma RawStandardIff(b: seq<Byte>, s: string)
    requires WithoutNewlines(s) == s && DecodeQuanta(RAW_URL, s) == Some(b)
    requires Symbols(UrlSafe, s, |s|) && |s| % 4 != 1
    ensures Decode(RAW_STD, s) == if UsesUrlSymbols(s) then None else Some(b)
  {
    if UsesUrlSymbols(s) {
      var i :| 0 <= i < |s| && (s[i] == '-' || s[i] == '_');
      assert Sextet(Standard, s[i]) == None;
      if Decode(RAW_STD, s).Some? {
        AcceptedSymbols(RAW_STD, s);
      }
    } else {
      forall i | 0 <= i < |s| ensures Sextet(Standard, s[i]).Some? {
        assert s[i] in s && Sextet(UrlSafe, s[i]).Some?;
      }
      SymbolsAccepted(RAW_STD, s);
      QuantaAgree(RAW_STD, RAW_URL, s);
    }
  }
}
