/** The decoders against an independent reading of sections 3.2, 4 and 5 of RFC 4648: a character
    stands for the six bits of its place in the alphabet, a byte for eight, and bits that do not
    fill a byte are dropped. */
module Base64Bits {
  import opened Documents
  import opened Base64

  const UPPER := "ABCDEFGHIJKLMNOPQRSTUVWXYZ"
  const LOWER := "abcdefghijklmnopqrstuvwxyz"
  const DIGITS := "0123456789"

  /** The 64 characters in the order of their values. */
  function Characters(a: Alphabet): string {
    UPPER + LOWER + DIGITS + match a case Standard => "+/" case UrlSafe => "-_"
  }

  lemma {:induction false} UpperCharacter(a: Alphabet, v: int)
    requires 0 <= v < 26
    ensures |UPPER| == 26 && UPPER[v] == Symbol(a, v)
  {
    assert UPPER[0] == 'A' && UPPER[1] == 'B' && UPPER[2] == 'C';
  }

  lemma {:induction false} LowerCharacter(a: Alphabet, v: int)
    requires 26 <= v < 52
    ensures |LOWER| == 26 && LOWER[v-26] == Symbol(a, v)
  {
    assert LOWER[0] == 'a' && LOWER[1] == 'b' && LOWER[2] == 'c';
  }

  lemma {:induction false} DigitCharacter(a: Alphabet, v: int)
    requires 52 <= v < 62
    ensures |DIGITS| == 10 && DIGITS[v-52] == Symbol(a, v)
  {
  }

  lemma {:induction false} CharacterSymbol(a: Alphabet, v: int)
    requires 0 <= v < 64
    ensures |Characters(a)| == 64 && Characters(a)[v] == Symbol(a, v)
  {
    UpperCharacter(a, 0);
    LowerCharacter(a, 26);
    DigitCharacter(a, 52);
    if v < 26 {
      UpperCharacter(a, v);
    } else if v < 52 {
      LowerCharacter(a, v);
    } else if v < 62 {
      DigitCharacter(a, v);
    }
  }

  lemma {:induction false} SextetSymbol(a: Alphabet, c: char)
    requires Sextet(a, c).Some?
    ensures Symbol(a, Sextet(a, c).value) == c
  {
  }

  /** A character means its place in the alphabet, and a character that is not there means nothing. */
  lemma {:induction false} SextetIsPlace(a: Alphabet, c: char, v: int)
    ensures |Characters(a)| == 64
    ensures Sextet(a, c) == Some(v) <==> 0 <= v < 64 && Characters(a)[v] == c
  {
    CharacterSymbol(a, 0);
    if 0 <= v < 64 {
      CharacterSymbol(a, v);
      SymbolSextet(a, v);
    }
    if Sextet(a, c).Some? {
      SextetSymbol(a, c);
    }
  }

  type Bits = seq<bool>

  /** The last n bits of a number, the most significant first. */
  function BitsOf(v: nat, n: nat): (r: Bits)
    ensures |r| == n
    decreases v, n
  {
    if n == 0 then [] else BitsOf(v / 2, n - 1) + [v % 2 == 1]
  }

  function BytesBits(b: seq<Byte>): (r: Bits)
    ensures |r| == 8 * |b|
  {
    if b == [] then [] else BitsOf(b[0], 8) + BytesBits(b[1..])
  }

  function SextetBits(a: Alphabet, c: char): Bits
    requires Sextet(a, c).Some?
  {
    BitsOf(Sextet(a, c).value, 6)
  }

  /** The bits the first n characters stand for. */
  function CharactersBits(a: Alphabet, s: string, n: nat): (r: Bits)
    requires n <= |s| && Symbols(a, s, n)
    ensures |r| == 6 * n
    decreases n
  {
    if n == 0 then [] else SextetBits(a, s[0]) + CharactersBits(a, s[1..], n - 1)
  }

  /** What follows n characters that stand for whole bytes and at most one incomplete one. */
  function Padding(e: Encoding, n: nat): string {
    if !e.padded || n % 4 == 0 then "" else if n % 4 == 2 then "==" else "="
  }

  predicate Accepts(e: Encoding, s: string, n: nat) {
    n <= |s| && Symbols(e.alphabet, s, n) && n % 4 != 1 && s[n..] == Padding(e, n)
  }

  /** b is what the n characters of s, followed by their padding, stand for. */
  ghost predicate Denotes(e: Encoding, s: string, n: nat, b: seq<Byte>) {
    Accepts(e, s, n) && |b| == 6 * n / 8 && BytesBits(b) == CharactersBits(e.alphabet, s, n)[..8 * |b|]
  }

  function Pow2(n: nat): (r: nat)
    ensures r > 0
  {
    if n == 0 then 1 else 2 * Pow2(n - 1)
  }

  lemma {:induction false} Halve(x: nat, y: nat, p: nat)
    ensures (x * (2 * p) + y) / 2 == x * p + y / 2 && (x * (2 * p) + y) % 2 == y % 2
  {
    assert x * (2 * p) == 2 * (x * p);
  }

  lemma {:induction false} BitsConcat(x: nat, n: nat, y: nat, k: nat)
    requires y < Pow2(k)
    ensures BitsOf(x * Pow2(k) + y, n + k) == BitsOf(x, n) + BitsOf(y, k)
    decreases k
  {
    if k > 0 {
      Halve(x, y, Pow2(k - 1));
      BitsConcat(x, n, y / 2, k - 1);
    }
  }

  lemma {:induction false} BitsInjective(x: nat, y: nat, n: nat)
    requires x < Pow2(n) && y < Pow2(n) && BitsOf(x, n) == BitsOf(y, n)
    ensures x == y
    decreases n
  {
    if n > 0 {
      assert BitsOf(x, n)[..n-1] == BitsOf(x / 2, n - 1) && BitsOf(y, n)[..n-1] == BitsOf(y / 2, n - 1);
      assert BitsOf(x, n)[n-1] == BitsOf(y, n)[n-1];
      BitsInjective(x / 2, y / 2, n - 1);
    }
  }

  lemma {:induction false} JoinTwo(x: nat, n: nat, y: nat)
    requires y < 4
    ensures BitsOf(x * 4 + y, n + 2) == BitsOf(x, n) + BitsOf(y, 2)
  {
    assert Pow2(2) == 4;
    BitsConcat(x, n, y, 2);
  }

  lemma {:induction false} JoinFour(x: nat, n: nat, y: nat)
    requires y < 16
    ensures BitsOf(x * 16 + y, n + 4) == BitsOf(x, n) + BitsOf(y, 4)
  {
    assert Pow2(4) == 4 * Pow2(2) == 16;
    BitsConcat(x, n, y, 4);
  }

  lemma {:induction false} JoinSix(x: nat, n: nat, y: nat)
    requires y < 64
    ensures BitsOf(x * 64 + y, n + 6) == BitsOf(x, n) + BitsOf(y, 6)
  {
    assert Pow2(6) == 4 * Pow2(4) == 16 * Pow2(2) == 64;
    BitsConcat(x, n, y, 6);
  }

  lemma SliceTwo(w: Bits, x: Bits, y: Bits)
    requires w == x + y
    ensures w[..|x|] == x && w[|x|..] == y
  {
  }

  /** The bits of a byte put together from the six bits v0 and the upper two of sixteen times h
      plus l, and so on for the other two bytes of a group. */
  lemma {:induction false} SixTwo(v0: nat, h: nat, l: nat)
    requires v0 < 64 && h < 4 && l < 16
    ensures BitsOf(v0 * 4 + h, 8) == BitsOf(v0, 6) + BitsOf(h * 16 + l, 6)[..2]
  {
    JoinTwo(v0, 6, h);
    JoinFour(h, 2, l);
    SliceTwo(BitsOf(h * 16 + l, 6), BitsOf(h, 2), BitsOf(l, 4));
  }

  lemma {:induction false} FourFour(h: nat, l: nat, h2: nat, l2: nat)
    requires h < 4 && l < 16 && h2 < 16 && l2 < 4
    ensures BitsOf(l * 16 + h2, 8) == BitsOf(h * 16 + l, 6)[2..] + BitsOf(h2 * 4 + l2, 6)[..4]
  {
    JoinFour(l, 4, h2);
    JoinFour(h, 2, l);
    SliceTwo(BitsOf(h * 16 + l, 6), BitsOf(h, 2), BitsOf(l, 4));
    JoinTwo(h2, 4, l2);
    SliceTwo(BitsOf(h2 * 4 + l2, 6), BitsOf(h2, 4), BitsOf(l2, 2));
  }

  lemma {:induction false} TwoSix(h2: nat, l2: nat, v3: nat)
    requires h2 < 16 && l2 < 4 && v3 < 64
    ensures BitsOf(l2 * 64 + v3, 8) == BitsOf(h2 * 4 + l2, 6)[4..] + BitsOf(v3, 6)
  {
    JoinSix(l2, 2, v3);
    JoinTwo(h2, 4, l2);
    SliceTwo(BitsOf(h2 * 4 + l2, 6), BitsOf(h2, 4), BitsOf(l2, 2));
  }

  lemma {:induction false} SymbolsAfter(a: Alphabet, s: string, n: nat, k: nat)
    requires k <= n <= |s| && Symbols(a, s, n)
    ensures Symbols(a, s[k..], n - k) && Symbols(a, s, k)
  {
  }

  lemma Associative(x: Bits, y: Bits, z: Bits)
    ensures x + (y + z) == (x + y) + z
  {
  }

  lemma {:induction false} CharactersBitsConcat(a: Alphabet, s: string, n: nat, k: nat)
    requires k <= n <= |s| && Symbols(a, s, n)
    ensures Symbols(a, s[k..], n - k)
    ensures CharactersBits(a, s, n) == CharactersBits(a, s, k) + CharactersBits(a, s[k..], n - k)
    decreases k
  {
    SymbolsAfter(a, s, n, k);
    if k == 0 {
      assert s[0..] == s;
    } else {
      SymbolsAfter(a, s, n, 1);
      SymbolsAfter(a, s[1..], n - 1, k - 1);
      CharactersBitsConcat(a, s[1..], n - 1, k - 1);
      assert s[1..][k-1..] == s[k..];
      Associative(SextetBits(a, s[0]), CharactersBits(a, s[1..], k - 1), CharactersBits(a, s[k..], n - k));
    }
  }

  lemma {:induction false} FewBits(a: Alphabet, s: string, n: nat)
    requires 2 <= n <= 4 && n <= |s| && Symbols(a, s, n)
    ensures CharactersBits(a, s, n) == SextetBits(a, s[0]) + SextetBits(a, s[1])
            + (if n > 2 then SextetBits(a, s[2]) else []) + (if n > 3 then SextetBits(a, s[3]) else [])
  {
    assert CharactersBits(a, s[1..], n - 1) == SextetBits(a, s[1]) + CharactersBits(a, s[2..], n - 2) by {
      assert s[1..][1..] == s[2..];
    }
    if n > 2 {
      assert CharactersBits(a, s[2..], n - 2) == SextetBits(a, s[2]) + CharactersBits(a, s[3..], n - 3) by {
        assert s[2..][1..] == s[3..];
      }
    }
    if n > 3 {
      assert CharactersBits(a, s[3..], 1) == SextetBits(a, s[3]) + CharactersBits(a, s[4..], 0) by {
        assert s[3..][1..] == s[4..];
      }
    }
  }

  lemma {:induction false} FewBytes(b: seq<Byte>)
    requires 1 <= |b| <= 3
    ensures BytesBits(b) ==
            BitsOf(b[0], 8) + (if |b| > 1 then BitsOf(b[1], 8) else []) + (if |b| > 2 then BitsOf(b[2], 8) else [])
  {
    assert BytesBits(b) == BitsOf(b[0], 8) + BytesBits(b[1..]);
    if |b| > 1 {
      assert BytesBits(b[1..]) == BitsOf(b[1], 8) + BytesBits(b[2..]) by {
        assert b[1..][1..] == b[2..];
      }
    }
    if |b| > 2 {
      assert BytesBits(b[2..]) == BitsOf(b[2], 8) + BytesBits(b[3..]) by {
        assert b[2..][1..] == b[3..];
      }
    }
  }

  /** Six bits a time, cut into eights. */
  lemma {:induction false} Cut(x0: Bits, x1: Bits, x2: Bits, x3: Bits)
    requires |x0| == |x1| == |x2| == |x3| == 6
    ensures x0 + x1[..2] == (x0 + x1)[..8]
    ensures (x0 + x1[..2]) + (x1[2..] + x2[..4]) == (x0 + x1 + x2)[..16]
    ensures (x0 + x1[..2]) + (x1[2..] + x2[..4]) + (x2[4..] + x3) == x0 + x1 + x2 + x3
  {
  }

  lemma {:induction false} FirstBits(v0: int, v1: int)
    requires 0 <= v0 < 64 && 0 <= v1 < 64
    ensures BitsOf(First(v0, v1), 8) == BitsOf(v0, 6) + BitsOf(v1, 6)[..2]
  {
    SixTwo(v0, v1 / 16, v1 % 16);
  }

  lemma {:induction false} SecondBits(v1: int, v2: int)
    requires 0 <= v1 < 64 && 0 <= v2 < 64
    ensures BitsOf(Second(v1, v2), 8) == BitsOf(v1, 6)[2..] + BitsOf(v2, 6)[..4]
  {
    assert v1 == v1 / 16 * 16 + v1 % 16 && v2 == v2 / 4 * 4 + v2 % 4;
    FourFour(v1 / 16, v1 % 16, v2 / 4, v2 % 4);
  }

  lemma {:induction false} ThirdBits(v2: int, v3: int)
    requires 0 <= v2 < 64 && 0 <= v3 < 64
    ensures BitsOf(Third(v2, v3), 8) == BitsOf(v2, 6)[4..] + BitsOf(v3, 6)
  {
    assert v2 == v2 / 4 * 4 + v2 % 4;
    TwoSix(v2 / 4, v2 % 4, v3);
  }

  lemma {:induction false} ByteBits(a: Alphabet, s: string, n: nat)
    requires 2 <= n <= 4 && n <= |s| && Symbols(a, s, n)
    ensures var b := Quantum(a, s, n);
      && |b| == n - 1
      && BitsOf(b[0], 8) == SextetBits(a, s[0]) + SextetBits(a, s[1])[..2]
      && (n > 2 ==> BitsOf(b[1], 8) == SextetBits(a, s[1])[2..] + SextetBits(a, s[2])[..4])
      && (n > 3 ==> BitsOf(b[2], 8) == SextetBits(a, s[2])[4..] + SextetBits(a, s[3]))
  {
    FirstBits(Sextet(a, s[0]).value, Sextet(a, s[1]).value);
    if n > 2 {
      SecondBits(Sextet(a, s[1]).value, Sextet(a, s[2]).value);
    }
    if n > 3 {
      ThirdBits(Sextet(a, s[2]).value, Sextet(a, s[3]).value);
    }
  }

  /** The bytes of a quantum are its bits, without those that fill no byte. */
  lemma {:induction false} QuantumBits(a: Alphabet, s: string, n: nat)
    requires 2 <= n <= 4 && n <= |s| && Symbols(a, s, n)
    ensures |Quantum(a, s, n)| == n - 1
    ensures BytesBits(Quantum(a, s, n)) == CharactersBits(a, s, n)[..8 * (n - 1)]
  {
    FewBits(a, s, n);
    ByteBits(a, s, n);
    FewBytes(Quantum(a, s, n));
    var x0, x1 := SextetBits(a, s[0]), SextetBits(a, s[1]);
    if n == 2 {
      Cut(x0, x1, x1, x1);
    } else if n == 3 {
      Cut(x0, x1, SextetBits(a, s[2]), x1);
    } else {
      Cut(x0, x1, SextetBits(a, s[2]), SextetBits(a, s[3]));
    }
  }

  lemma {:induction false} BytesBitsInjective(b: seq<Byte>, c: seq<Byte>)
    requires |b| == |c| && BytesBits(b) == BytesBits(c)
    ensures b == c
    decreases |b|
  {
    if b != [] {
      assert BytesBits(b)[..8] == BitsOf(b[0], 8) && BytesBits(b)[8..] == BytesBits(b[1..]);
      assert BytesBits(c)[..8] == BitsOf(c[0], 8) && BytesBits(c)[8..] == BytesBits(c[1..]);
      assert Pow2(8) == 4 * Pow2(6) == 16 * Pow2(4) == 256;
      BitsInjective(b[0], c[0], 8);
      BytesBitsInjective(b[1..], c[1..]);
      assert b == [b[0]] + b[1..] && c == [c[0]] + c[1..];
    }
  }

  lemma {:induction false} BytesBitsConcat(b: seq<Byte>, c: seq<Byte>)
    ensures BytesBits(b + c) == BytesBits(b) + BytesBits(c)
    decreases |b|
  {
    if b == [] {
      assert b + c == c;
    } else {
      assert (b + c)[1..] == b[1..] + c;
      BytesBitsConcat(b[1..], c);
    }
  }

  lemma {:induction false} SymbolsMore(a: Alphabet, s: string, n: nat)
    requires 4 + n <= |s| && Symbols(a, s, 4) && Symbols(a, s[4..], n)
    ensures Symbols(a, s, n + 4)
    ensures CharactersBits(a, s, n + 4) == BytesBits(Quantum(a, s, 4)) + CharactersBits(a, s[4..], n)
  {
    forall i | 0 <= i < n + 4 ensures Sextet(a, s[i]).Some? {
      assert i >= 4 ==> s[i] == s[4..][i-4];
    }
    CharactersBitsConcat(a, s, n + 4, 4);
    QuantumBits(a, s, 4);
    assert CharactersBits(a, s, 4)[..24] == CharactersBits(a, s, 4);
  }

  lemma {:induction false} DenotesMore(e: Encoding, s: string, n: nat, b: seq<Byte>)
    requires |s| >= 4 && Symbols(e.alphabet, s, 4) && Denotes(e, s[4..], n, b)
    ensures Denotes(e, s, n + 4, Quantum(e.alphabet, s, 4) + b)
  {
    assert s[4..][n..] == s[n+4..];
    SymbolsMore(e.alphabet, s, n);
    var q := Quantum(e.alphabet, s, 4);
    BytesBitsConcat(q, b);
    CutLater(BytesBits(q), CharactersBits(e.alphabet, s[4..], n), 8 * |b|);
  }

  lemma {:induction false} CutLater(x: Bits, y: Bits, n: nat)
    requires n <= |y|
    ensures (x + y)[..|x|+n] == x + y[..n]
  {
  }

  lemma {:induction false} LastAccepted(e: Encoding, s: string, n: nat)
    requires DecodeQuanta(e, s).Some? && s != "" && n == QuantumSize(e, s) < 4
    ensures n <= |s| && s[n..] == Padding(e, n)
  {
    AcceptedQuantum(e, s);
    if e.padded {
      assert |s| == 4;
    }
  }

  lemma {:induction false} LastDenotes(e: Encoding, s: string, n: nat)
    requires DecodeQuanta(e, s).Some? && s != "" && n == QuantumSize(e, s) < 4
    ensures Denotes(e, s, n, DecodeQuanta(e, s).value)
  {
    AcceptedQuantum(e, s);
    LastAccepted(e, s, n);
    QuantumBits(e.alphabet, s, n);
    assert Quantum(e.alphabet, s, n) + [] == Quantum(e.alphabet, s, n);
  }

  /** Whatever is decoded is what some number of characters and their padding stand for. */
  lemma {:induction false} DecodedDenotes(e: Encoding, s: string) returns (n: nat)
    requires DecodeQuanta(e, s).Some?
    ensures Denotes(e, s, n, DecodeQuanta(e, s).value)
    decreases |s|
  {
    if s == "" {
      n := 0;
    } else {
      AcceptedQuantum(e, s);
      n := QuantumSize(e, s);
      if n == 4 {
        var m := DecodedDenotes(e, s[4..]);
        DenotesMore(e, s, m, DecodeQuanta(e, s[4..]).value);
        n := m + 4;
      } else {
        LastDenotes(e, s, n);
      }
    }
  }

  /** Characters with their padding are decoded. */
  lemma {:induction false} AcceptedDecodes(e: Encoding, s: string, n: nat)
    requires Accepts(e, s, n)
    ensures DecodeQuanta(e, s).Some?
    decreases |s|
  {
    if n >= 4 {
      assert s[4..][n-4..] == s[n..];
      AcceptedDecodes(e, s[4..], n - 4);
    } else if n > 0 {
      assert s == s[..n] + Padding(e, n);
      assert Sextet(e.alphabet, '=') == None;
      QuantumAlone(e, s, n);
    }
  }

  lemma {:induction false} PaddingIsNoCharacter(e: Encoding, s: string, n: nat)
    requires Accepts(e, s, n)
    ensures forall m | n < m <= |s| :: !Symbols(e.alphabet, s, m)
  {
    assert Sextet(e.alphabet, '=') == None;
    forall m | n < m <= |s| ensures !Symbols(e.alphabet, s, m) {
      assert s[n] == s[n..][0];
    }
  }

  lemma {:induction false} OnePlaceForPadding(e: Encoding, s: string, n: nat, m: nat)
    requires Accepts(e, s, n) && Accepts(e, s, m)
    ensures n == m
  {
    PaddingIsNoCharacter(e, s, n);
    PaddingIsNoCharacter(e, s, m);
  }

  lemma {:induction false} DenotedIsDecoded(e: Encoding, s: string, n: nat, b: seq<Byte>)
    requires Denotes(e, s, n, b)
    ensures DecodeQuanta(e, s) == Some(b)
  {
    AcceptedDecodes(e, s, n);
    var m := DecodedDenotes(e, s);
    OnePlaceForPadding(e, s, n, m);
    BytesBitsInjective(b, DecodeQuanta(e, s).value);
  }

  /** b is what some number of characters of s and their padding stand for. */
  ghost predicate StandsFor(e: Encoding, s: string, b: seq<Byte>) {
    exists n: nat :: Denotes(e, s, n, b)
  }

  lemma {:induction false} QuantaIff(e: Encoding, s: string, b: seq<Byte>)
    ensures DecodeQuanta(e, s) == Some(b) <==> StandsFor(e, s, b)
  {
    if DecodeQuanta(e, s) == Some(b) {
      var n := DecodedDenotes(e, s);
      assert Denotes(e, s, n, b);
    }
    if StandsFor(e, s, b) {
      var n: nat :| Denotes(e, s, n, b);
      DenotedIsDecoded(e, s, n, b);
    }
  }

  /** A decoder answers b exactly when the input, without line breaks, is some characters of its
      alphabet with the padding they need, and the bits of b are theirs, cut to whole bytes. */
  lemma {:induction false} DecodeIff(e: Encoding, s: string, b: seq<Byte>)
    ensures Decode(e, s) == Some(b) <==> StandsFor(e, WithoutNewlines(s), b)
  {
    QuantaIff(e, WithoutNewlines(s), b);
  }

  /** Line breaks, and no other characters, are left out. */
  lemma {:induction false} NewlinesLeftOut(s: string, c: char, t: string)
    ensures WithoutNewlines(s + [c] + t) ==
            WithoutNewlines(s) + (if c == '\n' || c == '\r' then [] else [c]) + WithoutNewlines(t)
    decreases |s|
  {
    if s == [] {
      assert s + [c] + t == [c] + t;
    } else {
      assert (s + [c] + t)[1..] == s[1..] + [c] + t;
      NewlinesLeftOut(s[1..], c, t);
    }
  }

  /** The fallback answers b exactly when one of the three decoders does. */
  lemma {:induction false} FallbackIff(s: string, b: seq<Byte>)
    ensures DecodeBase64URL(s) == Some(b) <==>
            Decode(STD, s) == Some(b) || Decode(URL, s) == Some(b) || Decode(RAW_STD, s) == Some(b)
  {
    if Decode(STD, s).Some? && Decode(URL, s).Some? {
      DecodersAgree(STD, URL, s);
    }
    if Decode(STD, s).Some? && Decode(RAW_STD, s).Some? {
      DecodersAgree(STD, RAW_STD, s);
    }
    if Decode(URL, s).Some? && Decode(RAW_STD, s).Some? {
      DecodersAgree(URL, RAW_STD, s);
    }
  }

  /** The byte 251 in the standard alphabet, padded. */
  lemma {:induction false} StandardExample()
    ensures DecodeBase64URL("+w==") == Some([251])
  {
    assert WithoutNewlines("+w==") == "+w==";
  }
}
