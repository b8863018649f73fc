/**
 * Base64 as in section 4 of RFC 4648: every group of three bytes becomes
 * four characters of the 64-character alphabet; a final group of one or two
 * bytes is padded with "=" to four characters. This is what
 * `base64.b64encode` computes; `Decode` is its specification-level inverse.
 *
 * Both directions go through a sequence of symbols: the values 0..63 of the
 * alphabet's characters and a 64th value that stands for the padding
 * character. Bytes and symbols are related by arithmetic only, symbols and
 * characters one character at a time.
 */
module Base64 {
  import opened Outcomes
  import opened Ascii

  /** A 6-bit group, the value of one alphabet character. */
  type Sextet = v: int | 0 <= v < 64

  /** A sextet, or `Pad` for the padding character. */
  type Symbol = v: int | 0 <= v <= 64

  const Pad: Symbol := 64
  const Padding: char := '='

  // ---------------------------------------------------------------------
  // Characters and symbols.

  /** The character that encodes value `v` (Table 1 of RFC 4648). */
  function CharOf(v: Sextet): char {
    if v < 26 then (65 + v) as char        // 'A'..'Z'
    else if v < 52 then (97 + (v - 26)) as char  // 'a'..'z'
    else if v < 62 then (48 + (v - 52)) as char  // '0'..'9'
    else if v == 62 then '+'
    else '/'
  }

  /** The value that character `c` encodes, if `c` is in the alphabet. */
  function ValueOf(c: char): (r: Option<Sextet>)
    ensures r.Some? ==> CharOf(r.value) == c
  {
    if 'A' <= c <= 'Z' then Some(c as int - 65)
    else if 'a' <= c <= 'z' then Some(c as int - 97 + 26)
    else if '0' <= c <= '9' then Some(c as int - 48 + 52)
    else if c == '+' then Some(62)
    else if c == '/' then Some(63)
    else None
  }

  predicate IsAlphabetChar(c: char) {
    ValueOf(c).Some?
  }

  /** Distinct values have distinct characters, so the alphabet has 64 members. */
  lemma ValueOfCharOf(v: Sextet)
    ensures ValueOf(CharOf(v)) == Some(v)
  {
  }

  function SymbolChar(v: Symbol): char {
    if v == Pad then Padding else CharOf(v)
  }

  function SymbolOf(c: char): (r: Option<Symbol>)
    ensures r.Some? ==> SymbolChar(r.value) == c
  {
    if c == Padding then Some(Pad)
    else match ValueOf(c)
      case Some(v) => Some(v)
      case None => None
  }

  lemma SymbolOfSymbolChar(v: Symbol)
    ensures SymbolOf(SymbolChar(v)) == Some(v)
  {
    if v != Pad {
      ValueOfCharOf(v);
    }
  }

  function Spell(vs: seq<Symbol>): (r: string)
    ensures |r| == |vs| && forall i | 0 <= i < |vs| :: r[i] == SymbolChar(vs[i])
  {
    seq(|vs|, i requires 0 <= i < |vs| => SymbolChar(vs[i]))
  }

  /** The symbols of a text, or None if some character is neither in the alphabet nor padding. */
  function Read(s: string): (r: Option<seq<Symbol>>)
    ensures r.Some? ==> |r.value| == |s|
  {
    if s == [] then Some([])
    else match (SymbolOf(s[0]), Read(s[1..]))
      case (Some(v), Some(rest)) => Some([v] + rest)
      case _ => None
  }

  lemma {:induction false} ReadSpell(vs: seq<Symbol>)
    ensures Read(Spell(vs)) == Some(vs)
    decreases |vs|
  {
    if vs != [] {
      var s := Spell(vs);
      assert s[1..] == Spell(vs[1..]);
      ReadSpell(vs[1..]);
      SymbolOfSymbolChar(vs[0]);
      assert vs == [vs[0]] + vs[1..];
    }
  }

  lemma {:induction false} SpellRead(s: string)
    requires Read(s).Some?
    ensures Spell(Read(s).value) == s
    decreases |s|
  {
    if s != [] {
      SpellRead(s[1..]);
      var vs := Read(s).value;
      assert vs[1..] == Read(s[1..]).value;
      assert Spell(vs)[1..] == Spell(vs[1..]);
    }
  }

  // ---------------------------------------------------------------------
  // Bytes and symbols.

  function Quantum(b0: Byte, b1: Byte, b2: Byte): seq<Symbol> {
    [b0 / 4, b0 % 4 * 16 + b1 / 16, b1 % 16 * 4 + b2 / 64, b2 % 64]
  }

  /** The symbols of the encoding of `b`: four per started group of three bytes. */
  function Symbols(b: seq<Byte>): (r: seq<Symbol>)
    ensures |r| == 4 * ((|b| + 2) / 3)
    decreases |b|
  {
    if |b| == 0 then []
    else if |b| == 1 then [b[0] / 4, b[0] % 4 * 16, Pad, Pad]
    else if |b| == 2 then [b[0] / 4, b[0] % 4 * 16 + b[1] / 16, b[1] % 16 * 4, Pad]
    else Quantum(b[0], b[1], b[2]) + Symbols(b[3..])
  }

  /** Three bytes from four sextets. */
  function Unquantum(v0: Symbol, v1: Symbol, v2: Symbol, v3: Symbol): Option<seq<Byte>> {
    if v0 < 64 && v1 < 64 && v2 < 64 && v3 < 64 then
      Some([v0 * 4 + v1 / 16, v1 % 16 * 16 + v2 / 4, v2 % 4 * 64 + v3])
    else None
  }

  /**
   * The last group: "xx==" gives one byte and "xxx=" two; the bits that the
   * padding leaves over must be zero (section 3.5 of RFC 4648), so that every
   * decodable text is the encoding of exactly one byte string.
   */
  function UnquantumFinal(v0: Symbol, v1: Symbol, v2: Symbol, v3: Symbol): Option<seq<Byte>> {
    if v2 == Pad && v3 == Pad then
      if v0 < 64 && v1 < 64 && v1 % 16 == 0 then Some([v0 * 4 + v1 / 16]) else None
    else if v3 == Pad then
      if v0 < 64 && v1 < 64 && v2 < 64 && v2 % 4 == 0 then Some([v0 * 4 + v1 / 16, v1 % 16 * 16 + v2 / 4]) else None
    else Unquantum(v0, v1, v2, v3)
  }

  /** Bytes from symbols: a whole number of groups, padding only in the last one. */
  function Unsymbols(vs: seq<Symbol>): Option<seq<Byte>>
    decreases |vs|
  {
    if |vs| == 0 then Some([])
    else if |vs| < 4 then None
    else if |vs| == 4 then UnquantumFinal(vs[0], vs[1], vs[2], vs[3])
    else match (Unquantum(vs[0], vs[1], vs[2], vs[3]), Unsymbols(vs[4..]))
      case (Some(q), Some(rest)) => Some(q + rest)
      case _ => None
  }

  lemma SplitThree(b0: Byte, b1: Byte, b2: Byte)
    ensures Unquantum(b0 / 4, b0 % 4 * 16 + b1 / 16, b1 % 16 * 4 + b2 / 64, b2 % 64) == Some([b0, b1, b2])
  {
    var v1: int := b0 % 4 * 16 + b1 / 16;
    var v2: int := b1 % 16 * 4 + b2 / 64;
    assert v1 / 16 == b0 % 4 && v1 % 16 == b1 / 16;
    assert v2 / 4 == b1 % 16 && v2 % 4 == b2 / 64;
  }

  lemma JoinFour(v0: Sextet, v1: Sextet, v2: Sextet, v3: Sextet)
    ensures var b0: int, b1: int, b2: int := v0 * 4 + v1 / 16, v1 % 16 * 16 + v2 / 4, v2 % 4 * 64 + v3;
      b0 / 4 == v0 && b0 % 4 * 16 + b1 / 16 == v1 && b1 % 16 * 4 + b2 / 64 == v2 && b2 % 64 == v3
  {
    var b0: int, b1: int, b2: int := v0 * 4 + v1 / 16, v1 % 16 * 16 + v2 / 4, v2 % 4 * 64 + v3;
    assert b0 / 4 == v0 && b0 % 4 == v1 / 16;
    assert b1 / 16 == v1 % 16 && b1 % 16 == v2 / 4;
    assert b2 / 64 == v2 % 4 && b2 % 64 == v3;
  }

  lemma OneByteSymbols(b0: Byte)
    ensures Unsymbols(Symbols([b0])) == Some([b0])
  {
    var v1: int := b0 % 4 * 16;
    assert v1 % 16 == 0 && v1 / 16 == b0 % 4;
    assert Symbols([b0]) == [b0 / 4, v1, Pad, Pad];
  }

  lemma TwoBytesSymbols(b0: Byte, b1: Byte)
    ensures Unsymbols(Symbols([b0, b1])) == Some([b0, b1])
  {
    SplitThree(b0, b1, 0);
    assert Symbols([b0, b1]) == [b0 / 4, b0 % 4 * 16 + b1 / 16, b1 % 16 * 4, Pad];
  }

  lemma ThreeBytesSymbols(b0: Byte, b1: Byte, b2: Byte)
    ensures Unsymbols(Symbols([b0, b1, b2])) == Some([b0, b1, b2])
  {
    SplitThree(b0, b1, b2);
    assert [b0, b1, b2][3..] == [];
    assert Symbols([b0, b1, b2]) == Quantum(b0, b1, b2) + [] == Quantum(b0, b1, b2);
  }

  /** Decoding symbols that start with a full group proceeds group by group. */
  lemma UnsymbolsGroupThenRest(b0: Byte, b1: Byte, b2: Byte, rest: seq<Symbol>, t: seq<Byte>)
    requires |rest| > 0 && Unsymbols(rest) == Some(t)
    ensures Unsymbols(Quantum(b0, b1, b2) + rest) == Some([b0, b1, b2] + t)
  {
    SplitThree(b0, b1, b2);
    var q := Quantum(b0, b1, b2);
    var vs := q + rest;
    assert vs[0] == q[0] && vs[1] == q[1] && vs[2] == q[2] && vs[3] == q[3];
    assert vs[4..] == rest;
  }

  lemma SymbolsGroupThenRest(b0: Byte, b1: Byte, b2: Byte, t: seq<Byte>)
    requires |t| > 0
    ensures Symbols([b0, b1, b2] + t) == Quantum(b0, b1, b2) + Symbols(t)
  {
    var b := [b0, b1, b2] + t;
    assert b[0] == b0 && b[1] == b1 && b[2] == b2;
    assert b[3..] == t;
  }

  /** One induction step: a leading group of three bytes decodes back in front of the rest. */
  lemma GroupStep(b0: Byte, b1: Byte, b2: Byte, t: seq<Byte>)
    requires |t| > 0 && Unsymbols(Symbols(t)) == Some(t)
    ensures Unsymbols(Symbols([b0, b1, b2] + t)) == Some([b0, b1, b2] + t)
  {
    SymbolsGroupThenRest(b0, b1, b2, t);
    UnsymbolsGroupThenRest(b0, b1, b2, Symbols(t), t);
  }

  lemma {:induction false} UnsymbolsSymbols(b: seq<Byte>)
    ensures Unsymbols(Symbols(b)) == Some(b)
    decreases |b|
  {
    if |b| == 1 {
      assert b == [b[0]];
      OneByteSymbols(b[0]);
    } else if |b| == 2 {
      assert b == [b[0], b[1]];
      TwoBytesSymbols(b[0], b[1]);
    } else if |b| == 3 {
      assert b == [b[0], b[1], b[2]];
      ThreeBytesSymbols(b[0], b[1], b[2]);
    } else if |b| > 3 {
      assert b == [b[0], b[1], b[2]] + b[3..];
      UnsymbolsSymbols(b[3..]);
      GroupStep(b[0], b[1], b[2], b[3..]);
    }
  }

  lemma FinalInverse(v0: Symbol, v1: Symbol, v2: Symbol, v3: Symbol)
    requires UnquantumFinal(v0, v1, v2, v3).Some?
    ensures Symbols(UnquantumFinal(v0, v1, v2, v3).value) == [v0, v1, v2, v3]
  {
    var b := UnquantumFinal(v0, v1, v2, v3).value;
    if v2 == Pad && v3 == Pad {
      JoinFour(v0, v1, 0, 0);
    } else if v3 == Pad {
      JoinFour(v0, v1, v2, 0);
    } else {
      JoinFour(v0, v1, v2, v3);
      assert b[3..] == [];
    }
  }

  /** A full group of sextets comes back from its three bytes. */
  lemma QuantumUnquantum(v0: Symbol, v1: Symbol, v2: Symbol, v3: Symbol)
    requires v0 < 64 && v1 < 64 && v2 < 64 && v3 < 64
    ensures Unquantum(v0, v1, v2, v3).Some? && |Unquantum(v0, v1, v2, v3).value| == 3
    ensures var g := Unquantum(v0, v1, v2, v3).value; Quantum(g[0], g[1], g[2]) == [v0, v1, v2, v3]
  {
    JoinFour(v0, v1, v2, v3);
  }

  /** Encoding the bytes of a full group puts its four sextets back in front. */
  lemma SymbolsOfGroup(v0: Symbol, v1: Symbol, v2: Symbol, v3: Symbol, rest: seq<Byte>)
    requires v0 < 64 && v1 < 64 && v2 < 64 && v3 < 64 && |rest| > 0
    ensures Symbols(Unquantum(v0, v1, v2, v3).value + rest) == [v0, v1, v2, v3] + Symbols(rest)
  {
    QuantumUnquantum(v0, v1, v2, v3);
    var g := Unquantum(v0, v1, v2, v3).value;
    SymbolsGroupThenRest(g[0], g[1], g[2], rest);
    assert g == [g[0], g[1], g[2]];
  }

  lemma {:induction false} SymbolsUnsymbols(vs: seq<Symbol>)
    requires Unsymbols(vs).Some?
    ensures Symbols(Unsymbols(vs).value) == vs
    decreases |vs|
  {
    if |vs| == 4 {
      FinalInverse(vs[0], vs[1], vs[2], vs[3]);
      assert vs == [vs[0], vs[1], vs[2], vs[3]];
    } else if |vs| > 4 {
      var rest := Unsymbols(vs[4..]).value;
      SymbolsUnsymbols(vs[4..]);
      assert rest != [];
      SymbolsOfGroup(vs[0], vs[1], vs[2], vs[3], rest);
      assert vs == [vs[0], vs[1], vs[2], vs[3]] + vs[4..];
    }
  }

  /** In an encoding, padding can only occupy the last two places. */
  lemma {:induction false} SymbolsPadOnlyAtEnd(b: seq<Byte>)
    ensures forall i | 0 <= i < |Symbols(b)| - 2 :: Symbols(b)[i] != Pad
    decreases |b|
  {
    if |b| > 3 {
      var q, rest := Quantum(b[0], b[1], b[2]), Symbols(b[3..]);
      SymbolsPadOnlyAtEnd(b[3..]);
      var vs := q + rest;
      assert Symbols(b) == vs;
      forall i | 0 <= i < |vs| - 2 ensures vs[i] != Pad {
        if i < 4 {
          assert vs[i] == q[i];
          assert q[0] < 64 && q[1] < 64 && q[2] < 64 && q[3] < 64;
          assert i == 0 || i == 1 || i == 2 || i == 3;
        } else {
          assert vs[i] == rest[i - 4];
          assert i - 4 < |rest| - 2;
          assert rest[i - 4] != Pad;
        }
      }
    }
  }

  // ---------------------------------------------------------------------
  // The encoder and the decoder.

  /** `base64.b64encode`. */
  function Encode(b: seq<Byte>): (r: string)
    ensures |r| == 4 * ((|b| + 2) / 3)
  {
    Spell(Symbols(b))
  }

  function Decode(s: string): Option<seq<Byte>> {
    match Read(s)
    case None => None
    case Some(vs) => Unsymbols(vs)
  }

  /** Every character of an encoding is in the alphabet, except padding in the last two places. */
  lemma EncodeAlphabet(b: seq<Byte>)
    ensures forall i | 0 <= i < |Encode(b)| ::
      IsAlphabetChar(Encode(b)[i]) || (i >= |Encode(b)| - 2 && Encode(b)[i] == Padding)
  {
    var vs, r := Symbols(b), Encode(b);
    SymbolsPadOnlyAtEnd(b);
    assert r == Spell(vs);
    forall i | 0 <= i < |r| ensures IsAlphabetChar(r[i]) || (i >= |r| - 2 && r[i] == Padding) {
      assert r[i] == SymbolChar(vs[i]);
      if vs[i] != Pad {
        ValueOfCharOf(vs[i]);
        assert IsAlphabetChar(r[i]);
      } else {
        assert i >= |vs| - 2;
      }
    }
  }

  /** Decoding undoes encoding. */
  lemma DecodeEncode(b: seq<Byte>)
    ensures Decode(Encode(b)) == Some(b)
  {
    ReadSpell(Symbols(b));
    UnsymbolsSymbols(b);
  }

  /** Encoding undoes decoding: a decodable text is the encoding of what it decodes to. */
  lemma EncodeDecode(s: string)
    requires Decode(s).Some?
    ensures Encode(Decode(s).value) == s
  {
    SpellRead(s);
    SymbolsUnsymbols(Read(s).value);
  }

  /** A text decodes to `b` exactly when it is the encoding of `b`. */
  lemma DecodeIsInverse(s: string, b: seq<Byte>)
    ensures Decode(s) == Some(b) <==> Encode(b) == s
  {
    if Decode(s) == Some(b) {
      EncodeDecode(s);
    }
    if Encode(b) == s {
      DecodeEncode(b);
    }
  }

  /** The test vectors of section 10 of RFC 4648. */
  lemma TestVectors()
    ensures Encode([]) == ""
    ensures Encode([102]) == "Zg=="
    ensures Encode([102, 111]) == "Zm8="
    ensures Encode([102, 111, 111]) == "Zm9v"
  {
    assert [102, 111, 111][3..] == [];
  }

  /** The longer vectors of the same section. */
  lemma TestVectorsLonger()
    ensures Encode([102, 111, 111, 98]) == "Zm9vYg=="
    ensures Encode([102, 111, 111, 98, 97]) == "Zm9vYmE="
  {
    assert [102, 111, 111, 98, 97][3..] == [98, 97];
    assert [102, 111, 111, 98][3..] == [98];
  }

  /** The last vector of the same section: two full groups. */
  lemma TestVectorFoobar()
    ensures Encode([102, 111, 111, 98, 97, 114]) == "Zm9vYmFy"
  {
    assert [102, 111, 111, 98, 97, 114][3..] == [98, 97, 114];
    assert [98, 97, 114][3..] == [];
  }
}
