/**
  Round trips of the printed form of a refresh token, and which texts it is made of.
 */
module TokenCodecProofs {
  import opened Options
  import opened TokenCodec

  // ---------- Decoding inverts encoding ----------

  lemma SymbolValue(v: Sextet)
    ensures Value(Symbol(v)) == Some(v) && Symbol(v) < 128 as char && Symbol(v) != '=' && Symbol(v) != '.'
  {
  }

  lemma ReadFirst(c: char, v: Sextet, t: string, left: nat, pads: nat)
    requires Value(c) == Some(v) && left < 1
    ensures Read([c] + t, 0, left, pads) == Read(t, 1, v, 0)
  {
    assert ([c] + t)[1..] == t;
  }

  lemma ReadSecond(c: char, v: Sextet, t: string, left: nat, pads: nat)
    requires Value(c) == Some(v) && left < 64
    ensures Read([c] + t, 1, left, pads) == Prepend(left * 4 + v / 16, Read(t, 2, v % 16, 0))
  {
    assert ([c] + t)[1..] == t;
  }

  lemma ReadThird(c: char, v: Sextet, t: string, left: nat, pads: nat)
    requires Value(c) == Some(v) && left < 16
    ensures Read([c] + t, 2, left, pads) == Prepend(left * 16 + v / 4, Read(t, 3, v % 4, 0))
  {
    assert ([c] + t)[1..] == t;
  }

  lemma ReadFourth(c: char, v: Sextet, t: string, left: nat, pads: nat)
    requires Value(c) == Some(v) && left < 4
    ensures Read([c] + t, 3, left, pads) == Prepend(left * 64 + v, Read(t, 0, 0, 0))
  {
    assert ([c] + t)[1..] == t;
  }

  /** A last group of two symbols. */
  lemma ReadPair(a: char, x: Sextet, b: char, y: Sextet)
    requires Value(a) == Some(x) && Value(b) == Some(y)
    ensures Read([a, b, '=', '='], 0, 0, 0) == Some([x * 4 + y / 16])
  {
    ReadFirst(a, x, [b, '=', '='], 0, 0);
    assert [a] + [b, '=', '='] == [a, b, '=', '='];
    ReadSecond(b, y, ['=', '='], x, 0);
    assert [b] + ['=', '='] == [b, '=', '='];
    assert ['=', '='][1..] == ['='];
    assert Read(['='], 2, y % 16, 1) == Some([]);
    assert Read(['=', '='], 2, y % 16, 0) == Some([]);
    assert [x * 4 + y / 16] + [] == [x * 4 + y / 16];
  }

  /** A last group of three symbols. */
  lemma ReadTriple(a: char, x: Sextet, b: char, y: Sextet, c: char, z: Sextet)
    requires Value(a) == Some(x) && Value(b) == Some(y) && Value(c) == Some(z)
    ensures Read([a, b, c, '='], 0, 0, 0) == Some([x * 4 + y / 16, y % 16 * 16 + z / 4])
  {
    ReadFirst(a, x, [b, c, '='], 0, 0);
    assert [a] + [b, c, '='] == [a, b, c, '='];
    ReadSecond(b, y, [c, '='], x, 0);
    assert [b] + [c, '='] == [b, c, '='];
    ReadThird(c, z, ['='], y % 16, 0);
    assert [c] + ['='] == [c, '='];
    assert Read(['='], 3, z % 4, 0) == Some([]);
    assert [y % 16 * 16 + z / 4] + [] == [y % 16 * 16 + z / 4];
    assert [x * 4 + y / 16] + [y % 16 * 16 + z / 4] == [x * 4 + y / 16, y % 16 * 16 + z / 4];
  }

  /** The three bytes of a group of four symbols. */
  function Unquad(x: Sextet, y: Sextet, z: Sextet, w: Sextet): seq<Byte> {
    [x * 4 + y / 16, y % 16 * 16 + z / 4, z % 4 * 64 + w]
  }

  function PrependAll(bytes: seq<Byte>, rest: Option<seq<Byte>>): Option<seq<Byte>> {
    if rest.Some? then Some(bytes + rest.value) else None
  }

  lemma ReadQuad(a: char, x: Sextet, b: char, y: Sextet, c: char, z: Sextet, d: char, w: Sextet, t: string)
    requires Value(a) == Some(x) && Value(b) == Some(y) && Value(c) == Some(z) && Value(d) == Some(w)
    ensures Read([a] + ([b] + ([c] + ([d] + t))), 0, 0, 0) == PrependAll(Unquad(x, y, z, w), Read(t, 0, 0, 0))
  {
    ReadFirst(a, x, [b] + ([c] + ([d] + t)), 0, 0);
    ReadSecond(b, y, [c] + ([d] + t), x, 0);
    ReadThird(c, z, [d] + t, y % 16, 0);
    ReadFourth(d, w, t, z % 4, 0);
    PrependThree(x * 4 + y / 16, y % 16 * 16 + z / 4, z % 4 * 64 + w, Read(t, 0, 0, 0));
  }

  lemma PrependThree(a: Byte, b: Byte, c: Byte, rest: Option<seq<Byte>>)
    ensures Prepend(a, Prepend(b, Prepend(c, rest))) == PrependAll([a, b, c], rest)
  {
    if rest.Some? { assert [a] + ([b] + ([c] + rest.value)) == [a, b, c] + rest.value; }
  }

  lemma FourThen(a: char, b: char, c: char, d: char, t: string)
    ensures [a, b, c, d] + t == [a] + ([b] + ([c] + ([d] + t)))
  {
  }

  lemma ReadOne(a: Byte)
    ensures Read([Symbol(a / 4), Symbol(a % 4 * 16), '=', '='], 0, 0, 0) == Some([a])
  {
    var x, y := a / 4, a % 4 * 16;
    SymbolValue(x); SymbolValue(y);
    ReadPair(Symbol(x), x, Symbol(y), y);
  }

  lemma ReadTwo(a: Byte, b: Byte)
    ensures Read([Symbol(a / 4), Symbol(a % 4 * 16 + b / 16), Symbol(b % 16 * 4), '='], 0, 0, 0) == Some([a, b])
  {
    var x, y, z := a / 4, a % 4 * 16 + b / 16, b % 16 * 4;
    SplitAt16(a % 4, b / 16);
    SymbolValue(x); SymbolValue(y); SymbolValue(z);
    ReadTriple(Symbol(x), x, Symbol(y), y, Symbol(z), z);
  }

  lemma {:induction false} ReadPadded(data: seq<Byte>)
    ensures Read(Padded(data), 0, 0, 0) == Some(data)
  {
    if |data| == 1 {
      ReadOne(data[0]);
      assert data == [data[0]];
    } else if |data| == 2 {
      ReadTwo(data[0], data[1]);
      assert data == [data[0], data[1]];
    } else if |data| > 2 {
      ReadPadded(data[3..]);
      QuadReads(data[0], data[1], data[2], Padded(data[3..]));
      assert [data[0], data[1], data[2]] + data[3..] == data;
    }
  }

  lemma SplitAt4(high: nat, low: nat)
    requires low < 4
    ensures (high * 4 + low) / 4 == high && (high * 4 + low) % 4 == low
  {
  }

  lemma SplitAt16(high: nat, low: nat)
    requires low < 16
    ensures (high * 16 + low) / 16 == high && (high * 16 + low) % 16 == low
  {
  }

  lemma SplitAt64(high: nat, low: nat)
    requires low < 64
    ensures (high * 64 + low) / 64 == high && (high * 64 + low) % 64 == low
  {
  }

  lemma QuadUnquad(a: Byte, b: Byte, c: Byte)
    ensures Unquad(a / 4, a % 4 * 16 + b / 16, b % 16 * 4 + c / 64, c % 64) == [a, b, c]
  {
    SplitAt16(a % 4, b / 16);
    SplitAt4(b % 16, c / 64);
  }

  lemma QuadReads(a: Byte, b: Byte, c: Byte, t: string)
    ensures Read(Quad(a, b, c) + t, 0, 0, 0) == PrependAll([a, b, c], Read(t, 0, 0, 0))
  {
    var x, y, z, w := a / 4, a % 4 * 16 + b / 16, b % 16 * 4 + c / 64, c % 64;
    SymbolValue(x); SymbolValue(y); SymbolValue(z); SymbolValue(w);
    ReadQuad(Symbol(x), x, Symbol(y), y, Symbol(z), z, Symbol(w), w, t);
    FourThen(Symbol(x), Symbol(y), Symbol(z), Symbol(w), t);
    QuadUnquad(a, b, c);
  }

  // ---------- The padding that is stripped is the padding that is put back ----------

  lemma {:induction false} StripPadsAfter(s: string, n: nat)
    requires s == "" || s[|s| - 1] != '='
    ensures StripPads(s + Pads(n)) == s
    decreases n
  {
    if n > 0 {
      assert (s + Pads(n))[..|s + Pads(n)| - 1] == s + Pads(n - 1);
      StripPadsAfter(s, n - 1);
    } else {
      assert s + Pads(0) == s;
    }
  }

  /** The symbols alone, without padding. */
  function Symbols(data: seq<Byte>): string {
    if data == [] then ""
    else if |data| == 1 then [Symbol(data[0] / 4), Symbol(data[0] % 4 * 16)]
    else if |data| == 2 then [Symbol(data[0] / 4), Symbol(data[0] % 4 * 16 + data[1] / 16), Symbol(data[1] % 16 * 4)]
    else Quad(data[0], data[1], data[2]) + Symbols(data[3..])
  }

  lemma {:induction false} PaddedParts(data: seq<Byte>)
    ensures Padded(data) == Repad(Symbols(data)) && |Symbols(data)| % 4 != 1
  {
    if |data| <= 2 {
      assert Pads(2) == "==" && Pads(1) == "=";
    } else {
      PaddedParts(data[3..]);
      RepadTail(Quad(data[0], data[1], data[2]), Symbols(data[3..]));
    }
  }

  predicate Plain(c: char) {
    c < 128 as char && c != '=' && c != '.' && Value(c).Some? && c == Symbol(Value(c).value)
  }

  lemma {:induction false} SymbolsPlain(data: seq<Byte>)
    ensures forall i :: 0 <= i < |Symbols(data)| ==> Plain(Symbols(data)[i])
  {
    forall v: Sextet ensures Plain(Symbol(v)) { SymbolValue(v); }
    if |data| > 2 { SymbolsPlain(data[3..]); }
  }

  lemma RepadTail(head: string, tail: string)
    requires |head| == 4
    ensures Repad(head + tail) == head + Repad(tail)
  {
    assert |head + tail| % 4 == |tail| % 4;
    if |tail| % 4 != 0 { assert head + tail + Pads(4 - |tail| % 4) == head + (tail + Pads(4 - |tail| % 4)); }
  }

  lemma EncodeIsSymbols(data: seq<Byte>)
    ensures Encode(data) == Symbols(data)
  {
    PaddedParts(data);
    SymbolsPlain(data);
    var s := Symbols(data);
    var pad := 4 - |s| % 4;
    StripPadsAfter(s, if pad != 4 then pad else 0);
    assert Repad(s) == s + Pads(if pad != 4 then pad else 0);
  }

  /** Unpadded decoding inverts unpadded encoding on all byte strings. */
  lemma DecodeEncode(data: seq<Byte>)
    ensures Decode(Encode(data)) == Some(data)
  {
    EncodeIsSymbols(data);
    PaddedParts(data);
    SymbolsPlain(data);
    ReadPadded(data);
  }

  // ---------- Which texts the encoder writes ----------

  predicate AllSymbols(s: string) {
    forall i :: 0 <= i < |s| ==> Value(s[i]).Some? && s[i] == Symbol(Value(s[i]).value)
  }

  /** The bits of the last symbol that no byte uses are zero. */
  predicate SpareBitsZero(s: string)
    requires AllSymbols(s)
  {
    if |s| % 4 == 2 then Value(s[|s| - 1]).value % 16 == 0
    else if |s| % 4 == 3 then Value(s[|s| - 1]).value % 4 == 0
    else true
  }

  /** What a text of symbols is decoded to and encoded back as. */
  ghost predicate Canonical(s: string)
    requires AllSymbols(s)
  {
    var read := Read(Repad(s), 0, 0, 0);
    && (read.None? <==> |s| % 4 == 1)
    && (read.Some? ==> (Symbols(read.value) == s <==> SpareBitsZero(s)))
  }

  lemma CanonicalLone(a: char)
    requires AllSymbols([a])
    ensures Canonical([a])
  {
    ReadFirst(a, Value(a).value, "===", 0, 0);
    assert Repad([a]) == [a] + "===";
    assert "==="[1..] == "==" && "=="[1..] == "=" && "="[1..] == "";
    assert Read("", 1, Value(a).value, 0).None?;
    assert Read("=", 1, Value(a).value, 0).None?;
    assert Read("==", 1, Value(a).value, 0).None?;
  }

  lemma SymbolInjective(v: Sextet, w: Sextet)
    ensures Symbol(v) == Symbol(w) ==> v == w
  {
    SymbolValue(v); SymbolValue(w);
  }

  lemma PairSpare(x: Sextet, y: Sextet)
    ensures Symbols([x * 4 + y / 16]) == [Symbol(x), Symbol(y)] <==> y % 16 == 0
  {
    var u: Byte := x * 4 + y / 16;
    assert u / 4 == x && u % 4 * 16 == y - y % 16;
    SymbolInjective(u % 4 * 16, y);
    var s := Symbols([u]);
    assert s[1] == Symbol(u % 4 * 16);
  }

  lemma TripleSpare(x: Sextet, y: Sextet, z: Sextet)
    ensures Symbols([x * 4 + y / 16, y % 16 * 16 + z / 4]) == [Symbol(x), Symbol(y), Symbol(z)] <==> z % 4 == 0
  {
    var u: Byte, w: Byte := x * 4 + y / 16, y % 16 * 16 + z / 4;
    assert u / 4 == x && u % 4 * 16 + w / 16 == y && w % 16 * 4 == z - z % 4;
    SymbolInjective(w % 16 * 4, z);
    var s := Symbols([u, w]);
    assert s[2] == Symbol(w % 16 * 4);
  }

  lemma CanonicalPair(a: char, b: char)
    requires AllSymbols([a, b])
    ensures Canonical([a, b])
  {
    var s := [a, b];
    assert s[0] == a && s[1] == b;
    var x, y := Value(a).value, Value(b).value;
    ReadPair(a, x, b, y);
    PairSpare(x, y);
    assert Repad(s) == [a, b, '=', '='];
  }

  lemma CanonicalTriple(a: char, b: char, c: char)
    requires AllSymbols([a, b, c])
    ensures Canonical([a, b, c])
  {
    var s := [a, b, c];
    assert s[0] == a && s[1] == b && s[2] == c;
    var x, y, z := Value(a).value, Value(b).value, Value(c).value;
    ReadTriple(a, x, b, y, c, z);
    TripleSpare(x, y, z);
    assert Repad(s) == [a, b, c, '='];
  }

  lemma UnquadQuad(x: Sextet, y: Sextet, z: Sextet, w: Sextet)
    ensures var u := Unquad(x, y, z, w); Quad(u[0], u[1], u[2]) == [Symbol(x), Symbol(y), Symbol(z), Symbol(w)]
  {
    SplitAt4(x, y / 16);
    SplitAt16(y % 16, z / 4);
    SplitAt64(z % 4, w);
  }

  lemma ReadSymbols(s: string, t: string) returns (bytes: seq<Byte>)
    requires |s| == 4 && AllSymbols(s)
    ensures |bytes| == 3 && Quad(bytes[0], bytes[1], bytes[2]) == s
    ensures Read(s + t, 0, 0, 0) == PrependAll(bytes, Read(t, 0, 0, 0))
  {
    var x, y, z, w := Value(s[0]).value, Value(s[1]).value, Value(s[2]).value, Value(s[3]).value;
    FourThen(s[0], s[1], s[2], s[3], t);
    ReadQuad(s[0], x, s[1], y, s[2], z, s[3], w, t);
    UnquadQuad(x, y, z, w);
    bytes := Unquad(x, y, z, w);
    assert s == [s[0], s[1], s[2], s[3]];
  }

  lemma SpareTail(s: string, t: string)
    requires |s| == 4 && AllSymbols(s + t) && AllSymbols(t)
    ensures SpareBitsZero(s + t) == SpareBitsZero(t)
  {
    assert |s + t| % 4 == |t| % 4;
    assert t != "" ==> (s + t)[|s + t| - 1] == t[|t| - 1];
  }

  /** A group of four symbols in front changes nothing. */
  lemma CanonicalQuad(s: string, t: string)
    requires |s| == 4 && AllSymbols(s) && AllSymbols(t) && AllSymbols(s + t) && Canonical(t)
    ensures Canonical(s + t)
  {
    RepadTail(s, t);
    var bytes := ReadSymbols(s, Repad(t));
    var rest := Read(Repad(t), 0, 0, 0);
    if rest.Some? { SymbolsAfter(bytes, rest.value, s, t); }
    SpareTail(s, t);
  }

  lemma SymbolsAfter(bytes: seq<Byte>, rest: seq<Byte>, s: string, t: string)
    requires |bytes| == 3 && |s| == 4 && Quad(bytes[0], bytes[1], bytes[2]) == s
    ensures Symbols(bytes + rest) == s + t <==> Symbols(rest) == t
  {
    assert (bytes + rest)[3..] == rest;
    assert Symbols(bytes + rest) == s + Symbols(rest);
    assert (s + t)[4..] == t && (s + Symbols(rest))[4..] == Symbols(rest);
  }

  lemma {:induction false} AllCanonical(s: string)
    requires AllSymbols(s)
    ensures Canonical(s)
  {
    if |s| == 1 {
      CanonicalLone(s[0]);
      assert s == [s[0]];
    } else if |s| == 2 {
      CanonicalPair(s[0], s[1]);
      assert s == [s[0], s[1]];
    } else if |s| == 3 {
      CanonicalTriple(s[0], s[1], s[2]);
      assert s == [s[0], s[1], s[2]];
    } else if |s| > 3 {
      AllCanonical(s[4..]);
      assert s == s[..4] + s[4..];
      CanonicalQuad(s[..4], s[4..]);
    }
  }

  /**
    A text of alphabet symbols decodes exactly when its length is not one more than a multiple of four, and
    is what the encoder writes for those bytes exactly when the unused bits of its last symbol are zero.
   */
  lemma EncodeDecodeIff(s: string)
    requires AllSymbols(s)
    ensures Decode(s).None? <==> |s| % 4 == 1
    ensures Decode(s).Some? ==> (Encode(Decode(s).value) == s <==> SpareBitsZero(s))
  {
    forall i | 0 <= i < |s| ensures s[i] < 128 as char { SymbolValue(Value(s[i]).value); }
    AllCanonical(s);
    if Decode(s).Some? { EncodeIsSymbols(Decode(s).value); }
  }

  /** The encoder writes exactly the texts of symbols of a possible length whose unused bits are zero. */
  lemma EncodedTextsIff(s: string)
    ensures (exists data: seq<Byte> :: Encode(data) == s) <==> AllSymbols(s) && |s| % 4 != 1 && SpareBitsZero(s)
  {
    if data: seq<Byte> :| Encode(data) == s {
      EncodeIsSymbols(data);
      SymbolsPlain(data);
      DecodeEncode(data);
    }
    if AllSymbols(s) { EncodeDecodeIff(s); }
  }

  // ---------- The text itself ----------

  const UPPER: string := "ABCDEFGHIJKLMNOPQRSTUVWXYZ"
  const LOWER: string := "abcdefghijklmnopqrstuvwxyz"
  const DIGITS: string := "0123456789"

  /** Table 2 of RFC 4648, section 5. */
  const ALPHABET: string := UPPER + LOWER + DIGITS + "-_"

  /** Letters and digits have consecutive codes. */
  lemma {:induction false} Consecutive(s: string, i: nat)
    requires i < |s| && forall j :: 0 < j < |s| ==> s[j] as int == s[j - 1] as int + 1
    ensures s[i] as int == s[0] as int + i
  {
    if i > 0 { Consecutive(s, i - 1); }
  }

  lemma Letters()
    ensures |UPPER| == 26 && forall j :: 0 < j < |UPPER| ==> UPPER[j] as int == UPPER[j - 1] as int + 1
    ensures |LOWER| == 26 && forall j :: 0 < j < |LOWER| ==> LOWER[j] as int == LOWER[j - 1] as int + 1
    ensures |DIGITS| == 10 && forall j :: 0 < j < |DIGITS| ==> DIGITS[j] as int == DIGITS[j - 1] as int + 1
  {
  }

  lemma Parts(v: Sextet)
    requires |UPPER| == 26 && |LOWER| == 26 && |DIGITS| == 10
    ensures |ALPHABET| == 64
    ensures ALPHABET[v] == if v < 26 then UPPER[v] else if v < 52 then LOWER[v - 26] else if v < 62 then DIGITS[v - 52] else "-_"[v - 62]
  {
  }

  lemma UpperIs(v: nat)
    requires v < 26
    ensures |UPPER| == 26 && UPPER[v] as int == 'A' as int + v
  {
    Letters();
    Consecutive(UPPER, v);
  }

  lemma LowerIs(v: nat)
    requires v < 26
    ensures |LOWER| == 26 && LOWER[v] as int == 'a' as int + v
  {
    Letters();
    Consecutive(LOWER, v);
  }

  lemma DigitIs(v: nat)
    requires v < 10
    ensures |DIGITS| == 10 && DIGITS[v] as int == '0' as int + v
  {
    Letters();
    Consecutive(DIGITS, v);
  }

  lemma SymbolIs(v: Sextet)
    ensures |ALPHABET| == 64 && Symbol(v) == ALPHABET[v]
  {
    UpperIs(if v < 26 then v else 0);
    LowerIs(if 26 <= v < 52 then v - 26 else 0);
    DigitIs(if 52 <= v < 62 then v - 52 else 0);
    Parts(v);
  }

  /** The decoder reads the alphabet's symbols, and '+' and '/' for the last two. */
  lemma ReadsAs(c: char, v: Sextet)
    ensures Value(c) == Some(v) <==> c == ALPHABET[v] || (c == '+' && v == 62) || (c == '/' && v == 63)
  {
    SymbolIs(v);
    SymbolValue(v);
  }

  /** The bits of three bytes in order are those of their four symbols; one or two last bytes are filled up with zeros. */
  lemma QuadBits(a: Byte, b: Byte, c: Byte)
    ensures Quad(a, b, c) == [Symbol(a / 4), Symbol((a * 256 + b) / 16 % 64), Symbol((b * 256 + c) / 64 % 64), Symbol(c % 64)]
    ensures Symbols([a]) == [Symbol(a / 4), Symbol(a * 16 % 64)]
    ensures Symbols([a, b]) == [Symbol(a / 4), Symbol((a * 256 + b) / 16 % 64), Symbol(b * 4 % 64)]
  {
    MiddleBits(a, b);
    MiddleBits2(b, c);
    LowBits(a, b);
  }

  lemma MiddleBits(a: Byte, b: Byte)
    ensures (a * 256 + b) / 16 % 64 == a % 4 * 16 + b / 16
  {
    var h, l, n := a / 4, a % 4, b / 16;
    assert a * 256 + b == (h * 64 + (l * 16 + n)) * 16 + b % 16;
    SplitAt16(h * 64 + (l * 16 + n), b % 16);
    SplitAt64(h, l * 16 + n);
  }

  lemma MiddleBits2(b: Byte, c: Byte)
    ensures (b * 256 + c) / 64 % 64 == b % 16 * 4 + c / 64
  {
    var h, l, n := b / 16, b % 16, c / 64;
    assert b * 256 + c == (h * 64 + (l * 4 + n)) * 64 + c % 64;
    SplitAt64(h * 64 + (l * 4 + n), c % 64);
    SplitAt64(h, l * 4 + n);
  }

  lemma LowBits(a: Byte, b: Byte)
    ensures a * 16 % 64 == a % 4 * 16 && b * 4 % 64 == b % 16 * 4
  {
  }

  /** Each byte of an id is printed as two lower-case hexadecimal digits, the high one first. */
  lemma HexIs(b: Byte, rest: seq<Byte>)
    ensures Hex([b] + rest) == ["0123456789abcdef"[b / 16], "0123456789abcdef"[b % 16]] + Hex(rest)
  {
    HexDigitIs(b / 16);
    HexDigitIs(b % 16);
    assert ([b] + rest)[1..] == rest;
  }

  lemma HexDigitIs(d: Nibble)
    ensures HexDigit(d) == "0123456789abcdef"[d]
  {
  }

  /** A printed token is the id, a dot and the secret's symbols. */
  lemma PrintIs(id: Uuid, secret: seq<Byte>)
    ensures Print(id, secret) == Hex(id) + "." + Symbols(secret) && |Hex(id)| == 32
  {
    EncodeIsSymbols(secret);
    HexLength(id);
  }

  lemma {:induction false} HexLength(data: seq<Byte>)
    ensures |Hex(data)| == 2 * |data|
  {
    if data != [] { HexLength(data[1..]); }
  }

  // ---------- Raw tokens ----------

  lemma HexByte(b: Byte)
    ensures HexValue(HexDigit(b / 16)) == Some(b / 16) && HexValue(HexDigit(b % 16)) == Some(b % 16)
    ensures HexDigit(b / 16) != '.' && HexDigit(b % 16) != '.'
  {
  }

  lemma {:induction false} FromHexHex(data: seq<Byte>)
    ensures FromHex(Hex(data)) == Some(data) && '.' !in Hex(data)
  {
    if data != [] {
      HexByte(data[0]);
      FromHexHex(data[1..]);
      var s := Hex(data);
      assert s[2..] == Hex(data[1..]);
      assert data == [data[0]] + data[1..];
    }
  }

  lemma {:induction false} FirstDotAfter(s: string, t: string)
    requires '.' !in s
    ensures '.' in s + "." + t && FirstDot(s + "." + t) == |s|
  {
    var whole := s + "." + t;
    assert whole[|s|] == '.';
    if s != "" {
      assert whole[1..] == s[1..] + "." + t && whole[0] == s[0];
      FirstDotAfter(s[1..], t);
    }
  }

  /** A printed token is parsed back to its id and secret exactly when the secret has at least 32 bytes. */
  lemma ParsePrint(id: Uuid, secret: seq<Byte>)
    ensures Parse(Print(id, secret)) == if |secret| >= 32 then Some((id, secret)) else None
  {
    FromHexHex(id);
    FirstDotAfter(Hex(id), Encode(secret));
    DecodeEncode(secret);
    var raw := Print(id, secret);
    assert raw[..|Hex(id)|] == Hex(id) && raw[|Hex(id)| + 1..] == Encode(secret);
  }

  /** Characters outside the alphabet are skipped, but a text that is not ASCII is refused. */
  lemma JunkSkipped(c: char, t: string, pos: nat, left: nat, pads: nat)
    requires pos < 4 && left < [1, 64, 16, 4][pos] && c != '=' && forall v: Sextet :: Value(c) != Some(v)
    ensures Read([c] + t, pos, left, pads) == Read(t, pos, left, pads)
  {
    assert ([c] + t)[1..] == t;
  }

  lemma NotAsciiRefused(s: string, i: nat)
    requires i < |s| && s[i] as int >= 128
    ensures Decode(s).None?
  {
  }

  lemma {:induction false} FromHexLength(s: string)
    ensures FromHex(s).Some? ==> |s| == 2 * |FromHex(s).value|
  {
    if |s| > 1 { FromHexLength(s[2..]); }
  }

  /** What parses is 32 hexadecimal digits, a dot and the base64 of at least 32 bytes. */
  lemma ParsedShape(raw: string)
    requires Parse(raw).Some?
    ensures var (id, secret) := Parse(raw).value;
            && |raw| > 32 && raw[32] == '.' && FromHex(raw[..32]) == Some(id) && Decode(raw[33..]) == Some(secret) && |secret| >= 32
  {
    FromHexLength(raw[..FirstDot(raw)]);
  }

  /** Different tokens are printed differently. */
  lemma PrintInjective(id: Uuid, secret: seq<Byte>, id': Uuid, secret': seq<Byte>)
    requires Print(id, secret) == Print(id', secret')
    ensures id == id' && secret == secret'
  {
    FromHexHex(id); FromHexHex(id');
    FirstDotAfter(Hex(id), Encode(secret)); FirstDotAfter(Hex(id'), Encode(secret'));
    DecodeEncode(secret); DecodeEncode(secret');
    var raw, dot := Print(id, secret), |Hex(id)|;
    assert raw[..dot] == Hex(id) && raw[dot + 1..] == Encode(secret);
    assert raw[..dot] == Hex(id') && raw[dot + 1..] == Encode(secret');
  }
}
