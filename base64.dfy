/**
 * Standard base64 (section 4 of RFC 4648), as produced by Go's
 * base64.StdEncoding.EncodeToString: the alphabet A-Z a-z 0-9 + /,
 * '=' padding to a whole number of 4-character quanta, no line breaks.
 *
 * The model has two layers. The quantum layer turns 3-byte groups into
 * four symbols (a 6-bit digit or the pad) and back; the character layer
 * writes each symbol as one character of the alphabet and reads it back.
 * The decoder is strict: it rejects a bad length, a character outside the
 * alphabet, misplaced padding and non-zero pad bits, so Encode and Decode
 * are proved to be exact inverses in both directions.
 */
module Base64 {
  import opened Wrappers
  import opened Bytes

  /** A 6-bit value, the index of one alphabet character. */
  type Sextet = x: int | 0 <= x < 64

  /** One output position: an alphabet digit or the pad character. */
  datatype Symbol = Digit(x: Sextet) | Pad

  const PadChar: char := '='

  // ---------------------------------------------------------------------
  // Character layer

  /** The character for a sextet: "ABC...XYZabc...xyz0123456789+/"[x]. */
  function CharOf(x: Sextet): char
  {
    if x < 26 then ('A' as int + x) as char
    else if x < 52 then ('a' as int + (x - 26)) as char
    else if x < 62 then ('0' as int + (x - 52)) as char
    else if x == 62 then '+'
    else '/'
  }

  /** The sextet a character stands for, or None outside the alphabet. */
  function SextetOf(c: char): Option<Sextet>
  {
    if 'A' <= c <= 'Z' then Some(c as int - 'A' as int)
    else if 'a' <= c <= 'z' then Some(c as int - 'a' as int + 26)
    else if '0' <= c <= '9' then Some(c as int - '0' as int + 52)
    else if c == '+' then Some(62)
    else if c == '/' then Some(63)
    else None
  }

  predicate IsAlphabetChar(c: char)
  {
    SextetOf(c).Some?
  }

  function SymbolChar(s: Symbol): char
  {
    match s
    case Digit(x) => CharOf(x)
    case Pad => PadChar
  }

  function CharSymbol(c: char): Option<Symbol>
  {
    if c == PadChar then Some(Pad)
    else match SextetOf(c)
      case Some(x) => Some(Digit(x))
      case None => None
  }

  /** Reading back the character written for a symbol gives the symbol. */
  lemma CharSymbolOfSymbolChar(s: Symbol)
    ensures CharSymbol(SymbolChar(s)) == Some(s)
    ensures s.Digit? <==> IsAlphabetChar(SymbolChar(s))
  {
  }

  /** A character that reads as a symbol is the one written for it. */
  lemma SymbolCharOfCharSymbol(c: char)
    requires CharSymbol(c).Some?
    ensures SymbolChar(CharSymbol(c).value) == c
  {
  }

  /** The text of a symbol sequence, one character per symbol. */
  function Render(syms: seq<Symbol>): (s: string)
    ensures |s| == |syms|
  {
    seq(|syms|, i requires 0 <= i < |syms| => SymbolChar(syms[i]))
  }

  /** The symbols of a text, or None if some character is outside the alphabet and not '='. */
  function Scan(s: string): Option<seq<Symbol>>
  {
    if forall i :: 0 <= i < |s| ==> CharSymbol(s[i]).Some? then
      Some(seq(|s|, i requires 0 <= i < |s| => CharSymbol(s[i]).value))
    else None
  }

  lemma ScanRender(syms: seq<Symbol>)
    ensures Scan(Render(syms)) == Some(syms)
  {
    var s := Render(syms);
    forall i | 0 <= i < |s| ensures CharSymbol(s[i]) == Some(syms[i]) {
      CharSymbolOfSymbolChar(syms[i]);
    }
    assert Scan(s).value == syms;
  }

  lemma RenderScan(s: string, syms: seq<Symbol>)
    requires Scan(s) == Some(syms)
    ensures Render(syms) == s
  {
    forall i | 0 <= i < |s| ensures SymbolChar(syms[i]) == s[i] {
      SymbolCharOfCharSymbol(s[i]);
    }
  }

  // ---------------------------------------------------------------------
  // Quantum layer

  /** Number of '=' characters that end the encoding of n bytes. */
  function PadLength(n: nat): (k: nat)
    ensures k <= 2
    ensures (n + k) % 3 == 0
  {
    (3 - n % 3) % 3
  }

  /** One full quantum: 3 bytes become 4 digits. */
  function EncodeGroup(b0: Byte, b1: Byte, b2: Byte): seq<Symbol>
  {
    [Digit(b0 / 4), Digit((b0 % 4) * 16 + b1 / 16), Digit((b1 % 16) * 4 + b2 / 64), Digit(b2 % 64)]
  }

  /** A final quantum of 1 byte: 2 digits and two pads. */
  function EncodeTail1(b0: Byte): seq<Symbol>
  {
    [Digit(b0 / 4), Digit((b0 % 4) * 16), Pad, Pad]
  }

  /** A final quantum of 2 bytes: 3 digits and one pad. */
  function EncodeTail2(b0: Byte, b1: Byte): seq<Symbol>
  {
    [Digit(b0 / 4), Digit((b0 % 4) * 16 + b1 / 16), Digit((b1 % 16) * 4), Pad]
  }

  /** The symbols of the encoding: full quanta, then a padded final quantum for 1 or 2 leftover bytes. */
  function EncodeSymbols(data: seq<Byte>): (syms: seq<Symbol>)
    ensures |syms| == 4 * ((|data| + 2) / 3)
    decreases |data|
  {
    if |data| == 0 then []
    else if |data| == 1 then EncodeTail1(data[0])
    else if |data| == 2 then EncodeTail2(data[0], data[1])
    else EncodeGroup(data[0], data[1], data[2]) + EncodeSymbols(data[3..])
  }

  /** A quantum of four digits carries three bytes. */
  function DecodeGroup(q: seq<Symbol>): Option<seq<Byte>>
    requires |q| == 4
  {
    match (q[0], q[1], q[2], q[3])
    case (Digit(c0), Digit(c1), Digit(c2), Digit(c3)) =>
      Some([c0 * 4 + c1 / 16, (c1 % 16) * 16 + c2 / 4, (c2 % 4) * 64 + c3])
    case _ => None
  }

  /** The last quantum: four digits, or "xxx=" / "xx==" whose pad bits are zero. */
  function DecodeLast(q: seq<Symbol>): Option<seq<Byte>>
    requires |q| == 4
  {
    match (q[0], q[1], q[2], q[3])
    case (Digit(c0), Digit(c1), Pad, Pad) =>
      if c1 % 16 == 0 then Some([c0 * 4 + c1 / 16]) else None
    case (Digit(c0), Digit(c1), Digit(c2), Pad) =>
      if c2 % 4 == 0 then Some([c0 * 4 + c1 / 16, (c1 % 16) * 16 + c2 / 4]) else None
    case _ => DecodeGroup(q)
  }

  function DecodeSymbols(syms: seq<Symbol>): Option<seq<Byte>>
    decreases |syms|
  {
    if |syms| == 0 then Some([])
    else if |syms| < 4 then None
    else if |syms| == 4 then DecodeLast(syms)
    else
      match DecodeGroup(syms[..4])
      case None => None
      case Some(head) =>
        match DecodeSymbols(syms[4..])
        case None => None
        case Some(rest) => Some(head + rest)
  }

  // ---------------------------------------------------------------------
  // The codec

  /** base64.StdEncoding.EncodeToString. */
  function Encode(data: seq<Byte>): (s: string)
    ensures |s| == 4 * ((|data| + 2) / 3)
  {
    Render(EncodeSymbols(data))
  }

  /** Strict standard base64 decoding; None for any text Encode cannot produce. */
  function Decode(s: string): Option<seq<Byte>>
  {
    match Scan(s)
    case None => None
    case Some(syms) => DecodeSymbols(syms)
  }

  lemma GroupRoundTrip(b0: Byte, b1: Byte, b2: Byte)
    ensures DecodeGroup(EncodeGroup(b0, b1, b2)) == Some([b0, b1, b2])
  {
    assert ((b0 % 4) * 16 + b1 / 16) / 16 == b0 % 4;
    assert ((b0 % 4) * 16 + b1 / 16) % 16 == b1 / 16;
    assert ((b1 % 16) * 4 + b2 / 64) / 4 == b1 % 16;
    assert ((b1 % 16) * 4 + b2 / 64) % 4 == b2 / 64;
  }

  lemma Tail1RoundTrip(b0: Byte)
    ensures DecodeLast(EncodeTail1(b0)) == Some([b0])
  {
    assert ((b0 % 4) * 16) % 16 == 0;
    assert ((b0 % 4) * 16) / 16 == b0 % 4;
  }

  lemma Tail2RoundTrip(b0: Byte, b1: Byte)
    ensures DecodeLast(EncodeTail2(b0, b1)) == Some([b0, b1])
  {
    assert ((b0 % 4) * 16 + b1 / 16) / 16 == b0 % 4;
    assert ((b0 % 4) * 16 + b1 / 16) % 16 == b1 / 16;
    assert ((b1 % 16) * 4) % 4 == 0;
    assert ((b1 % 16) * 4) / 4 == b1 % 16;
  }

  lemma Tail3RoundTrip(b0: Byte, b1: Byte, b2: Byte)
    ensures DecodeLast(EncodeGroup(b0, b1, b2)) == Some([b0, b1, b2])
  {
    GroupRoundTrip(b0, b1, b2);
    GroupIsLast(EncodeGroup(b0, b1, b2));
  }

  /** Four digits read the same as a last quantum as they do as an inner one. */
  lemma GroupIsLast(q: seq<Symbol>)
    requires |q| == 4 && q[0].Digit? && q[1].Digit? && q[2].Digit? && q[3].Digit?
    ensures DecodeLast(q) == DecodeGroup(q)
  {
  }

  /** The symbols of 1 to 3 bytes are a single final quantum. */
  lemma EncodeShort(data: seq<Byte>)
    requires 1 <= |data| <= 3
    ensures |data| == 1 ==> EncodeSymbols(data) == EncodeTail1(data[0]) && data == [data[0]]
    ensures |data| == 2 ==> EncodeSymbols(data) == EncodeTail2(data[0], data[1]) && data == [data[0], data[1]]
    ensures |data| == 3 ==> EncodeSymbols(data) == EncodeGroup(data[0], data[1], data[2]) && data == [data[0], data[1], data[2]]
  {
    if |data| == 3 {
      assert EncodeSymbols(data[3..]) == [];
    }
  }

  lemma LastRoundTrip(data: seq<Byte>)
    requires 1 <= |data| <= 3
    ensures DecodeLast(EncodeSymbols(data)) == Some(data)
  {
    EncodeShort(data);
    if |data| == 1 {
      Tail1RoundTrip(data[0]);
    } else if |data| == 2 {
      Tail2RoundTrip(data[0], data[1]);
    } else {
      Tail3RoundTrip(data[0], data[1], data[2]);
    }
  }

  lemma {:induction false} DecodeEncodeSymbols(data: seq<Byte>)
    ensures DecodeSymbols(EncodeSymbols(data)) == Some(data)
    decreases |data|
  {
    if |data| == 0 {
    } else if |data| <= 3 {
      LastRoundTrip(data);
    } else {
      var syms := EncodeSymbols(data);
      var head := EncodeGroup(data[0], data[1], data[2]);
      assert syms[..4] == head;
      assert syms[4..] == EncodeSymbols(data[3..]);
      GroupRoundTrip(data[0], data[1], data[2]);
      DecodeEncodeSymbols(data[3..]);
      assert [data[0], data[1], data[2]] + data[3..] == data;
    }
  }

  lemma GroupCanonical(q: seq<Symbol>, data: seq<Byte>)
    requires |q| == 4
    requires DecodeGroup(q) == Some(data)
    ensures |data| == 3 && EncodeGroup(data[0], data[1], data[2]) == q
  {
  }

  lemma Tail1Canonical(c0: Sextet, c1: Sextet)
    requires c1 % 16 == 0
    ensures EncodeTail1(c0 * 4 + c1 / 16) == [Digit(c0), Digit(c1), Pad, Pad]
  {
    assert (c0 * 4 + c1 / 16) / 4 == c0;
    assert ((c0 * 4 + c1 / 16) % 4) * 16 == c1;
  }

  lemma Tail2Canonical(c0: Sextet, c1: Sextet, c2: Sextet)
    requires c2 % 4 == 0
    ensures EncodeTail2(c0 * 4 + c1 / 16, (c1 % 16) * 16 + c2 / 4) == [Digit(c0), Digit(c1), Digit(c2), Pad]
  {
    var b0, b1 := c0 * 4 + c1 / 16, (c1 % 16) * 16 + c2 / 4;
    assert b0 / 4 == c0 && b0 % 4 == c1 / 16;
    assert b1 / 16 == c1 % 16 && b1 % 16 == c2 / 4;
    assert (b0 % 4) * 16 + b1 / 16 == c1;
    assert (b1 % 16) * 4 == c2;
  }

  lemma LastCanonical(q: seq<Symbol>, data: seq<Byte>)
    requires |q| == 4
    requires DecodeLast(q) == Some(data)
    ensures EncodeSymbols(data) == q
  {
    if q[2] == Pad && q[3] == Pad {
      assert |data| == 1;
      EncodeShort(data);
      Tail1Canonical(q[0].x, q[1].x);
    } else if q[3] == Pad {
      assert |data| == 2;
      EncodeShort(data);
      Tail2Canonical(q[0].x, q[1].x, q[2].x);
    } else {
      GroupCanonical(q, data);
      EncodeShort(data);
    }
  }

  lemma {:induction false} EncodeDecodeSymbols(syms: seq<Symbol>, data: seq<Byte>)
    requires DecodeSymbols(syms) == Some(data)
    ensures EncodeSymbols(data) == syms
    decreases |syms|
  {
    if |syms| == 0 {
    } else if |syms| == 4 {
      LastCanonical(syms, data);
    } else {
      var head := DecodeGroup(syms[..4]).value;
      var rest := DecodeSymbols(syms[4..]).value;
      assert data == head + rest;
      GroupCanonical(syms[..4], head);
      EncodeDecodeSymbols(syms[4..], rest);
      assert |rest| > 0;
      assert data[..3] == head;
      assert data[3..] == rest;
      assert syms == syms[..4] + syms[4..];
    }
  }

  /** Decoding the encoding gives back the original bytes. */
  lemma DecodeEncode(data: seq<Byte>)
    ensures Decode(Encode(data)) == Some(data)
  {
    ScanRender(EncodeSymbols(data));
    DecodeEncodeSymbols(data);
  }

  /** Encoding what was decoded gives back the text: the decoder accepts only canonical text. */
  lemma EncodeDecode(s: string, data: seq<Byte>)
    requires Decode(s) == Some(data)
    ensures Encode(data) == s
  {
    var syms := Scan(s).value;
    RenderScan(s, syms);
    EncodeDecodeSymbols(syms, data);
  }

  /** Decode and Encode are inverse bijections between byte strings and canonical base64 text. */
  lemma DecodeIffEncode(s: string, data: seq<Byte>)
    ensures Decode(s) == Some(data) <==> s == Encode(data)
  {
    if Decode(s) == Some(data) {
      EncodeDecode(s, data);
    }
    if s == Encode(data) {
      DecodeEncode(data);
    }
  }

  /** Digits everywhere except the last k positions, which are pads. */
  ghost predicate PaddedBy(syms: seq<Symbol>, k: nat)
  {
    k <= |syms| &&
    (forall i :: 0 <= i < |syms| - k ==> syms[i].Digit?) &&
    (forall i :: |syms| - k <= i < |syms| ==> syms[i] == Pad)
  }

  lemma PaddedByPrepend(head: seq<Symbol>, tail: seq<Symbol>, k: nat)
    requires forall i :: 0 <= i < |head| ==> head[i].Digit?
    requires PaddedBy(tail, k)
    ensures PaddedBy(head + tail, k)
  {
    var s := head + tail;
    forall i | |head| <= i < |s| ensures s[i] == tail[i - |head|] {}
  }

  lemma QuantumShape(q: seq<Symbol>, k: nat)
    requires |q| == 4 && k <= 2
    requires q[0].Digit? && q[1].Digit? && (k < 2 ==> q[2].Digit?) && (k < 1 ==> q[3].Digit?)
    requires k >= 1 ==> q[3] == Pad
    requires k == 2 ==> q[2] == Pad
    ensures PaddedBy(q, k)
  {
  }

  lemma ShortShape(data: seq<Byte>)
    requires 1 <= |data| <= 3
    ensures PaddedBy(EncodeSymbols(data), PadLength(|data|))
  {
    if |data| == 1 {
      assert PadLength(1) == 2;
      assert EncodeSymbols(data) == EncodeTail1(data[0]);
      QuantumShape(EncodeTail1(data[0]), 2);
    } else if |data| == 2 {
      assert PadLength(2) == 1;
      assert EncodeSymbols(data) == EncodeTail2(data[0], data[1]);
      QuantumShape(EncodeTail2(data[0], data[1]), 1);
    } else {
      assert PadLength(3) == 0;
      assert EncodeSymbols(data[3..]) == [];
      assert EncodeSymbols(data) == EncodeGroup(data[0], data[1], data[2]);
      QuantumShape(EncodeGroup(data[0], data[1], data[2]), 0);
    }
  }

  lemma {:induction false} SymbolShape(data: seq<Byte>)
    ensures PaddedBy(EncodeSymbols(data), PadLength(|data|))
    decreases |data|
  {
    if 1 <= |data| <= 3 {
      ShortShape(data);
    } else if |data| > 3 {
      var head, tail := EncodeGroup(data[0], data[1], data[2]), EncodeSymbols(data[3..]);
      assert EncodeSymbols(data) == head + tail;
      SymbolShape(data[3..]);
      assert |data[3..]| % 3 == |data| % 3;
      PaddedByPrepend(head, tail, PadLength(|data|));
    }
  }

  /**
   * The shape of the output: every character is in the alphabet except the
   * last PadLength(|data|) characters, which are '=' -- at most two of them.
   */
  lemma EncodeShape(data: seq<Byte>)
    ensures var s, k := Encode(data), PadLength(|data|);
      k <= 2 && k <= |s| &&
      (forall i :: 0 <= i < |s| - k ==> IsAlphabetChar(s[i])) &&
      (forall i :: |s| - k <= i < |s| ==> s[i] == PadChar)
  {
    var syms := EncodeSymbols(data);
    SymbolShape(data);
    forall i | 0 <= i < |syms| ensures syms[i].Digit? <==> IsAlphabetChar(Encode(data)[i]) {
      CharSymbolOfSymbolChar(syms[i]);
    }
  }

  /** Exactly PadLength(|data|) '=' characters, so never more than two. */
  lemma EncodePadCount(data: seq<Byte>)
    ensures multiset(Encode(data))[PadChar] == PadLength(|data|)
  {
    var s, k := Encode(data), PadLength(|data|);
    EncodeShape(data);
    var body, pads := s[..|s| - k], s[|s| - k..];
    assert s == body + pads;
    assert PadChar !in body by {
      forall i | 0 <= i < |body| ensures body[i] != PadChar {
        assert IsAlphabetChar(s[i]);
      }
    }
    assert pads == seq(k, _ => PadChar);
    assert multiset(s) == multiset(body) + multiset(pads);
    if k == 1 {
      assert pads == [PadChar];
    } else if k == 2 {
      assert pads == [PadChar, PadChar];
    }
  }
  // ---------------------------------------------------------------------
  // Test vectors

  /** The text of one quantum, character by character. */
  lemma RenderQuantum(q: seq<Symbol>)
    requires |q| == 4
    ensures Render(q) == [SymbolChar(q[0]), SymbolChar(q[1]), SymbolChar(q[2]), SymbolChar(q[3])]
  {
  }

  /** The base64 test vectors of section 10 of RFC 4648, and two with the characters '+' and '/'. */
  lemma EncodeTestVectors()
    ensures Encode([]) == ""
    ensures Encode([102]) == "Zg=="
    ensures Encode([102, 111]) == "Zm8="
    ensures Encode([102, 111, 111]) == "Zm9v"
    ensures Encode([255, 255, 255]) == "////"
    ensures Encode([251, 239]) == "++8="
  {
    assert EncodeSymbols([102]) == EncodeTail1(102);
    RenderQuantum(EncodeTail1(102));
    assert EncodeSymbols([102, 111]) == EncodeTail2(102, 111);
    RenderQuantum(EncodeTail2(102, 111));
    var foo: seq<Byte> := [102, 111, 111];
    assert EncodeSymbols(foo[3..]) == [];
    assert EncodeSymbols(foo) == EncodeGroup(102, 111, 111);
    RenderQuantum(EncodeGroup(102, 111, 111));
    var ones: seq<Byte> := [255, 255, 255];
    assert EncodeSymbols(ones[3..]) == [];
    assert EncodeSymbols(ones) == EncodeGroup(255, 255, 255);
    RenderQuantum(EncodeGroup(255, 255, 255));
    assert EncodeSymbols([251, 239]) == EncodeTail2(251, 239);
    RenderQuantum(EncodeTail2(251, 239));
  }
}
