/**
 The secret's Base32 text (section 6 of RFC 4648): five bits a symbol in, eight bits a byte out. The
 decoder is checked against the encoder of the standard.
 */
module TotpBase32 {
  import opened Common
  import opened TotpProtobuf
  import opened Wrappers

  type Bits = seq<bool>

  // ---- Numbers and bits, the highest bit first ----

  function ToBits(v: nat, width: nat): (bits: Bits)
    ensures |bits| == width
  {
    if width == 0 then [] else ToBits(v / 2, width - 1) + [v % 2 == 1]
  }

  function FromBits(bits: Bits): nat {
    if bits == [] then 0 else 2 * FromBits(bits[..|bits| - 1]) + if bits[|bits| - 1] then 1 else 0
  }

  lemma {:induction false} NumberReadsBack(v: nat, width: nat)
    requires v < Power2(width)
    ensures FromBits(ToBits(v, width)) == v
  {
    if width > 0 {
      NumberReadsBack(v / 2, width - 1);
      assert ToBits(v, width)[..width - 1] == ToBits(v / 2, width - 1);
    }
  }

  lemma {:induction false} BitsReadBack(bits: Bits)
    ensures FromBits(bits) < Power2(|bits|) && ToBits(FromBits(bits), |bits|) == bits
  {
    if bits != [] {
      BitsReadBack(bits[..|bits| - 1]);
    }
  }

  lemma Widths()
    ensures Power2(5) == 32 && Power2(8) == 256
  {
    assert Power2(4) == 16;
    assert Power2(7) == 128;
  }

  lemma FiveBits(five: Bits)
    requires |five| == 5
    ensures FromBits(five) < 32 && ToBits(FromBits(five), 5) == five
  {
    BitsReadBack(five);
    Widths();
  }

  // ---- The alphabet ----

  function Symbol(index: nat): (c: char)
    requires index < 32
    ensures 'A' <= c <= 'Z' || '2' <= c <= '7'
  {
    if index < 26 then 'A' + index as char else '2' + (index - 26) as char
  }

  function IndexOf(c: char): (index: Option<nat>)
    ensures index.Some? ==> index.value < 32
  {
    if 'A' <= c <= 'Z' then Some((c - 'A') as nat)
    else if '2' <= c <= '7' then Some((c - '2') as nat + 26)
    else None
  }

  lemma SymbolReadsBack(index: nat)
    requires index < 32
    ensures IndexOf(Symbol(index)) == Some(index)
  {
  }

  predicate InAlphabet(c: char) {
    'A' <= c <= 'Z' || '2' <= c <= '7'
  }

  /** The letters count from 0, the digits from 26, and nothing else has an index. */
  lemma IndexIsThePlace(c: char, i: nat)
    ensures IndexOf(c) == Some(i) <==>
            (i < 26 && c == 'A' + i as char) || (26 <= i < 32 && c as int == '2' as int + i - 26)
    ensures IndexOf(c).None? <==> !InAlphabet(c)
  {
  }

  // ---- Decoding ----

  function WithoutSpaces(s: string): string {
    if s == "" then ""
    else WithoutSpaces(s[..|s| - 1]) + if IsSpace(s[|s| - 1]) then "" else [s[|s| - 1]]
  }

  function WithoutPadding(s: string): string {
    if s != "" && s[|s| - 1] == '=' then WithoutPadding(s[..|s| - 1]) else s
  }

  /** Upper case. Outside ASCII only the letters matter whose upper case lies in the alphabet: any other
      stays foreign to it. */
  function UpperOf(c: char): string {
    if 'a' <= c <= 'z' then [c - 'a' + 'A']
    else if c == '\U{DF}' then "SS"
    else if c == '\U{131}' then "I"
    else if c == '\U{17F}' then "S"
    else if c == '\U{FB00}' then "FF"
    else if c == '\U{FB01}' then "FI"
    else if c == '\U{FB02}' then "FL"
    else if c == '\U{FB03}' then "FFI"
    else if c == '\U{FB04}' then "FFL"
    else if c == '\U{FB05}' || c == '\U{FB06}' then "ST"
    else [c]
  }

  function Upper(s: string): string {
    if s == "" then "" else Upper(s[..|s| - 1]) + UpperOf(s[|s| - 1])
  }

  function Normalized(s: string): string {
    Upper(WithoutPadding(WithoutSpaces(s)))
  }

  /** Five bits per symbol; nothing when a symbol is not in the alphabet. */
  function SymbolBits(s: string): Option<Bits> {
    if s == "" then Some([])
    else
      match (SymbolBits(s[..|s| - 1]), IndexOf(s[|s| - 1]))
      case (Some(bits), Some(index)) => Some(bits + ToBits(index, 5))
      case _ => None
  }

  /** Whole bytes from the front; fewer than eight bits at the end are dropped. */
  function BytesOf(bits: Bits): seq<Byte> {
    if |bits| < 8 then []
    else
      BitsReadBack(bits[..8]);
      Widths();
      [FromBits(bits[..8])] + BytesOf(bits[8..])
  }

  method ReadSymbols(normalized: string) returns (r: Option<Bits>)
    ensures r == SymbolBits(normalized)
  {
    var bits: Bits := [];
    var i := 0;
    while i < |normalized|
      invariant i <= |normalized| && SymbolBits(normalized[..i]) == Some(bits)
    {
      var index := IndexOf(normalized[i]);
      assert normalized[..i + 1][..i] == normalized[..i];
      if index.None? {
        BadSymbolSpoilsAll(normalized, i + 1);
        return None;
      }
      bits := bits + ToBits(index.value, 5);
      i := i + 1;
    }
    assert normalized[..i] == normalized;
    return Some(bits);
  }

  method PackBytes(bits: Bits) returns (bytes: seq<Byte>)
    ensures bytes == BytesOf(bits)
  {
    bytes := [];
    var offset := 0;
    assert bits[0..] == bits;
    while offset + 8 <= |bits|
      invariant offset <= |bits| && BytesOf(bits) == bytes + BytesOf(bits[offset..])
    {
      OneByte(bits, offset);
      ghost var rest := BytesOf(bits[offset + 8..]);
      assert bytes + ([FromBits(bits[offset..offset + 8])] + rest) ==
          bytes + [FromBits(bits[offset..offset + 8])] + rest;
      bytes := bytes + [FromBits(bits[offset..offset + 8])];
      offset := offset + 8;
    }
  }

  lemma OneByte(bits: Bits, offset: nat)
    requires offset + 8 <= |bits|
    ensures FromBits(bits[offset..offset + 8]) < 256
    ensures BytesOf(bits[offset..]) == [FromBits(bits[offset..offset + 8])] + BytesOf(bits[offset + 8..])
  {
    BitsReadBack(bits[offset..offset + 8]);
    Widths();
    assert bits[offset..][..8] == bits[offset..offset + 8];
    assert bits[offset..][8..] == bits[offset + 8..];
  }

  /** The decoder: nothing for a text with a foreign symbol, otherwise its whole bytes. */
  method DecodeBase32(input: string) returns (bytes: Option<seq<Byte>>)
    ensures bytes == match SymbolBits(Normalized(input)) case Some(bits) => Some(BytesOf(bits)) case None => None
  {
    var bits := ReadSymbols(Normalized(input));
    if bits.None? {
      return None;
    }
    var packed := PackBytes(bits.value);
    return Some(packed);
  }

  /** Nothing is decoded exactly when some symbol of the text, spaces and padding apart and in upper case, is
      not of the alphabet. */
  lemma {:induction false} ForeignSymbolsAreRefused(s: string)
    ensures SymbolBits(s).None? <==> exists i :: 0 <= i < |s| && !InAlphabet(s[i])
  {
    if s != "" {
      var front := s[..|s| - 1];
      ForeignSymbolsAreRefused(front);
      IndexIsThePlace(s[|s| - 1], 0);
      assert forall i :: 0 <= i < |front| ==> s[i] == front[i];
    }
  }

  lemma {:induction false} BadSymbolSpoilsAll(s: string, n: nat)
    requires n <= |s| && SymbolBits(s[..n]).None?
    ensures SymbolBits(s).None?
    decreases |s| - n
  {
    if n < |s| {
      assert s[..n + 1][..n] == s[..n];
      BadSymbolSpoilsAll(s, n + 1);
    } else {
      assert s[..n] == s;
    }
  }

  // ---- The encoder of the standard, and back ----

  function BitsOf(bytes: seq<Byte>): Bits {
    if bytes == [] then [] else ToBits(bytes[0], 8) + BitsOf(bytes[1..])
  }

  /** Zero bits up to a whole symbol. */
  function Filled(bits: Bits): (r: Bits)
    ensures |r| % 5 == 0 && bits <= r && |r| < |bits| + 5
  {
    bits + seq((5 - |bits| % 5) % 5, i => false)
  }

  function SymbolOf(five: Bits): (c: char)
    requires |five| == 5
    ensures 'A' <= c <= 'Z' || '2' <= c <= '7'
  {
    FiveBits(five);
    Symbol(FromBits(five))
  }

  function Symbols(bits: Bits): (s: string)
    requires |bits| % 5 == 0
    ensures forall c :: c in s ==> 'A' <= c <= 'Z' || '2' <= c <= '7'
  {
    if bits == [] then ""
    else
      var n := |bits| - 5;
      Symbols(bits[..n]) + [SymbolOf(bits[n..])]
  }

  function Unpadded(bytes: seq<Byte>): string {
    Symbols(Filled(BitsOf(bytes)))
  }

  /** The text of the standard, padded to whole groups of eight symbols. */
  function Encode32(bytes: seq<Byte>): string {
    var s := Unpadded(bytes);
    s + seq((8 - |s| % 8) % 8, i => '=')
  }

  lemma SymbolsGrow(s: string, c: char, bits: Bits, index: nat)
    requires SymbolBits(s) == Some(bits) && IndexOf(c) == Some(index)
    ensures SymbolBits(s + [c]) == Some(bits + ToBits(index, 5))
  {
    assert (s + [c])[..|s|] == s;
  }

  lemma OneSymbol(s: string, bits: Bits, five: Bits)
    requires |five| == 5 && SymbolBits(s) == Some(bits)
    ensures SymbolBits(s + [SymbolOf(five)]) == Some(bits + five)
  {
    FiveBits(five);
    SymbolReadsBack(FromBits(five));
    SymbolsGrow(s, SymbolOf(five), bits, FromBits(five));
  }

  lemma SymbolsOneMore(front: Bits, five: Bits)
    requires |front| % 5 == 0 && |front + five| % 5 == 0 && |five| == 5
    ensures Symbols(front + five) == Symbols(front) + [SymbolOf(five)]
  {
    var bits := front + five;
    assert bits[..|front|] == front && bits[|front|..] == five;
  }

  lemma ReadsBackOneMore(front: Bits, five: Bits)
    requires |front| % 5 == 0 && |front + five| % 5 == 0 && |five| == 5 && SymbolBits(Symbols(front)) == Some(front)
    ensures SymbolBits(Symbols(front + five)) == Some(front + five)
  {
    SymbolsOneMore(front, five);
    OneSymbol(Symbols(front), front, five);
  }

  lemma {:induction false} SymbolsReadBack(bits: Bits)
    requires |bits| % 5 == 0
    ensures SymbolBits(Symbols(bits)) == Some(bits)
  {
    if bits != [] {
      var front, five := bits[..|bits| - 5], bits[|bits| - 5..];
      SymbolsReadBack(front);
      ReadsBackOneMore(front, five);
      assert front + five == bits;
    }
  }

  lemma ByteReadsBack(b: Byte)
    ensures FromBits(ToBits(b, 8)) == b
  {
    Widths();
    NumberReadsBack(b, 8);
  }

  lemma FirstByte(bits: Bits, first: Bits, rest: Bits)
    requires |first| == 8 && bits == first + rest
    ensures FromBits(first) < 256 && BytesOf(bits) == [FromBits(first)] + BytesOf(rest)
  {
    OneByte(bits, 0);
    assert bits[0..8] == first && bits[8..] == rest && bits[0..] == bits;
  }

  lemma {:induction false} BytesReadBack(bytes: seq<Byte>, tail: Bits)
    requires |tail| < 8
    ensures BytesOf(BitsOf(bytes) + tail) == bytes
  {
    if bytes == [] {
      assert BitsOf(bytes) + tail == tail;
    } else {
      var bits := BitsOf(bytes) + tail;
      ByteReadsBack(bytes[0]);
      FirstByte(bits, ToBits(bytes[0], 8), BitsOf(bytes[1..]) + tail);
      BytesReadBack(bytes[1..], tail);
    }
  }

  lemma SymbolsDecode(bytes: seq<Byte>)
    ensures SymbolBits(Unpadded(bytes)).Some? && BytesOf(SymbolBits(Unpadded(bytes)).value) == bytes
  {
    var bits := BitsOf(bytes);
    SymbolsReadBack(Filled(bits));
    assert Filled(bits) == bits + Filled(bits)[|bits|..];
    BytesReadBack(bytes, Filled(bits)[|bits|..]);
  }

  lemma {:induction false} NothingToRemove(s: string)
    requires forall c :: c in s ==> !IsSpace(c)
    ensures WithoutSpaces(s) == s
  {
    if s != "" {
      var front, last := s[..|s| - 1], s[|s| - 1];
      assert s == front + [last];
      assert last in s && forall c :: c in front ==> c in s;
      NothingToRemove(front);
    }
  }

  lemma {:induction false} PaddingIsRemoved(s: string, n: nat)
    requires s == "" || s[|s| - 1] != '='
    ensures WithoutPadding(s + seq(n, i => '=')) == s
  {
    var padded := s + seq(n, i => '=');
    if n == 0 {
      assert padded == s;
    } else {
      PaddingIsRemoved(s, n - 1);
      assert padded[..|padded| - 1] == s + seq(n - 1, i => '=');
    }
  }

  lemma {:induction false} UpperAlike(s: string, t: string)
    requires |s| == |t| && forall i :: 0 <= i < |s| ==> UpperOf(s[i]) == [t[i]]
    ensures Upper(s) == t
  {
    if s != "" {
      UpperAlike(s[..|s| - 1], t[..|t| - 1]);
      assert t == t[..|t| - 1] + [t[|t| - 1]];
    }
  }

  lemma AlreadyUpper(s: string)
    requires forall c :: c in s ==> 'A' <= c <= 'Z' || '2' <= c <= '7'
    ensures Upper(s) == s
  {
    forall i | 0 <= i < |s| ensures UpperOf(s[i]) == [s[i]] {
      assert s[i] in s;
    }
    UpperAlike(s, s);
  }

  lemma NoSpaceInside(s: string, n: nat)
    requires forall c :: c in s ==> 'A' <= c <= 'Z' || '2' <= c <= '7'
    ensures forall c :: c in s + seq(n, i => '=') ==> !IsSpace(c)
  {
  }

  /** A text as somebody may have typed it: the symbols in either case, in order, with any white space
      anywhere. */
  datatype Typing = Space(c: char) | Typed(symbol: char, lower: bool)

  function LowerOf(c: char): char {
    if 'A' <= c <= 'Z' then c - 'A' + 'a' else c
  }

  function TypedText(typing: seq<Typing>): string {
    if typing == [] then ""
    else
      var last := typing[|typing| - 1];
      TypedText(typing[..|typing| - 1]) +
      [if last.Space? then last.c else if last.lower then LowerOf(last.symbol) else last.symbol]
  }

  /** The symbols meant. */
  function Meant(typing: seq<Typing>): string {
    if typing == [] then ""
    else
      var last := typing[|typing| - 1];
      Meant(typing[..|typing| - 1]) + if last.Space? then "" else [last.symbol]
  }

  /** The symbols meant, in the case they were typed in. */
  function Cased(typing: seq<Typing>): string {
    if typing == [] then ""
    else
      var last := typing[|typing| - 1];
      Cased(typing[..|typing| - 1]) +
      if last.Space? then "" else if last.lower then [LowerOf(last.symbol)] else [last.symbol]
  }

  predicate SymbolOrPadding(c: char) {
    'A' <= c <= 'Z' || '2' <= c <= '7' || c == '='
  }

  ghost predicate Proper(typing: seq<Typing>) {
    forall i :: 0 <= i < |typing| ==>
      if typing[i].Space? then IsSpace(typing[i].c) else SymbolOrPadding(typing[i].symbol)
  }

  lemma {:induction false} SpacesGo(typing: seq<Typing>)
    requires Proper(typing)
    ensures WithoutSpaces(TypedText(typing)) == Cased(typing)
  {
    if typing != [] {
      var front, last := typing[..|typing| - 1], typing[|typing| - 1];
      SpacesGo(front);
      var text := TypedText(typing);
      assert text[..|text| - 1] == TypedText(front);
    }
  }

  /** Casing keeps the padding where it is, and upper case undoes it. */
  lemma {:induction false} CasingGoes(typing: seq<Typing>)
    requires Proper(typing)
    ensures |Cased(typing)| == |Meant(typing)|
    ensures forall i :: 0 <= i < |Meant(typing)| ==>
      UpperOf(Cased(typing)[i]) == [Meant(typing)[i]] && (Cased(typing)[i] == '=' <==> Meant(typing)[i] == '=')
  {
    if typing != [] {
      var front, last := typing[..|typing| - 1], typing[|typing| - 1];
      CasingGoes(front);
    }
  }

  lemma {:induction false} PaddingGoesAlike(s: string, t: string)
    requires |s| == |t| && forall i :: 0 <= i < |s| ==> UpperOf(s[i]) == [t[i]] && (s[i] == '=' <==> t[i] == '=')
    ensures Upper(WithoutPadding(s)) == WithoutPadding(t)
  {
    if s != "" && s[|s| - 1] == '=' {
      PaddingGoesAlike(s[..|s| - 1], t[..|t| - 1]);
    } else {
      UpperAlike(s, t);
    }
  }

  /** The text of a secret, padded or not. */
  ghost predicate IsTextOf(s: string, bytes: seq<Byte>) {
    exists n: nat :: s == Unpadded(bytes) + Padding(n)
  }

  function Padding(n: nat): string {
    seq(n, i => '=')
  }

  /** Decoding inverts the encoder of the standard for every byte string, however its text is padded,
      typed in upper or lower case, and broken up by white space. */
  lemma SecretReadsBack(bytes: seq<Byte>, typing: seq<Typing>)
    requires Proper(typing) && IsTextOf(Meant(typing), bytes)
    ensures Normalized(TypedText(typing)) == Unpadded(bytes)
    ensures SymbolBits(Normalized(TypedText(typing))).Some?
    ensures BytesOf(SymbolBits(Normalized(TypedText(typing))).value) == bytes
  {
    var n: nat :| Meant(typing) == Unpadded(bytes) + Padding(n);
    SpacesGo(typing);
    CasingGoes(typing);
    PaddingGoesAlike(Cased(typing), Meant(typing));
    assert Unpadded(bytes) != "" ==> Unpadded(bytes)[|Unpadded(bytes)| - 1] in Unpadded(bytes);
    PaddingIsRemoved(Unpadded(bytes), n);
    SymbolsDecode(bytes);
  }

  /** The encoder's own text is read back. */
  lemma EncodedReadsBack(bytes: seq<Byte>)
    ensures Normalized(Encode32(bytes)) == Unpadded(bytes)
  {
    var s := Unpadded(bytes);
    var n := (8 - |s| % 8) % 8;
    assert Encode32(bytes) == s + seq(n, i => '=');
    NoSpaceInside(s, n);
    NothingToRemove(Encode32(bytes));
    assert s != "" ==> s[|s| - 1] in s;
    PaddingIsRemoved(s, n);
    AlreadyUpper(s);
  }

  // ---- Text and bytes as numbers ----

  /** The number a text writes in base 32, the first symbol the highest. */
  function TextNumber(s: string): nat {
    if s == "" then 0 else 32 * TextNumber(s[..|s| - 1]) + IndexOf(s[|s| - 1]).GetOr(0)
  }

  /** The number some bytes are, the first the highest. */
  function BytesNumber(bytes: seq<Byte>): nat {
    if bytes == [] then 0 else bytes[0] * Power2(8 * (|bytes| - 1)) + BytesNumber(bytes[1..])
  }

  lemma {:induction false} PowersMultiply(a: nat, b: nat)
    ensures Power2(a + b) == Power2(a) * Power2(b)
  {
    if b > 0 {
      PowersMultiply(a, b - 1);
    }
  }

  lemma OneMoreBit(x: Bits, last: bool)
    ensures FromBits(x + [last]) == 2 * FromBits(x) + if last then 1 else 0
  {
    assert (x + [last])[..|x|] == x;
  }

  lemma {:induction false} BitsJoin(x: Bits, y: Bits)
    ensures FromBits(x + y) == FromBits(x) * Power2(|y|) + FromBits(y)
  {
    if y == [] {
      assert x + y == x;
    } else {
      var front, last := y[..|y| - 1], y[|y| - 1];
      BitsJoin(x, front);
      assert x + y == (x + front) + [last];
      OneMoreBit(x + front, last);
      Doubled(FromBits(x), Power2(|front|));
    }
  }

  lemma Doubled(a: nat, b: nat)
    ensures 2 * (a * b) == a * (2 * b)
  {
  }

  /** One more symbol is one more digit in base 32. */
  lemma OneMoreDigit(bits: Bits, index: nat)
    requires index < 32
    ensures FromBits(bits + ToBits(index, 5)) == 32 * FromBits(bits) + index
  {
    Widths();
    NumberReadsBack(index, 5);
    BitsJoin(bits, ToBits(index, 5));
  }

  lemma SymbolsShrink(s: string)
    requires s != "" && SymbolBits(s).Some?
    ensures SymbolBits(s[..|s| - 1]).Some? && IndexOf(s[|s| - 1]).Some?
    ensures SymbolBits(s).value == SymbolBits(s[..|s| - 1]).value + ToBits(IndexOf(s[|s| - 1]).value, 5)
  {
  }

  lemma {:induction false} TextIsItsNumber(s: string, bits: Bits)
    requires SymbolBits(s) == Some(bits)
    ensures |bits| == 5 * |s| && FromBits(bits) == TextNumber(s)
  {
    if s != "" {
      SymbolsShrink(s);
      var front, index := SymbolBits(s[..|s| - 1]).value, IndexOf(s[|s| - 1]).value;
      TextIsItsNumber(s[..|s| - 1], front);
      OneMoreDigit(front, index);
    }
  }

  /** What the whole bytes of some bits leave over. */
  ghost predicate LeavesOver(bits: Bits, bytes: seq<Byte>, rest: nat) {
    && |bytes| == |bits| / 8 && rest < Power2(|bits| % 8)
    && FromBits(bits) == BytesNumber(bytes) * Power2(|bits| % 8) + rest
  }

  lemma OneMoreByte(first: Bits, more: Bits, bytes: seq<Byte>, rest: nat)
    requires |first| == 8 && FromBits(first) < 256 && LeavesOver(more, bytes, rest)
    ensures LeavesOver(first + more, [FromBits(first)] + bytes, rest)
  {
    BitsJoin(first, more);
    var n, k := |bytes|, |more| % 8;
    WholeBytes(|more|);
    PowersMultiply(8 * n, k);
    BytesNumberGrows(FromBits(first), bytes);
    Distribute(FromBits(first), Power2(8 * n), Power2(k), BytesNumber(bytes), rest);
  }

  lemma WholeBytes(n: nat)
    ensures n == 8 * (n / 8) + n % 8 && (8 + n) % 8 == n % 8 && (8 + n) / 8 == n / 8 + 1
  {
  }

  lemma BytesNumberGrows(first: Byte, bytes: seq<Byte>)
    ensures BytesNumber([first] + bytes) == first * Power2(8 * |bytes|) + BytesNumber(bytes)
  {
    assert ([first] + bytes)[1..] == bytes;
  }

  lemma {:induction false} BytesAreTheirNumber(bits: Bits) returns (rest: nat)
    ensures LeavesOver(bits, BytesOf(bits), rest)
  {
    if |bits| < 8 {
      BitsReadBack(bits);
      rest := FromBits(bits);
    } else {
      var first, more := bits[..8], bits[8..];
      rest := BytesAreTheirNumber(more);
      assert bits == first + more;
      FirstByte(bits, first, more);
      OneMoreByte(first, more, BytesOf(more), rest);
    }
  }

  lemma Distribute(first: nat, high: nat, low: nat, more: nat, rest: nat)
    ensures first * (high * low) + (more * low + rest) == (first * high + more) * low + rest
  {
  }

  /** The bytes are the leading whole bytes of the number the text writes in base 32: of its five bits a
      symbol fewer than eight are left over. */
  lemma DecodedIsTheLeadingBytes(s: string, bytes: seq<Byte>) returns (rest: nat)
    requires SymbolBits(s).Some? && bytes == BytesOf(SymbolBits(s).value)
    ensures |bytes| == 5 * |s| / 8 && rest < Power2(5 * |s| % 8)
    ensures TextNumber(s) == BytesNumber(bytes) * Power2(5 * |s| % 8) + rest
  {
    TextIsItsNumber(s, SymbolBits(s).value);
    rest := BytesAreTheirNumber(SymbolBits(s).value);
  }
}
