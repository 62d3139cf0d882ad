/**
 * base64url without padding (section 5 of RFC 4648), as written by hand for a runtime
 * that has no codec of its own. The decoder keeps its pending bits in a 32-bit
 * accumulator that it never masks, so old bits run off the top.
 */
module Base64Url {

  const UPPER := "ABCDEFGHIJKLMNOPQRSTUVWXYZ"
  const LOWER := "abcdefghijklmnopqrstuvwxyz"
  const NUMBERS := "0123456789"
  const ALPHABET := UPPER + LOWER + NUMBERS + "-_"

  type Byte = bv8
  type Digit = bv6

  predicate InAlphabet(c: char) {
    'A' <= c <= 'Z' || 'a' <= c <= 'z' || '0' <= c <= '9' || c == '-' || c == '_'
  }

  function Letter(d: Digit): (c: char)
    ensures InAlphabet(c) && DigitOf(c) == d
  {
    if d < 26 then (d as int + 65) as char
    else if d < 52 then (d as int + 71) as char
    else if d < 62 then (d as int - 4) as char
    else if d == 62 then '-' else '_'
  }

  /** What the decoder's lookup table holds for a character of the alphabet. */
  function DigitOf(c: char): Digit
    requires InAlphabet(c)
  {
    if 'A' <= c <= 'Z' then (c as int - 65) as bv6
    else if 'a' <= c <= 'z' then (c as int - 71) as bv6
    else if '0' <= c <= '9' then (c as int + 4) as bv6
    else if c == '-' then 62 else 63
  }

  lemma ThereAndBack(n: int)
    requires 0 <= n < 64
    ensures (n as bv6) as int == n
  {
  }

  lemma LetterOfDigit(c: char)
    requires InAlphabet(c)
    ensures Letter(DigitOf(c)) == c
  {
    if 'A' <= c <= 'Z' {
      ThereAndBack(c as int - 65);
    } else if 'a' <= c <= 'z' {
      ThereAndBack(c as int - 71);
    } else if '0' <= c <= '9' {
      ThereAndBack(c as int + 4);
    }
  }

  lemma UpperAt(d: int)
    requires 0 <= d < 26
    ensures UPPER[d] == (d + 65) as char
  {
    assert |UPPER| == 26;
  }

  lemma LowerAt(d: int)
    requires 0 <= d < 26
    ensures LOWER[d] == (d + 97) as char
  {
  }

  /** Letter reads the alphabet string. */
  lemma AlphabetOrder(d: Digit)
    ensures |ALPHABET| == 64 && ALPHABET[d as int] == Letter(d)
  {
    assert |UPPER| == 26 && |LOWER| == 26 && |NUMBERS| == 10;
    if d < 26 {
      UpperAt(d as int);
    } else if d < 52 {
      LowerAt(d as int - 26);
    }
  }

  // ---------------------------------------------------------------------------
  // Digits and bytes, four for three
  // ---------------------------------------------------------------------------

  function D0(a: Byte): Digit { (a >> 2) as bv6 }

  function D1(a: Byte, b: Byte): Digit { (((a & 3) << 4) | (b >> 4)) as bv6 }

  function D2(b: Byte, c: Byte): Digit { (((b & 15) << 2) | (c >> 6)) as bv6 }

  function D3(c: Byte): Digit { (c & 63) as bv6 }

  function B0(d: Digit, e: Digit): Byte { ((d as bv8) << 2) | ((e as bv8) >> 4) }

  function B1(e: Digit, f: Digit): Byte { ((e as bv8) << 4) | ((f as bv8) >> 2) }

  function B2(f: Digit, g: Digit): Byte { ((f as bv8) << 6) | (g as bv8) }

  /** Three bytes and their four digits are one number of 24 bits, the first in front. */
  lemma OneNumber(a: Byte, b: Byte, c: Byte)
    ensures ((a as bv32) << 16) | ((b as bv32) << 8) | (c as bv32)
      == ((D0(a) as bv32) << 18) | ((D1(a, b) as bv32) << 12) | ((D2(b, c) as bv32) << 6) | (D3(c) as bv32)
  {
  }

  function Quad(a: Byte, b: Byte, c: Byte): seq<Digit> {
    [D0(a), D1(a, b), D2(b, c), D3(c)]
  }

  function Triple(d: Digit, e: Digit, f: Digit, g: Digit): seq<Byte> {
    [B0(d, e), B1(e, f), B2(f, g)]
  }

  function ToDigits(bytes: seq<Byte>): seq<Digit>
    decreases |bytes|
  {
    if |bytes| == 0 then []
    else if |bytes| == 1 then [D0(bytes[0]), D1(bytes[0], 0)]
    else if |bytes| == 2 then [D0(bytes[0]), D1(bytes[0], bytes[1]), D2(bytes[1], 0)]
    else Quad(bytes[0], bytes[1], bytes[2]) + ToDigits(bytes[3..])
  }

  function Letters(ds: seq<Digit>): string {
    seq(|ds|, i requires 0 <= i < |ds| => Letter(ds[i]))
  }

  function Encoded(bytes: seq<Byte>): string {
    Letters(ToDigits(bytes))
  }

  /** The digits of a text; anything outside the alphabet is passed over. */
  function DigitsOf(s: string): seq<Digit> {
    if s == "" then []
    else DigitsOf(s[..|s| - 1]) + (if InAlphabet(s[|s| - 1]) then [DigitOf(s[|s| - 1])] else [])
  }

  /** Four digits are three bytes; of a shorter tail the bits that fill no byte are dropped. */
  function ToBytes(ds: seq<Digit>): seq<Byte>
    decreases |ds|
  {
    if |ds| < 2 then []
    else if |ds| == 2 then [B0(ds[0], ds[1])]
    else if |ds| == 3 then [B0(ds[0], ds[1]), B1(ds[1], ds[2])]
    else Triple(ds[0], ds[1], ds[2], ds[3]) + ToBytes(ds[4..])
  }

  function Decoded(s: string): seq<Byte> {
    ToBytes(DigitsOf(s))
  }

  // ---------------------------------------------------------------------------
  // The encoder
  // ---------------------------------------------------------------------------

  lemma {:induction false} ToDigitsAppend(front: seq<Byte>, rest: seq<Byte>)
    requires |front| % 3 == 0
    ensures ToDigits(front + rest) == ToDigits(front) + ToDigits(rest)
    decreases |front|
  {
    if front == [] {
      assert front + rest == rest;
    } else {
      assert (front + rest)[3..] == front[3..] + rest;
      ToDigitsAppend(front[3..], rest);
    }
  }

  /** One turn of the encoder's loop: the letters of the next group of up to three bytes. */
  lemma NextGroup(bytes: seq<Byte>, index: nat, group: seq<Byte>)
    requires index % 3 == 0 && index + |group| <= |bytes| && group == bytes[index..index + |group|]
    ensures Encoded(bytes[..index + |group|]) == Encoded(bytes[..index]) + Letters(ToDigits(group))
  {
    assert bytes[..index + |group|] == bytes[..index] + group;
    ToDigitsAppend(bytes[..index], group);
    LettersAppend(ToDigits(bytes[..index]), ToDigits(group));
  }

  lemma LettersAppend(ds: seq<Digit>, es: seq<Digit>)
    ensures Letters(ds + es) == Letters(ds) + Letters(es)
  {
  }

  lemma LettersOf2(d: Digit, e: Digit)
    ensures Letters([d, e]) == [Letter(d), Letter(e)]
  {
  }

  lemma LettersOf3(d: Digit, e: Digit, f: Digit)
    ensures Letters([d, e, f]) == [Letter(d), Letter(e), Letter(f)]
  {
  }

  lemma LettersOf4(d: Digit, e: Digit, f: Digit, g: Digit)
    ensures Letters([d, e, f, g]) == [Letter(d), Letter(e), Letter(f), Letter(g)]
  {
  }

  lemma GroupOf1(group: seq<Byte>, a: Byte)
    requires group == [a]
    ensures Letters(ToDigits(group)) == [Letter(D0(a)), Letter(D1(a, 0))]
  {
    assert ToDigits(group) == [D0(a), D1(a, 0)];
    LettersOf2(D0(a), D1(a, 0));
  }

  lemma GroupOf2(group: seq<Byte>, a: Byte, b: Byte)
    requires group == [a, b]
    ensures Letters(ToDigits(group)) == [Letter(D0(a)), Letter(D1(a, b)), Letter(D2(b, 0))]
  {
    assert ToDigits(group) == [D0(a), D1(a, b), D2(b, 0)];
    LettersOf3(D0(a), D1(a, b), D2(b, 0));
  }

  lemma GroupOf3(group: seq<Byte>, a: Byte, b: Byte, c: Byte)
    requires group == [a, b, c]
    ensures Letters(ToDigits(group)) == [Letter(D0(a)), Letter(D1(a, b)), Letter(D2(b, c)), Letter(D3(c))]
  {
    assert group[3..] == [];
    assert ToDigits(group) == Quad(a, b, c);
    LettersOf4(D0(a), D1(a, b), D2(b, c), D3(c));
  }

  lemma TurnOf3(bytes: seq<Byte>, index: nat)
    requires index % 3 == 0 && index + 3 <= |bytes|
    ensures var a, b, c := bytes[index], bytes[index + 1], bytes[index + 2];
      Encoded(bytes[..index + 3])
        == Encoded(bytes[..index]) + [Letter(D0(a))] + [Letter(D1(a, b))] + [Letter(D2(b, c))] + [Letter(D3(c))]
  {
    var a, b, c := bytes[index], bytes[index + 1], bytes[index + 2];
    NextGroup(bytes, index, [a, b, c]);
    GroupOf3([a, b, c], a, b, c);
    OneByOne(Encoded(bytes[..index]), Letter(D0(a)), Letter(D1(a, b)), Letter(D2(b, c)), Letter(D3(c)));
  }

  lemma OneByOne(s: string, a: char, b: char, c: char, d: char)
    ensures s + [a, b, c, d] == s + [a] + [b] + [c] + [d]
  {
  }

  lemma TurnOf2(bytes: seq<Byte>, index: nat)
    requires index % 3 == 0 && index + 2 == |bytes|
    ensures var a, b := bytes[index], bytes[index + 1];
      Encoded(bytes) == Encoded(bytes[..index]) + [Letter(D0(a))] + [Letter(D1(a, b))] + [Letter(D2(b, 0))]
  {
    var a, b := bytes[index], bytes[index + 1];
    NextGroup(bytes, index, [a, b]);
    GroupOf2([a, b], a, b);
    assert bytes[..index + 2] == bytes;
  }

  lemma TurnOf1(bytes: seq<Byte>, index: nat)
    requires index % 3 == 0 && index + 1 == |bytes|
    ensures Encoded(bytes) == Encoded(bytes[..index]) + [Letter(D0(bytes[index]))] + [Letter(D1(bytes[index], 0))]
  {
    NextGroup(bytes, index, [bytes[index]]);
    GroupOf1([bytes[index]], bytes[index]);
    assert bytes[..index + 1] == bytes;
  }

  method ToBase64Url(bytes: seq<Byte>) returns (out: string)
    ensures out == Encoded(bytes)
  {
    out := "";
    var index := 0;
    while index < |bytes|
      invariant index % 3 == 0 && index <= |bytes| && out == Encoded(bytes[..index])
    {
      var a := bytes[index];
      out := out + [Letter(D0(a))];
      if index + 1 >= |bytes| {
        out := out + [Letter(D1(a, 0))];
        TurnOf1(bytes, index);
        return;
      }
      var b := bytes[index + 1];
      out := out + [Letter(D1(a, b))];
      if index + 2 >= |bytes| {
        out := out + [Letter(D2(b, 0))];
        TurnOf2(bytes, index);
        return;
      }
      var c := bytes[index + 2];
      out := out + [Letter(D2(b, c))];
      out := out + [Letter(D3(c))];
      TurnOf3(bytes, index);
      index := index + 3;
    }
    assert bytes[..index] == bytes;
  }

  // ---------------------------------------------------------------------------
  // The decoder
  // ---------------------------------------------------------------------------

  function Shifted(buffer: bv32, d: Digit): bv32 {
    (buffer << 6) | (d as bv32)
  }

  /**
   * The shift of the original keeps the sign, this one does not; at most six places
   * are shifted, so the low eight bits are the same.
   */
  function LowByte(buffer: bv32, bits: nat): Byte
    requires bits <= 6
  {
    ((buffer >> bits) & 0xff) as bv8
  }

  /** The accumulator's low bits are the digits since the last whole group; above them is anything. */
  ghost predicate Pending(buffer: bv32, bits: nat, tail: seq<Digit>) {
    && |tail| < 4
    && bits == (if |tail| == 0 then 0 else 8 - 2 * |tail|)
    && (|tail| == 1 ==> buffer & 63 == tail[0] as bv32)
    && (|tail| == 2 ==> buffer & 15 == (tail[1] as bv32) & 15)
    && (|tail| == 3 ==> buffer & 3 == (tail[2] as bv32) & 3)
  }

  lemma FirstDigit(buffer: bv32, d: Digit)
    ensures Shifted(buffer, d) & 63 == d as bv32
  {
  }

  lemma SecondDigit(buffer: bv32, t: Digit, d: Digit)
    requires buffer & 63 == t as bv32
    ensures LowByte(Shifted(buffer, d), 4) == B0(t, d) && Shifted(buffer, d) & 15 == (d as bv32) & 15
  {
  }

  lemma ThirdDigit(buffer: bv32, t: Digit, d: Digit)
    requires buffer & 15 == (t as bv32) & 15
    ensures LowByte(Shifted(buffer, d), 2) == B1(t, d) && Shifted(buffer, d) & 3 == (d as bv32) & 3
  {
  }

  lemma FourthDigit(buffer: bv32, t: Digit, d: Digit)
    requires buffer & 3 == (t as bv32) & 3
    ensures LowByte(Shifted(buffer, d), 0) == B2(t, d)
  {
  }

  lemma ShortBytes(d: Digit, e: Digit, f: Digit, g: Digit)
    ensures ToBytes([d]) == [] && ToBytes([d, e]) == [B0(d, e)] && ToBytes([d, e, f]) == [B0(d, e), B1(e, f)]
    ensures ToBytes([d, e, f, g]) == Triple(d, e, f, g)
  {
    assert [d, e, f, g][4..] == [];
  }

  /** A digit that opens a group completes no byte. */
  lemma FeedFirst(buffer: bv32, d: Digit)
    ensures ToBytes([] + [d]) == [] && Pending(Shifted(buffer, d), 6, [] + [d])
  {
    FirstDigit(buffer, d);
    ShortBytes(d, d, d, d);
    assert [] + [d] == [d];
  }

  lemma FeedSecond(buffer: bv32, d: Digit, tail: seq<Digit>)
    requires Pending(buffer, 6, tail)
    ensures ToBytes(tail + [d]) == ToBytes(tail) + [LowByte(Shifted(buffer, d), 4)]
    ensures Pending(Shifted(buffer, d), 4, tail + [d])
  {
    SecondDigit(buffer, tail[0], d);
    ShortBytes(tail[0], d, d, d);
    assert tail == [tail[0]] && tail + [d] == [tail[0], d];
  }

  lemma FeedThird(buffer: bv32, d: Digit, tail: seq<Digit>)
    requires Pending(buffer, 4, tail)
    ensures ToBytes(tail + [d]) == ToBytes(tail) + [LowByte(Shifted(buffer, d), 2)]
    ensures Pending(Shifted(buffer, d), 2, tail + [d])
  {
    ThirdDigit(buffer, tail[1], d);
    ShortBytes(tail[0], tail[1], d, d);
    assert tail == [tail[0], tail[1]] && tail + [d] == [tail[0], tail[1], d];
  }

  lemma FeedFourth(buffer: bv32, d: Digit, tail: seq<Digit>)
    requires Pending(buffer, 2, tail)
    ensures ToBytes(tail + [d]) == ToBytes(tail) + [LowByte(Shifted(buffer, d), 0)]
    ensures Pending(Shifted(buffer, d), 0, [])
  {
    FourthDigit(buffer, tail[2], d);
    ShortBytes(tail[0], tail[1], tail[2], d);
    assert tail == [tail[0], tail[1], tail[2]] && tail + [d] == [tail[0], tail[1], tail[2], d];
  }

  lemma DigitsSnoc(s: string, c: char)
    ensures DigitsOf(s + [c]) == DigitsOf(s) + (if InAlphabet(c) then [DigitOf(c)] else [])
  {
    assert (s + [c])[..|s|] == s;
  }

  /** The digits that belong to no whole group yet. */
  function Tail(ds: seq<Digit>): seq<Digit> {
    ds[|ds| - |ds| % 4..]
  }

  lemma {:induction false} ToBytesAppend(front: seq<Digit>, rest: seq<Digit>)
    requires |front| % 4 == 0
    ensures ToBytes(front + rest) == ToBytes(front) + ToBytes(rest)
    decreases |front|
  {
    if front == [] {
      assert front + rest == rest;
    } else {
      assert (front + rest)[4..] == front[4..] + rest;
      ToBytesAppend(front[4..], rest);
    }
  }

  lemma OneMoreDigit(ds: seq<Digit>, d: Digit) returns (whole: seq<Byte>)
    ensures ToBytes(ds) == whole + ToBytes(Tail(ds)) && ToBytes(ds + [d]) == whole + ToBytes(Tail(ds) + [d])
  {
    var n := |ds| - |ds| % 4;
    whole := ToBytes(ds[..n]);
    assert ds == ds[..n] + Tail(ds);
    assert ds + [d] == ds[..n] + (Tail(ds) + [d]);
    ToBytesAppend(ds[..n], Tail(ds));
    ToBytesAppend(ds[..n], Tail(ds) + [d]);
  }

  lemma TailMoves(ds: seq<Digit>, d: Digit)
    ensures |Tail(ds)| < 4 && Tail(ds + [d]) == if |Tail(ds)| == 3 then [] else Tail(ds) + [d]
  {
  }

  function Onward(tail: seq<Digit>, d: Digit): seq<Digit> {
    if |tail| == 3 then [] else tail + [d]
  }

  lemma TailTurn(tail: seq<Digit>, buffer: bv32, bits: nat, d: Digit)
    requires Pending(buffer, bits, tail) && |tail| < 4
    ensures bits == 0 ==> ToBytes(tail + [d]) == ToBytes(tail) && Pending(Shifted(buffer, d), 6, Onward(tail, d))
    ensures bits != 0 ==>
      && 2 <= bits <= 6 && ToBytes(tail + [d]) == ToBytes(tail) + [LowByte(Shifted(buffer, d), bits - 2)]
      && Pending(Shifted(buffer, d), bits - 2, Onward(tail, d))
  {
    if bits == 0 {
      FeedFirst(buffer, d);
    } else if bits == 6 {
      FeedSecond(buffer, d, tail);
    } else if bits == 4 {
      FeedThird(buffer, d, tail);
    } else {
      FeedFourth(buffer, d, tail);
    }
  }

  lemma Behind(whole: seq<Byte>, a: seq<Byte>, b: seq<Byte>)
    ensures whole + (a + b) == (whole + a) + b
  {
  }

  /** One turn of the decoder's loop on a character of the alphabet. */
  lemma DecoderTurn(ds: seq<Digit>, buffer: bv32, bits: nat, d: Digit)
    requires Pending(buffer, bits, Tail(ds))
    ensures bits == 0 ==>
      ToBytes(ds + [d]) == ToBytes(ds) && Pending(Shifted(buffer, d), 6, Tail(ds + [d]))
    ensures bits != 0 ==>
      && 2 <= bits <= 6 && ToBytes(ds + [d]) == ToBytes(ds) + [LowByte(Shifted(buffer, d), bits - 2)]
      && Pending(Shifted(buffer, d), bits - 2, Tail(ds + [d]))
  {
    TailMoves(ds, d);
    TailTurn(Tail(ds), buffer, bits, d);
    var whole := OneMoreDigit(ds, d);
    if bits != 0 {
      Behind(whole, ToBytes(Tail(ds)), [LowByte(Shifted(buffer, d), bits - 2)]);
    }
  }

  method FromBase64Url(value: string) returns (bytes: seq<Byte>)
    ensures bytes == Decoded(value)
  {
    bytes := [];
    var buffer: bv32 := 0;
    var bits := 0;
    for i := 0 to |value|
      invariant bytes == Decoded(value[..i])
      invariant Pending(buffer, bits, Tail(DigitsOf(value[..i])))
    {
      assert value[..i + 1] == value[..i] + [value[i]];
      DigitsSnoc(value[..i], value[i]);
      assert DigitsOf(value[..i]) + [] == DigitsOf(value[..i]);
      if InAlphabet(value[i]) {
        var digit := DigitOf(value[i]);
        DecoderTurn(DigitsOf(value[..i]), buffer, bits, digit);
        buffer := Shifted(buffer, digit);
        bits := bits + 6;
        if bits >= 8 {
          bits := bits - 8;
          bytes := bytes + [LowByte(buffer, bits)];
        }
      }
    }
    assert value[..|value|] == value;
  }

  // ---------------------------------------------------------------------------
  // Round trips
  // ---------------------------------------------------------------------------

  lemma {:induction false} DigitsOfLetters(ds: seq<Digit>)
    ensures DigitsOf(Letters(ds)) == ds
  {
    if ds != [] {
      var n := |ds| - 1;
      assert Letters(ds) == Letters(ds[..n]) + [Letter(ds[n])];
      DigitsSnoc(Letters(ds[..n]), Letter(ds[n]));
      DigitsOfLetters(ds[..n]);
      assert ds == ds[..n] + [ds[n]];
    }
  }

  lemma Regroup(a: Byte, b: Byte, c: Byte)
    ensures B0(D0(a), D1(a, b)) == a && B1(D1(a, b), D2(b, c)) == b && B2(D2(b, c), D3(c)) == c
  {
  }

  lemma {:induction false} BytesOfDigits(bytes: seq<Byte>)
    ensures ToBytes(ToDigits(bytes)) == bytes
    decreases |bytes|
  {
    if |bytes| >= 3 {
      BytesOfDigits(bytes[3..]);
      Regroup(bytes[0], bytes[1], bytes[2]);
      assert ToDigits(bytes)[4..] == ToDigits(bytes[3..]);
      assert bytes == [bytes[0], bytes[1], bytes[2]] + bytes[3..];
    } else if |bytes| == 2 {
      Regroup(bytes[0], bytes[1], 0);
    } else if |bytes| == 1 {
      Regroup(bytes[0], 0, 0);
    }
  }

  /** Decoding undoes encoding, for every byte string of every length. */
  lemma DecodeEncode(bytes: seq<Byte>)
    ensures Decoded(Encoded(bytes)) == bytes
  {
    DigitsOfLetters(ToDigits(bytes));
    BytesOfDigits(bytes);
  }

  /** The digits some byte string encodes to: no lone digit at the end, and no stray bits in a short group. */
  predicate CanonicalDigits(ds: seq<Digit>) {
    && |ds| % 4 != 1
    && (|ds| % 4 == 2 ==> ds[|ds| - 1] & 15 == 0)
    && (|ds| % 4 == 3 ==> ds[|ds| - 1] & 3 == 0)
  }

  predicate Canonical(s: string) {
    (forall i :: 0 <= i < |s| ==> InAlphabet(s[i])) && CanonicalDigits(DigitsOf(s))
  }

  lemma Ungroup(d: Digit, e: Digit, f: Digit, g: Digit)
    ensures D0(B0(d, e)) == d && D1(B0(d, e), B1(e, f)) == e && D2(B1(e, f), B2(f, g)) == f && D3(B2(f, g)) == g
    ensures D1(B0(d, e), 0) == e & 48
    ensures D2(B1(e, f), 0) == f & 60
  {
  }

  lemma StrayBits(d: Digit)
    ensures d & 48 == d <==> d & 15 == 0
    ensures d & 60 == d <==> d & 3 == 0
  {
  }

  /** What is left of the digits once a lone last one and the stray bits of a short group are dropped. */
  function Cleared(ds: seq<Digit>): seq<Digit>
    decreases |ds|
  {
    if |ds| >= 4 then ds[..4] + Cleared(ds[4..])
    else if |ds| == 3 then [ds[0], ds[1], ds[2] & 60]
    else if |ds| == 2 then [ds[0], ds[1] & 48]
    else []
  }

  lemma TripleDigits(d: Digit, e: Digit, f: Digit, g: Digit, rest: seq<Byte>)
    ensures ToDigits(Triple(d, e, f, g) + rest) == [d, e, f, g] + ToDigits(rest)
  {
    Ungroup(d, e, f, g);
    var bytes := Triple(d, e, f, g) + rest;
    assert bytes[3..] == rest;
  }

  lemma ShortGroup(d: Digit, e: Digit, f: Digit)
    ensures ToDigits(ToBytes([d, e, f])) == [d, e, f & 60]
    ensures ToDigits(ToBytes([d, e])) == [d, e & 48]
  {
    ShortBytes(d, e, f, 0);
    Ungroup(d, e, f, 0);
  }

  /** Decoding digits and encoding the bytes again clears exactly those bits. */
  lemma {:induction false} DigitsOfBytes(ds: seq<Digit>)
    ensures ToDigits(ToBytes(ds)) == Cleared(ds)
    decreases |ds|
  {
    if |ds| >= 4 {
      DigitsOfBytes(ds[4..]);
      TripleDigits(ds[0], ds[1], ds[2], ds[3], ToBytes(ds[4..]));
      assert ds[..4] == [ds[0], ds[1], ds[2], ds[3]];
    } else if |ds| == 3 {
      ShortGroup(ds[0], ds[1], ds[2]);
      assert ds == [ds[0], ds[1], ds[2]];
    } else if |ds| == 2 {
      ShortGroup(ds[0], ds[1], 0);
      assert ds == [ds[0], ds[1]];
    }
  }

  lemma CanonicalRest(ds: seq<Digit>)
    requires |ds| >= 4
    ensures CanonicalDigits(ds) <==> CanonicalDigits(ds[4..])
  {
    assert |ds[4..]| % 4 == |ds| % 4;
    assert |ds| > 4 ==> ds[4..][|ds| - 5] == ds[|ds| - 1];
  }

  lemma SameAfter(ds: seq<Digit>, n: nat, rest: seq<Digit>)
    requires n <= |ds|
    ensures ds[..n] + rest == ds <==> rest == ds[n..]
  {
    assert (ds[..n] + rest)[n..] == rest;
    assert ds[..n] + ds[n..] == ds;
  }

  lemma {:induction false} ClearedIff(ds: seq<Digit>)
    ensures Cleared(ds) == ds <==> CanonicalDigits(ds)
    decreases |ds|
  {
    if |ds| >= 4 {
      ClearedIff(ds[4..]);
      CanonicalRest(ds);
      SameAfter(ds, 4, Cleared(ds[4..]));
    } else if |ds| >= 2 {
      var n := |ds| - 1;
      StrayBits(ds[n]);
      assert Cleared(ds)[n] == ds[n] <==> Cleared(ds) == ds;
    }
  }

  lemma {:induction false} LettersOfDigits(s: string)
    requires forall i :: 0 <= i < |s| ==> InAlphabet(s[i])
    ensures Letters(DigitsOf(s)) == s
  {
    if s != "" {
      var t, c := s[..|s| - 1], s[|s| - 1];
      LettersOfDigits(t);
      assert s == t + [c];
      LetterOfDigit(c);
    }
  }

  /** Encoding undoes decoding exactly on canonical texts. */
  lemma EncodeDecodeIff(s: string)
    ensures Encoded(Decoded(s)) == s <==> Canonical(s)
  {
    var ds := DigitsOf(s);
    DigitsOfBytes(ds);
    ClearedIff(ds);
    if Canonical(s) {
      LettersOfDigits(s);
    } else if Encoded(Decoded(s)) == s {
      DigitsOfLetters(ToDigits(ToBytes(ds)));
      forall i | 0 <= i < |s| ensures InAlphabet(s[i]) {
        assert s[i] == Letters(ToDigits(ToBytes(ds)))[i];
      }
    }
  }

  lemma {:induction false} DigitsConcat(s: string, t: string)
    ensures DigitsOf(s + t) == DigitsOf(s) + DigitsOf(t)
    decreases |t|
  {
    if t == "" {
      assert s + t == s;
    } else {
      var n := |t| - 1;
      assert s + t == (s + t[..n]) + [t[n]];
      DigitsSnoc(s + t[..n], t[n]);
      DigitsConcat(s, t[..n]);
    }
  }

  lemma {:induction false} JunkHasNoDigits(junk: string)
    requires forall i :: 0 <= i < |junk| ==> !InAlphabet(junk[i])
    ensures DigitsOf(junk) == []
  {
    if junk != "" {
      JunkHasNoDigits(junk[..|junk| - 1]);
    }
  }

  /** Characters outside the alphabet change nothing, wherever they are inserted. */
  lemma JunkIsSkipped(s: string, junk: string, t: string)
    requires forall i :: 0 <= i < |junk| ==> !InAlphabet(junk[i])
    ensures Decoded(s + junk + t) == Decoded(s + t)
  {
    DigitsConcat(s + junk, t);
    DigitsConcat(s, junk);
    DigitsConcat(s, t);
    JunkHasNoDigits(junk);
    assert DigitsOf(s) + [] == DigitsOf(s);
  }
}
