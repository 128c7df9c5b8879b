/** Unpadded base64 with the standard alphabet (sections 3.2 and 4 of RFC 4648),
    decoded strictly: the unused bits of the last character must be zero. */
module Base64 {
  import opened Common

  type Byte = b: int | 0 <= b < 256

  type Sextet = v: int | 0 <= v < 64

  function Letter(v: Sextet): char {
    if v < 26 then 'A' + v as char
    else if v < 52 then 'a' + (v - 26) as char
    else if v < 62 then '0' + (v - 52) as char
    else if v == 62 then '+'
    else '/'
  }

  function Value(c: char): Option<Sextet> {
    if 'A' <= c <= 'Z' then Some(c as int - 'A' as int)
    else if 'a' <= c <= 'z' then Some(c as int - 'a' as int + 26)
    else if '0' <= c <= '9' then Some(c as int - '0' as int + 52)
    else if c == '+' then Some(62)
    else if c == '/' then Some(63)
    else None
  }

  lemma ValueOfLetter(v: Sextet)
    ensures Value(Letter(v)) == Some(v)
    ensures Letter(v) != '$' && Letter(v) != '\r' && Letter(v) != '\n'
  {
  }

  lemma LetterOfValue(c: char)
    requires Value(c).Some?
    ensures Letter(Value(c).value) == c
  {
  }

  function Spell(vs: seq<Sextet>): string {
    seq(|vs|, i requires 0 <= i < |vs| => Letter(vs[i]))
  }

  /** The standard alphabet: capitals, small letters, digits, plus and slash. */
  lemma StandardAlphabet(v: Sextet)
    ensures v < 26 ==> 'A' <= Letter(v) <= 'Z' && Letter(v) as int == 65 + v
    ensures 26 <= v < 52 ==> 'a' <= Letter(v) <= 'z' && Letter(v) as int == 97 + (v - 26)
    ensures 52 <= v < 62 ==> '0' <= Letter(v) <= '9' && Letter(v) as int == 48 + (v - 52)
    ensures Letter(62) == '+' && Letter(63) == '/'
  {
  }

  // The four characters of three bytes.

  function First(x: Byte): Sextet {
    x / 4
  }

  function Second(x: Byte, y: Byte): Sextet {
    x % 4 * 16 + y / 16
  }

  function Third(y: Byte, z: Byte): Sextet {
    y % 16 * 4 + z / 64
  }

  function Fourth(z: Byte): Sextet {
    z % 64
  }

  function Encode(bs: seq<Byte>): string {
    if |bs| == 0 then ""
    else if |bs| == 1 then Spell([First(bs[0]), Second(bs[0], 0)])
    else if |bs| == 2 then Spell([First(bs[0]), Second(bs[0], bs[1]), Third(bs[1], 0)])
    else Spell([First(bs[0]), Second(bs[0], bs[1]), Third(bs[1], bs[2]), Fourth(bs[2])]) + Encode(bs[3..])
  }

  function At(s: string, i: nat): Sextet
    requires i < |s| && Value(s[i]).Some?
  {
    Value(s[i]).value
  }

  /** The three bytes of four characters. */
  function Quantum(a: Sextet, b: Sextet, c: Sextet, d: Sextet): seq<Byte> {
    [a * 4 + b / 16, b % 16 * 16 + c / 4, c % 4 * 64 + d]
  }

  /** Two and three characters at the end: the bits no byte uses must be zero. */
  function DecodePair(a: Sextet, b: Sextet): Option<seq<Byte>> {
    if b % 16 == 0 then Some([a * 4 + b / 16]) else None
  }

  function DecodeTriple(a: Sextet, b: Sextet, c: Sextet): Option<seq<Byte>> {
    if c % 4 == 0 then Some([a * 4 + b / 16, b % 16 * 16 + c / 4]) else None
  }

  predicate Lettered(s: string) {
    forall i :: 0 <= i < |s| ==> Value(s[i]).Some?
  }

  function Values(s: string): seq<Sextet>
    requires Lettered(s)
  {
    seq(|s|, i requires 0 <= i < |s| => At(s, i))
  }

  function DecodeLetters(s: string): Option<seq<Byte>> {
    if |s| == 0 then Some([])
    else if |s| == 1 || !Lettered(s[..Min(4, |s|)]) then None
    else if |s| == 2 then DecodePair(At(s, 0), At(s, 1))
    else if |s| == 3 then DecodeTriple(At(s, 0), At(s, 1), At(s, 2))
    else
      match DecodeLetters(s[4..])
      case Some(rest) => Some(Quantum(At(s, 0), At(s, 1), At(s, 2), At(s, 3)) + rest)
      case None => None
  }

  function DropNewlines(s: string): string {
    if s == "" then ""
    else (if s[0] == '\r' || s[0] == '\n' then "" else [s[0]]) + DropNewlines(s[1..])
  }

  /** DecodeString: line breaks are skipped wherever they are. */
  function Decode(s: string): Option<seq<Byte>> {
    DecodeLetters(DropNewlines(s))
  }

  predicate PrintableChar(c: char) {
    c != '$' && c != '\r' && c != '\n'
  }

  predicate Printable(s: string) {
    forall i :: 0 <= i < |s| ==> PrintableChar(s[i])
  }

  lemma {:induction false} EncodedIsPrintable(bs: seq<Byte>)
    ensures Printable(Encode(bs))
  {
    SpelledIsPrintable();
    if |bs| >= 3 {
      EncodedIsPrintable(bs[3..]);
    }
  }

  lemma SpelledIsPrintable()
    ensures forall vs: seq<Sextet> :: Printable(Spell(vs))
  {
    forall vs: seq<Sextet>, i | 0 <= i < |vs| ensures PrintableChar(Letter(vs[i])) {
      ValueOfLetter(vs[i]);
    }
  }

  lemma {:induction false} NothingToDrop(s: string)
    requires Printable(s)
    ensures DropNewlines(s) == s
  {
    if s != "" {
      NothingToDrop(s[1..]);
    }
  }

  lemma SecondComesApart(x: Byte, y: Byte)
    ensures Second(x, y) / 16 == x % 4 && Second(x, y) % 16 == y / 16
  {
  }

  lemma ThirdComesApart(y: Byte, z: Byte)
    ensures Third(y, z) / 4 == y % 16 && Third(y, z) % 4 == z / 64
  {
  }

  lemma BytesOfLetters(x: Byte, y: Byte, z: Byte)
    ensures DecodePair(First(x), Second(x, 0)) == Some([x])
    ensures DecodeTriple(First(x), Second(x, y), Third(y, 0)) == Some([x, y])
    ensures Quantum(First(x), Second(x, y), Third(y, z), Fourth(z)) == [x, y, z]
  {
    SecondComesApart(x, 0);
    SecondComesApart(x, y);
    ThirdComesApart(y, 0);
    ThirdComesApart(y, z);
  }

  lemma LettersOfBytes(a: Sextet, b: Sextet, c: Sextet, d: Sextet)
    ensures var q := Quantum(a, b, c, d);
            First(q[0]) == a && Second(q[0], q[1]) == b && Third(q[1], q[2]) == c && Fourth(q[2]) == d
  {
  }

  lemma AtLetter(vs: seq<Sextet>, rest: string)
    ensures var s := Spell(vs) + rest;
            |Spell(vs)| == |vs| && Lettered(s[..|vs|]) && forall i :: 0 <= i < |vs| ==> At(s, i) == vs[i]
  {
    forall i | 0 <= i < |vs| ensures Value((Spell(vs) + rest)[i]) == Some(vs[i]) {
      ValueOfLetter(vs[i]);
    }
  }

  lemma DecodeGroup(a: Sextet, b: Sextet, c: Sextet, d: Sextet, rest: string)
    requires DecodeLetters(rest).Some?
    ensures DecodeLetters(Spell([a, b, c, d]) + rest) == Some(Quantum(a, b, c, d) + DecodeLetters(rest).value)
  {
    AtLetter([a, b, c, d], rest);
    assert (Spell([a, b, c, d]) + rest)[4..] == rest;
  }

  lemma DecodeTail(a: Sextet, b: Sextet, c: Sextet)
    ensures DecodeLetters(Spell([a, b])) == DecodePair(a, b)
    ensures DecodeLetters(Spell([a, b, c])) == DecodeTriple(a, b, c)
  {
    AtLetter([a, b], "");
    AtLetter([a, b, c], "");
    assert Spell([a, b]) + "" == Spell([a, b]) == Spell([a, b])[..2];
    assert Spell([a, b, c]) + "" == Spell([a, b, c]) == Spell([a, b, c])[..3];
  }

  lemma GroupRoundTrip(x: Byte, y: Byte, z: Byte, rest: string)
    requires DecodeLetters(rest).Some?
    ensures DecodeLetters(Spell([First(x), Second(x, y), Third(y, z), Fourth(z)]) + rest)
            == Some([x, y, z] + DecodeLetters(rest).value)
  {
    BytesOfLetters(x, y, z);
    DecodeGroup(First(x), Second(x, y), Third(y, z), Fourth(z), rest);
  }

  lemma TailRoundTrip(x: Byte, y: Byte)
    ensures DecodeLetters(Spell([First(x), Second(x, 0)])) == Some([x])
    ensures DecodeLetters(Spell([First(x), Second(x, y), Third(y, 0)])) == Some([x, y])
  {
    BytesOfLetters(x, y, 0);
    DecodeTail(First(x), Second(x, 0), 0);
    DecodeTail(First(x), Second(x, y), Third(y, 0));
  }

  lemma OneByte(bs: seq<Byte>, x: Byte)
    requires bs == [x]
    ensures DecodeLetters(Encode(bs)) == Some(bs)
  {
    TailRoundTrip(x, 0);
    EncodeOne(x, First(x), Second(x, 0));
  }

  lemma TwoBytes(bs: seq<Byte>, x: Byte, y: Byte)
    requires bs == [x, y]
    ensures DecodeLetters(Encode(bs)) == Some(bs)
  {
    TailRoundTrip(x, y);
    EncodePair(x, y, First(x), Second(x, y), Third(y, 0));
  }

  lemma EncodeThreeBytes(x: Byte, y: Byte, z: Byte, rest: seq<Byte>)
    ensures Encode([x, y, z] + rest) == Spell([First(x), Second(x, y), Third(y, z), Fourth(z)]) + Encode(rest)
  {
    assert ([x, y, z] + rest)[3..] == rest;
  }

  lemma {:induction false} DecodeEncodeLetters(bs: seq<Byte>)
    ensures DecodeLetters(Encode(bs)) == Some(bs)
  {
    if bs == [] {
    } else if |bs| == 1 {
      OneByte(bs, bs[0]);
    } else if |bs| == 2 {
      TwoBytes(bs, bs[0], bs[1]);
    } else {
      var x, y, z, rest := bs[0], bs[1], bs[2], bs[3..];
      assert bs == [x, y, z] + rest;
      DecodeEncodeLetters(rest);
      EncodeThreeBytes(x, y, z, rest);
      GroupRoundTrip(x, y, z, Encode(rest));
    }
  }

  /** Every byte string survives printing and parsing. */
  lemma RoundTrip(bs: seq<Byte>)
    ensures Decode(Encode(bs)) == Some(bs)
  {
    EncodedIsPrintable(bs);
    NothingToDrop(Encode(bs));
    DecodeEncodeLetters(bs);
  }

  lemma EncodeTail(a: Sextet, b: Sextet, c: Sextet)
    ensures DecodePair(a, b).Some? ==> Encode(DecodePair(a, b).value) == Spell([a, b])
    ensures DecodeTriple(a, b, c).Some? ==> Encode(DecodeTriple(a, b, c).value) == Spell([a, b, c])
  {
    if b % 16 == 0 {
      EncodeOne(a * 4 + b / 16, a, b);
    }
    if c % 4 == 0 {
      LettersOfBytes(a, b, c, 0);
      EncodePair(a * 4 + b / 16, b % 16 * 16 + c / 4, a, b, c);
    }
  }

  lemma EncodeOne(x: Byte, a: Sextet, b: Sextet)
    requires First(x) == a && Second(x, 0) == b
    ensures Encode([x]) == Spell([a, b])
  {
  }

  lemma EncodePair(x: Byte, y: Byte, a: Sextet, b: Sextet, c: Sextet)
    requires First(x) == a && Second(x, y) == b && Third(y, 0) == c
    ensures Encode([x, y]) == Spell([a, b, c])
  {
  }

  lemma SpellValues(s: string, k: nat)
    requires k <= |s| && Lettered(s[..k])
    ensures Spell(Values(s[..k])) == s[..k]
    ensures |Values(s[..k])| == k && forall i :: 0 <= i < k ==> Value(s[i]) == Some(Values(s[..k])[i])
  {
    forall i | 0 <= i < k ensures Letter(Values(s[..k])[i]) == s[i] {
      LetterOfValue(s[..k][i]);
    }
  }

  lemma EncodeGroup(a: Sextet, b: Sextet, c: Sextet, d: Sextet, rest: seq<Byte>)
    ensures Encode(Quantum(a, b, c, d) + rest) == Spell([a, b, c, d]) + Encode(rest)
  {
    LettersOfBytes(a, b, c, d);
    var bs := Quantum(a, b, c, d) + rest;
    assert bs[3..] == rest;
  }

  lemma EncodeTwo(a: Sextet, b: Sextet)
    requires DecodeLetters(Spell([a, b])).Some?
    ensures Encode(DecodeLetters(Spell([a, b])).value) == Spell([a, b])
  {
    DecodeTail(a, b, 0);
    EncodeTail(a, b, 0);
  }

  lemma EncodeThree(a: Sextet, b: Sextet, c: Sextet)
    requires DecodeLetters(Spell([a, b, c])).Some?
    ensures Encode(DecodeLetters(Spell([a, b, c])).value) == Spell([a, b, c])
  {
    DecodeTail(a, b, c);
    EncodeTail(a, b, c);
  }

  lemma EncodeShort(s: string)
    requires |s| < 4 && DecodeLetters(s).Some?
    ensures Encode(DecodeLetters(s).value) == s
  {
    if s != "" {
      assert s[..|s|] == s;
      SpellValues(s, |s|);
      var vs := Values(s);
      if |s| == 2 {
        assert vs == [vs[0], vs[1]];
        EncodeTwo(vs[0], vs[1]);
      } else {
        assert vs == [vs[0], vs[1], vs[2]];
        EncodeThree(vs[0], vs[1], vs[2]);
      }
    }
  }

  lemma FirstLetters(s: string)
    requires |s| >= 4 && Lettered(s[..4])
    ensures Spell([At(s, 0), At(s, 1), At(s, 2), At(s, 3)]) == s[..4]
  {
    SpellValues(s, 4);
    assert Values(s[..4]) == [At(s, 0), At(s, 1), At(s, 2), At(s, 3)];
  }

  lemma DecodeFirstGroup(s: string)
    requires |s| >= 4 && DecodeLetters(s).Some?
    ensures DecodeLetters(s[4..]).Some?
    ensures DecodeLetters(s).value
            == Quantum(At(s, 0), At(s, 1), At(s, 2), At(s, 3)) + DecodeLetters(s[4..]).value
  {
  }

  lemma EncodeFirstGroup(s: string, bs: seq<Byte>, rest: seq<Byte>)
    requires |s| >= 4 && Lettered(s[..4])
    requires bs == Quantum(At(s, 0), At(s, 1), At(s, 2), At(s, 3)) + rest
    ensures Encode(bs) == s[..4] + Encode(rest)
  {
    FirstLetters(s);
    EncodeGroup(At(s, 0), At(s, 1), At(s, 2), At(s, 3), rest);
  }

  lemma {:induction false} EncodeDecodeLetters(s: string)
    requires DecodeLetters(s).Some?
    ensures Encode(DecodeLetters(s).value) == s
  {
    if |s| < 4 {
      EncodeShort(s);
    } else {
      DecodeFirstGroup(s);
      EncodeDecodeLetters(s[4..]);
      EncodeFirstGroup(s, DecodeLetters(s).value, DecodeLetters(s[4..]).value);
      assert s == s[..4] + s[4..];
    }
  }

  /** Three bytes are the twenty-four bits of their four characters, the first highest;
      one and two bytes are padded with zero bits on the right. */
  lemma BitsInOrder(x: Byte, y: Byte, z: Byte)
    ensures Encode([x, y, z]) == Spell([First(x), Second(x, y), Third(y, z), Fourth(z)])
    ensures First(x) * 262144 + Second(x, y) * 4096 + Third(y, z) * 64 + Fourth(z) == x * 65536 + y * 256 + z
    ensures Encode([x, y]) == Spell([First(x), Second(x, y), Third(y, 0)])
    ensures First(x) * 4096 + Second(x, y) * 64 + Third(y, 0) == (x * 256 + y) * 4
    ensures Encode([x]) == Spell([First(x), Second(x, 0)])
    ensures First(x) * 64 + Second(x, 0) == x * 16
  {
    var none: seq<Byte> := [];
    assert [x, y, z][3..] == none && Encode(none) == "";
  }

  /** Three bytes at a time. */
  lemma EncodeInThrees(x: Byte, y: Byte, z: Byte, rest: seq<Byte>)
    ensures Encode([x, y, z] + rest) == Encode([x, y, z]) + Encode(rest)
  {
    BitsInOrder(x, y, z);
    assert ([x, y, z] + rest)[3..] == rest;
  }

  /** Line breaks are dropped one by one and nothing else is. */
  lemma DropsNewlinesOnly(c: char, s: string)
    ensures DropNewlines([c] + s) == (if c == '\r' || c == '\n' then "" else [c]) + DropNewlines(s)
    ensures DropNewlines("") == ""
  {
    assert ([c] + s)[1..] == s;
  }

  /** Strict decoding accepts, line breaks aside, exactly the encodings: no two
      different texts stand for the same bytes. */
  lemma AcceptsExactlyEncodings(s: string, bs: seq<Byte>)
    ensures Decode(s) == Some(bs) <==> DropNewlines(s) == Encode(bs)
  {
    DecodeEncodeLetters(bs);
    if Decode(s) == Some(bs) {
      EncodeDecodeLetters(DropNewlines(s));
    }
  }
}
