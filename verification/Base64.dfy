/** Unpadded base64 (RFC 4648, sections 3.2, 4 and 5), with Go's decoder: line breaks are skipped and
    the unused low bits of the last character are ignored. */
module Base64 {
  import opened Wrappers

  type Byte = b: nat | b < 256
  type Sextet = n: nat | n < 64

  datatype Alphabet = Std | Url

  function EncodeChar(a: Alphabet, n: Sextet): (c: char)
    ensures DecodeChar(a, c) == Some(n)
    ensures '+' <= c <= 'z' && c != ':'
  {
    if n < 26 then ('A' as int + n) as char
    else if n < 52 then ('a' as int + n - 26) as char
    else if n < 62 then ('0' as int + n - 52) as char
    else if n == 62 then (if a.Std? then '+' else '-')
    else (if a.Std? then '/' else '_')
  }

  function DecodeChar(a: Alphabet, c: char): Option<Sextet> {
    if 'A' <= c <= 'Z' then Some(c as int - 'A' as int)
    else if 'a' <= c <= 'z' then Some(c as int - 'a' as int + 26)
    else if '0' <= c <= '9' then Some(c as int - '0' as int + 52)
    else if c == (if a.Std? then '+' else '-') then Some(62)
    else if c == (if a.Std? then '/' else '_') then Some(63)
    else None
  }

  /** Eight-bit groups regrouped into six-bit groups, the last one padded with zero bits. */
  function Sextets(b: seq<Byte>): (x: seq<Sextet>)
    ensures |x| == (4 * |b| + 2) / 3
  {
    if |b| == 0 then []
    else if |b| == 1 then [b[0] / 4, b[0] % 4 * 16]
    else if |b| == 2 then [b[0] / 4, b[0] % 4 * 16 + b[1] / 16, b[1] % 16 * 4]
    else [b[0] / 4, b[0] % 4 * 16 + b[1] / 16, b[1] % 16 * 4 + b[2] / 64, b[2] % 64] + Sextets(b[3..])
  }

  function FirstByte(x0: Sextet, x1: Sextet): Byte { x0 * 4 + x1 / 16 }

  function SecondByte(x1: Sextet, x2: Sextet): Byte { x1 % 16 * 16 + x2 / 4 }

  function ThirdByte(x2: Sextet, x3: Sextet): Byte { x2 % 4 * 64 + x3 }

  /** The reverse regrouping, which drops the padding bits unread. */
  function Bytes(x: seq<Sextet>): Result<seq<Byte>> {
    if |x| == 0 then Ok([])
    else if |x| == 1 then Err(InvalidArgument)
    else if |x| == 2 then Ok([FirstByte(x[0], x[1])])
    else if |x| == 3 then Ok([FirstByte(x[0], x[1]), SecondByte(x[1], x[2])])
    else
      match Bytes(x[4..])
      case Ok(rest) => Ok([FirstByte(x[0], x[1]), SecondByte(x[1], x[2]), ThirdByte(x[2], x[3])] + rest)
      case Err(e) => Err(e)
  }

  /** EncodeToString. */
  function Encode(a: Alphabet, b: seq<Byte>): (s: string)
    ensures |s| == (4 * |b| + 2) / 3
    ensures forall i | 0 <= i < |s| :: '+' <= s[i] <= 'z' && s[i] != ':'
  {
    var x := Sextets(b);
    seq(|x|, i requires 0 <= i < |x| => EncodeChar(a, x[i]))
  }

  function StripLineBreaks(s: string): (r: string)
    ensures (forall i | 0 <= i < |s| :: s[i] != '\r' && s[i] != '\n') ==> r == s
  {
    if s == "" then ""
    else if s[0] == '\r' || s[0] == '\n' then StripLineBreaks(s[1..])
    else [s[0]] + StripLineBreaks(s[1..])
  }

  predicate InAlphabet(a: Alphabet, s: string) {
    forall i | 0 <= i < |s| :: DecodeChar(a, s[i]).Some?
  }

  /** DecodeString. */
  function Decode(a: Alphabet, s: string): Result<seq<Byte>> {
    var t := StripLineBreaks(s);
    if InAlphabet(a, t) then Bytes(seq(|t|, i requires 0 <= i < |t| => DecodeChar(a, t[i]).value))
    else Err(InvalidArgument)
  }

  lemma ThreeBytes(b0: Byte, b1: Byte, b2: Byte)
    ensures FirstByte(b0 / 4, b0 % 4 * 16 + b1 / 16) == b0
    ensures SecondByte(b0 % 4 * 16 + b1 / 16, b1 % 16 * 4 + b2 / 64) == b1
    ensures ThirdByte(b1 % 16 * 4 + b2 / 64, b2 % 64) == b2
  {
  }

  lemma TwoBytes(b0: Byte, b1: Byte)
    ensures FirstByte(b0 / 4, b0 % 4 * 16 + b1 / 16) == b0
    ensures SecondByte(b0 % 4 * 16 + b1 / 16, b1 % 16 * 4) == b1
  {
  }

  lemma {:induction false} BytesOfSextets(b: seq<Byte>)
    ensures Bytes(Sextets(b)) == Ok(b)
  {
    var x := Sextets(b);
    if |b| == 1 {
      assert b == [b[0]];
    } else if |b| == 2 {
      TwoBytes(b[0], b[1]);
      assert b == [b[0], b[1]];
    } else if |b| >= 3 {
      BytesOfSextets(b[3..]);
      ThreeBytes(b[0], b[1], b[2]);
      assert x[4..] == Sextets(b[3..]);
      assert b == [b[0], b[1], b[2]] + b[3..];
    }
  }

  /** Decoding undoes encoding for every byte string, in both alphabets. */
  lemma DecodeEncode(a: Alphabet, b: seq<Byte>)
    ensures Decode(a, Encode(a, b)) == Ok(b)
  {
    var x, s := Sextets(b), Encode(a, b);
    assert forall i | 0 <= i < |s| :: s[i] == EncodeChar(a, x[i]) && DecodeChar(a, s[i]) == Some(x[i]);
    assert StripLineBreaks(s) == s;
    assert seq(|s|, i requires 0 <= i < |s| => DecodeChar(a, s[i]).value) == x;
    BytesOfSextets(b);
  }

  // ---- When encoding undoes decoding ----

  /** The low bits that the last character of an incomplete group does not need are zero. */
  predicate ZeroPadded(x: seq<Sextet>) {
    && (|x| % 4 == 2 ==> x[|x| - 1] % 16 == 0)
    && (|x| % 4 == 3 ==> x[|x| - 1] % 4 == 0)
  }

  lemma FourSextets(x0: Sextet, x1: Sextet, x2: Sextet, x3: Sextet)
    ensures var b0, b1, b2 := FirstByte(x0, x1), SecondByte(x1, x2), ThirdByte(x2, x3);
            b0 / 4 == x0 && b0 % 4 * 16 + b1 / 16 == x1 && b1 % 16 * 4 + b2 / 64 == x2 && b2 % 64 == x3
  {
  }

  lemma TwoSextets(x0: Sextet, x1: Sextet)
    ensures var b0 := FirstByte(x0, x1); b0 / 4 == x0 && (b0 % 4 * 16 == x1 <==> x1 % 16 == 0)
  {
  }

  lemma ThreeSextets(x0: Sextet, x1: Sextet, x2: Sextet)
    ensures var b0, b1 := FirstByte(x0, x1), SecondByte(x1, x2);
            b0 / 4 == x0 && b0 % 4 * 16 + b1 / 16 == x1 && (b1 % 16 * 4 == x2 <==> x2 % 4 == 0)
  {
  }

  lemma ThreeBytesRegroup(b0: Byte, b1: Byte, b2: Byte, rest: seq<Byte>)
    ensures Sextets([b0, b1, b2] + rest) == [b0 / 4, b0 % 4 * 16 + b1 / 16, b1 % 16 * 4 + b2 / 64, b2 % 64] + Sextets(rest)
  {
    assert ([b0, b1, b2] + rest)[3..] == rest;
  }

  lemma FourSextetsRegroup(x: seq<Sextet>)
    requires |x| >= 4 && Bytes(x).Ok?
    ensures Bytes(x[4..]).Ok?
    ensures Bytes(x).value == [FirstByte(x[0], x[1]), SecondByte(x[1], x[2]), ThirdByte(x[2], x[3])] + Bytes(x[4..]).value
  {
  }

  lemma GroupRegroups(x0: Sextet, x1: Sextet, x2: Sextet, x3: Sextet, b0: Byte, b1: Byte, b2: Byte, rest: seq<Byte>)
    requires b0 / 4 == x0 && b0 % 4 * 16 + b1 / 16 == x1 && b1 % 16 * 4 + b2 / 64 == x2 && b2 % 64 == x3
    ensures Sextets([b0, b1, b2] + rest) == [x0, x1, x2, x3] + Sextets(rest)
  {
    ThreeBytesRegroup(b0, b1, b2, rest);
  }

  lemma RegroupFour(x0: Sextet, x1: Sextet, x2: Sextet, x3: Sextet, rest: seq<Byte>)
    ensures Sextets([FirstByte(x0, x1), SecondByte(x1, x2), ThirdByte(x2, x3)] + rest) == [x0, x1, x2, x3] + Sextets(rest)
  {
    FourSextets(x0, x1, x2, x3);
    GroupRegroups(x0, x1, x2, x3, FirstByte(x0, x1), SecondByte(x1, x2), ThirdByte(x2, x3), rest);
  }

  lemma FirstFour(x: seq<Sextet>)
    requires |x| >= 4
    ensures x[..4] == [x[0], x[1], x[2], x[3]]
  {
  }

  /** A whole group regroups to itself. */
  lemma WholeGroup(x: seq<Sextet>)
    requires |x| >= 4 && Bytes(x).Ok?
    ensures Bytes(x[4..]).Ok?
    ensures Sextets(Bytes(x).value) == x[..4] + Sextets(Bytes(x[4..]).value)
  {
    FourSextetsRegroup(x);
    FirstFour(x);
    RegroupFour(x[0], x[1], x[2], x[3], Bytes(x[4..]).value);
  }

  lemma OneByteRegroups(b: Byte)
    ensures Sextets([b]) == [b / 4, b % 4 * 16]
  {
  }

  lemma TwoBytesRegroup(b0: Byte, b1: Byte)
    ensures Sextets([b0, b1]) == [b0 / 4, b0 % 4 * 16 + b1 / 16, b1 % 16 * 4]
  {
  }

  lemma LastPair(x: seq<Sextet>)
    requires |x| == 2
    ensures Bytes(x).Ok? && (Sextets(Bytes(x).value) == x <==> ZeroPadded(x))
  {
    var b := FirstByte(x[0], x[1]);
    OneByteRegroups(b);
    TwoSextets(x[0], x[1]);
    assert x == [x[0], x[1]] && Sextets([b])[0] == x[0];
    assert Sextets([b]) == x <==> Sextets([b])[1] == x[1];
  }

  lemma LastTriple(x: seq<Sextet>)
    requires |x| == 3
    ensures Bytes(x).Ok? && (Sextets(Bytes(x).value) == x <==> ZeroPadded(x))
  {
    var b0, b1 := FirstByte(x[0], x[1]), SecondByte(x[1], x[2]);
    TwoBytesRegroup(b0, b1);
    ThreeSextets(x[0], x[1], x[2]);
    assert x == [x[0], x[1], x[2]] && Sextets([b0, b1])[0] == x[0] && Sextets([b0, b1])[1] == x[1];
    assert Sextets([b0, b1]) == x <==> Sextets([b0, b1])[2] == x[2];
  }

  lemma {:induction false} SextetsOfBytesIff(x: seq<Sextet>)
    requires Bytes(x).Ok?
    ensures Sextets(Bytes(x).value) == x <==> ZeroPadded(x)
  {
    if |x| == 2 {
      LastPair(x);
    } else if |x| == 3 {
      LastTriple(x);
    } else if |x| >= 4 {
      WholeGroup(x);
      SextetsOfBytesIff(x[4..]);
      assert x == x[..4] + x[4..];
      SameTail(x[..4], Sextets(Bytes(x[4..]).value), x[4..]);
      PaddingOfTail(x);
    }
  }

  lemma PaddingOfTail(x: seq<Sextet>)
    requires |x| >= 4
    ensures ZeroPadded(x) <==> ZeroPadded(x[4..])
  {
    assert |x[4..]| % 4 == |x| % 4;
  }

  lemma SameTail<T>(head: seq<T>, a: seq<T>, b: seq<T>)
    ensures head + a == head + b <==> a == b
  {
    assert (head + a)[|head|..] == a && (head + b)[|head|..] == b;
  }

  lemma DecodedChar(a: Alphabet, c: char)
    requires DecodeChar(a, c).Some?
    ensures EncodeChar(a, DecodeChar(a, c).value) == c && c != '\r' && c != '\n'
  {
  }

  /** The text has no line breaks, and its last character no bits that decoding ignores. */
  predicate Canonical(a: Alphabet, s: string) {
    && '\r' !in s && '\n' !in s
    && InAlphabet(a, s) && ZeroPadded(Sixes(a, s))
  }

  function Sixes(a: Alphabet, s: string): seq<Sextet>
    requires InAlphabet(a, s)
  {
    seq(|s|, i requires 0 <= i < |s| => DecodeChar(a, s[i]).value)
  }

  lemma EncodedSixes(a: Alphabet, s: string, b: seq<Byte>)
    requires InAlphabet(a, s)
    ensures Encode(a, b) == s <==> Sextets(b) == Sixes(a, s)
  {
    var t, x, y := Encode(a, b), Sextets(b), Sixes(a, s);
    if x == y {
      forall i | 0 <= i < |s| ensures t[i] == s[i] {
        DecodedChar(a, s[i]);
      }
    }
    if t == s {
      forall i | 0 <= i < |x| ensures x[i] == y[i] {
        assert t[i] == EncodeChar(a, x[i]);
      }
    }
  }

  /** Encoding what was decoded gives the text back exactly when the text is canonical. */
  lemma EncodeDecodeIff(a: Alphabet, s: string)
    requires Decode(a, s).Ok?
    ensures Encode(a, Decode(a, s).value) == s <==> Canonical(a, s)
  {
    var b := Decode(a, s).value;
    if '\r' !in s && '\n' !in s {
      assert StripLineBreaks(s) == s;
      EncodedSixes(a, s, b);
      SextetsOfBytesIff(Sixes(a, s));
    } else {
      var i :| 0 <= i < |s| && (s[i] == '\r' || s[i] == '\n');
    }
  }

  // ---- The encoding in the terms of RFC 4648 ----

  function Number(x0: nat, x1: nat, x2: nat, x3: nat): nat {
    262_144 * x0 + 4_096 * x1 + 64 * x2 + x3
  }

  /** Three bytes are the 24-bit number of their four digits, most significant first; two bytes and one byte are
      padded with zero bits to whole digits. */
  lemma DigitsOfGroup(b0: Byte, b1: Byte, b2: Byte)
    ensures var x := Sextets([b0, b1, b2]); |x| == 4 && Number(x[0], x[1], x[2], x[3]) == 65_536 * b0 + 256 * b1 + b2
    ensures var x := Sextets([b0, b1]); |x| == 3 && Number(0, x[0], x[1], x[2]) == 4 * (256 * b0 + b1)
    ensures var x := Sextets([b0]); |x| == 2 && Number(0, 0, x[0], x[1]) == 16 * b0
  {
    assert [b0, b1, b2][3..] == [];
  }

  /** A text is that of its first three bytes followed by that of the rest. */
  lemma EncodesByGroups(a: Alphabet, b: seq<Byte>)
    requires |b| >= 3
    ensures Encode(a, b) == Encode(a, b[..3]) + Encode(a, b[3..])
  {
    var x, first, rest := Sextets(b), Sextets(b[..3]), Sextets(b[3..]);
    assert b[..3][3..] == [];
    assert x == first + rest;
  }

  /** Test vectors of RFC 4648, section 10, and one that tells the alphabets apart. */
  lemma TestVectors()
    ensures Encode(Std, [0x66]) == "Zg"
    ensures Encode(Std, [0x66, 0x6f]) == "Zm8"
    ensures Encode(Std, [0x66, 0x6f, 0x6f]) == "Zm9v"
    ensures Encode(Std, [0xfb, 0xff]) == "+/8" && Encode(Url, [0xfb, 0xff]) == "-_8"
  {
    assert [0x66, 0x6f, 0x6f][3..] == [];
    assert Sextets([0x66, 0x6f, 0x6f]) == [25, 38, 61, 47];
    assert Sextets([0xfb, 0xff]) == [62, 63, 60];
  }
}