/**
 * encoding/base64's StdEncoding (RFC 4648, section 4) on Go strings: padded encoding, and
 * decoding that requires padding but ignores unused trailing bits (section 3.5).
 */
module Base64 {
  import opened Options
  import opened GoStrings

  type Sextet = x: int | 0 <= x < 64

  function Octet(c: char): (b: int)
    ensures 0 <= b < 0x100
  {
    c as int % 0x100
  }

  function EncChar(v: Sextet): char {
    if v < 26 then ('A' as int + v) as char
    else if v < 52 then ('a' as int + v - 26) as char
    else if v < 62 then ('0' as int + v - 52) as char
    else if v == 62 then '+' else '/'
  }

  function DecChar(c: char): Option<Sextet> {
    if 'A' <= c <= 'Z' then Some(c as int - 'A' as int)
    else if 'a' <= c <= 'z' then Some(c as int - 'a' as int + 26)
    else if '0' <= c <= '9' then Some(c as int - '0' as int + 52)
    else if c == '+' then Some(62)
    else if c == '/' then Some(63)
    else None
  }

  /** The alphabet, table 1 of RFC 4648: the letters, the digits, then plus and slash. */
  lemma Alphabet()
    ensures EncChar(0) == 'A' && EncChar(25) == 'Z' && EncChar(26) == 'a' && EncChar(51) == 'z'
    ensures EncChar(52) == '0' && EncChar(61) == '9' && EncChar(62) == '+' && EncChar(63) == '/'
    ensures forall v: Sextet :: v < 61 && v != 25 && v != 51 ==> EncChar(v + 1) as int == EncChar(v) as int + 1
  {}

  /** Three octets as four characters. */
  function EncQuantum(a: char, b: char, c: char): (q: string)
    ensures |q| == 4
  {
    [EncChar(Octet(a) / 4), EncChar(Octet(a) % 4 * 16 + Octet(b) / 16),
     EncChar(Octet(b) % 16 * 4 + Octet(c) / 64), EncChar(Octet(c) % 64)]
  }

  function Encode(s: string): string {
    if |s| == 0 then ""
    else if |s| == 1 then EncQuantum(s[0], 0 as char, 0 as char)[..2] + "=="
    else if |s| == 2 then EncQuantum(s[0], s[1], 0 as char)[..3] + "="
    else EncQuantum(s[0], s[1], s[2]) + Encode(s[3..])
  }

  function DecQuantum(v0: Sextet, v1: Sextet, v2: Sextet, v3: Sextet): string {
    [(v0 * 4 + v1 / 16) as char, (v1 % 16 * 16 + v2 / 4) as char, (v2 % 4 * 64 + v3) as char]
  }

  /** DecodeString on input without newlines: `None` for every corrupt input. */
  function Decode(s: string): Option<string> {
    if s == "" then Some("")
    else if |s| < 4 then None
    else
      var v0, v1, v2, v3 := DecChar(s[0]), DecChar(s[1]), DecChar(s[2]), DecChar(s[3]);
      if v0.None? || v1.None? then None
      else if v2.Some? && v3.Some? then
        var rest := Decode(s[4..]);
        if rest.None? then None else Some(DecQuantum(v0.value, v1.value, v2.value, v3.value) + rest.value)
      else if v2.Some? && s[3] == '=' && |s| == 4 then Some(DecQuantum(v0.value, v1.value, v2.value, 0)[..2])
      else if s[2] == '=' && s[3] == '=' && |s| == 4 then Some(DecQuantum(v0.value, v1.value, 0, 0)[..1])
      else None
  }

  /** The padding the profile code adds until the length is a multiple of four. */
  function Pad(s: string): string {
    match |s| % 4
    case 0 => s
    case 1 => s + "==="
    case 2 => s + "=="
    case _ => s + "="
  }

  /** Decode, and once more with padding if that fails. */
  function DecodeLenient(s: string): Option<string> {
    var first := Decode(s);
    if first.Some? then first else Decode(Pad(s))
  }

  lemma DecEncChar(v: Sextet)
    ensures DecChar(EncChar(v)) == Some(v) && 0x20 < EncChar(v) as int < 0x80 && EncChar(v) != '='
  {}

  lemma DecEncQuantum(a: int, b: int, c: int)
    requires 0 <= a < 0x100 && 0 <= b < 0x100 && 0 <= c < 0x100
    ensures DecQuantum(a / 4, a % 4 * 16 + b / 16, b % 16 * 4 + c / 64, c % 64) == [a as char, b as char, c as char]
  {
    assert (a % 4 * 16 + b / 16) / 16 == a % 4 && (a % 4 * 16 + b / 16) % 16 == b / 16;
    assert (b % 16 * 4 + c / 64) / 4 == b % 16 && (b % 16 * 4 + c / 64) % 4 == c / 64;
  }

  lemma DecodeFull(v0: Sextet, v1: Sextet, v2: Sextet, v3: Sextet, rest: string)
    requires Decode(rest).Some?
    ensures Decode([EncChar(v0), EncChar(v1), EncChar(v2), EncChar(v3)] + rest)
            == Some(DecQuantum(v0, v1, v2, v3) + Decode(rest).value)
  {
    hide EncChar, DecChar, DecQuantum;
    DecEncChar(v0);
    DecEncChar(v1);
    DecEncChar(v2);
    DecEncChar(v3);
    assert ([EncChar(v0), EncChar(v1), EncChar(v2), EncChar(v3)] + rest)[4..] == rest;
  }

  lemma DecodePadded(v0: Sextet, v1: Sextet, v2: Sextet)
    ensures Decode([EncChar(v0), EncChar(v1), EncChar(v2), '='])
            == Some([(v0 * 4 + v1 / 16) as char, (v1 % 16 * 16 + v2 / 4) as char])
    ensures Decode([EncChar(v0), EncChar(v1), '=', '=']) == Some([(v0 * 4 + v1 / 16) as char])
  {
    hide EncChar;
    DecEncChar(v0);
    DecEncChar(v1);
    DecEncChar(v2);
    assert DecQuantum(v0, v1, v2, 0)[..2] == [(v0 * 4 + v1 / 16) as char, (v1 % 16 * 16 + v2 / 4) as char];
    assert DecQuantum(v0, v1, 0, 0)[..1] == [(v0 * 4 + v1 / 16) as char];
  }

  lemma DecodeEncodeOne(c: char)
    requires c as int < 0x100
    ensures Decode(Encode([c])) == Some([c])
  {
    hide EncChar, DecChar, Decode;
    assert Octet(c) as char == c;
    DecodePadded(Octet(c) / 4, Octet(c) % 4 * 16, 0);
    assert Octet(0 as char) == 0;
    assert Encode([c]) == [EncChar(Octet(c) / 4), EncChar(Octet(c) % 4 * 16), '=', '='];
  }

  lemma DecodeEncodeTwo(c: char, d: char)
    requires c as int < 0x100 && d as int < 0x100
    ensures Decode(Encode([c, d])) == Some([c, d])
  {
    hide EncChar, DecChar, Decode, Encode;
    var a, b := Octet(c), Octet(d);
    assert a as char == c && b as char == d;
    DecEncQuantum(a, b, 0);
    DecodePadded(a / 4, a % 4 * 16 + b / 16, b % 16 * 4);
    EncodeTwo(c, d);
  }

  lemma EncodeTwo(c: char, d: char)
    requires c as int < 0x100 && d as int < 0x100
    ensures var a, b := Octet(c), Octet(d);
            Encode([c, d]) == [EncChar(a / 4), EncChar(a % 4 * 16 + b / 16), EncChar(b % 16 * 4), '=']
  {
    hide EncChar;
    assert Octet(0 as char) == 0;
  }

  lemma DecodeEncodeThree(c: char, d: char, e: char, rest: string)
    requires c as int < 0x100 && d as int < 0x100 && e as int < 0x100 && Decode(rest).Some?
    ensures Decode(EncQuantum(c, d, e) + rest) == Some([c, d, e] + Decode(rest).value)
  {
    hide EncChar, DecChar, DecQuantum, Decode;
    var x, y, z := Octet(c), Octet(d), Octet(e);
    DecEncQuantum(x, y, z);
    DecodeFull(x / 4, x % 4 * 16 + y / 16, y % 16 * 4 + z / 64, z % 64, rest);
    assert x as char == c && y as char == d && z as char == e;
  }

  /** Decoding what was encoded gives the bytes back. */
  lemma {:induction false} DecodeEncode(s: string)
    requires IsBytes(s)
    ensures Decode(Encode(s)) == Some(s)
  {
    hide EncQuantum, Decode;
    if |s| == 0 {
      DecodeEmpty();
    } else if |s| == 1 {
      DecodeEncodeOne(s[0]);
      assert s == [s[0]];
    } else if |s| == 2 {
      DecodeEncodeTwo(s[0], s[1]);
      assert s == [s[0], s[1]];
    } else {
      DecodeEncode(s[3..]);
      DecodeEncodeThree(s[0], s[1], s[2], Encode(s[3..]));
      assert s == [s[0], s[1], s[2]] + s[3..];
    }
  }

  lemma DecodeEmpty()
    ensures Decode("") == Some("")
  {}

  /** Decoded strings are bytes. */
  lemma {:induction false} DecodeBytes(s: string)
    requires Decode(s).Some?
    ensures IsBytes(Decode(s).value) && |s| % 4 == 0
  {
    hide DecChar;
    if s != "" && DecChar(s[2]).Some? && DecChar(s[3]).Some? { DecodeBytes(s[4..]); }
  }

  lemma QuantumSolid(a: char, b: char, c: char)
    ensures Solid(EncQuantum(a, b, c))
  {
    hide EncChar;
    DecEncChar(Octet(a) / 4);
    DecEncChar(Octet(a) % 4 * 16 + Octet(b) / 16);
    DecEncChar(Octet(b) % 16 * 4 + Octet(c) / 64);
    DecEncChar(Octet(c) % 64);
  }

  /** How many padding characters the encoding of `n` bytes ends with. */
  function PadCount(n: nat): nat {
    if n % 3 == 0 then 0 else 3 - n % 3
  }

  lemma {:induction false} EncodeSolid(s: string)
    ensures Solid(Encode(s)) && |Encode(s)| % 4 == 0
  {
    hide EncQuantum;
    if |s| > 2 {
      QuantumSolid(s[0], s[1], s[2]);
      EncodeSolid(s[3..]);
    } else if |s| > 0 {
      QuantumSolid(s[0], if |s| > 1 then s[1] else 0 as char, 0 as char);
    }
  }

  lemma PadCountStep(n: nat)
    ensures n >= 3 ==> PadCount(n - 3) == PadCount(n)
    ensures PadCount(0) == 0 && PadCount(1) == 2 && PadCount(2) == 1
  {}

  /** The test vectors of RFC 4648, section 10. */
  lemma Rfc4648Vectors()
    ensures Encode("") == "" && Encode("f") == "Zg==" && Encode("fo") == "Zm8=" && Encode("foo") == "Zm9v"
    ensures Encode("foob") == "Zm9vYg==" && Encode("fooba") == "Zm9vYmE=" && Encode("foobar") == "Zm9vYmFy"
  {
    hide Encode, EncQuantum;
    QuantaOfVectors();
    EncodeParts('f', 'o', 'o', "");
    EncodeParts('f', 'o', 'o', "b");
    EncodeParts('f', 'o', 'o', "ba");
    EncodeParts('f', 'o', 'o', "bar");
    EncodeParts('b', 'a', 'r', "");
    assert "foo" == ['f', 'o', 'o'] + "" && "foob" == ['f', 'o', 'o'] + "b" && "fooba" == ['f', 'o', 'o'] + "ba";
    assert "foobar" == ['f', 'o', 'o'] + "bar" && "bar" == ['b', 'a', 'r'] + "";
  }

  lemma EncodeParts(a: char, b: char, c: char, rest: string)
    ensures Encode([a, b, c] + rest) == EncQuantum(a, b, c) + Encode(rest)
    ensures Encode("") == "" && Encode([a]) == EncQuantum(a, 0 as char, 0 as char)[..2] + "=="
    ensures Encode([a, b]) == EncQuantum(a, b, 0 as char)[..3] + "="
  {
    assert ([a, b, c] + rest)[3..] == rest;
  }

  lemma QuantaOfVectors()
    ensures EncQuantum('f', 'o', 'o') == "Zm9v" && EncQuantum('b', 'a', 'r') == "YmFy"
    ensures Encode("f") == "Zg==" && Encode("fo") == "Zm8=" && Encode("b") == "Yg==" && Encode("ba") == "YmE="
  {
    hide EncQuantum;
    EncodeParts('f', 'o', 'o', "");
    EncodeParts('b', 'a', 'r', "");
    Quanta();
  }

  lemma Quanta()
    ensures EncQuantum('f', 'o', 'o') == "Zm9v" && EncQuantum('b', 'a', 'r') == "YmFy"
    ensures EncQuantum('f', 0 as char, 0 as char) == "ZgAA" && EncQuantum('f', 'o', 0 as char) == "Zm8A"
    ensures EncQuantum('b', 0 as char, 0 as char) == "YgAA" && EncQuantum('b', 'a', 0 as char) == "YmEA"
  {
    hide EncQuantum, EncChar;
    SomeLetters();
    QuantumValue('f', 'o', 'o', 25, 38, 61, 47);
    QuantumValue('b', 'a', 'r', 24, 38, 5, 50);
    QuantumValue('f', 0 as char, 0 as char, 25, 32, 0, 0);
    QuantumValue('f', 'o', 0 as char, 25, 38, 60, 0);
    QuantumValue('b', 0 as char, 0 as char, 24, 32, 0, 0);
    QuantumValue('b', 'a', 0 as char, 24, 38, 4, 0);
  }

  lemma SomeLetters()
    ensures EncChar(0) == 'A' && EncChar(4) == 'E' && EncChar(5) == 'F' && EncChar(24) == 'Y' && EncChar(25) == 'Z'
    ensures EncChar(32) == 'g' && EncChar(38) == 'm' && EncChar(47) == 'v' && EncChar(50) == 'y'
    ensures EncChar(60) == '8' && EncChar(61) == '9'
  {}

  /** Four sextets that make up the three octets are what is encoded. */
  lemma QuantumValue(a: char, b: char, c: char, v0: Sextet, v1: Sextet, v2: Sextet, v3: Sextet)
    requires a as int == v0 * 4 + v1 / 16 && b as int == v1 % 16 * 16 + v2 / 4 && c as int == v2 % 4 * 64 + v3
    ensures EncQuantum(a, b, c) == [EncChar(v0), EncChar(v1), EncChar(v2), EncChar(v3)]
  {
    hide EncChar, Octet;
    OctetIs(a, v0 * 4 + v1 / 16);
    OctetIs(b, v1 % 16 * 16 + v2 / 4);
    OctetIs(c, v2 % 4 * 64 + v3);
    DivideBy4(a as int, v0, v1 / 16);
    DivideBy16(b as int, v1 % 16, v2 / 4);
    DivideBy64(c as int, v2 % 4, v3);
    Recombine(v1, 16);
    Recombine(v2, 4);
  }

  lemma OctetIs(c: char, x: int)
    requires c as int == x && 0 <= x < 0x100
    ensures Octet(c) == x
  {}

  lemma Recombine(v: Sextet, d: int)
    requires d == 4 || d == 16
    ensures v / d * d + v % d == v
  {}

  lemma DivideBy4(x: int, q: int, r: int)
    requires x == q * 4 + r && 0 <= r < 4
    ensures x / 4 == q && x % 4 == r
  {}

  lemma DivideBy16(x: int, q: int, r: int)
    requires x == q * 16 + r && 0 <= r < 16
    ensures x / 16 == q && x % 16 == r
  {}

  lemma DivideBy64(x: int, q: int, r: int)
    requires x == q * 64 + r && 0 <= r < 64
    ensures x / 64 == q && x % 64 == r
  {}

  /** Corrupt input is refused: what can be decoded is a multiple of four characters from the
      alphabet, the last one or two of which may be padding. */
  lemma {:induction false} DecodeAccepts(s: string)
    ensures Decode(s).Some? <==>
            && |s| % 4 == 0
            && forall i :: 0 <= i < |s| ==> AcceptsAt(s, i)
  {
    hide DecChar, DecQuantum;
    EqualsIsPadding();
    if |s| >= 4 {
      var t := s[4..];
      DecodeAccepts(t);
      assert forall i :: 4 <= i < |s| ==> s[i] == t[i - 4];
      assert (forall i :: 0 <= i < |s| ==> AcceptsAt(s, i)) <==>
             (forall i :: 0 <= i < 4 ==> AcceptsAt(s, i)) && forall i :: 0 <= i < |t| ==> AcceptsAt(t, i) by {
        forall i | 0 <= i < |t| ensures AcceptsAt(t, i) <==> AcceptsAt(s, i + 4) {}
        assert forall i :: 4 <= i < |s| ==> (AcceptsAt(s, i) <==> AcceptsAt(t, i - 4));
      }
      assert AcceptsAt(s, 0) && AcceptsAt(s, 1) && AcceptsAt(s, 2) && AcceptsAt(s, 3) <==>
             forall i :: 0 <= i < 4 ==> AcceptsAt(s, i);
    }
  }

  /** A character of the alphabet, or padding where padding may be. */
  ghost predicate AcceptsAt(s: string, i: nat)
    requires i < |s|
  {
    DecChar(s[i]).Some? || (s[i] == '=' && (i == |s| - 1 || (i == |s| - 2 && s[|s| - 1] == '=')))
  }

  lemma EqualsIsPadding()
    ensures DecChar('=') == None
  {}

  /** The canonical encoding ends with the padding that the length calls for. */
  lemma {:induction false} EncodePadding(s: string)
    ensures PadCount(|s|) <= |Encode(s)|
    ensures forall i :: |Encode(s)| - PadCount(|s|) <= i < |Encode(s)| ==> Encode(s)[i] == '='
  {
    hide EncQuantum, PadCount;
    PadCountStep(|s|);
    if |s| > 2 {
      EncodePadding(s[3..]);
      var rest, q := Encode(s[3..]), EncQuantum(s[0], s[1], s[2]);
      forall i | |Encode(s)| - PadCount(|s|) <= i < |Encode(s)| ensures Encode(s)[i] == '=' {
        assert (q + rest)[i] == rest[i - |q|];
      }
    }
  }

  /** Dropping any part of the trailing padding does not change what is decoded. */
  lemma DecodeWithoutPadding(s: string, dropped: nat)
    requires IsBytes(s) && dropped <= PadCount(|s|)
    ensures dropped <= |Encode(s)| && DecodeLenient(Encode(s)[..|Encode(s)| - dropped]) == Some(s)
  {
    hide Encode, Decode, Solid, Pad, IsBytes;
    EncodeSolid(s);
    EncodePadding(s);
    DecodeEncode(s);
    var e := Encode(s);
    var cut := e[..|e| - dropped];
    if dropped > 0 {
      CutIsPadded(e, dropped);
      if Decode(cut).Some? { DecodeBytes(cut); }
    } else {
      assert cut == e;
    }
  }

  lemma CutIsPadded(e: string, dropped: nat)
    requires 0 < dropped <= 2 && dropped <= |e| && |e| % 4 == 0
    requires forall i :: |e| - dropped <= i < |e| ==> e[i] == '='
    ensures var cut := e[..|e| - dropped]; |cut| % 4 != 0 && Pad(cut) == e
  {
    hide Pad;
    var cut := e[..|e| - dropped];
    DivideBy4(|cut|, |e| / 4 - 1, 4 - dropped);
    PadsTo(cut);
    if dropped == 1 {
      assert e == cut + [e[|e| - 1]];
    } else {
      assert e == cut + [e[|e| - 2]] + [e[|e| - 1]];
      assert cut + "==" == cut + "=" + "=";
    }
  }

  lemma PadsTo(s: string)
    ensures |s| % 4 == 3 ==> Pad(s) == s + "="
    ensures |s| % 4 == 2 ==> Pad(s) == s + "=="
  {}

  /** The padding loop of the profile code: at most three characters. */
  method PadLoop(s: string) returns (padded: string)
    ensures padded == Pad(s) && |s| <= |padded| <= |s| + 3 && |padded| % 4 == 0
    ensures padded[..|s|] == s && forall i :: |s| <= i < |padded| ==> padded[i] == '='
  {
    padded := s;
    while |padded| % 4 != 0
      invariant |s| <= |padded| <= |Pad(s)| && padded == Pad(s)[..|padded|]
      decreases |Pad(s)| - |padded|
    {
      assert Pad(s)[|padded|] == '=';
      padded := padded + "=";
    }
  }
}
