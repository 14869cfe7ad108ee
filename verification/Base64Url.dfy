/** Unpadded base64url (section 5 of RFC 4648) and minimal big-endian integers, as Go's
    base64.RawURLEncoding and math/big use them for the parameters of an RSA key. */
module Base64Url {
  import opened Decimal

  type Byte = b: int | 0 <= b < 256

  type Sextet = v: int | 0 <= v < 64

  function Letter(v: Sextet): char {
    if v < 26 then 'A' + v as char
    else if v < 52 then 'a' + (v - 26) as char
    else if v < 62 then '0' + (v - 52) as char
    else if v == 62 then '-' else '_'
  }

  function Index(c: char): Option<Sextet> {
    if 'A' <= c <= 'Z' then Some((c as int) - ('A' as int))
    else if 'a' <= c <= 'z' then Some((c as int) - ('a' as int) + 26)
    else if '0' <= c <= '9' then Some((c as int) - ('0' as int) + 52)
    else if c == '-' then Some(62)
    else if c == '_' then Some(63)
    else None
  }

  // The four sextets of three bytes x, y, z, and the three bytes of four sextets.
  function First(x: Byte): Sextet { x / 4 }
  function Second(x: Byte, y: Byte): Sextet { (x % 4) as int * 16 + y / 16 }
  function Third(y: Byte, z: Byte): Sextet { (y % 16) as int * 4 + z / 64 }
  function Fourth(z: Byte): Sextet { z % 64 }

  function Upper(v0: Sextet, v1: Sextet): Byte { v0 as int * 4 + v1 / 16 }
  function Middle(v1: Sextet, v2: Sextet): Byte { (v1 % 16) as int * 16 + v2 / 4 }
  function Lower(v2: Sextet, v3: Sextet): Byte { (v2 % 4) as int * 64 + v3 }

  /** Three bytes are four sextets; a rest of one or two bytes is two or three. */
  function Sextets(b: seq<Byte>): seq<Sextet>
    decreases |b|
  {
    if |b| == 0 then []
    else if |b| == 1 then [First(b[0]), Second(b[0], 0)]
    else if |b| == 2 then [First(b[0]), Second(b[0], b[1]), Third(b[1], 0)]
    else [First(b[0]), Second(b[0], b[1]), Third(b[1], b[2]), Fourth(b[2])] + Sextets(b[3..])
  }

  /** A rest of two or three sextets gives one or two bytes, whatever its unused low bits are; a rest
      of one is an error. */
  function FromSextets(v: seq<Sextet>): Option<seq<Byte>>
    decreases |v|
  {
    if |v| == 0 then Some([])
    else if |v| == 1 then None
    else if |v| == 2 then Some([Upper(v[0], v[1])])
    else if |v| == 3 then Some([Upper(v[0], v[1]), Middle(v[1], v[2])])
    else
      match FromSextets(v[4..])
      case None => None
      case Some(rest) => Some([Upper(v[0], v[1]), Middle(v[1], v[2]), Lower(v[2], v[3])] + rest)
  }

  function Letters(v: seq<Sextet>): (s: string)
    ensures |s| == |v| && forall i :: 0 <= i < |v| ==> s[i] == Letter(v[i])
  {
    seq(|v|, i requires 0 <= i < |v| => Letter(v[i]))
  }

  function Indices(s: string): Option<seq<Sextet>> {
    if forall i :: 0 <= i < |s| ==> Index(s[i]).Some? then
      Some(seq(|s|, i requires 0 <= i < |s| && Index(s[i]).Some? => Index(s[i]).value))
    else None
  }

  function Encode(b: seq<Byte>): string {
    Letters(Sextets(b))
  }

  /** The decoder skips line breaks wherever they stand. */
  function Unbroken(s: string): string {
    if s == "" then ""
    else (if s[0] == '\n' || s[0] == '\r' then "" else [s[0]]) + Unbroken(s[1..])
  }

  function Decode(s: string): Option<seq<Byte>> {
    match Indices(Unbroken(s))
    case None => None
    case Some(v) => FromSextets(v)
  }

  // The bits of three bytes, cut into four sextets and put together again.
  lemma BytesToSextets(x: Byte, y: Byte, z: Byte)
    ensures Upper(First(x), Second(x, y)) == x
    ensures Middle(Second(x, y), Third(y, z)) == y
    ensures Lower(Third(y, z), Fourth(z)) == z
  {
  }

  lemma SextetsToBytes(v0: Sextet, v1: Sextet, v2: Sextet, v3: Sextet)
    ensures First(Upper(v0, v1)) == v0
    ensures Second(Upper(v0, v1), Middle(v1, v2)) == v1
    ensures Third(Middle(v1, v2), Lower(v2, v3)) == v2
    ensures Fourth(Lower(v2, v3)) == v3
  {
  }

  lemma OneUpper(v: seq<Sextet>)
    requires |v| == 2
    ensures FromSextets(v) == Some([Upper(v[0], v[1])])
  {
  }

  lemma OneByte(x: Byte)
    ensures FromSextets(Sextets([x])) == Some([x])
  {
    OneUpper(Sextets([x]));
    BytesToSextets(x, 0, 0);
  }

  lemma TwoBytes(x: Byte, y: Byte)
    ensures FromSextets(Sextets([x, y])) == Some([x, y])
  {
    BytesToSextets(x, y, 0);
  }

  lemma {:induction false} BytesRoundTrip(b: seq<Byte>)
    ensures FromSextets(Sextets(b)) == Some(b)
    decreases |b|
  {
    if |b| == 1 {
      assert b == [b[0]];
      OneByte(b[0]);
    } else if |b| == 2 {
      assert b == [b[0], b[1]];
      TwoBytes(b[0], b[1]);
    } else if |b| > 2 {
      assert b == [b[0], b[1], b[2]] + b[3..];
      assert Sextets(b)[4..] == Sextets(b[3..]);
      BytesRoundTrip(b[3..]);
      BytesToSextets(b[0], b[1], b[2]);
    }
  }

  /** The unused low bits of the last sextet are zero. */
  predicate Tidy(v: seq<Sextet>)
    decreases |v|
  {
    if |v| >= 4 then Tidy(v[4..])
    else (|v| == 2 ==> v[1] % 16 == 0) && (|v| == 3 ==> v[2] % 4 == 0)
  }

  lemma {:induction false} SextetsAreTidy(b: seq<Byte>)
    ensures Tidy(Sextets(b))
    decreases |b|
  {
    if |b| > 2 {
      SextetsAreTidy(b[3..]);
      assert Sextets(b)[4..] == Sextets(b[3..]);
    }
  }

  lemma TidyEnds(v0: Sextet, v1: Sextet, v2: Sextet)
    ensures v1 % 16 == 0 ==> Second(Upper(v0, v1), 0) == v1
    ensures v2 % 4 == 0 ==> Third(Middle(v1, v2), 0) == v2
  {
  }

  lemma TwoSextets(v0: Sextet, v1: Sextet)
    requires v1 % 16 == 0
    ensures Sextets([Upper(v0, v1)]) == [v0, v1]
  {
    SextetsToBytes(v0, v1, 0, 0);
    TidyEnds(v0, v1, 0);
  }

  lemma ThreeSextets(v0: Sextet, v1: Sextet, v2: Sextet)
    requires v2 % 4 == 0
    ensures Sextets([Upper(v0, v1), Middle(v1, v2)]) == [v0, v1, v2]
  {
    SextetsToBytes(v0, v1, v2, 0);
    TidyEnds(v0, v1, v2);
  }

  lemma FourSextets(v0: Sextet, v1: Sextet, v2: Sextet, v3: Sextet, rest: seq<Byte>)
    ensures Sextets([Upper(v0, v1), Middle(v1, v2), Lower(v2, v3)] + rest) == [v0, v1, v2, v3] + Sextets(rest)
  {
    assert ([Upper(v0, v1), Middle(v1, v2), Lower(v2, v3)] + rest)[3..] == rest;
    SextetsToBytes(v0, v1, v2, v3);
  }

  lemma {:induction false} SextetsRoundTrip(v: seq<Sextet>)
    requires Tidy(v) && FromSextets(v).Some?
    ensures Sextets(FromSextets(v).value) == v
    decreases |v|
  {
    if |v| == 2 {
      assert v == [v[0], v[1]];
      TwoSextets(v[0], v[1]);
    } else if |v| == 3 {
      assert v == [v[0], v[1], v[2]];
      ThreeSextets(v[0], v[1], v[2]);
    } else if |v| >= 4 {
      assert v == [v[0], v[1], v[2], v[3]] + v[4..];
      SextetsRoundTrip(v[4..]);
      FourSextets(v[0], v[1], v[2], v[3], FromSextets(v[4..]).value);
    }
  }

  lemma IndexOfLetter(v: Sextet)
    ensures Index(Letter(v)) == Some(v)
    ensures Letter(v) != '\n' && Letter(v) != '\r'
  {
  }

  lemma LetterOfIndex(c: char)
    requires Index(c).Some?
    ensures Letter(Index(c).value) == c && c != '\n' && c != '\r'
  {
  }

  lemma IndicesOfLetters(v: seq<Sextet>)
    ensures Indices(Letters(v)) == Some(v) && NoBreaks(Letters(v))
  {
    forall i | 0 <= i < |v| ensures Index(Letters(v)[i]) == Some(v[i]) && Letters(v)[i] != '\n' && Letters(v)[i] != '\r' {
      IndexOfLetter(v[i]);
    }
    assert Indices(Letters(v)).value == v;
  }

  lemma LettersOfIndices(s: string)
    requires Indices(s).Some?
    ensures Letters(Indices(s).value) == s && NoBreaks(s)
  {
    forall i | 0 <= i < |s| ensures Letter(Index(s[i]).value) == s[i] && s[i] != '\n' && s[i] != '\r' {
      LetterOfIndex(s[i]);
    }
  }

  predicate NoBreaks(s: string) {
    forall i :: 0 <= i < |s| ==> s[i] != '\n' && s[i] != '\r'
  }

  lemma {:induction false} UnbrokenIsSame(s: string)
    requires NoBreaks(s)
    ensures Unbroken(s) == s
  {
    if s != "" {
      UnbrokenIsSame(s[1..]);
    }
  }

  /** Decoding undoes encoding, for every byte string. */
  lemma DecodeEncode(b: seq<Byte>)
    ensures Decode(Encode(b)) == Some(b)
  {
    IndicesOfLetters(Sextets(b));
    UnbrokenIsSame(Encode(b));
    BytesRoundTrip(b);
  }

  /** No line breaks, and no unused low bits: what an encoder writes. */
  predicate Canonical(s: string) {
    NoBreaks(s) && Indices(s).Some? && Tidy(Indices(s).value)
  }

  /** Encoding undoes decoding exactly on canonical strings. */
  lemma EncodeDecode(s: string, b: seq<Byte>)
    requires Decode(s) == Some(b)
    ensures Encode(b) == s <==> Canonical(s)
  {
    if Canonical(s) {
      UnbrokenIsSame(s);
      SextetsRoundTrip(Indices(s).value);
      LettersOfIndices(s);
    }
    IndicesOfLetters(Sextets(b));
    SextetsAreTidy(b);
  }

  // ---- integers

  /** big.Int.Bytes: big-endian, no leading zero, zero is empty. */
  function Bytes(n: nat): seq<Byte> {
    if n == 0 then [] else Bytes(n / 256) + [n % 256]
  }

  /** big.Int.SetBytes. */
  function SetBytes(b: seq<Byte>): nat {
    if b == [] then 0 else 256 * SetBytes(b[..|b| - 1]) + b[|b| - 1]
  }

  lemma {:induction false} SetBytesOfBytes(n: nat)
    ensures SetBytes(Bytes(n)) == n
  {
    if n != 0 {
      SetBytesOfBytes(n / 256);
      var b := Bytes(n);
      assert b[..|b| - 1] == Bytes(n / 256);
    }
  }

  function Trimmed(b: seq<Byte>): seq<Byte> {
    if b == [] || b[0] != 0 then b else Trimmed(b[1..])
  }

  lemma {:induction false} TrimmedInit(b: seq<Byte>)
    requires b != []
    ensures Trimmed(b) == if Trimmed(b[..|b| - 1]) == [] && b[|b| - 1] == 0 then []
                          else Trimmed(b[..|b| - 1]) + [b[|b| - 1]]
  {
    if |b| > 1 {
      if b[0] == 0 {
        TrimmedInit(b[1..]);
        assert b[1..][..|b| - 2] == b[..|b| - 1][1..];
      } else {
        assert b == b[..|b| - 1] + [b[|b| - 1]];
      }
    } else {
      assert b == [b[0]];
    }
  }

  /** Writing back what was read drops exactly the leading zeros. */
  lemma {:induction false} BytesOfSetBytes(b: seq<Byte>)
    ensures Bytes(SetBytes(b)) == Trimmed(b)
  {
    if b != [] {
      var init, n := b[..|b| - 1], SetBytes(b);
      BytesOfSetBytes(init);
      TrimmedInit(b);
      assert n / 256 == SetBytes(init) && n % 256 == b[|b| - 1];
      assert Bytes(0) == [];
    }
  }

  // ---- the alphabet and the order of the bits

  /** Table 2 of RFC 4648: three runs of consecutive letters, and the last two. */
  lemma AlphabetIs(v: Sextet)
    ensures Letter(0) == 'A' && Letter(26) == 'a' && Letter(52) == '0' && Letter(62) == '-' && Letter(63) == '_'
    ensures v < 25 || 26 <= v < 51 || 52 <= v < 61 ==> Letter(v + 1) as int == Letter(v) as int + 1
    ensures Index(Letter(v)) == Some(v)
  {
  }

  /** Section 10 of RFC 4648 without its padding, and the two letters that only the URL alphabet has. */
  lemma Vectors()
    ensures Encode([102]) == "Zg" && Encode([102, 111]) == "Zm8" && Encode([102, 111, 111]) == "Zm9v"
    ensures Encode([251, 255]) == "-_8"
  {
  }

  lemma BytesOfExponent()
    ensures Bytes(65537) == [1, 0, 1]
  {
    assert Bytes(1) == Bytes(0) + [1] && Bytes(0) == [];
    assert Bytes(256) == Bytes(1) + [0];
    assert Bytes(65537) == Bytes(256) + [1];
  }

  lemma EncodedExponent()
    ensures Encode([1, 0, 1]) == "AQAB"
  {
    var b: seq<Byte> := [1, 0, 1];
    assert b[3..] == [] && Sextets(b[3..]) == [];
    assert First(1) == 0 && Second(1, 0) == 16 && Third(0, 1) == 0 && Fourth(1) == 1;
    var v: seq<Sextet> := [0, 16, 0, 1];
    assert Sextets(b) == v;
    assert Letter(0) == 'A' && Letter(16) == 'Q' && Letter(1) == 'B';
    assert Letters(v) == "AQAB";
  }

  /** The usual exponent, as every key set shows it. */
  lemma UsualExponent()
    ensures Encode(Bytes(65537)) == "AQAB" && SetBytes([1, 0, 1]) == 65537
  {
    BytesOfExponent();
    EncodedExponent();
    SetBytesOfBytes(65537);
  }
}
