/** The base64 layer of `Base64BiCoder`: the code's regrouping and padding arithmetic,
    and section 4 of RFC 4648 as the independent reference. */
module Base64 {
  import opened Wrappers

  type Byte = x: nat | x < 256
  type Sextet = x: nat | x < 64

  // ---------- bits ----------

  function Pow2(w: nat): nat {
    if w == 0 then 1 else 2 * Pow2(w - 1)
  }

  /** The low `w` bits of `v`, most significant first. */
  function ToBits(v: nat, w: nat): (bits: seq<bool>)
    ensures |bits| == w
  {
    if w == 0 then [] else ToBits(v / 2, w - 1) + [v % 2 == 1]
  }

  function FromBits(bits: seq<bool>): nat {
    if bits == [] then 0 else 2 * FromBits(bits[..|bits| - 1]) + (if bits[|bits| - 1] then 1 else 0)
  }

  function Zeros(n: nat): (bits: seq<bool>)
    ensures |bits| == n
  {
    seq(n, _ => false)
  }

  lemma {:induction false} FromBitsBound(bits: seq<bool>)
    ensures FromBits(bits) < Pow2(|bits|)
  {
    if bits != [] { FromBitsBound(bits[..|bits| - 1]); }
  }

  lemma {:induction false} ToBitsFromBits(bits: seq<bool>)
    ensures ToBits(FromBits(bits), |bits|) == bits
  {
    if bits != [] { ToBitsFromBits(bits[..|bits| - 1]); }
  }

  lemma {:induction false} FromBitsToBits(v: nat, w: nat)
    requires v < Pow2(w)
    ensures FromBits(ToBits(v, w)) == v
  {
    if w != 0 {
      FromBitsToBits(v / 2, w - 1);
      assert ToBits(v, w)[..w - 1] == ToBits(v / 2, w - 1);
    }
  }

  lemma {:induction false} ToBitsZero(w: nat)
    ensures ToBits(0, w) == Zeros(w)
  {
    if w != 0 { ToBitsZero(w - 1); }
  }

  lemma SmallPowers()
    ensures Pow2(6) == 64 && Pow2(8) == 256
  {
    assert Pow2(4) == 16;
  }

  function SextetOf(bits: seq<bool>): Sextet
    requires |bits| == 6
  {
    FromBitsBound(bits);
    SmallPowers();
    FromBits(bits)
  }

  function ByteOf(bits: seq<bool>): Byte
    requires |bits| == 8
  {
    FromBitsBound(bits);
    SmallPowers();
    FromBits(bits)
  }

  // ---------- regrouping (boost's transform_width) ----------

  function ByteBits(s: seq<Byte>): (bits: seq<bool>)
    ensures |bits| == 8 * |s|
  {
    if s == [] then [] else ToBits(s[0], 8) + ByteBits(s[1..])
  }

  function CharBits(s: string): (bits: seq<bool>)
    ensures |bits| == 6 * |s|
  {
    if s == [] then [] else ToBits(Index64(s[0]), 6) + CharBits(s[1..])
  }

  /** Six bits to a character, the last group filled up with zero bits. */
  function CharsOf(bits: seq<bool>): string {
    if bits == [] then ""
    else if |bits| < 6 then [Char(bits + Zeros(6 - |bits|))]
    else [Char(bits[..6])] + CharsOf(bits[6..])
  }

  /** Eight bits to a byte, the last group filled up with zero bits. */
  function BytesOf(bits: seq<bool>): seq<Byte> {
    if bits == [] then []
    else if |bits| < 8 then [ByteOf(bits + Zeros(8 - |bits|))]
    else [ByteOf(bits[..8])] + BytesOf(bits[8..])
  }

  // ---------- alphabet ----------

  predicate IsDigit64(c: char) {
    'A' <= c <= 'Z' || 'a' <= c <= 'z' || '0' <= c <= '9' || c == '+' || c == '/'
  }

  function Digit64(v: Sextet): (c: char)
    ensures IsDigit64(c) && Index64(c) == v
  {
    if v < 26 then (v + 65) as char
    else if v < 52 then (v + 71) as char
    else if v < 62 then (v - 4) as char
    else if v == 62 then '+' else '/'
  }

  /** Table 1 of RFC 4648: three rows of consecutive characters, then '+' and '/'. */
  lemma Alphabet()
    ensures Digit64(0) == 'A' && Digit64(25) == 'Z' && Digit64(26) == 'a' && Digit64(51) == 'z'
    ensures Digit64(52) == '0' && Digit64(61) == '9' && Digit64(62) == '+' && Digit64(63) == '/'
    ensures forall v: nat :: v < 25 || 26 <= v < 51 || 52 <= v < 61 ==> Digit64(v + 1) as int == Digit64(v) as int + 1
  {
  }

  function Index64(c: char): Sextet {
    if 'A' <= c <= 'Z' then c as int - 65
    else if 'a' <= c <= 'z' then c as int - 71
    else if '0' <= c <= '9' then c as int + 4
    else if c == '+' then 62 else 63
  }

  function Char(bits: seq<bool>): char
    requires |bits| == 6
  {
    Digit64(SextetOf(bits))
  }

  function Repeat(c: char, n: nat): (s: string)
    ensures |s| == n
  {
    seq(n, _ => c)
  }

  // ---------- section 4 of RFC 4648 ----------

  /** 24-bit groups become four characters; a final 8-bit or 16-bit group is filled with zero bits
      to two or three characters and padded with '='. */
  function Rfc4648(s: seq<Byte>): string {
    if |s| == 0 then ""
    else if |s| == 1 then
      var g := ToBits(s[0], 8) + Zeros(4);
      [Char(g[..6]), Char(g[6..]), '=', '=']
    else if |s| == 2 then
      var g := ToBits(s[0], 8) + ToBits(s[1], 8) + Zeros(2);
      [Char(g[..6]), Char(g[6..12]), Char(g[12..]), '=']
    else
      var g := ToBits(s[0], 8) + ToBits(s[1], 8) + ToBits(s[2], 8);
      [Char(g[..6]), Char(g[6..12]), Char(g[12..18]), Char(g[18..])] + Rfc4648(s[3..])
  }

  // ---------- the code's encoder and decoder ----------

  function PadChars(n: nat): (pad: nat)
    ensures pad < 3 && (n + pad) % 3 == 0
  {
    (3 - n % 3) % 3
  }

  /** `encodeToBase64String`: regroup, then append the padding computed from the length. */
  method EncodeToBase64String(s: seq<Byte>) returns (base64: string)
    ensures base64 == Rfc4648(s)
  {
    var writePadChars := (3 - |s| % 3) % 3;
    base64 := CharsOf(ByteBits(s));
    base64 := base64 + Repeat('=', writePadChars);
    RegroupIsRfc(s);
  }

  function Occurrences(c: char, s: string): (n: nat)
    ensures n <= |s|
  {
    if s == [] then 0 else (if s[0] == c then 1 else 0) + Occurrences(c, s[1..])
  }

  predicate IsSpace(c: char) {
    c == ' ' || '\t' <= c <= '\r'
  }

  function RemoveWhitespace(s: string): string {
    if s == [] then []
    else if IsSpace(s[0]) then RemoveWhitespace(s[1..])
    else [s[0]] + RemoveWhitespace(s[1..])
  }

  /** The last two characters with '=' overwritten by 'A', the digit for zero. */
  function OverwritePadding(s: string): (t: string)
    requires |s| >= 2
    ensures |t| == |s|
  {
    var t := if s[|s| - 1] == '=' then s[|s| - 1 := 'A'] else s;
    if t[|t| - 2] == '=' then t[|t| - 2 := 'A'] else t
  }

  /** What `decodeFromBase64` returns; `None` where it throws (a character outside the alphabet) or has
      no defined result (fewer than two characters, or more '=' signs than decoded bytes). */
  function Decode(s: string): Option<seq<Byte>> {
    if |s| < 2 then None else
    var work := RemoveWhitespace(OverwritePadding(s));
    if exists c <- work :: !IsDigit64(c) then None else
    var result := BytesOf(CharBits(work));
    var padChars := Occurrences('=', s);
    if padChars > |result| then None else Some(result[..|result| - padChars])
  }

  /** A character that is no digit, white space or padding is not decoded. */
  lemma DecodeRefuses(s: string)
    ensures (exists c <- s :: !IsDigit64(c) && !IsSpace(c) && c != '=') ==> Decode(s) == None
  {
    hide BytesOf, CharBits;
    if |s| >= 2 {
      forall c | c in s && !IsDigit64(c) && !IsSpace(c) && c != '='
        ensures c in RemoveWhitespace(OverwritePadding(s))
      {
        var i :| 0 <= i < |s| && s[i] == c;
        assert OverwritePadding(s)[i] == c;
        NotWhitespaceStays(OverwritePadding(s), c);
      }
    }
  }

  lemma {:induction false} NotWhitespaceStays(s: string, c: char)
    requires c in s && !IsSpace(c)
    ensures c in RemoveWhitespace(s)
  {
    if s[0] != c { NotWhitespaceStays(s[1..], c); }
  }

  /** `decodeFromBase64`: overwrites the padding in a copy, decodes, erases the padding bytes. */
  method DecodeFromBase64(s: string) returns (r: Option<seq<Byte>>)
    ensures r == Decode(s)
    ensures forall b: seq<Byte> :: b != [] && s == Rfc4648(b) ==> r == Some(b)
    ensures (exists c <- s :: !IsDigit64(c) && !IsSpace(c) && c != '=') ==> r == None
  {
    hide BytesOf, CharBits, Rfc4648, ToBits;
    DecodeRefuses(s);
    forall b: seq<Byte> | b != [] && s == Rfc4648(b)
      ensures Decode(s) == Some(b)
    {
      DecodeEncode(b);
    }
    if |s| < 2 { return None; }
    var padChars := Occurrences('=', s);
    var work := s;
    if work[|work| - 1] == '=' { work := work[|work| - 1 := 'A']; }
    if work[|work| - 2] == '=' { work := work[|work| - 2 := 'A']; }
    work := RemoveWhitespace(work);
    if exists c <- work :: !IsDigit64(c) { return None; }
    var result := BytesOf(CharBits(work));
    if padChars > |result| { return None; }
    result := result[..|result| - padChars];
    return Some(result);
  }

  // ---------- the code agrees with the RFC ----------

  /** Regrouping takes six bits at a time, wherever the input is cut at a multiple of six. */
  lemma CharsOfStep(head: seq<bool>, rest: seq<bool>)
    requires |head| == 6
    ensures CharsOf(head + rest) == [Char(head)] + CharsOf(rest)
  {
    assert (head + rest)[..6] == head && (head + rest)[6..] == rest;
  }

  lemma CharsOfLast(tail: seq<bool>)
    requires 0 < |tail| < 6
    ensures CharsOf(tail) == [Char(tail + Zeros(6 - |tail|))]
  {
  }

  lemma CharsOfOne(a: Byte)
    ensures CharsOf(ByteBits([a])) + "==" == Rfc4648([a])
  {
    var g := ToBits(a, 8);
    var z := g + Zeros(4);
    assert ByteBits([a]) == g[..6] + g[6..];
    CharsOfStep(g[..6], g[6..]);
    CharsOfLast(g[6..]);
    assert z[..6] == g[..6] && z[6..] == g[6..] + Zeros(4);
  }

  lemma CharsOfTwo(a: Byte, b: Byte)
    ensures CharsOf(ByteBits([a, b])) + "=" == Rfc4648([a, b])
  {
    var g := ToBits(a, 8) + ToBits(b, 8);
    var z := g + Zeros(2);
    assert ByteBits([a, b]) == g by {
      assert [a, b][1..] == [b];
      assert ByteBits([b]) == ToBits(b, 8);
    }
    assert g == g[..6] + (g[6..12] + g[12..]);
    CharsOfStep(g[..6], g[6..12] + g[12..]);
    CharsOfStep(g[6..12], g[12..]);
    CharsOfLast(g[12..]);
    assert z[..6] == g[..6] && z[6..12] == g[6..12] && z[12..] == g[12..] + Zeros(2);
  }

  lemma CharsOfThree(a: Byte, b: Byte, c: Byte, rest: seq<bool>)
    ensures var g := ToBits(a, 8) + ToBits(b, 8) + ToBits(c, 8);
            CharsOf(g + rest) == [Char(g[..6]), Char(g[6..12]), Char(g[12..18]), Char(g[18..])] + CharsOf(rest)
  {
    hide ToBits, Char;
    var g := ToBits(a, 8) + ToBits(b, 8) + ToBits(c, 8);
    assert g + rest == g[..6] + (g[6..12] + (g[12..18] + (g[18..] + rest)));
    CharsOfStep(g[..6], g[6..12] + (g[12..18] + (g[18..] + rest)));
    CharsOfStep(g[6..12], g[12..18] + (g[18..] + rest));
    CharsOfStep(g[12..18], g[18..] + rest);
    CharsOfStep(g[18..], rest);
  }

  /** Regrouping plus the padding computed from the length is the RFC's encoding. */
  lemma {:induction false} RegroupIsRfc(s: seq<Byte>)
    ensures CharsOf(ByteBits(s)) + Repeat('=', PadChars(|s|)) == Rfc4648(s)
    decreases |s|
  {
    hide ToBits, Char, PadChars;
    if |s| == 0 {
      PadCharsSmall();
    } else if |s| == 1 {
      PadCharsSmall();
      CharsOfOne(s[0]);
      assert s == [s[0]] && Repeat('=', 1) + Repeat('=', 1) == Repeat('=', 2) == "==";
    } else if |s| == 2 {
      PadCharsSmall();
      CharsOfTwo(s[0], s[1]);
      assert s == [s[0], s[1]] && Repeat('=', 1) == "=";
    } else {
      RegroupIsRfc(s[3..]);
      ThreeByteBits(s);
      CharsOfThree(s[0], s[1], s[2], ByteBits(s[3..]));
      PadCharsStep(|s|);
      Reassociate(CharsOf(ByteBits(s))[..4], CharsOf(ByteBits(s[3..])), Repeat('=', PadChars(|s|)));
      assert CharsOf(ByteBits(s)) == CharsOf(ByteBits(s))[..4] + CharsOf(ByteBits(s[3..]));
    }
  }

  lemma Reassociate(a: string, b: string, c: string)
    ensures a + b + c == a + (b + c)
  {
  }

  lemma PadCharsSmall()
    ensures PadChars(0) == 0 && PadChars(1) == 2 && PadChars(2) == 1
  {
  }

  lemma PadCharsStep(n: nat)
    requires n >= 3
    ensures PadChars(n) == PadChars(n - 3)
  {
  }

  lemma ThreeByteBits(s: seq<Byte>)
    requires |s| >= 3
    ensures ByteBits(s) == ToBits(s[0], 8) + ToBits(s[1], 8) + ToBits(s[2], 8) + ByteBits(s[3..])
  {
    assert s[1..][1..] == s[2..] && s[2..][1..] == s[3..];
    assert ByteBits(s[1..]) == ToBits(s[1], 8) + ByteBits(s[2..]);
    assert ByteBits(s[2..]) == ToBits(s[2], 8) + ByteBits(s[3..]);
    Regroup4(ToBits(s[0], 8), ToBits(s[1], 8), ToBits(s[2], 8), ByteBits(s[3..]));
  }

  lemma Regroup4(a: seq<bool>, b: seq<bool>, c: seq<bool>, d: seq<bool>)
    ensures a + (b + (c + d)) == a + b + c + d
  {
    assert a + (b + (c + d)) == (a + b) + (c + d);
  }

  /** The encoded length is four characters for every started group of three bytes. */
  lemma {:induction false} EncodedLength(s: seq<Byte>)
    ensures |Rfc4648(s)| == 4 * ((|s| + 2) / 3)
    decreases |s|
  {
    hide ToBits, Char;
    if |s| >= 3 {
      EncodedLength(s[3..]);
      assert (|s| + 2) / 3 == (|s| - 1) / 3 + 1;
    }
  }

  /** An encoded record is one line: no newline, and no NUL that `c_str()` would stop at. */
  lemma {:induction false} EncodedAlphabet(s: seq<Byte>)
    ensures forall c <- Rfc4648(s) :: IsDigit64(c) || c == '='
    ensures '\n' !in Rfc4648(s) && '\0' !in Rfc4648(s)
    decreases |s|
  {
    if |s| >= 3 { EncodedAlphabet(s[3..]); }
  }

  // ---------- round trip ----------

  lemma {:induction false} ByteBitsConcat(s: seq<Byte>, t: seq<Byte>)
    ensures ByteBits(s + t) == ByteBits(s) + ByteBits(t)
  {
    hide ToBits;
    if s == [] {
      assert s + t == t;
    } else {
      ByteBitsConcat(s[1..], t);
      assert (s + t)[1..] == s[1..] + t;
    }
  }

  lemma {:induction false} CharBitsConcat(s: string, t: string)
    ensures CharBits(s + t) == CharBits(s) + CharBits(t)
  {
    if s == [] {
      assert s + t == t;
    } else {
      assert (s + t)[1..] == s[1..] + t;
      CharBitsConcat(s[1..], t);
    }
  }

  lemma {:induction false} CharBitsOfAs(n: nat)
    ensures CharBits(Repeat('A', n)) == Zeros(6 * n)
  {
    if n != 0 {
      CharBitsOfAs(n - 1);
      assert Repeat('A', n)[1..] == Repeat('A', n - 1);
      ToBitsZero(6);
    }
  }

  function Fill(n: nat): nat {
    (6 - n % 6) % 6
  }

  lemma CharBitsStep(g: seq<bool>, s: string)
    requires |g| == 6
    ensures CharBits([Char(g)] + s) == g + CharBits(s)
  {
    ToBitsFromBits(g);
    assert ([Char(g)] + s)[1..] == s;
  }

  lemma {:induction false} CharBitsOfChars(bits: seq<bool>)
    ensures CharBits(CharsOf(bits)) == bits + Zeros(Fill(|bits|))
    ensures forall c <- CharsOf(bits) :: IsDigit64(c)
    decreases |bits|
  {
    hide ToBits, Char, Fill, IsDigit64, Zeros;
    if bits == [] {
      FillSmall(0);
    } else if |bits| < 6 {
      FillSmall(|bits|);
      DigitIsDigit(bits + Zeros(6 - |bits|));
      CharBitsStep(bits + Zeros(6 - |bits|), "");
    } else {
      DigitIsDigit(bits[..6]);
      CharBitsStep(bits[..6], CharsOf(bits[6..]));
      CharBitsOfChars(bits[6..]);
      FillStep(|bits|);
      assert bits[..6] + (bits[6..] + Zeros(Fill(|bits|))) == bits + Zeros(Fill(|bits|));
    }
  }

  lemma DigitIsDigit(g: seq<bool>)
    requires |g| == 6
    ensures IsDigit64(Char(g))
  {
  }

  lemma FillSmall(n: nat)
    requires n < 6
    ensures Fill(n) == if n == 0 then 0 else 6 - n
  {
  }

  lemma FillStep(n: nat)
    requires n >= 6
    ensures Fill(n) == Fill(n - 6)
  {
  }

  lemma Mod6(m: nat, j: nat)
    requires j < 6
    ensures (6 * m + j) % 6 == j
  {
  }

  lemma FillForPadding(n: nat)
    ensures Fill(8 * n) + 6 * PadChars(n) == 8 * PadChars(n)
  {
    var q, r := n / 3, n % 3;
    assert 8 * n == 6 * (4 * q) + 8 * r;
    if r == 0 {
      Mod6(4 * q, 0);
    } else if r == 1 {
      Mod6(4 * q + 1, 2);
    } else {
      Mod6(4 * q + 2, 4);
    }
  }

  lemma {:induction false} BytesOfByteBits(s: seq<Byte>)
    ensures BytesOf(ByteBits(s)) == s
  {
    if s != [] {
      var bits := ByteBits(s);
      assert bits[..8] == ToBits(s[0], 8) && bits[8..] == ByteBits(s[1..]);
      SmallPowers();
      FromBitsToBits(s[0], 8);
      BytesOfByteBits(s[1..]);
    }
  }

  lemma {:induction false} ByteBitsOfZeros(n: nat)
    ensures ByteBits(seq(n, _ => 0)) == Zeros(8 * n)
  {
    if n != 0 {
      ByteBitsOfZeros(n - 1);
      var z: seq<Byte> := seq(n, _ => 0);
      assert z[1..] == seq(n - 1, _ => 0);
      ToBitsZero(8);
    }
  }

  lemma {:induction false} NoWhitespace(s: string)
    requires forall c <- s :: IsDigit64(c)
    ensures RemoveWhitespace(s) == s
  {
    if s != [] {
      assert IsDigit64(s[0]);
      NoWhitespace(s[1..]);
    }
  }

  lemma {:induction false} PaddingCount(s: string, n: nat)
    requires forall c <- s :: IsDigit64(c)
    ensures Occurrences('=', s + Repeat('=', n)) == n
    decreases |s|, n
  {
    var t := s + Repeat('=', n);
    if s != [] {
      assert IsDigit64(s[0]);
      assert t[1..] == s[1..] + Repeat('=', n);
      PaddingCount(s[1..], n);
    } else if n != 0 {
      assert t[1..] == "" + Repeat('=', n - 1);
      PaddingCount("", n - 1);
    }
  }

  lemma MoreZeros(bits: seq<bool>, m: nat, n: nat)
    ensures bits + Zeros(m) + Zeros(n) == bits + Zeros(m + n)
  {
  }

  /** Decoding the overwritten padding yields the input bits and one zero byte per padding character. */
  lemma DecodedBits(b: seq<Byte>)
    ensures CharBits(CharsOf(ByteBits(b)) + Repeat('A', PadChars(|b|))) == ByteBits(b) + Zeros(8 * PadChars(|b|))
  {
    hide ToBits, CharsOf, CharBits, PadChars, Fill;
    var bits := ByteBits(b);
    CharBitsOfChars(bits);
    CharBitsOfAs(PadChars(|b|));
    FillForPadding(|b|);
    PaddedBits(bits, CharsOf(bits), Repeat('A', PadChars(|b|)), Fill(|bits|), 6 * PadChars(|b|));
  }

  lemma PaddedBits(bits: seq<bool>, s: string, t: string, m: nat, n: nat)
    requires CharBits(s) == bits + Zeros(m) && CharBits(t) == Zeros(n)
    ensures CharBits(s + t) == bits + Zeros(m + n)
  {
    hide CharBits;
    CharBitsConcat(s, t);
    MoreZeros(bits, m, n);
  }

  lemma PaddingOverwritten(digits: string, pad: nat)
    requires |digits| >= 2 && pad <= 2
    requires forall c <- digits :: IsDigit64(c)
    ensures OverwritePadding(digits + Repeat('=', pad)) == digits + Repeat('A', pad)
  {
    var s := digits + Repeat('=', pad);
    assert IsDigit64(digits[|digits| - 1]) && IsDigit64(digits[|digits| - 2]);
  }

  /** The code's decoder inverts the code's encoder on every non-empty byte string. */
  lemma DecodeEncode(b: seq<Byte>)
    requires b != []
    ensures Decode(Rfc4648(b)) == Some(b)
  {
    var pad := PadChars(|b|);
    var digits := CharsOf(ByteBits(b));
    var s := digits + Repeat('=', pad);
    RegroupIsRfc(b);
    EncodedLength(b);
    CharBitsOfChars(ByteBits(b));
    PaddingOverwritten(digits, pad);
    var work := digits + Repeat('A', pad);
    NoWhitespace(work);
    DecodedBits(b);
    var zeros: seq<Byte> := seq(pad, _ => 0);
    ByteBitsOfZeros(pad);
    ByteBitsConcat(b, zeros);
    BytesOfByteBits(b + zeros);
    PaddingCount(digits, pad);
    assert (b + zeros)[..|b|] == b;
  }
}
