/** The URL-safe base64 alphabet of section 5 of RFC 4648, written without the
    trailing `=` padding, as the short links of recipes use it. */
module Base64Url {
  import opened Wrappers

  type byte = b: int | 0 <= b < 256
  type sextet = i: int | 0 <= i < 64

  /** The 64 characters of the URL-safe alphabet: letters, digits, `-` and `_`. */
  predicate IsUrlSafe(c: char) {
    ('A' <= c <= 'Z') || ('a' <= c <= 'z') || ('0' <= c <= '9') || c == '-' || c == '_'
  }

  predicate AllUrlSafe(s: string) {
    forall i :: 0 <= i < |s| ==> IsUrlSafe(s[i])
  }

  function SextetChar(i: sextet): (c: char)
    ensures IsUrlSafe(c)
  {
    if i < 26 then ('A' as int + i) as char
    else if i < 52 then ('a' as int + (i - 26)) as char
    else if i < 62 then ('0' as int + (i - 52)) as char
    else if i == 62 then '-'
    else '_'
  }

  function CharSextet(c: char): (i: sextet)
    requires IsUrlSafe(c)
    ensures SextetChar(i) == c
  {
    if 'A' <= c <= 'Z' then c as int - 'A' as int
    else if 'a' <= c <= 'z' then c as int - 'a' as int + 26
    else if '0' <= c <= '9' then c as int - '0' as int + 52
    else if c == '-' then 62
    else 63
  }

  lemma SextetCharInjective(i: sextet)
    ensures CharSextet(SextetChar(i)) == i
  {
  }

  // The sextets of a group of three bytes: the 24 bits cut into four 6-bit pieces.
  function S0(b0: byte): sextet { b0 / 4 }
  function S1(b0: byte, b1: byte): sextet { (b0 % 4) * 16 + b1 / 16 }
  function S2(b1: byte, b2: byte): sextet { (b1 % 16) * 4 + b2 / 64 }
  function S3(b2: byte): sextet { b2 % 64 }

  // The bytes of a group of four sextets: the 24 bits cut into three 8-bit pieces.
  function B0(c0: sextet, c1: sextet): byte { c0 * 4 + c1 / 16 }
  function B1(c1: sextet, c2: sextet): byte { (c1 % 16) * 16 + c2 / 4 }
  function B2(c2: sextet, c3: sextet): byte { (c2 % 4) * 64 + c3 }

  /** The bytes cut into sextets, three bytes to four sextets; a final one or two bytes give
      two or three sextets whose unused low bits are zero. */
  function ToSextets(bs: seq<byte>): (xs: seq<sextet>)
    ensures |xs| % 4 != 1
    decreases |bs|
  {
    if |bs| == 0 then []
    else if |bs| == 1 then [S0(bs[0]), S1(bs[0], 0)]
    else if |bs| == 2 then [S0(bs[0]), S1(bs[0], bs[1]), S2(bs[1], 0)]
    else [S0(bs[0]), S1(bs[0], bs[1]), S2(bs[1], bs[2]), S3(bs[2])] + ToSextets(bs[3..])
  }

  /** The sextets regrouped into bytes, four sextets to three bytes; a final two or three
      sextets give one or two bytes, their unused low bits ignored as a non-strict decoder does. */
  function FromSextets(xs: seq<sextet>): (bs: seq<byte>)
    requires |xs| % 4 != 1
    decreases |xs|
  {
    if |xs| == 0 then []
    else if |xs| == 2 then [B0(xs[0], xs[1])]
    else if |xs| == 3 then [B0(xs[0], xs[1]), B1(xs[1], xs[2])]
    else [B0(xs[0], xs[1]), B1(xs[1], xs[2]), B2(xs[2], xs[3])] + FromSextets(xs[4..])
  }

  /** Each sextet written as its character. */
  function Chars(xs: seq<sextet>): (s: string)
    ensures |s| == |xs| && forall i :: 0 <= i < |xs| ==> s[i] == SextetChar(xs[i])
    ensures AllUrlSafe(s)
  {
    seq(|xs|, i requires 0 <= i < |xs| => SextetChar(xs[i]))
  }

  /** Each character of the alphabet read as its sextet. */
  function Sextets(s: string): (xs: seq<sextet>)
    requires AllUrlSafe(s)
    ensures |xs| == |s| && forall i :: 0 <= i < |s| ==> xs[i] == CharSextet(s[i])
  {
    seq(|s|, i requires 0 <= i < |s| => CharSextet(s[i]))
  }

  /** Encoding without padding: every 3 bytes give 4 characters, a final 1 or 2 bytes give 2 or 3. */
  function Encode(bs: seq<byte>): (s: string)
    ensures AllUrlSafe(s) && |s| % 4 != 1
  {
    Chars(ToSextets(bs))
  }

  /** The bytes of a string over the alphabet whose length is not 1 modulo 4. */
  function DecodeChars(s: string): (bs: seq<byte>)
    requires AllUrlSafe(s) && |s| % 4 != 1
  {
    FromSextets(Sextets(s))
  }

  /** Decoding: `None` when a character is outside the alphabet or one character is left over. */
  function Decode(s: string): (r: Option<seq<byte>>)
    ensures r.Some? <==> AllUrlSafe(s) && |s| % 4 != 1
  {
    if AllUrlSafe(s) && |s| % 4 != 1 then Some(DecodeChars(s)) else None
  }

  /** The unused low bits of a final group of two or three sextets are zero. */
  predicate CanonicalSextets(xs: seq<sextet>) {
    (|xs| % 4 == 2 ==> xs[|xs| - 1] % 16 == 0) &&
    (|xs| % 4 == 3 ==> xs[|xs| - 1] % 4 == 0)
  }

  /** A string is the canonical encoding of its bytes when the unused low bits of its last group are zero. */
  predicate IsCanonical(s: string)
    requires AllUrlSafe(s)
  {
    CanonicalSextets(Sextets(s))
  }

  /** A value split into high and low parts at a constant radix is recovered by `/` and `%`. */
  lemma Split4(hi: int, lo: int)
    requires 0 <= lo < 4
    ensures (hi * 4 + lo) / 4 == hi && (hi * 4 + lo) % 4 == lo
  {
  }

  lemma Split16(hi: int, lo: int)
    requires 0 <= lo < 16
    ensures (hi * 16 + lo) / 16 == hi && (hi * 16 + lo) % 16 == lo
  {
  }

  lemma Split64(hi: int, lo: int)
    requires 0 <= lo < 64
    ensures (hi * 64 + lo) / 64 == hi && (hi * 64 + lo) % 64 == lo
  {
  }

  /** Three bytes regrouped into four sextets and back. */
  lemma BytesToSextetsAndBack(b0: byte, b1: byte, b2: byte)
    ensures B0(S0(b0), S1(b0, b1)) == b0
    ensures B1(S1(b0, b1), S2(b1, b2)) == b1
    ensures B2(S2(b1, b2), S3(b2)) == b2
  {
    Split16(b0 % 4, b1 / 16);
    Split4(b1 % 16, b2 / 64);
  }

  /** Four sextets regrouped into three bytes and back. */
  lemma SextetsToBytesAndBack(c0: sextet, c1: sextet, c2: sextet, c3: sextet)
    ensures S0(B0(c0, c1)) == c0
    ensures S1(B0(c0, c1), B1(c1, c2)) == c1
    ensures S2(B1(c1, c2), B2(c2, c3)) == c2
    ensures S3(B2(c2, c3)) == c3
  {
    Split4(c0, c1 / 16);
    Split16(c1 % 16, c2 / 4);
    Split64(c2 % 4, c3);
  }

  /** Reading the characters of sextets gives the sextets back. */
  lemma SextetsOfChars(xs: seq<sextet>)
    ensures Sextets(Chars(xs)) == xs
  {
    forall i | 0 <= i < |xs| ensures Sextets(Chars(xs))[i] == xs[i] {
      SextetCharInjective(xs[i]);
    }
  }

  /** Writing the sextets of a string over the alphabet gives the string back. */
  lemma CharsOfSextets(s: string)
    requires AllUrlSafe(s)
    ensures Chars(Sextets(s)) == s
  {
  }

  /** Regrouping proceeds group by group, in both directions. */
  lemma ToSextetsCons(bs: seq<byte>)
    requires |bs| >= 3
    ensures ToSextets(bs) == Group(bs[0], bs[1], bs[2]) + ToSextets(bs[3..])
  {
  }

  lemma FromSextetsCons(g: seq<sextet>, rest: seq<sextet>)
    requires |g| == 4 && |rest| % 4 != 1
    ensures |g + rest| % 4 != 1
    ensures FromSextets(g + rest) == FromSextets(g) + FromSextets(rest)
  {
    assert (g + rest)[4..] == rest;
    assert g[4..] == [];
  }

  /** The four sextets of three bytes. */
  function Group(b0: byte, b1: byte, b2: byte): (g: seq<sextet>)
    ensures |g| == 4
  {
    [S0(b0), S1(b0, b1), S2(b1, b2), S3(b2)]
  }

  /** Each group, and each final short group, reads back as its bytes. */
  lemma GroupBack(b0: byte, b1: byte, b2: byte)
    ensures FromSextets(Group(b0, b1, b2)) == [b0, b1, b2]
  {
    BytesToSextetsAndBack(b0, b1, b2);
  }

  lemma OneBack(b0: byte)
    ensures FromSextets(ToSextets([b0])) == [b0]
  {
    var xs := ToSextets([b0]);
    assert xs == [S0(b0), S1(b0, 0)];
    assert FromSextets(xs) == [B0(S0(b0), S1(b0, 0))];
    BytesToSextetsAndBack(b0, 0, 0);
  }

  lemma TwoBack(b0: byte, b1: byte)
    ensures FromSextets(ToSextets([b0, b1])) == [b0, b1]
  {
    var xs := ToSextets([b0, b1]);
    assert xs == [S0(b0), S1(b0, b1), S2(b1, 0)];
    assert FromSextets(xs) == [B0(S0(b0), S1(b0, b1)), B1(S1(b0, b1), S2(b1, 0))];
    BytesToSextetsAndBack(b0, b1, 0);
  }

  lemma ShortGroupBack(bs: seq<byte>)
    requires 1 <= |bs| <= 2
    ensures FromSextets(ToSextets(bs)) == bs
  {
    if |bs| == 1 {
      assert bs == [bs[0]];
      OneBack(bs[0]);
    } else {
      assert bs == [bs[0], bs[1]];
      TwoBack(bs[0], bs[1]);
    }
  }

  /** Regrouping bytes into sextets and back gives the bytes. */
  lemma {:induction false} FromToSextets(bs: seq<byte>)
    ensures FromSextets(ToSextets(bs)) == bs
    decreases |bs|
  {
    if 1 <= |bs| <= 2 {
      ShortGroupBack(bs);
    } else if |bs| >= 3 {
      ToSextetsCons(bs);
      FromSextetsCons(Group(bs[0], bs[1], bs[2]), ToSextets(bs[3..]));
      GroupBack(bs[0], bs[1], bs[2]);
      FromToSextets(bs[3..]);
      assert bs == [bs[0], bs[1], bs[2]] + bs[3..];
    }
  }

  /** Four sextets, and a final canonical two or three, regrouped give themselves back. */
  lemma QuadBack(c0: sextet, c1: sextet, c2: sextet, c3: sextet)
    ensures ToSextets(FromSextets([c0, c1, c2, c3])) == [c0, c1, c2, c3]
  {
    var xs := [c0, c1, c2, c3];
    assert xs[4..] == [];
    var b0, b1, b2 := B0(c0, c1), B1(c1, c2), B2(c2, c3);
    assert FromSextets(xs) == [b0, b1, b2] + FromSextets(xs[4..]);
    assert FromSextets(xs) == [b0, b1, b2];
    assert [b0, b1, b2][3..] == [];
    assert ToSextets([b0, b1, b2]) == [S0(b0), S1(b0, b1), S2(b1, b2), S3(b2)] + ToSextets([]);
    SextetsToBytesAndBack(c0, c1, c2, c3);
  }

  lemma PairBack(c0: sextet, c1: sextet)
    requires c1 % 16 == 0
    ensures ToSextets(FromSextets([c0, c1])) == [c0, c1]
  {
    var b0 := B0(c0, c1);
    assert FromSextets([c0, c1]) == [b0];
    assert ToSextets([b0]) == [S0(b0), S1(b0, 0)];
    SextetsToBytesAndBack(c0, c1, 0, 0);
  }

  lemma TripleBack(c0: sextet, c1: sextet, c2: sextet)
    requires c2 % 4 == 0
    ensures ToSextets(FromSextets([c0, c1, c2])) == [c0, c1, c2]
  {
    var b0, b1 := B0(c0, c1), B1(c1, c2);
    assert FromSextets([c0, c1, c2]) == [b0, b1];
    assert ToSextets([b0, b1]) == [S0(b0), S1(b0, b1), S2(b1, 0)];
    SextetsToBytesAndBack(c0, c1, c2, 0);
  }

  lemma ShortQuadBack(xs: seq<sextet>)
    requires 2 <= |xs| <= 3 && CanonicalSextets(xs)
    ensures ToSextets(FromSextets(xs)) == xs
  {
    if |xs| == 2 {
      var c0, c1 := xs[0], xs[1];
      assert c1 % 16 == 0;
      assert xs == [c0, c1];
      PairBack(c0, c1);
    } else {
      var c0, c1, c2 := xs[0], xs[1], xs[2];
      assert c2 % 4 == 0;
      assert xs == [c0, c1, c2];
      TripleBack(c0, c1, c2);
    }
  }

  lemma FromSextetsLength(xs: seq<sextet>)
    requires |xs| % 4 != 1
    ensures |FromSextets(xs)| >= 3 <==> |xs| >= 4
  {
  }

  /** Regrouping canonical sextets into bytes and back gives the sextets. */
  lemma {:induction false} ToFromSextets(xs: seq<sextet>)
    requires |xs| % 4 != 1 && CanonicalSextets(xs)
    ensures ToSextets(FromSextets(xs)) == xs
    decreases |xs|
  {
    if 2 <= |xs| <= 3 {
      ShortQuadBack(xs);
    } else if |xs| >= 4 {
      var g, rest := xs[..4], xs[4..];
      assert xs == g + rest;
      assert |rest| % 4 == |xs| % 4;
      assert CanonicalSextets(rest) by {
        if |rest| > 0 {
          assert rest[|rest| - 1] == xs[|xs| - 1];
        }
      }
      FromSextetsCons(g, rest);
      var bg, br := FromSextets(g), FromSextets(rest);
      assert g == [g[0], g[1], g[2], g[3]];
      QuadBack(g[0], g[1], g[2], g[3]);
      assert |bg| == 3;
      ToSextetsCons(bg + br);
      assert (bg + br)[3..] == br;
      assert Group(bg[0], bg[1], bg[2]) == ToSextets(bg);
      ToFromSextets(rest);
    }
  }

  /** Decoding undoes encoding: the short code of a recipe decodes to the bytes it was made from. */
  lemma DecodeEncode(bs: seq<byte>)
    ensures Decode(Encode(bs)) == Some(bs)
  {
    SextetsOfChars(ToSextets(bs));
    FromToSextets(bs);
  }

  /** Encoding undoes decoding on canonical strings, so the two are inverse bijections
      between byte strings and canonical codes. */
  lemma EncodeDecode(s: string)
    requires AllUrlSafe(s) && IsCanonical(s)
    requires Decode(s).Some?
    ensures Encode(Decode(s).value) == s
  {
    ToFromSextets(Sextets(s));
    CharsOfSextets(s);
  }
}
