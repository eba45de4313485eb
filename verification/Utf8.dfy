/** UTF-8 as in section 3 of RFC 3629, decoded the way the host decodes: damaged sequences become U+FFFD. */
module Utf8 {
  predicate IsScalar(c: int) {
    0 <= c < 0xD800 || 0xE000 <= c <= 0x10FFFF
  }

  /** A Unicode scalar value. */
  type CodePoint = c: nat | IsScalar(c)

  type Byte = b: int | 0 <= b < 256

  type Text = seq<CodePoint>

  const REPLACEMENT: CodePoint := 0xFFFD

  // ---------- Encoding ----------

  function Size(c: CodePoint): nat {
    if c < 0x80 then 1 else if c < 0x800 then 2 else if c < 0x10000 then 3 else 4
  }

  /** Six bits of `n` behind the mark of a continuation byte. */
  function Continuation(n: nat): Byte {
    0x80 + n % 64
  }

  function LeadByte(c: CodePoint): Byte {
    if c < 0x80 then c
    else if c < 0x800 then 0xC0 + c / 64
    else if c < 0x10000 then 0xE0 + c / 4096
    else
      assert IsScalar(c);
      0xF0 + c / 262144
  }

  function EncodeOne(c: CodePoint): (r: seq<Byte>)
    ensures |r| == Size(c)
  {
    [LeadByte(c)] +
    if c < 0x80 then []
    else if c < 0x800 then [Continuation(c)]
    else if c < 0x10000 then [Continuation(c / 64), Continuation(c)]
    else [Continuation(c / 4096), Continuation(c / 64), Continuation(c)]
  }

  function Encode(t: Text): seq<Byte> {
    if t == [] then [] else EncodeOne(t[0]) + Encode(t[1..])
  }

  function ByteLength(t: Text): nat {
    |Encode(t)|
  }

  // ---------- Decoding ----------

  /** The number of continuation bytes after a lead byte; bytes that cannot lead a sequence have none and are damaged. */
  function Needed(lead: Byte): nat {
    if 0xC2 <= lead <= 0xDF then 1 else if 0xE0 <= lead <= 0xEF then 2 else if 0xF0 <= lead <= 0xF4 then 3 else 0
  }

  predicate IsLead(b: Byte) {
    b < 0x80 || 0xC2 <= b <= 0xF4
  }

  /** Whether `b` may stand at place `i` behind `lead`: no overlong form, no surrogate, nothing beyond U+10FFFF. */
  predicate MayFollow(lead: Byte, i: nat, b: Byte) {
    && 0x80 <= b <= 0xBF
    && (i == 1 ==>
          && (lead == 0xE0 ==> b >= 0xA0) && (lead == 0xED ==> b <= 0x9F)
          && (lead == 0xF0 ==> b >= 0x90) && (lead == 0xF4 ==> b <= 0x8F))
  }

  /** How many continuation bytes are there and fit, from place `i` on. */
  function Following(bytes: seq<Byte>, i: nat): (n: nat)
    requires bytes != [] && 1 <= i <= Needed(bytes[0]) + 1
    ensures i + n <= Needed(bytes[0]) + 1 && (n > 0 ==> i + n <= |bytes|)
    ensures forall j :: i <= j < i + n ==> MayFollow(bytes[0], j, bytes[j])
    decreases |bytes| - i
  {
    if i <= Needed(bytes[0]) && i < |bytes| && MayFollow(bytes[0], i, bytes[i]) then 1 + Following(bytes, i + 1) else 0
  }

  function Bits(b: Byte): nat {
    b % 64
  }

  function Value(bytes: seq<Byte>): int
    requires bytes != [] && |bytes| == Needed(bytes[0]) + 1
  {
    if |bytes| == 1 then bytes[0]
    else if |bytes| == 2 then (bytes[0] - 0xC0) * 64 + Bits(bytes[1])
    else if |bytes| == 3 then (bytes[0] - 0xE0) * 4096 + Bits(bytes[1]) * 64 + Bits(bytes[2])
    else (bytes[0] - 0xF0) * 262144 + Bits(bytes[1]) * 4096 + Bits(bytes[2]) * 64 + Bits(bytes[3])
  }

  /** The rules for the first continuation byte are what keeps surrogates and larger numbers out. */
  lemma ValueIsScalar(bytes: seq<Byte>)
    requires bytes != [] && IsLead(bytes[0]) && |bytes| == Needed(bytes[0]) + 1
    requires forall j :: 1 <= j < |bytes| ==> MayFollow(bytes[0], j, bytes[j])
    ensures IsScalar(Value(bytes))
  {
    if |bytes| > 1 {
      assert MayFollow(bytes[0], 1, bytes[1]);
    }
  }

  /** One code point and the number of bytes it took. */
  function DecodeOne(bytes: seq<Byte>): (r: (CodePoint, nat))
    requires bytes != []
    ensures 1 <= r.1 <= |bytes|
  {
    var need := Needed(bytes[0]);
    var n := Following(bytes, 1);
    if IsLead(bytes[0]) && n == need then
      ValueIsScalar(bytes[..need + 1]);
      (Value(bytes[..need + 1]), need + 1)
    else (REPLACEMENT, n + 1)
  }

  function Decode(bytes: seq<Byte>): Text {
    if bytes == [] then [] else [DecodeOne(bytes).0] + Decode(bytes[DecodeOne(bytes).1..])
  }

  // ---------- The round trip ----------

  lemma SixBits(n: nat)
    ensures n == n / 64 * 64 + n % 64 && Bits(Continuation(n)) == n % 64 && 0x80 <= Continuation(n) <= 0xBF
    ensures n / 64 / 64 == n / 4096 && n / 4096 / 64 == n / 262144
  {
  }

  lemma TwoBytesFit(c: CodePoint)
    requires Size(c) == 2
    ensures 0xC2 <= LeadByte(c) <= 0xDF
  {
    SixBits(c);
  }

  lemma ThreeBytesFit(c: CodePoint)
    requires Size(c) == 3
    ensures 0xE0 <= LeadByte(c) <= 0xEF
    ensures LeadByte(c) == 0xE0 ==> Continuation(c / 64) >= 0xA0
    ensures LeadByte(c) == 0xED ==> Continuation(c / 64) <= 0x9F
  {
    SixBits(c);
    SixBits(c / 64);
    assert IsScalar(c);
    assert c / 64 == c / 4096 * 64 + c / 64 % 64;
    assert LeadByte(c) == 0xE0 + c / 4096;
  }

  lemma FourBytesFit(c: CodePoint)
    requires Size(c) == 4
    ensures 0xF0 <= LeadByte(c) <= 0xF4
    ensures LeadByte(c) == 0xF0 ==> Continuation(c / 4096) >= 0x90
    ensures LeadByte(c) == 0xF4 ==> Continuation(c / 4096) <= 0x8F
  {
    SixBits(c);
    SixBits(c / 64);
    SixBits(c / 4096);
    assert IsScalar(c);
    assert c / 4096 == c / 262144 * 64 + c / 4096 % 64;
    assert LeadByte(c) == 0xF0 + c / 262144;
  }

  /** The lead byte announces the size of the code point, and its continuation bytes are allowed behind it. */
  lemma EncodedFits(c: CodePoint)
    ensures var r := EncodeOne(c);
            IsLead(r[0]) && Needed(r[0]) == Size(c) - 1 && forall j :: 1 <= j < |r| ==> MayFollow(r[0], j, r[j])
  {
    var r := EncodeOne(c);
    assert r[0] == LeadByte(c);
    if Size(c) == 2 {
      TwoBytesFit(c);
      assert r[1] == Continuation(c);
    } else if Size(c) == 3 {
      ThreeBytesFit(c);
      assert r[1] == Continuation(c / 64) && r[2] == Continuation(c);
    } else if Size(c) == 4 {
      FourBytesFit(c);
      assert r[1] == Continuation(c / 4096) && r[2] == Continuation(c / 64) && r[3] == Continuation(c);
    }
  }

  lemma EncodedValue(c: CodePoint)
    requires Needed(EncodeOne(c)[0]) == Size(c) - 1
    ensures Value(EncodeOne(c)) == c
  {
    SixBits(c);
    SixBits(c / 64);
    SixBits(c / 4096);
  }

  lemma {:induction false} FollowsPrefix(bytes: seq<Byte>, r: seq<Byte>, k: nat, i: nat)
    requires 1 <= i <= k <= |r| && r[..k] <= bytes && Needed(r[0]) == |r| - 1
    requires forall j :: 1 <= j < |r| ==> MayFollow(r[0], j, r[j])
    requires k == |r| || k == |bytes|
    ensures Following(bytes, i) == k - i
    decreases k - i
  {
    assert bytes[0] == r[..k][0];
    if i < k {
      assert bytes[i] == r[..k][i];
      FollowsPrefix(bytes, r, k, i + 1);
    }
  }

  lemma DecodeEncodedOne(c: CodePoint, rest: seq<Byte>)
    ensures Decode(EncodeOne(c) + rest) == [c] + Decode(rest)
  {
    var r := EncodeOne(c);
    var bytes := r + rest;
    EncodedFits(c);
    EncodedValue(c);
    assert r[..|r|] <= bytes;
    FollowsPrefix(bytes, r, |r|, 1);
    assert bytes[..|r|] == r && bytes[|r|..] == rest;
  }

  /** Decoding gives back what was encoded. */
  lemma {:induction false} DecodeEncode(t: Text)
    ensures Decode(Encode(t)) == t
    decreases |t|
  {
    if t != [] {
      DecodeEncodedOne(t[0], Encode(t[1..]));
      DecodeEncode(t[1..]);
    }
  }

  // ---------- Cutting an encoding short ----------

  /** The number of code points that fit whole into `n` bytes. */
  function WholePoints(t: Text, n: nat): (m: nat)
    ensures m <= |t|
  {
    if t == [] || Size(t[0]) > n then 0 else 1 + WholePoints(t[1..], n - Size(t[0]))
  }

  /** A code point cut short decodes to one U+FFFD. */
  lemma DecodeCutOne(c: CodePoint, k: nat)
    requires 0 < k < Size(c)
    ensures Decode(EncodeOne(c)[..k]) == [REPLACEMENT]
  {
    var r := EncodeOne(c);
    var bytes := r[..k];
    EncodedFits(c);
    FollowsPrefix(bytes, r, k, 1);
    assert bytes[k..] == [];
  }

  lemma PrefixLength(t: Text, m: nat)
    requires m < |t|
    ensures t[..m + 1] == [t[0]] + t[1..][..m] && ByteLength(t[..m + 1]) == Size(t[0]) + ByteLength(t[1..][..m])
  {
    assert t[..m + 1][1..] == t[1..][..m];
  }

  /** The number of whole code points in `n` bytes is as large as it can be. */
  lemma {:induction false} WholePointsFit(t: Text, n: nat)
    requires n <= ByteLength(t)
    ensures var m := WholePoints(t, n);
            ByteLength(t[..m]) <= n && (m < |t| ==> n < ByteLength(t[..m]) + Size(t[m])) && (m == |t| ==> n == ByteLength(t))
    decreases |t|
  {
    if t != [] && Size(t[0]) <= n {
      var m := WholePoints(t[1..], n - Size(t[0]));
      WholePointsFit(t[1..], n - Size(t[0]));
      PrefixLength(t, m);
    }
  }

  lemma CutInFirst(t: Text, n: nat)
    requires t != [] && n < Size(t[0])
    ensures n <= ByteLength(t) && Decode(Encode(t)[..n]) == if n == 0 then [] else [REPLACEMENT]
  {
    assert Encode(t)[..n] == EncodeOne(t[0])[..n];
    if n > 0 { DecodeCutOne(t[0], n); }
  }

  lemma CutBehindFirst(t: Text, n: nat)
    requires t != [] && Size(t[0]) <= n <= ByteLength(t)
    ensures n - Size(t[0]) <= ByteLength(t[1..])
    ensures Decode(Encode(t)[..n]) == [t[0]] + Decode(Encode(t[1..])[..n - Size(t[0])])
  {
    var rest := Encode(t[1..])[..n - Size(t[0])];
    assert Encode(t)[..n] == EncodeOne(t[0]) + rest;
    DecodeEncodedOne(t[0], rest);
  }

  /** The whole code points survive a cut; a code point it goes through becomes one U+FFFD. */
  lemma {:induction false} DecodeCut(t: Text, n: nat)
    requires n <= ByteLength(t)
    ensures var m := WholePoints(t, n);
            Decode(Encode(t)[..n]) == t[..m] + if n == ByteLength(t[..m]) then [] else [REPLACEMENT]
    decreases |t|
  {
    if t == [] {
    } else if Size(t[0]) > n {
      CutInFirst(t, n);
    } else {
      var k := Size(t[0]);
      var m := WholePoints(t[1..], n - k);
      CutBehindFirst(t, n);
      DecodeCut(t[1..], n - k);
      PrefixLength(t, m);
      var mark := if n == ByteLength(t[..m + 1]) then [] else [REPLACEMENT];
      assert [t[0]] + (t[1..][..m] + mark) == t[..m + 1] + mark;
    }
  }

  lemma {:induction false} ByteLengthAdds(t: Text, u: Text)
    ensures ByteLength(t + u) == ByteLength(t) + ByteLength(u)
    decreases |t|
  {
    if t == [] {
      assert t + u == u;
    } else {
      assert (t + u)[1..] == t[1..] + u;
      ByteLengthAdds(t[1..], u);
    }
  }

  // ---------- Truncation ----------

  /** `Buffer.from(text).subarray(0, n).toString()`. */
  function Truncate(t: Text, n: nat): Text
    requires n <= ByteLength(t)
  {
    Decode(Encode(t)[..n])
  }

  /** Bytes of the code point the cut goes through that lie before the cut. */
  function CutBytes(t: Text, n: nat): nat {
    if t == [] || Size(t[0]) > n then n else CutBytes(t[1..], n - Size(t[0]))
  }

  lemma {:induction false} CutBytesAreRest(t: Text, n: nat)
    requires n <= ByteLength(t)
    ensures CutBytes(t, n) == n - ByteLength(t[..WholePoints(t, n)])
    decreases |t|
  {
    if t != [] && Size(t[0]) <= n {
      CutBytesAreRest(t[1..], n - Size(t[0]));
      PrefixLength(t, WholePoints(t[1..], n - Size(t[0])));
    }
  }

  /** A truncated text can take up to two bytes more than it was cut to, as U+FFFD takes three. */
  lemma TruncatedLength(t: Text, n: nat)
    requires n < ByteLength(t)
    ensures CutBytes(t, n) <= 3
    ensures ByteLength(Truncate(t, n)) == n + if CutBytes(t, n) == 0 then 0 else 3 - CutBytes(t, n)
  {
    DecodeCut(t, n);
    WholePointsFit(t, n);
    CutBytesAreRest(t, n);
    var m := WholePoints(t, n);
    ByteLengthAdds(t[..m], [REPLACEMENT]);
    assert t[..m] + [] == t[..m];
    assert Encode([REPLACEMENT]) == EncodeOne(REPLACEMENT) + Encode([]);
  }

  predicate IsAscii(t: Text) {
    forall i :: 0 <= i < |t| ==> t[i] < 0x80
  }

  lemma {:induction false} AsciiLength(t: Text)
    requires IsAscii(t)
    ensures ByteLength(t) == |t|
    decreases |t|
  {
    if t != [] { AsciiLength(t[1..]); }
  }

  /** ASCII text is never cut inside a character. */
  lemma AsciiCut(t: Text, n: nat)
    requires IsAscii(t) && n < ByteLength(t)
    ensures CutBytes(t, n) == 0
  {
    WholePointsFit(t, n);
    CutBytesAreRest(t, n);
    AsciiLength(t);
    AsciiLength(t[..WholePoints(t, n)]);
  }

  /** One code point of each length: U+0041, U+00E9, U+20AC and U+1F600. */
  lemma EncodingsOfEachLength()
    ensures Encode([0x41]) == [0x41] && Encode([0xE9]) == [0xC3, 0xA9]
    ensures Encode([0x20AC]) == [0xE2, 0x82, 0xAC] && Encode([0x1F600]) == [0xF0, 0x9F, 0x98, 0x80]
  {
    assert Encode([0x41]) == EncodeOne(0x41) + Encode([]) && Encode([0xE9]) == EncodeOne(0xE9) + Encode([]);
    assert Encode([0x20AC]) == EncodeOne(0x20AC) + Encode([]) && Encode([0x1F600]) == EncodeOne(0x1F600) + Encode([]);
  }
}
