/** `Base64encode`, `Base64decode` and their length functions, CommonTools/base64.cpp. */
module Base64 {

  import opened MachineTypes

  // ------------------------------------------------------------------------- bits

  /** The bit of `v` that counts `k` twos. */
  function Bit(v: nat, k: nat): bool {
    if k == 0 then v % 2 == 1 else Bit(v / 2, k - 1)
  }

  /** The lowest `w` bits of `v`, highest first. */
  function Bits(v: nat, w: nat): (b: seq<bool>)
    ensures |b| == w
  {
    seq(w, i requires 0 <= i < w => Bit(v, w - 1 - i))
  }

  function BitsOf(s: seq<nat>, w: nat): (b: seq<bool>)
    ensures |b| == |s| * w
  {
    if s == [] then [] else Bits(s[0], w) + BitsOf(s[1..], w)
  }

  function Zeros(n: nat): seq<bool> {
    seq(n, _ => false)
  }

  lemma {:induction false} BitJoin(hi: nat, lo: nat, k: nat, p: nat)
    requires lo < Pow2(k)
    ensures Bit(hi * Pow2(k) + lo, p) == if p < k then Bit(lo, p) else Bit(hi, p - k)
  {
    if k > 0 {
      var h := hi * Pow2(k - 1);
      assert hi * Pow2(k) == 2 * h;
      assert (2 * h + lo) / 2 == h + lo / 2 && (2 * h + lo) % 2 == lo % 2;
      if p > 0 {
        BitJoin(hi, lo / 2, k - 1, p - 1);
      }
    }
  }

  lemma BitsJoin(hi: nat, lo: nat, j: nat, k: nat)
    requires lo < Pow2(k)
    ensures Bits(hi * Pow2(k) + lo, j + k) == Bits(hi, j) + Bits(lo, k)
  {
    var v := hi * Pow2(k) + lo;
    var whole, parts := Bits(v, j + k), Bits(hi, j) + Bits(lo, k);
    forall i | 0 <= i < j + k ensures whole[i] == parts[i] {
      BitJoin(hi, lo, k, j + k - 1 - i);
      assert whole[i] == Bit(v, j + k - 1 - i);
      assert i < j ==> parts[i] == Bits(hi, j)[i] == Bit(hi, j - 1 - i);
      assert i >= j ==> parts[i] == Bits(lo, k)[i - j] == Bit(lo, j + k - 1 - i);
    }
    assert whole == parts;
  }

  lemma {:induction false} SameBits(u: nat, v: nat, w: nat)
    requires u < Pow2(w) && v < Pow2(w) && forall k: nat :: k < w ==> Bit(u, k) == Bit(v, k)
    ensures u == v
  {
    if w > 0 {
      assert Bit(u, 0) == Bit(v, 0);
      forall k: nat | k < w - 1 ensures Bit(u / 2, k) == Bit(v / 2, k) {
        assert Bit(u, k + 1) == Bit(v, k + 1);
      }
      SameBits(u / 2, v / 2, w - 1);
    }
  }

  lemma BitsAreInjective(u: nat, v: nat, w: nat)
    requires u < Pow2(w) && v < Pow2(w) && Bits(u, w) == Bits(v, w)
    ensures u == v
  {
    forall k: nat | k < w ensures Bit(u, k) == Bit(v, k) {
      assert Bits(u, w)[w - 1 - k] == Bits(v, w)[w - 1 - k];
    }
    SameBits(u, v, w);
  }

  lemma {:induction false} BitsOfConcat(a: seq<nat>, b: seq<nat>, w: nat)
    ensures BitsOf(a + b, w) == BitsOf(a, w) + BitsOf(b, w)
  {
    if a == [] {
      assert a + b == b;
    } else {
      assert (a + b)[1..] == a[1..] + b;
      BitsOfConcat(a[1..], b, w);
    }
  }

  lemma {:induction false} BitsOfAreInjective(a: seq<nat>, b: seq<nat>, w: nat)
    requires w > 0 && BitsOf(a, w) == BitsOf(b, w) && |a| == |b|
    requires forall i :: 0 <= i < |a| ==> a[i] < Pow2(w) && b[i] < Pow2(w)
    ensures a == b
  {
    if a != [] {
      var p, q := BitsOf(a[1..], w), BitsOf(b[1..], w);
      assert Bits(a[0], w) == (Bits(a[0], w) + p)[..w] == (Bits(b[0], w) + q)[..w] == Bits(b[0], w);
      assert p == (Bits(a[0], w) + p)[w..] == (Bits(b[0], w) + q)[w..] == q;
      BitsAreInjective(a[0], b[0], w);
      BitsOfAreInjective(a[1..], b[1..], w);
      assert a == [a[0]] + a[1..] && b == [b[0]] + b[1..];
    }
  }

  lemma Powers()
    ensures Pow2(2) == 4 && Pow2(4) == 16 && Pow2(6) == 64 && Pow2(8) == 256
  {
    assert Pow2(3) == 8 && Pow2(5) == 32 && Pow2(7) == 128;
  }

  /** A byte in two parts. */
  lemma ByteParts(b: Byte)
    ensures Bits(b, 8) == Bits(b / 4, 6) + Bits(b % 4, 2) == Bits(b / 16, 4) + Bits(b % 16, 4)
      == Bits(b / 64, 2) + Bits(b % 64, 6)
  {
    Powers();
    BitsJoin(b / 4, b % 4, 6, 2);
    BitsJoin(b / 16, b % 16, 4, 4);
    BitsJoin(b / 64, b % 64, 2, 6);
  }

  /** Six bits from two bytes. */
  lemma SextetParts(hi: nat, lo: nat)
    ensures hi < 4 && lo < 16 ==> Bits(hi * 16 + lo, 6) == Bits(hi, 2) + Bits(lo, 4)
    ensures hi < 16 && lo < 4 ==> Bits(hi * 4 + lo, 6) == Bits(hi, 4) + Bits(lo, 2)
  {
    Powers();
    if lo < 16 {
      BitsJoin(hi, lo, 2, 4);
    }
    if lo < 4 {
      BitsJoin(hi, lo, 4, 2);
    }
  }

  lemma {:induction false} NoBit(k: nat)
    ensures !Bit(0, k)
  {
    if k > 0 {
      NoBit(k - 1);
    }
  }

  lemma NoBits(w: nat)
    ensures Bits(0, w) == Zeros(w)
  {
    forall k: nat ensures !Bit(0, k) {
      NoBit(k);
    }
  }

  lemma GroupBits(a: Byte, b: Byte, c: Byte)
    ensures BitsOf([a / 4, a % 4 * 16 + b / 16, b % 16 * 4 + c / 64, c % 64], 6) == BitsOf([a, b, c], 8)
  {
    ByteParts(a);
    ByteParts(b);
    ByteParts(c);
    SextetParts(a % 4, b / 16);
    SextetParts(b % 16, c / 64);
    Few(a / 4, a % 4 * 16 + b / 16, b % 16 * 4 + c / 64, c % 64, 6);
    Few(a, b, c, 0, 8);
  }

  /** What is left of two bytes when the third is missing. */
  lemma PairBits(a: Byte, b: Byte)
    ensures BitsOf([a / 4, a % 4 * 16 + b / 16, b % 16 * 4], 6) == BitsOf([a, b], 8) + Zeros(2)
  {
    ByteParts(a);
    ByteParts(b);
    SextetParts(a % 4, b / 16);
    SextetParts(b % 16, 0);
    NoBits(2);
    Few(a / 4, a % 4 * 16 + b / 16, b % 16 * 4, 0, 6);
    Few(a, b, 0, 0, 8);
  }

  lemma SingleBits(a: Byte)
    ensures BitsOf([a / 4, a % 4 * 16], 6) == BitsOf([a], 8) + Zeros(4)
  {
    ByteParts(a);
    SextetParts(a % 4, 0);
    NoBits(4);
    Few(a / 4, a % 4 * 16, 0, 0, 6);
    Few(a, 0, 0, 0, 8);
  }

  lemma Few(a: nat, b: nat, c: nat, d: nat, w: nat)
    ensures BitsOf([a], w) == Bits(a, w)
    ensures BitsOf([a, b], w) == Bits(a, w) + Bits(b, w)
    ensures BitsOf([a, b, c], w) == Bits(a, w) + Bits(b, w) + Bits(c, w)
    ensures BitsOf([a, b, c, d], w) == Bits(a, w) + Bits(b, w) + Bits(c, w) + Bits(d, w)
  {
    BitsOfConcat([a], [b], w);
    BitsOfConcat([a, b], [c], w);
    BitsOfConcat([a, b, c], [d], w);
    assert [a, b] == [a] + [b] && [a, b, c] == [a, b] + [c] && [a, b, c, d] == [a, b, c] + [d];
  }

  // --------------------------------------------------------------------- alphabet

  /** `pr2six`: 64 for a character outside of the alphabet. */
  function Value(c: Octet): (v: nat)
    ensures v <= 64
  {
    if 'A' <= c <= 'Z' then c as int - 'A' as int
    else if 'a' <= c <= 'z' then c as int - 'a' as int + 26
    else if '0' <= c <= '9' then c as int - '0' as int + 52
    else if c == '+' then 62
    else if c == '/' then 63
    else 64
  }

  /** `basis_64`, the inverse of `pr2six`. */
  function Letter(v: nat): (c: Octet)
    requires v < 64
    ensures Value(c) == v
  {
    if v < 26 then ('A' as int + v) as char
    else if v < 52 then ('a' as int + v - 26) as char
    else if v < 62 then ('0' as int + v - 52) as char
    else if v == 62 then '+'
    else '/'
  }

  predicate Letters(t: seq<Octet>) {
    forall i :: 0 <= i < |t| ==> Value(t[i]) < 64
  }

  function Values(t: seq<Octet>): (v: seq<nat>)
    ensures |v| == |t|
  {
    seq(|t|, i requires 0 <= i < |t| => Value(t[i]))
  }

  /** The bits that a text of letters stands for. */
  function TextBits(t: seq<Octet>): (b: seq<bool>)
    ensures |b| == 6 * |t|
  {
    BitsOf(Values(t), 6)
  }

  lemma TextBitsConcat(t: seq<Octet>, u: seq<Octet>)
    ensures TextBits(t + u) == TextBits(t) + TextBits(u)
  {
    assert Values(t + u) == Values(t) + Values(u);
    BitsOfConcat(Values(t), Values(u), 6);
  }

  // --------------------------------------------------------------------- encoding

  function Base64encode_len(len: nat): nat {
    (len + 2) / 3 * 4 + 1
  }

  /** Nothing but '=' from position `n` on. */
  predicate PadsFrom(text: seq<Octet>, n: nat) {
    forall i :: n <= i < |text| ==> text[i] == '='
  }

  /** Base64 as section 4 of RFC 4648 defines it: as many letters as it takes for the
      bits of `s`, filled up with zeros, and then '=' up to a multiple of four. */
  ghost predicate Encodes(text: seq<Octet>, s: seq<Byte>) {
    var n := (4 * |s| + 2) / 3;
    && |text| == (|s| + 2) / 3 * 4
    && Letters(text[..n]) && PadsFrom(text, n)
    && TextBits(text[..n]) == BitsOf(s, 8) + Zeros(6 * n - 8 * |s|)
  }

  lemma EncodesFrom(letters: seq<Octet>, pad: seq<Octet>, s: seq<Byte>)
    requires Letters(letters) && |letters| == (4 * |s| + 2) / 3
    requires |letters| + |pad| == (|s| + 2) / 3 * 4 && PadsFrom(pad, 0)
    requires TextBits(letters) == BitsOf(s, 8) + Zeros(6 * |letters| - 8 * |s|)
    ensures Encodes(letters + pad, s)
  {
    assert (letters + pad)[..|letters|] == letters;
  }

  /** The letters `t` stand for the bytes `s` and for `extra` zeros. */
  ghost predicate StandsFor(t: seq<Octet>, s: seq<Byte>, extra: nat) {
    Letters(t) && TextBits(t) == BitsOf(s, 8) + Zeros(extra)
  }

  lemma StandsForConcat(t: seq<Octet>, s: seq<Byte>, u: seq<Octet>, r: seq<Byte>, extra: nat)
    requires StandsFor(t, s, 0) && StandsFor(u, r, extra)
    ensures StandsFor(t + u, s + r, extra)
  {
    TextBitsConcat(t, u);
    BitsOfConcat(s, r, 8);
  }

  lemma GroupStands(a: Byte, b: Byte, c: Byte)
    ensures StandsFor([Letter(a / 4), Letter(a % 4 * 16 + b / 16), Letter(b % 16 * 4 + c / 64), Letter(c % 64)], [a, b, c], 0)
  {
    GroupBits(a, b, c);
    var t := [Letter(a / 4), Letter(a % 4 * 16 + b / 16), Letter(b % 16 * 4 + c / 64), Letter(c % 64)];
    assert Values(t) == [a / 4, a % 4 * 16 + b / 16, b % 16 * 4 + c / 64, c % 64];
  }

  lemma PairStands(a: Byte, b: Byte)
    ensures StandsFor([Letter(a / 4), Letter(a % 4 * 16 + b / 16), Letter(b % 16 * 4)], [a, b], 2)
  {
    PairBits(a, b);
    var t := [Letter(a / 4), Letter(a % 4 * 16 + b / 16), Letter(b % 16 * 4)];
    assert Values(t) == [a / 4, a % 4 * 16 + b / 16, b % 16 * 4];
  }

  lemma SingleStands(a: Byte)
    ensures StandsFor([Letter(a / 4), Letter(a % 4 * 16)], [a], 4)
  {
    SingleBits(a);
    var t := [Letter(a / 4), Letter(a % 4 * 16)];
    assert Values(t) == [a / 4, a % 4 * 16];
  }

  lemma GroupEncodes(t: seq<Octet>, s: seq<Byte>, a: Byte, b: Byte, c: Byte)
    requires StandsFor(t, s, 0)
    ensures StandsFor(t + [Letter(a / 4), Letter(a % 4 * 16 + b / 16), Letter(b % 16 * 4 + c / 64), Letter(c % 64)], s + [a, b, c], 0)
  {
    GroupStands(a, b, c);
    StandsForConcat(t, s, [Letter(a / 4), Letter(a % 4 * 16 + b / 16), Letter(b % 16 * 4 + c / 64), Letter(c % 64)], [a, b, c], 0);
  }

  /** Four characters are written, one after the other. */
  method Emit(encoded: array<Octet>, p: nat, a: Octet, b: Octet, c: Octet, d: Octet)
    requires p + 4 <= encoded.Length
    modifies encoded
    ensures encoded[..p + 4] == old(encoded[..p]) + [a, b, c, d]
    ensures forall k :: p + 4 <= k < encoded.Length ==> encoded[k] == old(encoded[k])
  {
    encoded[p] := a;
    encoded[p + 1] := b;
    encoded[p + 2] := c;
    encoded[p + 3] := d;
  }

  /** One turn of the loop of `Base64encode`; shifts and masks are written as quotients
      and remainders, and `|` of values without common bits as `+`. */
  method EncodeGroup(encoded: array<Octet>, p: nat, s: seq<Byte>, i: nat)
    requires p + 4 <= encoded.Length && i + 3 <= |s| && StandsFor(encoded[..p], s[..i], 0)
    modifies encoded
    ensures StandsFor(encoded[..p + 4], s[..i + 3], 0)
    ensures forall k :: p + 4 <= k < encoded.Length ==> encoded[k] == old(encoded[k])
  {
    ghost var t := encoded[..p];
    Emit(encoded, p, Letter(s[i] / 4), Letter(s[i] % 4 * 16 + s[i + 1] / 16),
         Letter(s[i + 1] % 16 * 4 + s[i + 2] / 64), Letter(s[i + 2] % 64));
    GroupEncodes(t, s[..i], s[i], s[i + 1], s[i + 2]);
    assert s[..i + 3] == s[..i] + [s[i], s[i + 1], s[i + 2]];
  }

  lemma SingleEncodes(t: seq<Octet>, s: seq<Byte>, a: Byte)
    requires StandsFor(t, s, 0) && |s| % 3 == 0 && |t| == |s| / 3 * 4
    ensures Encodes(t + [Letter(a / 4), Letter(a % 4 * 16), '=', '='], s + [a])
  {
    var u: seq<Octet>, pad: seq<Octet> := [Letter(a / 4), Letter(a % 4 * 16)], ['=', '='];
    SingleStands(a);
    StandsForConcat(t, s, u, [a], 4);
    EncodesFrom(t + u, pad, s + [a]);
    assert (t + u) + pad == t + [Letter(a / 4), Letter(a % 4 * 16), '=', '='];
  }

  lemma PairEncodes(t: seq<Octet>, s: seq<Byte>, a: Byte, b: Byte)
    requires StandsFor(t, s, 0) && |s| % 3 == 0 && |t| == |s| / 3 * 4
    ensures Encodes(t + [Letter(a / 4), Letter(a % 4 * 16 + b / 16), Letter(b % 16 * 4), '='], s + [a, b])
  {
    var u: seq<Octet> := [Letter(a / 4), Letter(a % 4 * 16 + b / 16), Letter(b % 16 * 4)];
    PairStands(a, b);
    StandsForConcat(t, s, u, [a, b], 2);
    EncodesFrom(t + u, ['='], s + [a, b]);
    assert (t + u) + ['='] == t + [Letter(a / 4), Letter(a % 4 * 16 + b / 16), Letter(b % 16 * 4), '='];
  }

  /** The one or two bytes after the last group of three. */
  method EncodeTail(encoded: array<Octet>, p: nat, s: seq<Byte>, i: nat)
    requires p + 4 <= encoded.Length && i < |s| <= i + 2 && i % 3 == 0 && p == i / 3 * 4
    requires StandsFor(encoded[..p], s[..i], 0)
    modifies encoded
    ensures Encodes(encoded[..p + 4], s)
    ensures forall k :: p + 4 <= k < encoded.Length ==> encoded[k] == old(encoded[k])
  {
    ghost var t := encoded[..p];
    if i == |s| - 1 {
      Emit(encoded, p, Letter(s[i] / 4), Letter(s[i] % 4 * 16), '=', '=');
      SingleEncodes(t, s[..i], s[i]);
      assert s == s[..i] + [s[i]];
    } else {
      Emit(encoded, p, Letter(s[i] / 4), Letter(s[i] % 4 * 16 + s[i + 1] / 16), Letter(s[i + 1] % 16 * 4), '=');
      PairEncodes(t, s[..i], s[i], s[i + 1]);
      assert s == s[..i] + [s[i], s[i + 1]];
    }
  }

  lemma NothingStands(t: seq<Octet>, s: seq<Byte>)
    requires t == [] && s == []
    ensures StandsFor(t, s, 0)
  {
  }

  lemma WholeGroups(t: seq<Octet>, s: seq<Byte>)
    requires StandsFor(t, s, 0) && |s| % 3 == 0
    ensures Encodes(t, s)
  {
    assert t + [] == t;
    EncodesFrom(t, [], s);
  }

  /** What is left after `g` groups has room, with the terminator. */
  lemma EncodeRoom(len: nat, g: nat)
    requires 3 * g <= len
    ensures 3 * g % 3 == 0 && 3 * g / 3 * 4 == 4 * g && 4 * g < Base64encode_len(len)
    ensures 3 * g < len ==> 4 * g + 4 < Base64encode_len(len)
    ensures 3 * g == len ==> 4 * g + 1 == Base64encode_len(len)
    ensures 3 * g < len <= 3 * g + 2 ==> 4 * g + 5 == Base64encode_len(len)
  {
  }

  /** The loop of `Base64encode`. */
  method EncodeGroups(encoded: array<Octet>, s: seq<Byte>) returns (p: nat, i: nat)
    requires Base64encode_len(|s|) <= encoded.Length
    modifies encoded
    ensures |s| - 2 <= i <= |s| && i % 3 == 0 && p == i / 3 * 4 && p < encoded.Length && StandsFor(encoded[..p], s[..i], 0)
    ensures forall k :: p <= k < encoded.Length ==> encoded[k] == old(encoded[k])
  {
    p, i := 0, 0;
    ghost var g := 0;
    NothingStands(encoded[..p], s[..i]);
    while i < |s| - 2
      invariant 0 <= i <= |s| && i == 3 * g && p == 4 * g
      invariant StandsFor(encoded[..p], s[..i], 0)
      invariant forall k :: p <= k < encoded.Length ==> encoded[k] == old(encoded[k])
    {
      EncodeRoom(|s|, g);
      EncodeGroup(encoded, p, s, i);
      p, i, g := p + 4, i + 3, g + 1;
    }
    EncodeRoom(|s|, g);
  }

  /** `Base64encode`: the text, a terminator, and nothing behind it. */
  method Base64encode(encoded: array<Octet>, s: seq<Byte>) returns (length: nat)
    requires Base64encode_len(|s|) <= encoded.Length
    modifies encoded
    ensures length == Base64encode_len(|s|)
    ensures Encodes(encoded[..length - 1], s) && encoded[length - 1] == '\0'
    ensures forall k :: length <= k < encoded.Length ==> encoded[k] == old(encoded[k])
  {
    var p, i := EncodeGroups(encoded, s);
    EncodeRoom(|s|, i / 3);
    if i < |s| {
      EncodeTail(encoded, p, s, i);
      p := p + 4;
    } else {
      assert s[..i] == s;
      WholeGroups(encoded[..p], s);
    }
    ghost var text := encoded[..p];
    encoded[p] := '\0';
    length := p + 1;
    assert encoded[..length - 1] == text;
  }

  // --------------------------------------------------------------------- decoding

  /** The number of letters before the first character that is none. */
  function Leading(t: seq<Octet>): (n: nat)
    ensures n <= |t| && (forall i :: 0 <= i < n ==> Value(t[i]) < 64) && (n < |t| ==> Value(t[n]) == 64)
  {
    if t == [] || Value(t[0]) == 64 then 0
    else
      assert forall i :: 0 < i < |t| ==> t[i] == t[1..][i - 1];
      1 + Leading(t[1..])
  }

  lemma {:induction false} LeadingIs(t: seq<Octet>, n: nat)
    requires n <= |t| && Letters(t[..n]) && (n < |t| ==> Value(t[n]) == 64)
    ensures Leading(t) == n
  {
    if n > 0 {
      assert t[0] == t[..n][0];
      forall i | 0 <= i < n - 1 ensures Value(t[1..][i]) < 64 {
        assert t[1..][i] == t[..n][i + 1];
      }
      LeadingIs(t[1..], n - 1);
    }
  }

  /** Every full byte that the leading letters of `coded` make up. */
  ghost predicate Decodes(plain: seq<Byte>, coded: seq<Octet>) {
    var n := Leading(coded);
    |plain| == 6 * n / 8 && BitsOf(plain, 8) == TextBits(coded[..n])[..8 * |plain|]
  }

  /** A letter's value in two parts. */
  lemma LetterParts(v: nat)
    requires v < 64
    ensures Bits(v, 6) == Bits(v / 16, 2) + Bits(v % 16, 4) == Bits(v / 4, 4) + Bits(v % 4, 2)
  {
    Powers();
    BitsJoin(v / 16, v % 16, 2, 4);
    BitsJoin(v / 4, v % 4, 4, 2);
  }

  /** Shifting the high bits of a letter out of a byte. */
  lemma Truncates(v: nat)
    ensures v * 16 % 256 == v % 16 * 16 && v * 64 % 256 == v % 4 * 64
  {
    assert v * 16 == 256 * (v / 16) + v % 16 * 16;
    assert v * 64 == 256 * (v / 4) + v % 4 * 64;
  }

  lemma ByteFrom(hi: nat, lo: nat)
    ensures hi < 64 && lo < 4 ==> Bits(hi * 4 + lo, 8) == Bits(hi, 6) + Bits(lo, 2)
    ensures hi < 16 && lo < 16 ==> Bits(hi * 16 + lo, 8) == Bits(hi, 4) + Bits(lo, 4)
    ensures hi < 4 && lo < 64 ==> Bits(hi * 64 + lo, 8) == Bits(hi, 2) + Bits(lo, 6)
  {
    Powers();
    if lo < 4 {
      BitsJoin(hi, lo, 6, 2);
    }
    if lo < 16 {
      BitsJoin(hi, lo, 4, 4);
    }
    if lo < 64 {
      BitsJoin(hi, lo, 2, 6);
    }
  }

  /** The three bytes that four letters make up. */
  function FirstByte(w: nat, x: nat): Byte
    requires w < 64 && x < 64
  {
    w * 4 + x / 16
  }

  function SecondByte(x: nat, y: nat): (b: Byte)
    requires x < 64 && y < 64
    ensures b == x % 16 * 16 + y / 4
  {
    Truncates(x);
    x * 16 % 256 + y / 4
  }

  function ThirdByte(y: nat, z: nat): (b: Byte)
    requires y < 64 && z < 64
    ensures b == y % 4 * 64 + z
  {
    Truncates(y);
    y * 64 % 256 + z
  }

  lemma UngroupBits(w: nat, x: nat, y: nat, z: nat)
    requires w < 64 && x < 64 && y < 64 && z < 64
    ensures BitsOf([FirstByte(w, x), SecondByte(x, y), ThirdByte(y, z)], 8) == BitsOf([w, x, y, z], 6)
  {
    LetterParts(x);
    LetterParts(y);
    ByteFrom(w, x / 16);
    ByteFrom(x % 16, y / 4);
    ByteFrom(y % 4, z);
    Few(FirstByte(w, x), SecondByte(x, y), ThirdByte(y, z), 0, 8);
    Few(w, x, y, z, 6);
  }

  lemma BitsOfPrefix(s: seq<nat>, m: nat, w: nat)
    requires m <= |s|
    ensures |BitsOf(s[..m], w)| == m * w <= |BitsOf(s, w)| && BitsOf(s[..m], w) == BitsOf(s, w)[..m * w]
  {
    assert s == s[..m] + s[m..];
    BitsOfConcat(s[..m], s[m..], w);
  }

  /** The bytes that up to four letters make up. */
  function FourLetters(u: seq<Octet>): (r: seq<Byte>)
    requires |u| <= 4 && Letters(u)
    ensures |r| == 6 * |u| / 8
  {
    if |u| < 2 then []
    else
      [FirstByte(Value(u[0]), Value(u[1]))]
        + if |u| == 2 then [] else
            [SecondByte(Value(u[1]), Value(u[2]))]
              + if |u| == 3 then [] else [ThirdByte(Value(u[2]), Value(u[3]))]
  }

  lemma FourLettersBits(u: seq<Octet>)
    requires |u| <= 4 && Letters(u)
    ensures BitsOf(FourLetters(u), 8) == TextBits(u)[..8 * |FourLetters(u)|]
  {
    var v, r := u + ['A', 'A', 'A', 'A'], FourLetters(u);
    var four, all := v[..4], FourLetters(v[..4]);
    UngroupBits(Value(v[0]), Value(v[1]), Value(v[2]), Value(v[3]));
    assert Values(four) == [Value(v[0]), Value(v[1]), Value(v[2]), Value(v[3])];
    BitsOfPrefix(all, |r|, 8);
    assert all[..|r|] == r;
    BitsOfPrefix(Values(four), |u|, 6);
    assert Values(four)[..|u|] == Values(u);
  }

  lemma DecodesLast(plain: seq<Byte>, coded: seq<Octet>, j: nat)
    requires j <= Leading(coded) <= j + 4 && j % 4 == 0 && BitsOf(plain, 8) == TextBits(coded[..j])
    ensures Decodes(plain + FourLetters(coded[j..Leading(coded)]), coded)
  {
    var n := Leading(coded);
    var u := coded[j..n];
    FourLettersBits(u);
    BitsOfConcat(plain, FourLetters(u), 8);
    assert coded[..n] == coded[..j] + u;
    TextBitsConcat(coded[..j], u);
  }

  lemma DecodesGroup(plain: seq<Byte>, coded: seq<Octet>, j: nat)
    requires j + 4 <= Leading(coded) && BitsOf(plain, 8) == TextBits(coded[..j])
    ensures Letters(coded[j..j + 4])
    ensures BitsOf(plain + FourLetters(coded[j..j + 4]), 8) == TextBits(coded[..j + 4])
  {
    var u := coded[j..j + 4];
    FourLettersBits(u);
    BitsOfConcat(plain, FourLetters(u), 8);
    assert coded[..j + 4] == coded[..j] + u;
    TextBitsConcat(coded[..j], u);
  }

  method CountLetters(coded: seq<Octet>) returns (nprbytes: nat)
    requires Leading(coded) < |coded|
    ensures nprbytes == Leading(coded)
  {
    nprbytes := 0;
    while Value(coded[nprbytes]) <= 63
      invariant nprbytes <= Leading(coded)
      decreases |coded| - nprbytes
    {
      assert nprbytes < Leading(coded);
      nprbytes := nprbytes + 1;
    }
  }

  /** The room that `Base64decode` asks for. */
  function DecodeLen(coded: seq<Octet>): nat {
    (Leading(coded) + 3) / 4 * 3 + 1
  }

  /** `coded` has to end in a character that is no letter, as any C string does. */
  method Base64decode_len(coded: seq<Octet>) returns (length: nat)
    requires Leading(coded) < |coded|
    ensures length == DecodeLen(coded)
  {
    var nprbytes := CountLetters(coded);
    length := (nprbytes + 3) / 4 * 3 + 1;
  }

  /** One turn of the loop of `Base64decode`. */
  method DecodeGroup(plain: array<Byte>, bufout: nat, coded: seq<Octet>, bufin: nat)
    requires bufin + 4 <= Leading(coded) && bufout + 3 <= plain.Length
    requires BitsOf(plain[..bufout], 8) == TextBits(coded[..bufin])
    modifies plain
    ensures BitsOf(plain[..bufout + 3], 8) == TextBits(coded[..bufin + 4])
    ensures forall k :: bufout + 3 <= k < plain.Length ==> plain[k] == old(plain[k])
  {
    ghost var done, u := plain[..bufout], coded[bufin..bufin + 4];
    DecodesGroup(done, coded, bufin);
    plain[bufout] := FirstByte(Value(coded[bufin]), Value(coded[bufin + 1]));
    plain[bufout + 1] := SecondByte(Value(coded[bufin + 1]), Value(coded[bufin + 2]));
    plain[bufout + 2] := ThirdByte(Value(coded[bufin + 2]), Value(coded[bufin + 3]));
    assert plain[..bufout + 3] == done + FourLetters(u);
  }

  /** The last four letters or less, of which a single one is ignored. */
  method DecodeTail(plain: array<Byte>, bufout: nat, u: seq<Octet>) returns (next: nat)
    requires |u| <= 4 && Letters(u) && bufout + |u| <= plain.Length
    modifies plain
    ensures next == bufout + |FourLetters(u)| && plain[..next] == old(plain[..bufout]) + FourLetters(u)
    ensures forall k :: next <= k < plain.Length ==> plain[k] == old(plain[k])
  {
    ghost var before := plain[..bufout];
    next := bufout;
    if |u| > 1 {
      plain[next] := FirstByte(Value(u[0]), Value(u[1]));
      next := next + 1;
    }
    if |u| > 2 {
      plain[next] := SecondByte(Value(u[1]), Value(u[2]));
      next := next + 1;
    }
    if |u| > 3 {
      plain[next] := ThirdByte(Value(u[2]), Value(u[3]));
      next := next + 1;
    }
    Assembled(plain, before, FourLetters(u));
  }

  /** What is left of `n` letters after `j` has room for its bytes and the terminator. */
  lemma RoomLeft(n: nat, j: nat)
    requires j % 4 == 0 && j <= n
    ensures n > j + 4 ==> j / 4 * 3 + 3 < (n + 3) / 4 * 3
    ensures j < n <= j + 4 ==> (n + 3) / 4 * 3 == j / 4 * 3 + 3
    ensures j == n ==> (n + 3) / 4 * 3 == j / 4 * 3
  {
  }

  /** What is left after `g` groups has room, and the count that the decoder returns in
      the end is that of the bytes it has written. */
  lemma DecodeRoom(n: nat, g: nat)
    requires 4 * g <= n
    ensures 4 * g % 4 == 0 && 4 * g / 4 * 3 == 3 * g
    ensures n > 4 * g + 4 ==> 3 * g + 3 < (n + 3) / 4 * 3
    ensures n <= 4 * g + 4 ==> (n + 3) / 4 * 3 - (4 - (n - 4 * g)) % 4 == 3 * g + 6 * (n - 4 * g) / 8
    ensures 3 * g + 6 * (n - 4 * g) / 8 <= (n + 3) / 4 * 3
  {
    var k := n - 4 * g;
    assert (n + 3) / 4 == g + (k + 3) / 4;
  }

  lemma Assembled(plain: array<Byte>, before: seq<Byte>, r: seq<Byte>)
    requires |before| + |r| <= plain.Length
    requires forall k :: 0 <= k < |before| ==> plain[k] == before[k]
    requires forall k :: 0 <= k < |r| ==> plain[|before| + k] == r[k]
    ensures plain[..|before| + |r|] == before + r
  {
  }

  /** The end of `Base64decode`, with the terminator. */
  method DecodeEnd(plain: array<Byte>, bufout: nat, coded: seq<Octet>, bufin: nat) returns (next: nat)
    requires bufin <= Leading(coded) <= bufin + 4 && bufin % 4 == 0 && bufout == bufin / 4 * 3
    requires DecodeLen(coded) <= plain.Length && BitsOf(plain[..bufout], 8) == TextBits(coded[..bufin])
    modifies plain
    ensures next == bufout + 6 * (Leading(coded) - bufin) / 8
    ensures Decodes(plain[..next], coded) && plain[next] == 0
    ensures forall k :: next + 1 <= k < plain.Length ==> plain[k] == old(plain[k])
  {
    var n := Leading(coded);
    RoomLeft(n, bufin);
    var u := coded[bufin..n];
    ghost var before := plain[..bufout];
    DecodesLast(before, coded, bufin);
    next := DecodeTail(plain, bufout, u);
    plain[next] := 0;
    assert plain[..next] == before + FourLetters(u);
  }

  /** `Base64decode`: every full byte that the letters make up, and a terminator, in
      the room that was asked for. */
  method Base64decode(plain: array<Byte>, coded: seq<Octet>) returns (count: int)
    requires Leading(coded) < |coded| && DecodeLen(coded) <= plain.Length
    modifies plain
    ensures 0 <= count && count + 1 <= DecodeLen(coded)
    ensures Decodes(plain[..count], coded) && plain[count] == 0
    ensures forall k :: count + 1 <= k < plain.Length ==> plain[k] == old(plain[k])
  {
    var n := CountLetters(coded);
    var nprbytes: int := n;
    var nbytesdecoded := (nprbytes + 3) / 4 * 3;
    var bufin: nat, bufout: nat := 0, 0;
    ghost var g := 0;
    while nprbytes > 4
      invariant bufin == 4 * g && bufout == 3 * g && nprbytes == n - bufin >= 0
      invariant BitsOf(plain[..bufout], 8) == TextBits(coded[..bufin])
      invariant forall k :: bufout <= k < plain.Length ==> plain[k] == old(plain[k])
    {
      DecodeRoom(n, g);
      DecodeGroup(plain, bufout, coded, bufin);
      bufin, bufout, nprbytes, g := bufin + 4, bufout + 3, nprbytes - 4, g + 1;
    }
    DecodeRoom(n, g);
    var next := DecodeEnd(plain, bufout, coded, bufin);
    count := nbytesdecoded - (4 - nprbytes) % 4;
  }

  // ------------------------------------------------------------------- round trip

  /** The letters of an encoded text are read back, whatever follows its terminator. */
  lemma LettersReadBack(text: seq<Octet>, s: seq<Byte>, after: seq<Octet>)
    requires Encodes(text, s) && after != [] && after[0] == '\0'
    ensures Leading(text + after) == (4 * |s| + 2) / 3
  {
    var n := (4 * |s| + 2) / 3;
    assert (text + after)[..n] == text[..n];
    LeadingIs(text + after, n);
  }

  /** The letters of `len` bytes hold `len` bytes. */
  lemma LettersFit(len: nat)
    ensures var n := (4 * len + 2) / 3; 6 * n / 8 == len && 8 * len <= 6 * n
  {
  }

  /** Decoding an encoded text gives the same bytes and length. */
  lemma RoundTrip(text: seq<Octet>, s: seq<Byte>, after: seq<Octet>, plain: seq<Byte>)
    requires Encodes(text, s) && after != [] && after[0] == '\0' && Decodes(plain, text + after)
    ensures plain == s
  {
    LettersReadBack(text, s, after);
    var n := (4 * |s| + 2) / 3;
    assert (text + after)[..n] == text[..n];
    LettersFit(|s|);
    Powers();
    BitsOfAreInjective(plain, s, 8);
  }

  lemma LettersAreUnique(t: seq<Octet>, u: seq<Octet>)
    requires Letters(t) && Letters(u) && TextBits(t) == TextBits(u)
    ensures t == u
  {
    Powers();
    BitsOfAreInjective(Values(t), Values(u), 6);
    forall i | 0 <= i < |t| ensures t[i] == u[i] {
      assert Values(t)[i] == Values(u)[i];
      assert t[i] == Letter(Value(t[i])) == u[i];
    }
  }

  /** Each byte string has one encoding. */
  lemma EncodingIsUnique(t: seq<Octet>, u: seq<Octet>, s: seq<Byte>)
    requires Encodes(t, s) && Encodes(u, s)
    ensures t == u
  {
    var n := (4 * |s| + 2) / 3;
    LettersAreUnique(t[..n], u[..n]);
  }

  /** Zeros that fill up the last letter. */
  lemma LastBits(t: seq<Octet>, z: nat, p: nat)
    requires t != [] && Letters(t) && z <= 6 && p == Pow2(z)
    ensures TextBits(t)[6 * |t| - z..] == Zeros(z) <==> Value(t[|t| - 1]) % p == 0
  {
    var v, first := Value(t[|t| - 1]), t[..|t| - 1];
    var hi, lo := v / p, v % p;
    assert v == hi * p + lo;
    BitsJoin(hi, lo, 6 - z, z);
    assert t == first + [t[|t| - 1]] && Values([t[|t| - 1]]) == [v];
    TextBitsConcat(first, [t[|t| - 1]]);
    Few(v, 0, 0, 0, 6);
    assert TextBits(t)[6 * |t| - z..] == Bits(lo, z);
    NoBits(z);
    if Bits(lo, z) == Zeros(z) {
      BitsAreInjective(lo, 0, z);
    }
  }

  /** The text is padded to a multiple of four with '=', nothing follows, and the bits
      that the decoder drops are zero. */
  ghost predicate Canonical(text: seq<Octet>) {
    var n := Leading(text);
    && |text| % 4 == 0 && |text| <= n + 2 && PadsFrom(text, n)
    && (n % 4 == 2 ==> Value(text[n - 1]) % 16 == 0)
    && (n % 4 == 3 ==> Value(text[n - 1]) % 4 == 0)
  }

  lemma DroppedBits(text: seq<Octet>, plain: seq<Byte>, z: nat, p: nat)
    requires Decodes(plain, text) && 0 < z == 6 * Leading(text) - 8 * |plain| <= 6 && p == Pow2(z)
    ensures TextBits(text[..Leading(text)]) == BitsOf(plain, 8) + Zeros(z) <==> Value(text[Leading(text) - 1]) % p == 0
  {
    var t, b := text[..Leading(text)], TextBits(text[..Leading(text)]);
    LastBits(t, z, p);
    assert b == b[..8 * |plain|] + b[8 * |plain|..];
    if b == BitsOf(plain, 8) + Zeros(z) {
      assert b[8 * |plain|..] == Zeros(z);
    }
  }

  /** How many bytes `n` letters hold, and how long the encoding of those is. */
  lemma Lengths(n: nat, len: nat, letters: nat, all: nat)
    requires len == 6 * n / 8 && letters == (4 * len + 2) / 3 && all == (len + 2) / 3 * 4
    ensures n % 4 == 0 ==> letters == all == n && 6 * n == 8 * len
    ensures n % 4 == 1 ==> letters == all == n - 1
    ensures n % 4 == 2 ==> letters == n && all == n + 2 && 6 * n == 8 * len + 4
    ensures n % 4 == 3 ==> letters == n && all == n + 1 && 6 * n == 8 * len + 2
  {
    var q, r := n / 4, n % 4;
    assert n == 4 * q + r;
    if r < 2 {
      assert len == 3 * q;
    } else {
      assert len == 3 * q + r - 1;
    }
  }

  lemma PaddedSize(n: nat, size: nat)
    requires n <= size
    ensures size % 4 == 0 && size <= n + 2 <==> n % 4 != 1 && size == (if n % 4 == 0 then n else n + 4 - n % 4)
  {
  }

  lemma ReencodesSingle(text: seq<Octet>, plain: seq<Byte>)
    requires Decodes(plain, text) && Leading(text) % 4 == 1
    ensures !Encodes(text, plain) && !Canonical(text)
  {
    var n := Leading(text);
    PaddedSize(n, |text|);
    Lengths(n, |plain|, (4 * |plain| + 2) / 3, (|plain| + 2) / 3 * 4);
    assert Value(text[n - 1]) < 64;
  }

  lemma ReencodesWhole(text: seq<Octet>, plain: seq<Byte>)
    requires Decodes(plain, text) && Leading(text) % 4 == 0
    ensures Encodes(text, plain) <==> Canonical(text)
  {
    var n := Leading(text);
    PaddedSize(n, |text|);
    Lengths(n, |plain|, (4 * |plain| + 2) / 3, (|plain| + 2) / 3 * 4);
    assert Letters(text[..n]) && TextBits(text[..n]) == BitsOf(plain, 8) + Zeros(0);
  }

  lemma ReencodesPadded(text: seq<Octet>, plain: seq<Byte>, z: nat, p: nat)
    requires Decodes(plain, text) && z == 6 * Leading(text) - 8 * |plain| && p == Pow2(z)
    requires if Leading(text) % 4 == 2 then z == 4 && p == 16 else Leading(text) % 4 == 3 && z == 2 && p == 4
    ensures Encodes(text, plain) <==> Canonical(text)
  {
    var n := Leading(text);
    PaddedSize(n, |text|);
    Lengths(n, |plain|, (4 * |plain| + 2) / 3, (|plain| + 2) / 3 * 4);
    DroppedBits(text, plain, z, p);
    assert Letters(text[..n]);
  }

  /** What was decoded encodes to the same text exactly if that is canonical. */
  lemma ReencodesIff(text: seq<Octet>, plain: seq<Byte>)
    requires Decodes(plain, text)
    ensures Encodes(text, plain) <==> Canonical(text)
  {
    var n := Leading(text);
    if n % 4 == 0 {
      ReencodesWhole(text, plain);
    } else if n % 4 == 1 {
      ReencodesSingle(text, plain);
    } else {
      Powers();
      Lengths(n, |plain|, (4 * |plain| + 2) / 3, (|plain| + 2) / 3 * 4);
      ReencodesPadded(text, plain, 6 * n - 8 * |plain|, if n % 4 == 2 then 16 else 4);
    }
  }

  /** The letters are in the order of table 1 of RFC 4648: three runs, then '+' and '/'. */
  lemma LettersInOrder(v: nat)
    requires v < 64
    ensures Letter(0) == 'A' && Letter(25) == 'Z' && Letter(26) == 'a' && Letter(51) == 'z'
    ensures Letter(52) == '0' && Letter(61) == '9' && Letter(62) == '+' && Letter(63) == '/'
    ensures v < 61 && v != 25 && v != 51 ==> Letter(v + 1) as int == Letter(v) as int + 1
  {
  }
}
