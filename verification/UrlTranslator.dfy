/** `DecodeURL` and `EncodeURL` of
    FrameWork/CommonUtilitiesLib-linux-windows/StringTranslator.cpp, where the path
    delimiter is '/'. */
module UrlTranslator {
  import opened MachineTypes
  import opened SeqFacts

  datatype Error = BadURLFormat | NotEnoughSpace
  datatype Result = Ok(url: seq<Octet>) | Err(error: Error)

  // ------------------------------------------------------------------- hex digits

  predicate IsHexDigit(c: char) {
    '0' <= c <= '9' || 'A' <= c <= 'F' || 'a' <= c <= 'f'
  }

  function HexValue(c: char): (v: nat)
    requires IsHexDigit(c)
    ensures v < 16
  {
    if c <= '9' then c as int - '0' as int
    else if c <= 'F' then c as int - 'A' as int + 10
    else c as int - 'a' as int + 10
  }

  /** A digit as `%X` prints it. */
  function HexDigit(v: nat): (c: Octet)
    requires v < 16
    ensures IsHexDigit(c) && HexValue(c) == v
  {
    if v < 10 then (v + '0' as int) as char else (v - 10 + 'A' as int) as char
  }

  /** The character that two hexadecimal digits stand for. */
  function FromHex(hi: char, lo: char): Octet
    requires IsHexDigit(hi) && IsHexDigit(lo)
  {
    (16 * HexValue(hi) + HexValue(lo)) as char
  }

  // --------------------------------------------------------------------- decoding

  predicate EndsWith(s: seq<Octet>, c: char) {
    s != [] && s[|s| - 1] == c
  }

  /** The output without the dots that are being counted and the '/' before them. */
  function BackUp(out: seq<Octet>, dots: nat): seq<Octet> {
    if |out| > dots then out[..|out| - (dots + 1)] else out
  }

  /** One decoded character: the output, and the number of dots since the last '/'
      if nothing but dots has come since. */
  function Put(out: seq<Octet>, dots: nat, query: bool, c: Octet): (seq<Octet>, nat) {
    if query then (out + [c], dots)
    else
      var o := if c == '/' && 0 < dots <= 2 then BackUp(out, dots) else out;
      (o + [c],
       if c != '.' then 0
       else if dots == 0 then (if EndsWith(o, '/') then 1 else 0)
       else if EndsWith(o, '.') then dots + 1 else dots)
  }

  /** The end of `DecodeURL`: a trailing "." or ".." is dropped. */
  function Strip(out: seq<Octet>, dots: nat): seq<Octet> {
    if dots <= 2 && dots <= |out| then out[..|out| - dots] else out
  }

  /** The loop of `DecodeURL` from the rest `src` of the source on, with room for
      `room` characters in all. */
  function DecodeFrom(src: seq<Octet>, out: seq<Octet>, dots: nat, query: bool, room: nat): Result
    decreases |src|
  {
    if src == [] then Ok(Strip(out, dots))
    else if |out| == room then Err(NotEnoughSpace)
    else
      var q := query || src[0] == '?';
      if src[0] == '%' then
        if |src| < 3 || !IsHexDigit(src[1]) || !IsHexDigit(src[2]) then Err(BadURLFormat)
        else
          var (o, d) := Put(out, dots, q, FromHex(src[1], src[2]));
          DecodeFrom(src[3..], o, d, q, room)
      else if src[0] == '\0' then Err(BadURLFormat)
      else
        var (o, d) := Put(out, dots, q, src[0]);
        DecodeFrom(src[1..], o, d, q, room)
  }

  function Decode(src: seq<Octet>, room: nat): Result {
    if src == [] || src[0] != '/' then Err(BadURLFormat) else DecodeFrom(src, [], 0, false, room)
  }

  /** The part of the loop of `DecodeURL` that writes a decoded character: the next
      position and the dot count. */
  method Write(dest: array<Octet>, ioDest: nat, numDots: nat, inQuery: bool, tempChar: Octet)
      returns (next: nat, dots: nat)
    requires ioDest < dest.Length && (numDots > 0 ==> numDots < ioDest)
    modifies dest
    ensures 0 < next <= ioDest + 1
    ensures (dest[..next], dots) == Put(old(dest[..ioDest]), numDots, inQuery, tempChar)
    ensures dots > 0 ==> dots < next
  {
    next, dots := ioDest, numDots;
    ghost var out := dest[..ioDest];
    if !inQuery {
      if tempChar == '/' && 0 < dots <= 2 {
        next := next - (dots + 1);
        assert dest[..next] == BackUp(out, dots);
      }
      dest[next] := tempChar;
      if tempChar == '.' {
        if dots == 0 && next > 0 && dest[next - 1] == '/' {
          dots := dots + 1;
        } else if dots > 0 && dest[next - 1] == '.' {
          dots := dots + 1;
        }
      } else {
        dots := 0;
      }
    } else {
      dest[next] := tempChar;
    }
    assert dest[..next + 1] == dest[..next] + [tempChar];
    next := next + 1;
  }

  /** `DecodeURL`: the length that is returned and the position that is written next
      stay in step through every back-up. */
  method DecodeURL(src: seq<Octet>, dest: array<Octet>, room: nat) returns (r: Result)
    requires room <= dest.Length
    modifies dest
    ensures r == Decode(src, room)
    ensures r.Ok? ==> |r.url| <= room && dest[..|r.url|] == r.url
  {
    if src == [] || src[0] != '/' {
      return Err(BadURLFormat);
    }
    var i, ioDest: nat, lengthWritten: nat, numDots: nat, inQuery := 0, 0, 0, 0, false;
    assert src[0..] == src;
    while i < |src|
      invariant 0 <= i <= |src| && lengthWritten == ioDest <= room && (numDots > 0 ==> numDots < ioDest)
      invariant DecodeFrom(src[i..], dest[..ioDest], numDots, inQuery, room) == Decode(src, room)
    {
      if lengthWritten == room {
        return Err(NotEnoughSpace);
      }
      if src[i] == '?' {
        inQuery := true;
      }
      var tempChar: Octet;
      ghost var rest := src[i..];
      if src[i] == '%' {
        if |src| - i < 3 || !IsHexDigit(src[i + 1]) || !IsHexDigit(src[i + 2]) {
          return Err(BadURLFormat);
        }
        tempChar := FromHex(src[i + 1], src[i + 2]);
        assert src[i + 3..] == rest[3..];
        i := i + 3;
      } else if src[i] == '\0' {
        return Err(BadURLFormat);
      } else {
        tempChar := src[i];
        assert src[i + 1..] == rest[1..];
        i := i + 1;
      }
      var next, dots := Write(dest, ioDest, numDots, inQuery, tempChar);
      lengthWritten := lengthWritten - (ioDest + 1 - next) + 1;
      ioDest, numDots := next, dots;
    }
    if numDots <= 2 {
      lengthWritten := lengthWritten - numDots;
    }
    r := Ok(dest[..lengthWritten]);
    assert src[i..] == [];
  }

  // ----------------------------------------------------------------- dot segments

  /** The characters strictly between `i` and `j` are dots. */
  predicate DotsOnly(s: seq<Octet>, i: int, j: int) {
    forall k :: i < k < j && 0 <= k < |s| ==> s[k] == '.'
  }

  /** "." or ".." between a '/' at `i` and position `j`. */
  predicate DotSegment(s: seq<Octet>, i: nat, j: nat)
    requires i < j <= |s|
  {
    s[i] == '/' && 2 <= j - i <= 3 && DotsOnly(s, i, j)
  }

  /** No segment between two '/' is "." or ".."; nor, if `last`, is the one after the
      last '/'. */
  ghost predicate NoDotSegments(s: seq<Octet>, last: bool) {
    forall i, j :: 0 <= i < j <= |s| && (if j < |s| then s[j] == '/' else last) ==> !DotSegment(s, i, j)
  }

  /** `dots` is the length of the last segment if that is all dots, and 0 if it is
      empty or has another character. */
  ghost predicate CountsDots(s: seq<Octet>, dots: nat) {
    if dots > 0 then dots < |s| && s[|s| - dots - 1] == '/' && DotsOnly(s, |s| - dots - 1, |s|)
    else forall i :: 0 <= i < |s| - 1 && s[i] == '/' ==> !DotsOnly(s, i, |s|)
  }

  /** What ends in dots that are counted as none or more than two does not end in a
      dot segment. */
  lemma NoDotSegmentAtEnd(s: seq<Octet>, dots: nat, i: nat)
    requires CountsDots(s, dots) && (dots == 0 || dots > 2) && i < |s|
    ensures !DotSegment(s, i, |s|)
  {
    if dots > 2 && i > |s| - dots - 1 {
      assert s[i] == '.';
    }
  }

  lemma PutCounts(out: seq<Octet>, dots: nat, c: Octet)
    requires CountsDots(out, dots) && (out == [] ==> c == '/')
    ensures CountsDots(Put(out, dots, false, c).0, Put(out, dots, false, c).1)
  {
    var (o, d) := Put(out, dots, false, c);
    if c == '.' {
      if dots == 0 && d == 0 {
        forall i | 0 <= i < |o| - 1 && o[i] == '/' ensures !DotsOnly(o, i, |o|) {
          assert !DotsOnly(out, i, |out|);
          var k :| i < k < |out| && out[k] != '.';
          assert o[k] != '.';
        }
      }
    } else {
      assert o[|o| - 1] != '.';
    }
  }

  lemma PutLeavesNoDots(out: seq<Octet>, dots: nat, c: Octet)
    requires CountsDots(out, dots) && NoDotSegments(out, false) && (out == [] ==> c == '/')
    requires out != [] ==> out[0] == '/'
    ensures var o := Put(out, dots, false, c).0; NoDotSegments(o, false) && o != [] && o[0] == '/'
  {
    var o := Put(out, dots, false, c).0;
    forall i, j | 0 <= i < j < |o| && o[j] == '/' ensures !DotSegment(o, i, j) {
      if j < |o| - 1 || (c == '/' && 0 < dots <= 2) {
        assert !DotSegment(out, i, j);
        assert forall k :: 0 <= k <= j ==> o[k] == out[k];
      } else {
        NoDotSegmentAtEnd(out, dots, i);
        assert forall k :: 0 <= k < j ==> o[k] == out[k];
      }
    }
  }

  lemma StripLeavesNoDots(out: seq<Octet>, dots: nat)
    requires CountsDots(out, dots) && NoDotSegments(out, false)
    ensures NoDotSegments(Strip(out, dots), true)
  {
    var s := Strip(out, dots);
    forall i, j | 0 <= i < j <= |s| && (j < |s| ==> s[j] == '/') ensures !DotSegment(s, i, j) {
      if j < |s| {
        assert !DotSegment(out, i, j);
      } else if 0 < dots <= 2 {
        assert s[|s| - 1] == '/';
      } else {
        NoDotSegmentAtEnd(out, dots, i);
      }
    }
  }

  lemma {:induction false} DecodeFromLeavesNoDots(src: seq<Octet>, out: seq<Octet>, dots: nat, room: nat)
    requires '?' !in src && CountsDots(out, dots) && NoDotSegments(out, false)
    requires if out == [] then src != [] && src[0] == '/' else out[0] == '/'
    requires DecodeFrom(src, out, dots, false, room).Ok?
    ensures NoDotSegments(DecodeFrom(src, out, dots, false, room).url, true)
    decreases |src|
  {
    if src == [] {
      StripLeavesNoDots(out, dots);
    } else {
      var c: Octet := if src[0] == '%' then FromHex(src[1], src[2]) else src[0];
      var (o, d) := Put(out, dots, false, c);
      PutCounts(out, dots, c);
      PutLeavesNoDots(out, dots, c);
      DecodeFromLeavesNoDots(if src[0] == '%' then src[3..] else src[1..], o, d, room);
    }
  }

  /** Whatever is decoded from a source without a raw '?', no path segment is "." or
      "..", even when dots or slashes were percent-encoded. */
  lemma DecodeLeavesNoDots(src: seq<Octet>, room: nat)
    requires '?' !in src && Decode(src, room).Ok?
    ensures NoDotSegments(Decode(src, room).url, true)
  {
    DecodeFromLeavesNoDots(src, [], 0, room);
  }

  // --------------------------------------------------------------------- encoding

  predicate MustEncode(c: Octet) {
    || c as int > 127
    || c in {' ', '\r', '\n', '\t', '<', '>', '#', '%', '{', '}', '|', '\\', '^', '~', '[', ']', '`', ';',
             '?', '@', '=', '&', '$', '"'}
  }

  /** `%%%X`: one digit and a terminator for a character below 16, else two digits. */
  function EncodeChar(c: Octet): (e: seq<Octet>)
    ensures |e| == if MustEncode(c) then 3 else 1
  {
    if !MustEncode(c) then [c]
    else if c as int < 16 then ['%', HexDigit(c as int), '\0']
    else ['%', HexDigit(c as int / 16), HexDigit(c as int % 16)]
  }

  function EncodeAll(s: seq<Octet>): seq<Octet> {
    if s == [] then [] else EncodeChar(s[0]) + EncodeAll(s[1..])
  }

  lemma {:induction false} EncodeConcat(a: seq<Octet>, b: seq<Octet>)
    ensures EncodeAll(a + b) == EncodeAll(a) + EncodeAll(b)
  {
    if a == [] {
      assert a + b == b;
    } else {
      EncodeConcat(a[1..], b);
      assert (a + b)[1..] == a[1..] + b;
      Associates(EncodeChar(a[0]), EncodeAll(a[1..]), EncodeAll(b));
    }
  }

  lemma {:induction false} EncodeGrows(a: seq<Octet>, n: nat)
    requires n <= |a|
    ensures |EncodeAll(a[..n])| <= |EncodeAll(a)|
  {
    EncodeConcat(a[..n], a[n..]);
    assert a[..n] + a[n..] == a;
  }

  /** The encoding of the first `n` characters fills the room, and the last of them
      took three characters: `sprintf` puts its terminator behind the room. */
  predicate Overruns(src: seq<Octet>, n: nat, room: nat) {
    0 < n <= |src| && MustEncode(src[n - 1]) && src[n - 1] as int >= 16 && |EncodeAll(src[..n])| == room
  }

  /** Some overrun is among the first `i` characters. */
  ghost predicate Overrun(src: seq<Octet>, i: nat, room: nat) {
    exists n: nat :: n <= i && Overruns(src, n, room)
  }

  lemma OverrunGrows(src: seq<Octet>, i: nat, room: nat)
    ensures Overrun(src, i + 1, room) <==> Overrun(src, i, room) || Overruns(src, i + 1, room)
  {
  }

  lemma OverrunEnds(src: seq<Octet>, i: nat, room: nat)
    requires i == |src| || forall n: nat :: n > i ==> !Overruns(src, n, room)
    ensures Overrun(src, i, room) <==> exists n: nat :: Overruns(src, n, room)
  {
  }

  /** `EncodeURL` for a buffer of `room` characters at the start of `dest`; what is in
      `dest` behind the room belongs to somebody else.  `overrun` says whether the
      character behind the room is overwritten with a terminator; nothing else is. */
  method EncodeURL(src: seq<Octet>, dest: array<Octet>, room: nat) returns (r: Result, overrun: bool)
    requires room <= dest.Length
    modifies dest
    ensures r == if |EncodeAll(src)| <= room then Ok(EncodeAll(src)) else Err(NotEnoughSpace)
    ensures r.Ok? ==> dest[..|r.url|] == r.url
    ensures overrun <==> exists n: nat :: Overruns(src, n, room)
    ensures forall k :: room <= k < dest.Length ==> dest[k] == if overrun && k == room then '\0' else old(dest[k])
  {
    var i, written: nat := 0, 0;
    overrun := false;
    while i < |src|
      invariant 0 <= i <= |src| && written <= room && dest[..written] == EncodeAll(src[..i])
      invariant overrun <==> Overrun(src, i, room)
      invariant forall k :: room <= k < dest.Length ==> dest[k] == if overrun && k == room then '\0' else old(dest[k])
    {
      NextEncoded(src, i);
      OverrunGrows(src, i, room);
      LongerOverruns(src, i, room);
      if room - written < |EncodeChar(src[i])| {
        OverrunEnds(src, i, room);
        return Err(NotEnoughSpace), overrun;
      }
      var n, over := WriteEncoded(dest, written, room, src[i]);
      assert dest[..written + n] == dest[..written] + EncodeChar(src[i]);
      overrun := overrun || over;
      written, i := written + n, i + 1;
    }
    assert src[..i] == src;
    OverrunEnds(src, i, room);
    r := Ok(dest[..written]);
  }

  /** One character; the first digit of two is followed by the second, and the last by
      a terminator. */
  method WriteEncoded(dest: array<Octet>, written: nat, room: nat, c: Octet) returns (n: nat, overrun: bool)
    requires written + |EncodeChar(c)| <= room <= dest.Length
    modifies dest
    ensures n == |EncodeChar(c)| && dest[written..written + n] == EncodeChar(c)
    ensures forall k :: 0 <= k < written ==> dest[k] == old(dest[k])
    ensures overrun <==> MustEncode(c) && c as int >= 16 && written + n == room
    ensures forall k :: room <= k < dest.Length ==> dest[k] == if overrun && k == room then '\0' else old(dest[k])
  {
    var e := EncodeChar(c);
    n, overrun := |e|, false;
    dest[written] := e[0];
    if MustEncode(c) {
      dest[written + 1], dest[written + 2] := e[1], e[2];
      if c as int >= 16 {
        overrun := written + 3 == room;
        if written + 3 < dest.Length {
          dest[written + 3] := '\0';
        }
      }
    }
  }

  /** What the character `src[i]` adds to the overruns; when it does not fit, neither it
      nor any later one adds to them. */
  lemma LongerOverruns(src: seq<Octet>, i: nat, room: nat)
    requires i < |src|
    ensures Overruns(src, i + 1, room)
      <==> MustEncode(src[i]) && src[i] as int >= 16 && |EncodeAll(src[..i])| + 3 == room
    ensures |EncodeAll(src[..i])| + |EncodeChar(src[i])| > room ==>
      |EncodeAll(src)| > room && forall n: nat :: n > i ==> !Overruns(src, n, room)
  {
    NextEncoded(src, i);
    EncodeGrows(src, i + 1);
    if |EncodeAll(src[..i])| + |EncodeChar(src[i])| > room {
      forall n: nat | i < n <= |src| ensures |EncodeAll(src[..n])| > room {
        EncodeGrows(src[..n], i + 1);
        assert src[..n][..i + 1] == src[..i + 1];
      }
    }
  }

  /** The encoding of "/ " has four characters; in a buffer of four, the terminator goes
      behind it. */
  lemma SpaceOverruns()
    ensures EncodeAll("/ ") == "/%20" && Overruns("/ ", 2, 4)
  {
    assert "/ "[1..] == " " && " "[1..] == "" && "/ "[..2] == "/ ";
    assert EncodeAll(" ") == EncodeChar(' ') + EncodeAll("") == "%20";
  }

  lemma NextEncoded(src: seq<Octet>, i: nat)
    requires i < |src|
    ensures EncodeAll(src[..i + 1]) == EncodeAll(src[..i]) + EncodeChar(src[i])
  {
    assert src[..i + 1] == src[..i] + [src[i]];
    EncodeConcat(src[..i], [src[i]]);
    assert EncodeAll([src[i]]) == EncodeChar(src[i]);
  }

  // ------------------------------------------------------------------- round trip

  /** The characters that survive the encoder and the decoder. */
  predicate Survives(c: Octet) {
    c != '\0' && c != '\t' && c != '\r' && c != '\n'
  }

  lemma {:induction false} NoRawQuery(s: seq<Octet>)
    ensures '?' !in EncodeAll(s)
  {
    if s != [] {
      NoRawQuery(s[1..]);
      assert '?' !in EncodeChar(s[0]);
    }
  }

  lemma HexRoundTrip(c: Octet)
    requires c as int >= 16
    ensures FromHex(HexDigit(c as int / 16), HexDigit(c as int % 16)) == c
  {
    assert 16 * (c as int / 16) + c as int % 16 == c as int;
  }

  /** The decoder takes an encoded character as one character, or fails on it. */
  lemma DecodeStep(s: seq<Octet>, out: seq<Octet>, dots: nat, room: nat)
    requires s != [] && |out| != room
    ensures var (o, d) := Put(out, dots, false, s[0]);
      DecodeFrom(EncodeAll(s), out, dots, false, room)
        == if Survives(s[0]) then DecodeFrom(EncodeAll(s[1..]), o, d, false, room) else Err(BadURLFormat)
  {
    var c, src, rest := s[0], EncodeAll(s), EncodeAll(s[1..]);
    if !MustEncode(c) {
      assert src[1..] == rest;
    } else if c as int >= 16 {
      HexRoundTrip(c);
      assert src[3..] == rest;
    } else {
      assert src[2] == '\0';
    }
  }

  lemma {:induction false} OnlySurvivors(s: seq<Octet>, out: seq<Octet>, dots: nat, room: nat)
    requires DecodeFrom(EncodeAll(s), out, dots, false, room).Ok?
    ensures forall i :: 0 <= i < |s| ==> Survives(s[i])
    decreases |s|
  {
    if s != [] {
      assert |out| != room by {
        assert EncodeAll(s) != [];
      }
      DecodeStep(s, out, dots, room);
      var (o, d) := Put(out, dots, false, s[0]);
      OnlySurvivors(s[1..], o, d, room);
    }
  }

  /** Nothing is backed up or dropped when there is no dot segment. */
  lemma {:induction false} DecodeEncoded(s: seq<Octet>, out: seq<Octet>, dots: nat, room: nat)
    requires forall i :: 0 <= i < |s| ==> Survives(s[i])
    requires CountsDots(out, dots) && NoDotSegments(out + s, true) && |out| + |s| <= room
    requires out == [] ==> s != [] && s[0] == '/'
    ensures DecodeFrom(EncodeAll(s), out, dots, false, room) == Ok(out + s)
    decreases |s|
  {
    if 0 < dots <= 2 && (s == [] || s[0] == '/') {
      assert DotSegment(out + s, |out| - dots - 1, |out|);
      assert false;
    } else if s == [] {
      assert out + s == out;
    } else {
      DecodeStep(s, out, dots, room);
      PutCounts(out, dots, s[0]);
      assert (out + [s[0]]) + s[1..] == out + s;
      DecodeEncoded(s[1..], out + [s[0]], Put(out, dots, false, s[0]).1, room);
    }
  }

  /** A tab is encoded as one digit and a terminator, which the decoder refuses. */
  lemma TabIsLost(room: nat)
    requires room >= 2
    ensures Decode(EncodeAll("/\t"), room) == Err(BadURLFormat)
  {
    var s: seq<Octet> := "/\t";
    assert s[1..] == "\t" && EncodeAll(s)[0] == '/';
    DecodeStep(s, [], 0, room);
    DecodeStep(s[1..], ['/'], 0, room);
  }

  /** Decoding undoes encoding exactly for the sources that start with '/', have no
      NUL, tab, CR or LF and no "." or ".." segment (given room for the result). */
  lemma RoundTripIff(s: seq<Octet>, room: nat)
    requires |s| <= room
    ensures Decode(EncodeAll(s), room) == Ok(s)
      <==> s != [] && s[0] == '/' && (forall i :: 0 <= i < |s| ==> Survives(s[i])) && NoDotSegments(s, true)
  {
    var src := EncodeAll(s);
    if Decode(src, room) == Ok(s) {
      NoRawQuery(s);
      DecodeLeavesNoDots(src, room);
      OnlySurvivors(s, [], 0, room);
      assert s != [] && src[0] == if MustEncode(s[0]) then '%' else s[0];
    }
    if s != [] && s[0] == '/' && (forall i :: 0 <= i < |s| ==> Survives(s[i])) && NoDotSegments(s, true) {
      assert [] + s == s;
      DecodeEncoded(s, [], 0, room);
    }
  }
}
