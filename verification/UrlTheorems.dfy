/** What the URL decoder and encoder of module UrlTranslator mean, in terms of path
    segments and of the characters that a URL may have. */
module UrlTheorems {
  import opened MachineTypes
  import opened SeqFacts
  import opened UrlTranslator

  // ------------------------------------------------------------------ hex digits

  const DIGITS: seq<char> := "0123456789ABCDEF"

  /** The digits, and that a small letter means what the capital one does. */
  lemma HexTable(c: char)
    requires IsHexDigit(c)
    ensures DIGITS[HexValue(c)] == if 'a' <= c <= 'f' then (c as int - 32) as char else c
    ensures HexDigit(HexValue(c)) == DIGITS[HexValue(c)]
  {
  }

  // ------------------------------------------------------------ what decoding means

  function Prepend(c: Octet, r: Result): Result {
    if r.Ok? then Ok([c] + r.url) else r
  }

  /** The source with each `%` and its two digits replaced by the character that they
      stand for. */
  function Unescape(src: seq<Octet>): Result
    decreases |src|
  {
    if src == [] then Ok([])
    else if src[0] == '%' then
      if |src| < 3 || !IsHexDigit(src[1]) || !IsHexDigit(src[2]) then Err(BadURLFormat)
      else Prepend(FromHex(src[1], src[2]), Unescape(src[3..]))
    else if src[0] == '\0' then Err(BadURLFormat)
    else Prepend(src[0], Unescape(src[1..]))
  }

  /** The parts of a text between its slashes. */
  function Segments(t: seq<Octet>): (ss: seq<seq<Octet>>)
    ensures ss != []
  {
    if t == [] then [[]]
    else
      var n := |t| - 1;
      var ss := Segments(t[..n]);
      if t[n] == '/' then ss + [[]] else ss[..|ss| - 1] + [ss[|ss| - 1] + [t[n]]]
  }

  /** The segments with a slash after each but the last. */
  function Join(ss: seq<seq<Octet>>): seq<Octet> {
    if ss == [] then [] else if |ss| == 1 then ss[0] else Join(ss[..|ss| - 1]) + ['/'] + ss[|ss| - 1]
  }

  /** Splitting a text and joining it again gives the text, and no segment has a slash. */
  lemma {:induction false} SegmentsSplit(t: seq<Octet>)
    ensures Join(Segments(t)) == t && forall i :: 0 <= i < |Segments(t)| ==> '/' !in Segments(t)[i]
  {
    if t != [] {
      var n := |t| - 1;
      var ss := Segments(t[..n]);
      SegmentsSplit(t[..n]);
      assert t == t[..n] + [t[n]];
      if t[n] == '/' {
        assert (ss + [[]])[..|ss|] == ss;
      } else {
        var m := |ss| - 1;
        var r := ss[..m] + [ss[m] + [t[n]]];
        assert r[..m] == ss[..m];
        if m > 0 {
          Associates(Join(ss[..m]) + ['/'], ss[m], [t[n]]);
        }
      }
    }
  }

  predicate Dot(seg: seq<Octet>) {
    seg == ['.'] || seg == ['.', '.']
  }

  /** The segments that are not "." or "..", each with a slash after it. */
  function Kept(ss: seq<seq<Octet>>): seq<Octet> {
    if ss == [] then []
    else Kept(ss[..|ss| - 1]) + if Dot(ss[|ss| - 1]) then [] else ss[|ss| - 1] + ['/']
  }

  function Last(t: seq<Octet>): seq<Octet> {
    Segments(t)[|Segments(t)| - 1]
  }

  function Folders(t: seq<Octet>): seq<Octet> {
    Kept(Segments(t)[..|Segments(t)| - 1])
  }

  /** The path without its segments "." and "..". */
  function Clean(t: seq<Octet>): seq<Octet> {
    Folders(t) + if Dot(Last(t)) then [] else Last(t)
  }

  predicate AllDots(seg: seq<Octet>) {
    forall i :: 0 <= i < |seg| ==> seg[i] == '.'
  }

  /** The decoder has read text `p`: its output, with the last segment as it is, and the
      length of that if it is all dots. */
  ghost predicate HasRead(p: seq<Octet>, out: seq<Octet>, dots: nat) {
    out == Folders(p) + Last(p) && dots == if AllDots(Last(p)) then |Last(p)| else 0
  }

  lemma SegmentsGrow(p: seq<Octet>, c: Octet)
    ensures c == '/' ==> Last(p + [c]) == [] && Folders(p + [c]) == Folders(p) + if Dot(Last(p)) then [] else Last(p) + ['/']
    ensures c != '/' ==> Last(p + [c]) == Last(p) + [c] && Folders(p + [c]) == Folders(p)
  {
    var t, ss := p + [c], Segments(p);
    var m := |ss| - 1;
    assert t[..|t| - 1] == p;
    if c == '/' {
      assert Segments(t) == ss + [[]] && (ss + [[]])[..m + 1] == ss;
    } else {
      var r := ss[..m] + [ss[m] + [c]];
      assert Segments(t) == r && r[..m] == ss[..m];
    }
  }

  lemma NoText()
    ensures Folders([]) == [] && Last([]) == [] && !Dot([])
  {
    var ss: seq<seq<Octet>> := Segments([]);
    assert ss[..0] == [];
  }

  /** A text that starts with a slash has folders, and they end with one. */
  lemma {:induction false} FoldersEnd(p: seq<Octet>)
    requires p != [] && p[0] == '/'
    ensures Folders(p) != [] && Folders(p)[|Folders(p)| - 1] == '/'
  {
    var n := |p| - 1;
    assert p == p[..n] + [p[n]];
    SegmentsGrow(p[..n], p[n]);
    if n > 0 {
      FoldersEnd(p[..n]);
    } else {
      assert p[..0] == [];
      NoText();
    }
  }

  lemma {:induction false} LastHasNoSlash(p: seq<Octet>)
    ensures '/' !in Last(p)
  {
    SegmentsSplit(p);
  }

  /** One more character. */
  lemma ReadsOn(p: seq<Octet>, out: seq<Octet>, dots: nat, c: Octet)
    requires HasRead(p, out, dots) && if p == [] then c == '/' else p[0] == '/'
    ensures HasRead(p + [c], Put(out, dots, false, c).0, Put(out, dots, false, c).1)
  {
    SegmentsGrow(p, c);
    LastHasNoSlash(p);
    var f, seg := Folders(p), Last(p);
    if p != [] {
      FoldersEnd(p);
    } else {
      NoText();
    }
    if c == '/' {
      SlashRead(f, seg, out, dots);
    } else if c == '.' {
      DotRead(f, seg, out, dots);
    } else {
      assert (seg + [c])[|seg|] == c && !AllDots(seg + [c]);
      Associates(f, seg, [c]);
    }
  }

  lemma SlashRead(f: seq<Octet>, seg: seq<Octet>, out: seq<Octet>, dots: nat)
    requires out == f + seg && dots == if AllDots(seg) then |seg| else 0
    requires if f == [] then seg == [] else f[|f| - 1] == '/'
    ensures Put(out, dots, false, '/') == (f + if Dot(seg) then [] else seg + ['/'], 0)
  {
    DotsOfTwo(seg);
    if Dot(seg) {
      assert BackUp(out, dots) == f[..|f| - 1] && f == f[..|f| - 1] + ['/'];
      assert f + [] == f;
    } else {
      Associates(f, seg, ['/']);
    }
  }

  lemma DotsOfTwo(seg: seq<Octet>)
    ensures Dot(seg) <==> AllDots(seg) && 0 < |seg| <= 2
  {
    if AllDots(seg) && 0 < |seg| <= 2 {
      assert seg == if |seg| == 1 then ['.'] else ['.', '.'];
    }
  }

  lemma DotRead(f: seq<Octet>, seg: seq<Octet>, out: seq<Octet>, dots: nat)
    requires out == f + seg && (dots == if AllDots(seg) then |seg| else 0) && '/' !in seg
    requires f != [] && f[|f| - 1] == '/'
    ensures Put(out, dots, false, '.') == (f + (seg + ['.']), if AllDots(seg + ['.']) then |seg| + 1 else 0)
  {
    Associates(f, seg, ['.']);
    assert AllDots(seg + ['.']) <==> AllDots(seg) by {
      if AllDots(seg + ['.']) {
        assert forall i :: 0 <= i < |seg| ==> seg[i] == (seg + ['.'])[i];
      }
    }
    if seg != [] {
      assert out[|out| - 1] == seg[|seg| - 1];
    } else {
      assert out[|out| - 1] == f[|f| - 1];
    }
  }

  // ------------------------------------------------------------------- whole paths

  lemma DecodesOne(src: seq<Octet>, rest: seq<Octet>, out: seq<Octet>, dots: nat, room: nat)
    requires src != [] && src[0] != '?' && Unescape(src).Ok? && |out| < room
    ensures var n := if src[0] == '%' then 3 else 1;
      var (o, d) := Put(out, dots, false, if src[0] == '%' then FromHex(src[1], src[2]) else src[0]);
      DecodeFrom(src + rest, out, dots, false, room) == DecodeFrom(src[n..] + rest, o, d, false, room)
  {
    var n := if src[0] == '%' then 3 else 1;
    assert (src + rest)[n..] == src[n..] + rest;
    assert forall i :: 0 <= i < n ==> (src + rest)[i] == src[i];
  }

  /** The decoder gets through a part of the source without a raw '?': what it has read
      then is longer by that part, unescaped. */
  lemma {:induction false} ReadsPath(src: seq<Octet>, rest: seq<Octet>, p: seq<Octet>, out: seq<Octet>, dots: nat, room: nat)
      returns (out': seq<Octet>, dots': nat)
    requires '?' !in src && Unescape(src).Ok? && |out| + |src| <= room
    requires HasRead(p, out, dots) && if p == [] then src != [] && Unescape(src).url[0] == '/' else p[0] == '/'
    ensures HasRead(p + Unescape(src).url, out', dots') && |out'| <= |out| + |src|
    ensures DecodeFrom(src + rest, out, dots, false, room) == DecodeFrom(rest, out', dots', false, room)
    decreases |src|
  {
    if src == [] {
      assert src + rest == rest && p + [] == p;
      out', dots' := out, dots;
    } else {
      var n := if src[0] == '%' then 3 else 1;
      var c: Octet := if src[0] == '%' then FromHex(src[1], src[2]) else src[0];
      var (o, d) := Put(out, dots, false, c);
      ReadsOn(p, out, dots, c);
      DecodesOne(src, rest, out, dots, room);
      out', dots' := ReadsPath(src[n..], rest, p + [c], o, d, room);
      Associates(p, [c], Unescape(src[n..]).url);
    }
  }

  /** A malformed source is refused. */
  lemma {:induction false} RefusesPath(src: seq<Octet>, out: seq<Octet>, dots: nat, query: bool, room: nat)
    requires Unescape(src).Err? && |out| + |src| <= room
    ensures DecodeFrom(src, out, dots, query, room) == Err(BadURLFormat) && Unescape(src).error == BadURLFormat
    decreases |src|
  {
    if !(src[0] == '\0' || (src[0] == '%' && (|src| < 3 || !IsHexDigit(src[1]) || !IsHexDigit(src[2])))) {
      var n := if src[0] == '%' then 3 else 1;
      var c: Octet := if src[0] == '%' then FromHex(src[1], src[2]) else src[0];
      var (o, d) := Put(out, dots, query || src[0] == '?', c);
      RefusesPath(src[n..], o, d, query || src[0] == '?', room);
    }
  }

  lemma StripsLast(p: seq<Octet>, out: seq<Octet>, dots: nat)
    requires HasRead(p, out, dots)
    ensures Strip(out, dots) == Clean(p)
  {
    DotsOfTwo(Last(p));
    if Dot(Last(p)) {
      assert out[..|out| - dots] == Folders(p);
    }
  }

  /** What `DecodeURL` does with a source without a raw '?', in a buffer of its length: one
      that does not start with '/' or is malformed is refused; from any other the segments
      "." and ".." are dropped, after unescaping. */
  lemma DecodeMeans(src: seq<Octet>, room: nat)
    requires '?' !in src && |src| <= room
    ensures Decode(src, room) == if src == [] || src[0] != '/' then Err(BadURLFormat)
      else var t := Unescape(src); if t.Ok? then Ok(Clean(t.url)) else t
  {
    if src != [] && src[0] == '/' {
      NoText();
      if Unescape(src).Ok? {
        var out, dots := ReadsPath(src, [], [], [], 0, room);
        assert src + [] == src && [] + Unescape(src).url == Unescape(src).url;
        StripsLast(Unescape(src).url, out, dots);
      } else {
        RefusesPath(src, [], 0, false, room);
      }
    }
  }

  /** In a query nothing is dropped but at its end. */
  lemma {:induction false} ReadsQuery(src: seq<Octet>, out: seq<Octet>, dots: nat, room: nat)
    requires Unescape(src).Ok? && |out| + |src| <= room
    ensures DecodeFrom(src, out, dots, true, room) == Ok(Strip(out + Unescape(src).url, dots))
    decreases |src|
  {
    if src == [] {
      assert out + [] == out;
    } else {
      var n := if src[0] == '%' then 3 else 1;
      var c: Octet := if src[0] == '%' then FromHex(src[1], src[2]) else src[0];
      ReadsQuery(src[n..], out + [c], dots, room);
      Associates(out, [c], Unescape(src[n..]).url);
    }
  }

  /** The text with its last `n` characters cut off. */
  function Cut(t: seq<Octet>, n: nat): seq<Octet> {
    if n <= |t| then t[..|t| - n] else []
  }

  /** What it does with a path and a query: both are unescaped, and the segments "." and
      ".." before the last one of the path are dropped.  If the last one is such a segment
      it stays, and the end of the query is cut off instead. */
  lemma QueryMeans(path: seq<Octet>, query: seq<Octet>, room: nat)
    requires path != [] && path[0] == '/' && '?' !in path && |path| + 1 + |query| <= room
    requires Unescape(path).Ok? && Unescape(query).Ok?
    ensures var t := Unescape(path).url; var whole := Folders(t) + Last(t) + ['?'] + Unescape(query).url;
      Decode(path + (['?'] + query), room) == Ok(Cut(whole, if Dot(Last(t)) then |Last(t)| else 0))
  {
    var t := Unescape(path).url;
    NoText();
    var out, dots := ReadsPath(path, ['?'] + query, [], [], 0, room);
    assert [] + t == t;
    assert (path + (['?'] + query))[0] == '/';
    QuestionMark(query, out, dots, room);
    ReadsQuery(query, out + ['?'], dots, room);
    StripIsCut(t, out, dots, out + ['?'] + Unescape(query).url);
  }

  lemma QuestionMark(query: seq<Octet>, out: seq<Octet>, dots: nat, room: nat)
    requires |out| < room
    ensures DecodeFrom(['?'] + query, out, dots, false, room) == DecodeFrom(query, out + ['?'], dots, true, room)
  {
    assert (['?'] + query)[1..] == query;
  }

  lemma StripIsCut(t: seq<Octet>, out: seq<Octet>, dots: nat, whole: seq<Octet>)
    requires HasRead(t, out, dots) && |out| <= |whole|
    ensures Strip(whole, dots) == Cut(whole, if Dot(Last(t)) then |Last(t)| else 0)
  {
    DotsOfTwo(Last(t));
  }

  /** A source without escapes stands for itself. */
  lemma {:induction false} NothingToUnescape(src: seq<Octet>)
    requires '%' !in src && '\0' !in src
    ensures Unescape(src) == Ok(src)
    decreases |src|
  {
    if src != [] {
      NothingToUnescape(src[1..]);
    }
  }

  /** A query stays whole exactly if the path before it does not end in "." or "..". */
  lemma QueryIsWholeIff(path: seq<Octet>, query: seq<Octet>, room: nat)
    requires path != [] && path[0] == '/' && '?' !in path && |path| + 1 + |query| <= room
    requires Unescape(path).Ok? && Unescape(query).Ok?
    ensures var t := Unescape(path).url;
      Decode(path + (['?'] + query), room) == Ok(Clean(t) + ['?'] + Unescape(query).url) <==> !Dot(Last(t))
  {
    QueryMeans(path, query, room);
    var t, q := Unescape(path).url, Unescape(query).url;
    if Dot(Last(t)) {
      assert Clean(t) == Folders(t);
      var whole := Folders(t) + Last(t) + ['?'] + q;
      var cut := Cut(whole, |Last(t)|);
      assert |Folders(t)| < |cut| && cut[|Folders(t)|] == whole[|Folders(t)|] == '.';
      assert (Folders(t) + ['?'] + q)[|Folders(t)|] == '?';
    }
  }

  lemma OneSlash()
    ensures Folders(['/']) == ['/'] && Last(['/']) == []
  {
    NoText();
    SegmentsGrow([], '/');
    assert [] + ['/'] == ['/'];
  }

  lemma OneDot()
    ensures Folders(['/', '.']) == ['/'] && Last(['/', '.']) == ['.']
  {
    OneSlash();
    SegmentsGrow(['/'], '.');
    assert ['/'] + ['.'] == ['/', '.'];
  }

  lemma TwoDots()
    ensures Folders(['/', '.', '.']) == ['/'] && Last(['/', '.', '.']) == ['.', '.']
  {
    OneDot();
    SegmentsGrow(['/', '.'], '.');
    assert ['/', '.'] + ['.'] == ['/', '.', '.'];
  }

  /** An input for which it does not: of "/..?xy", "/..?" is left. */
  lemma QueryIsCut()
    ensures Decode(['/', '.', '.'] + (['?'] + ['x', 'y']), 6) == Ok(['/', '.', '.', '?'])
  {
    NothingToUnescape(['/', '.', '.']);
    NothingToUnescape(['x', 'y']);
    TwoDots();
    QueryMeans(['/', '.', '.'], ['x', 'y'], 6);
    TwoCut();
  }

  lemma TwoCut()
    ensures Cut(['/'] + ['.', '.'] + ['?'] + ['x', 'y'], 2) == ['/', '.', '.', '?']
  {
    assert ['/'] + ['.', '.'] + ['?'] + ['x', 'y'] == ['/', '.', '.', '?', 'x', 'y'];
  }

  lemma {:induction false} AcceptsPath(src: seq<Octet>, out: seq<Octet>, dots: nat, query: bool, room: nat)
    requires Unescape(src).Ok? && |out| + |src| <= room
    ensures DecodeFrom(src, out, dots, query, room).Ok?
    decreases |src|
  {
    if src != [] {
      var n := if src[0] == '%' then 3 else 1;
      var c: Octet := if src[0] == '%' then FromHex(src[1], src[2]) else src[0];
      var (o, d) := Put(out, dots, query || src[0] == '?', c);
      AcceptsPath(src[n..], o, d, query || src[0] == '?', room);
    }
  }

  /** With a buffer of its length a source, with or without a query, is refused if and only
      if it does not start with '/' or has a malformed escape or a NUL. */
  lemma RefusedIff(src: seq<Octet>, room: nat)
    requires |src| <= room
    ensures Decode(src, room).Err? <==> src == [] || src[0] != '/' || Unescape(src).Err?
    ensures Decode(src, room).Err? ==> Decode(src, room) == Err(BadURLFormat)
  {
    if src != [] && src[0] == '/' {
      if Unescape(src).Ok? {
        AcceptsPath(src, [], 0, false, room);
      } else {
        RefusesPath(src, [], 0, false, room);
      }
    }
  }

  /** A smaller buffer is either enough or refused. */
  lemma {:induction false} RoomOnlyLimits(src: seq<Octet>, out: seq<Octet>, dots: nat, query: bool, room: nat, more: nat)
    requires |out| <= room <= more
    ensures DecodeFrom(src, out, dots, query, room) == DecodeFrom(src, out, dots, query, more)
      || DecodeFrom(src, out, dots, query, room) == Err(NotEnoughSpace)
    decreases |src|
  {
    if src != [] && |out| < room
      && !(src[0] == '\0' || (src[0] == '%' && (|src| < 3 || !IsHexDigit(src[1]) || !IsHexDigit(src[2]))))
    {
      var n := if src[0] == '%' then 3 else 1;
      var c: Octet := if src[0] == '%' then FromHex(src[1], src[2]) else src[0];
      var q := query || src[0] == '?';
      var (o, d) := Put(out, dots, q, c);
      RoomOnlyLimits(src[n..], o, d, q, room, more);
    }
  }

  // --------------------------------------------------------------------- encoding

  /** Besides letters and digits, the printable characters that a URL has as they are. */
  const PLAIN: seq<char> := "!'()*+,-./:_"

  predicate IsPlain(c: Octet) {
    'a' <= c <= 'z' || 'A' <= c <= 'Z' || '0' <= c <= '9' || c in PLAIN
  }

  /** Of the printable characters the encoder leaves exactly these, and the blank and every
      8-bit character are encoded. */
  lemma PlainIsLeft(c: Octet)
    ensures ' ' < c <= '~' ==> (MustEncode(c) <==> !IsPlain(c))
    ensures c == ' ' || c as int > 127 ==> MustEncode(c)
  {
  }
}
