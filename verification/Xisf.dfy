/** Reading an XISF header: entities, comments, attributes, and the walk over Image elements. */
module Xisf {
  import opened Options
  import opened Chars
  import opened Decimal
  import opened FitsText

  // ---- Searching ----

  predicate StartsAt(s: string, pattern: string) {
    pattern <= s
  }

  /** std::string::find, from the start. */
  function Index(s: string, pattern: string): (r: Option<nat>)
    ensures r.Some? ==> r.value + |pattern| <= |s| && pattern <= s[r.value..]
  {
    if pattern <= s then Some(0)
    else if s == "" then None
    else
      match Index(s[1..], pattern)
      case None => None
      case Some(i) => assert s[1..][i..] == s[i + 1..]; Some(i + 1)
  }

  /** std::string::find, from a position. */
  function Find(s: string, pattern: string, from: nat): (r: Option<nat>)
    requires from <= |s|
    ensures r.Some? ==> from <= r.value <= |s| - |pattern| && pattern <= s[r.value..]
  {
    match Index(s[from..], pattern)
    case None => None
    case Some(i) => assert s[from..][i..] == s[from + i..]; Some(from + i)
  }

  // ---- Entities ----

  /** The character an entity at the start of the text stands for, and its length. */
  function EntityAt(s: string): Option<(char, nat)> {
    if "&amp;" <= s then Some(('&', 5))
    else if "&lt;" <= s then Some(('<', 4))
    else if "&gt;" <= s then Some(('>', 4))
    else if "&quot;" <= s then Some(('\"', 6))
    else if "&apos;" <= s then Some(('\'', 6))
    else None
  }

  function Unescaped(s: string): string
    decreases |s|
  {
    if s == "" then ""
    else
      match EntityAt(s)
      case Some((c, n)) => [c] + Unescaped(s[n..])
      case None => [s[0]] + Unescaped(s[1..])
  }

  /** xml_unescape */
  method XmlUnescape(s: string) returns (out: string)
    ensures out == Unescaped(s)
  {
    hide EntityAt;
    out := "";
    var i := 0;
    assert s[0..] == s;
    while i < |s|
      invariant 0 <= i <= |s|
      invariant Unescaped(s) == out + Unescaped(s[i..])
    {
      EntityLength(s[i..]);
      match EntityAt(s[i..])
      case Some((c, n)) =>
        assert s[i..][n..] == s[i + n..];
        assert out + ([c] + Unescaped(s[i + n..])) == out + [c] + Unescaped(s[i + n..]);
        out := out + [c];
        i := i + n;
      case None =>
        assert s[i..][1..] == s[i + 1..];
        assert out + ([s[i]] + Unescaped(s[i + 1..])) == out + [s[i]] + Unescaped(s[i + 1..]);
        out := out + [s[i]];
        i := i + 1;
    }
    assert s[i..] == "" && out + "" == out;
  }

  lemma EntityLength(s: string)
    ensures EntityAt(s).Some? ==> 0 < EntityAt(s).value.1 <= |s|
  {
  }

  // ---- Comments ----

  predicate OpensComment(s: string) {
    "<!--" <= s
  }

  function WithoutComments(s: string): string
    decreases |s|
  {
    if s == "" then ""
    else if OpensComment(s) then
      match Index(s[4..], "-->")
      case None => ""
      case Some(e) => WithoutComments(s[4..][e + 3..])
    else [s[0]] + WithoutComments(s[1..])
  }

  /** Where the text goes on after a comment that opens at i; None when it is not closed. */
  function CommentEnd(s: string, i: nat): (r: Option<nat>)
    requires i + 4 <= |s|
    ensures r.Some? ==> i + 4 < r.value <= |s|
  {
    match Find(s, "-->", i + 4)
    case None => None
    case Some(e) => Some(e + 3)
  }

  lemma CommentOpened(t: string)
    requires OpensComment(t)
    ensures 4 <= |t|
    ensures var end := Index(t[4..], "-->"); WithoutComments(t) == if end.Some?
        then WithoutComments(t[4..][end.value + 3..]) else ""
  {
    hide Index;
  }

  lemma OpenLength(s: string, i: nat)
    requires i < |s| && OpensComment(s[i..])
    ensures i + 4 <= |s|
  {
  }

  lemma CommentSkipped(s: string, i: nat, end: Option<nat>)
    requires i + 4 <= |s| && OpensComment(s[i..]) && end == CommentEnd(s, i)
    ensures end.None? ==> WithoutComments(s[i..]) == ""
    ensures end.Some? ==> WithoutComments(s[i..]) == WithoutComments(s[end.value..])
  {
    CommentOpened(s[i..]);
    hide *;
    assert s[i..][4..] == s[i + 4..];
    Ends(s, i, end);
  }

  lemma Ends(s: string, i: nat, end: Option<nat>)
    requires i + 4 <= |s| && end == CommentEnd(s, i)
    ensures var e := Index(s[i + 4..], "-->");
            (e.None? <==> end.None?) && (e.Some? ==> s[i..][4..][e.value + 3..] == s[end.value..])
  {
    hide Index;
    assert s[i..][4..] == s[i + 4..];
  }

  lemma CharKept(s: string, i: nat)
    requires i < |s| && !OpensComment(s[i..])
    ensures WithoutComments(s[i..]) == [s[i]] + WithoutComments(s[i + 1..])
  {
    assert s[i..][1..] == s[i + 1..];
    hide OpensComment;
  }

  /** What is written so far, followed by the rest without its comments, is the result. */
  ghost predicate Progress(xml: string, i: nat, out: string)
    requires i <= |xml|
  {
    WithoutComments(xml) == out + WithoutComments(xml[i..])
  }

  lemma ProgressComment(xml: string, i: nat, out: string)
    requires i < |xml| && OpensComment(xml[i..]) && Progress(xml, i, out)
    ensures i + 4 <= |xml|
    ensures CommentEnd(xml, i).None? ==> out == WithoutComments(xml)
    ensures CommentEnd(xml, i).Some? ==> Progress(xml, CommentEnd(xml, i).value, out)
  {
    OpenLength(xml, i);
    hide WithoutComments, OpensComment, CommentEnd;
    CommentSkipped(xml, i, CommentEnd(xml, i));
    assert out + "" == out;
  }

  lemma ProgressChar(xml: string, i: nat, out: string)
    requires i < |xml| && !OpensComment(xml[i..]) && Progress(xml, i, out)
    ensures Progress(xml, i + 1, out + [xml[i]])
  {
    hide WithoutComments, OpensComment;
    CharKept(xml, i);
    assert out + ([xml[i]] + WithoutComments(xml[i + 1..])) == out + [xml[i]] + WithoutComments(xml[i + 1..]);
  }

  lemma ProgressEnds(xml: string, out: string)
    ensures Progress(xml, 0, "") && (Progress(xml, |xml|, out) ==> out == WithoutComments(xml))
  {
    NoText();
    hide WithoutComments;
    assert xml[0..] == xml && xml[|xml|..] == "" && out + "" == out
        && "" + WithoutComments(xml) == WithoutComments(xml);
  }

  /** strip_comments */
  method StripComments(xml: string) returns (out: string)
    ensures out == WithoutComments(xml)
  {
    hide *;
    out := "";
    var i := 0;
    ProgressEnds(xml, "");
    while i < |xml|
      invariant 0 <= i <= |xml| && Progress(xml, i, out)
    {
      if OpensComment(xml[i..]) {
        ProgressComment(xml, i, out);
        var end := CommentEnd(xml, i);
        if end.None? {
          return;
        }
        i := end.value;
      } else {
        ProgressChar(xml, i, out);
        out := out + [xml[i]];
        i := i + 1;
      }
    }
    ProgressEnds(xml, out);
  }

  lemma NoText()
    ensures WithoutComments("") == "" && Unescaped("") == ""
  {
  }

  // ---- Attributes ----

  function AfterSpaces(s: string, q: nat): (r: nat)
    requires q <= |s|
    ensures q <= r <= |s| && (forall i :: q <= i < r ==> IsSpace(s[i])) && (r < |s| ==> !IsSpace(s[r]))
    decreases |s| - q
  {
    if q < |s| && IsSpace(s[q]) then AfterSpaces(s, q + 1) else q
  }

  predicate WordBefore(s: string, p: nat)
    requires p <= |s|
  {
    p > 0 && (IsAlpha(s[p - 1]) || IsDigit(s[p - 1]) || s[p - 1] == '_' || s[p - 1] == '-' || s[p - 1] == ':')
  }

  /** A quoted value at v, its entities decoded. */
  function QuotedAt(elem: string, v: nat): Option<string>
    requires v <= |elem|
  {
    if v == |elem| || (elem[v] != '\"' && elem[v] != '\'') then None
    else
      match Find(elem, [elem[v]], v + 1)
      case None => None
      case Some(end) => Some(Unescaped(elem[v + 1..end]))
  }

  /** The value where the name stands at p, if an equals sign and a quoted value follow. */
  function ValueAt(elem: string, name: string, p: nat): Option<string>
    requires p + |name| <= |elem|
  {
    var q := AfterSpaces(elem, p + |name|);
    if WordBefore(elem, p) || q == |elem| || elem[q] != '=' then None else QuotedAt(elem, AfterSpaces(elem, q + 1))
  }

  /** The first place, from pos on, where the name has a value. */
  function AttrFrom(elem: string, name: string, pos: nat): Option<string>
    requires name != "" && pos <= |elem|
    decreases |elem| - pos
  {
    match Find(elem, name, pos)
    case None => None
    case Some(p) => if ValueAt(elem, name, p).Some? then ValueAt(elem, name, p) else AttrFrom(elem, name, p + |name|)
  }

  /** attr */
  method Attr(elem: string, name: string) returns (out: Option<string>)
    requires name != ""
    ensures out == AttrFrom(elem, name, 0)
  {
    hide ValueAt, Find;
    var pos := 0;
    while true
      invariant 0 <= pos <= |elem|
      invariant AttrFrom(elem, name, 0) == AttrFrom(elem, name, pos)
      decreases |elem| - pos
    {
      var found := Find(elem, name, pos);
      if found.None? {
        return None;
      }
      out := AttrAt(elem, name, found.value);
      if out.Some? {
        return;
      }
      pos := found.value + |name|;
    }
    assert false;
  }

  /** The body of attr's loop: the name stands at p. */
  method AttrAt(elem: string, name: string, p: nat) returns (out: Option<string>)
    requires p + |name| <= |elem|
    ensures out == ValueAt(elem, name, p)
  {
    hide AfterSpaces, Unescaped, Find;
    var leftOk := p == 0 || (!IsAlpha(elem[p - 1]) && !IsDigit(elem[p - 1]) && elem[p - 1] !in "_-:");
    var q := SkipSpaces(elem, p + |name|);
    if leftOk && q < |elem| && elem[q] == '=' {
      var v := SkipSpaces(elem, q + 1);
      if v < |elem| && (elem[v] == '\"' || elem[v] == '\'') {
        var end := Find(elem, [elem[v]], v + 1);
        if end.Some? {
          var value := XmlUnescape(elem[v + 1..end.value]);
          return Some(value);
        }
      }
    }
    out := None;
  }

  method SkipSpaces(s: string, from: nat) returns (q: nat)
    requires from <= |s|
    ensures q == AfterSpaces(s, from)
  {
    q := from;
    while q < |s| && IsSpace(s[q])
      invariant from <= q <= |s|
      invariant AfterSpaces(s, from) == AfterSpaces(s, q)
    {
      q := q + 1;
    }
  }

  // ---- Geometry ----

  /** The parts between the colons; nothing after a last colon. */
  function Parts(s: string): seq<string>
    decreases |s|
  {
    if s == "" then []
    else
      match Index(s, ":")
      case None => [s]
      case Some(c) => [s[..c]] + Parts(s[c + 1..])
  }

  /** std::stol, and 0 where it fails: leading blanks, a sign, digits. */
  function ToLong(s: string): int {
    if s != "" && IsSpace(s[0]) then ToLong(s[1..])
    else
      var signed := s != "" && (s[0] == '-' || s[0] == '+');
      var t := if signed then s[1..] else s;
      var v: int := FromDec(t[..DigitRun(t, 0)]);
      if signed && s[0] == '-' then -v else v
  }

  function Longs(parts: seq<string>): seq<int> {
    seq(|parts|, i requires 0 <= i < |parts| => ToLong(parts[i]))
  }

  function BitpixFor(format: string): int {
    match format
    case "UInt8" => 8
    case "UInt16" => 16
    case "UInt32" => 32
    case "UInt64" => 64
    case "Float32" => -32
    case "Complex32" => -32
    case "Float64" => -64
    case "Complex64" => -64
    case _ => 0
  }

  // ---- The walk ----

  datatype Card = Card(keyword: string, value: string, comment: string)

  datatype Hdu = Hdu(index: nat, naxis: int, naxis1: int, naxis2: int, bitpix: int, cards: seq<Card>)

  function AxisCount(dims: seq<int>): int {
    if |dims| >= 3 && dims[|dims| - 1] > 1 then 3 else 2
  }

  function IntText(n: int): string {
    if n < 0 then "-" + ToDec(-n) else ToDec(n)
  }

  function AxisCards(naxis: int, naxis1: int, naxis2: int): seq<Card> {
    [Card("NAXIS", IntText(naxis), "number of axes (XISF)"),
     Card("NAXIS1", IntText(naxis1), "axis length (XISF geometry)"),
     Card("NAXIS2", IntText(naxis2), "axis length (XISF geometry)")]
  }

  /** The image of an opening tag, with the geometry cards a FITS file would have. */
  function Opened(tag: string, index: nat): Hdu {
    var geometry := AttrFrom(tag, "geometry", 0);
    var dims := if geometry.Some? then Longs(Parts(geometry.value)) else [];
    var naxis := if geometry.Some? then AxisCount(dims) else 0;
    var naxis1 := if |dims| >= 1 then dims[0] else 0;
    var naxis2 := if |dims| >= 2 then dims[1] else 0;
    var format := AttrFrom(tag, "sampleFormat", 0);
    Hdu(index, naxis, naxis1, naxis2, if format.Some? then BitpixFor(format.value) else 0,
        AxisCards(naxis, naxis1, naxis2))
  }

  /** A keyword element's card, if it has a name. */
  function CardOf(elem: string): seq<Card> {
    var name := AttrFrom(elem, "name", 0).GetOr("");
    if name == "" then []
    else [Card(name, Stripped(AttrFrom(elem, "value", 0).GetOr("")), AttrFrom(elem, "comment", 0).GetOr(""))]
  }

  /** Where the next keyword element begins and where its tag is closed. */
  function NextCard(s: string): (r: Option<(nat, nat)>)
    ensures r.Some? ==> r.value.0 < r.value.1 <= |s|
  {
    match Index(s, "<FITSKeyword")
    case None => None
    case Some(k) =>
      match Index(s[k..], ">")
      case None => None
      case Some(e) => OpenBeforeClose(s[k..], "<FITSKeyword", e); Some((k, k + e))
  }

  /** The keyword elements of a text that begin before the scope ends. */
  function CardsIn(s: string, scope: int): seq<Card>
    decreases |s|
  {
    match NextCard(s)
    case None => []
    case Some((k, e)) => if k >= scope then [] else CardOf(s[k..e]) + CardsIn(s[e..], scope - e)
  }

  lemma OpenBeforeClose(t: string, pattern: string, e: nat)
    requires pattern != "" && pattern[0] == '<' && pattern <= t && e < |t| && ">" <= t[e..]
    ensures 0 < e
  {
    assert t[0] == '<' && t[e..][0] == '>';
  }

  /** An image's keywords end at its closing tag or at the next image, if there is one. */
  function ScopeOf(s: string): nat {
    var close := Index(s, "</Image>").GetOr(|s|);
    var next := Index(s, "<Image").GetOr(|s|);
    if next < close then next else close
  }

  /** Not the start of a longer tag name. */
  predicate TagEnds(s: string) {
    |s| <= 6 || IsSpace(s[6]) || s[6] == '>' || s[6] == '/'
  }

  function ImagesIn(s: string, index: nat): seq<Hdu>
    decreases |s|
  {
    match Index(s, "<Image")
    case None => []
    case Some(i) =>
      var t := s[i..];
      if !TagEnds(t) then ImagesIn(t[6..], index)
      else
        match Index(t, ">")
        case None => []
        case Some(e) =>
          assert t[0] == "<Image"[0] && t[e..][0] == ">"[0];
          var hdu := Opened(t[..e], index);
          [hdu.(cards := hdu.cards + CardsIn(t[e..], ScopeOf(t[e..])))] + ImagesIn(t[e..], index + 1)
  }

  datatype Result = Header(hdus: seq<Hdu>) | FitsError

  /** The element walk of read_xisf, over a header's text. */
  function ReadText(xml: string): Result {
    var hdus := ImagesIn(WithoutComments(xml), 0);
    if hdus == [] then FitsError else Header(hdus)
  }

  // ---- The loops of read_xisf ----

  method SplitGeometry(geometry: string) returns (dims: seq<int>)
    ensures dims == Longs(Parts(geometry))
  {
    hide Index, ToLong;
    dims := [];
    var s := 0;
    assert geometry[0..] == geometry;
    while s < |geometry|
      invariant 0 <= s <= |geometry|
      invariant Longs(Parts(geometry)) == dims + Longs(Parts(geometry[s..]))
    {
      var c := Find(geometry, ":", s);
      PartsStep(geometry, s);
      if c.None? {
        dims := dims + [ToLong(geometry[s..])];
        return;
      }
      dims := dims + [ToLong(geometry[s..c.value])];
      s := c.value + 1;
    }
  }

  lemma PartsStep(g: string, s: nat)
    requires s < |g|
    ensures var c := Find(g, ":", s);
            Longs(Parts(g[s..])) == if c.None? then [ToLong(g[s..])]
                else [ToLong(g[s..c.value])] + Longs(Parts(g[c.value + 1..]))
  {
    hide Index, ToLong;
    var c := Index(g[s..], ":");
    if c.Some? {
      assert g[s..][..c.value] == g[s..s + c.value];
      assert g[s..][c.value + 1..] == g[s + c.value + 1..];
    }
  }

  /** bitpix_for */
  method Bitpix(fmt: string) returns (bitpix: int)
    ensures bitpix == BitpixFor(fmt)
  {
    if fmt == "UInt8" { return 8; }
    if fmt == "UInt16" { return 16; }
    if fmt == "UInt32" { return 32; }
    if fmt == "UInt64" { return 64; }
    if fmt == "Float32" || fmt == "Complex32" { return -32; }
    if fmt == "Float64" || fmt == "Complex64" { return -64; }
    bitpix := 0;
  }

  /** A printed axis is read back, and has a sign if and only if it is negative. */
  lemma AxisReadBack(n: int)
    ensures ToLong(IntText(n)) == n && IntText(n) != "" && (IntText(n)[0] == '-' <==> n < 0)
  {
    var digits := ToDec(if n < 0 then -n else n);
    DecRoundTrip(if n < 0 then -n else n);
    AllRun(digits, 0);
    assert digits[..|digits|] == digits;
    assert !IsSpace('-') && IsDigit(digits[0]) && !IsSpace(digits[0]);
    if n < 0 {
      assert IntText(n)[1..] == digits;
    }
  }

  lemma {:induction false} AllRun(s: string, d: nat)
    requires AllDigits(s) && d <= |s|
    ensures DigitRun(s, d) == |s|
    decreases |s| - d
  {
    if d < |s| {
      AllRun(s, d + 1);
    }
  }

  method OpenTag(tag: string, index: nat) returns (hdu: Hdu)
    ensures hdu == Opened(tag, index)
  {
    hide AttrFrom, Parts, Longs, BitpixFor, IntText;
    hdu := Hdu(index, 0, 0, 0, 0, []);
    var geometry := Attr(tag, "geometry");
    if geometry.Some? {
      var dims := SplitGeometry(geometry.value);
      if |dims| >= 1 {
        hdu := hdu.(naxis1 := dims[0]);
      }
      if |dims| >= 2 {
        hdu := hdu.(naxis2 := dims[1]);
      }
      var channels := if |dims| == 0 then 0 else dims[|dims| - 1];
      hdu := hdu.(naxis := if |dims| >= 3 && channels > 1 then 3 else 2);
    }
    var format := Attr(tag, "sampleFormat");
    if format.Some? {
      var bitpix := Bitpix(format.value);
      hdu := hdu.(bitpix := bitpix);
    }
    var naxis := Card("NAXIS", IntText(hdu.naxis), "number of axes (XISF)");
    var naxis1 := Card("NAXIS1", IntText(hdu.naxis1), "axis length (XISF geometry)");
    var naxis2 := Card("NAXIS2", IntText(hdu.naxis2), "axis length (XISF geometry)");
    hdu := hdu.(cards := [naxis, naxis1, naxis2]);
  }

  method ReadCard(elem: string) returns (cards: seq<Card>)
    ensures cards == CardOf(elem)
  {
    hide AttrFrom, Stripped;
    cards := [];
    var name := Attr(elem, "name");
    var value := Attr(elem, "value");
    var comment := Attr(elem, "comment");
    if name.GetOr("") != "" {
      var v := StripFitsValue(value.GetOr(""));
      cards := [Card(name.value, v, comment.GetOr(""))];
    }
  }

  /** A part of a suffix, by its place in the whole. */
  lemma SliceOfSlice(s: string, from: nat, i: nat, e: nat)
    requires from + i + e <= |s|
    ensures s[from..][i..] == s[from + i..] && s[from..][i..][..e] == s[from + i..from + i + e]
        && s[from..][i..][e..] == s[from + i + e..]
  {
  }

  lemma NextCardIs(s: string, k: nat, e: nat)
    requires Index(s, "<FITSKeyword") == Some(k) && Index(s[k..], ">") == Some(e)
    ensures NextCard(s) == Some((k, k + e)) && 0 < e
  {
    hide Index;
    OpenBeforeClose(s[k..], "<FITSKeyword", e);
  }

  lemma CardsEnd(xml: string, k: nat, scopeEnd: int)
    requires k <= |xml|
    requires var found := Find(xml, "<FITSKeyword", k);
             found.None? || found.value >= scopeEnd || Find(xml, ">", found.value).None?
    ensures CardsIn(xml[k..], scopeEnd - k) == []
  {
    hide Index, CardOf;
    var i := Index(xml[k..], "<FITSKeyword");
    if i.Some? {
      SliceOfSlice(xml, k, i.value, 0);
    }
  }

  /** One keyword element, in the text from where the search begins. */
  lemma CardsHere(s: string, scope: int, k: nat, e: nat)
    requires NextCard(s) == Some((k, e)) && k < scope
    ensures CardsIn(s, scope) == CardOf(s[k..e]) + CardsIn(s[e..], scope - e)
  {
    hide NextCard, CardOf;
  }

  lemma FindIsIndex(s: string, pattern: string, from: nat, r: nat)
    requires from <= |s| && Find(s, pattern, from) == Some(r)
    ensures from <= r <= |s| && Index(s[from..], pattern) == Some(r - from)
  {
    hide Index;
  }

  lemma SliceTwice(s: string, from: nat, a: nat, b: nat)
    requires a <= b && from + b <= |s|
    ensures s[from..][a..b] == s[from + a..from + b] && s[from..][b..] == s[from + b..]
  {
  }

  lemma CardsNext(xml: string, k: nat, scopeEnd: int, found: nat, close: nat)
    requires k <= |xml| && Find(xml, "<FITSKeyword", k) == Some(found) && found < scopeEnd
        && Find(xml, ">", found) == Some(close)
    ensures found < close
    ensures CardsIn(xml[k..], scopeEnd - k) == CardOf(xml[found..close]) + CardsIn(xml[close..], scopeEnd - close)
  {
    hide *;
    FindIsIndex(xml, "<FITSKeyword", k, found);
    FindIsIndex(xml, ">", found, close);
    SliceOfSlice(xml, k, found - k, close - found);
    NextCardIs(xml[k..], found - k, close - found);
    CardsHere(xml[k..], scopeEnd - k, found - k, close - k);
    SliceTwice(xml, k, found - k, close - k);
  }

  method ReadCards(xml: string, from: nat, scopeEnd: int) returns (cards: seq<Card>)
    requires from <= |xml|
    ensures cards == CardsIn(xml[from..], scopeEnd - from)
  {
    hide Index, CardOf, CardsIn, Find;
    cards := [];
    var k := from;
    while true
      invariant from <= k <= |xml|
      invariant CardsIn(xml[from..], scopeEnd - from) == cards + CardsIn(xml[k..], scopeEnd - k)
      decreases |xml| - k
    {
      var found := Find(xml, "<FITSKeyword", k);
      if found.None? || found.value >= scopeEnd {
        CardsEnd(xml, k, scopeEnd);
        return;
      }
      var close := Find(xml, ">", found.value);
      if close.None? {
        CardsEnd(xml, k, scopeEnd);
        return;
      }
      CardsNext(xml, k, scopeEnd, found.value, close.value);
      var card := ReadCard(xml[found.value..close.value]);
      assert cards + (card + CardsIn(xml[close.value..], scopeEnd - close.value))
          == cards + card + CardsIn(xml[close.value..], scopeEnd - close.value);
      cards := cards + card;
      k := close.value;
    }
    assert false;
  }

  method ScopeEnd(xml: string, tagEnd: nat) returns (end: nat)
    requires tagEnd <= |xml|
    ensures end == tagEnd + ScopeOf(xml[tagEnd..])
  {
    hide Index;
    var close := Find(xml, "</Image>", tagEnd);
    var next := Find(xml, "<Image", tagEnd);
    end := |xml|;
    if close.Some? {
      end := close.value;
    }
    if next.Some? && next.value < end {
      end := next.value;
    }
  }

  lemma ImagesEnd(xml: string, pos: nat, index: nat)
    requires pos <= |xml|
    requires var found := Find(xml, "<Image", pos);
             found.None? || (TagEnds(xml[found.value..]) && Find(xml, ">", found.value).None?)
    ensures ImagesIn(xml[pos..], index) == []
  {
    hide Index, Opened, CardsIn, ScopeOf, TagEnds;
    var i := Index(xml[pos..], "<Image");
    if i.Some? {
      SliceOfSlice(xml, pos, i.value, 0);
    }
  }

  lemma ImagesSkip(xml: string, pos: nat, index: nat, found: nat)
    requires pos <= |xml| && Find(xml, "<Image", pos) == Some(found) && !TagEnds(xml[found..])
    ensures ImagesIn(xml[pos..], index) == ImagesIn(xml[found + 6..], index)
  {
    hide Index, Opened, CardsIn, ScopeOf, TagEnds;
    SliceOfSlice(xml, pos, found - pos, 6);
  }

  /** One image, in the text from where the search begins. */
  lemma ImagesHere(s: string, index: nat, i: nat, e: nat)
    requires Index(s, "<Image") == Some(i) && TagEnds(s[i..]) && Index(s[i..], ">") == Some(e)
    ensures 0 < e
    ensures var hdu, rest := Opened(s[i..][..e], index), s[i..][e..];
            ImagesIn(s, index) == [hdu.(cards := hdu.cards + CardsIn(rest, ScopeOf(rest)))] + ImagesIn(rest, index + 1)
  {
    hide Index, Opened, CardsIn, ScopeOf, TagEnds;
    OpenBeforeClose(s[i..], "<Image", e);
  }

  lemma ImagesNext(xml: string, pos: nat, index: nat, found: nat, close: nat)
    requires pos <= |xml| && Find(xml, "<Image", pos) == Some(found) && TagEnds(xml[found..])
        && Find(xml, ">", found) == Some(close)
    ensures found < close
    ensures var hdu, rest := Opened(xml[found..close], index), xml[close..];
            ImagesIn(xml[pos..], index) == [hdu.(cards := hdu.cards + CardsIn(rest, ScopeOf(rest)))] + ImagesIn(rest,
                index + 1)
  {
    hide *;
    FindIsIndex(xml, "<Image", pos, found);
    FindIsIndex(xml, ">", found, close);
    SliceOfSlice(xml, pos, found - pos, close - found);
    ImagesHere(xml[pos..], index, found - pos, close - found);
  }

  lemma FindInside(s: string, pattern: string)
    ensures forall from, r :: 0 <= from <= |s| && Find(s, pattern, from) == Some(r) ==> r <= |s|
  {
  }

  lemma TagGoesOn(xml: string, pos: nat)
    requires pos <= |xml|
    ensures var after := if pos + 6 < |xml| then xml[pos + 6] else '>';
            TagEnds(xml[pos..]) <==> !(!IsSpace(after) && after != '>' && after != '/')
  {
  }

  method ReadImages(xml: string) returns (hdus: seq<Hdu>)
    ensures hdus == ImagesIn(xml, 0)
  {
    FindInside(xml, "<Image");
    hide *;
    hdus := [];
    var pos := 0;
    assert xml[0..] == xml;
    while true
      invariant 0 <= pos <= |xml|
      invariant ImagesIn(xml, 0) == hdus + ImagesIn(xml[pos..], |hdus|)
      decreases |xml| - pos
    {
      var found := Find(xml, "<Image", pos);
      if found.None? {
        ImagesEnd(xml, pos, |hdus|);
        return;
      }
      var after := if found.value + 6 < |xml| then xml[found.value + 6] else '>';
      TagGoesOn(xml, found.value);
      if !IsSpace(after) && after != '>' && after != '/' {
        ImagesSkip(xml, pos, |hdus|, found.value);
        pos := found.value + 6;
      } else {
        var tagEnd := Find(xml, ">", found.value);
        if tagEnd.None? {
          ImagesEnd(xml, pos, |hdus|);
          return;
        }
        ImagesNext(xml, pos, |hdus|, found.value, tagEnd.value);
        var hdu := OpenTag(xml[found.value..tagEnd.value], |hdus|);
        var scopeEnd := ScopeEnd(xml, tagEnd.value);
        var cards := ReadCards(xml, tagEnd.value, scopeEnd);
        hdu := hdu.(cards := hdu.cards + cards);
        assert hdus + ([hdu] + ImagesIn(xml[tagEnd.value..], |hdus| + 1))
            == hdus + [hdu] + ImagesIn(xml[tagEnd.value..], |hdus| + 1);
        hdus := hdus + [hdu];
        pos := tagEnd.value;
      }
    }
    assert false;
  }

  method ReadXisf(xml: string) returns (r: Result)
    ensures r == ReadText(xml)
  {
    var text := StripComments(xml);
    var hdus := ReadImages(text);
    r := if hdus == [] then FitsError else Header(hdus);
  }
}
