/** The element walk over a printed header gives back the images and cards that were printed. */
module XisfWalk {
  import opened Options
  import opened Chars
  import opened Decimal
  import opened FitsText
  import opened Xisf
  import opened XisfRoundTrip

  // ---- Elements ----

  /** Opens with < and the character c, and has no other < or >. */
  ghost predicate Element(body: string, c: char) {
    |body| >= 2 && body[0] == '<' && body[1] == c && forall i :: 1 <= i < |body| ==> body[i] != '<' && body[i] != '>'
  }

  ghost predicate Inside(s: string) {
    forall i :: 0 <= i < |s| ==> s[i] != '<' && s[i] != '>'
  }

  lemma InsideConcat(a: string, b: string)
    requires Inside(a) && Inside(b)
    ensures Inside(a + b)
  {
  }

  lemma InsideTexts()
    ensures Inside("FITSKeyword name=\"") && Inside("\" value=\"") && Inside("\" comment=\"") && Inside("\"/")
    ensures Inside("Image geometry=\"") && Inside("\" sampleFormat=\"") && Inside("\"")
  {
  }

  lemma BareInside(s: string)
    requires Bare(s)
    ensures Inside(s)
  {
  }

  lemma OpensElement(tail: string, c: char)
    requires Inside(tail) && tail != "" && tail[0] == c
    ensures Element("<" + tail, c)
  {
  }

  function CardTail(k: Keyword): string {
    "FITSKeyword name=\"" + k.name + "\" value=\"" + Escaped(RawValue(k)) + "\" comment=\"" + Escaped(k.comment) + "\"/"
  }

  lemma CardTailIs(k: Keyword)
    ensures CardBody(k) == "<" + CardTail(k) && CardTail(k) != "" && CardTail(k)[0] == 'F'
  {
    hide Escaped, RawValue;
    assert "<FITSKeyword name=\"" == "<" + "FITSKeyword name=\"";
    assert CardTail(k)[0] == "FITSKeyword name=\""[0];
  }

  lemma CardElement(k: Keyword)
    requires IsName(k.name)
    ensures Element(CardBody(k), 'F')
  {
    EscapedBare(RawValue(k));
    EscapedBare(k.comment);
    BareInside(Escaped(RawValue(k)));
    BareInside(Escaped(k.comment));
    InsideTexts();
    CardTailIs(k);
    assert Inside(k.name);
    hide Escaped, RawValue, Inside, Element, CardBody, Bare;
    var a := "FITSKeyword name=\"" + k.name;
    InsideConcat("FITSKeyword name=\"", k.name);
    InsideConcat(a, "\" value=\"");
    InsideConcat(a + "\" value=\"", Escaped(RawValue(k)));
    var b := a + "\" value=\"" + Escaped(RawValue(k));
    InsideConcat(b, "\" comment=\"");
    InsideConcat(b + "\" comment=\"", Escaped(k.comment));
    InsideConcat(b + "\" comment=\"" + Escaped(k.comment), "\"/");
    OpensElement(CardTail(k), 'F');
  }

  lemma {:induction false} DimsInside(dims: seq<nat>)
    ensures Inside(PrintDims(dims)) && forall i :: 0 <= i < |PrintDims(dims)| ==>
        IsDigit(PrintDims(dims)[i]) || PrintDims(dims)[i] == ':'
  {
    if |dims| > 1 {
      DimsInside(dims[1..]);
    }
  }

  function TagTail(im: Image): string {
    "Image geometry=\"" + PrintDims(im.dims) + "\" sampleFormat=\"" + im.format + "\""
  }

  lemma TagTailIs(im: Image)
    ensures TagBody(im) == "<" + TagTail(im) && TagTail(im) != "" && TagTail(im)[0] == 'I'
  {
    hide PrintDims;
    assert "<Image geometry=\"" == "<" + "Image geometry=\"";
    assert TagTail(im)[0] == "Image geometry=\""[0];
  }

  lemma TagElement(im: Image)
    requires Printable(im)
    ensures Element(TagBody(im), 'I')
  {
    DimsInside(im.dims);
    InsideTexts();
    TagTailIs(im);
    assert Inside(im.format);
    hide PrintDims, Inside, Element, TagBody;
    var a := "Image geometry=\"" + PrintDims(im.dims);
    InsideConcat("Image geometry=\"", PrintDims(im.dims));
    InsideConcat(a, "\" sampleFormat=\"");
    InsideConcat(a + "\" sampleFormat=\"", im.format);
    InsideConcat(a + "\" sampleFormat=\"" + im.format, "\"");
    OpensElement(TagTail(im), 'I');
  }

  /** Searching for a tag that begins otherwise goes past an element and its closing bracket. */
  lemma PastElement(body: string, c: char, pattern: string, rest: string)
    requires Element(body, c) && |pattern| >= 2 && pattern[0] == '<' && pattern[1] != c
    ensures Index(body + ">" + rest, pattern) == Shift(Index(rest, pattern), |body| + 1)
  {
    hide *;
    ElementSkipped(body, c, pattern, ">" + rest);
    BracketSkipped(pattern, rest);
    Associate(body, ">", rest);
    ShiftTwice(Index(rest, pattern), 1, |body|);
  }

  lemma ElementSkipped(body: string, c: char, pattern: string, rest: string)
    requires Element(body, c) && |pattern| >= 2 && pattern[0] == '<' && pattern[1] != c
    ensures Index(body + rest, pattern) == Shift(Index(rest, pattern), |body|)
  {
    hide Index;
    SkipElement(body, pattern, rest);
  }

  lemma BracketSkipped(pattern: string, rest: string)
    requires |pattern| >= 2 && pattern[0] == '<'
    ensures Index(">" + rest, pattern) == Shift(Index(rest, pattern), 1)
  {
    hide Index;
    SkipPlain(">", pattern, rest);
  }

  lemma Associate(a: string, b: string, c: string)
    ensures a + b + c == a + (b + c)
  {
  }

  lemma ShiftTwice(r: Option<nat>, a: nat, b: nat)
    ensures Shift(Shift(r, a), b) == Shift(r, b + a)
  {
  }

  /** The closing bracket of an element. */
  lemma ClosedAt(body: string, c: char, rest: string)
    requires Element(body, c)
    ensures Index(body + ">" + rest, ">") == Some(|body|)
  {
    hide Index;
    SkipPlain(body, ">", ">" + rest);
    Here(">", rest);
    hide *;
    Associate(body, ">", rest);
    ShiftZero(|body|);
  }

  lemma ShiftZero(n: nat)
    ensures Shift(Some(0), n) == Some(n)
  {
  }

  lemma {:induction false} PastCards(ks: seq<Keyword>, pattern: string, rest: string)
    requires forall i :: 0 <= i < |ks| ==> IsName(ks[i].name)
    requires |pattern| >= 2 && pattern[0] == '<' && pattern[1] != 'F'
    ensures Index(PrintCards(ks) + rest, pattern) == Shift(Index(rest, pattern), |PrintCards(ks)|)
  {
    hide Index, CardBody;
    if ks == [] {
      assert PrintCards(ks) + rest == rest;
    } else {
      var more := PrintCards(ks[1..]);
      CardElement(ks[0]);
      PastCards(ks[1..], pattern, rest);
      PastElement(CardBody(ks[0]), 'F', pattern, more + rest);
      assert PrintCards(ks) + rest == CardBody(ks[0]) + ">" + (more + rest);
    }
  }

  // ---- The cards of an image ----

  const CLOSE := "</Image>"

  function Decoded(ks: seq<Keyword>): seq<Card> {
    seq(|ks|, i requires 0 <= i < |ks| => CardBack(ks[i]))
  }

  lemma CloseElement()
    ensures Element("</Image", '/') && CLOSE == "</Image" + ">"
  {
  }

  /** Past the closing tag of the image there is no card of it. */
  lemma NoCardsLeft(rest: string)
    ensures CardsIn(">" + (CLOSE + rest), 1) == []
  {
    hide Index, CardOf, CLOSE;
    CloseElement();
    var s := ">" + (CLOSE + rest);
    SkipPlain(">", "<FITSKeyword", CLOSE + rest);
    assert CLOSE + rest == "</Image" + ">" + rest;
    PastElement("</Image", '/', "<FITSKeyword", rest);
    assert Index(s, "<FITSKeyword") == Shift(Index(rest, "<FITSKeyword"), 9);
  }

  lemma {:induction false} CardsBack(ks: seq<Keyword>, rest: string)
    requires forall i :: 0 <= i < |ks| ==> IsName(ks[i].name)
    ensures CardsIn(">" + (PrintCards(ks) + (CLOSE + rest)), 1 + |PrintCards(ks)|) == Decoded(ks)
  {
    hide Index, CardsIn, CardOf, CardBody, CLOSE;
    if ks == [] {
      assert PrintCards(ks) + (CLOSE + rest) == CLOSE + rest;
      NoCardsLeft(rest);
    } else {
      var body := CardBody(ks[0]);
      var more := PrintCards(ks[1..]) + (CLOSE + rest);
      CardsBack(ks[1..], rest);
      CardsFirst(ks[0], more, 1 + |PrintCards(ks)|);
      assert PrintCards(ks) + (CLOSE + rest) == body + ">" + more;
      assert Decoded(ks) == [CardBack(ks[0])] + Decoded(ks[1..]);
    }
  }

  /** One card is read, and the walk goes on after its closing bracket. */
  lemma CardsFirst(k: Keyword, more: string, scope: int)
    requires IsName(k.name) && 1 < scope
    ensures CardsIn(">" + (CardBody(k) + ">" + more), scope)
         == [CardBack(k)] + CardsIn(">" + more, scope - 1 - |CardBody(k)|)
  {
    hide *;
    CardElement(k);
    CardRead(k);
    CardStarts(k);
    var body := CardBody(k);
    var s := ">" + (body + ">" + more);
    FoundCard(body, more);
    NextCardIs(s, 1, |body|);
    CardsHere(s, scope, 1, 1 + |body|);
    CardSlices(body, more);
  }

  lemma CardSlices(body: string, more: string)
    ensures var s := ">" + (body + ">" + more);
            1 + |body| <= |s| && s[1..1 + |body|] == body && s[1 + |body|..] == ">" + more
  {
  }

  lemma CardStarts(k: Keyword)
    ensures "<FITSKeyword" <= CardBody(k)
  {
    hide Escaped, RawValue;
    assert "<FITSKeyword name=\"" == "<FITSKeyword" + " name=\"";
    assert CardBody(k)[..12] == "<FITSKeyword";
  }

  lemma FoundCard(body: string, more: string)
    requires Element(body, 'F') && "<FITSKeyword" <= body
    ensures var s := ">" + (body + ">" + more);
            Index(s, "<FITSKeyword") == Some(1) && Index(s[1..], ">") == Some(|body|)
  {
    hide Index;
    var s := ">" + (body + ">" + more);
    var back := body[12..] + ">" + more;
    assert body == "<FITSKeyword" + body[12..];
    assert body + ">" + more == "<FITSKeyword" + back;
    SkipPlain(">", "<FITSKeyword", body + ">" + more);
    Here("<FITSKeyword", back);
    assert s[1..] == body + ">" + more;
    ClosedAt(body, 'F', more);
  }

  /** The scope of the cards ends at the closing tag, wherever the next image is. */
  lemma ScopeBack(ks: seq<Keyword>, rest: string)
    requires forall i :: 0 <= i < |ks| ==> IsName(ks[i].name)
    ensures ScopeOf(">" + (PrintCards(ks) + (CLOSE + rest))) == 1 + |PrintCards(ks)|
    ensures Index(">" + (PrintCards(ks) + (CLOSE + rest)), "<Image")
        == Shift(Index(rest, "<Image"), 9 + |PrintCards(ks)|)
  {
    hide *;
    CloseFound(ks, rest);
    ImageFound(ks, rest);
    var s := ">" + (PrintCards(ks) + (CLOSE + rest));
    ShiftMore(Index(rest, "<Image"), 9 + |PrintCards(ks)|);
    ScopeIs(s, 1 + |PrintCards(ks)|);
  }

  lemma ShiftMore(r: Option<nat>, n: nat)
    ensures Shift(r, n).Some? ==> Shift(r, n).value >= n
  {
  }

  lemma ScopeIs(s: string, close: nat)
    requires Index(s, "</Image>") == Some(close) && (Index(s, "<Image").Some? ==> Index(s, "<Image").value >= close)
    ensures ScopeOf(s) == close
  {
    hide Index;
  }

  lemma CloseFound(ks: seq<Keyword>, rest: string)
    requires forall i :: 0 <= i < |ks| ==> IsName(ks[i].name)
    ensures Index(">" + (PrintCards(ks) + (CLOSE + rest)), "</Image>") == Some(1 + |PrintCards(ks)|)
  {
    hide Index, CardBody, PrintCards;
    BracketSkipped("</Image>", PrintCards(ks) + (CLOSE + rest));
    PastCards(ks, "</Image>", CLOSE + rest);
    Here("</Image>", rest);
  }

  lemma ImageFound(ks: seq<Keyword>, rest: string)
    requires forall i :: 0 <= i < |ks| ==> IsName(ks[i].name)
    ensures Index(">" + (PrintCards(ks) + (CLOSE + rest)), "<Image")
        == Shift(Index(rest, "<Image"), 9 + |PrintCards(ks)|)
  {
    hide Index, CardBody, PrintCards, CLOSE;
    CloseElement();
    BracketSkipped("<Image", PrintCards(ks) + (CLOSE + rest));
    PastCards(ks, "<Image", CLOSE + rest);
    assert CLOSE + rest == "</Image" + ">" + rest;
    PastElement("</Image", '/', "<Image", rest);
  }

  // ---- The opening tag ----

  lemma {:induction false} DigitsOnly(s: string, rest: string, d: nat)
    requires AllDigits(s) && d <= |s| && (rest == "" || !IsDigit(rest[0]))
    ensures DigitRun(s + rest, d) == |s|
    decreases |s| - d
  {
    if d < |s| {
      DigitsOnly(s, rest, d + 1);
      assert (s + rest)[d] == s[d];
    } else {
      assert d < |s + rest| ==> (s + rest)[d] == rest[0];
    }
  }

  lemma LongBack(n: nat)
    ensures ToLong(ToDec(n)) == n
  {
    DigitsOnly(ToDec(n), "", 0);
    DecRoundTrip(n);
    assert ToDec(n) + "" == ToDec(n);
    assert IsDigit(ToDec(n)[0]);
    hide ToDec, FromDec, DigitRun;
    assert ToDec(n)[..|ToDec(n)|] == ToDec(n);
  }

  lemma {:induction false} GeometryBack(dims: seq<nat>)
    ensures Longs(Parts(PrintDims(dims))) == dims
  {
    hide Index, ToLong;
    if |dims| == 1 {
      OnePart(ToDec(dims[0]));
      LongBack(dims[0]);
      assert dims == [dims[0]];
    } else if dims != [] {
      GeometryBack(dims[1..]);
      FirstPart(ToDec(dims[0]), PrintDims(dims[1..]));
      LongBack(dims[0]);
      LongsMore(ToDec(dims[0]), Parts(PrintDims(dims[1..])));
      assert dims == [dims[0]] + dims[1..];
    }
  }

  lemma LongsMore(part: string, more: seq<string>)
    ensures Longs([part] + more) == [ToLong(part)] + Longs(more)
  {
    hide ToLong;
  }

  lemma OnePart(part: string)
    requires part != "" && AllDigits(part)
    ensures Parts(part) == [part]
  {
    SkipPlain(part, ":", "");
    assert part + "" == part;
    assert Index("", ":") == None;
    hide Index;
  }

  lemma FirstPart(part: string, rest: string)
    requires part != "" && AllDigits(part)
    ensures Parts(part + ":" + rest) == [part] + Parts(rest)
  {
    var s := part + ":" + rest;
    SkipPlain(part, ":", ":" + rest);
    Here(":", rest);
    hide Index;
    Associate(part, ":", rest);
    assert s[..|part|] == part && s[|part| + 1..] == rest;
  }

  function FormatBack(im: Image): string {
    "\" sampleFormat=\"" + im.format + "\""
  }

  lemma GeometryText(im: Image)
    ensures 7 <= |TagBody(im)| && AttrText(TagBody(im), 7, "geometry", PrintDims(im.dims),
        " sampleFormat=\"" + im.format + "\"")
    ensures TagBody(im)[..7] == "<Image "
  {
    hide PrintDims;
    var tail := "geometry" + ("=\"" + (PrintDims(im.dims) + ("\"" + (" sampleFormat=\"" + im.format + "\""))));
    assert "<Image geometry=\"" == "<Image " + "geometry" + "=\"";
    assert TagBody(im) == "<Image " + tail;
    hide TagBody;
    AttrParts("<Image ", "geometry", PrintDims(im.dims), " sampleFormat=\"" + im.format + "\"");
    assert |"<Image "| == 7;
  }

  /** The g of Image begins no geometry. */
  lemma NoGeometryBefore(body: string, p: nat)
    requires 7 <= |body| && body[..7] == "<Image " && p < 7 && p + 8 <= |body|
    ensures !("geometry" <= body[p..])
  {
    assert body[p] == "<Image "[p] && (p < 6 ==> body[p + 1] == "<Image "[p + 1])
        && (p < 5 ==> body[p + 2] == "<Image "[p + 2]);
    assert body[p..][0] == body[p] && body[p..][1] == body[p + 1] && body[p..][2] == body[p + 2];
    assert "geometry"[0] == 'g' && "geometry"[1] == 'e' && "geometry"[2] == 'o';
  }

  lemma GeometryRead(im: Image)
    requires Printable(im)
    ensures AttrFrom(TagBody(im), "geometry", 0) == Some(PrintDims(im.dims))
  {
    GeometryText(im);
    DimsInside(im.dims);
    DimsBare(im.dims);
    var body := TagBody(im);
    hide TagBody, AttrText, AttrFrom, ValueAt, Bare, Unescaped, PrintDims, Inside;
    ValueHere(body, 7, "geometry", PrintDims(im.dims), " sampleFormat=\"" + im.format + "\"");
    forall p | 0 <= p < 7 && p + 8 <= |body|
      ensures !("geometry" <= body[p..])
    {
      NoGeometryBefore(body, p);
    }
    AttrReached(body, "geometry", 0, 7);
  }

  lemma DimsBare(dims: seq<nat>)
    ensures Bare(PrintDims(dims)) && Unescaped(PrintDims(dims)) == PrintDims(dims)
  {
    DimsInside(dims);
    EscapedPlain(PrintDims(dims));
    hide PrintDims, Unescaped, Escaped;
  }

  lemma FormatText(im: Image)
    ensures var p := |PrintDims(im.dims)| + 19;
            && p <= |TagBody(im)| && AttrText(TagBody(im), p, "sampleFormat", im.format, "")
            && TagBody(im)[..p] == "<Image geometry=\"" + PrintDims(im.dims) + "\" "
  {
    hide PrintDims;
    var p := |PrintDims(im.dims)| + 19;
    var front := "<Image geometry=\"" + PrintDims(im.dims) + "\" ";
    var tail := "sampleFormat" + ("=\"" + (im.format + ("\"" + "")));
    assert "\" sampleFormat=\"" == "\" " + "sampleFormat" + "=\"";
    assert |front| == p && TagBody(im) == front + tail;
    assert TagBody(im)[p..] == tail;
  }

  lemma NoSBefore(im: Image)
    ensures var front := "<Image geometry=\"" + PrintDims(im.dims) + "\" ";
            forall i :: 0 <= i < |front| ==> front[i] != 's'
  {
    DimsInside(im.dims);
    hide PrintDims;
    var d := PrintDims(im.dims);
    var front := "<Image geometry=\"" + d + "\" ";
    forall i | 0 <= i < |front|
      ensures front[i] != 's'
    {
      if i < 17 {
        assert front[i] == "<Image geometry=\""[i];
      } else if i < 17 + |d| {
        assert front[i] == d[i - 17];
      }
    }
  }

  lemma FormatRead(im: Image)
    requires Printable(im)
    ensures AttrFrom(TagBody(im), "sampleFormat", 0) == Some(im.format)
  {
    FormatText(im);
    NoSBefore(im);
    EscapedPlain(im.format);
    assert Bare(im.format);
    var body, p := TagBody(im), |PrintDims(im.dims)| + 19;
    hide TagBody, AttrText, AttrFrom, Bare, Unescaped, Escaped, PrintDims;
    assert forall i :: 0 <= i < p ==> body[i] == body[..p][i];
    AttrAlone(body, p, "sampleFormat", im.format, "");
  }

  // ---- Images ----

  /** What is read from a printed image. */
  function ImageBack(im: Image, index: nat): Hdu {
    var naxis := AxisCount(im.dims);
    var naxis1 := if |im.dims| >= 1 then im.dims[0] else 0;
    var naxis2 := if |im.dims| >= 2 then im.dims[1] else 0;
    Hdu(index, naxis, naxis1, naxis2, BitpixFor(im.format), AxisCards(naxis, naxis1, naxis2) + Decoded(im.keywords))
  }

  function ImagesBack(ims: seq<Image>, index: nat): seq<Hdu> {
    if ims == [] then [] else [ImageBack(ims[0], index)] + ImagesBack(ims[1..], index + 1)
  }

  lemma TagRead(im: Image, index: nat)
    requires Printable(im)
    ensures var hdu := Opened(TagBody(im), index);
            hdu.(cards := hdu.cards + Decoded(im.keywords)) == ImageBack(im, index)
  {
    GeometryRead(im);
    FormatRead(im);
    GeometryBack(im.dims);
    hide AttrFrom, TagBody, Parts, Longs, PrintDims, BitpixFor, AxisCount, AxisCards;
  }

  lemma TagStarts(im: Image, rest: string)
    ensures var s := TagBody(im) + ">" + rest; Index(s, "<Image") == Some(0) && TagEnds(s)
  {
    GeometryText(im);
    var s := TagBody(im) + ">" + rest;
    hide TagBody, Index, AttrText;
    assert s[..7] == "<Image " && s[6] == ' ';
    assert s == "<Image" + s[6..];
    Here("<Image", s[6..]);
  }

  /** After an image's cards, the walk finds the images that follow it. */
  lemma {:induction false} ImagesAfter(front: string, rest: string, index: nat)
    requires Index(front + rest, "<Image") == Shift(Index(rest, "<Image"), |front|)
    ensures ImagesIn(front + rest, index) == ImagesIn(rest, index)
  {
    hide Index, Opened, CardsIn, ScopeOf, TagEnds;
    var r := Index(rest, "<Image");
    if r.Some? {
      assert (front + rest)[r.value + |front|..] == rest[r.value..];
    }
  }

  lemma {:induction false} ImagesRead(ims: seq<Image>, tail: string, index: nat)
    requires forall i :: 0 <= i < |ims| ==> Printable(ims[i])
    requires Index(tail, "<Image") == None
    ensures ImagesIn(PrintImages(ims) + tail, index) == ImagesBack(ims, index)
    decreases |ims|
  {
    hide Index, PrintImage, ImageBack, ImagesIn;
    if ims == [] {
      assert PrintImages(ims) + tail == tail;
      NoImages(tail, index);
    } else {
      var more := PrintImages(ims[1..]) + tail;
      ImagesRead(ims[1..], tail, index + 1);
      ImageFirst(ims[0], more, index);
      assert PrintImages(ims) + tail == PrintImage(ims[0]) + more;
    }
  }

  lemma NoImages(s: string, index: nat)
    requires Index(s, "<Image") == None
    ensures ImagesIn(s, index) == []
  {
    hide Index;
  }

  /** One round of the walk, at an opening tag. */
  lemma WalkOne(body: string, rest: string, index: nat)
    requires Element(body, 'I') && Index(body + ">" + rest, "<Image") == Some(0) && TagEnds(body + ">" + rest)
    ensures var hdu, after := Opened(body, index), ">" + rest;
            ImagesIn(body + ">" + rest, index)
            == [hdu.(cards := hdu.cards + CardsIn(after, ScopeOf(after)))] + ImagesIn(after, index + 1)
  {
    hide *;
    ClosedAt(body, 'I', rest);
    TagSlices(body, rest);
    ImagesHere(body + ">" + rest, index, 0, |body|);
  }

  lemma ImageFirst(im: Image, more: string, index: nat)
    requires Printable(im)
    ensures ImagesIn(PrintImage(im) + more, index) == [ImageBack(im, index)] + ImagesIn(more, index + 1)
  {
    LegalParts(im);
    hide *;
    var cards := PrintCards(im.keywords);
    PrintedParts(im, more);
    TagElement(im);
    TagStarts(im, cards + (CLOSE + more));
    WalkOne(TagBody(im), cards + (CLOSE + more), index);
    ScopeBack(im.keywords, more);
    CardsBack(im.keywords, more);
    TagRead(im, index);
    PastImage(im.keywords, more, index + 1);
  }

  lemma PastImage(ks: seq<Keyword>, more: string, index: nat)
    requires forall i :: 0 <= i < |ks| ==> IsName(ks[i].name)
    ensures ImagesIn(">" + (PrintCards(ks) + (CLOSE + more)), index) == ImagesIn(more, index)
  {
    hide *;
    ScopeBack(ks, more);
    AfterParts(PrintCards(ks), more);
    ImagesAfter(">" + (PrintCards(ks) + CLOSE), more, index);
  }

  lemma LegalParts(im: Image)
    requires Printable(im)
    ensures forall i :: 0 <= i < |im.keywords| ==> IsName(im.keywords[i].name)
  {
  }

  lemma PrintedParts(im: Image, more: string)
    ensures PrintImage(im) + more == TagBody(im) + ">" + (PrintCards(im.keywords) + (CLOSE + more))
  {
    hide TagBody, PrintCards;
  }

  lemma TagSlices(body: string, rest: string)
    ensures var s := body + ">" + rest; s[0..] == s && |body| <= |s| && s[..|body|] == body && s[|body|..] == ">" + rest
  {
  }

  lemma AfterParts(cards: string, more: string)
    ensures ">" + (cards + (CLOSE + more)) == ">" + (cards + CLOSE) + more && |">" + (cards + CLOSE)| == 9 + |cards|
  {
  }

  // ---- Comments ----

  /** Every < is followed by something else than an exclamation mark. */
  ghost predicate Marked(s: string) {
    forall i :: 0 <= i < |s| && s[i] == '<' ==> i + 1 < |s| && s[i + 1] != '!'
  }

  lemma MarkedConcat(a: string, b: string)
    requires Marked(a) && Marked(b)
    ensures Marked(a + b)
  {
  }

  lemma ElementMarked(body: string, c: char)
    requires Element(body, c) && c != '!'
    ensures Marked(body + ">")
  {
  }

  lemma {:induction false} NothingStripped(s: string)
    requires Marked(s)
    ensures WithoutComments(s) == s
    decreases |s|
  {
    if s != "" {
      NotOpened(s);
      assert Marked(s[1..]);
      NothingStripped(s[1..]);
      assert s == [s[0]] + s[1..];
    }
  }

  lemma NotOpened(s: string)
    requires Marked(s)
    ensures !OpensComment(s)
  {
    OpeningMark(s);
    hide OpensComment;
  }

  lemma OpeningMark(s: string)
    ensures OpensComment(s) ==> |s| > 1 && s[0] == '<' && s[1] == '!'
  {
    assert "<!--"[0] == '<' && "<!--"[1] == '!';
  }

  lemma {:induction false} CardsMarked(ks: seq<Keyword>)
    requires forall i :: 0 <= i < |ks| ==> IsName(ks[i].name)
    ensures Marked(PrintCards(ks))
  {
    hide CardBody, Marked;
    if ks == [] {
      NoneMarked();
    } else {
      CardElement(ks[0]);
      ElementMarked(CardBody(ks[0]), 'F');
      CardsMarked(ks[1..]);
      MarkedConcat(CardBody(ks[0]) + ">", PrintCards(ks[1..]));
    }
  }

  lemma NoneMarked()
    ensures Marked("") && Marked(CLOSE) && Marked("</xisf>") && Marked("<xisf version=\"1.0\">")
  {
  }

  lemma {:induction false} ImagesMarked(ims: seq<Image>)
    requires forall i :: 0 <= i < |ims| ==> Printable(ims[i])
    ensures Marked(PrintImages(ims))
  {
    hide TagBody, Printable, Marked, PrintCards;
    NoneMarked();
    if ims != [] {
      var im := ims[0];
      LegalParts(im);
      TagElement(im);
      ElementMarked(TagBody(im), 'I');
      CardsMarked(im.keywords);
      MarkedConcat(TagBody(im) + ">", PrintCards(im.keywords));
      MarkedConcat(TagBody(im) + ">" + PrintCards(im.keywords), CLOSE);
      ImagesMarked(ims[1..]);
      MarkedConcat(PrintImage(im), PrintImages(ims[1..]));
    }
  }

  lemma HeaderMarked(ims: seq<Image>)
    requires forall i :: 0 <= i < |ims| ==> Printable(ims[i])
    ensures Marked(PrintHeader(ims)) && WithoutComments(PrintHeader(ims)) == PrintHeader(ims)
  {
    hide Printable, Marked, PrintImages, WithoutComments;
    NoneMarked();
    ImagesMarked(ims);
    MarkedConcat("<xisf version=\"1.0\">", PrintImages(ims));
    MarkedConcat("<xisf version=\"1.0\">" + PrintImages(ims), "</xisf>");
    NothingStripped(PrintHeader(ims));
  }

  /** A comment's text, its end and what follows. */
  function Closing(c: string, s: string): string {
    c + "-->" + s
  }

  function Commented(c: string, s: string): string {
    "<!--" + Closing(c, s)
  }

  lemma CommentSlices(c: string, s: string)
    ensures OpensComment(Commented(c, s)) && 4 <= |Commented(c, s)| && Commented(c, s)[4..] == Closing(c, s)
    ensures |c| + 3 <= |Closing(c, s)| && Closing(c, s)[|c| + 3..] == s
  {
    assert Commented(c, s)[..4] == "<!--";
  }

  lemma CommentGone(t: string, body: string, n: nat, s: string)
    requires OpensComment(t) && 4 <= |t| && t[4..] == body && Index(body, "-->") == Some(n) && n + 3 <= |body|
        && body[n + 3..] == s
    ensures WithoutComments(t) == WithoutComments(s)
  {
    CommentOpened(t);
    hide *;
  }

  /** No < is followed by an exclamation mark. */
  ghost predicate Uncommented(s: string) {
    forall i :: 0 <= i < |s| - 1 && s[i] == '<' ==> s[i + 1] != '!'
  }

  /** A comment is taken out wherever it stands, whatever it contains. */
  lemma {:induction false} CommentIgnored(front: string, c: string, s: string)
    requires Uncommented(front) && Index(Closing(c, s), "-->") == Some(|c|)
    ensures WithoutComments(front + Commented(c, s)) == front + WithoutComments(s)
    decreases |front|
  {
    if front == "" {
      CommentSlices(c, s);
      assert front + Commented(c, s) == Commented(c, s);
      hide *;
      CommentGone(Commented(c, s), Closing(c, s), |c|, s);
    } else {
      assert Commented(c, s) != "" && Commented(c, s)[0] == '<';
      assert Uncommented(front[1..]);
      hide *;
      CommentIgnored(front[1..], c, s);
      FirstKept(front, Commented(c, s));
      FirstBack(front, WithoutComments(s));
    }
  }

  lemma FirstBack(front: string, rest: string)
    requires front != ""
    ensures [front[0]] + (front[1..] + rest) == front + rest
  {
  }

  lemma FirstKept(front: string, rest: string)
    requires front != "" && Uncommented(front) && rest != "" && rest[0] == '<'
    ensures WithoutComments(front + rest) == [front[0]] + WithoutComments(front[1..] + rest)
  {
    NotOpening(front, rest);
    var t := front + rest;
    assert t[0] == front[0] && t[0..] == t && t[1..] == front[1..] + rest;
    hide *;
    CharKept(t, 0);
  }

  lemma NotOpening(front: string, rest: string)
    requires front != "" && Uncommented(front) && rest != "" && rest[0] == '<'
    ensures !OpensComment(front + rest)
  {
    var t := front + rest;
    assert t[0] == front[0] && (|front| > 1 ==> t[1] == front[1]) && (|front| == 1 ==> t[1] == rest[0]);
    OpeningMark(t);
    hide OpensComment;
  }

  // ---- The main results ----

  lemma NoImageTag()
    ensures Index("</xisf>", "<Image") == None
  {
    IndexStep("</xisf>", "<Image");
    assert "</xisf>"[1..] == "/xisf>";
    SkipPlain("/xisf>", "<Image", "");
    assert "/xisf>" + "" == "/xisf>";
    assert Index("", "<Image") == None;
    hide Index;
  }

  lemma RootElement()
    ensures Element("<xisf version=\"1.0\"", 'x') && "<xisf version=\"1.0\">" == "<xisf version=\"1.0\"" + ">"
  {
  }

  /** What is read from every printed list of images and cards, whatever the values and comments. */
  lemma HeaderRead(ims: seq<Image>)
    requires ims != [] && forall i :: 0 <= i < |ims| ==> Printable(ims[i])
    ensures ReadText(PrintHeader(ims)) == Header(ImagesBack(ims, 0))
  {
    HeaderMarked(ims);
    HeaderImages(ims);
    hide Printable, PrintHeader, WithoutComments, ImagesIn, ImageBack;
    assert ImagesBack(ims, 0) != [];
  }

  /** The images and cards as they were printed. */
  function Written(ks: seq<Keyword>): seq<Card> {
    seq(|ks|, i requires 0 <= i < |ks| => Card(ks[i].name, ks[i].value, ks[i].comment))
  }

  function ImageWritten(im: Image, index: nat): Hdu {
    var back := ImageBack(im, index);
    back.(cards := AxisCards(back.naxis, back.naxis1, back.naxis2) + Written(im.keywords))
  }

  function ImagesWritten(ims: seq<Image>, index: nat): seq<Hdu> {
    if ims == [] then [] else [ImageWritten(ims[0], index)] + ImagesWritten(ims[1..], index + 1)
  }

  predicate Legal(im: Image) {
    forall i :: 0 <= i < |im.keywords| ==> LegalKeyword(im.keywords[i])
  }

  lemma CardsWritten(ks: seq<Keyword>)
    requires forall i :: 0 <= i < |ks| ==> IsName(ks[i].name)
    ensures Decoded(ks) == Written(ks) <==> forall i :: 0 <= i < |ks| ==> LegalKeyword(ks[i])
  {
    hide LegalKeyword, CardBack, IsName;
    forall i | 0 <= i < |ks|
      ensures Decoded(ks)[i] == Written(ks)[i] <==> LegalKeyword(ks[i])
    {
      CardKept(ks[i]);
    }
  }

  lemma ImageKept(im: Image, index: nat)
    requires Printable(im)
    ensures ImageBack(im, index) == ImageWritten(im, index) <==> Legal(im)
  {
    CardsWritten(im.keywords);
    hide LegalKeyword, Decoded, Written, AxisCards, BitpixFor;
    var back := ImageBack(im, index);
    var axes := AxisCards(back.naxis, back.naxis1, back.naxis2);
    assert back.cards[|axes|..] == Decoded(im.keywords)
        && ImageWritten(im, index).cards[|axes|..] == Written(im.keywords);
  }

  lemma {:induction false} ImagesKept(ims: seq<Image>, index: nat)
    requires forall i :: 0 <= i < |ims| ==> Printable(ims[i])
    ensures ImagesBack(ims, index) == ImagesWritten(ims, index) <==> forall i :: 0 <= i < |ims| ==> Legal(ims[i])
    decreases |ims|
  {
    hide Printable, Legal, ImageBack, ImageWritten;
    if ims != [] {
      ImageKept(ims[0], index);
      ImagesKept(ims[1..], index + 1);
      var back, written := ImagesBack(ims, index), ImagesWritten(ims, index);
      assert back[0] == ImageBack(ims[0], index) && written[0] == ImageWritten(ims[0], index);
      assert back[1..] == ImagesBack(ims[1..], index + 1) && written[1..] == ImagesWritten(ims[1..], index + 1);
      assert forall i :: 0 < i < |ims| ==> ims[i] == ims[1..][i - 1];
    }
  }

  /** A printed list of images and cards is read back as it was exactly when every card is legal: any
      comment, any string without blanks around it, equals signs and markup included, and any other value
      without blanks around it that is not in quotes and does not end like the name of a comment. */
  lemma HeaderBack(ims: seq<Image>)
    requires ims != [] && forall i :: 0 <= i < |ims| ==> Printable(ims[i])
    ensures ReadText(PrintHeader(ims)) == Header(ImagesWritten(ims, 0))
        <==> forall i :: 0 <= i < |ims| ==> Legal(ims[i])
  {
    HeaderRead(ims);
    ImagesKept(ims, 0);
    hide Printable, Legal, PrintHeader, ReadText, ImagesBack, ImagesWritten;
  }

  lemma HeaderImages(ims: seq<Image>)
    requires forall i :: 0 <= i < |ims| ==> Printable(ims[i])
    ensures ImagesIn(PrintHeader(ims), 0) == ImagesBack(ims, 0)
  {
    hide *;
    var rest := PrintImages(ims) + "</xisf>";
    NoImageTag();
    ImagesRead(ims, "</xisf>", 0);
    PastRoot(rest);
    ImagesAfter("<xisf version=\"1.0\">", rest, 0);
    HeaderParts(ims);
  }

  lemma PastRoot(rest: string)
    ensures Index("<xisf version=\"1.0\">" + rest, "<Image") == Shift(Index(rest, "<Image"), |"<xisf version=\"1.0\">"|)
  {
    hide Index, Element;
    RootElement();
    PastElement("<xisf version=\"1.0\"", 'x', "<Image", rest);
  }

  lemma HeaderParts(ims: seq<Image>)
    ensures PrintHeader(ims) == "<xisf version=\"1.0\">" + (PrintImages(ims) + "</xisf>")
  {
    hide PrintImages;
  }

  /** A comment anywhere in the header changes nothing, even one that contains images and cards. */
  lemma HeaderBackWithComment(ims: seq<Image>, n: nat, c: string)
    requires forall i :: 0 <= i < |ims| ==> Printable(ims[i])
    requires n <= |PrintHeader(ims)| && Index(Closing(c, PrintHeader(ims)[n..]), "-->") == Some(|c|)
    ensures ReadText(PrintHeader(ims)[..n] + Commented(c, PrintHeader(ims)[n..])) == ReadText(PrintHeader(ims))
  {
    HeaderMarked(ims);
    hide PrintHeader, Printable, WithoutComments, Closing, Commented, Index;
    var header := PrintHeader(ims);
    assert header == header[..n] + header[n..];
    assert Marked(header[n..]) && Uncommented(header[..n]);
    hide Marked, Uncommented;
    NothingStripped(header[n..]);
    CommentIgnored(header[..n], c, header[n..]);
    SameText(header[..n] + Commented(c, header[n..]), header);
  }

  lemma SameText(a: string, b: string)
    requires WithoutComments(a) == WithoutComments(b)
    ensures ReadText(a) == ReadText(b)
  {
    hide WithoutComments, ImagesIn;
  }

}
