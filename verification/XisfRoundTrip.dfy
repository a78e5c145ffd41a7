/** Printing images and header cards as an XISF header, and reading them back. */
module XisfRoundTrip {
  import opened Options
  import opened Chars
  import opened Decimal
  import opened FitsText
  import opened Xisf

  // ---- Printing ----

  /** The five predefined entities, section 4.6 of XML 1.0. */
  function EscapedChar(c: char): string {
    match c
    case '&' => "&amp;"
    case '<' => "&lt;"
    case '>' => "&gt;"
    case '\"' => "&quot;"
    case '\'' => "&apos;"
    case _ => [c]
  }

  function Escaped(s: string): string {
    if s == "" then "" else EscapedChar(s[0]) + Escaped(s[1..])
  }

  /** A header card as it stands in a file: strings are quoted, numbers and logicals are not. */
  datatype Keyword = Keyword(name: string, quoted: bool, value: string, comment: string)

  datatype Image = Image(dims: seq<nat>, format: string, keywords: seq<Keyword>)

  function RawValue(k: Keyword): string {
    if k.quoted then FitsQuoted(k.value) else k.value
  }

  function CardBody(k: Keyword): string {
    "<FITSKeyword name=\"" + k.name + "\" value=\"" + Escaped(RawValue(k)) + "\" comment=\"" + Escaped(k.comment)
    + "\"/"
  }

  function PrintCards(ks: seq<Keyword>): string {
    if ks == [] then "" else CardBody(ks[0]) + ">" + PrintCards(ks[1..])
  }

  function PrintDims(dims: seq<nat>): string {
    if dims == [] then "" else if |dims| == 1 then ToDec(dims[0]) else ToDec(dims[0]) + ":" + PrintDims(dims[1..])
  }

  function TagBody(im: Image): string {
    "<Image geometry=\"" + PrintDims(im.dims) + "\" sampleFormat=\"" + im.format + "\""
  }

  function PrintImage(im: Image): string {
    TagBody(im) + ">" + PrintCards(im.keywords) + "</Image>"
  }

  function PrintImages(ims: seq<Image>): string {
    if ims == [] then "" else PrintImage(ims[0]) + PrintImages(ims[1..])
  }

  function PrintHeader(ims: seq<Image>): string {
    "<xisf version=\"1.0\">" + PrintImages(ims) + "</xisf>"
  }

  // ---- What is printed ----

  /** The characters of a FITS keyword name. */
  predicate IsName(s: string) {
    s != "" && forall i :: 0 <= i < |s| ==> IsUpper(s[i]) || IsDigit(s[i]) || s[i] == '-' || s[i] == '_'
  }

  predicate Unpadded(s: string) {
    s == "" || (!IsBlank(s[0]) && !IsBlank(s[|s| - 1]))
  }

  /** The word comment stands at p. */
  predicate WordAt(s: string, p: nat) {
    && p + 7 <= |s| && s[p] == 'c' && s[p + 1] == 'o' && s[p + 2] == 'm' && s[p + 3] == 'm'
    && s[p + 4] == 'e' && s[p + 5] == 'n' && s[p + 6] == 't'
  }

  /** From p on, the text is the word comment, standing free, and an equals sign, with white space at
      most around that, to the end. */
  predicate MisleadsAt(s: string, p: nat) {
    WordAt(s, p) && Aim(s, p) == |s|
  }

  /** Where the value of a name of seven letters at p would begin; -1 if it has none. */
  function Aim(s: string, p: nat): (v: int)
    requires p + 7 <= |s|
    ensures v == -1 || 0 <= v <= |s|
  {
    var q := AfterSpaces(s, p + 7);
    if WordBefore(s, p) || q == |s| || s[q] != '=' then -1 else AfterSpaces(s, q + 1)
  }

  /** The text ends so that the quote after it looks like the one that opens a comment. */
  predicate Misleads(s: string) {
    exists p: nat :: p < |s| && MisleadsAt(s, p)
  }

  /** A value without blanks around it: a string, or anything else that is neither in quotes nor
      misleading. */
  predicate LegalKeyword(k: Keyword) {
    && IsName(k.name) && Unpadded(k.value)
    && (k.quoted || (!InQuotes(k.value) && (!Misleads(k.value) || k.comment == MISTAKEN)))
  }

  /** The text between the quote that closes a value and the one that opens its comment. */
  const MISTAKEN := " comment="

  /** What is read as the comment. */
  function CommentBack(k: Keyword): string {
    if Misleads(RawValue(k)) then MISTAKEN else k.comment
  }

  function CardBack(k: Keyword): Card {
    Card(k.name, Stripped(RawValue(k)), CommentBack(k))
  }

  /** The names and sample formats that can be printed. */
  predicate Printable(im: Image) {
    && (forall i :: 0 <= i < |im.format| ==> IsAlpha(im.format[i]) || IsDigit(im.format[i]))
    && forall i :: 0 <= i < |im.keywords| ==> IsName(im.keywords[i].name)
  }

  // ---- Entities ----

  lemma {:induction false} UnescapedEscaped(s: string)
    ensures Unescaped(Escaped(s)) == s
  {
    if s != "" {
      UnescapedEscaped(s[1..]);
      EscapedCharRead(s[0], Escaped(s[1..]));
      assert s == [s[0]] + s[1..];
    }
  }

  lemma EscapedCharRead(c: char, rest: string)
    ensures Unescaped(EscapedChar(c) + rest) == [c] + Unescaped(rest)
  {
    var e := EscapedChar(c);
    var t := e + rest;
    assert e <= t && t[|e|..] == rest;
    if |e| == 1 {
      assert t[0] == c && c != '&';
      assert EntityAt(t).None?;
    } else {
      assert t[..|e|] == e;
      EntityRead(c, t);
    }
  }

  lemma EntityRead(c: char, t: string)
    requires |EscapedChar(c)| > 1 && EscapedChar(c) <= t
    ensures EntityAt(t) == Some((c, |EscapedChar(c)|))
  {
    assert t[0] == EscapedChar(c)[0] && t[1] == EscapedChar(c)[1] && t[2] == EscapedChar(c)[2];
  }

  /** No character of markup is left. */
  predicate Bare(s: string) {
    forall i :: 0 <= i < |s| ==> s[i] != '<' && s[i] != '>' && s[i] != '\"' && s[i] != '\''
  }

  lemma {:induction false} EscapedBare(s: string)
    ensures Bare(Escaped(s))
  {
    if s != "" {
      EscapedBare(s[1..]);
      assert Bare(EscapedChar(s[0])) by {
        assert |EscapedChar(s[0])| <= 6;
      }
      hide EscapedChar;
    }
  }

  lemma {:induction false} EscapedLast(s: string, c: char)
    ensures Escaped(s + [c]) == Escaped(s) + EscapedChar(c)
  {
    hide EscapedChar;
    if s == "" {
      assert s + [c] == [c] && [c][1..] == "";
    } else {
      EscapedLast(s[1..], c);
      assert (s + [c])[0] == s[0] && (s + [c])[1..] == s[1..] + [c];
    }
  }

  lemma {:induction false} EscapedPlain(s: string)
    requires forall i :: 0 <= i < |s| ==> s[i] != '&' && s[i] != '<' && s[i] != '>' && s[i] != '\"' && s[i] != '\''
    ensures Escaped(s) == s && Unescaped(s) == s
  {
    if s != "" {
      EscapedPlain(s[1..]);
      assert s == [s[0]] + s[1..];
    }
    UnescapedEscaped(s);
  }

  // ---- Where a pattern is found ----

  function Shift(r: Option<nat>, n: nat): Option<nat> {
    if r.Some? then Some(r.value + n) else None
  }

  lemma Here(pattern: string, rest: string)
    ensures Index(pattern + rest, pattern) == Some(0)
  {
  }

  lemma IndexStep(s: string, pattern: string)
    requires s != "" && pattern != "" && (s[0] != pattern[0] || (|s| > 1 && |pattern| > 1 && s[1] != pattern[1]))
    ensures Index(s, pattern) == Shift(Index(s[1..], pattern), 1)
  {
    assert !(pattern <= s);
  }

  /** Text without the pattern's first character is skipped. */
  lemma {:induction false} SkipPlain(front: string, pattern: string, rest: string)
    requires pattern != "" && forall i :: 0 <= i < |front| ==> front[i] != pattern[0]
    ensures Index(front + rest, pattern) == Shift(Index(rest, pattern), |front|)
  {
    hide Index;
    if front == "" {
      assert front + rest == rest;
    } else {
      var s := front + rest;
      assert s[1..] == front[1..] + rest && s[0] == front[0];
      IndexStep(s, pattern);
      SkipPlain(front[1..], pattern, rest);
    }
  }

  /** An element whose tag begins otherwise is skipped. */
  lemma SkipElement(body: string, pattern: string, rest: string)
    requires |body| >= 2 && |pattern| >= 2 && body[0] == pattern[0] && body[1] != pattern[1]
    requires forall i :: 1 <= i < |body| ==> body[i] != pattern[0]
    ensures Index(body + rest, pattern) == Shift(Index(rest, pattern), |body|)
  {
    hide Index;
    var s := body + rest;
    assert s[0] == body[0] && s[1] == body[1] && s[1..] == body[1..] + rest;
    IndexStep(s, pattern);
    SkipPlain(body[1..], pattern, rest);
  }

  // ---- Attributes ----

  lemma SpacesEnd(s: string, q: nat)
    requires q < |s| && !IsSpace(s[q])
    ensures AfterSpaces(s, q) == q
  {
  }

  /** The closing quote of a bare text. */
  lemma QuoteEnds(content: string, back: string)
    requires Bare(content)
    ensures Index(content + ("\"" + back), "\"") == Some(|content|)
  {
    SkipPlain(content, "\"", "\"" + back);
    Here("\"", back);
    hide Index;
  }

  /** Reading a quoted value: the equals sign is at q, the quote after it, the content ends at e. */
  lemma ValueRead(elem: string, name: string, p: nat, e: nat)
    requires var q := p + |name|; q + 2 <= e < |elem| && elem[q] == '=' && elem[q + 1] == '\"'
    requires !WordBefore(elem, p) && Find(elem, ['\"'], p + |name| + 2) == Some(e)
    ensures ValueAt(elem, name, p) == Some(Unescaped(elem[p + |name| + 2..e]))
  {
    SpacesEnd(elem, p + |name|);
    SpacesEnd(elem, p + |name| + 1);
    QuoteRead(elem, p + |name| + 1, e);
    hide Find, WordBefore, AfterSpaces, Unescaped, QuotedAt;
  }

  lemma QuoteRead(elem: string, v: nat, e: nat)
    requires v < e <= |elem| && elem[v] == '\"' && Find(elem, ['\"'], v + 1) == Some(e)
    ensures QuotedAt(elem, v) == Some(Unescaped(elem[v + 1..e]))
  {
    hide Find, Unescaped;
  }

  lemma BlankBefore(elem: string, p: nat)
    requires 0 < p <= |elem| && elem[p - 1] == ' '
    ensures !WordBefore(elem, p)
  {
  }

  /** name="content" stands at p, after a blank. */
  ghost predicate AttrText(elem: string, p: nat, name: string, content: string, back: string) {
    0 < p <= |elem| && elem[p - 1] == ' ' && elem[p..] == name + ("=\"" + (content + ("\"" + back)))
  }

  lemma Layout(elem: string, p: nat, name: string, content: string, back: string)
    requires AttrText(elem, p, name, content, back)
    ensures var q := p + |name|;
            && 0 < p && q + 2 <= |elem| && name <= elem[p..] && elem[q] == '=' && elem[q + 1] == '\"'
            && elem[q + 2..] == content + ("\"" + back) && !WordBefore(elem, p)
  {
    var tail, rest := elem[p..], content + ("\"" + back);
    assert tail[|name|] == '=' && tail[|name| + 1] == '\"' && tail[|name| + 2..] == rest;
    assert elem[p + |name| + 2..] == tail[|name| + 2..];
  }

  lemma QuoteFound(elem: string, from: nat, content: string, back: string)
    requires from <= |elem| && elem[from..] == content + ("\"" + back) && Bare(content)
    ensures from + |content| < |elem| && elem[from..from + |content|] == content
    ensures Find(elem, ['\"'], from) == Some(from + |content|)
  {
    QuoteEnds(content, back);
    hide Index, Bare;
    assert ['\"'] == "\"";
    assert elem[from..][..|content|] == content;
  }

  /** An attribute is read at its place. */
  lemma ValueHere(elem: string, p: nat, name: string, content: string, back: string)
    requires AttrText(elem, p, name, content, back) && Bare(content)
    ensures p + |name| <= |elem| && name <= elem[p..] && ValueAt(elem, name, p) == Some(Unescaped(content))
  {
    hide *;
    Layout(elem, p, name, content, back);
    QuoteFound(elem, p + |name| + 2, content, back);
    ValueRead(elem, name, p, p + |name| + 2 + |content|);
  }

  /** Where every earlier occurrence of the name has no value, the one at the target is read. */
  lemma {:induction false} AttrReached(elem: string, name: string, pos: nat, target: nat)
    requires name != "" && pos <= target && target + |name| <= |elem| && name <= elem[target..]
    requires ValueAt(elem, name, target).Some?
    requires forall p :: pos <= p < target && p + |name| <= |elem| && name <= elem[p..] ==>
        p + |name| <= target && ValueAt(elem, name, p).None?
    ensures AttrFrom(elem, name, pos) == ValueAt(elem, name, target)
    decreases target - pos
  {
    hide ValueAt, Index, Find, AttrFrom;
    FoundBy(elem, name, pos, target);
    var p := Find(elem, name, pos).value;
    AttrStep(elem, name, pos, p);
    if p < target {
      AttrReached(elem, name, p + |name|, target);
    }
  }

  lemma AttrStep(elem: string, name: string, pos: nat, p: nat)
    requires name != "" && pos <= |elem| && Find(elem, name, pos) == Some(p)
    ensures AttrFrom(elem, name, pos) == if ValueAt(elem, name, p).Some? then ValueAt(elem, name, p)
        else AttrFrom(elem, name, p + |name|)
  {
    hide ValueAt, Index, Find;
  }

  /** A search from before an occurrence finds that one or an earlier one. */
  lemma FoundBy(s: string, pattern: string, from: nat, at: nat)
    requires from <= at <= |s| && pattern <= s[at..]
    ensures Find(s, pattern, from).Some? && Find(s, pattern, from).value <= at
  {
    assert s[from..][at - from..] == s[at..];
    IndexBy(s[from..], pattern, at - from);
  }

  lemma {:induction false} IndexBy(s: string, pattern: string, at: nat)
    requires at <= |s| && pattern <= s[at..]
    ensures Index(s, pattern).Some? && Index(s, pattern).value <= at
  {
    if !(pattern <= s) && at > 0 {
      assert s[1..][at - 1..] == s[at..];
      IndexBy(s[1..], pattern, at - 1);
    } else {
      assert s[0..] == s;
    }
  }

  /** Where the name's first letter does not occur before, the attribute is read at once. */
  lemma AttrAlone(elem: string, p: nat, name: string, content: string, back: string)
    requires AttrText(elem, p, name, content, back) && Bare(content)
    requires name != "" && p <= |elem| && forall i :: 0 <= i < p ==> elem[i] != name[0]
    ensures AttrFrom(elem, name, 0) == Some(Unescaped(content))
  {
    ValueHere(elem, p, name, content, back);
    hide *;
    forall i | 0 <= i < p && i + |name| <= |elem|
      ensures !(name <= elem[i..])
    {
      assert elem[i..][0] == elem[i];
    }
    AttrReached(elem, name, 0, p);
  }

  // ---- The attributes of a card ----

  const CARD_HEAD := "<FITSKeyword "

  /** A card's text in the parts that matter: before the value's content, the content, and after it. */
  function CardFront(k: Keyword): string {
    "<FITSKeyword name=\"" + k.name + "\" value=\""
  }

  function CardTailText(k: Keyword): string {
    "comment=\"" + Escaped(k.comment) + "\"/"
  }

  lemma CardParts(k: Keyword)
    ensures CardBody(k) == CardFront(k) + Escaped(RawValue(k)) + "\" " + CardTailText(k)
  {
    hide Escaped, RawValue;
  }

  function NameBack(k: Keyword): string {
    " value=\"" + Escaped(RawValue(k)) + "\" comment=\"" + Escaped(k.comment) + "\"/"
  }

  lemma NameText(k: Keyword)
    ensures 13 <= |CardBody(k)| && AttrText(CardBody(k), 13, "name", k.name, NameBack(k))
    ensures forall i :: 0 <= i < 13 ==> CardBody(k)[i] != 'n'
  {
    hide Escaped, RawValue;
    var body := CardBody(k);
    var tail := "name" + ("=\"" + (k.name + ("\"" + NameBack(k))));
    assert "<FITSKeyword name=\"" == CARD_HEAD + "name" + "=\"" && |CARD_HEAD| == 13;
    assert body == CARD_HEAD + tail;
    assert forall i :: 0 <= i < 13 ==> body[i] == CARD_HEAD[i];
    assert body[13..] == tail;
  }

  lemma NameBare(s: string)
    requires IsName(s)
    ensures Bare(s) && Unescaped(s) == s
  {
    EscapedPlain(s);
    hide Escaped, Unescaped;
  }

  lemma NameRead(k: Keyword)
    requires IsName(k.name)
    ensures AttrFrom(CardBody(k), "name", 0) == Some(k.name)
  {
    NameText(k);
    NameBare(k.name);
    hide CardBody, AttrText, AttrFrom, Bare, Unescaped, NameBack;
    AttrAlone(CardBody(k), 13, "name", k.name, NameBack(k));
  }

  /** Nothing before the value has a v, and nothing but the value has a c before the comment. */
  lemma ValueText(k: Keyword)
    requires IsName(k.name)
    ensures var p := |k.name| + 21;
            && p <= |CardBody(k)|
            && AttrText(CardBody(k), p, "value", Escaped(RawValue(k)), " " + CardTailText(k))
            && forall i :: 0 <= i < p ==> CardBody(k)[i] != 'v' && CardBody(k)[i] != 'c'
  {
    hide Escaped, RawValue;
    var front := "<FITSKeyword name=\"" + k.name + "\" ";
    var tail := "value" + ("=\"" + (Escaped(RawValue(k)) + ("\"" + (" " + CardTailText(k)))));
    assert CardBody(k) == front + tail;
    FrontLetters(k);
    hide CardBody, CardTailText;
    AttrParts(front, "value", Escaped(RawValue(k)), " " + CardTailText(k));
  }

  lemma AttrParts(front: string, name: string, content: string, back: string)
    requires front != "" && front[|front| - 1] == ' '
    ensures var body := front + (name + ("=\"" + (content + ("\"" + back))));
            AttrText(body, |front|, name, content, back) && forall i :: 0 <= i < |front| ==> body[i] == front[i]
  {
  }

  lemma FrontLetters(k: Keyword)
    requires IsName(k.name)
    ensures var front := "<FITSKeyword name=\"" + k.name + "\" ";
            && |front| == |k.name| + 21 && front[|front| - 1] == ' '
            && forall i :: 0 <= i < |front| ==> front[i] != 'v' && front[i] != 'c'
  {
    var front := "<FITSKeyword name=\"" + k.name + "\" ";
    forall i | 0 <= i < |front|
      ensures front[i] != 'v' && front[i] != 'c'
    {
      if i < 19 {
        assert front[i] == "<FITSKeyword name=\""[i];
      } else if i < 19 + |k.name| {
        assert front[i] == k.name[i - 19];
      }
    }
  }

  lemma ValueBack(k: Keyword)
    requires IsName(k.name)
    ensures AttrFrom(CardBody(k), "value", 0) == Some(RawValue(k))
  {
    ValueText(k);
    EscapedBare(RawValue(k));
    UnescapedEscaped(RawValue(k));
    hide CardBody, AttrText, AttrFrom, Bare, Unescaped, RawValue, Escaped;
    AttrAlone(CardBody(k), |k.name| + 21, "value", Escaped(RawValue(k)), " " + CardTailText(k));
  }

  // ---- The comment, whatever the value contains ----

  /** Where the value's content begins and ends in a card. */
  function ContentStart(k: Keyword): nat {
    |k.name| + 28
  }

  function ContentEnd(k: Keyword): nat {
    ContentStart(k) + |Escaped(RawValue(k))|
  }

  lemma ContentPlace(k: Keyword)
    requires IsName(k.name)
    ensures var body, a, e := CardBody(k), ContentStart(k), ContentEnd(k);
            && e + 2 <= |body| && body[a..e] == Escaped(RawValue(k)) && body[e] == '\"' && body[e + 1] == ' '
            && AttrText(body, e + 2, "comment", Escaped(k.comment), "/")
  {
    CardParts(k);
    hide Escaped, RawValue, CardBody;
    var body, a, e := CardBody(k), ContentStart(k), ContentEnd(k);
    assert |CardFront(k)| == a;
    assert body == CardFront(k) + Escaped(RawValue(k)) + "\" " + CardTailText(k);
    assert body[e + 2..] == CardTailText(k);
    assert CardTailText(k) == "comment" + ("=\"" + (Escaped(k.comment) + ("\"" + "/")));
  }

  lemma NoCBefore(k: Keyword)
    requires IsName(k.name)
    ensures ContentStart(k) <= |CardBody(k)| && forall i :: 0 <= i < ContentStart(k) ==> CardBody(k)[i] != 'c'
  {
    ValueText(k);
    CardParts(k);
    hide Escaped, RawValue, CardBody;
    var body, a, front := CardBody(k), ContentStart(k), CardFront(k);
    var b := |k.name| + 21;
    assert |front| == a && forall i :: 0 <= i < a ==> body[i] == front[i];
    assert front == "<FITSKeyword name=\"" + k.name + "\" " + "value=\"";
    forall i | b <= i < a
      ensures body[i] != 'c'
    {
      assert front[i] == "value=\""[i - b];
    }
  }

  /** Where a run of white space ends. */
  lemma SpacesAre(s: string, q: nat, r: nat)
    requires q <= r <= |s| && (forall i :: q <= i < r ==> IsSpace(s[i])) && (r < |s| ==> !IsSpace(s[r]))
    ensures AfterSpaces(s, q) == r
  {
    hide IsSpace;
    var e := AfterSpaces(s, q);
    var atEnd := if e < |s| then s[e] else ' ';
    var atStop := if r < |s| then s[r] else ' ';
  }

  function Content(body: string, a: nat, e: nat): string
    requires a <= e <= |body|
  {
    body[a..e]
  }

  /** White space in a part of the text, when something else follows the part. */
  lemma SpacesWithin(body: string, a: nat, e: nat, x: nat)
    requires a + x <= e < |body| && !IsSpace(body[e])
    ensures AfterSpaces(body, a + x) == a + AfterSpaces(Content(body, a, e), x)
  {
    hide IsSpace;
    var part, r := Content(body, a, e), AfterSpaces(Content(body, a, e), x);
    forall i | a + x <= i < a + r
      ensures IsSpace(body[i])
    {
      assert body[i] == part[i - a];
    }
    assert r < |part| ==> body[a + r] == part[r];
    SpacesAre(body, a + x, a + r);
  }

  /** The layout of a body around the value's content. */
  ghost predicate Laid(body: string, a: nat, e: nat) {
    && 0 < a <= e && e + 2 <= |body| && body[a - 1] == '\"' && body[e] == '\"' && body[e + 1] == ' '
    && (forall i :: 0 <= i < a ==> body[i] != 'c') && Bare(Content(body, a, e))
  }

  /** An occurrence of the word before the comment lies inside the value's content. */
  lemma CommentPlace(body: string, a: nat, e: nat, p: nat)
    requires Laid(body, a, e) && p < e + 2 && WordAt(body, p)
    ensures a <= p && p + 7 <= e <= |body| && WordAt(Content(body, a, e), p - a)
  {
    assert body[p..][0] == body[p] && "comment"[0] == 'c';
    assert forall i :: 0 <= i < 7 ==> body[p..][i] == body[p + i] == "comment"[i];
    assert forall i :: 0 <= i < 7 ==> "comment"[i] != '\"' && "comment"[i] != ' ';
    assert Content(body, a, e)[p - a..] == body[p..e];
  }

  /** The word at p has a value. */
  predicate Valued(elem: string, p: nat)
    requires p + 7 <= |elem|
  {
    Aim(elem, p) >= 0 && QuotedAt(elem, Aim(elem, p)).Some?
  }

  lemma ValuedIs(elem: string, p: nat)
    requires p + 7 <= |elem|
    ensures ValueAt(elem, "comment", p) == if Aim(elem, p) < 0 then None else QuotedAt(elem, Aim(elem, p))
  {
    hide QuotedAt, AfterSpaces, WordBefore;
  }

  /** From inside the content the search aims at the same place as in the content alone. */
  lemma AimWithin(body: string, a: nat, e: nat, p: nat)
    requires Laid(body, a, e) && a + p + 7 <= e
    ensures |Content(body, a, e)| == e - a && e < |body|
    ensures Aim(body, a + p) == if Aim(Content(body, a, e), p) < 0 then -1 else a + Aim(Content(body, a, e), p)
  {
    var part := Content(body, a, e);
    var q := AfterSpaces(part, p + 7);
    LaidOut(body, a, e);
    hide IsSpace, AfterSpaces, WordBefore, Content, Laid;
    SpacesWithin(body, a, e, p + 7);
    WordWithin(body, a, e, p);
    if q < |part| {
      CharWithin(body, a, e, q);
      SpacesWithin(body, a, e, q + 1);
    }
  }

  lemma LaidOut(body: string, a: nat, e: nat)
    requires Laid(body, a, e)
    ensures 0 < a <= e && e + 2 <= |body| && |Content(body, a, e)| == e - a && !IsSpace(body[e]) && body[e] != '='
  {
  }

  lemma CharWithin(body: string, a: nat, e: nat, i: nat)
    requires a + i < e <= |body|
    ensures body[a + i] == Content(body, a, e)[i]
  {
  }

  lemma SameWord(body: string, a: nat, e: nat, p: nat)
    requires a <= e <= |body| && WordAt(Content(body, a, e), p)
    ensures a + p + 7 <= e && WordAt(body, a + p)
  {
  }

  /** Inside the content the word has a value only where it misleads, and then the value is what follows
      the content. */
  lemma ValueInside(body: string, a: nat, e: nat, p: nat)
    requires Laid(body, a, e) && WordAt(Content(body, a, e), p)
    ensures a + p + 7 <= e
    ensures Aim(Content(body, a, e), p) == |Content(body, a, e)| ==> Aim(body, a + p) == e
    ensures Aim(Content(body, a, e), p) != |Content(body, a, e)| ==> !Valued(body, a + p)
  {
    SameWord(body, a, e, p);
    AimWithin(body, a, e, p);
    hide Aim, WordAt, Content;
    var v := Aim(Content(body, a, e), p);
    if 0 <= v < |Content(body, a, e)| {
      NoQuoteInside(body, a, e, v);
    }
  }

  lemma NoQuoteInside(body: string, a: nat, e: nat, v: nat)
    requires Laid(body, a, e) && a + v <= e
    ensures a + v < e ==> QuotedAt(body, a + v).None?
  {
    assert a + v < e ==> body[a + v] == Content(body, a, e)[v];
    hide Unescaped, Find;
  }

  lemma WordWithin(body: string, a: nat, e: nat, p: nat)
    requires Laid(body, a, e) && a + p <= e
    ensures WordBefore(body, a + p) <==> WordBefore(Content(body, a, e), p)
  {
    assert p > 0 ==> body[a + p - 1] == Content(body, a, e)[p - 1];
  }

  /** After a misleading text there is no second one. */
  lemma MisleadsOnce(s: string, p: nat, r: nat)
    requires MisleadsAt(s, p) && MisleadsAt(s, r)
    ensures p == r
  {
    LastWord(s, p, r);
    LastWord(s, r, p);
  }

  lemma InWord(s: string, p: nat, j: nat)
    requires p < j < p + 7 && WordAt(s, p)
    ensures s[j] != 'c'
  {
    assert j == p + 1 || j == p + 2 || j == p + 3 || j == p + 4 || j == p + 5 || j == p + 6;
  }

  lemma WordIsPrefix(s: string, p: nat)
    requires p + 7 <= |s|
    ensures WordAt(s, p) <==> "comment" <= s[p..]
  {
    var tail := s[p..];
    assert tail[0] == s[p] && tail[1] == s[p + 1] && tail[2] == s[p + 2] && tail[3] == s[p + 3];
    assert tail[4] == s[p + 4] && tail[5] == s[p + 5] && tail[6] == s[p + 6];
    if WordAt(s, p) {
      assert tail[..7] == "comment";
    }
  }

  lemma LastWord(s: string, p: nat, r: nat)
    requires MisleadsAt(s, p) && MisleadsAt(s, r)
    ensures r <= p
  {
    assert s[r..][0] == s[r] && "comment"[0] == 'c';
    forall j | p < j < p + 7
      ensures s[j] != 'c'
    {
      InWord(s, p, j);
    }
  }

  /** What the search for the comment finds, whatever the value. */
  lemma CommentAfter(body: string, a: nat, e: nat, comment: string)
    requires Laid(body, a, e) && AttrText(body, e + 2, "comment", Escaped(comment), "/")
    ensures AttrFrom(body, "comment", 0) == Some(if Misleads(Content(body, a, e)) then MISTAKEN else comment)
  {
    if Misleads(Content(body, a, e)) {
      Mistaken(body, e, comment);
      MisleadingReached(body, a, e);
    } else {
      NothingMisleads(body, a, e, comment);
    }
  }

  lemma NothingMisleads(body: string, a: nat, e: nat, comment: string)
    requires Laid(body, a, e) && AttrText(body, e + 2, "comment", Escaped(comment), "/")
        && !Misleads(Content(body, a, e))
    ensures AttrFrom(body, "comment", 0) == Some(comment)
  {
    CommentHere(body, e, comment);
    ValuedIs(body, e + 2);
    hide AttrText, Laid, Misleads, Aim, QuotedAt, Escaped;
    forall p | 0 <= p < e + 2 && WordAt(body, p)
      ensures p + 7 <= e + 2 && !Valued(body, p)
    {
      NoneInside(body, a, e, p);
    }
    WordReached(body, e + 2);
  }

  lemma CommentHere(body: string, e: nat, comment: string)
    requires AttrText(body, e + 2, "comment", Escaped(comment), "/")
    ensures WordAt(body, e + 2) && ValueAt(body, "comment", e + 2) == Some(comment)
  {
    EscapedBare(comment);
    UnescapedEscaped(comment);
    hide AttrText, ValueAt, Unescaped, Escaped, Bare;
    ValueHere(body, e + 2, "comment", Escaped(comment), "/");
    WordIsPrefix(body, e + 2);
  }

  lemma NoneInside(body: string, a: nat, e: nat, p: nat)
    requires Laid(body, a, e) && !Misleads(Content(body, a, e)) && p < e + 2 && WordAt(body, p)
    ensures p + 7 <= e && !Valued(body, p)
  {
    CommentPlace(body, a, e, p);
    assert !MisleadsAt(Content(body, a, e), p - a) by {
      WordFits(Content(body, a, e), p - a);
      hide MisleadsAt;
    }
    hide Aim, Content, Misleads, Valued;
    ValueInside(body, a, e, p - a);
  }

  lemma WordFits(s: string, p: nat)
    requires WordAt(s, p)
    ensures p < |s|
  {
  }

  /** The search finds the first place where the word has a value. */
  lemma WordReached(elem: string, target: nat)
    requires WordAt(elem, target) && Valued(elem, target)
    requires forall p :: 0 <= p < target && WordAt(elem, p) ==> p + 7 <= target && !Valued(elem, p)
    ensures AttrFrom(elem, "comment", 0) == QuotedAt(elem, Aim(elem, target))
  {
    ValuedIs(elem, target);
    hide ValueAt, AttrFrom, QuotedAt, Aim;
    WordIsPrefix(elem, target);
    forall p | 0 <= p < target && p + 7 <= |elem| && "comment" <= elem[p..]
      ensures p + 7 <= target && ValueAt(elem, "comment", p).None?
    {
      WordIsPrefix(elem, p);
      assert !Valued(elem, p);
      ValuedIs(elem, p);
    }
    AttrReached(elem, "comment", 0, target);
  }

  lemma MisleadingReached(body: string, a: nat, e: nat)
    requires Laid(body, a, e) && Misleads(Content(body, a, e)) && QuotedAt(body, e).Some?
    ensures AttrFrom(body, "comment", 0) == QuotedAt(body, e)
  {
    var p: nat :| p < |Content(body, a, e)| && MisleadsAt(Content(body, a, e), p);
    SameWord(body, a, e, p);
    ValueInside(body, a, e, p);
    hide Laid, Aim, QuotedAt, Content, MisleadsAt;
    forall r | 0 <= r < a + p && WordAt(body, r)
      ensures r + 7 <= a + p && !Valued(body, r)
    {
      NoneBefore(body, a, e, p, r);
    }
    WordReached(body, a + p);
  }

  /** Before a misleading place the word has no value. */
  lemma NoneBefore(body: string, a: nat, e: nat, p: nat, r: nat)
    requires Laid(body, a, e) && MisleadsAt(Content(body, a, e), p)
    requires r < a + p && WordAt(body, r)
    ensures r + 7 <= a + p <= |body| && !Valued(body, r)
  {
    SameWord(body, a, e, p);
    hide MisleadsAt, Content, Valued, Laid;
    Apart(body, r, a + p);
    if r >= a {
      NotMisleading(Content(body, a, e), p, r - a);
    }
    NotMisled(body, a, e, r);
  }

  lemma NotMisled(body: string, a: nat, e: nat, r: nat)
    requires Laid(body, a, e) && r < e + 2 && WordAt(body, r) && (r >= a ==> !MisleadsAt(Content(body, a, e), r - a))
    ensures !Valued(body, r)
  {
    CommentPlace(body, a, e, r);
    hide Aim, Valued, Content;
    ValueInside(body, a, e, r - a);
  }

  lemma NotMisleading(s: string, p: nat, r: nat)
    requires MisleadsAt(s, p) && r < p
    ensures !MisleadsAt(s, r)
  {
    hide MisleadsAt;
    if MisleadsAt(s, r) {
      MisleadsOnce(s, r, p);
    }
  }

  /** The word does not overlap itself. */
  lemma Apart(body: string, r: nat, p: nat)
    requires r < p && WordAt(body, r) && WordAt(body, p)
    ensures r + 7 <= p
  {
    assert body[p..][0] == body[p] && "comment"[0] == 'c';
    if p < r + 7 {
      InWord(body, r, p);
    }
  }

  /** The quote that closes the content, taken for one that opens a value. */
  lemma Mistaken(body: string, e: nat, comment: string)
    requires e + 2 <= |body| && body[e] == '\"' && body[e + 1] == ' '
    requires AttrText(body, e + 2, "comment", Escaped(comment), "/")
    ensures QuotedAt(body, e) == Some(MISTAKEN)
  {
    var back := Escaped(comment) + "\"/";
    MistakenPlain();
    TailSplit(Escaped(comment));
    assert body[e + 1..] == " " + body[e + 2..];
    assert body[e + 2..] == "comment" + ("=\"" + (Escaped(comment) + ("\"" + "/")));
    hide *;
    QuoteFound(body, e + 1, MISTAKEN, back);
    QuoteRead(body, e, e + 1 + |MISTAKEN|);
  }

  lemma MistakenPlain()
    ensures Bare(MISTAKEN) && Unescaped(MISTAKEN) == MISTAKEN
  {
    EscapedPlain(MISTAKEN);
    hide Unescaped, Escaped;
  }

  lemma TailSplit(c: string)
    ensures " " + ("comment" + ("=\"" + (c + ("\"" + "/")))) == MISTAKEN + ("\"" + (c + "\"/"))
  {
    assert " " + "comment" + "=" == MISTAKEN;
  }

  // ---- A value misleads when its printed form does ----

  lemma {:induction false} EscapedConcat(x: string, y: string)
    ensures Escaped(x + y) == Escaped(x) + Escaped(y)
  {
    hide EscapedChar;
    if x == "" {
      assert x + y == y;
    } else {
      EscapedConcat(x[1..], y);
      assert (x + y)[0] == x[0] && (x + y)[1..] == x[1..] + y;
    }
  }

  /** No semicolon, and nothing that is escaped. */
  predicate Clear(s: string) {
    forall i :: 0 <= i < |s| ==> ClearChar(s[i])
  }

  predicate ClearChar(c: char) {
    c != ';' && c != '&' && c != '<' && c != '>' && c != '\"' && c != '\''
  }

  /** A clear end of a printed form is the end of what was printed. */
  lemma {:induction false} ClearEnd(s: string, x: string, t: string) returns (y: string)
    requires Escaped(s) == x + t && Clear(t)
    ensures s == y + t && Escaped(y) == x
    decreases |t|
  {
    if t == "" {
      assert x + t == x && s + t == s;
      y := s;
    } else {
      var c := LastOf(s, x, t);
      hide Escaped;
      y := ClearEnd(s[..|s| - 1], x, t[..|t| - 1]);
      assert y + t == y + t[..|t| - 1] + [c];
    }
  }

  /** The last character, printed as it is. */
  lemma LastOf(s: string, x: string, t: string) returns (c: char)
    requires Escaped(s) == x + t && Clear(t) && t != ""
    ensures s != "" && s == s[..|s| - 1] + [c] && t == t[..|t| - 1] + [c]
    ensures Escaped(s[..|s| - 1]) == x + t[..|t| - 1]
  {
    assert |x + t| > 0 && s != "";
    c := s[|s| - 1];
    assert s == s[..|s| - 1] + [c];
    EscapedLast(s[..|s| - 1], c);
    hide Escaped, EscapedChar;
    LastPeels(s[..|s| - 1], c, x, t);
  }

  lemma LastPeels(front: string, c: char, x: string, t: string)
    requires Escaped(front) + EscapedChar(c) == x + t && Clear(t) && t != ""
    ensures t[|t| - 1] == c && Escaped(front) == x + t[..|t| - 1]
  {
    var e, printed := Escaped(front), EscapedChar(c);
    hide Escaped;
    var all := x + t;
    assert all[|all| - 1] == t[|t| - 1] && (e + printed)[|all| - 1] == printed[|printed| - 1];
    assert ClearChar(printed[|printed| - 1]) && printed == [c];
    assert (e + printed)[..|all| - 1] == e && all[..|all| - 1] == x + t[..|t| - 1];
  }

  lemma MisleadingClear(s: string, p: nat)
    requires MisleadsAt(s, p)
    ensures Clear(s[p..])
  {
    forall i | 0 <= i < |s| - p
      ensures ClearChar(s[p..][i])
    {
      assert s[p..][i] == s[p + i];
      if i < 7 {
        assert s[p..][i] == "comment"[i];
      }
    }
  }

  /** What precedes the word, printed or not, ends in a letter of a word or does not. */
  lemma {:induction false} PrintedWord(x: string, t: string)
    ensures WordBefore(Escaped(x) + t, |Escaped(x)|) <==> WordBefore(x + t, |x|)
  {
    if x != "" {
      var front, c := x[..|x| - 1], x[|x| - 1];
      assert x == front + [c];
      EscapedLast(front, c);
      var e := Escaped(x);
      assert e[|e| - 1] == EscapedChar(c)[|EscapedChar(c)| - 1];
      assert (e + t)[|e| - 1] == e[|e| - 1] && (x + t)[|x| - 1] == c;
    }
  }

  /** Whether a text misleads is a matter of its end and of the character before that. */
  lemma MisleadsByEnd(s: string, x: string, t: string)
    requires s == x + t
    ensures MisleadsAt(s, |x|) <==> !WordBefore(s, |x|) && MisleadsAt(t, 0)
  {
    var p := |x|;
    assert s[p..] == t && t[0..] == t;
    if p + 7 <= |s| {
      EndSpaces(s, x, t, 7);
      var q := AfterSpaces(t, 7);
      if q < |t| {
        assert s[p + q] == t[q];
        EndSpaces(s, x, t, q + 1);
      }
    }
  }

  lemma EndSpaces(s: string, x: string, t: string, q: nat)
    requires s == x + t && q <= |t|
    ensures AfterSpaces(s, |x| + q) == |x| + AfterSpaces(t, q)
  {
    hide IsSpace;
    var r := AfterSpaces(t, q);
    assert forall i :: |x| <= i < |s| ==> s[i] == t[i - |x|];
    SpacesAre(s, |x| + q, |x| + r);
  }

  lemma PrintedMisleadsToo(s: string, p: nat)
    requires p < |s| && MisleadsAt(s, p)
    ensures Misleads(Escaped(s))
  {
    var x, t := s[..p], s[p..];
    assert s == x + t;
    MisleadingClear(s, p);
    EscapedConcat(x, t);
    EscapedPlain(t);
    MisleadsByEnd(s, x, t);
    PrintedWord(x, t);
    MisleadsByEnd(Escaped(x) + t, Escaped(x), t);
    hide MisleadsAt, Escaped, WordBefore;
    assert MisleadsAt(Escaped(s), |Escaped(x)|);
  }

  lemma MisleadsUnprinted(s: string, p: nat)
    requires p < |Escaped(s)| && MisleadsAt(Escaped(s), p)
    ensures Misleads(s)
  {
    var e := Escaped(s);
    var x, t := e[..p], e[p..];
    assert e == x + t;
    MisleadingClear(e, p);
    var y := ClearEnd(s, x, t);
    MisleadsByEnd(e, x, t);
    PrintedWord(y, t);
    MisleadsByEnd(s, y, t);
    hide MisleadsAt, Escaped, WordBefore;
    assert MisleadsAt(s, |y|);
  }

  lemma PrintedMisleads(s: string)
    ensures Misleads(Escaped(s)) <==> Misleads(s)
  {
    hide MisleadsAt, Escaped;
    if p: nat :| p < |s| && MisleadsAt(s, p) {
      PrintedMisleadsToo(s, p);
    }
    if p: nat :| p < |Escaped(s)| && MisleadsAt(Escaped(s), p) {
      MisleadsUnprinted(s, p);
    }
  }

  /** A string in quotes does not mislead. */
  lemma QuotedIsClear(s: string)
    ensures !Misleads(FitsQuoted(s))
  {
    var q := FitsQuoted(s);
    hide MisleadsAt;
    forall p: nat | p < |q|
      ensures !MisleadsAt(q, p)
    {
      if MisleadsAt(q, p) {
        LastClear(q, p);
      }
    }
  }

  lemma LastClear(s: string, p: nat)
    requires MisleadsAt(s, p)
    ensures p < |s| && ClearChar(s[|s| - 1])
  {
    MisleadingClear(s, p);
    assert s[p..][|s| - p - 1] == s[|s| - 1];
    hide AfterSpaces;
  }

  // ---- A card ----

  lemma CommentRead(k: Keyword)
    requires IsName(k.name)
    ensures AttrFrom(CardBody(k), "comment", 0) == Some(CommentBack(k))
  {
    ContentPlace(k);
    NoCBefore(k);
    EscapedBare(RawValue(k));
    PrintedMisleads(RawValue(k));
    QuoteBefore(k);
    hide CardBody, AttrText, AttrFrom, RawValue, Escaped, IsName, ContentStart, Misleads;
    CommentAfter(CardBody(k), ContentStart(k), ContentEnd(k), k.comment);
  }

  lemma QuoteBefore(k: Keyword)
    ensures ContentStart(k) <= |CardBody(k)| && CardBody(k)[ContentStart(k) - 1] == '\"'
  {
    CardParts(k);
    hide Escaped, RawValue, CardBody;
    assert |CardFront(k)| == ContentStart(k);
  }

  /** The comment comes back exactly when the value does not end so that the quote after it looks like
      the one that opens a comment, or the comment is the text then read. */
  lemma CommentKept(k: Keyword)
    requires IsName(k.name)
    ensures AttrFrom(CardBody(k), "comment", 0) == Some(k.comment) <==> !Misleads(RawValue(k)) || k.comment == MISTAKEN
  {
    CommentRead(k);
    hide AttrFrom, CardBody, Misleads, RawValue;
  }

  /** So an unquoted value that ends in the word comment and an equals sign loses its card the comment. */
  lemma UnquotedMisread(k: Keyword, front: string)
    requires IsName(k.name) && !k.quoted && k.value == front + "comment=" && !WordBefore(k.value, |front|)
    ensures AttrFrom(CardBody(k), "comment", 0) == Some(MISTAKEN)
  {
    CommentRead(k);
    var v, p := k.value, |front|;
    assert v[p..] == "comment=";
    WordIsPrefix(v, p);
    SpacesAre(v, p + 7, p + 7);
    SpacesAre(v, p + 8, p + 8);
    hide AfterSpaces, WordBefore, AttrFrom, CardBody;
    assert MisleadsAt(v, p);
  }

  /** What is read from a printed card, whatever its value and comment. */
  lemma CardRead(k: Keyword)
    requires IsName(k.name)
    ensures CardOf(CardBody(k)) == [CardBack(k)]
  {
    NameRead(k);
    ValueBack(k);
    CommentRead(k);
    hide CardBody, AttrFrom, Stripped, RawValue, CommentBack;
  }

  /** A card comes back as it was exactly when it is legal. */
  lemma CardKept(k: Keyword)
    requires IsName(k.name)
    ensures CardBack(k) == Card(k.name, k.value, k.comment) <==> LegalKeyword(k)
  {
    if k.quoted {
      QuotedIsClear(k.value);
      StrippedQuoted(k.value);
    } else if InQuotes(k.value) {
      UnquotedShrinks(k.value);
    }
    TrimmedKept(k.value);
    hide RTrim, LTrim, FitsQuoted, Misleads, Collapsed;
  }

  lemma TrimmedKept(s: string)
    ensures LTrim(RTrim(s, false)) == s <==> Unpadded(s)
  {
    RTrimPrefix(s);
    LTrimShorter(RTrim(s, false));
    if s != "" {
      RTrimLast(s);
    }
  }

  lemma RTrimLast(s: string)
    requires s != ""
    ensures RTrim(s, false) == s <==> !IsBlank(s[|s| - 1])
  {
    RTrimPrefix(s[..|s| - 1]);
  }

  lemma UnquotedShrinks(s: string)
    requires InQuotes(s)
    ensures |Stripped(s)| < |s|
  {
    var inner := s[1..|s| - 1];
    CollapsedShorter(inner);
    RTrimPrefix(Collapsed(inner));
    LTrimShorter(RTrim(Collapsed(inner), false));
    hide RTrim, LTrim, Collapsed;
  }

  lemma {:induction false} CollapsedShorter(s: string)
    ensures |Collapsed(s)| <= |s|
    decreases |s|
  {
    if s != "" {
      CollapsedShorter(s[1..]);
      if |s| > 1 {
        CollapsedShorter(s[2..]);
      }
    }
  }
}
