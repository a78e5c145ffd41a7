/** Values of header cards: the FITS quoting of strings, and the two decoders of it, the one for FITS
    files and the one for XISF headers. */
module FitsText {
  import opened Options

  predicate IsBlank(c: char) {
    c == ' ' || c == '\t'
  }

  /** A string as a FITS value, section 4.2.1 of the FITS Standard 4.0: in quotes, each quote doubled. */
  function Doubled(s: string): string {
    if s == "" then "" else (if s[0] == '\'' then "''" else [s[0]]) + Doubled(s[1..])
  }

  function FitsQuoted(s: string): string {
    "'" + Doubled(s) + "'"
  }

  // ---- Trimming ----

  function RTrim(s: string, ends: bool): string {
    if s != "" && (IsBlank(s[|s| - 1]) || (ends && (s[|s| - 1] == '\r' || s[|s| - 1] == '\n')))
        then RTrim(s[..|s| - 1], ends) else s
  }

  function LTrim(s: string): string {
    if s != "" && IsBlank(s[0]) then LTrim(s[1..]) else s
  }

  // ---- The FITS decoder ----

  /** Up to the closing quote, two quotes standing for one. */
  function Unquoted(s: string): string {
    if s == "" then ""
    else if s[0] != '\'' then [s[0]] + Unquoted(s[1..])
    else if |s| > 1 && s[1] == '\'' then "'" + Unquoted(s[2..])
    else ""
  }

  function Cleaned(raw: string): string {
    if raw != "" && raw[0] == '\'' then RTrim(Unquoted(raw[1..]), true) else RTrim(raw, true)
  }

  /** clean_value */
  method CleanValue(raw: string) returns (r: string)
    ensures r == Cleaned(raw)
  {
    hide RTrim, Unquoted;
    if raw != "" && raw[0] == '\'' {
      var out := DropQuotes(raw);
      r := RStrip(out, true);
    } else {
      r := RStrip(raw, true);
    }
  }

  /** The loop of clean_value: a closing quote ends the string, two quotes go on with it. */
  method DropQuotes(raw: string) returns (out: string)
    requires raw != ""
    ensures out == Unquoted(raw[1..])
  {
    out := "";
    var i := 1;
    while i < |raw|
      invariant 1 <= i <= |raw|
      invariant Unquoted(raw[1..]) == out + Unquoted(raw[i..])
    {
      if raw[i] == '\'' {
        if i + 1 < |raw| && raw[i + 1] == '\'' {
          assert raw[i..][2..] == raw[i + 2..];
          out := out + "'";
          i := i + 1;
        } else {
          return;
        }
      } else {
        assert raw[i..][1..] == raw[i + 1..];
        out := out + [raw[i]];
      }
      i := i + 1;
    }
  }

  /** rstrip, or the trailing half of strip_fits_value's trimming. */
  method RStrip(s: string, ends: bool) returns (r: string)
    ensures r == RTrim(s, ends)
  {
    var n := |s|;
    assert s[..n] == s;
    while n > 0 && (s[n - 1] == ' ' || s[n - 1] == '\t' || (ends && (s[n - 1] == '\r' || s[n - 1] == '\n')))
      invariant 0 <= n <= |s|
      invariant RTrim(s, ends) == RTrim(s[..n], ends)
    {
      assert s[..n][..n - 1] == s[..n - 1];
      n := n - 1;
    }
    r := s[..n];
  }

  // ---- The XISF decoder ----

  /** Every character; a second quote right after a quote is dropped. */
  function Collapsed(s: string): string {
    if s == "" then ""
    else [s[0]] + Collapsed(if s[0] == '\'' && |s| > 1 && s[1] == '\'' then s[2..] else s[1..])
  }

  predicate InQuotes(s: string) {
    |s| >= 2 && s[0] == '\'' && s[|s| - 1] == '\''
  }

  function Stripped(raw: string): string {
    LTrim(RTrim(if InQuotes(raw) then Collapsed(raw[1..|raw| - 1]) else raw, false))
  }

  /** strip_fits_value */
  method StripFitsValue(raw: string) returns (r: string)
    ensures r == Stripped(raw)
  {
    hide RTrim, LTrim, Collapsed;
    var s := raw;
    if |s| >= 2 && s[0] == '\'' && s[|s| - 1] == '\'' {
      s := Collapse(s[1..|s| - 1]);
    }
    s := RStrip(s, false);
    var b := 0;
    LTrimStep(s, 0);
    while b < |s| && (s[b] == ' ' || s[b] == '\t')
      invariant 0 <= b <= |s|
      invariant LTrim(s) == LTrim(s[b..])
    {
      LTrimStep(s, b);
      b := b + 1;
    }
    LTrimStep(s, b);
    r := s[b..];
  }

  lemma LTrimStep(s: string, b: nat)
    requires b <= |s|
    ensures s[0..] == s && LTrim(s[b..]) == if b < |s| && IsBlank(s[b]) then LTrim(s[b + 1..]) else s[b..]
  {
    if b < |s| {
      assert s[b..][1..] == s[b + 1..];
    }
  }

  method Collapse(s: string) returns (t: string)
    ensures t == Collapsed(s)
  {
    t := "";
    var i := 0;
    while i < |s|
      invariant 0 <= i <= |s|
      invariant Collapsed(s) == t + Collapsed(s[i..])
    {
      t := t + [s[i]];
      if s[i] == '\'' && i + 1 < |s| && s[i + 1] == '\'' {
        assert s[i..][2..] == s[i + 2..];
        i := i + 1;
      } else {
        assert s[i..][1..] == s[i + 1..];
      }
      i := i + 1;
    }
  }

  // ---- Both decode FITS quoting ----

  lemma {:induction false} UnquotedDoubled(s: string)
    ensures Unquoted(Doubled(s) + "'") == s
  {
    if s == "" {
      assert Doubled(s) + "'" == "'";
    } else {
      var rest := Doubled(s[1..]) + "'";
      UnquotedDoubled(s[1..]);
      var all := Doubled(s) + "'";
      if s[0] == '\'' {
        assert all == "''" + rest;
        assert all[2..] == rest;
      } else {
        assert all == [s[0]] + rest;
        assert all[1..] == rest;
      }
      assert s == [s[0]] + s[1..];
    }
  }

  lemma {:induction false} CollapsedDoubled(s: string)
    ensures Collapsed(Doubled(s)) == s
  {
    if s != "" {
      CollapsedDoubled(s[1..]);
      if s[0] == '\'' {
        assert Doubled(s)[2..] == Doubled(s[1..]);
      } else {
        assert Doubled(s)[1..] == Doubled(s[1..]);
      }
      assert s == [s[0]] + s[1..];
    }
  }

  lemma CleanedQuoted(s: string)
    ensures Cleaned(FitsQuoted(s)) == RTrim(s, true)
  {
    assert FitsQuoted(s)[1..] == Doubled(s) + "'";
    UnquotedDoubled(s);
    hide Doubled, Unquoted, RTrim;
  }

  lemma StrippedQuoted(s: string)
    ensures Stripped(FitsQuoted(s)) == LTrim(RTrim(s, false))
  {
    var q := FitsQuoted(s);
    assert q[1..|q| - 1] == Doubled(s);
    CollapsedDoubled(s);
    hide Doubled, Collapsed, RTrim, LTrim;
  }

  /** The characters FITS allows in a string leave no line ends to trim. */
  predicate NoLineEnds(s: string) {
    forall i :: 0 <= i < |s| ==> s[i] != '\r' && s[i] != '\n'
  }

  lemma {:induction false} RTrimSame(s: string)
    requires NoLineEnds(s)
    ensures RTrim(s, true) == RTrim(s, false)
  {
    if s != "" {
      RTrimSame(s[..|s| - 1]);
    }
  }

  lemma {:induction false} LTrimShorter(s: string)
    ensures |LTrim(s)| <= |s| && (LTrim(s) == s <==> s == "" || !IsBlank(s[0]))
  {
    if s != "" && IsBlank(s[0]) {
      LTrimShorter(s[1..]);
    }
  }

  lemma {:induction false} RTrimPrefix(s: string)
    ensures RTrim(s, false) <= s
    ensures RTrim(s, false) == "" <==> forall i :: 0 <= i < |s| ==> IsBlank(s[i])
  {
    if s != "" {
      var front := s[..|s| - 1];
      RTrimPrefix(front);
      if IsBlank(s[|s| - 1]) {
        assert forall i :: 0 <= i < |s| ==> (i < |front| ==> s[i] == front[i]) && (i >= |front| ==> i == |s| - 1);
      }
    }
  }

  /** The two decoders agree on a quoted value exactly when it does not begin with a blank, or is blank. */
  lemma DecodersAgree(s: string)
    requires NoLineEnds(s)
    ensures Cleaned(FitsQuoted(s)) == Stripped(FitsQuoted(s))
       <==> s == "" || !IsBlank(s[0]) || forall i :: 0 <= i < |s| ==> IsBlank(s[i])
  {
    CleanedQuoted(s);
    StrippedQuoted(s);
    RTrimSame(s);
    RTrimPrefix(s);
    LTrimShorter(RTrim(s, false));
    hide Cleaned, Stripped, FitsQuoted, RTrim, LTrim, IsBlank;
  }

  lemma {:induction false} RTrimKeeps(s: string, ends: bool)
    requires s == "" || (!IsBlank(s[|s| - 1]) && s[|s| - 1] != '\r' && s[|s| - 1] != '\n')
    ensures RTrim(s, ends) == s
  {
  }

  /** A value without surrounding blanks comes back as it was, through either file format. */
  lemma ValueBack(s: string)
    requires s == "" || (!IsBlank(s[0]) && !IsBlank(s[|s| - 1]) && s[|s| - 1] != '\r' && s[|s| - 1] != '\n')
    ensures Cleaned(FitsQuoted(s)) == s && Stripped(FitsQuoted(s)) == s
  {
    CleanedQuoted(s);
    StrippedQuoted(s);
    RTrimKeeps(s, true);
    RTrimKeeps(s, false);
    LTrimShorter(s);
  }
}
