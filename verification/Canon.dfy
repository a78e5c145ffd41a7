/** Object names: catalogue designations in one canonical form, the Messier one where there is one. */
module Canon {
  import opened Chars
  import opened Options
  import opened Decimal
  import opened Messier

  // ---- Whitespace ----

  /** The maximal runs of non-blank characters. */
  function Words(s: string): seq<string> {
    if s == "" then [] else
    var front, last := s[..|s| - 1], s[|s| - 1];
    var ws := Words(front);
    if IsSpace(last) then ws
    else if front == "" || IsSpace(front[|front| - 1]) || ws == [] then ws + [[last]]
    else ws[..|ws| - 1] + [ws[|ws| - 1] + [last]]
  }

  function Joined(ws: seq<string>): string {
    if ws == [] then "" else if |ws| == 1 then ws[0] else Joined(ws[..|ws| - 1]) + " " + ws[|ws| - 1]
  }

  function Tidied(s: string): string {
    Joined(Words(s))
  }

  predicate IsWord(w: string) {
    w != "" && forall i :: 0 <= i < |w| ==> !IsSpace(w[i])
  }

  lemma {:induction false} WordsAreWords(s: string)
    ensures forall i :: 0 <= i < |Words(s)| ==> IsWord(Words(s)[i])
    ensures s != "" && !IsSpace(s[|s| - 1]) ==> Words(s) != []
  {
    if s != "" {
      WordsAreWords(s[..|s| - 1]);
    }
  }

  lemma JoinedEmpty(ws: seq<string>)
    requires forall i :: 0 <= i < |ws| ==> IsWord(ws[i])
    ensures Joined(ws) == "" <==> ws == []
  {
  }

  /** tidy: one pass that holds a blank back until the next word begins. */
  method Tidy(raw: string) returns (out: string)
    ensures out == Tidied(raw)
  {
    out := "";
    var pending := false;
    var i := 0;
    NoWords();
    assert raw[..0] == "";
    hide Tidied, IsSpace;
    while i < |raw|
      invariant 0 <= i <= |raw|
      invariant out == Tidied(raw[..i])
      invariant pending <==> out != "" && i > 0 && IsSpace(raw[i - 1])
    {
      var c := raw[i];
      TidiedMore(raw[..i], c);
      assert raw[..i] + [c] == raw[..i + 1];
      if IsSpace(c) {
        pending := out != "";
      } else {
        if pending {
          out := out + " ";
          pending := false;
        }
        out := out + [c];
      }
      i := i + 1;
    }
    assert raw[..i] == raw;
  }

  lemma WordsSnoc(s: string, c: char)
    ensures var ws := Words(s);
            Words(s + [c]) ==
              if IsSpace(c) then ws
              else if s == "" || IsSpace(s[|s| - 1]) || ws == [] then ws + [[c]]
              else ws[..|ws| - 1] + [ws[|ws| - 1] + [c]]
  {
    var t := s + [c];
    assert t[..|t| - 1] == s;
  }

  lemma JoinedSnoc(ws: seq<string>, w: string)
    ensures Joined(ws + [w]) == if ws == [] then w else Joined(ws) + " " + w
  {
    assert (ws + [w])[..|ws|] == ws;
  }

  lemma JoinedExtended(ws: seq<string>, c: char)
    requires ws != []
    ensures Joined(ws[..|ws| - 1] + [ws[|ws| - 1] + [c]]) == Joined(ws) + [c]
  {
    hide Joined;
    var front, w := ws[..|ws| - 1], ws[|ws| - 1];
    assert ws == front + [w];
    JoinedSnoc(front, w);
    JoinedSnoc(front, w + [c]);
    if front != [] {
      assert Joined(front) + " " + (w + [c]) == (Joined(front) + " " + w) + [c];
    }
  }

  lemma TidiedMore(s: string, c: char)
    ensures Tidied(s + [c]) ==
            if IsSpace(c) then Tidied(s)
            else Tidied(s) + (if Tidied(s) != "" && IsSpace(s[|s| - 1]) then " " else "") + [c]
  {
    hide Words, Joined, IsSpace;
    var ws := Words(s);
    WordsAreWords(s);
    JoinedEmpty(ws);
    WordsSnoc(s, c);
    if ws == [] {
      JoinedSnoc([], [c]);
      assert [] + [[c]] == [[c]];
    } else if s == "" || IsSpace(s[|s| - 1]) {
      NoWords();
      JoinedSnoc(ws, [c]);
    } else {
      JoinedExtended(ws, c);
    }
  }

  /** Appending a word after a blank, or to nothing, adds that word. */
  lemma {:induction false} WordsAppend(s: string, w: string)
    requires IsWord(w) && (s == "" || IsSpace(s[|s| - 1]))
    ensures Words(s + w) == Words(s) + [w]
    decreases |w|
  {
    hide Words;
    var n := |w| - 1;
    var front := w[..n];
    assert s + w == (s + front) + [w[n]];
    WordsSnoc(s + front, w[n]);
    if n == 0 {
      assert s + front == s;
      assert [w[0]] == w;
    } else {
      WordsAppend(s, front);
      assert (Words(s) + [front])[..|Words(s)|] == Words(s);
      assert front + [w[n]] == w;
    }
  }

  lemma {:induction false} WordsJoined(ws: seq<string>)
    requires forall i :: 0 <= i < |ws| ==> IsWord(ws[i])
    ensures Words(Joined(ws)) == ws
  {
    if |ws| == 0 {
    } else {
      var front, last := ws[..|ws| - 1], ws[|ws| - 1];
      WordsJoined(front);
      assert ws == front + [last];
      JoinedSnoc(front, last);
      NoWords();
      WordsSnoc(Joined(front), ' ');
      hide Words, Joined;
      if front == [] {
        WordsAppend("", last);
        assert "" + last == last;
      } else {
        WordsAppend(Joined(front) + " ", last);
      }
    }
  }

  lemma NoWords()
    ensures Words("") == [] && Joined([]) == ""
  {
  }

  lemma TidyIdempotent(s: string)
    ensures Tidied(Tidied(s)) == Tidied(s)
  {
    WordsAreWords(s);
    WordsJoined(Words(s));
  }

  // ---- Catalogue numbers ----

  predicate IsSeparator(c: char) {
    c == ' ' || c == '_' || c == '-'
  }

  function AfterSeparators(s: string): string {
    if s != "" && IsSeparator(s[0]) then AfterSeparators(s[1..]) else s
  }

  /** Digits, then at most one letter, which is put in upper case. */
  predicate IsCatalogNumber(num: string) {
    && num != "" && IsDigit(num[0])
    && (forall i :: 0 <= i < |num| - 1 ==> IsDigit(num[i]))
    && (IsDigit(num[|num| - 1]) || IsUpper(num[|num| - 1]))
  }

  function NumberOf(s: string): (r: Option<string>)
    ensures r.Some? ==> IsCatalogNumber(r.value)
  {
    var num := AfterSeparators(s);
    var d := DigitRun(num, 0);
    if d == 0 then None
    else if d == |num| then Some(num)
    else if d == |num| - 1 && IsAlpha(num[d]) then Some(num[..d] + [UpperChar(num[d])])
    else None
  }

  /** catalog_number: skip separators, count digits, then look at what is left. */
  method CatalogNumber(rest: string) returns (r: Option<string>)
    ensures r == NumberOf(rest)
  {
    var i := 0;
    while i < |rest| && IsSeparator(rest[i])
      invariant 0 <= i <= |rest|
      invariant AfterSeparators(rest) == AfterSeparators(rest[i..])
    {
      i := i + 1;
    }
    var num := rest[i..];
    assert num == AfterSeparators(rest);
    hide AfterSeparators, IsSeparator;
    if num == "" || !IsDigit(num[0]) {
      return None;
    }
    var d := 0;
    while d < |num| && IsDigit(num[d])
      invariant 0 <= d <= |num|
      invariant DigitRun(num, d) == DigitRun(num, 0)
    {
      d := d + 1;
    }
    if d == 0 {
      return None;
    }
    if d == |num| {
      return Some(num);
    }
    if d == |num| - 1 && IsAlpha(num[d]) {
      return Some(num[..d] + [UpperChar(num[d])]);
    }
    r := None;
  }

  // ---- The rules ----

  /** An alias in lower case, the acronym it stands for and the separator the acronym takes. */
  datatype Rule = Rule(alias: string, acronym: string, separator: char)

  const RULES: seq<Rule> := [
    Rule("messier", "M", ' '), Rule("m", "M", ' '),
    Rule("ngc", "NGC", ' '),
    Rule("ic", "IC", ' '),
    Rule("ugc", "UGC", ' '),
    Rule("pgc", "PGC", ' '),
    Rule("arp", "Arp", ' '),
    Rule("abell", "Abell", ' '), Rule("aco", "Abell", ' '),
    Rule("sharpless", "Sh2", '-'), Rule("sh2", "Sh2", '-'), Rule("sh", "Sh2", '-'),
    Rule("lbn", "LBN", ' '),
    Rule("ldn", "LDN", ' '),
    Rule("collinder", "Cr", ' '), Rule("cr", "Cr", ' '),
    Rule("melotte", "Mel", ' '), Rule("mel", "Mel", ' '),
    Rule("vdb", "vdB", ' '),
    Rule("cederblad", "Ced", ' '), Rule("ced", "Ced", ' '),
    Rule("caldwell", "C", ' '),
    Rule("barnard", "B", ' '), Rule("b", "B", ' ')]

  /** The catalogue number of s under one alias: the alias must not run on into another letter. */
  function Try(alias: string, s: string): Option<string> {
    if |s| < |alias| || Lower(s)[..|alias|] != alias then None
    else if |alias| < |s| && IsAlpha(s[|alias|]) then None
    else NumberOf(s[|alias|..])
  }

  datatype Match = Match(rule: Rule, num: string)

  /** First match in rule order. */
  function FirstMatch(s: string, k: nat): Option<Match>
    requires k <= |RULES|
    decreases |RULES| - k
  {
    if k == |RULES| then None
    else if Try(RULES[k].alias, s).Some? then Some(Match(RULES[k], Try(RULES[k].alias, s).value))
    else FirstMatch(s, k + 1)
  }

  const PLACEHOLDERS := {
    "", "target", "none", "unknown", "n/a", "na", "test", "flatwizard", "flat", "dark", "bias", "object", "no target",
    "-"}

  function AltText(a: Alt): string {
    match a
    case NGC(n) => "NGC " + ToDec(n)
    case IC(n) => "IC " + ToDec(n)
  }

  function MessierText(m: nat): string {
    "M " + ToDec(m)
  }

  /** m_to_alt, filled from the table. */
  function MToAlt(s: string, m: nat): Option<string> {
    if m == 0 then None
    else if AltOf(m).Some? && MessierText(m) == s then Some(AltText(AltOf(m).value))
    else MToAlt(s, m - 1)
  }

  /** alt_to_m, filled from the table. */
  function AltToM(s: string, m: nat): Option<string> {
    if m == 0 then None
    else if AltOf(m).Some? && AltText(AltOf(m).value) == s then Some(MessierText(m))
    else AltToM(s, m - 1)
  }

  datatype Canonical = Canonical(canonical: string, catalog: string, placeholder: bool, changed: bool)

  function Canonicalize(raw: string): Canonical {
    var s := Tidied(raw);
    if Lower(s) in PLACEHOLDERS then Canonical(s, "", true, false)
    else
      match FirstMatch(s, 0)
      case None => Canonical(s, "", false, false)
      case Some(Match(rule, num)) =>
        var name := rule.acronym + [rule.separator] + num;
        var m := if rule.acronym == "NGC" || rule.acronym == "IC" then AltToM(name, LAST) else None;
        match m
        case Some(messier) => Canonical(messier, "M", false, messier != s)
        case None => Canonical(name, rule.acronym, false, name != s)
  }

  function Designations(raw: string): seq<string> {
    var c := Canonicalize(raw);
    var alt := if c.catalog == "M" then MToAlt(c.canonical, LAST) else None;
    if alt.Some? then [c.canonical, alt.value] else [c.canonical]
  }
}
