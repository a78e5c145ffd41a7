/** The laws of canonical names: canonicalising twice changes nothing, the designations of an object
    are one class, and a search finds a frame exactly when their names have one canonical form. */
module CanonLaws {
  import opened Chars
  import opened Options
  import opened Decimal
  import opened Messier
  import opened Canon

  // ---- Reading a canonical designation back ----

  const ACRONYMS := {
    "M", "NGC", "IC", "UGC", "PGC", "Arp", "Abell", "Sh2", "LBN", "LDN", "Cr", "Mel", "vdB", "Ced", "C", "B"}

  function SeparatorOf(acronym: string): char {
    if acronym == "Sh2" then '-' else ' '
  }

  function NameOf(acronym: string, num: string): string {
    acronym + [SeparatorOf(acronym)] + num
  }

  predicate AnyRule(k: nat) {
    || k == 0 || k == 1 || k == 2 || k == 3 || k == 4 || k == 5 || k == 6 || k == 7 || k == 8 || k == 9 || k == 10
    || k == 11
    || k == 12 || k == 13 || k == 14 || k == 15 || k == 16 || k == 17 || k == 18 || k == 19 || k == 20 || k == 21
    || k == 22 || k == 23
  }

  /** The leading letters of an acronym, in lower case. */
  function Stem(acronym: string): string {
    if acronym == "Sh2" then "sh" else Lower(acronym)
  }

  /** Every rule's alias is letters, but for the 2 of "sh2"; its acronym and separator are known. */
  lemma RuleShape(k: nat)
    requires k < |RULES|
    ensures RULES[k].acronym in ACRONYMS && RULES[k].separator == SeparatorOf(RULES[k].acronym)
    ensures RULES[k].alias != "" && forall i :: 0 <= i < |RULES[k].alias| ==>
              'a' <= RULES[k].alias[i] <= 'z' || (k == 10 && i == 2 && RULES[k].alias == "sh2")
  {
    assert AnyRule(k);
  }

  /** The rule that reads an acronym itself; none reads a plain C. */
  function Home(acronym: string): nat {
    match acronym
    case "M" => 1
    case "NGC" => 2
    case "IC" => 3
    case "UGC" => 4
    case "PGC" => 5
    case "Arp" => 6
    case "Abell" => 7
    case "Sh2" => 10
    case "LBN" => 12
    case "LDN" => 13
    case "Cr" => 15
    case "Mel" => 17
    case "vdB" => 18
    case "Ced" => 20
    case "B" => 23
    case _ => |RULES|
  }

  /** What the stems look like, letter by letter. */
  lemma StemLetters(acronym: string)
    requires acronym in ACRONYMS
    ensures Stem(acronym) ==
      match acronym
      case "M" => "m"
      case "NGC" => "ngc"
      case "IC" => "ic"
      case "UGC" => "ugc"
      case "PGC" => "pgc"
      case "Arp" => "arp"
      case "Abell" => "abell"
      case "Sh2" => "sh"
      case "LBN" => "lbn"
      case "LDN" => "ldn"
      case "Cr" => "cr"
      case "Mel" => "mel"
      case "vdB" => "vdb"
      case "Ced" => "ced"
      case "C" => "c"
      case _ => "b"
  {
  }

  function RuleOf(alias: string): nat {
    match alias
    case "messier" => 0 case "m" => 1 case "ngc" => 2 case "ic" => 3 case "ugc" => 4 case "pgc" => 5 case "arp" => 6
    case "abell" => 7 case "aco" => 8 case "sharpless" => 9 case "sh2" => 10 case "sh" => 11 case "lbn" => 12
    case "ldn" => 13 case "collinder" => 14 case "cr" => 15 case "melotte" => 16 case "mel" => 17 case "vdb" => 18
    case "cederblad" => 19 case "ced" => 20 case "caldwell" => 21 case "barnard" => 22 case "b" => 23
    case _ => |RULES|
  }

  /** No alias is listed twice. */
  lemma RuleOfAlias(k: nat)
    requires k < |RULES|
    ensures RuleOf(RULES[k].alias) == k
  {
    assert AnyRule(k);
  }

  /** Of all aliases only the home alias is the stem. */
  lemma OnlyHome(acronym: string, k: nat)
    requires acronym in ACRONYMS && k < |RULES| && k != Home(acronym)
    ensures RULES[k].alias != Stem(acronym) || (acronym == "Sh2" && k == 11)
  {
    RuleOfAlias(k);
    StemRule(acronym);
    hide RuleOf, Stem, Home;
  }

  lemma StemRule(acronym: string)
    requires acronym in ACRONYMS
    ensures RuleOf(Stem(acronym)) == if acronym == "Sh2" then 11 else Home(acronym)
  {
    StemLetters(acronym);
    hide Stem;
  }

  /** A designation begins with the letters of its stem, and no letter follows them. */
  lemma NameStart(acronym: string, num: string)
    requires acronym in ACRONYMS && IsCatalogNumber(num)
    ensures var name, stem := NameOf(acronym, num), Stem(acronym);
            && 0 < |stem| < |name| && !IsAlpha(name[|stem|])
            && forall i :: 0 <= i < |stem| ==> IsAlpha(name[i]) && LowerChar(name[i]) == stem[i]
  {
    StemLetters(acronym);
    var name := NameOf(acronym, num);
    assert |acronym| <= 5;
    assert forall i :: 0 <= i < |acronym| ==> name[i] == acronym[i];
    assert name[|acronym|] == SeparatorOf(acronym);
  }

  /** An alias of letters reads a text only if it is all the letters the text begins with. */
  lemma TryNeedsStem(alias: string, text: string, stem: string)
    requires alias != "" && forall i :: 0 <= i < |alias| ==> 'a' <= alias[i] <= 'z'
    requires |stem| < |text| && !IsAlpha(text[|stem|])
    requires forall i :: 0 <= i < |stem| ==> IsAlpha(text[i]) && LowerChar(text[i]) == stem[i]
    ensures Try(alias, text).Some? ==> alias == stem
  {
    if |alias| <= |text| {
      var front := Lower(text)[..|alias|];
      if |alias| > |stem| {
        assert front[|stem|] == LowerChar(text[|stem|]);
      } else {
        assert forall i :: 0 <= i < |alias| ==> front[i] == stem[i];
      }
    }
  }

  lemma TryNeedsSh2(text: string, stem: string)
    requires |stem| < |text| && !IsAlpha(text[|stem|])
    requires forall i :: 0 <= i < |stem| ==> IsAlpha(text[i]) && LowerChar(text[i]) == stem[i]
    requires Try("sh2", text).Some?
    ensures stem == "sh"
  {
    var front := Lower(text)[..3];
    assert front == "sh2";
    assert front[0] == LowerChar(text[0]) && front[1] == LowerChar(text[1]) && front[2] == LowerChar(text[2]);
    assert !IsAlpha(text[2]);
    if |stem| == 2 {
      assert stem == [stem[0], stem[1]];
    }
  }

  lemma OthersDoNotRead(acronym: string, num: string, k: nat)
    requires acronym in ACRONYMS && IsCatalogNumber(num)
    requires k < |RULES| && k != Home(acronym) && (acronym == "Sh2" ==> k < 10)
    ensures Try(RULES[k].alias, NameOf(acronym, num)).None?
  {
    NameStart(acronym, num);
    RuleShape(k);
    OnlyHome(acronym, k);
    StemLetters(acronym);
    hide Try, NameOf, Home, Stem, Lower;
    if Try(RULES[k].alias, NameOf(acronym, num)).Some? {
      if k == 10 && RULES[k].alias == "sh2" {
        TryNeedsSh2(NameOf(acronym, num), Stem(acronym));
      } else {
        TryNeedsStem(RULES[k].alias, NameOf(acronym, num), Stem(acronym));
      }
    }
  }

  /** What the home rule reads is the number as it stands. */
  lemma NumberStands(c: char, num: string)
    requires IsSeparator(c) && IsCatalogNumber(num)
    ensures NumberOf([c] + num) == Some(num)
  {
    assert ([c] + num)[1..] == num;
    assert AfterSeparators(num) == num;
    assert AfterSeparators([c] + num) == num;
    var d := DigitRun(num, 0);
    if d < |num| {
      assert d == |num| - 1;
      assert num[..d] + [num[d]] == num;
    }
  }

  lemma HomeReads(acronym: string, num: string)
    requires acronym in ACRONYMS && acronym != "C" && IsCatalogNumber(num)
    ensures Home(acronym) < |RULES| && RULES[Home(acronym)].acronym == acronym
    ensures Try(RULES[Home(acronym)].alias, NameOf(acronym, num)) == Some(num)
  {
    HomeAlias(acronym);
    NumberStands(SeparatorOf(acronym), num);
    AliasReads(acronym, SeparatorOf(acronym), num);
  }

  /** An acronym, in lower case, is an alias of its own designations. */
  lemma AliasReads(acronym: string, separator: char, num: string)
    requires IsSeparator(separator) && NumberOf([separator] + num) == Some(num)
    ensures Try(Lower(acronym), acronym + [separator] + num) == Some(num)
  {
    var alias, name := Lower(acronym), acronym + [separator] + num;
    assert name[|alias|..] == [separator] + num;
    assert Lower(name)[..|alias|] == alias;
    hide NumberOf;
  }

  lemma HomeAlias(acronym: string)
    requires acronym in ACRONYMS && acronym != "C"
    ensures Home(acronym) < |RULES| && RULES[Home(acronym)].acronym == acronym
    ensures RULES[Home(acronym)].alias == Lower(acronym)
  {
    StemLetters(acronym);
  }

  /** Rule by rule, the first match of a designation is its home rule with its own number. */
  lemma {:induction false} FirstMatchFrom(acronym: string, num: string, k: nat)
    requires acronym in ACRONYMS && IsCatalogNumber(num) && k <= Home(acronym) <= |RULES|
    ensures acronym != "C" ==> FirstMatch(NameOf(acronym, num), k) == Some(Match(RULES[Home(acronym)], num))
                               && RULES[Home(acronym)].acronym == acronym
    ensures acronym == "C" ==> FirstMatch(NameOf(acronym, num), k) == None
    decreases |RULES| - k
  {
    hide Try, NameOf, Home;
    if acronym != "C" {
      HomeReads(acronym, num);
    }
    if k < Home(acronym) {
      HomeBound(acronym);
      OthersDoNotRead(acronym, num, k);
      FirstMatchFrom(acronym, num, k + 1);
    } else {
      HomeBound(acronym);
    }
  }

  lemma HomeBound(acronym: string)
    requires acronym in ACRONYMS
    ensures Home(acronym) <= |RULES| && (acronym == "Sh2" ==> Home(acronym) == 10)
    ensures Home(acronym) == |RULES| <==> acronym == "C"
  {
  }

  // ---- A designation is tidy and no placeholder ----

  lemma NumberIsWord(num: string)
    requires IsCatalogNumber(num)
    ensures IsWord(num)
  {
  }

  lemma AcronymIsWord(acronym: string)
    requires acronym in ACRONYMS
    ensures IsWord(acronym)
  {
    assert |acronym| <= 5;
  }

  lemma NameIsTidy(acronym: string, num: string)
    requires acronym in ACRONYMS && IsCatalogNumber(num)
    ensures Tidied(NameOf(acronym, num)) == NameOf(acronym, num)
  {
    NumberIsWord(num);
    AcronymIsWord(acronym);
    var ws := if acronym == "Sh2" then [NameOf(acronym, num)] else [acronym, num];
    if acronym == "Sh2" {
      WordsJoined(ws);
    } else {
      assert [acronym, num][..1] == [acronym];
      WordsJoined(ws);
      assert acronym + " " + num == acronym + [' '] + num;
    }
  }

  /** No placeholder contains a digit. */
  lemma PlaceholderHasNoDigit(p: string, i: nat)
    requires p in PLACEHOLDERS && i < |p|
    ensures !IsDigit(p[i])
  {
    assert |p| <= 10;
  }

  lemma NameIsNoPlaceholder(acronym: string, num: string)
    requires IsCatalogNumber(num)
    ensures Lower(NameOf(acronym, num)) !in PLACEHOLDERS
  {
    var low, i := Lower(NameOf(acronym, num)), |acronym| + 1;
    assert low[i] == num[0];
    if low in PLACEHOLDERS {
      PlaceholderHasNoDigit(low, i);
    }
  }

  // ---- The cross-reference as lookups ----

  lemma AltTextInjective(a: Alt, b: Alt)
    requires AltText(a) == AltText(b)
    ensures a == b
  {
    assert AltText(a)[0] == AltText(b)[0];
    var n := if a.NGC? then 4 else 3;
    assert AltText(a)[n..] == ToDec(a.num) && AltText(b)[n..] == ToDec(b.num);
    ToDecInjective(a.num, b.num);
  }

  lemma MessierTextInjective(m: nat, n: nat)
    requires MessierText(m) == MessierText(n)
    ensures m == n
  {
    assert MessierText(m)[2..] == ToDec(m) && MessierText(n)[2..] == ToDec(n);
    ToDecInjective(m, n);
  }

  /** A lookup by counterpart finds its one Messier number. */
  lemma {:induction false} AltFound(m: nat, from: nat)
    requires m <= from && AltOf(m).Some? && m > 0
    ensures AltToM(AltText(AltOf(m).value), from) == Some(MessierText(m))
    decreases from
  {
    hide AltOf, AltText, MessierText;
    if m < from {
      if AltOf(from).Some? && AltText(AltOf(from).value) == AltText(AltOf(m).value) {
        AltTextInjective(AltOf(from).value, AltOf(m).value);
        Unambiguous(from);
        Unambiguous(m);
      }
      AltFound(m, from - 1);
    }
  }

  lemma {:induction false} AltSound(s: string, from: nat) returns (m: nat)
    requires AltToM(s, from).Some?
    ensures 0 < m <= from && AltOf(m).Some? && s == AltText(AltOf(m).value) && AltToM(s, from) == Some(MessierText(m))
    decreases from
  {
    hide AltOf, AltText, MessierText;
    if AltOf(from).Some? && AltText(AltOf(from).value) == s {
      m := from;
    } else {
      m := AltSound(s, from - 1);
    }
  }

  lemma {:induction false} MessierFound(m: nat, from: nat)
    requires 0 < m <= from && AltOf(m).Some?
    ensures MToAlt(MessierText(m), from) == Some(AltText(AltOf(m).value))
    decreases from
  {
    hide AltOf, AltText, MessierText;
    if m < from {
      if MessierText(from) == MessierText(m) {
        MessierTextInjective(from, m);
      }
      MessierFound(m, from - 1);
    }
  }

  lemma {:induction false} MessierSound(s: string, from: nat) returns (m: nat)
    requires MToAlt(s, from).Some?
    ensures 0 < m <= from && AltOf(m).Some? && s == MessierText(m) && MToAlt(s, from) == Some(AltText(AltOf(m).value))
    decreases from
  {
    hide AltOf, AltText, MessierText;
    if AltOf(from).Some? && MessierText(from) == s {
      m := from;
    } else {
      m := MessierSound(s, from - 1);
    }
  }

  lemma DecIsCatalogNumber(n: nat)
    ensures IsCatalogNumber(ToDec(n))
  {
  }

  lemma CrossNames(m: nat)
    requires AltOf(m).Some?
    ensures MessierText(m) == NameOf("M", ToDec(m))
    ensures AltText(AltOf(m).value) == NameOf(if AltOf(m).value.NGC? then "NGC" else "IC", ToDec(AltOf(m).value.num))
  {
    hide AltOf;
    assert "M " == "M" + [' '] && "NGC " == "NGC" + [' '] && "IC " == "IC" + [' '];
  }

  // ---- Canonical forms of designations ----

  /** What the designation of a catalogue is canonicalised to. */
  lemma CanonicalOfName(acronym: string, num: string)
    requires acronym in ACRONYMS && IsCatalogNumber(num)
    ensures var name, c := NameOf(acronym, num), Canonicalize(NameOf(acronym, num));
            var m := if acronym == "NGC" || acronym == "IC" then AltToM(name, LAST) else None;
            && !c.placeholder
            && c.canonical == (if m.Some? then m.value else name)
            && c.catalog == (if acronym == "C" then "" else if m.Some? then "M" else acronym)
  {
    hide *;
    var name := NameOf(acronym, num);
    NameIsTidy(acronym, num);
    NameIsNoPlaceholder(acronym, num);
    HomeBound(acronym);
    FirstMatchFrom(acronym, num, 0);
    if acronym == "C" {
      Unread(name);
    } else {
      RuleShape(Home(acronym));
      SpelledOut(acronym, num);
      ReadAs(name, RULES[Home(acronym)], num);
    }
  }

  lemma SpelledOut(acronym: string, num: string)
    ensures NameOf(acronym, num) == acronym + [SeparatorOf(acronym)] + num
  {
  }

  /** What a tidy name becomes once its first rule is known. */
  lemma ReadAs(name: string, rule: Rule, num: string)
    requires Tidied(name) == name && Lower(name) !in PLACEHOLDERS && FirstMatch(name, 0) == Some(Match(rule, num))
    ensures var c, full := Canonicalize(name), rule.acronym + [rule.separator] + num;
            var m := if rule.acronym == "NGC" || rule.acronym == "IC" then AltToM(full, LAST) else None;
            !c.placeholder && if m.Some? then c.canonical == m.value && c.catalog == "M"
                              else c.canonical == full && c.catalog == rule.acronym
  {
    hide Tidied, Lower, FirstMatch, AltToM;
  }

  lemma Unread(name: string)
    requires Tidied(name) == name && Lower(name) !in PLACEHOLDERS && FirstMatch(name, 0).None?
    ensures Canonicalize(name) == Canonical(name, "", false, false)
  {
    hide Tidied, Lower, FirstMatch, AltToM;
  }

  lemma CanonicalOfMessier(m: nat)
    requires AltOf(m).Some?
    ensures Canonicalize(MessierText(m)) == Canonical(MessierText(m), "M", false, false)
    ensures var c := Canonicalize(AltText(AltOf(m).value));
            c.canonical == MessierText(m) && c.catalog == "M" && !c.placeholder
  {
    hide AltOf, Canonicalize, AltText, MessierText;
    CrossNames(m);
    Unambiguous(m);
    AltFound(m, LAST);
    DecIsCatalogNumber(m);
    DecIsCatalogNumber(AltOf(m).value.num);
    CanonicalOfName("M", ToDec(m));
    CanonicalOfName(if AltOf(m).value.NGC? then "NGC" else "IC", ToDec(AltOf(m).value.num));
    UnchangedName("M", ToDec(m));
  }

  lemma UnchangedName(acronym: string, num: string)
    requires acronym in ACRONYMS && IsCatalogNumber(num)
    requires Canonicalize(NameOf(acronym, num)).canonical == NameOf(acronym, num)
    ensures !Canonicalize(NameOf(acronym, num)).changed
  {
    NameIsTidy(acronym, num);
  }

  // ---- The laws ----

  /** Every name that a rule recognises has a canonical form that is a designation; any other name
      is its own canonical form, but for blanks. */
  lemma CanonicalCases(raw: string) returns (acronym: string, num: string, m: nat)
    ensures var c := Canonicalize(raw);
            || (c.catalog == "" && c.canonical == Tidied(raw) && (c.placeholder || FirstMatch(Tidied(raw), 0).None?))
            || (c.catalog == acronym && acronym != "" && acronym in ACRONYMS && IsCatalogNumber(num)
                && c.canonical == NameOf(acronym, num)
                && ((acronym == "NGC" || acronym == "IC") ==> AltToM(c.canonical, LAST).None?) && !c.placeholder)
            || (c.catalog == "M" && AltOf(m).Some? && c.canonical == MessierText(m) && !c.placeholder)
  {
    acronym, num, m := "", "", 0;
    var s := Tidied(raw);
    var found := FirstMatch(s, 0);
    if Lower(s) !in PLACEHOLDERS && found.Some? {
      var k := MatchedRule(s, 0);
      RuleShape(k);
      acronym, num := found.value.rule.acronym, found.value.num;
      var name := NameOf(acronym, num);
      if (acronym == "NGC" || acronym == "IC") && AltToM(name, LAST).Some? {
        m := AltSound(name, LAST);
      }
    }
  }

  lemma {:induction false} MatchedRule(s: string, from: nat) returns (k: nat)
    requires from <= |RULES| && FirstMatch(s, from).Some?
    ensures k < |RULES| && FirstMatch(s, from).value.rule == RULES[k] && IsCatalogNumber(FirstMatch(s, from).value.num)
    decreases |RULES| - from
  {
    if Try(RULES[from].alias, s).Some? {
      k := from;
    } else {
      k := MatchedRule(s, from + 1);
    }
  }

  /** Canonicalising a canonical name changes nothing. */
  lemma CanonicalIdempotent(raw: string)
    ensures Canonicalize(Canonicalize(raw).canonical).canonical == Canonicalize(raw).canonical
  {
    hide *;
    var acronym, num, m := CanonicalCases(raw);
    TidyIdempotent(raw);
    var c := Canonicalize(raw);
    if c.catalog == "" {
      SameTidy(raw, c.canonical);
    } else if c.catalog == "M" && AltOf(m).Some? && c.canonical == MessierText(m) {
      CanonicalOfMessier(m);
    } else {
      CanonicalOfName(acronym, num);
    }
  }

  /** Only the tidied text of a name matters. */
  lemma SameTidy(a: string, b: string)
    requires Tidied(a) == Tidied(b)
    ensures Canonicalize(a) == Canonicalize(b)
  {
  }

  /** The catalogue of the canonical name is the one first reported, except for Caldwell numbers:
      "C 14" is not read as one. */
  lemma CatalogStable(raw: string)
    ensures Canonicalize(Canonicalize(raw).canonical).catalog == Canonicalize(raw).catalog
        <==> Canonicalize(raw).catalog != "C"
    ensures Canonicalize(raw).catalog == "C" ==> Canonicalize(Canonicalize(raw).canonical).catalog == ""
  {
    hide *;
    var acronym, num, m := CanonicalCases(raw);
    TidyIdempotent(raw);
    var c := Canonicalize(raw);
    if c.catalog == "" {
      SameTidy(raw, c.canonical);
    } else if c.catalog == "M" && AltOf(m).Some? && c.canonical == MessierText(m) {
      CanonicalOfMessier(m);
    } else {
      CanonicalOfName(acronym, num);
    }
  }

  // ---- Designations are classes ----

  lemma DesignationsOfMessier(m: nat)
    requires AltOf(m).Some?
    ensures Designations(MessierText(m)) == [MessierText(m), AltText(AltOf(m).value)]
    ensures Designations(AltText(AltOf(m).value)) == [MessierText(m), AltText(AltOf(m).value)]
  {
    CanonicalOfMessier(m);
    Unambiguous(m);
    MessierFound(m, LAST);
    hide Canonicalize, AltOf, AltText, MessierText, MToAlt;
  }

  lemma OneDesignation(raw: string)
    requires var c := Canonicalize(raw); c.catalog == "M" ==> MToAlt(c.canonical, LAST).None?
    ensures Designations(raw) == [Canonicalize(raw).canonical]
  {
  }

  /** Asking for any designation of an object gives the same designations. */
  lemma DesignationsClass(raw: string, d: string)
    requires d in Designations(raw)
    ensures Designations(d) == Designations(raw)
  {
    hide Canonicalize, MToAlt, AltOf, AltText, MessierText;
    var c := Canonicalize(raw);
    CanonicalIdempotent(raw);
    CatalogStable(raw);
    if c.catalog == "M" && MToAlt(c.canonical, LAST).Some? {
      var m := MessierSound(c.canonical, LAST);
      DesignationsOfMessier(m);
    } else {
      OneDesignation(raw);
      OneDesignation(c.canonical);
    }
  }

  /** The first designation is the canonical name; a second one is the counterpart of a Messier
      number, and then both are names from the cross-reference. */
  lemma DesignationsOfCanonical(raw: string)
    ensures Designations(raw)[0] == Canonicalize(raw).canonical
    ensures |Designations(raw)| == 2 ==>
              exists m: nat :: AltOf(m).Some? && Designations(raw) == [MessierText(m), AltText(AltOf(m).value)]
    ensures |Designations(raw)| <= 2
  {
    var c := Canonicalize(raw);
    hide Canonicalize, AltOf;
    if c.catalog == "M" && MToAlt(c.canonical, LAST).Some? {
      var m := MessierSound(c.canonical, LAST);
      assert Designations(raw) == [MessierText(m), AltText(AltOf(m).value)];
    }
  }

  // ---- Search ----

  /** What resolve() stores for the raw object, and whether the filter object eq b finds it: some
      designation of b equals the stored name, under the comparison of the column. */
  ghost predicate Finds(equal: (string, string) -> bool, stored: string, b: string) {
    exists i :: 0 <= i < |Designations(b)| && equal(stored, Designations(b)[i])
  }

  /** Exact comparison: a search by b finds a frame of a exactly when the canonical forms agree. */
  lemma SearchExact(a: string, b: string)
    ensures Finds((x, y) => x == y, Canonicalize(a).canonical, b)
        <==> Canonicalize(a).canonical == Canonicalize(b).canonical
  {
    var stored := Canonicalize(a).canonical;
    DesignationsOfCanonical(b);
    CanonicalIdempotent(a);
    if i :| 0 <= i < |Designations(b)| && stored == Designations(b)[i] && i == 1 {
      var m: nat :| AltOf(m).Some? && Designations(b) == [MessierText(m), AltText(AltOf(m).value)];
      CanonicalOfMessier(m);
      NamesDiffer(m);
    }
    assert Designations(b)[0] == Canonicalize(b).canonical;
  }

  lemma NamesDiffer(m: nat)
    requires AltOf(m).Some?
    ensures Lower(MessierText(m)) != Lower(AltText(AltOf(m).value))
  {
    hide AltOf;
    assert Lower(MessierText(m))[0] == 'm';
    assert Lower(AltText(AltOf(m).value))[0] == if AltOf(m).value.NGC? then 'n' else 'i';
  }

  // ---- Search under a collation that ignores case ----

  lemma LowerSlice(x: string, y: string, n: nat)
    requires Lower(x) == Lower(y) && n <= |x|
    ensures |x| == |y| && Lower(x[n..]) == Lower(y[n..])
    ensures forall i :: 0 <= i < |x| ==> LowerChar(x[i]) == LowerChar(y[i])
  {
    assert |Lower(x)| == |x| && |Lower(y)| == |y|;
    assert forall i :: 0 <= i < |x| ==> Lower(x)[i] == LowerChar(x[i]) && Lower(y)[i] == LowerChar(y[i]);
  }

  lemma {:induction false} SeparatorsCaseless(x: string, y: string)
    requires Lower(x) == Lower(y)
    ensures Lower(AfterSeparators(x)) == Lower(AfterSeparators(y))
  {
    LowerSlice(x, y, 0);
    if x != "" {
      LowerSlice(x, y, 1);
      if IsSeparator(x[0]) {
        SeparatorsCaseless(x[1..], y[1..]);
      }
    }
  }

  lemma {:induction false} DigitRunCaseless(x: string, y: string, d: nat)
    requires Lower(x) == Lower(y) && d <= |x|
    ensures |x| == |y| && DigitRun(x, d) == DigitRun(y, d)
    ensures x[d..DigitRun(x, d)] == y[d..DigitRun(x, d)]
    decreases |x| - d
  {
    LowerSlice(x, y, 0);
    if d < |x| && IsDigit(x[d]) {
      DigitRunCaseless(x, y, d + 1);
      var n := DigitRun(x, d);
      assert x[d..n] == [x[d]] + x[d + 1..n] && y[d..n] == [y[d]] + y[d + 1..n];
    }
  }

  /** The case of a name does not change its catalogue number. */
  lemma NumberCaseless(x: string, y: string)
    requires Lower(x) == Lower(y)
    ensures NumberOf(x) == NumberOf(y)
  {
    SeparatorsCaseless(x, y);
    var p, q := AfterSeparators(x), AfterSeparators(y);
    DigitRunCaseless(p, q, 0);
    LowerSlice(p, q, 0);
    hide AfterSeparators, DigitRun;
    var d := DigitRun(p, 0);
    assert p[..d] == p[0..d] && q[..d] == q[0..d];
    if d == |p| {
      assert p == p[..d] && q == q[..d];
    }
  }

  lemma TryCaseless(alias: string, x: string, y: string)
    requires Lower(x) == Lower(y)
    ensures Try(alias, x) == Try(alias, y)
  {
    LowerSlice(x, y, 0);
    if |alias| <= |x| {
      LowerSlice(x, y, |alias|);
      NumberCaseless(x[|alias|..], y[|alias|..]);
    }
    hide NumberOf;
  }

  lemma {:induction false} FirstMatchCaseless(x: string, y: string, k: nat)
    requires Lower(x) == Lower(y) && k <= |RULES|
    ensures FirstMatch(x, k) == FirstMatch(y, k)
    decreases |RULES| - k
  {
    hide Try, Lower;
    if k < |RULES| {
      TryCaseless(RULES[k].alias, x, y);
      FirstMatchCaseless(x, y, k + 1);
    }
  }

  /** A stored name is never, in any spelling, the counterpart of a Messier object. */
  lemma StoredIsNoCounterpart(a: string, m: nat)
    requires AltOf(m).Some?
    ensures Lower(Canonicalize(a).canonical) != Lower(AltText(AltOf(m).value))
  {
    var stored, alt := Canonicalize(a).canonical, AltText(AltOf(m).value);
    if Lower(stored) == Lower(alt) {
      CanonicalIdempotent(a);
      CanonicalOfMessier(m);
      NamesDiffer(m);
      StoredIsTidy(a);
      AltIsTidy(m);
      FirstMatchCaseless(stored, alt, 0);
      SameCanonical(stored, alt);
    }
  }

  lemma StoredIsTidy(a: string)
    ensures Tidied(Canonicalize(a).canonical) == Canonicalize(a).canonical
  {
    MessierIsAcronym();
    hide *;
    var acronym, num, m := CanonicalCases(a);
    TidyIdempotent(a);
    var c := Canonicalize(a);
    if c.catalog == "M" && AltOf(m).Some? && c.canonical == MessierText(m) {
      CrossNames(m);
      DecIsCatalogNumber(m);
      NameIsTidy("M", ToDec(m));
    } else if c.catalog != "" {
      NameIsTidy(acronym, num);
    }
  }

  lemma MessierIsAcronym()
    ensures "M" in ACRONYMS
  {
  }

  lemma AltIsTidy(m: nat)
    requires AltOf(m).Some?
    ensures Tidied(AltText(AltOf(m).value)) == AltText(AltOf(m).value)
    ensures FirstMatch(AltText(AltOf(m).value), 0).Some? && Lower(AltText(AltOf(m).value)) !in PLACEHOLDERS
  {
    hide AltOf;
    CrossNames(m);
    DecIsCatalogNumber(AltOf(m).value.num);
    var acronym := if AltOf(m).value.NGC? then "NGC" else "IC";
    NameIsTidy(acronym, ToDec(AltOf(m).value.num));
    FirstMatchFrom(acronym, ToDec(AltOf(m).value.num), 0);
    NameIsNoPlaceholder(acronym, ToDec(AltOf(m).value.num));
  }

  lemma SameCanonical(x: string, y: string)
    requires Tidied(x) == x && Tidied(y) == y && Lower(x) == Lower(y)
    requires Lower(y) !in PLACEHOLDERS && FirstMatch(x, 0) == FirstMatch(y, 0) && FirstMatch(y, 0).Some?
    ensures Canonicalize(x).canonical == Canonicalize(y).canonical
  {
  }

  /** Comparison without case, as the schema's collation compares ASCII letters: a search by b finds
      a frame of a exactly when the canonical forms agree but for case. */
  lemma SearchCaseless(a: string, b: string)
    ensures Finds((x, y) => Lower(x) == Lower(y), Canonicalize(a).canonical, b)
       <==> Lower(Canonicalize(a).canonical) == Lower(Canonicalize(b).canonical)
  {
    var stored := Canonicalize(a).canonical;
    DesignationsOfCanonical(b);
    hide Canonicalize, Lower;
    if i :| 0 <= i < |Designations(b)| && Lower(stored) == Lower(Designations(b)[i]) && i == 1 {
      var m: nat :| AltOf(m).Some? && Designations(b) == [MessierText(m), AltText(AltOf(m).value)];
      StoredIsNoCounterpart(a, m);
    }
    assert Designations(b)[0] == Canonicalize(b).canonical;
  }
}
