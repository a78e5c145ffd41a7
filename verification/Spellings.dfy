/** Every spelling of a catalogue designation has one canonical form: whatever case its alias is in, whatever
    blanks, hyphens and underscores stand before its number, and whether or not its letter is a capital. */
module Spellings {
  import opened Options
  import opened Chars
  import opened Decimal
  import opened Messier
  import opened Canon
  import opened CanonLaws

  predicate Separators(s: string) {
    forall i :: 0 <= i < |s| ==> s[i] in [' ', '_', '-']
  }

  /** Digits, and at most one letter after them. */
  predicate WrittenNumber(n: string) {
    && n != "" && '0' <= n[0] <= '9'
    && (forall i :: 0 <= i < |n| - 1 ==> '0' <= n[i] <= '9')
    && (IsAlpha(n[|n| - 1]) || '0' <= n[|n| - 1] <= '9')
  }

  /** With its letter, if it has one, in upper case. */
  function Raised(n: string): string
    requires n != ""
  {
    n[..|n| - 1] + [UpperChar(n[|n| - 1])]
  }

  /** a, in some case, is an alias; separators and a number follow. */
  predicate Spelling(text: string, k: nat, a: string, seps: string, n: string) {
    k < |RULES| && text == a + seps + n && Lower(a) == RULES[k].alias && Separators(seps) && WrittenNumber(n)
  }

  /** The acronym of an alias. */
  function AcronymOf(alias: string): string {
    match alias
    case "messier" => "M" case "m" => "M"
    case "ngc" => "NGC" case "ic" => "IC" case "ugc" => "UGC" case "pgc" => "PGC" case "arp" => "Arp"
    case "abell" => "Abell" case "aco" => "Abell"
    case "sharpless" => "Sh2" case "sh2" => "Sh2" case "sh" => "Sh2"
    case "lbn" => "LBN" case "ldn" => "LDN"
    case "collinder" => "Cr" case "cr" => "Cr"
    case "melotte" => "Mel" case "mel" => "Mel"
    case "vdb" => "vdB"
    case "cederblad" => "Ced" case "ced" => "Ced"
    case "caldwell" => "C"
    case "barnard" => "B" case "b" => "B"
    case _ => ""
  }

  lemma AcronymIs(k: nat)
    requires k < |RULES|
    ensures RULES[k].acronym == AcronymOf(RULES[k].alias)
  {
    assert AnyRule(k);
    if k < 12 {
      FirstAcronyms(k);
    } else {
      LaterAcronyms(k);
    }
    hide RULES, AcronymOf;
  }

  lemma FirstAcronyms(k: nat)
    requires k < 12
    ensures RULES[k].acronym == AcronymOf(RULES[k].alias)
  {
  }

  lemma LaterAcronyms(k: nat)
    requires 12 <= k < |RULES|
    ensures RULES[k].acronym == AcronymOf(RULES[k].alias)
  {
  }

  // ---- The number ----

  lemma RaisedIsNumber(n: string)
    requires WrittenNumber(n)
    ensures IsCatalogNumber(Raised(n)) && Raised(n)[0] == n[0]
  {
  }

  lemma {:induction false} RunOfNumber(n: string, d: nat)
    requires WrittenNumber(n) && d <= |n|
    ensures DigitRun(n, d) == if d == |n| || IsDigit(n[|n| - 1]) then |n| else |n| - 1
    decreases |n| - d
  {
    if d < |n| && IsDigit(n[d]) {
      RunOfNumber(n, d + 1);
    }
  }

  lemma {:induction false} SeparatorsSkipped(seps: string, n: string)
    requires Separators(seps) && WrittenNumber(n)
    ensures AfterSeparators(seps + n) == n
  {
    if seps == "" {
      assert seps + n == n;
    } else {
      assert (seps + n)[1..] == seps[1..] + n;
      SeparatorsSkipped(seps[1..], n);
    }
  }

  lemma NumberRead(seps: string, n: string)
    requires Separators(seps) && WrittenNumber(n)
    ensures NumberOf(seps + n) == Some(Raised(n))
  {
    SeparatorsSkipped(seps, n);
    RunOfNumber(n, 0);
    if IsDigit(n[|n| - 1]) {
      assert Raised(n) == n;
    } else {
      assert |n| > 1;
    }
  }

  // ---- The rule ----

  lemma SpelledStart(text: string, k: nat, a: string, seps: string, n: string)
    requires Spelling(text, k, a, seps, n)
    ensures |a| == |RULES[k].alias| < |text| && !IsAlpha(text[|a|]) && text[|a|..] == seps + n
    ensures forall i :: 0 <= i < |a| ==> LowerChar(text[i]) == RULES[k].alias[i]
  {
    assert |Lower(a)| == |a|;
    assert forall i :: 0 <= i < |a| ==> Lower(a)[i] == LowerChar(a[i]) && text[i] == a[i];
    assert text[|a|] == (seps + n)[0];
  }

  lemma SpelledTry(text: string, k: nat, a: string, seps: string, n: string)
    requires Spelling(text, k, a, seps, n)
    ensures Try(RULES[k].alias, text) == Some(Raised(n))
  {
    SpelledStart(text, k, a, seps, n);
    NumberRead(seps, n);
    assert Lower(text)[..|a|] == RULES[k].alias;
    hide NumberOf, Raised, Separators, WrittenNumber;
  }

  /** An alias that ends in letters is read by no earlier rule, but for "sh" before a 2 and another digit, which
      is a spelling of "sh2". */
  predicate ReadEarlier(k: nat, seps: string, n: string) {
    k == 11 && seps == "" && |n| >= 2 && n[0] == '2' && IsDigit(n[1])
  }

  lemma LowerKeepsLetters(c: char, d: char)
    requires LowerChar(c) == d && 'a' <= d <= 'z'
    ensures IsAlpha(c)
  {
  }

  /** The letters a spelling begins with. */
  function Letters(k: nat): string
    requires k < |RULES|
  {
    if k == 10 then "sh" else RULES[k].alias
  }

  lemma LettersOfAlias(k: nat)
    requires k < |RULES|
    ensures Letters(k) <= RULES[k].alias && 0 < |Letters(k)| && (k != 10 ==> Letters(k) == RULES[k].alias)
    ensures forall i :: 0 <= i < |Letters(k)| ==> 'a' <= Letters(k)[i] <= 'z'
    ensures k == 10 ==> RULES[k].alias == "sh2"
  {
    assert AnyRule(k);
  }

  lemma SpelledLetters(text: string, k: nat, a: string, seps: string, n: string)
    requires Spelling(text, k, a, seps, n)
    ensures var stem := Letters(k);
            && |stem| < |text| && !IsAlpha(text[|stem|])
            && forall i :: 0 <= i < |stem| ==> IsAlpha(text[i]) && LowerChar(text[i]) == stem[i]
  {
    SpelledStart(text, k, a, seps, n);
    LettersOfAlias(k);
    var stem := Letters(k);
    hide Spelling;
    forall i | 0 <= i < |stem|
      ensures IsAlpha(text[i]) && LowerChar(text[i]) == stem[i]
    {
      LowerKeepsLetters(text[i], stem[i]);
    }
    if k == 10 {
      assert RULES[k].alias[2] == '2' == LowerChar(text[2]);
    }
  }

  lemma NoEarlierRule(text: string, k: nat, a: string, seps: string, n: string, j: nat)
    requires Spelling(text, k, a, seps, n) && !ReadEarlier(k, seps, n) && j < k
    ensures Try(RULES[j].alias, text).None?
  {
    SpelledLetters(text, k, a, seps, n);
    LettersOfAlias(k);
    LettersOfAlias(j);
    RuleOfAlias(j);
    RuleOfAlias(k);
    hide RuleOf, Letters, Try;
    if Try(RULES[j].alias, text).Some? {
      if j == 10 {
        TryNeedsSh2(text, Letters(k));
        ShIsEleven(k);
        ShNoSh2(text, a, seps, n);
      } else {
        TryNeedsStem(RULES[j].alias, text, Letters(k));
        ShIsNoEarlier(j, k);
      }
    }
  }

  lemma ShIsEleven(k: nat)
    requires 10 < k < |RULES| && RULES[k].alias == "sh"
    ensures k == 11
  {
    RuleOfAlias(k);
  }

  lemma ShIsNoEarlier(j: nat, k: nat)
    requires j < k < |RULES| && j != 10
    ensures RULES[j].alias != Letters(k)
  {
    RuleOfAlias(j);
    RuleOfAlias(k);
  }

  lemma ShNoSh2(text: string, a: string, seps: string, n: string)
    requires Spelling(text, 11, a, seps, n) && !ReadEarlier(11, seps, n)
    ensures Try("sh2", text).None?
  {
    assert |Lower(a)| == 2;
    if seps != "" {
      assert text[2] == seps[0];
      assert |text| >= 3 && Lower(text)[..3][2] == LowerChar(seps[0]);
    } else if |text| >= 3 && Lower(text)[..3] == "sh2" {
      assert Lower(text)[..3][2] == LowerChar(text[2]) && text[2] == n[0] && text[3..] == n[1..];
    }
  }

  lemma {:induction false} SpelledMatch(text: string, k: nat, a: string, seps: string, n: string, j: nat)
    requires Spelling(text, k, a, seps, n) && !ReadEarlier(k, seps, n) && j <= k
    ensures FirstMatch(text, j) == Some(Match(RULES[k], Raised(n)))
    decreases k - j
  {
    if j < k {
      NoEarlierRule(text, k, a, seps, n, j);
      hide Try, Spelling, ReadEarlier;
      SpelledMatch(text, k, a, seps, n, j + 1);
    } else {
      SpelledTry(text, k, a, seps, n);
      hide Try, Spelling, ReadEarlier;
    }
  }

  lemma SpelledNoPlaceholder(text: string, k: nat, a: string, seps: string, n: string)
    requires Spelling(text, k, a, seps, n)
    ensures Lower(text) !in PLACEHOLDERS
  {
    var i := |a| + |seps|;
    assert Lower(text)[i] == LowerChar(text[i]) == n[0];
    hide PLACEHOLDERS;
    if Lower(text) in PLACEHOLDERS {
      PlaceholderHasNoDigit(Lower(text), i);
    }
  }

  /** A spelling is canonicalised to its catalogue's acronym and its number, or to the Messier designation of
      the same object. */
  lemma SpellingRead(raw: string, k: nat, a: string, seps: string, n: string)
    requires Spelling(Tidied(raw), k, a, seps, n) && !ReadEarlier(k, seps, n)
    ensures var acronym := AcronymOf(RULES[k].alias);
            var name := acronym + (if acronym == "Sh2" then "-" else " ") + Raised(n);
            var m := if acronym == "NGC" || acronym == "IC" then AltToM(name, LAST) else None;
            var c := Canonicalize(raw);
            && !c.placeholder && c.canonical == (if m.Some? then m.value else name)
            && c.catalog == (if m.Some? then "M" else acronym)
            && (c.changed <==> c.canonical != Tidied(raw))
  {
    SpelledNoPlaceholder(Tidied(raw), k, a, seps, n);
    SpelledMatch(Tidied(raw), k, a, seps, n, 0);
    AcronymIs(k);
    RuleShape(k);
    hide Tidied, Lower, FirstMatch, AltToM, Spelling, Raised, AcronymOf;
    var acronym := AcronymOf(RULES[k].alias);
    assert acronym + [RULES[k].separator] == acronym + if acronym == "Sh2" then "-" else " ";
  }

  /** So a Messier object has one name, however it is spelled and whether by its Messier number or by that of
      its counterpart. */
  lemma OneObject(raw: string, k: nat, a: string, seps: string, m: nat)
    requires AltOf(m).Some? && k < |RULES|
    requires var acronym := AcronymOf(RULES[k].alias);
             || (acronym == "M" && Spelling(Tidied(raw), k, a, seps, ToDec(m)))
             || (acronym == (if AltOf(m).value.NGC? then "NGC" else "IC")
                 && Spelling(Tidied(raw), k, a, seps, ToDec(AltOf(m).value.num)))
    ensures Canonicalize(raw).canonical == "M " + ToDec(m) && Canonicalize(raw).catalog == "M"
  {
    hide Canonicalize, Tidied, Spelling, AltOf, AltToM, Raised, ToDec, AcronymOf;
    var acronym := AcronymOf(RULES[k].alias);
    MessierRule(k);
    if acronym == "M" {
      SpellingRead(raw, k, a, seps, ToDec(m));
      DecRaised(m);
    } else {
      SpellingRead(raw, k, a, seps, ToDec(AltOf(m).value.num));
      DecRaised(AltOf(m).value.num);
      OneName(m, acronym);
    }
  }

  lemma OneName(m: nat, acronym: string)
    requires AltOf(m).Some? && acronym == (if AltOf(m).value.NGC? then "NGC" else "IC")
    ensures AltToM(acronym + " " + ToDec(AltOf(m).value.num), LAST) == Some("M " + ToDec(m))
  {
    Unambiguous(m);
    AltFound(m, LAST);
    hide AltOf, AltToM, ToDec;
    assert "NGC" + " " == "NGC " && "IC" + " " == "IC ";
  }

  lemma MessierRule(k: nat)
    requires k < |RULES| && AcronymOf(RULES[k].alias) in ["M", "NGC", "IC"]
    ensures k != 11
  {
    AcronymIs(k);
  }

  lemma DecRaised(m: nat)
    ensures ToDec(m) != "" && Raised(ToDec(m)) == ToDec(m)
  {
    DecIsCatalogNumber(m);
  }
}
