/**
 * The card definition parser: tolerant integers, the SkillEffect token
 * grammar, the `Key: Value` block parser and the loaders that build the
 * card map and decks. A file is modelled as the sequence of its lines; the
 * stream cursor shared by a loader and the block parser is the index of the
 * next unread line, and the block parser reports how many lines it took.
 */
module FileParser {
  import opened Wrappers
  import opened TokenUtils
  import opened Cards
  import opened SeqFacts

  // ---------------------------------------------------------------------
  // parseIntOrZero
  // ---------------------------------------------------------------------

  /** Bounds of the C++ `int` that `std::stoi` returns. */
  const INT_MIN: int := -0x8000_0000
  const INT_MAX: int := 0x7fff_ffff

  ghost predicate AllDigits(s: string) {
    forall k :: 0 <= k < |s| ==> IsDigit(s[k])
  }

  ghost predicate NoDigits(s: string) {
    forall k :: 0 <= k < |s| ==> !IsDigit(s[k])
  }

  function DigitValue(c: char): (v: nat)
    requires IsDigit(c)
    ensures v <= 9
  {
    c as int - '0' as int
  }

  /** The decimal value of a digit string, most significant digit first. */
  function Decimal(ds: string): nat
    requires forall k :: 0 <= k < |ds| ==> IsDigit(ds[k])
  {
    if ds == [] then 0 else 10 * Decimal(ds[..|ds| - 1]) + DigitValue(ds[|ds| - 1])
  }

  /** The string left after popping trailing non-digits one by one. */
  function StripTrailingNonDigits(s: string): (r: string)
    ensures r <= s
    ensures r == [] || IsDigit(r[|r| - 1])
    ensures NoDigits(s[|r|..])
  {
    if s == [] || IsDigit(s[|s| - 1]) then s
    else
      var r := StripTrailingNonDigits(s[..|s| - 1]);
      assert s[|r|..] == s[..|s| - 1][|r|..] + [s[|s| - 1]];
      r
  }

  function DropLeadingSpaces(s: string): (r: string)
    ensures |r| <= |s| && r == s[|s| - |r|..]
    ensures r == [] || !IsSpace(r[0])
    ensures forall k :: 0 <= k < |s| - |r| ==> IsSpace(s[k])
  {
    if s != [] && IsSpace(s[0]) then
      var r := DropLeadingSpaces(s[1..]);
      assert forall k :: 1 <= k < |s| - |r| ==> s[k] == s[1..][k - 1];
      r
    else s
  }

  /** The longest prefix made of digits. */
  function DigitPrefix(s: string): (r: string)
    ensures r <= s
    ensures forall k :: 0 <= k < |r| ==> IsDigit(r[k])
    ensures |r| == |s| || !IsDigit(s[|r|])
  {
    if s != [] && IsDigit(s[0]) then [s[0]] + DigitPrefix(s[1..]) else []
  }

  /**
   * `std::stoi` with its exceptions caught as 0: leading whitespace is skipped,
   * one sign is accepted, the longest digit run is read; no digit or a value
   * outside the `int` range gives 0.
   */
  function StoiOrZero(s: string): (n: int)
    ensures INT_MIN <= n <= INT_MAX
  {
    var t := DropLeadingSpaces(s);
    var negative := t != [] && t[0] == '-';
    var u := if t != [] && (t[0] == '-' || t[0] == '+') then t[1..] else t;
    var ds := DigitPrefix(u);
    if ds == [] then 0
    else
      var v: int := if negative then -(Decimal(ds) as int) else Decimal(ds);
      if INT_MIN <= v <= INT_MAX then v else 0
  }

  /** What `parseIntOrZero` returns for a field. */
  function IntOrZero(raw: string): (n: int)
    ensures INT_MIN <= n <= INT_MAX
  {
    var s := StripTrailingNonDigits(Trim(raw));
    if s == [] then 0 else StoiOrZero(s)
  }

  /** FileParser.cpp `parseIntOrZero`: trim, pop trailing non-digits, then `stoi` or 0. */
  method ParseIntOrZero(raw: string) returns (n: int)
    ensures n == IntOrZero(raw)
  {
    var s := Trim(raw);
    while s != [] && !IsDigit(s[|s| - 1])
      invariant StripTrailingNonDigits(s) == StripTrailingNonDigits(Trim(raw))
    {
      s := s[..|s| - 1];
    }
    if s == [] {
      return 0;
    }
    n := StoiOrZero(s);
  }

  lemma {:induction false} DigitPrefixOfDigits(s: string)
    requires AllDigits(s)
    ensures DigitPrefix(s) == s
  {
    if s != [] {
      DigitPrefixOfDigits(s[1..]);
    }
  }

  /** A digit string passes trim, the trailing strip and the sign check untouched. */
  lemma DigitsReadPlainly(s: string)
    requires s != [] && AllDigits(s)
    ensures IntOrZero(s) == (if Decimal(s) <= INT_MAX then Decimal(s) else 0)
  {
    DigitsSurviveStrip(s);
    assert IsDigit(s[0]);
    DigitPrefixOfDigits(s);
    StoiOfDigits(s);
  }

  lemma DigitsSurviveStrip(s: string)
    requires s != [] && AllDigits(s)
    ensures StripTrailingNonDigits(Trim(s)) == s
  {
    assert IsDigit(s[0]) && IsDigit(s[|s| - 1]);
    TrimUnpadded(s);
    assert StripTrailingNonDigits(s) == s;
  }

  lemma StoiOfDigits(s: string)
    requires s != [] && IsDigit(s[0]) && DigitPrefix(s) == s
    ensures StoiOrZero(s) == (if Decimal(s) <= INT_MAX then Decimal(s) else 0)
  {
    DropNoLeadingSpaces(s);
  }

  lemma DropNoLeadingSpaces(s: string)
    requires s != [] && !IsSpace(s[0])
    ensures DropLeadingSpaces(s) == s
  {
  }

  /** A plain digit string within the `int` range reads as its decimal value. */
  lemma IntOrZeroOfDigits(s: string)
    requires s != [] && AllDigits(s) && Decimal(s) <= INT_MAX
    ensures IntOrZero(s) == Decimal(s)
  {
    DigitsReadPlainly(s);
  }

  /** The value `stoi` gives a sign followed by digits, before the range check. */
  function SignedValue(sign: char, ds: string): int
    requires AllDigits(ds)
  {
    if sign == '-' then -(Decimal(ds) as int) else Decimal(ds)
  }

  /**
   * A sign followed by digits reads as the signed decimal value when that is
   * an `int`, and as 0 (stoi's out_of_range) otherwise.
   */
  lemma IntOrZeroSigned(sign: char, ds: string)
    requires sign == '-' || sign == '+'
    requires ds != [] && AllDigits(ds)
    ensures var v := SignedValue(sign, ds);
      IntOrZero([sign] + ds) == if INT_MIN <= v <= INT_MAX then v else 0
  {
    var s := [sign] + ds;
    assert s[0] == sign && s[|s| - 1] == ds[|ds| - 1] && s[1..] == ds;
    assert IsDigit(s[|s| - 1]);
    TrimUnpadded(s);
    assert StripTrailingNonDigits(s) == s;
    DropNoLeadingSpaces(s);
    DigitPrefixOfDigits(ds);
  }

  /** "-20" reads as minus twenty. */
  lemma IntOrZeroMinusTwenty()
    ensures IntOrZero("-20") == -20
  {
    assert "-20" == ['-'] + "20";
    assert "20"[..1] == "2";
    assert Decimal("2") == 2 by { assert "2"[..0] == []; }
    IntOrZeroSigned('-', "20");
  }

  /** One below the smallest `int` is out of range and reads as 0. */
  lemma IntOrZeroBelowIntMin()
    ensures IntOrZero("-2147483649") == 0
  {
    var ds := "2147483649";
    assert "-2147483649" == ['-'] + ds;
    DecimalBelowIntMin();
    IntOrZeroSigned('-', ds);
  }

  /** Appending a digit multiplies the value by ten and adds the digit. */
  lemma DecimalSnoc(ds: string, d: char)
    requires AllDigits(ds) && IsDigit(d)
    ensures AllDigits(ds + [d]) && Decimal(ds + [d]) == 10 * Decimal(ds) + DigitValue(d)
  {
    assert (ds + [d])[..|ds|] == ds;
  }

  /** The digits of one below the smallest `int`, read one at a time. */
  lemma DecimalBelowIntMin()
    ensures AllDigits("2147483649") && Decimal("2147483649") == 2147483649
  {
    var ds := "2147483649";
    var p: string := [];
    DecimalSnoc(p, '2'); p := p + ['2'];
    DecimalSnoc(p, '1'); p := p + ['1'];
    DecimalSnoc(p, '4'); p := p + ['4'];
    DecimalSnoc(p, '7'); p := p + ['7'];
    DecimalSnoc(p, '4'); p := p + ['4'];
    DecimalSnoc(p, '8'); p := p + ['8'];
    DecimalSnoc(p, '3'); p := p + ['3'];
    DecimalSnoc(p, '6'); p := p + ['6'];
    DecimalSnoc(p, '4'); p := p + ['4'];
    DecimalSnoc(p, '9'); p := p + ['9'];
    assert p == ds;
  }

  /** A digit string beyond the `int` range (stoi's out_of_range) reads as 0. */
  lemma IntOrZeroOutOfRange(s: string)
    requires s != [] && AllDigits(s) && Decimal(s) > INT_MAX
    ensures IntOrZero(s) == 0
  {
    DigitsReadPlainly(s);
  }

  lemma {:induction false} StripNoDigits(s: string)
    requires NoDigits(s)
    ensures StripTrailingNonDigits(s) == []
  {
    if s != [] {
      StripNoDigits(s[..|s| - 1]);
    }
  }

  /** A field without any digit reads as 0. */
  lemma IntOrZeroNoDigits(s: string)
    requires NoDigits(s)
    ensures IntOrZero(s) == 0
  {
    var i, j := TrimIsInfix(s);
    StripNoDigits(Trim(s));
  }

  /**
   * A field whose first non-blank character cannot start a number (not a
   * digit, a sign or whitespace) reads as 0, even if digits follow.
   */
  lemma IntOrZeroLeadingJunk(s: string)
    requires Trim(s) != []
    requires var c := Trim(s)[0]; !IsDigit(c) && c != '+' && c != '-' && !IsSpace(c)
    ensures IntOrZero(s) == 0
  {
  }

  lemma {:induction false} StripIgnoresNonDigitSuffix(s: string, t: string)
    requires NoDigits(t)
    ensures StripTrailingNonDigits(s + t) == StripTrailingNonDigits(s)
    decreases |t|
  {
    if t == [] {
      assert s + t == s;
    } else {
      assert (s + t)[..|s + t| - 1] == s + t[..|t| - 1];
      StripIgnoresNonDigitSuffix(s, t[..|t| - 1]);
    }
  }

  /** A slice of s + t holds no digit when t holds none and s holds none from lo on. */
  lemma NoDigitsInTail(s: string, t: string, lo: nat, hi: nat)
    requires NoDigits(t)
    requires lo <= hi <= |s + t|
    requires forall k :: lo <= k < |s| ==> !IsDigit(s[k])
    ensures NoDigits((s + t)[lo..hi])
  {
    var m := (s + t)[lo..hi];
    forall k | 0 <= k < |m| ensures !IsDigit(m[k]) {
      if lo + k < |s| {
        assert m[k] == s[lo + k];
      } else {
        assert m[k] == t[lo + k - |s|];
      }
    }
  }

  /** Trimming then stripping s + t leaves what it leaves of s, when t holds no digit. */
  lemma StripTrimIgnoresSuffix(s: string, t: string)
    requires NoDigits(t) && !AllBlank(s)
    ensures StripTrailingNonDigits(Trim(s + t)) == StripTrailingNonDigits(Trim(s))
  {
    TrimAppend(s, t);
    NoDigitsInTail(s, t, EndNotBlank(s), EndNotBlank(s + t));
    StripIgnoresNonDigitSuffix(Trim(s), (s + t)[EndNotBlank(s)..EndNotBlank(s + t)]);
  }

  /** Appending characters that are not digits ("30" vs "30hp") does not change the value. */
  lemma IntOrZeroIgnoresSuffix(s: string, t: string)
    requires NoDigits(t)
    ensures IntOrZero(s + t) == IntOrZero(s)
  {
    if AllBlank(s) {
      assert NoDigits(s);
      assert NoDigits(s + t);
      IntOrZeroNoDigits(s + t);
      IntOrZeroNoDigits(s);
    } else {
      StripTrimIgnoresSuffix(s, t);
    }
  }

  /** The documented example: "30hp" and "30" both read as 30. */
  lemma ThirtyHp()
    ensures IntOrZero("30hp") == IntOrZero("30") == 30
  {
    assert "30hp" == "30" + "hp";
    IntOrZeroIgnoresSuffix("30", "hp");
    DecimalThirty();
    IntOrZeroOfDigits("30");
  }

  lemma DecimalThirty()
    ensures Decimal("30") == 30
  {
    assert "30"[..1] == "3";
    assert Decimal("3") == 3 by { assert "3"[..0] == []; }
  }

  // ---------------------------------------------------------------------
  // applySkillEffectToken
  // ---------------------------------------------------------------------

  /** `token.rfind(p, 0) == 0`: the token begins with p. */
  predicate StartsWith(s: string, p: string) {
    p <= s
  }

  /** The fields of a SpecialSkill, to state which of them a token may write. */
  datatype EffectField =
    | DoCoinFlips | NumFlips | FlipUntilTails | DamagePerFlip
    | RandomHitDamage | RandomHitCount | ExtraDmg | ExtraDmgIfPoisoned
    | ExtraDmgIfParalyzed | DamagePerEnergyAttached | Heal | DamageReduction
    | BenchedDamage | NumBenched | SwitchOutOpp | ParalyzeOpp | PoisonOpp
    | ShuffleOpponentBackIfHeads | BanSupporter

  /** A pattern of the effect grammar: an exact literal or a prefix. */
  datatype Pattern = Exact(text: string) | Prefix(text: string)

  predicate PatternMatches(p: Pattern, token: string) {
    match p
    case Exact(t) => token == t
    case Prefix(t) => StartsWith(token, t)
  }

  /** One branch of the token dispatch: its patterns and the fields it writes. */
  datatype Rule = Rule(patterns: seq<Pattern>, writes: set<EffectField>)

  predicate RuleMatches(r: Rule, token: string) {
    exists k :: 0 <= k < |r.patterns| && PatternMatches(r.patterns[k], token)
  }

  /**
   * The branches of applySkillEffectToken in the order the source tests
   * them, each with the fields its body assigns.
   */
  const EffectGrammar: seq<Rule> := [
    Rule([Prefix("Heal:")], {Heal}),
    Rule([Prefix("CoinFlip:")], {DoCoinFlips, DamagePerFlip}),
    Rule([Exact("CoinFlip:ParalyzeOpp")], {DoCoinFlips, NumFlips, ParalyzeOpp}),
    Rule([Exact("ShuffleBackIfHeads")], {DoCoinFlips, NumFlips, ShuffleOpponentBackIfHeads}),
    Rule([Prefix("DamagePerEnergy:"), Prefix("energyAttached:")], {DamagePerEnergyAttached}),
    Rule([Prefix("randomDmg:")], {RandomHitDamage, RandomHitCount}),
    Rule([Exact("PoisonOpp")], {PoisonOpp}),
    Rule([Exact("switchOut")], {SwitchOutOpp}),
    Rule([Exact("banSupporter"), Exact("BanSupporter:nextTurn")], {BanSupporter}),
    Rule([Prefix("dmgIfPoisoned:")], {ExtraDmgIfPoisoned}),
    Rule([Prefix("reduceDmg:")], {DamageReduction}),
    Rule([Prefix("benchedDmg:")], {BenchedDamage})
  ]

  /** Index of the first rule that matches, |rules| when none does: an if-else chain. */
  function FirstMatch(token: string, rules: seq<Rule>): (k: nat)
    ensures k <= |rules|
    ensures k < |rules| ==> RuleMatches(rules[k], token)
    ensures forall j :: 0 <= j < k ==> !RuleMatches(rules[j], token)
  {
    if rules == [] then 0
    else if RuleMatches(rules[0], token) then 0
    else 1 + FirstMatch(token, rules[1..])
  }

  /** `token.substr(n)`: what follows the first n characters, empty when there are fewer. */
  function Rest(token: string, n: nat): (r: string)
    ensures n <= |token| ==> r == token[n..]
  {
    if n <= |token| then token[n..] else []
  }

  /**
   * The body of branch k. A number after a prefix is read with
   * parseIntOrZero; "DamagePerEnergy:" and "energyAttached:" read what
   * follows the first ':'; "randomDmg:" needs exactly two comma fields.
   */
  function ApplyRule(k: nat, token: string, effect: SpecialSkill): SpecialSkill
    requires k < |EffectGrammar|
  {
    if k == 0 then effect.(heal := IntOrZero(Rest(token, 5)))
    else if k == 1 then effect.(doCoinFlips := true, damagePerFlip := IntOrZero(Rest(token, 9)))
    else if k == 2 then effect.(doCoinFlips := true, numFlips := 1, paralyzeOpp := true)
    else if k == 3 then effect.(doCoinFlips := true, numFlips := 1, shuffleOpponentBackIfHeads := true)
    else if k == 4 then effect.(damagePerEnergyAttached := IntOrZero(Rest(token, IndexOf(token, ':') + 1)))
    else if k == 5 then ApplyRandomDmg(Rest(token, 10), effect)
    else if k == 6 then effect.(poisonOpp := true)
    else if k == 7 then effect.(switchOutOpp := true)
    else if k == 8 then effect.(banSupporter := true)
    else if k == 9 then effect.(extraDmgIfPoisoned := IntOrZero(Rest(token, 14)))
    else if k == 10 then effect.(damageReduction := IntOrZero(Rest(token, 10)))
    else effect.(benchedDamage := IntOrZero(Rest(token, 11)))
  }

  /** The "randomDmg:D,N" branch: it writes both values only when there are exactly two. */
  function ApplyRandomDmg(args: string, effect: SpecialSkill): (r: SpecialSkill)
    ensures r == effect.(randomHitDamage := r.randomHitDamage, randomHitCount := r.randomHitCount)
  {
    var parts := SplitAndTrim(args, ',');
    if |parts| == 2 then
      effect.(randomHitDamage := IntOrZero(parts[0]), randomHitCount := IntOrZero(parts[1]))
    else effect
  }

  /**
   * FileParser.cpp `applySkillEffectToken`: "None" leaves the effect alone;
   * otherwise the first branch whose literal or prefix matches runs, and a
   * token no branch matches leaves the effect alone (the source only warns).
   */
  function ApplySkillEffectToken(token: string, effect: SpecialSkill): SpecialSkill
  {
    if token == "None" then effect
    else
      var k := FirstMatch(token, EffectGrammar);
      if k == |EffectGrammar| then effect else ApplyRule(k, token, effect)
  }

  /** A token some branch acts on ("None" is handled before the branches). */
  predicate Recognised(token: string) {
    token != "None" && FirstMatch(token, EffectGrammar) < |EffectGrammar|
  }

  /** The fields a token may write: those of the branch it selects. */
  function Writes(token: string): set<EffectField> {
    if Recognised(token) then EffectGrammar[FirstMatch(token, EffectGrammar)].writes else {}
  }

  /** Every field of r outside w has the value it has in e. */
  predicate KeepsOutside(e: SpecialSkill, r: SpecialSkill, w: set<EffectField>) {
    && (DoCoinFlips in w || r.doCoinFlips == e.doCoinFlips)
    && (NumFlips in w || r.numFlips == e.numFlips)
    && (FlipUntilTails in w || r.flipUntilTails == e.flipUntilTails)
    && (DamagePerFlip in w || r.damagePerFlip == e.damagePerFlip)
    && (RandomHitDamage in w || r.randomHitDamage == e.randomHitDamage)
    && (RandomHitCount in w || r.randomHitCount == e.randomHitCount)
    && (ExtraDmg in w || r.extraDmg == e.extraDmg)
    && (ExtraDmgIfPoisoned in w || r.extraDmgIfPoisoned == e.extraDmgIfPoisoned)
    && (ExtraDmgIfParalyzed in w || r.extraDmgIfParalyzed == e.extraDmgIfParalyzed)
    && (DamagePerEnergyAttached in w || r.damagePerEnergyAttached == e.damagePerEnergyAttached)
    && (Heal in w || r.heal == e.heal)
    && (DamageReduction in w || r.damageReduction == e.damageReduction)
    && (BenchedDamage in w || r.benchedDamage == e.benchedDamage)
    && (NumBenched in w || r.numBenched == e.numBenched)
    && (SwitchOutOpp in w || r.switchOutOpp == e.switchOutOpp)
    && (ParalyzeOpp in w || r.paralyzeOpp == e.paralyzeOpp)
    && (PoisonOpp in w || r.poisonOpp == e.poisonOpp)
    && (ShuffleOpponentBackIfHeads in w || r.shuffleOpponentBackIfHeads == e.shuffleOpponentBackIfHeads)
    && (BanSupporter in w || r.banSupporter == e.banSupporter)
  }

  /** A flag that is set in e is still set in r. */
  predicate FlagsKept(e: SpecialSkill, r: SpecialSkill) {
    && (e.doCoinFlips ==> r.doCoinFlips) && (e.flipUntilTails ==> r.flipUntilTails)
    && (e.switchOutOpp ==> r.switchOutOpp) && (e.paralyzeOpp ==> r.paralyzeOpp)
    && (e.poisonOpp ==> r.poisonOpp)
    && (e.shuffleOpponentBackIfHeads ==> r.shuffleOpponentBackIfHeads)
    && (e.banSupporter ==> r.banSupporter)
  }

  /** Branch k writes only the fields the grammar lists for it, and never clears a flag. */
  lemma RuleFrame(k: nat, token: string, e: SpecialSkill)
    requires k < |EffectGrammar|
    ensures KeepsOutside(e, ApplyRule(k, token, e), EffectGrammar[k].writes)
    ensures FlagsKept(e, ApplyRule(k, token, e))
  {
    if k == 0 {
      FrameHeal(token, e);
    } else if k == 1 {
      FrameCoinFlip(token, e);
    } else if k == 2 {
      FrameParalyze(token, e);
    } else if k == 3 {
      FrameShuffleBack(token, e);
    } else if k == 4 {
      FrameDamagePerEnergy(token, e);
    } else if k == 5 {
      FrameRandomDmg(token, e);
    } else if k == 6 {
      FramePoison(token, e);
    } else if k == 7 {
      FrameSwitchOut(token, e);
    } else if k == 8 {
      FrameBanSupporter(token, e);
    } else if k == 9 {
      FrameDmgIfPoisoned(token, e);
    } else if k == 10 {
      FrameReduceDmg(token, e);
    } else {
      FrameBenchedDmg(token, e);
    }
  }

  lemma FrameHeal(token: string, e: SpecialSkill)
    ensures KeepsOutside(e, ApplyRule(0, token, e), EffectGrammar[0].writes)
    ensures FlagsKept(e, ApplyRule(0, token, e))
  {
  }

  lemma FrameCoinFlip(token: string, e: SpecialSkill)
    ensures KeepsOutside(e, ApplyRule(1, token, e), EffectGrammar[1].writes)
    ensures FlagsKept(e, ApplyRule(1, token, e))
  {
  }

  lemma FrameParalyze(token: string, e: SpecialSkill)
    ensures KeepsOutside(e, ApplyRule(2, token, e), EffectGrammar[2].writes)
    ensures FlagsKept(e, ApplyRule(2, token, e))
  {
  }

  lemma FrameShuffleBack(token: string, e: SpecialSkill)
    ensures KeepsOutside(e, ApplyRule(3, token, e), EffectGrammar[3].writes)
    ensures FlagsKept(e, ApplyRule(3, token, e))
  {
  }

  lemma FrameDamagePerEnergy(token: string, e: SpecialSkill)
    ensures KeepsOutside(e, ApplyRule(4, token, e), EffectGrammar[4].writes)
    ensures FlagsKept(e, ApplyRule(4, token, e))
  {
    var r := ApplyRule(4, token, e);
    assert r == e.(damagePerEnergyAttached := r.damagePerEnergyAttached);
  }

  lemma FrameRandomDmg(token: string, e: SpecialSkill)
    ensures KeepsOutside(e, ApplyRule(5, token, e), EffectGrammar[5].writes)
    ensures FlagsKept(e, ApplyRule(5, token, e))
  {
    RandomDmgKeepsFrame(e, ApplyRule(5, token, e));
  }

  lemma RandomDmgKeepsFrame(e: SpecialSkill, r: SpecialSkill)
    requires r == e.(randomHitDamage := r.randomHitDamage, randomHitCount := r.randomHitCount)
    ensures KeepsOutside(e, r, EffectGrammar[5].writes) && FlagsKept(e, r)
  {
  }

  lemma FramePoison(token: string, e: SpecialSkill)
    ensures KeepsOutside(e, ApplyRule(6, token, e), EffectGrammar[6].writes)
    ensures FlagsKept(e, ApplyRule(6, token, e))
  {
  }

  lemma FrameSwitchOut(token: string, e: SpecialSkill)
    ensures KeepsOutside(e, ApplyRule(7, token, e), EffectGrammar[7].writes)
    ensures FlagsKept(e, ApplyRule(7, token, e))
  {
  }

  lemma FrameBanSupporter(token: string, e: SpecialSkill)
    ensures KeepsOutside(e, ApplyRule(8, token, e), EffectGrammar[8].writes)
    ensures FlagsKept(e, ApplyRule(8, token, e))
  {
  }

  lemma FrameDmgIfPoisoned(token: string, e: SpecialSkill)
    ensures KeepsOutside(e, ApplyRule(9, token, e), EffectGrammar[9].writes)
    ensures FlagsKept(e, ApplyRule(9, token, e))
  {
  }

  lemma FrameReduceDmg(token: string, e: SpecialSkill)
    ensures KeepsOutside(e, ApplyRule(10, token, e), EffectGrammar[10].writes)
    ensures FlagsKept(e, ApplyRule(10, token, e))
  {
  }

  lemma FrameBenchedDmg(token: string, e: SpecialSkill)
    ensures KeepsOutside(e, ApplyRule(11, token, e), EffectGrammar[11].writes)
    ensures FlagsKept(e, ApplyRule(11, token, e))
  {
  }

  /**
   * Frame of applySkillEffectToken: every field outside those of the
   * selected branch keeps its value, no flag is ever cleared, and "None" or
   * an unrecognised token changes nothing.
   */
  lemma EffectTokenFrame(token: string, e: SpecialSkill)
    ensures KeepsOutside(e, ApplySkillEffectToken(token, e), Writes(token))
    ensures FlagsKept(e, ApplySkillEffectToken(token, e))
    ensures !Recognised(token) ==> ApplySkillEffectToken(token, e) == e
  {
    if Recognised(token) {
      RuleFrame(FirstMatch(token, EffectGrammar), token, e);
    }
  }

  /** FirstMatch is the index of a matching rule with no match before it. */
  lemma {:induction false} FirstMatchAt(token: string, rules: seq<Rule>, k: nat)
    requires k <= |rules|
    requires k < |rules| ==> RuleMatches(rules[k], token)
    requires forall j :: 0 <= j < k ==> !RuleMatches(rules[j], token)
    ensures FirstMatch(token, rules) == k
  {
    if k > 0 {
      assert !RuleMatches(rules[0], token);
      assert forall j :: 0 <= j < k - 1 ==> rules[1..][j] == rules[j + 1];
      FirstMatchAt(token, rules[1..], k - 1);
    }
  }

  /**
   * The exact "CoinFlip:ParalyzeOpp" branch can never run: every token it
   * matches also starts with "CoinFlip:", which is checked first.
   */
  lemma ParalyzeBranchUnreachable(token: string)
    ensures FirstMatch(token, EffectGrammar) != 2
  {
    var g := EffectGrammar;
    if RuleMatches(g[2], token) {
      assert PatternMatches(g[2].patterns[0], token);
      assert StartsWith(token, "CoinFlip:");
      assert PatternMatches(g[1].patterns[0], token);
    }
  }

  /**
   * "CoinFlip:ParalyzeOpp" is read as a numeric coin-flip token: it turns
   * coin flips on with 0 damage per flip and does not set paralysis.
   */
  lemma CoinFlipParalyzeOpp(e: SpecialSkill)
    ensures ApplySkillEffectToken("CoinFlip:ParalyzeOpp", e)
            == e.(doCoinFlips := true, damagePerFlip := 0)
    ensures ApplySkillEffectToken("CoinFlip:ParalyzeOpp", e).paralyzeOpp == e.paralyzeOpp
  {
    var t := "CoinFlip:ParalyzeOpp";
    ParalyzeTokenBranch();
    ParalyzeTokenReadsZero();
    assert ApplySkillEffectToken(t, e) == ApplyRule(1, t, e);
  }

  lemma ParalyzeTokenBranch()
    ensures FirstMatch("CoinFlip:ParalyzeOpp", EffectGrammar) == 1
  {
    var t := "CoinFlip:ParalyzeOpp";
    var g := EffectGrammar;
    assert PatternMatches(g[1].patterns[0], t);
    assert !RuleMatches(g[0], t) by {
      assert t[0] != "Heal:"[0];
    }
    FirstMatchAt(t, g, 1);
  }

  lemma ParalyzeTokenReadsZero()
    ensures IntOrZero(Rest("CoinFlip:ParalyzeOpp", 9)) == 0
  {
    assert Rest("CoinFlip:ParalyzeOpp", 9) == "ParalyzeOpp";
    IntOrZeroNoDigits("ParalyzeOpp");
  }

  /** Every token starting with "randomDmg:" selects the randomDmg branch. */
  lemma RandomDmgBranch(token: string)
    requires StartsWith(token, "randomDmg:")
    ensures FirstMatch(token, EffectGrammar) == 5
  {
    var g := EffectGrammar;
    assert token[0] == 'r';
    assert PatternMatches(g[5].patterns[0], token);
    forall j | 0 <= j < 5 ensures !RuleMatches(g[j], token) {
      assert j == 0 || j == 1 || j == 2 || j == 3 || j == 4;
    }
    FirstMatchAt(token, g, 5);
  }

  /** A "randomDmg:" token without exactly two comma fields changes nothing. */
  lemma RandomDmgNeedsTwoValues(token: string, e: SpecialSkill)
    requires StartsWith(token, "randomDmg:")
    requires |SplitAndTrim(token[10..], ',')| != 2
    ensures ApplySkillEffectToken(token, e) == e
  {
    RandomDmgBranch(token);
  }

  /** "randomDmg:D,N" sets the per-hit damage from D and the hit count from N. */
  lemma RandomDmgReadsBoth(token: string, e: SpecialSkill)
    requires StartsWith(token, "randomDmg:")
    requires |SplitAndTrim(token[10..], ',')| == 2
    ensures var parts := SplitAndTrim(token[10..], ',');
            ApplySkillEffectToken(token, e)
            == e.(randomHitDamage := IntOrZero(parts[0]), randomHitCount := IntOrZero(parts[1]))
  {
    RandomDmgBranch(token);
    assert ApplySkillEffectToken(token, e) == ApplyRule(5, token, e);
  }

  /** "Heal:N" sets the heal amount to the integer read after the prefix. */
  lemma HealReads(token: string, e: SpecialSkill)
    requires StartsWith(token, "Heal:")
    ensures ApplySkillEffectToken(token, e) == e.(heal := IntOrZero(token[5..]))
  {
    var g := EffectGrammar;
    assert token[0] == 'H';
    assert PatternMatches(g[0].patterns[0], token);
    FirstMatchAt(token, g, 0);
    assert ApplySkillEffectToken(token, e) == ApplyRule(0, token, e);
  }

  /** "Heal:30" heals 30. */
  lemma HealThirty(token: string, e: SpecialSkill)
    requires token == "Heal:30"
    ensures ApplySkillEffectToken(token, e) == e.(heal := 30)
  {
    assert StartsWith(token, "Heal:") && token[5..] == "30";
    HealReads(token, e);
    DecimalThirty();
    IntOrZeroOfDigits("30");
  }

  lemma CoinFlipBranch(token: string)
    requires StartsWith(token, "CoinFlip:")
    ensures FirstMatch(token, EffectGrammar) == 1
  {
    var g := EffectGrammar;
    assert token[0] == 'C';
    assert PatternMatches(g[1].patterns[0], token);
    assert !RuleMatches(g[0], token);
    FirstMatchAt(token, g, 1);
  }

  /** "CoinFlip:N" turns coin flips on with the integer after the prefix as damage per flip. */
  lemma CoinFlipReads(token: string, e: SpecialSkill)
    requires StartsWith(token, "CoinFlip:")
    ensures ApplySkillEffectToken(token, e)
            == e.(doCoinFlips := true, damagePerFlip := IntOrZero(token[9..]))
  {
    CoinFlipBranch(token);
    assert ApplySkillEffectToken(token, e) == ApplyRule(1, token, e);
  }

  lemma ShuffleBackBranch(token: string)
    requires token == "ShuffleBackIfHeads"
    ensures FirstMatch(token, EffectGrammar) == 3
  {
    var g := EffectGrammar;
    assert token[0] == 'S';
    assert PatternMatches(g[3].patterns[0], token);
    forall j | 0 <= j < 3 ensures !RuleMatches(g[j], token) {
      assert j == 0 || j == 1 || j == 2;
    }
    FirstMatchAt(token, g, 3);
  }

  /** "ShuffleBackIfHeads" flips one coin that may shuffle the opponent back. */
  lemma ShuffleBackToken(token: string, e: SpecialSkill)
    requires token == "ShuffleBackIfHeads"
    ensures ApplySkillEffectToken(token, e)
            == e.(doCoinFlips := true, numFlips := 1, shuffleOpponentBackIfHeads := true)
  {
    ShuffleBackBranch(token);
    assert ApplySkillEffectToken(token, e) == ApplyRule(3, token, e);
  }

  /** Both damage-per-energy spellings select branch 4. */
  lemma DamagePerEnergyBranch(token: string)
    requires StartsWith(token, "DamagePerEnergy:") || StartsWith(token, "energyAttached:")
    ensures FirstMatch(token, EffectGrammar) == 4
  {
    var g := EffectGrammar;
    assert token[0] == 'D' || token[0] == 'e';
    if StartsWith(token, "DamagePerEnergy:") {
      assert PatternMatches(g[4].patterns[0], token);
    } else {
      assert PatternMatches(g[4].patterns[1], token);
    }
    forall j | 0 <= j < 4 ensures !RuleMatches(g[j], token) {
      assert j == 0 || j == 1 || j == 2 || j == 3;
    }
    FirstMatchAt(token, g, 4);
  }

  /** Where the first ':' of a damage-per-energy token is: right after its key. */
  lemma DamagePerEnergyColon(token: string)
    requires StartsWith(token, "DamagePerEnergy:") || StartsWith(token, "energyAttached:")
    ensures StartsWith(token, "DamagePerEnergy:") ==> IndexOf(token, ':') == 15
    ensures StartsWith(token, "energyAttached:") ==> IndexOf(token, ':') == 14
  {
    if StartsWith(token, "DamagePerEnergy:") {
      assert token[..15] == "DamagePerEnergy";
      IndexOfFirst(token, ':', 15);
    } else {
      assert token[..14] == "energyAttached";
      IndexOfFirst(token, ':', 14);
    }
  }

  /**
   * "DamagePerEnergy:N" and "energyAttached:N" set the damage per attached
   * energy to the integer after the first ':', that is after the prefix.
   */
  lemma DamagePerEnergyReads(token: string, e: SpecialSkill)
    requires StartsWith(token, "DamagePerEnergy:") || StartsWith(token, "energyAttached:")
    ensures StartsWith(token, "DamagePerEnergy:") ==>
              ApplySkillEffectToken(token, e) == e.(damagePerEnergyAttached := IntOrZero(token[16..]))
    ensures StartsWith(token, "energyAttached:") ==>
              ApplySkillEffectToken(token, e) == e.(damagePerEnergyAttached := IntOrZero(token[15..]))
  {
    DamagePerEnergyBranch(token);
    DamagePerEnergyColon(token);
    assert ApplySkillEffectToken(token, e) == ApplyRule(4, token, e);
  }

  lemma PoisonOppBranch(token: string)
    requires token == "PoisonOpp"
    ensures FirstMatch(token, EffectGrammar) == 6
  {
    var g := EffectGrammar;
    assert token[0] == 'P';
    assert PatternMatches(g[6].patterns[0], token);
    forall j | 0 <= j < 6 ensures !RuleMatches(g[j], token) {
      assert j == 0 || j == 1 || j == 2 || j == 3 || j == 4 || j == 5;
    }
    FirstMatchAt(token, g, 6);
  }

  /** "PoisonOpp" poisons the opponent. */
  lemma PoisonOppToken(token: string, e: SpecialSkill)
    requires token == "PoisonOpp"
    ensures ApplySkillEffectToken(token, e) == e.(poisonOpp := true)
  {
    PoisonOppBranch(token);
    assert ApplySkillEffectToken(token, e) == ApplyRule(6, token, e);
  }

  lemma SwitchOutBranch(token: string)
    requires token == "switchOut"
    ensures FirstMatch(token, EffectGrammar) == 7
  {
    var g := EffectGrammar;
    assert token[0] == 's';
    assert PatternMatches(g[7].patterns[0], token);
    forall j | 0 <= j < 7 ensures !RuleMatches(g[j], token) {
      if j < 3 {
        assert j == 0 || j == 1 || j == 2;
      } else {
        assert j == 3 || j == 4 || j == 5 || j == 6;
      }
    }
    FirstMatchAt(token, g, 7);
  }

  /** "switchOut" forces the opponent to switch. */
  lemma SwitchOutToken(token: string, e: SpecialSkill)
    requires token == "switchOut"
    ensures ApplySkillEffectToken(token, e) == e.(switchOutOpp := true)
  {
    SwitchOutBranch(token);
    assert ApplySkillEffectToken(token, e) == ApplyRule(7, token, e);
  }

  lemma BanSupporterBranch(token: string)
    requires token == "banSupporter" || token == "BanSupporter:nextTurn"
    ensures FirstMatch(token, EffectGrammar) == 8
  {
    var g := EffectGrammar;
    assert token[0] == 'b' || token[0] == 'B';
    if token == "banSupporter" {
      assert PatternMatches(g[8].patterns[0], token);
    } else {
      assert PatternMatches(g[8].patterns[1], token);
    }
    forall j | 0 <= j < 8 ensures !RuleMatches(g[j], token) {
      if j < 4 {
        assert j == 0 || j == 1 || j == 2 || j == 3;
      } else {
        assert j == 4 || j == 5 || j == 6 || j == 7;
      }
    }
    FirstMatchAt(token, g, 8);
  }

  /** "banSupporter" bans the opponent's Supporter cards. */
  lemma BanSupporterToken(token: string, e: SpecialSkill)
    requires token == "banSupporter"
    ensures ApplySkillEffectToken(token, e) == e.(banSupporter := true)
  {
    BanSupporterBranch(token);
    assert ApplySkillEffectToken(token, e) == ApplyRule(8, token, e);
  }

  /** "BanSupporter:nextTurn" is the same ban. */
  lemma BanSupporterNextTurnToken(token: string, e: SpecialSkill)
    requires token == "BanSupporter:nextTurn"
    ensures ApplySkillEffectToken(token, e) == e.(banSupporter := true)
  {
    BanSupporterBranch(token);
    assert ApplySkillEffectToken(token, e) == ApplyRule(8, token, e);
  }

  lemma DmgIfPoisonedBranch(token: string)
    requires StartsWith(token, "dmgIfPoisoned:")
    ensures FirstMatch(token, EffectGrammar) == 9
  {
    var g := EffectGrammar;
    assert token[0] == 'd';
    assert PatternMatches(g[9].patterns[0], token);
    forall j | 0 <= j < 9 ensures !RuleMatches(g[j], token) {
      if j < 4 {
        assert j == 0 || j == 1 || j == 2 || j == 3;
      } else {
        assert j == 4 || j == 5 || j == 6 || j == 7 || j == 8;
      }
    }
    FirstMatchAt(token, g, 9);
  }

  /** "dmgIfPoisoned:N" sets the extra damage against a poisoned defender. */
  lemma DmgIfPoisonedReads(token: string, e: SpecialSkill)
    requires StartsWith(token, "dmgIfPoisoned:")
    ensures ApplySkillEffectToken(token, e) == e.(extraDmgIfPoisoned := IntOrZero(token[14..]))
  {
    DmgIfPoisonedBranch(token);
    assert ApplySkillEffectToken(token, e) == ApplyRule(9, token, e);
  }

  lemma ReduceDmgBranch(token: string)
    requires StartsWith(token, "reduceDmg:")
    ensures FirstMatch(token, EffectGrammar) == 10
  {
    var g := EffectGrammar;
    assert token[0] == 'r' && token[1] == 'e';
    assert PatternMatches(g[10].patterns[0], token);
    forall j | 0 <= j < 10 ensures !RuleMatches(g[j], token) {
      if j < 5 {
        assert j == 0 || j == 1 || j == 2 || j == 3 || j == 4;
      } else {
        assert j == 5 || j == 6 || j == 7 || j == 8 || j == 9;
      }
    }
    FirstMatchAt(token, g, 10);
  }

  /** "reduceDmg:N" sets the damage reduction. */
  lemma ReduceDmgReads(token: string, e: SpecialSkill)
    requires StartsWith(token, "reduceDmg:")
    ensures ApplySkillEffectToken(token, e) == e.(damageReduction := IntOrZero(token[10..]))
  {
    ReduceDmgBranch(token);
    assert ApplySkillEffectToken(token, e) == ApplyRule(10, token, e);
  }

  lemma BenchedDmgBranch(token: string)
    requires StartsWith(token, "benchedDmg:")
    ensures FirstMatch(token, EffectGrammar) == 11
  {
    var g := EffectGrammar;
    assert token[0] == 'b' && token[1] == 'e';
    assert PatternMatches(g[11].patterns[0], token);
    forall j | 0 <= j < 11 ensures !RuleMatches(g[j], token) {
      if j < 5 {
        assert j == 0 || j == 1 || j == 2 || j == 3 || j == 4;
      } else {
        assert j == 5 || j == 6 || j == 7 || j == 8 || j == 9 || j == 10;
      }
    }
    FirstMatchAt(token, g, 11);
  }

  /** "benchedDmg:N" sets the damage dealt to each benched Pokemon. */
  lemma BenchedDmgReads(token: string, e: SpecialSkill)
    requires StartsWith(token, "benchedDmg:")
    ensures ApplySkillEffectToken(token, e) == e.(benchedDamage := IntOrZero(token[11..]))
  {
    BenchedDmgBranch(token);
    assert ApplySkillEffectToken(token, e) == ApplyRule(11, token, e);
  }

  // ---------------------------------------------------------------------
  // The Skills, SkillEffect and Abilities values of a card block
  // ---------------------------------------------------------------------

  /** One `Type:Amount` pair of an energy cost; a pair without ':' gives nothing. */
  function EnergyRequirementOf(pair: string): (r: Option<EnergyRequirement>)
    ensures r.Some? <==> ':' in pair
    ensures r.Some? ==> ':' !in r.value.energyType
  {
    var pos := IndexOf(pair, ':');
    if pos == |pair| then None
    else
      var typeText := pair[..pos];
      var energyType := Trim(typeText);
      assert ':' !in typeText;
      TrimKeepsAbsent(typeText, ':');
      Some(EnergyRequirement(energyType, IntOrZero(Trim(pair[pos + 1..]))))
  }

  /**
   * A pair whose first ':' is at pos requires the trimmed text before it as
   * the type and the integer read from the trimmed text after it as the amount.
   */
  lemma EnergyRequirementAt(pair: string, pos: nat)
    requires pos < |pair| && pair[pos] == ':' && ':' !in pair[..pos]
    ensures EnergyRequirementOf(pair) ==
              Some(EnergyRequirement(Trim(pair[..pos]), IntOrZero(Trim(pair[pos + 1..]))))
  {
    IndexOfFirst(pair, ':', pos);
  }

  /** The requirements of the pairs, in order, malformed pairs left out. */
  function EnergyRequirementsFrom(pairs: seq<string>): (r: seq<EnergyRequirement>)
    ensures |r| <= |pairs|
  {
    if pairs == [] then []
    else
      var last := pairs[|pairs| - 1];
      var front := EnergyRequirementsFrom(pairs[..|pairs| - 1]);
      match EnergyRequirementOf(last)
      case Some(req) => front + [req]
      case None => front
  }

  /** The `energyCostSpec` field of a skill: `|`-separated pairs. */
  function EnergyRequirementsOf(spec: string): seq<EnergyRequirement> {
    EnergyRequirementsFrom(SplitAndTrim(spec, '|'))
  }

  /** A skill from its six comma fields: name, damage, cost, energy drop, coin flag, flips. */
  function SkillOf(fields: seq<string>): (s: Skill)
    requires |fields| >= 6
  {
    Skill(fields[0], IntOrZero(fields[1]), EnergyRequirementsOf(fields[2]), IntOrZero(fields[3]),
          ToLower(fields[4]) == "true", IntOrZero(fields[5]), DefaultSpecialSkill())
  }

  /** The skill of one `;`-separated token; a token with fewer than six comma fields gives none. */
  function SkillOfToken(token: string): Option<Skill> {
    var fields := SplitAndTrim(token, ',');
    if |fields| < 6 then None else Some(SkillOf(fields))
  }

  /** The skills of the skill tokens, in order. */
  function SkillsFrom(tokens: seq<string>): (r: seq<Skill>)
    ensures |r| <= |tokens|
  {
    if tokens == [] then []
    else
      var front := SkillsFrom(tokens[..|tokens| - 1]);
      match SkillOfToken(tokens[|tokens| - 1])
      case Some(skill) => front + [skill]
      case None => front
  }

  /** The effect tokens applied in order, each trimmed first. */
  function ApplyEffectTokens(tokens: seq<string>, effect: SpecialSkill): SpecialSkill {
    if tokens == [] then effect
    else
      ApplySkillEffectToken(Trim(tokens[|tokens| - 1]),
                            ApplyEffectTokens(tokens[..|tokens| - 1], effect))
  }

  /** Applying two runs of effect tokens applies the first run, then the second. */
  lemma {:induction false} EffectTokensAppend(a: seq<string>, b: seq<string>, effect: SpecialSkill)
    ensures ApplyEffectTokens(a + b, effect) == ApplyEffectTokens(b, ApplyEffectTokens(a, effect))
    decreases |b|
  {
    if b == [] {
      assert a + b == a;
    } else {
      var front := b[..|b| - 1];
      EffectTokensAppend(a, front, effect);
      assert (a + b)[..|a + b| - 1] == a + front;
      assert (a + b)[|a + b| - 1] == b[|b| - 1];
    }
  }

  /**
   * The ability of one `;`-separated token, split at '|' into name and
   * description; an empty token or a name that lower-cases to "none" gives none.
   */
  function AbilityOf(token: string): Option<Ability> {
    var parts := SplitAndTrim(token, '|');
    if parts == [] || ToLower(parts[0]) == "none" then None
    else Some(NamedAbility(parts[0], if |parts| > 1 then parts[1] else ""))
  }

  function AbilitiesFrom(tokens: seq<string>): (r: seq<Ability>)
    ensures |r| <= |tokens|
  {
    if tokens == [] then []
    else
      var front := AbilitiesFrom(tokens[..|tokens| - 1]);
      match AbilityOf(tokens[|tokens| - 1])
      case Some(a) => front + [a]
      case None => front
  }

  /** A list of pairs that all hold ':' loses none of them. */
  lemma {:induction false} EnergyPairsAllKept(pairs: seq<string>)
    requires forall k :: 0 <= k < |pairs| ==> ':' in pairs[k]
    ensures |EnergyRequirementsFrom(pairs)| == |pairs|
  {
    if pairs != [] {
      EnergyPairsAllKept(pairs[..|pairs| - 1]);
    }
  }

  /** Pairs that all hold ':' give one requirement each, in place. */
  lemma {:induction false} EnergyPairsInPlace(pairs: seq<string>)
    requires forall k :: 0 <= k < |pairs| ==> ':' in pairs[k]
    ensures |EnergyRequirementsFrom(pairs)| == |pairs|
    ensures forall k :: 0 <= k < |pairs| ==>
              Some(EnergyRequirementsFrom(pairs)[k]) == EnergyRequirementOf(pairs[k])
  {
    if pairs != [] {
      var front, last := pairs[..|pairs| - 1], pairs[|pairs| - 1];
      EnergyPairsInPlace(front);
      var f := EnergyRequirementsFrom(front);
      var v := EnergyRequirementOf(last);
      assert v.Some?;
      var r := f + [v.value];
      assert EnergyRequirementsFrom(pairs) == r;
      forall k | 0 <= k < |pairs| ensures Some(r[k]) == EnergyRequirementOf(pairs[k]) {
        if k < |front| {
          assert r[k] == f[k] && front[k] == pairs[k];
        }
      }
    }
  }

  /** Pairs without ':' are all skipped. */
  lemma {:induction false} EnergyPairsMalformed(pairs: seq<string>)
    requires forall k :: 0 <= k < |pairs| ==> ':' !in pairs[k]
    ensures EnergyRequirementsFrom(pairs) == []
  {
    if pairs != [] {
      EnergyPairsMalformed(pairs[..|pairs| - 1]);
    }
  }

  /** Every requirement's type is the text before the first ':' of some pair, so it holds no ':'. */
  lemma {:induction false} EnergyTypesHaveNoColon(pairs: seq<string>)
    ensures forall k :: 0 <= k < |EnergyRequirementsFrom(pairs)| ==>
              ':' !in EnergyRequirementsFrom(pairs)[k].energyType
  {
    if pairs != [] {
      EnergyTypesHaveNoColon(pairs[..|pairs| - 1]);
    }
  }

  /** Skill tokens that all have fewer than six fields give no skill. */
  lemma {:induction false} ShortSkillTokensDropped(tokens: seq<string>)
    requires forall k :: 0 <= k < |tokens| ==> |SplitAndTrim(tokens[k], ',')| < 6
    ensures SkillsFrom(tokens) == []
  {
    if tokens != [] {
      ShortSkillTokensDropped(tokens[..|tokens| - 1]);
    }
  }

  /** Skill tokens that all have six comma fields each give their skill, in place. */
  lemma {:induction false} SkillsAllKept(tokens: seq<string>)
    requires forall k :: 0 <= k < |tokens| ==> |SplitAndTrim(tokens[k], ',')| >= 6
    ensures |SkillsFrom(tokens)| == |tokens|
    ensures forall k :: 0 <= k < |tokens| ==> Some(SkillsFrom(tokens)[k]) == SkillOfToken(tokens[k])
  {
    if tokens != [] {
      var front, last := tokens[..|tokens| - 1], tokens[|tokens| - 1];
      assert forall k :: 0 <= k < |front| ==> front[k] == tokens[k];
      SkillsAllKept(front);
      var f := SkillsFrom(front);
      var v := SkillOfToken(last);
      assert |SplitAndTrim(last, ',')| >= 6;
      var r := f + [v.value];
      assert SkillsFrom(tokens) == r;
      forall k | 0 <= k < |tokens| ensures Some(r[k]) == SkillOfToken(tokens[k]) {
        if k < |front| {
          assert r[k] == f[k] && front[k] == tokens[k];
        }
      }
    }
  }

  /** A token with at least six comma fields gives the skill those fields describe. */
  lemma SkillOfFields(token: string)
    ensures SkillOfToken(token).Some? <==> |SplitAndTrim(token, ',')| >= 6
    ensures SkillOfToken(token).Some? ==> SkillOfToken(token).value == SkillOf(SplitAndTrim(token, ','))
  {
  }

  /** Every skill name is a trimmed comma field: no surrounding blanks, no ','. */
  lemma {:induction false} SkillNamesTrimmed(tokens: seq<string>)
    ensures forall k :: 0 <= k < |SkillsFrom(tokens)| ==>
              var n := SkillsFrom(tokens)[k].skillName; Trim(n) == n && ',' !in n
  {
    if tokens != [] {
      SkillNamesTrimmed(tokens[..|tokens| - 1]);
      SplitAndTrimTokens(tokens[|tokens| - 1], ',');
    }
  }

  /** A token that is not empty and not named "none" gives its name and description. */
  predicate ListedToken(token: string) {
    var parts := SplitAndTrim(token, '|');
    parts != [] && ToLower(parts[0]) != "none"
  }

  /**
   * A listed ability token gives the ability named by its first '|' field,
   * described by the second (or nothing); any other token gives none.
   */
  lemma ListedTokenAbility(token: string)
    ensures AbilityOf(token).Some? <==> ListedToken(token)
    ensures ListedToken(token) ==>
              var parts := SplitAndTrim(token, '|');
              AbilityOf(token) == Some(NamedAbility(parts[0], if |parts| > 1 then parts[1] else ""))
  {
  }

  /** Listed ability tokens each give their ability, in place. */
  lemma {:induction false} AbilitiesAllKept(tokens: seq<string>)
    requires forall k :: 0 <= k < |tokens| ==> ListedToken(tokens[k])
    ensures |AbilitiesFrom(tokens)| == |tokens|
    ensures forall k :: 0 <= k < |tokens| ==> Some(AbilitiesFrom(tokens)[k]) == AbilityOf(tokens[k])
  {
    if tokens != [] {
      var front, last := tokens[..|tokens| - 1], tokens[|tokens| - 1];
      AbilitiesAllKept(front);
      var f := AbilitiesFrom(front);
      ListedTokenAbility(last);
      var v := AbilityOf(last);
      var r := f + [v.value];
      assert AbilitiesFrom(tokens) == r;
      forall k | 0 <= k < |tokens| ensures Some(r[k]) == AbilityOf(tokens[k]) {
        if k < |front| {
          assert r[k] == f[k] && front[k] == tokens[k];
        }
      }
    }
  }

  /** Tokens that are empty or named "none" give no ability. */
  lemma {:induction false} UnlistedAbilitiesDropped(tokens: seq<string>)
    requires forall k :: 0 <= k < |tokens| ==> !ListedToken(tokens[k])
    ensures AbilitiesFrom(tokens) == []
  {
    if tokens != [] {
      UnlistedAbilitiesDropped(tokens[..|tokens| - 1]);
    }
  }

  /** What the Abilities key can produce: a plain named ability not called "none" in any case. */
  predicate ListedAbility(a: Ability) {
    ToLower(a.name) != "none" && PlainAbility(a)
  }

  lemma AbilityOfListed(token: string)
    ensures AbilityOf(token).Some? ==> ListedAbility(AbilityOf(token).value)
  {
  }

  predicate AllListed(abilities: seq<Ability>) {
    forall k :: 0 <= k < |abilities| ==> ListedAbility(abilities[k])
  }

  lemma AllListedSnoc(front: seq<Ability>, a: Ability)
    requires AllListed(front) && ListedAbility(a)
    ensures AllListed(front + [a])
  {
    var r := front + [a];
    forall k | 0 <= k < |r| ensures ListedAbility(r[k]) {
      if k < |front| {
        assert r[k] == front[k];
      }
    }
  }

  /** No ability named "none" (in any case) is produced, and each is a plain named ability. */
  lemma {:induction false} NoAbilityNamedNone(tokens: seq<string>)
    ensures AllListed(AbilitiesFrom(tokens))
  {
    if tokens != [] {
      var front := AbilitiesFrom(tokens[..|tokens| - 1]);
      NoAbilityNamedNone(tokens[..|tokens| - 1]);
      var last := AbilityOf(tokens[|tokens| - 1]);
      AbilityOfListed(tokens[|tokens| - 1]);
      if last.Some? {
        AllListedSnoc(front, last.value);
      }
    }
  }

  /** Applying effect tokens never clears a flag that was set. */
  lemma {:induction false} EffectTokensKeepFlags(tokens: seq<string>, e: SpecialSkill)
    ensures FlagsKept(e, ApplyEffectTokens(tokens, e))
  {
    if tokens != [] {
      var mid := ApplyEffectTokens(tokens[..|tokens| - 1], e);
      EffectTokensKeepFlags(tokens[..|tokens| - 1], e);
      EffectTokenFrame(Trim(tokens[|tokens| - 1]), mid);
    }
  }

  /** A list of "None" tokens leaves the effect as it was. */
  lemma {:induction false} NoneTokensChangeNothing(tokens: seq<string>, e: SpecialSkill)
    requires forall k :: 0 <= k < |tokens| ==> Trim(tokens[k]) == "None"
    ensures ApplyEffectTokens(tokens, e) == e
  {
    if tokens != [] {
      NoneTokensChangeNothing(tokens[..|tokens| - 1], e);
    }
  }

  // ---------------------------------------------------------------------
  // parsePokemonBlock
  // ---------------------------------------------------------------------

  /** Name, Weakness, PrevEvo and NextEvo store "None" as the empty string. */
  function NoneAsEmpty(value: string): (r: string)
    ensures r == "" <==> value == "" || value == "None"
  {
    if value == "None" then "" else value
  }

  /** A boolean field is true when it lower-cases to "true". */
  predicate IsTrue(value: string) {
    ToLower(value) == "true"
  }

  /** The `Type` key also fixes the card type: Supporter 1, Item 2, anything else 0. */
  function CardTypeOf(typeName: string): (t: int)
    ensures 0 <= t <= 2
    ensures t == 1 <==> typeName == "Supporter"
    ensures t == 2 <==> typeName == "Item"
  {
    if typeName == "Supporter" then 1 else if typeName == "Item" then 2 else 0
  }

  /** `Skills`: the parsed skills are appended after the ones the card already has. */
  function WithSkills(p: Pokemon, value: string): Pokemon {
    p.(skills := p.skills + SkillsFrom(SplitAndTrim(value, ';')))
  }

  /** `SkillEffect`: the tokens are applied to the effect of the card's last skill, if any. */
  function WithSkillEffect(p: Pokemon, value: string): Pokemon {
    if p.skills == [] then p
    else
      var n := |p.skills| - 1;
      var last := p.skills[n];
      var effect := ApplyEffectTokens(SplitAndTrim(value, ';'), last.specialEffect);
      p.(skills := p.skills[..n] + [last.(specialEffect := effect)])
  }

  /** `Abilities`: the listed abilities are appended after the card's own. */
  function WithAbilities(p: Pokemon, value: string): Pokemon {
    p.(abilities := p.abilities + AbilitiesFrom(SplitAndTrim(value, ';')))
  }

  /** The keys the block parser acts on; any other key is ignored. */
  const CardKeys: set<string> := {
    "Name", "ex", "Type", "Package", "CanEvolve", "CardType", "HP", "Stage", "Weakness",
    "RetreatCost", "PrevEvo", "NextEvo", "Skills", "SkillEffect", "Abilities"
  }

  /** One `Key: Value` line applied to the card being built. */
  function ApplyKeyValue(key: string, value: string, p: Pokemon): (r: Pokemon)
    ensures key != "Stage" ==> r.stage == p.stage
    ensures key != "Stage" && key != "CanEvolve" ==> r.canEvolve == p.canEvolve
  {
    if key == "Name" then p.(name := NoneAsEmpty(value))
    else if key == "ex" then p.(isEx := IsTrue(value))
    else if key == "Type" then p.(typeName := value, cardType := CardTypeOf(value))
    else if key == "Package" then p.(package := value)
    else if key == "CanEvolve" then p.(canEvolve := IsTrue(value))
    else if key == "CardType" then p.(cardType := IntOrZero(value))
    else if key == "HP" then p.(hp := IntOrZero(value))
    else if key == "Stage" then
      var stage := IntOrZero(value);
      if stage != 0 then p.(stage := stage, canEvolve := false) else p.(stage := stage)
    else if key == "Weakness" then p.(weakness := NoneAsEmpty(value))
    else if key == "RetreatCost" then p.(retreatCost := IntOrZero(value))
    else if key == "PrevEvo" then p.(prevEvo := NoneAsEmpty(value))
    else if key == "NextEvo" then p.(nextEvo := NoneAsEmpty(value))
    else if key == "Skills" then WithSkills(p, value)
    else if key == "SkillEffect" then WithSkillEffect(p, value)
    else if key == "Abilities" then WithAbilities(p, value)
    else p
  }

  /**
   * One trimmed line other than END_POKEMON: a blank line or one without
   * ':' is skipped; otherwise the text before the first ':' is the key and
   * the text after it the value, both trimmed.
   */
  function LineStep(line: string, p: Pokemon): Pokemon {
    var pos := IndexOf(line, ':');
    if line == [] || pos == |line| then p
    else ApplyKeyValue(Trim(line[..pos]), Trim(line[pos + 1..]), p)
  }

  /**
   * The card built so far, whether END_POKEMON closed it, and how many lines
   * the block took from the stream (END_POKEMON included).
   */
  datatype BlockOutcome = BlockOutcome(card: Pokemon, closed: bool, used: nat)

  /**
   * FileParser.cpp `parsePokemonBlock` on the lines still to be read: blank
   * lines and lines without ':' are skipped, END_POKEMON closes the block,
   * and running out of lines leaves it unclosed.
   */
  function BlockParse(lines: seq<string>, p: Pokemon): (o: BlockOutcome)
    ensures o.used <= |lines|
  {
    if lines == [] then BlockOutcome(p, false, 0)
    else
      var line := Trim(lines[0]);
      if line == "END_POKEMON" then BlockOutcome(p, true, 1)
      else
        var o := BlockParse(lines[1..], LineStep(line, p));
        BlockOutcome(o.card, o.closed, o.used + 1)
  }

  /** Index of the first line that trims to END_POKEMON, |lines| when there is none. */
  function EndIndex(lines: seq<string>): (i: nat)
    ensures i <= |lines|
    ensures i < |lines| ==> Trim(lines[i]) == "END_POKEMON"
    ensures forall k :: 0 <= k < i ==> Trim(lines[k]) != "END_POKEMON"
  {
    if lines == [] then 0
    else if Trim(lines[0]) == "END_POKEMON" then 0
    else 1 + EndIndex(lines[1..])
  }

  /**
   * A block is closed exactly when some line trims to END_POKEMON; the
   * reading then stops right after the first such line, and an unclosed
   * block consumes every line.
   */
  lemma {:induction false} BlockClosedIff(lines: seq<string>, p: Pokemon)
    ensures BlockParse(lines, p).closed <==> EndIndex(lines) < |lines|
    ensures BlockParse(lines, p).used == if EndIndex(lines) < |lines| then EndIndex(lines) + 1 else |lines|
    decreases |lines|
  {
    if lines != [] && Trim(lines[0]) != "END_POKEMON" {
      assert EndIndex(lines) == 1 + EndIndex(lines[1..]);
      BlockClosedIff(lines[1..], LineStep(Trim(lines[0]), p));
    }
  }

  /** A line that is blank or has no ':' (and is not END_POKEMON) is read and skipped. */
  lemma LineWithoutColonSkipped(line: string, lines: seq<string>, p: Pokemon)
    requires Trim(line) != "END_POKEMON" && ':' !in Trim(line)
    ensures var o := BlockParse(lines, p);
            BlockParse([line] + lines, p) == BlockOutcome(o.card, o.closed, o.used + 1)
  {
    assert ([line] + lines)[1..] == lines;
  }

  /** A key the parser does not know leaves the card unchanged. */
  lemma UnknownKeyIgnored(key: string, value: string, p: Pokemon)
    requires key !in CardKeys
    ensures ApplyKeyValue(key, value, p) == p
  {
  }

  /** A card whose evolution flag agrees with its stage: a non-basic card cannot evolve. */
  predicate StageConsistent(p: Pokemon) {
    p.stage != 0 ==> !p.canEvolve
  }

  /** A Stage line always leaves the card consistent, whatever came before. */
  lemma StageEstablishesConsistency(value: string, p: Pokemon)
    ensures StageConsistent(ApplyKeyValue("Stage", value, p))
  {
  }

  /** Every key but CanEvolve keeps a consistent card consistent. */
  lemma KeysKeepStageConsistency(key: string, value: string, p: Pokemon)
    requires key != "CanEvolve" && StageConsistent(p)
    ensures StageConsistent(ApplyKeyValue(key, value, p))
  {
  }

  /** CanEvolve after Stage wins: a staged card can be made evolvable again. */
  lemma CanEvolveAfterStage(stage: string, flag: string, p: Pokemon)
    ensures var q := ApplyKeyValue("CanEvolve", flag, ApplyKeyValue("Stage", stage, p));
            q.canEvolve == IsTrue(flag) && q.stage == IntOrZero(stage)
  {
  }

  /** Stage after CanEvolve: a non-zero stage clears the flag, stage 0 keeps it. */
  lemma StageAfterCanEvolve(flag: string, stage: string, p: Pokemon)
    ensures var q := ApplyKeyValue("Stage", stage, ApplyKeyValue("CanEvolve", flag, p));
            q.canEvolve == (IsTrue(flag) && IntOrZero(stage) == 0)
  {
  }

  /** A CardType line after a Type line overrides the card type Type derived. */
  lemma CardTypeAfterType(typeValue: string, cardType: string, p: Pokemon)
    ensures var q := ApplyKeyValue("CardType", cardType, ApplyKeyValue("Type", typeValue, p));
            q.cardType == IntOrZero(cardType) && q.typeName == typeValue
  {
  }

  /** A Type line after a CardType line overrides it with the type's own card type. */
  lemma TypeAfterCardType(cardType: string, typeValue: string, p: Pokemon)
    ensures var q := ApplyKeyValue("Type", typeValue, ApplyKeyValue("CardType", cardType, p));
            q.cardType == CardTypeOf(typeValue) && q.typeName == typeValue
  {
  }

  /** SkillEffect before any Skills line does nothing. */
  lemma SkillEffectWithoutSkills(value: string, p: Pokemon)
    requires p.skills == []
    ensures ApplyKeyValue("SkillEffect", value, p) == p
  {
  }

  /**
   * SkillEffect changes only the effect of the last skill: every other
   * skill, every other field of that skill and every other field of the
   * card stay as they were, and no effect flag is cleared.
   */
  lemma SkillEffectTouchesLastSkill(value: string, p: Pokemon)
    requires p.skills != []
    ensures var q := ApplyKeyValue("SkillEffect", value, p);
            var n := |p.skills| - 1;
            && q == p.(skills := q.skills)
            && |q.skills| == |p.skills|
            && q.skills[..n] == p.skills[..n]
            && q.skills[n] == p.skills[n].(specialEffect := q.skills[n].specialEffect)
            && FlagsKept(p.skills[n].specialEffect, q.skills[n].specialEffect)
  {
    EffectTokensKeepFlags(SplitAndTrim(value, ';'), p.skills[|p.skills| - 1].specialEffect);
  }

  /** Skills and Abilities only append: what the card had stays in front. */
  lemma ListsOnlyGrow(key: string, value: string, p: Pokemon)
    requires key == "Skills" || key == "Abilities"
    ensures var q := ApplyKeyValue(key, value, p);
            p.skills <= q.skills && p.abilities <= q.abilities
            && q == p.(skills := q.skills, abilities := q.abilities)
  {
  }

  // ---------------------------------------------------------------------
  // The loops of parsePokemonBlock, each proved against its function
  // ---------------------------------------------------------------------

  // Each loop below keeps its result equal to the function of the items read
  // so far; these lemmas carry that invariant over one more item.

  lemma EnergyRequirementsSnoc(front: seq<string>, pair: string, reqs: seq<EnergyRequirement>,
                               req: Option<EnergyRequirement>)
    requires req == EnergyRequirementOf(pair) && reqs == EnergyRequirementsFrom(front)
    ensures reqs + ToSeq(req) == EnergyRequirementsFrom(front + [pair])
  {
    TakeFront(front, pair);
  }

  lemma SkillsSnoc(skills: seq<Skill>, front: seq<string>, token: string, r: seq<Skill>,
                   skill: Option<Skill>)
    requires skill == SkillOfToken(token) && r == skills + SkillsFrom(front)
    ensures r + ToSeq(skill) == skills + SkillsFrom(front + [token])
  {
    TakeFront(front, token);
  }

  lemma EffectTokensSnoc(front: seq<string>, token: string, effect: SpecialSkill, r: SpecialSkill)
    requires r == ApplyEffectTokens(front, effect)
    ensures ApplySkillEffectToken(Trim(token), r) == ApplyEffectTokens(front + [token], effect)
  {
    TakeFront(front, token);
  }

  lemma AbilitiesSnoc(abilities: seq<Ability>, front: seq<string>, token: string, r: seq<Ability>,
                      a: Option<Ability>)
    requires a == AbilityOf(token) && r == abilities + AbilitiesFrom(front)
    ensures r + ToSeq(a) == abilities + AbilitiesFrom(front + [token])
  {
    TakeFront(front, token);
  }

  /** The energy-cost loop of a skill: each `Type:Amount` pair with ':' adds a requirement. */
  method ParseEnergyRequirements(pairs: seq<string>) returns (reqs: seq<EnergyRequirement>)
    ensures reqs == EnergyRequirementsFrom(pairs)
  {
    reqs := [];
    var i := 0;
    while i < |pairs|
      invariant 0 <= i <= |pairs|
      invariant reqs == EnergyRequirementsFrom(pairs[..i])
    {
      var req := EnergyRequirementOf(pairs[i]);
      EnergyRequirementsSnoc(pairs[..i], pairs[i], reqs, req);
      TakeOneMore(pairs, i);
      reqs := reqs + ToSeq(req);
      i := i + 1;
    }
    assert pairs[..i] == pairs;
  }

  /** One skill's six fields: name, damage, cost, energy drop, coin flag and flips. */
  method ParseSkill(fields: seq<string>) returns (skill: Skill)
    requires |fields| >= 6
    ensures skill == SkillOf(fields)
  {
    var reqs := ParseEnergyRequirements(SplitAndTrim(fields[2], '|'));
    skill := Skill(fields[0], IntOrZero(fields[1]), reqs, IntOrZero(fields[3]),
                   ToLower(fields[4]) == "true", IntOrZero(fields[5]), DefaultSpecialSkill());
  }

  /** One skill token, split at ','; fewer than six fields give no skill. */
  method ParseSkillToken(token: string) returns (skill: Option<Skill>)
    ensures skill == SkillOfToken(token)
  {
    var fields := SplitAndTrim(token, ',');
    if |fields| < 6 {
      skill := None;
    } else {
      var s := ParseSkill(fields);
      skill := Some(s);
    }
  }

  /** The `Skills` loop: every token with at least six comma fields appends a skill. */
  method AppendSkills(skills: seq<Skill>, tokens: seq<string>) returns (r: seq<Skill>)
    ensures r == skills + SkillsFrom(tokens)
  {
    r := skills;
    var i := 0;
    while i < |tokens|
      invariant 0 <= i <= |tokens|
      invariant r == skills + SkillsFrom(tokens[..i])
    {
      var skill := ParseSkillToken(tokens[i]);
      SkillsSnoc(skills, tokens[..i], tokens[i], r, skill);
      TakeOneMore(tokens, i);
      r := r + ToSeq(skill);
      i := i + 1;
    }
    assert tokens[..i] == tokens;
  }

  /** The `SkillEffect` loop: every trimmed token is applied to the effect in turn. */
  method ApplySkillEffects(effect: SpecialSkill, tokens: seq<string>) returns (r: SpecialSkill)
    ensures r == ApplyEffectTokens(tokens, effect)
  {
    r := effect;
    var i := 0;
    while i < |tokens|
      invariant 0 <= i <= |tokens|
      invariant r == ApplyEffectTokens(tokens[..i], effect)
    {
      EffectTokensSnoc(tokens[..i], tokens[i], effect, r);
      TakeOneMore(tokens, i);
      r := ApplySkillEffectToken(Trim(tokens[i]), r);
      i := i + 1;
    }
    assert tokens[..i] == tokens;
  }

  /** The `Abilities` loop: every token naming an ability appends it. */
  method AppendAbilities(abilities: seq<Ability>, tokens: seq<string>) returns (r: seq<Ability>)
    ensures r == abilities + AbilitiesFrom(tokens)
  {
    r := abilities;
    var i := 0;
    while i < |tokens|
      invariant 0 <= i <= |tokens|
      invariant r == abilities + AbilitiesFrom(tokens[..i])
    {
      var a := AbilityOf(tokens[i]);
      AbilitiesSnoc(abilities, tokens[..i], tokens[i], r, a);
      TakeOneMore(tokens, i);
      r := r + ToSeq(a);
      i := i + 1;
    }
    assert tokens[..i] == tokens;
  }

  /** The body of one `Key: Value` line, updating the card being built. */
  method ApplyField(key: string, value: string, p: Pokemon) returns (q: Pokemon)
    ensures q == ApplyKeyValue(key, value, p)
  {
    q := p;
    if key == "Name" {
      q := q.(name := if value == "None" then "" else value);
    } else if key == "ex" {
      q := q.(isEx := ToLower(value) == "true");
    } else if key == "Type" {
      q := q.(typeName := value);
      if value == "Supporter" {
        q := q.(cardType := 1);
      } else if value == "Item" {
        q := q.(cardType := 2);
      } else {
        q := q.(cardType := 0);
      }
    } else if key == "Package" {
      q := q.(package := value);
    } else if key == "CanEvolve" {
      q := q.(canEvolve := ToLower(value) == "true");
    } else if key == "CardType" {
      var n := IntOrZero(value);
      q := q.(cardType := n);
    } else if key == "HP" {
      var n := IntOrZero(value);
      q := q.(hp := n);
    } else if key == "Stage" {
      var n := IntOrZero(value);
      q := q.(stage := n);
      if q.stage != 0 {
        q := q.(canEvolve := false);
      }
    } else if key == "Weakness" {
      q := q.(weakness := if value == "None" then "" else value);
    } else if key == "RetreatCost" {
      var n := IntOrZero(value);
      q := q.(retreatCost := n);
    } else if key == "PrevEvo" {
      q := q.(prevEvo := if value == "None" then "" else value);
    } else if key == "NextEvo" {
      q := q.(nextEvo := if value == "None" then "" else value);
    } else if key == "Skills" {
      var skills := AppendSkills(q.skills, SplitAndTrim(value, ';'));
      q := q.(skills := skills);
    } else if key == "SkillEffect" {
      if q.skills != [] {
        var n := |q.skills| - 1;
        var effect := ApplySkillEffects(q.skills[n].specialEffect, SplitAndTrim(value, ';'));
        q := q.(skills := q.skills[..n] + [q.skills[n].(specialEffect := effect)]);
      }
    } else if key == "Abilities" {
      var abilities := AppendAbilities(q.abilities, SplitAndTrim(value, ';'));
      q := q.(abilities := abilities);
    }
  }

  /** One trimmed line that is not END_POKEMON: split at the first ':' and applied. */
  method ApplyLine(line: string, p: Pokemon) returns (q: Pokemon)
    ensures q == LineStep(line, p)
  {
    q := p;
    var pos := IndexOf(line, ':');
    if line != [] && pos != |line| {
      var key := Trim(line[..pos]);
      var value := Trim(line[pos + 1..]);
      q := ApplyField(key, value, p);
      LineStepAt(line, pos, p);
    }
  }

  /**
   * A line whose first ':' is at pos applies the trimmed text before it as
   * the key and the trimmed text after it as the value.
   */
  lemma LineStepAt(line: string, pos: nat, p: Pokemon)
    requires pos < |line| && line[pos] == ':' && ':' !in line[..pos]
    ensures LineStep(line, p) == ApplyKeyValue(Trim(line[..pos]), Trim(line[pos + 1..]), p)
  {
    IndexOfFirst(line, ':', pos);
  }

  /**
   * The loop invariant of parsePokemonBlock after i lines: reading the rest
   * from the card built so far ends as reading everything from the start.
   */
  predicate BlockInvariant(lines: seq<string>, p: Pokemon, i: nat, card: Pokemon)
    requires i <= |lines|
  {
    var o := BlockParse(lines[i..], card);
    BlockOutcome(o.card, o.closed, i + o.used) == BlockParse(lines, p)
  }

  /** Line i is END_POKEMON: the block closes with the card built so far, after i + 1 lines. */
  lemma BlockInvariantEnd(lines: seq<string>, p: Pokemon, i: nat, card: Pokemon)
    requires i < |lines| && Trim(lines[i]) == "END_POKEMON"
    requires BlockInvariant(lines, p, i, card)
    ensures BlockOutcome(card, true, i + 1) == BlockParse(lines, p)
  {
  }

  /** Any other line i is applied to the card and the reading goes on. */
  lemma BlockInvariantStep(lines: seq<string>, p: Pokemon, i: nat, card: Pokemon, next: Pokemon)
    requires i < |lines| && Trim(lines[i]) != "END_POKEMON"
    requires BlockInvariant(lines, p, i, card)
    requires next == LineStep(Trim(lines[i]), card)
    ensures BlockInvariant(lines, p, i + 1, next)
  {
    DropDrop(lines, i, 1);
  }

  /** Out of lines: the block is unclosed and every line was read. */
  lemma BlockInvariantExhausted(lines: seq<string>, p: Pokemon, card: Pokemon)
    requires BlockInvariant(lines, p, |lines|, card)
    ensures BlockOutcome(card, false, |lines|) == BlockParse(lines, p)
  {
    assert lines[|lines|..] == [];
  }

  /**
   * FileParser.cpp `parsePokemonBlock`: reads lines until END_POKEMON,
   * returning the card, whether the block was closed, and how many lines
   * it read.
   */
  method ParsePokemonBlock(lines: seq<string>, p: Pokemon)
    returns (card: Pokemon, closed: bool, used: nat)
    ensures BlockOutcome(card, closed, used) == BlockParse(lines, p)
  {
    card := p;
    var i := 0;
    while i < |lines|
      invariant 0 <= i <= |lines|
      invariant BlockInvariant(lines, p, i, card)
    {
      var line := Trim(lines[i]);
      if line == "END_POKEMON" {
        BlockInvariantEnd(lines, p, i, card);
        return card, true, i + 1;
      }
      var next := ApplyLine(line, card);
      BlockInvariantStep(lines, p, i, card, next);
      card := next;
      i := i + 1;
    }
    BlockInvariantExhausted(lines, p, card);
    return card, false, |lines|;
  }

  // ---------------------------------------------------------------------
  // loadCardMapFromFile, loadCardDatabase and loadDeckFromFile
  // ---------------------------------------------------------------------

  /** The key a card is stored under: its name, normalized. */
  function CardKey(p: Pokemon): string {
    Normalize(p.name)
  }

  /**
   * The cards of a card file, in file order: each line that trims to
   * BEGIN_POKEMON starts a block read by parsePokemonBlock from a fresh card;
   * a closed block yields its card, an unclosed one yields nothing, and
   * reading resumes after the block. Every other line is passed over.
   * Each card needs its BEGIN and END lines, hence the bound.
   */
  function ParsedCards(lines: seq<string>): (cards: seq<Pokemon>)
    ensures 2 * |cards| <= |lines|
    decreases |lines|
  {
    if lines == [] then []
    else if Trim(lines[0]) != "BEGIN_POKEMON" then ParsedCards(lines[1..])
    else
      var o := BlockParse(lines[1..], NewPokemon());
      (if o.closed then [o.card] else []) + ParsedCards(lines[1 + o.used..])
  }

  /** `cardMap[normalize(p.name)] = p` for each card in turn. */
  function InsertAll(m: map<string, Pokemon>, cards: seq<Pokemon>): map<string, Pokemon>
    decreases |cards|
  {
    if cards == [] then m else InsertAll(m[CardKey(cards[0]) := cards[0]], cards[1..])
  }

  /** The last card stored under a key wins: a later card replaces an earlier one. */
  lemma {:induction false} InsertAllLastWins(m: map<string, Pokemon>, cards: seq<Pokemon>, c: Pokemon)
    ensures InsertAll(m, cards + [c]) == InsertAll(m, cards)[CardKey(c) := c]
    decreases |cards|
  {
    if cards != [] {
      assert (cards + [c])[1..] == cards[1..] + [c];
      InsertAllLastWins(m[CardKey(cards[0]) := cards[0]], cards[1..], c);
    }
  }

  /** A key no loaded card has keeps its entry, or its absence. */
  lemma {:induction false} InsertAllUntouched(m: map<string, Pokemon>, cards: seq<Pokemon>, k: string)
    requires forall j :: 0 <= j < |cards| ==> CardKey(cards[j]) != k
    ensures k in InsertAll(m, cards) <==> k in m
    ensures k in m ==> InsertAll(m, cards)[k] == m[k]
    decreases |cards|
  {
    if cards != [] {
      InsertAllUntouched(m[CardKey(cards[0]) := cards[0]], cards[1..], k);
    }
  }

  /** The keys afterwards: the old keys and the key of every loaded card, nothing else. */
  lemma {:induction false} InsertAllKeys(m: map<string, Pokemon>, cards: seq<Pokemon>)
    ensures InsertAll(m, cards).Keys == m.Keys + set j | 0 <= j < |cards| :: CardKey(cards[j])
    decreases |cards|
  {
    if cards != [] {
      var m' := m[CardKey(cards[0]) := cards[0]];
      InsertAllKeys(m', cards[1..]);
      var tail := set j | 0 <= j < |cards| - 1 :: CardKey(cards[1..][j]);
      var all := set j | 0 <= j < |cards| :: CardKey(cards[j]);
      assert all == {CardKey(cards[0])} + tail by {
        forall x | x in all ensures x in {CardKey(cards[0])} + tail {
          var j :| 0 <= j < |cards| && x == CardKey(cards[j]);
          if j > 0 { assert x == CardKey(cards[1..][j - 1]); }
        }
        forall x | x in tail ensures x in all {
          var j :| 0 <= j < |cards| - 1 && x == CardKey(cards[1..][j]);
          assert x == CardKey(cards[j + 1]);
        }
      }
    }
  }

  /** Lines outside any BEGIN_POKEMON block give no card. */
  lemma {:induction false} NoBeginNoCards(lines: seq<string>)
    requires forall j :: 0 <= j < |lines| ==> Trim(lines[j]) != "BEGIN_POKEMON"
    ensures ParsedCards(lines) == []
    decreases |lines|
  {
    if lines != [] {
      assert forall j :: 0 <= j < |lines| - 1 ==> lines[1..][j] == lines[j + 1];
      NoBeginNoCards(lines[1..]);
    }
  }

  /**
   * A closed block yields the card its lines build, and reading goes on
   * right after its END_POKEMON line.
   */
  lemma ClosedBlockLoaded(lines: seq<string>, card: Pokemon, closed: bool, used: nat)
    requires lines != [] && Trim(lines[0]) == "BEGIN_POKEMON"
    requires BlockOutcome(card, closed, used) == BlockParse(lines[1..], NewPokemon())
    requires EndIndex(lines[1..]) < |lines| - 1
    ensures ParsedCards(lines) == [card] + ParsedCards(lines[EndIndex(lines[1..]) + 2..])
  {
    ClosedOutcome(lines, card, closed, used);
    ParsedCardsBegin(lines, card, closed, used);
  }

  /** A block that is never closed (the file ends first) is dropped, with everything after it. */
  lemma UnclosedBlockDropped(lines: seq<string>, card: Pokemon, closed: bool, used: nat)
    requires lines != [] && Trim(lines[0]) == "BEGIN_POKEMON"
    requires BlockOutcome(card, closed, used) == BlockParse(lines[1..], NewPokemon())
    requires EndIndex(lines[1..]) == |lines| - 1
    ensures ParsedCards(lines) == []
  {
    UnclosedOutcome(lines, card, closed, used);
    ParsedCardsBegin(lines, card, closed, used);
    assert lines[1 + used..] == [];
  }

  /** BlockClosedIff for the block after the first line, when an END_POKEMON line follows. */
  lemma ClosedOutcome(lines: seq<string>, card: Pokemon, closed: bool, used: nat)
    requires lines != []
    requires BlockOutcome(card, closed, used) == BlockParse(lines[1..], NewPokemon())
    requires EndIndex(lines[1..]) < |lines| - 1
    ensures closed && used == EndIndex(lines[1..]) + 1
  {
    BlockClosedIff(lines[1..], NewPokemon());
  }

  /** BlockClosedIff for the block after the first line, when no END_POKEMON line follows. */
  lemma UnclosedOutcome(lines: seq<string>, card: Pokemon, closed: bool, used: nat)
    requires lines != []
    requires BlockOutcome(card, closed, used) == BlockParse(lines[1..], NewPokemon())
    requires EndIndex(lines[1..]) == |lines| - 1
    ensures !closed && used == |lines| - 1
  {
    BlockClosedIff(lines[1..], NewPokemon());
  }

  /** A BEGIN_POKEMON line: the block after it is read from a fresh card. */
  lemma ParsedCardsBegin(lines: seq<string>, card: Pokemon, closed: bool, used: nat)
    requires lines != [] && Trim(lines[0]) == "BEGIN_POKEMON"
    requires BlockOutcome(card, closed, used) == BlockParse(lines[1..], NewPokemon())
    ensures ParsedCards(lines) == (if closed then [card] else []) + ParsedCards(lines[1 + used..])
  {
    var o := BlockParse(lines[1..], NewPokemon());
    assert ParsedCards(lines) == (if o.closed then [o.card] else []) + ParsedCards(lines[1 + o.used..]);
  }

  /** A line other than BEGIN_POKEMON is passed over. */
  lemma ParsedCardsSkip(lines: seq<string>, i: nat)
    requires i < |lines| && Trim(lines[i]) != "BEGIN_POKEMON"
    ensures ParsedCards(lines[i..]) == ParsedCards(lines[i + 1..])
  {
    DropDrop(lines, i, 1);
  }

  /** A BEGIN_POKEMON line at i: the block after it gives its card if closed. */
  lemma ParsedCardsBlock(lines: seq<string>, i: nat, card: Pokemon, closed: bool, used: nat)
    requires i < |lines| && Trim(lines[i]) == "BEGIN_POKEMON"
    requires BlockOutcome(card, closed, used) == BlockParse(lines[i + 1..], NewPokemon())
    ensures i + 1 + used <= |lines|
    ensures closed ==> ParsedCards(lines[i..]) == [card] + ParsedCards(lines[i + 1 + used..])
    ensures !closed ==> ParsedCards(lines[i..]) == ParsedCards(lines[i + 1 + used..])
  {
    DropDrop(lines, i, 1);
    ParsedCardsBegin(lines[i..], card, closed, used);
    DropDrop(lines, i, 1 + used);
    if !closed {
      var after := ParsedCards(lines[i + 1 + used..]);
      assert [] + after == after;
    }
  }

  /** Storing the first card, then the others. */
  lemma InsertAllCons(m: map<string, Pokemon>, c: Pokemon, cards: seq<Pokemon>)
    ensures InsertAll(m, [c] + cards) == InsertAll(m[CardKey(c) := c], cards)
  {
    assert ([c] + cards)[1..] == cards;
  }

  /** The loaders' invariant carried over a BEGIN_POKEMON line and its block. */
  lemma ReadCardBlockStep(lines: seq<string>, i: nat, m: map<string, Pokemon>,
                          card: Pokemon, closed: bool, used: nat, m': map<string, Pokemon>, next: nat)
    requires i < |lines| && Trim(lines[i]) == "BEGIN_POKEMON"
    requires BlockOutcome(card, closed, used) == BlockParse(lines[i + 1..], NewPokemon())
    requires m' == (if closed then m[CardKey(card) := card] else m)
    requires next == i + 1 + used
    ensures next <= |lines| && InsertAll(m', ParsedCards(lines[next..])) == InsertAll(m, ParsedCards(lines[i..]))
  {
    ParsedCardsBlock(lines, i, card, closed, used);
    if closed {
      InsertAllCons(m, card, ParsedCards(lines[next..]));
    }
  }

  /**
   * The body of both loaders' `BEGIN_POKEMON` branch: parse the block from
   * a fresh card and store the card when the block was closed. `next` is
   * the first line after the block.
   */
  method ReadCardBlock(lines: seq<string>, i: nat, m: map<string, Pokemon>)
    returns (m': map<string, Pokemon>, next: nat)
    requires i < |lines| && Trim(lines[i]) == "BEGIN_POKEMON"
    ensures i < next <= |lines|
    ensures InsertAll(m', ParsedCards(lines[next..])) == InsertAll(m, ParsedCards(lines[i..]))
  {
    var card, closed, used := ParsePokemonBlock(lines[i + 1..], NewPokemon());
    if closed {
      m' := m[CardKey(card) := card];
    } else {
      m' := m;
    }
    next := i + 1 + used;
    ReadCardBlockStep(lines, i, m, card, closed, used, m', next);
  }

  /**
   * FileParser.cpp `loadCardMapFromFile`. `file` is the file's text, None
   * when it cannot be opened (the map is then left as it was).
   */
  method LoadCardMapFromFile(file: Option<string>, cardMap: map<string, Pokemon>)
    returns (m: map<string, Pokemon>)
    ensures file.None? ==> m == cardMap
    ensures file.Some? ==> m == InsertAll(cardMap, ParsedCards(Fields(file.value, '\n')))
  {
    m := cardMap;
    if file.None? {
      return;
    }
    var lines := Fields(file.value, '\n');
    var i := 0;
    while i < |lines|
      invariant 0 <= i <= |lines|
      invariant InsertAll(m, ParsedCards(lines[i..])) == InsertAll(cardMap, ParsedCards(lines))
      decreases |lines| - i
    {
      if Trim(lines[i]) == "BEGIN_POKEMON" {
        m, i := ReadCardBlock(lines, i, m);
      } else {
        ParsedCardsSkip(lines, i);
        i := i + 1;
      }
    }
  }

  /**
   * FileParser.cpp `loadCardDatabase`: the same reading, with each line
   * trimmed first and empty lines skipped; it stores the same cards as
   * LoadCardMapFromFile.
   */
  method LoadCardDatabase(file: Option<string>, cardMap: map<string, Pokemon>)
    returns (m: map<string, Pokemon>)
    ensures file.None? ==> m == cardMap
    ensures file.Some? ==> m == InsertAll(cardMap, ParsedCards(Fields(file.value, '\n')))
  {
    m := cardMap;
    if file.None? {
      return;
    }
    var lines := Fields(file.value, '\n');
    var i := 0;
    while i < |lines|
      invariant 0 <= i <= |lines|
      invariant InsertAll(m, ParsedCards(lines[i..])) == InsertAll(cardMap, ParsedCards(lines))
      decreases |lines| - i
    {
      var line := Trim(lines[i]);
      if line == [] {
        ParsedCardsSkip(lines, i);
        i := i + 1;
        continue;
      }
      if line == "BEGIN_POKEMON" {
        m, i := ReadCardBlock(lines, i, m);
      } else {
        ParsedCardsSkip(lines, i);
        i := i + 1;
      }
    }
  }

  /** The card a deck line names, looked up by its trimmed, normalized text. */
  function DeckEntry(name: string, cardMap: map<string, Pokemon>): (r: Option<Pokemon>)
    ensures r.Some? <==> Normalize(Trim(name)) in cardMap
    ensures r.Some? ==> r.value == cardMap[Normalize(Trim(name))]
  {
    var key := Normalize(Trim(name));
    if key in cardMap then Some(cardMap[key]) else None
  }

  /** The cards a deck file lists, in order; names missing from the map are skipped. */
  function DeckFromNames(names: seq<string>, cardMap: map<string, Pokemon>): (deck: seq<Pokemon>)
    ensures |deck| <= |names|
  {
    if names == [] then []
    else DeckFromNames(names[..|names| - 1], cardMap) + ToSeq(DeckEntry(names[|names| - 1], cardMap))
  }

  /** Reading a deck file in two parts reads it whole. */
  lemma {:induction false} DeckFromNamesAppend(a: seq<string>, b: seq<string>, cardMap: map<string, Pokemon>)
    ensures DeckFromNames(a + b, cardMap) == DeckFromNames(a, cardMap) + DeckFromNames(b, cardMap)
    decreases |b|
  {
    if b == [] {
      assert a + b == a;
    } else {
      var b', last := b[..|b| - 1], b[|b| - 1];
      DropLastOfAppend(a, b);
      DeckFromNamesAppend(a, b', cardMap);
      var e := ToSeq(DeckEntry(last, cardMap));
      assert DeckFromNames(a + b, cardMap) == DeckFromNames(a + b', cardMap) + e;
      assert DeckFromNames(b, cardMap) == DeckFromNames(b', cardMap) + e;
      AppendAssoc(DeckFromNames(a, cardMap), DeckFromNames(b', cardMap), e);
    }
  }

  /** Every card of a deck is a card of the map. */
  lemma {:induction false} DeckCardsFromMap(names: seq<string>, cardMap: map<string, Pokemon>)
    ensures forall j :: 0 <= j < |DeckFromNames(names, cardMap)| ==>
              DeckFromNames(names, cardMap)[j] in cardMap.Values
    decreases |names|
  {
    if names != [] {
      DeckCardsFromMap(names[..|names| - 1], cardMap);
    }
  }

  /** Every name of the list is found in the map. */
  predicate AllFound(names: seq<string>, cardMap: map<string, Pokemon>)
  {
    names == [] || (AllFound(names[..|names| - 1], cardMap) && DeckEntry(names[|names| - 1], cardMap).Some?)
  }

  /** When every name is found, the deck has one card per line. */
  lemma {:induction false} DeckAllFound(names: seq<string>, cardMap: map<string, Pokemon>)
    requires AllFound(names, cardMap)
    ensures |DeckFromNames(names, cardMap)| == |names|
    decreases |names|
  {
    if names != [] {
      DeckAllFound(names[..|names| - 1], cardMap);
    }
  }

  /** Each line contributes its own card, or nothing, at its place in the deck. */
  lemma DeckLineInPlace(before: seq<string>, name: string, after: seq<string>, cardMap: map<string, Pokemon>)
    ensures DeckFromNames(before + [name] + after, cardMap)
              == DeckFromNames(before, cardMap) + ToSeq(DeckEntry(name, cardMap)) + DeckFromNames(after, cardMap)
  {
    DeckFromNamesAppend(before + [name], after, cardMap);
    TakeFront(before, name);
  }

  /** The invariant of the deck loop, carried over one name. */
  lemma DeckStep(deck: seq<Pokemon>, names: seq<string>, i: nat, cardMap: map<string, Pokemon>, r: seq<Pokemon>)
    requires i < |names| && r == deck + DeckFromNames(names[..i], cardMap)
    ensures r + ToSeq(DeckEntry(names[i], cardMap)) == deck + DeckFromNames(names[..i + 1], cardMap)
  {
    TakeOneMore(names, i);
    DeckSnoc(names[..i], names[i], cardMap);
    AppendAssoc(deck, DeckFromNames(names[..i], cardMap), ToSeq(DeckEntry(names[i], cardMap)));
  }

  /** One more line adds its own card, if found, at the end. */
  lemma DeckSnoc(front: seq<string>, name: string, cardMap: map<string, Pokemon>)
    ensures DeckFromNames(front + [name], cardMap) == DeckFromNames(front, cardMap) + ToSeq(DeckEntry(name, cardMap))
  {
    TakeFront(front, name);
  }

  /**
   * FileParser.cpp `loadDeckFromFile`: each line names a card, appended to
   * the deck when the map has it. None stands for the runtime_error thrown
   * when the file cannot be opened.
   */
  method LoadDeckFromFile(file: Option<string>, deck: seq<Pokemon>, cardMap: map<string, Pokemon>)
    returns (r: Option<seq<Pokemon>>)
    ensures r.None? <==> file.None?
    ensures file.Some? ==> r == Some(deck + DeckFromNames(Fields(file.value, '\n'), cardMap))
  {
    if file.None? {
      return None;
    }
    var names := Fields(file.value, '\n');
    var cards := deck;
    var i := 0;
    while i < |names|
      invariant 0 <= i <= |names|
      invariant cards == deck + DeckFromNames(names[..i], cardMap)
    {
      DeckStep(deck, names, i, cardMap, cards);
      cards := cards + ToSeq(DeckEntry(names[i], cardMap));
      i := i + 1;
    }
    assert names[..i] == names;
    return Some(cards);
  }
}
