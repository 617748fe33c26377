# A verified model of the TCGP_plus card parser and simulator core

TCGP_plus is a command-line helper for the Pokémon Trading Card Game Pocket. It reads
a card database and a deck from text files and guesses the opponent's deck from a
catalog of meta decks. It then scores the moves of the active Pokémon with a shallow
decision-tree search. This project models the deterministic core of that program in
Dafny and proves what it does:

- `pokemon_card.dfy` (module `Cards`): the card records of `PokemonCard.h` as datatypes.
  It includes their constructors with every default value, among them the argument
  order of the 19-argument `SpecialSkill` constructor.
- `token_utils.dfy` (module `TokenUtils`): `trim`, `splitAndTrim`, `toLower` and
  `normalize` from `Utils.h`.
  - `splitAndTrim` follows `std::getline`: a trailing delimiter yields no last field,
    and an interior empty field yields `""`.
  - Characters stand for bytes. `isspace`, `isdigit` and `tolower` follow the C locale.
- `file_parser.dfy` (module `FileParser`): `parseIntOrZero`, the first-match-wins
  grammar of `applySkillEffectToken`, the `Key: Value` block parser
  `parsePokemonBlock`, and the three loaders.
  - The parser works on a `SpecialSkill` and a `Pokemon`. They are passed in and the
    updated record is returned.
  - A file is an `Option<string>`: `None` when it cannot be opened, and otherwise its
    text, which is read line by line.
  - The block parser and its loader share a stream. The model passes the index of the
    next line, and the block parser reports how many lines it consumed.
- `game_simulation.dfy` (module `GameSimulation`):
  - the meta-deck catalog reader;
  - the visible-board filter with its whole-catalog fallback, and the guess update;
  - preset deck assembly and the opening-hand draw;
  - the decision-tree search, with the leaf evaluator a parameter.

  The global catalog `allMetaDecks` is passed in and returned.
- `seq_facts.dfy` and `wrappers.dfy`: sequence lemmas, an order-preserving `Filter`,
  and `Option`.

Each loop of the source is a method with loop invariants. The method is proved equal
to a specification function, and the lemmas state what the source promises about that
function.

## Model

| member | source | states |
|---|---|---|
| Cards.NewEnergyRequirement | PokemonCard.h:19-20 | stores the energy type and amount given, defaulting to "" and 0 |
| Cards.NewSpecialSkill | PokemonCard.h:54-94 | each of the nineteen arguments lands in its own field; the 5th argument becomes `randomHitCount` and the 6th `randomHitDamage`, the reverse of the field order |
| Cards.DefaultSpecialSkill | PokemonCard.h:24-51 | a default effect has every number 0 and every flag false |
| Cards.NoEffectIsDefault | PokemonCard.h:24-94 | an effect means "no effect" exactly when it equals the default-constructed one |
| Cards.NewAbility | PokemonCard.h:113-131 | the flag constructor stores each of its six flags, the attach count and the attach type as given, and leaves name and description empty |
| Cards.NamedAbility | PokemonCard.h:98-135 | the (name, description) constructor sets only those two; every flag stays false, the attach count 0 and the attach type "" |
| Cards.NewSkill | PokemonCard.h:148-155 | stores name, damage, energy drop, coin flag and maximum flips, with no energy requirements and a no-effect SpecialSkill |
| Cards.NewPokemon | PokemonCard.h:185-195 | stores the nine arguments; retreat cost 0, no evolutions, not poisoned or paralyzed, no skills, abilities or attached energy |
| Cards.NewGameState | PokemonCard.h:214-230 | turn 0, first turn, every list empty, both active cards default-constructed |
| TokenUtils.LowerChar | Utils.h:30-34 | `tolower` maps 'A'..'Z' to the letter 32 code points higher, in 'a'..'z', and leaves every other character unchanged |
| TokenUtils.FirstNotBlank | Utils.h:13 | the first index that is not ' ' or '\t' (length for npos); everything before it is blank |
| TokenUtils.EndNotBlank | Utils.h:14 | one past the last non-blank index; everything after it is blank |
| TokenUtils.NotBlankBounds | Utils.h:13-15 | when a non-blank character exists, the first one comes before the end of the last one |
| TokenUtils.Trim | Utils.h:12-16 | the result is empty exactly when the input is all ' '/'\t'; otherwise it starts and ends with a non-blank character |
| TokenUtils.TrimIsInfix | Utils.h:12-16 | trim returns a contiguous substring of its input, with only blanks cut off on either side |
| TokenUtils.TrimPadded | Utils.h:12-16 | trimming blanks + r + blanks gives r back when r has no blank at either end |
| TokenUtils.TrimAppend | Utils.h:12-16 | trimming s + t extends trim(s) by the part of t up to its last non-blank character |
| TokenUtils.TrimUnpadded | Utils.h:12-16 | a string without blanks at its ends is left unchanged |
| TokenUtils.TrimKeepsAbsent | Utils.h:12-16 | trim introduces no character that was not in its input |
| TokenUtils.TrimIdempotent | Utils.h:12-16 | trim(trim(s)) == trim(s) |
| TokenUtils.IndexOf | Utils.h:23 | the first position of the delimiter (length when absent), as `find` and `getline` use it |
| TokenUtils.IndexOfFirst | Utils.h:23 | `find` stops at the first occurrence of the character |
| TokenUtils.PiecesJoin | Utils.h:21-26 | the delimiter-free pieces of a string joined with the delimiter give the string back |
| TokenUtils.FieldsArePieces | Utils.h:21-26 | `Fields`: the `getline` fields are the pieces of the string without a trailing empty piece |
| TokenUtils.FieldsCut | Utils.h:21-26 | `Fields`: `getline` yields the text up to the first delimiter and continues after it |
| TokenUtils.FieldsWhole | Utils.h:21-26 | `Fields`: a non-empty string without the delimiter is one field |
| TokenUtils.EmptyInteriorField | Utils.h:21-26 | `Fields`: two adjacent delimiters between fields yield an empty field between them |
| TokenUtils.TrailingDelimiter | Utils.h:21-26 | `Fields`: a trailing delimiter adds no trailing empty field |
| TokenUtils.FieldsHaveNoDelimiter | Utils.h:21-26 | `Fields`: no field contains the delimiter |
| TokenUtils.SplitAndTrim | Utils.h:19-27 | one token per `getline` field |
| TokenUtils.TrimEachElements | Utils.h:24 | each token is the trimmed field at the same position |
| TokenUtils.SplitAndTrimTokens | Utils.h:19-27 | every token is already trimmed and contains no delimiter |
| TokenUtils.SplitAndTrimEmpty | Utils.h:19-27 | splitting the empty string yields no token |
| TokenUtils.ToLower | Utils.h:30-34 | same length; the character at each position is `tolower` of the input character at that position |
| TokenUtils.ToLowerIdempotent | Utils.h:30-34 | lower-casing twice equals lower-casing once |
| TokenUtils.ToLowerAppend | Utils.h:30-34 | lower-casing a concatenation lower-cases each part |
| TokenUtils.ToLowerTrue | Utils.h:30-34 | "TRUE" lower-cases to "true" |
| TokenUtils.RemoveSpaces | Utils.h:39 | the erase-remove keeps no `isspace` character and adds none |
| TokenUtils.RemoveSpacesNoop | Utils.h:39 | a string without whitespace is left unchanged |
| TokenUtils.RemoveSpacesAppend | Utils.h:39 | removing whitespace from a concatenation removes it from each part |
| TokenUtils.RemoveSpacesIsFilter | Utils.h:39 | the erase-remove keeps exactly the non-whitespace characters, in their original order |
| TokenUtils.Normalize | Utils.h:37-41 | the key has no whitespace and no upper-case letter |
| TokenUtils.NormalizeIdempotent | Utils.h:37-41 | normalizing a key again changes nothing |
| TokenUtils.NormalizeIgnoresCase | Utils.h:37-41 | normalize(toLower(s)) == normalize(s) |
| TokenUtils.NormalizeAppend | Utils.h:37-41 | normalize(a + b) == normalize(a) + normalize(b) |
| TokenUtils.NormalizeChar | Utils.h:37-41 | one character normalizes to nothing when it is whitespace and to its `tolower` otherwise |
| TokenUtils.NormalizeIsFilter | Utils.h:37-41 | the key is the lower-cased input with its whitespace removed, the remaining characters in order |
| FileParser.StripTrailingNonDigits | FileParser.cpp:18-20 | the loop leaves a prefix that is empty or ends in a digit, and only non-digits were removed |
| FileParser.DropLeadingSpaces | FileParser.cpp:23 | `stoi` skips exactly the leading whitespace: everything cut off is whitespace, and what is left is a suffix that is empty or starts with a non-space |
| FileParser.DigitPrefix | FileParser.cpp:23 | `stoi` reads the longest run of digits at the start |
| FileParser.StoiOrZero | FileParser.cpp:22-26 | the result always fits a 32-bit int; a failed or out-of-range `stoi` gives 0 |
| FileParser.IntOrZero | FileParser.cpp:15-27 | parseIntOrZero never fails and always returns a 32-bit int |
| FileParser.ParseIntOrZero | FileParser.cpp:15-27 | the pop-back loop computes the tolerant integer of the field |
| FileParser.DigitsReadPlainly | FileParser.cpp:15-27 | a digit string reads as its decimal value, or 0 when that exceeds INT_MAX |
| FileParser.DigitsSurviveStrip | FileParser.cpp:16-20 | trimming and stripping leave a digit string unchanged |
| FileParser.StoiOfDigits | FileParser.cpp:22-26 | `stoi` of a digit string is its decimal value when it fits, else 0 |
| FileParser.IntOrZeroOfDigits | FileParser.cpp:15-23 | a digit string whose value fits reads as that value |
| FileParser.IntOrZeroOutOfRange | FileParser.cpp:22-26 | a digit string above INT_MAX reads as 0 |
| FileParser.IntOrZeroSigned | FileParser.cpp:15-27 | a sign followed by digits reads as the signed decimal value when that fits a 32-bit int, and as 0 otherwise |
| FileParser.IntOrZeroMinusTwenty | FileParser.cpp:15-27 | "-20" reads as -20 |
| FileParser.IntOrZeroBelowIntMin | FileParser.cpp:22-26 | "-2147483649", one below INT_MIN, reads as 0 |
| FileParser.DecimalSnoc | FileParser.cpp:23 | appending a digit multiplies the value by ten and adds the digit |
| FileParser.DecimalBelowIntMin | FileParser.cpp:23 | the digits "2147483649" have the value 2147483649 |
| FileParser.StripNoDigits | FileParser.cpp:18-20 | a string with no digit is stripped to nothing |
| FileParser.IntOrZeroNoDigits | FileParser.cpp:21 | a field without any digit reads as 0 |
| FileParser.IntOrZeroLeadingJunk | FileParser.cpp:22-26 | a field whose first non-blank character is not a digit, sign or space reads as 0 |
| FileParser.StripIgnoresNonDigitSuffix | FileParser.cpp:18-20 | appending non-digits does not change what the loop leaves |
| FileParser.StripTrimIgnoresSuffix | FileParser.cpp:16-20 | the same holds after trimming |
| FileParser.IntOrZeroIgnoresSuffix | FileParser.cpp:15-23 | appending a digit-free suffix does not change the value |
| FileParser.ThirtyHp | FileParser.cpp:15-23 | "30hp" and "30" both read as 30 |
| FileParser.FirstMatch | FileParser.cpp:36-72 | the branch taken is the first whose pattern matches, and none before it matches |
| FileParser.Rest | FileParser.cpp:37 | `substr(n)`: the token after its first n characters |
| FileParser.ApplyRandomDmg | FileParser.cpp:52-57 | the `randomDmg:` branch changes no field but the random hit damage and count |
| FileParser.RuleFrame | FileParser.cpp:36-69 | `ApplyRule`: every branch writes only the fields it names and never clears a flag |
| FileParser.FrameHeal | FileParser.cpp:36-37 | `Heal:` writes only `heal` |
| FileParser.FrameCoinFlip | FileParser.cpp:38-40 | `CoinFlip:` writes only `doCoinFlips` and `damagePerFlip` |
| FileParser.FrameParalyze | FileParser.cpp:41-44 | the `CoinFlip:ParalyzeOpp` branch writes only its three fields |
| FileParser.FrameShuffleBack | FileParser.cpp:45-48 | `ShuffleBackIfHeads` writes only its three fields |
| FileParser.FrameDamagePerEnergy | FileParser.cpp:49-51 | `DamagePerEnergy:` and `energyAttached:` write only `damagePerEnergyAttached` |
| FileParser.FrameRandomDmg | FileParser.cpp:52-57 | `randomDmg:` writes only the random hit damage and count |
| FileParser.RandomDmgKeepsFrame | FileParser.cpp:52-57 | an update of those two fields keeps every other field and flag |
| FileParser.FramePoison | FileParser.cpp:58-59 | `PoisonOpp` writes only `poisonOpp` |
| FileParser.FrameSwitchOut | FileParser.cpp:60-61 | `switchOut` writes only `switchOutOpp` |
| FileParser.FrameBanSupporter | FileParser.cpp:62-63 | `banSupporter` and `BanSupporter:nextTurn` write only `banSupporter` |
| FileParser.FrameDmgIfPoisoned | FileParser.cpp:64-65 | `dmgIfPoisoned:` writes only `extraDmgIfPoisoned` |
| FileParser.FrameReduceDmg | FileParser.cpp:66-67 | `reduceDmg:` writes only `damageReduction` |
| FileParser.FrameBenchedDmg | FileParser.cpp:68-69 | `benchedDmg:` writes only `benchedDamage` |
| FileParser.EffectTokenFrame | FileParser.cpp:33-73 | `ApplySkillEffectToken`: a token changes only the fields of the branch it selects and clears no flag; "None" and unrecognised tokens change nothing |
| FileParser.ParalyzeBranchUnreachable | FileParser.cpp:38-44 | no token ever reaches the `CoinFlip:ParalyzeOpp` branch |
| FileParser.CoinFlipParalyzeOpp | FileParser.cpp:38-44 | "CoinFlip:ParalyzeOpp" sets `doCoinFlips` and `damagePerFlip = 0`, and leaves `paralyzeOpp` as it was |
| FileParser.ParalyzeTokenBranch | FileParser.cpp:36-41 | that token is taken by the `CoinFlip:` prefix branch |
| FileParser.ParalyzeTokenReadsZero | FileParser.cpp:40 | its text after the prefix reads as 0 |
| FileParser.RandomDmgBranch | FileParser.cpp:36-52 | every `randomDmg:` token is taken by that branch |
| FileParser.RandomDmgNeedsTwoValues | FileParser.cpp:52-57 | without exactly two comma fields the effect is unchanged |
| FileParser.RandomDmgReadsBoth | FileParser.cpp:52-57 | with two fields the first sets the hit damage and the second the hit count, and nothing else changes |
| FileParser.HealReads | FileParser.cpp:36-37 | `ApplySkillEffectToken`: a `Heal:` token sets `heal` to the integer read after the prefix and changes nothing else |
| FileParser.HealThirty | FileParser.cpp:36-37 | "Heal:30" sets `heal` to 30 |
| FileParser.CoinFlipBranch | FileParser.cpp:36-38 | every `CoinFlip:` token is taken by that branch |
| FileParser.CoinFlipReads | FileParser.cpp:38-40 | a `CoinFlip:` token turns coin flips on and sets the damage per flip to the integer after the prefix |
| FileParser.ShuffleBackBranch | FileParser.cpp:36-45 | "ShuffleBackIfHeads" is taken by its own branch |
| FileParser.ShuffleBackToken | FileParser.cpp:45-48 | it turns coin flips on with one flip and sets the shuffle-back flag |
| FileParser.DamagePerEnergyBranch | FileParser.cpp:36-49 | every `DamagePerEnergy:` or `energyAttached:` token is taken by that branch |
| FileParser.DamagePerEnergyColon | FileParser.cpp:50 | the first ':' of such a token is the one ending its key |
| FileParser.DamagePerEnergyReads | FileParser.cpp:49-51 | such a token sets the damage per attached energy to the integer after its key |
| FileParser.PoisonOppBranch | FileParser.cpp:36-58 | "PoisonOpp" is taken by its own branch |
| FileParser.PoisonOppToken | FileParser.cpp:58-59 | it sets `poisonOpp` and nothing else |
| FileParser.SwitchOutBranch | FileParser.cpp:36-60 | "switchOut" is taken by its own branch |
| FileParser.SwitchOutToken | FileParser.cpp:60-61 | it sets `switchOutOpp` and nothing else |
| FileParser.BanSupporterBranch | FileParser.cpp:36-62 | both ban spellings are taken by the ban branch |
| FileParser.BanSupporterToken | FileParser.cpp:62-63 | "banSupporter" sets `banSupporter` and nothing else |
| FileParser.BanSupporterNextTurnToken | FileParser.cpp:62-63 | "BanSupporter:nextTurn" does the same |
| FileParser.DmgIfPoisonedBranch | FileParser.cpp:36-64 | every `dmgIfPoisoned:` token is taken by that branch |
| FileParser.DmgIfPoisonedReads | FileParser.cpp:64-65 | it sets the extra damage against a poisoned defender to the integer after the prefix |
| FileParser.ReduceDmgBranch | FileParser.cpp:36-66 | every `reduceDmg:` token is taken by that branch |
| FileParser.ReduceDmgReads | FileParser.cpp:66-67 | it sets the damage reduction to the integer after the prefix |
| FileParser.BenchedDmgBranch | FileParser.cpp:36-68 | every `benchedDmg:` token is taken by that branch |
| FileParser.BenchedDmgReads | FileParser.cpp:68-69 | it sets the bench damage to the integer after the prefix |
| FileParser.EnergyRequirementOf | FileParser.cpp:135-141 | a pair gives a requirement exactly when it contains ':'; the type then has no ':' |
| FileParser.EnergyRequirementAt | FileParser.cpp:135-141 | a pair whose first ':' is at pos gives the trimmed text before it as the type and the integer read from the trimmed text after it as the amount |
| FileParser.EnergyRequirementsFrom | FileParser.cpp:134-142 | at most one requirement per pair; `EnergyPairsInPlace` states which |
| FileParser.EnergyPairsAllKept | FileParser.cpp:134-142 | when every pair has a ':', every pair gives a requirement |
| FileParser.EnergyPairsInPlace | FileParser.cpp:134-142 | when every pair has a ':', the requirements are those of the pairs, one each, in order |
| FileParser.EnergyPairsMalformed | FileParser.cpp:134-142 | pairs without ':' are all dropped |
| FileParser.EnergyTypesHaveNoColon | FileParser.cpp:135-138 | no stored energy type contains ':' |
| FileParser.SkillsFrom | FileParser.cpp:123-144 | at most one skill per skill token; `SkillsAllKept` and `ShortSkillTokensDropped` state which |
| FileParser.ShortSkillTokensDropped | FileParser.cpp:124-125 | tokens with fewer than six fields add no skill |
| FileParser.SkillsAllKept | FileParser.cpp:123-144 | when every token has six or more comma fields, the skills are those of the tokens, one each, in order |
| FileParser.SkillOfFields | FileParser.cpp:124-143 | `SkillOfToken`: a token gives a skill exactly when it has six or more comma fields, and then the skill those fields describe |
| FileParser.SkillNamesTrimmed | FileParser.cpp:124-127 | every skill name is trimmed and has no ',' |
| FileParser.AbilitiesFrom | FileParser.cpp:153-164 | at most one ability per ';' token; `AbilitiesAllKept` and `UnlistedAbilitiesDropped` state which |
| FileParser.AbilityOfListed | FileParser.cpp:154-163 | a token's ability is never named "none" in any case and carries only name and description |
| FileParser.ListedTokenAbility | FileParser.cpp:154-163 | `AbilityOf`: a token gives an ability exactly when its first '|' field exists and is not "none" in any case; the ability is named by that field and described by the second, or by nothing |
| FileParser.AbilitiesAllKept | FileParser.cpp:153-164 | when every token is listed, the abilities are those of the tokens, one each, in order |
| FileParser.UnlistedAbilitiesDropped | FileParser.cpp:153-164 | tokens that are empty or named "none" give no ability |
| FileParser.NoAbilityNamedNone | FileParser.cpp:153-164 | no parsed ability is named "none" in any case |
| FileParser.EffectTokensKeepFlags | FileParser.cpp:148-150 | a SkillEffect line never clears a flag of the effect |
| FileParser.NoneTokensChangeNothing | FileParser.cpp:148-150 | a SkillEffect list of "None" tokens changes nothing |
| FileParser.EffectTokensAppend | FileParser.cpp:146-150 | `ApplyEffectTokens`: two runs of tokens act as the first run followed by the second |
| FileParser.NoneAsEmpty | FileParser.cpp:94 | "None" and the empty value both store "" |
| FileParser.CardTypeOf | FileParser.cpp:99-101 | Supporter gives 1, Item 2, any other type 0 |
| FileParser.ApplyKeyValue | FileParser.cpp:93-165 | only `Stage` changes the stage, and only `Stage` and `CanEvolve` change `canEvolve` |
| FileParser.UnknownKeyIgnored | FileParser.cpp:93-165 | a key outside the fifteen known keys changes nothing |
| FileParser.StageEstablishesConsistency | FileParser.cpp:110-112 | after a Stage line, a nonzero stage means the card cannot evolve |
| FileParser.KeysKeepStageConsistency | FileParser.cpp:93-165 | every key except CanEvolve keeps that consistency |
| FileParser.CanEvolveAfterStage | FileParser.cpp:104-112 | a CanEvolve line after Stage sets the flag again, whatever the stage |
| FileParser.StageAfterCanEvolve | FileParser.cpp:104-112 | a Stage line after CanEvolve keeps the flag only for stage 0 |
| FileParser.CardTypeAfterType | FileParser.cpp:97-107 | a later CardType line overrides the card type set by Type |
| FileParser.TypeAfterCardType | FileParser.cpp:97-107 | a later Type line overrides the card type set by CardType |
| FileParser.SkillEffectWithoutSkills | FileParser.cpp:145-146 | a SkillEffect line before any skill changes nothing |
| FileParser.SkillEffectTouchesLastSkill | FileParser.cpp:145-150 | otherwise only the last skill's effect changes, and no flag of it is cleared |
| FileParser.ListsOnlyGrow | FileParser.cpp:121-164 | Skills and Abilities lines only append to their lists and change no other field |
| FileParser.ParseEnergyRequirements | FileParser.cpp:134-142 | the loop builds the requirements of the pairs in order |
| FileParser.ParseSkill | FileParser.cpp:126-142 | `SkillOf`: builds the skill of six fields, energy requirements included |
| FileParser.ParseSkillToken | FileParser.cpp:124-143 | `SkillOfToken`: a token of six or more fields gives its skill, a shorter one none |
| FileParser.AppendSkills | FileParser.cpp:122-144 | the loop appends the skills of the tokens in order |
| FileParser.ApplySkillEffects | FileParser.cpp:146-150 | `ApplyEffectTokens`: the loop applies the trimmed tokens in order to the effect |
| FileParser.AppendAbilities | FileParser.cpp:153-164 | the loop appends the listed abilities in order |
| FileParser.ApplyField | FileParser.cpp:93-165 | the key dispatch updates the card as the key and value say |
| FileParser.ApplyLine | FileParser.cpp:84-91 | `LineStep`: a line without ':' is skipped; otherwise key and value are the trimmed text around the first ':' |
| FileParser.LineStepAt | FileParser.cpp:88-91 | a line whose first ':' is at pos applies the trimmed text before it as key and the trimmed text after it as value |
| FileParser.BlockParse | FileParser.cpp:83-167 | the block never takes more lines than remain; `BlockClosedIff` states how many it takes and `ParsePokemonBlock` what it builds |
| FileParser.EndIndex | FileParser.cpp:86 | the first line that trims to END_POKEMON |
| FileParser.BlockClosedIff | FileParser.cpp:83-167 | the parse succeeds exactly when an END_POKEMON line is reached, and it consumes the lines up to and including that line, or all of them |
| FileParser.LineWithoutColonSkipped | FileParser.cpp:88-89 | a line without ':' only uses up a line |
| FileParser.ParsePokemonBlock | FileParser.cpp:81-168 | the loop returns the card, the success flag and the number of lines consumed |
| FileParser.ParsedCards | FileParser.cpp:197-205 | each card read needs its own BEGIN and END lines |
| FileParser.InsertAllLastWins | FileParser.cpp:202 | `InsertAll`: a later card with the same normalized name overwrites the earlier one |
| FileParser.InsertAllUntouched | FileParser.cpp:202 | `InsertAll`: a key no card normalizes to keeps its old entry or absence |
| FileParser.InsertAllKeys | FileParser.cpp:198-205 | `InsertAll`: the keys afterwards are the old keys plus the normalized names of the cards |
| FileParser.NoBeginNoCards | FileParser.cpp:198-205 | without a BEGIN_POKEMON line no card is loaded |
| FileParser.ClosedBlockLoaded | FileParser.cpp:199-203 | a closed block yields its card, and reading resumes after END_POKEMON |
| FileParser.UnclosedBlockDropped | FileParser.cpp:199-203 | a block that is never closed yields no card and ends the file |
| FileParser.ParsedCardsBegin | FileParser.cpp:199-203 | a BEGIN line yields the block's card when it closed, and reading resumes where the block parser stopped |
| FileParser.ParsedCardsSkip | FileParser.cpp:198-199 | any other line is passed over |
| FileParser.ParsedCardsBlock | FileParser.cpp:198-203 | the same at any position of the file |
| FileParser.ReadCardBlock | FileParser.cpp:199-203 | reading one block moves the cursor forward and inserts the card when the block closed |
| FileParser.LoadCardMapFromFile | FileParser.cpp:187-206 | an unopenable file leaves the map unchanged; otherwise each parsed card is inserted in file order under its normalized name |
| FileParser.LoadCardDatabase | FileParser.cpp:244-265 | the database loader has the same effect on the map |
| FileParser.DeckEntry | FileParser.cpp:223-233 | a name is found exactly when its trimmed, normalized form is a key, and it gives that card |
| FileParser.DeckFromNames | FileParser.cpp:221-234 | at most one card per line; `DeckLineInPlace` and `DeckFromNamesAppend` state which |
| FileParser.DeckFromNamesAppend | FileParser.cpp:221-234 | the deck of two runs of lines is the concatenation of their decks |
| FileParser.DeckCardsFromMap | FileParser.cpp:228-230 | every card added comes from the map |
| FileParser.DeckAllFound | FileParser.cpp:221-234 | when every name is found, one card is added per line |
| FileParser.DeckLineInPlace | FileParser.cpp:221-234 | each line contributes its own card, or nothing on a miss, at its own place |
| FileParser.LoadDeckFromFile | FileParser.cpp:213-238 | an unopenable file is an error; otherwise the found cards are appended in order after the existing deck |
| GameSimulation.ScanLine | GameSimulation.cpp:32-39 | a line never removes a stored deck; `BeginDeckClears`, `DeckBodyGathered` and `DeckSectionRecorded` state what it does |
| GameSimulation.DeckPerEndLine | GameSimulation.cpp:31-40 | `ScanCatalog`: the number of decks equals the number of END_DECK lines |
| GameSimulation.BeginDeckClears | GameSimulation.cpp:33-34 | BEGIN_DECK empties the current deck text and keeps the stored decks |
| GameSimulation.DeckBodyGathered | GameSimulation.cpp:37-38 | the lines after it are added trimmed, each followed by a newline |
| GameSimulation.DeckSectionRecorded | GameSimulation.cpp:31-40 | `ScanCatalog`: a BEGIN_DECK … END_DECK section stores exactly its text |
| GameSimulation.LoadAllMetaDecks | GameSimulation.cpp:22-42 | an unopenable file changes nothing; otherwise the decks of the file are appended to the catalog |
| GameSimulation.LineCardName | GameSimulation.cpp:66-73 | a line names a card, lower-cased, only when it has exactly two comma fields |
| GameSimulation.NameFromLine | GameSimulation.cpp:66-74 | the name of each such line is in the deck's name set |
| GameSimulation.LineOfName | GameSimulation.cpp:66-74 | and every name in the set comes from such a line |
| GameSimulation.MatchingCount | GameSimulation.cpp:59-87 | `MatchingDecks`: a deck is kept, as often as it occurs in the catalog, exactly when it holds every visible name |
| GameSimulation.EmptyBoardKeepsAll | GameSimulation.cpp:76-86 | an empty visible list keeps every deck |
| GameSimulation.FilteredDecks | GameSimulation.cpp:95-99 | the result is non-empty whenever the catalog is |
| GameSimulation.FilteredDecksShowAll | GameSimulation.cpp:85-99 | when some deck matches, every returned deck holds every visible name |
| GameSimulation.FilteredDecksFallback | GameSimulation.cpp:95-97 | when none matches, the whole catalog is returned |
| GameSimulation.CollectDeckPokemons | GameSimulation.cpp:61-74 | the loop gathers the deck's name set |
| GameSimulation.AllVisibleIn | GameSimulation.cpp:77-83 | the early-exit loop answers whether every lower-cased visible name is in the set |
| GameSimulation.FilterMetaDecksByVisibleBoard | GameSimulation.cpp:49-100 | the loop returns the matching decks, or the catalog when none match |
| GameSimulation.VisibleNames | GameSimulation.cpp:106-112 | the opponent's active name first, then the bench names in order |
| GameSimulation.UpdateMetaDeckGuesses | GameSimulation.cpp:105-116 | only the guesses change, to the filter of the visible names |
| GameSimulation.GuessesHoldActiveCard | GameSimulation.cpp:105-116 | when some deck matches, every guess holds the opponent's active card |
| GameSimulation.Copies | GameSimulation.cpp:188-190 | count copies of the card, none for a negative count |
| GameSimulation.PresetEntry | GameSimulation.cpp:168-190 | a line only adds cards from the map |
| GameSimulation.PresetEntryFound | GameSimulation.cpp:178-190 | a found name with count c adds max(c, 0) copies of its card |
| GameSimulation.PresetCardsFromMap | GameSimulation.cpp:166-191 | `PresetDeck`: every card of a preset deck comes from the map |
| GameSimulation.PresetDeckAppend | GameSimulation.cpp:166-191 | `PresetDeck`: lines contribute independently, in order |
| GameSimulation.PushCopies | GameSimulation.cpp:188-190 | the loop appends the copies after the existing cards |
| GameSimulation.LoadPresetDeck | GameSimulation.cpp:155-194 | an unopenable file changes nothing; otherwise each line's cards are appended after the existing deck |
| GameSimulation.FindByName | GameSimulation.cpp:211-212 | the first card with exactly that name, or the end |
| GameSimulation.FindCard | GameSimulation.cpp:211-212 | the search loop finds that position |
| GameSimulation.DrawKeepsCards | GameSimulation.cpp:210-220 | `DrawNames`: drawing moves cards between deck and hand, and the combined multiset is unchanged |
| GameSimulation.DrawKeepsCount | GameSimulation.cpp:210-220 | `DrawNames`: \|deck\| + \|hand\| is unchanged |
| GameSimulation.DrawExtendsHand | GameSimulation.cpp:210-220 | `DrawNames`: the old hand is kept and the new cards carry the requested names in order |
| GameSimulation.DrawStopsAtMiss | GameSimulation.cpp:216-219 | `DrawNames`: a name missing from the deck stops the draw there |
| GameSimulation.DrawInitialHand | GameSimulation.cpp:199-221 | the wrong number of names changes nothing; otherwise only deck and hand change, as the draw says |
| GameSimulation.AttackChangesOnlyHp | GameSimulation.cpp:239-242 | `AfterAttack`: a child state differs only in the opponent's hp, which becomes max(0, hp - dmg) |
| GameSimulation.NextStates | GameSimulation.cpp:237-245 | one child per skill |
| GameSimulation.NextStatesKeepAttacker | GameSimulation.cpp:237-245 | every child keeps the active card |
| GameSimulation.GenerateNextStates | GameSimulation.cpp:234-245 | the loop builds the children in skill order |
| GameSimulation.ChildValuesAt | GameSimulation.cpp:255-256 | `ChildValues`: each child's value is the search at one less depth |
| GameSimulation.DecisionLeaf | GameSimulation.cpp:230-248 | `DecisionValue`: depth 0 or an active card without skills evaluates the state itself |
| GameSimulation.DecisionMean | GameSimulation.cpp:251-259 | `DecisionValue`: otherwise the value is the mean of the children's values |
| GameSimulation.DecisionValueBounded | GameSimulation.cpp:229-260 | `DecisionValue`: with leaf values in [0, 1], every value is in [0, 1] |
| GameSimulation.DecisionValueConstant | GameSimulation.cpp:268-297 | `DecisionValue`: a constant evaluator gives that constant at every depth |
| GameSimulation.SumChildOutcomes | GameSimulation.cpp:290-294 | the accumulation loop sums the children's values |
| GameSimulation.SimulateDecisionTreeSequential | GameSimulation.cpp:268-297 | the sequential search computes the decision value |
| GameSimulation.ChildOutcomes | GameSimulation.cpp:254-257 | the parallel loop finds each child's value with the sequential search |
| GameSimulation.SimulateDecisionTree | GameSimulation.cpp:229-260 | the top level, reducing the independently found child values, computes the same value as the sequential search for the same fixed evaluator `eval` |

## Left out

- File and stream I/O is not modelled: opening, `close` and the `runtime_error` of `loadDeckFromFile`. A file is its text, or `None` when it cannot be opened.
- The `std::cerr` and `std::cout` diagnostics are no-ops.
- OpenMP is not modelled. The parallel loops run sequentially. `processEnergyRequirements` only prints warnings and is not modelled.
- FilterMetaDecksByVisibleBoard: returns the matching decks in catalog order. The source merges thread-local results in an unspecified order, so only the multiset of matches is promised there.
- `evaluateGameState` and `seedRNG` are left out. The leaf evaluator is the parameter `eval`, and the bound lemma assumes its values lie in [0, 1].
- Means are `real`, not IEEE `double`, so rounding is not modelled.
- Integers are unbounded. `int` overflow is not modelled in `hp - dmg`, in the copy count of a preset line, or in the sums of the search. `stoi`'s own out-of-range case is modelled: it gives 0.
- SimulateDecisionTree: the source's leaf evaluator ignores the state and draws a fresh pseudo-random number on every call from a per-thread generator, so in the source two equal children, or the parallel and sequential searches, can get different values; the model's `eval` is a function of the state, and the equality with `SimulateDecisionTreeSequential` and the reading of `DecisionValue` as the value of a state hold only for such a fixed evaluator.
- SimulateDecisionTree: requires a depth of at least 0, or an active card without skills. With a negative depth and skills, the source recurses with ever smaller depths and never reaches a leaf.
- The `preEvolution` and `postEvolution` pointers are left out of `Pokemon`. No code in the model sets them.
- `MAX_BENCH`, `MAX_HAND_SIZE` and `MAX_FLIP` are not modelled. No modelled code enforces them.
- The opening-hand names are a parameter, not read from stdin. The interactive console phases and `main.cpp` are not part of this model.
- `monteCarloSimulation` is declared but has no definition, and is not part of this model.
- The "CoinFlip:ParalyzeOpp" token follows the code's branch order. The `CoinFlip:` prefix branch takes it first, so `paralyzeOpp` is never set (`ParalyzeBranchUnreachable`). A design that checks the exact token first would set it.
- ApplyRule: is defined for every branch index and every token. Each `substr` offset is clamped to the token's length. The source reaches a branch only after its prefix matched, where the clamp never applies.
