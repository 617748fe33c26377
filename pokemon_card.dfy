/**
 * The record types of the card game: energy costs, skill effects, abilities,
 * skills, cards ("Pokemon") and the game state, with the values their C++
 * constructors give them. The raw evolution pointers are not modelled.
 */
module Cards {

  /** Energy type and amount, e.g. ("Fire", 2). */
  datatype EnergyRequirement = EnergyRequirement(energyType: string, amount: int)

  /** `EnergyRequirement(etype = "", amt = 0)`. */
  function NewEnergyRequirement(etype: string := "", amt: int := 0): (r: EnergyRequirement)
    ensures r.energyType == etype && r.amount == amt
  {
    EnergyRequirement(etype, amt)
  }

  /** Extra effects of a skill; the fields appear in their declaration order. */
  datatype SpecialSkill = SpecialSkill(
    doCoinFlips: bool,
    numFlips: int,
    flipUntilTails: bool,
    damagePerFlip: int,
    randomHitDamage: int,
    randomHitCount: int,
    extraDmg: int,
    extraDmgIfPoisoned: int,
    extraDmgIfParalyzed: int,
    damagePerEnergyAttached: int,
    heal: int,
    damageReduction: int,
    benchedDamage: int,
    numBenched: int,
    switchOutOpp: bool,
    paralyzeOpp: bool,
    poisonOpp: bool,
    shuffleOpponentBackIfHeads: bool,
    banSupporter: bool)

  /** Every numeric field zero and every flag false: the skill has no extra effect. */
  predicate NoEffect(e: SpecialSkill) {
    && !e.doCoinFlips && e.numFlips == 0 && !e.flipUntilTails
    && e.damagePerFlip == 0 && e.randomHitDamage == 0 && e.randomHitCount == 0
    && e.extraDmg == 0 && e.extraDmgIfPoisoned == 0 && e.extraDmgIfParalyzed == 0
    && e.damagePerEnergyAttached == 0 && e.heal == 0 && e.damageReduction == 0
    && e.benchedDamage == 0 && e.numBenched == 0
    && !e.switchOutOpp && !e.paralyzeOpp && !e.poisonOpp
    && !e.shuffleOpponentBackIfHeads && !e.banSupporter
  }

  /**
   * The 19-argument SpecialSkill constructor. Its 5th argument is the hit
   * count and its 6th the per-hit damage, the reverse of the field order.
   */
  function NewSpecialSkill(
    coinFlips: bool := false, flips: int := 0, flipTails: bool := false,
    dmgPerFlipArg: int := 0, randHits: int := 0, randHitDmgArg: int := 0,
    xtra: int := 0, xtraIfPoison: int := 0, xtraIfPara: int := 0,
    dmgPerEnergy: int := 0, healAmt: int := 0, dmgRed: int := 0,
    benchDmg: int := 0, benchCount: int := 0, swOpp: bool := false,
    paraOpp: bool := false, poisOpp: bool := false, shuffleBack: bool := false,
    banSupp: bool := false): (r: SpecialSkill)
    ensures r.randomHitCount == randHits && r.randomHitDamage == randHitDmgArg
    ensures r.doCoinFlips == coinFlips && r.numFlips == flips && r.flipUntilTails == flipTails
    ensures r.damagePerFlip == dmgPerFlipArg
    ensures r.extraDmg == xtra && r.extraDmgIfPoisoned == xtraIfPoison && r.extraDmgIfParalyzed == xtraIfPara
    ensures r.damagePerEnergyAttached == dmgPerEnergy && r.heal == healAmt && r.damageReduction == dmgRed
    ensures r.benchedDamage == benchDmg && r.numBenched == benchCount
    ensures r.switchOutOpp == swOpp && r.paralyzeOpp == paraOpp && r.poisonOpp == poisOpp
    ensures r.shuffleOpponentBackIfHeads == shuffleBack && r.banSupporter == banSupp
  {
    SpecialSkill(coinFlips, flips, flipTails, dmgPerFlipArg, randHitDmgArg, randHits,
                 xtra, xtraIfPoison, xtraIfPara, dmgPerEnergy, healAmt, dmgRed,
                 benchDmg, benchCount, swOpp, paraOpp, poisOpp, shuffleBack, banSupp)
  }

  /** `SpecialSkill()`: all arguments defaulted. */
  function DefaultSpecialSkill(): (r: SpecialSkill)
    ensures NoEffect(r)
  {
    SpecialSkill(false, 0, false, 0, 0, 0, 0, 0, 0, 0, 0, 0, 0, 0, false, false, false, false, false)
  }

  /** NoEffect characterises the default effect exactly. */
  lemma NoEffectIsDefault(e: SpecialSkill)
    ensures NoEffect(e) <==> e == DefaultSpecialSkill()
  {
  }

  /**
   * A passive ability. The source builds it either from effect flags or from
   * a name and a description.
   */
  datatype Ability = Ability(
    activeOnly: bool,
    poisonOpp: bool,
    forceSwitchOpp: bool,
    banSupporter: bool,
    moveEnergy: bool,
    attachEnergyCount: int,
    attachEnergyType: string,
    attachOnlyActive: bool,
    name: string,
    description: string)

  /** The flag constructor; name and description stay empty. */
  function NewAbility(
    activeOnly: bool := false, poisonOpp: bool := false, forceSwitchOpp: bool := false,
    banSupporter: bool := false, moveEnergy: bool := false, attachCount: int := 0,
    attachType: string := "", attachOnlyActive: bool := false): (r: Ability)
    ensures r.name == "" && r.description == ""
    ensures r.activeOnly == activeOnly && r.poisonOpp == poisonOpp && r.forceSwitchOpp == forceSwitchOpp
    ensures r.banSupporter == banSupporter && r.moveEnergy == moveEnergy
    ensures r.attachEnergyCount == attachCount && r.attachEnergyType == attachType
    ensures r.attachOnlyActive == attachOnlyActive
  {
    Ability(activeOnly, poisonOpp, forceSwitchOpp, banSupporter, moveEnergy,
            attachCount, attachType, attachOnlyActive, "", "")
  }

  /** An ability with no effect flag set, no energy to attach and no energy type. */
  predicate PlainAbility(a: Ability) {
    && !a.activeOnly && !a.poisonOpp && !a.forceSwitchOpp && !a.banSupporter
    && !a.moveEnergy && a.attachEnergyCount == 0 && a.attachEnergyType == ""
    && !a.attachOnlyActive
  }

  /** The (name, description) constructor: only those two are set. */
  function NamedAbility(name: string, description: string): (r: Ability)
    ensures PlainAbility(r)
    ensures r.name == name && r.description == description
  {
    Ability(false, false, false, false, false, 0, "", false, name, description)
  }

  /** An attack move. */
  datatype Skill = Skill(
    skillName: string,
    dmg: int,
    energyRequirements: seq<EnergyRequirement>,
    energyDrop: int,
    flipCoin: bool,
    maxFlip: int,
    specialEffect: SpecialSkill)

  /** `Skill(name, damage, energyDrop, coin, flipMax)`: no energy cost yet, no effect. */
  function NewSkill(name: string := "", damage: int := 0, energyDrop: int := 0,
                    coin: bool := false, flipMax: int := 0): (r: Skill)
    ensures r.skillName == name && r.dmg == damage && r.energyDrop == energyDrop
    ensures r.flipCoin == coin && r.maxFlip == flipMax
    ensures r.energyRequirements == [] && NoEffect(r.specialEffect)
  {
    Skill(name, damage, [], energyDrop, coin, flipMax, DefaultSpecialSkill())
  }

  /**
   * A card: a Pokemon, a Supporter or an Item. `typeName` is the source's
   * `type` field (a reserved word here); `cardType` is 0 for a Pokemon,
   * 1 for a Supporter and 2 for an Item.
   */
  datatype Pokemon = Pokemon(
    name: string,
    isEx: bool,
    typeName: string,
    package: string,
    canEvolve: bool,
    cardType: int,
    hp: int,
    stage: int,
    prevEvo: string,
    nextEvo: string,
    skills: seq<Skill>,
    abilities: seq<Ability>,
    weakness: string,
    retreatCost: int,
    attachedEnergy: seq<EnergyRequirement>,
    isPoisoned: bool,
    isParalyzed: bool)

  /** The Pokemon constructor with its nine defaulted arguments. */
  function NewPokemon(n: string := "", ex: bool := false, t: string := "", pkg: string := "",
                      evolve: bool := false, cType: int := 0, health: int := 0,
                      stg: int := 0, weak: string := ""): (r: Pokemon)
    ensures r.name == n && r.isEx == ex && r.typeName == t && r.package == pkg
    ensures r.canEvolve == evolve && r.cardType == cType && r.hp == health && r.stage == stg
    ensures r.weakness == weak
    ensures r.retreatCost == 0 && r.prevEvo == "" && r.nextEvo == ""
    ensures !r.isPoisoned && !r.isParalyzed
    ensures r.skills == [] && r.abilities == [] && r.attachedEnergy == []
  {
    Pokemon(n, ex, t, pkg, evolve, cType, health, stg, "", "", [], [], weak, 0, [], false, false)
  }

  /** One attack performed during a round. */
  datatype AttackRecord = AttackRecord(
    attacker: string, moveName: string, target: string, effects: seq<string>)

  /** Energy attached to a card during a round. */
  datatype EnergyAttachment = EnergyAttachment(
    pokemonName: string, energyType: string, amount: int)

  /** The full snapshot of both sides of a game. */
  datatype GameState = GameState(
    deck: seq<Pokemon>,
    hand: seq<Pokemon>,
    activePokemon: Pokemon,
    bench: seq<Pokemon>,
    turn: int,
    firstTurn: bool,
    opponentActivePokemon: Pokemon,
    opponentBench: seq<Pokemon>,
    actionHistory: seq<string>,
    attacksThisRound: seq<AttackRecord>,
    yourAttachments: seq<EnergyAttachment>,
    oppAttachments: seq<EnergyAttachment>,
    oppMetaDeckGuesses: seq<string>)

  /** `GameState()`: turn 0, first turn, default active cards, every list empty. */
  function NewGameState(): (r: GameState)
    ensures r.turn == 0 && r.firstTurn
    ensures r.deck == [] && r.hand == [] && r.bench == [] && r.opponentBench == []
    ensures r.actionHistory == [] && r.attacksThisRound == []
    ensures r.yourAttachments == [] && r.oppAttachments == [] && r.oppMetaDeckGuesses == []
    ensures r.activePokemon == NewPokemon() && r.opponentActivePokemon == NewPokemon()
  {
    GameState([], [], NewPokemon(), [], 0, true, NewPokemon(), [], [], [], [], [], [])
  }
}
