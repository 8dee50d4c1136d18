/** `Character` and its `AbilityScores` implementation: raw scores, racial
    adjustments, the derived modifier and the detailed score record. */
module Characters {

  import opened Wrappers
  import opened Numbers
  import opened Races

  /** `Character`: never updated after construction, so a value. Scores are
      unbounded integers (the source's `i32` overflow is not modelled). */
  datatype Character = Character(name: string, level: int, characterClass: string, race: Race,
                                 strength: int, dexterity: int, constitution: int,
                                 intelligence: int, wisdom: int, charisma: int)

  /** `DetailedAbilityScore`: the adjusted score and where its adjustments
      came from. */
  datatype DetailedAbilityScore = DetailedAbilityScore(ability: Ability, score: int,
                                                       modifiers: map<string, int>)

  /** `Character::new`: every raw score reads back as the argument given for
      it. */
  function NewCharacter(name: string, level: int, characterClass: string, race: Race,
                        strength: int, dexterity: int, constitution: int,
                        intelligence: int, wisdom: int, charisma: int): (c: Character)
    ensures c.name == name && c.level == level && c.characterClass == characterClass && c.race == race
    ensures RawScore(c, Strength) == strength && RawScore(c, Dexterity) == dexterity
    ensures RawScore(c, Constitution) == constitution && RawScore(c, Intelligence) == intelligence
    ensures RawScore(c, Wisdom) == wisdom && RawScore(c, Charisma) == charisma
  {
    Character(name, level, characterClass, race, strength, dexterity, constitution, intelligence, wisdom, charisma)
  }

  /** `get_raw_ability_score`: the field for the ability. */
  function RawScore(c: Character, a: Ability): int
  {
    match a
    case Strength => c.strength
    case Dexterity => c.dexterity
    case Constitution => c.constitution
    case Intelligence => c.intelligence
    case Wisdom => c.wisdom
    case Charisma => c.charisma
  }

  /** The race's modifier for the ability, if it has one. */
  function RacialModifier(race: Race, a: Ability): (m: Option<int>)
    ensures m.Some? <==> a in race.abilityModifiers
    ensures m.Some? ==> m.value == race.abilityModifiers[a]
  {
    if a in race.abilityModifiers then Some(race.abilityModifiers[a]) else None
  }

  /** The sum of the adjustments recorded in a detailed score. */
  function Adjustment(modifiers: map<string, int>): int
  {
    if "racial" in modifiers then modifiers["racial"] else 0
  }

  /** `get_detail_ability_score`: the raw score with the racial modifier
      added, and the modifier recorded under "racial" when there is one. */
  function DetailScore(c: Character, a: Ability): (d: DetailedAbilityScore)
    ensures d.ability == a
    ensures d.modifiers.Keys <= {"racial"}
    ensures d.score == RawScore(c, a) + Adjustment(d.modifiers)
    ensures "racial" in d.modifiers <==> a in c.race.abilityModifiers
    ensures "racial" in d.modifiers ==> d.modifiers["racial"] == c.race.abilityModifiers[a]
  {
    var score := RawScore(c, a);
    match RacialModifier(c.race, a)
    case Some(modifier) => DetailedAbilityScore(a, score + modifier, map["racial" := modifier])
    case None => DetailedAbilityScore(a, score, map[])
  }

  /** `get_ability_score`: the raw score plus the racial modifier, if any. */
  function AbilityScore(c: Character, a: Ability): int
  {
    var score := RawScore(c, a);
    match RacialModifier(c.race, a)
    case Some(modifier) => score + modifier
    case None => score
  }

  /** The modifier a score gives: `(score - 10) / 2` truncated toward zero. */
  function ModifierOf(score: int): (m: int)
    ensures score >= 10 ==> score - 10 - 1 <= 2 * m <= score - 10
    ensures score <= 10 ==> score - 10 <= 2 * m <= score - 10 + 1
  {
    TruncDiv(score - 10, 2)
  }

  /** `get_modifier`. */
  function Modifier(c: Character, a: Ability): int
  {
    ModifierOf(AbilityScore(c, a))
  }

  /** The adjusted score is the raw one when the race has no entry for the
      ability and the raw one plus the entry otherwise. */
  lemma AbilityScoreIsRawPlusRacial(c: Character, a: Ability)
    ensures a !in c.race.abilityModifiers ==> AbilityScore(c, a) == RawScore(c, a)
    ensures a in c.race.abilityModifiers ==>
      AbilityScore(c, a) == RawScore(c, a) + c.race.abilityModifiers[a]
  {
  }

  /** The detailed record agrees with `get_ability_score` and with the race:
      its score is the adjusted score, its modifiers are exactly
      {"racial" ↦ m} for a racial modifier m and empty otherwise. */
  lemma DetailAgrees(c: Character, a: Ability)
    ensures DetailScore(c, a).score == AbilityScore(c, a)
    ensures DetailScore(c, a).modifiers ==
      if a in c.race.abilityModifiers then map["racial" := c.race.abilityModifiers[a]] else map[]
  {
  }

  /** The raw scores, name, level, class and race determine the character. */
  lemma RawScoresDetermine(c: Character, d: Character)
    requires c.name == d.name && c.level == d.level && c.characterClass == d.characterClass && c.race == d.race
    requires forall a: Ability :: RawScore(c, a) == RawScore(d, a)
    ensures c == d
  {
    assert RawScore(c, Strength) == RawScore(d, Strength);
    assert RawScore(c, Dexterity) == RawScore(d, Dexterity);
    assert RawScore(c, Constitution) == RawScore(d, Constitution);
    assert RawScore(c, Intelligence) == RawScore(d, Intelligence);
    assert RawScore(c, Wisdom) == RawScore(d, Wisdom);
    assert RawScore(c, Charisma) == RawScore(d, Charisma);
  }

  /** Truncation toward zero makes the modifier symmetric about 10, which
      floor division would not be: 9 gives 0 and 11 gives 0. */
  lemma ModifierSymmetric(d: int)
    ensures ModifierOf(10 - d) == -ModifierOf(10 + d)
  {
    var k := d / 2;
    assert d == 2 * k || d == 2 * k + 1;
  }

  /** A higher score never gives a lower modifier. */
  lemma ModifierMonotone(s: int, t: int)
    requires s <= t
    ensures ModifierOf(s) <= ModifierOf(t)
  {
  }

  /** The quoted examples: 9 gives 0, 7 gives -1, 10 and 11 give 0, 12 gives
      1. */
  lemma ModifierExamples()
    ensures ModifierOf(9) == 0 && ModifierOf(7) == -1
    ensures ModifierOf(10) == 0 && ModifierOf(11) == 0 && ModifierOf(12) == 1
  {
  }

  /** A Human gets one more than each raw score. */
  lemma HumanAddsOne(c: Character, a: Ability)
    requires c.race == DefaultRaces()["Human"]
    ensures AbilityScore(c, a) == RawScore(c, a) + 1
  {
    HumanTraits();
  }

  /** Test at :102-126: a Human with every raw score 10 has every ability
      score 11. */
  lemma HumanWithTens(name: string, level: int, characterClass: string)
    ensures var c := NewCharacter(name, level, characterClass, DefaultRaces()["Human"], 10, 10, 10, 10, 10, 10);
      forall a: Ability :: AbilityScore(c, a) == 11
  {
    var c := NewCharacter(name, level, characterClass, DefaultRaces()["Human"], 10, 10, 10, 10, 10, 10);
    forall a: Ability
      ensures AbilityScore(c, a) == 11
    {
      HumanAddsOne(c, a);
    }
  }
}
