/** The six abilities, the `Race` record and the table of default races
    (`load_default_races`). */
module Races {

  /** `Ability`: the six ability scores of a character. */
  datatype Ability = Strength | Dexterity | Constitution | Intelligence | Wisdom | Charisma

  /** `Race`: a name, a bonus or penalty per ability (abilities without an
      entry have none), the special abilities and the walking speed. */
  datatype Race = Race(name: string, abilityModifiers: map<Ability, int>,
                       specialAbilities: seq<string>, speed: int)

  /** `Race::new`: the record with its name taken as given. */
  function NewRace(name: string, abilityModifiers: map<Ability, int>,
                   specialAbilities: seq<string>, speed: int): (r: Race)
    ensures r.name == name && r.speed == speed
    ensures r.abilityModifiers == abilityModifiers && r.specialAbilities == specialAbilities
  {
    Race(name, abilityModifiers, specialAbilities, speed)
  }

  function Dwarf(): Race
  {
    NewRace("Dwarf", map[Constitution := 2, Charisma := -2],
            ["Darkvision", "Dwarven Resilience", "Dwarven Combat Training", "Stonecunning"], 25)
  }

  function Elf(): Race
  {
    NewRace("Elf", map[Dexterity := 2, Constitution := -2],
            ["Darkvision", "Keen Senses", "Fae Ancestry", "Trance"], 30)
  }

  function Halfling(): Race
  {
    NewRace("Halfling", map[Constitution := 2], ["Lucky", "Brave", "Halfling Nimbleness"], 25)
  }

  function Human(): Race
  {
    NewRace("Human",
            map[Strength := 1, Dexterity := 1, Constitution := 1,
                Intelligence := 1, Wisdom := 1, Charisma := 1],
            ["odd elections"], 30)
  }

  /** `load_default_races`: the races keyed by their names. */
  function DefaultRaces(): (races: map<string, Race>)
    ensures races.Keys == {"Dwarf", "Elf", "Halfling", "Human"}
    ensures forall key :: key in races ==> races[key].name == key
  {
    map["Dwarf" := Dwarf(), "Elf" := Elf(), "Halfling" := Halfling(), "Human" := Human()]
  }

  /** Dwarves: Constitution +2, Charisma -2, nothing else, speed 25, four
      special abilities. */
  lemma DwarfTraits()
    ensures var r := DefaultRaces()["Dwarf"];
      && r.abilityModifiers.Keys == {Constitution, Charisma}
      && r.abilityModifiers[Constitution] == 2 && r.abilityModifiers[Charisma] == -2
      && r.speed == 25 && |r.specialAbilities| == 4
  {
  }

  /** Elves: Dexterity +2, Constitution -2, nothing else, speed 30. */
  lemma ElfTraits()
    ensures var r := DefaultRaces()["Elf"];
      && r.abilityModifiers.Keys == {Dexterity, Constitution}
      && r.abilityModifiers[Dexterity] == 2 && r.abilityModifiers[Constitution] == -2
      && r.speed == 30
  {
  }

  /** Halflings: only Constitution +2, speed 25. */
  lemma HalflingTraits()
    ensures var r := DefaultRaces()["Halfling"];
      && r.abilityModifiers == map[Constitution := 2]
      && r.speed == 25
  {
  }

  /** Humans: +1 on every ability, speed 30. */
  lemma HumanTraits()
    ensures var r := DefaultRaces()["Human"];
      && (forall a: Ability :: a in r.abilityModifiers && r.abilityModifiers[a] == 1)
      && r.speed == 30
  {
    var m := DefaultRaces()["Human"].abilityModifiers;
    forall a: Ability
      ensures a in m && m[a] == 1
    {
      match a
      case Strength =>
      case Dexterity =>
      case Constitution =>
      case Intelligence =>
      case Wisdom =>
      case Charisma =>
    }
  }
}
