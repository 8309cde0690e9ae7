/** Player and non-player characters (Objects/Characters/character.py) with
    the class and race modifier tables they are created from
    (Objects/Characters/characterClasses.py, characterRaces.py). */
module Characters {
  import opened Common
  import GameObjects

  datatype CharacterType = Player | Npc

  /** The concrete CharacterClass subclasses, in declaration order. */
  datatype CharacterClass = Warrior | Mage | Rogue | Cleric

  /** The concrete CharacterRace subclasses. */
  datatype CharacterRace = Human

  datatype CharacterSize = Miniature | Small | Medium | Large | Huge | Humongous

  datatype Stats = Stats(hp: int, stamina: int, attack: int)

  const BASE_HP: int := 100
  const BASE_STAMINA: int := 100
  const BASE_ATTACK: int := 10

  function ClassModifiers(c: CharacterClass): Stats {
    match c
    case Warrior => Stats(20, 10, 5)
    case Mage => Stats(-10, 5, -2)
    case Rogue => Stats(-5, 20, 3)
    case Cleric => Stats(10, 5, 0)
  }

  function RaceModifiers(r: CharacterRace): Stats {
    match r
    case Human => Stats(0, 0, 0)
  }

  function RaceSize(r: CharacterRace): CharacterSize {
    match r
    case Human => Medium
  }

  /** The upper-case option names of `CharacterClassOptions`. */
  function ClassName(c: CharacterClass): string {
    match c
    case Warrior => "WARRIOR"
    case Mage => "MAGE"
    case Rogue => "ROGUE"
    case Cleric => "CLERIC"
  }

  /** `CharacterClassOptions[name]`, or None when `name` is not an option. */
  function ClassFromName(name: string): (r: Option<CharacterClass>)
    ensures r.Some? ==> ClassName(r.value) == name
    ensures r.None? ==> forall c: CharacterClass :: ClassName(c) != name
  {
    if name == "WARRIOR" then Some(Warrior)
    else if name == "MAGE" then Some(Mage)
    else if name == "ROGUE" then Some(Rogue)
    else if name == "CLERIC" then Some(Cleric)
    else None
  }

  /** Base stats plus the class modifier plus the race modifier; shared by
      `create_character` and the character-creation screen. */
  function StartingStats(c: CharacterClass, r: CharacterRace): Stats {
    var cm := ClassModifiers(c);
    var rm := RaceModifiers(r);
    Stats(BASE_HP + cm.hp + rm.hp, BASE_STAMINA + cm.stamina + rm.stamina, BASE_ATTACK + cm.attack + rm.attack)
  }

  /** The worked example of the creation rules: a human warrior starts with
      120 hp, 110 stamina and 15 attack; every class keeps hp positive. */
  lemma StartingStatsExamples(c: CharacterClass)
    ensures StartingStats(Warrior, Human) == Stats(120, 110, 15)
    ensures StartingStats(Mage, Human) == Stats(90, 105, 8)
    ensures StartingStats(c, Human).hp > 0 && StartingStats(c, Human).stamina > 0
  {
  }

  class Character {
    const uid: Uid
    const name: string
    /** `object_type()`: PLAYER for PlayerCharacter, NPC for NonPlayerCharacter. */
    const kind: CharacterType
    var hp: int
    var maxHp: int
    var stamina: int
    var maxStamina: int
    const baseAttack: int
    const race: CharacterRace
    const characterClass: CharacterClass
    const size: CharacterSize
    var inventory: seq<Item>
    var equippedWeapon: Option<Weapon>
    var isKnockedOut: bool
    /** Rooms are hashed by uid, so the visited set is a set of room uids. */
    var visitedRooms: set<Uid>

    /** `PlayerCharacter.__init__` (and `NonPlayerCharacter`, which only adds
        fields the core does not read). */
    constructor (gen: GameObjects.UidGenerator, name: string, kind: CharacterType,
                 currentHp: int, currentStamina: int, baseAttack: int,
                 race: CharacterRace, characterClass: CharacterClass,
                 size: CharacterSize, inventory: seq<Item>)
      requires gen.Valid()
      modifies gen
      ensures gen.Valid() && uid !in old(gen.issued) && gen.issued == old(gen.issued) + {uid}
      ensures this.name == name && this.kind == kind
      ensures hp == maxHp == currentHp && stamina == maxStamina == currentStamina
      ensures this.baseAttack == baseAttack && this.race == race
      ensures this.characterClass == characterClass && this.size == size
      ensures this.inventory == inventory
      ensures equippedWeapon == None && !isKnockedOut && visitedRooms == {}
    {
      var u := gen.Fresh();
      this.uid := u;
      this.name := name;
      this.kind := kind;
      hp, maxHp := currentHp, currentHp;
      stamina, maxStamina := currentStamina, currentStamina;
      this.baseAttack := baseAttack;
      this.race := race;
      this.characterClass := characterClass;
      this.size := size;
      this.inventory := inventory;
      equippedWeapon := None;
      isKnockedOut := false;
      visitedRooms := {};
    }

    function ObjectType(): CharacterType {
      kind
    }

    predicate HasVisited(roomUid: Uid)
      reads this
    {
      roomUid in visitedRooms
    }

    /** `visited_rooms.add(room)`: afterwards the room counts as visited, and
        visiting it again changes nothing. */
    method VisitRoom(roomUid: Uid)
      modifies this`visitedRooms
      ensures visitedRooms == old(visitedRooms) + {roomUid}
      ensures HasVisited(roomUid)
      ensures old(HasVisited(roomUid)) ==> visitedRooms == old(visitedRooms)
    {
      visitedRooms := visitedRooms + {roomUid};
    }
  }

  /** `create_character`: a new player character whose hp, stamina and
      attack are the base stats plus the class and race modifiers. */
  method CreateCharacter(gen: GameObjects.UidGenerator, name: string, race: CharacterRace, cls: CharacterClass)
    returns (c: Character)
    requires gen.Valid()
    modifies gen
    ensures gen.Valid() && fresh(c) && c.uid !in old(gen.issued)
    ensures c.name == name && c.ObjectType() == Player && c.race == race && c.characterClass == cls
    ensures c.hp == c.maxHp == BASE_HP + ClassModifiers(cls).hp + RaceModifiers(race).hp
    ensures c.stamina == c.maxStamina == BASE_STAMINA + ClassModifiers(cls).stamina + RaceModifiers(race).stamina
    ensures c.baseAttack == BASE_ATTACK + ClassModifiers(cls).attack + RaceModifiers(race).attack
    ensures c.size == RaceSize(race) && c.inventory == [] && !c.isKnockedOut && c.visitedRooms == {}
  {
    var s := StartingStats(cls, race);
    c := new Character(gen, name, Player, s.hp, s.stamina, s.attack, race, cls, RaceSize(race), []);
  }
}
