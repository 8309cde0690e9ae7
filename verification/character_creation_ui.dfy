/** The character-creation screen (UI/characterCreation/characterCreation_ui.py):
    a step machine name -> class -> confirm that ends by saving a new
    character with its starting stats and entering the game with it.  The
    character table is a service the screen calls; the id it gives the new
    record is a parameter here. */
module CharacterCreationScreen {
  import opened Common
  import opened Characters

  const MIN_NAME_LEN: int := 2

  const NAME_TOO_SHORT: string := "Name must be at least 2 characters."
  const INVALID_CLASS: string := "Invalid class. Choose from: Warrior, Mage, Rogue, Cleric"
  const YES_OR_NO: string := "Please type yes or no."

  datatype Step = Name | ClassChoice | Confirm

  /** What `_create_and_enter_game` saves and enters the game with: the
      record written for the account, under the id the table gave it, and
      the stats the player character is built with. */
  datatype NewCharacter = NewCharacter(characterId: int, accountId: int, name: string, characterClass: CharacterClass,
                                       race: CharacterRace, size: CharacterSize, stats: Stats)

  /** The fields of the screen (the account id never changes). */
  datatype CreationState = CreationState(step: Step, characterName: string, characterClass: Option<CharacterClass>,
                                         error: string, entered: Option<NewCharacter>)

  /** The screen keeps: past the name step the name is long enough, and
      once confirming, a class has been chosen. */
  ghost predicate CreationInv(s: CreationState) {
    && (s.step != Name ==> |s.characterName| >= MIN_NAME_LEN)
    && (s.step == Confirm ==> s.characterClass.Some?)
  }

  /** The confirmation words, compared without case. */
  predicate YesAnswer(t: string) {
    Lower(t) == "y" || Lower(t) == "yes"
  }

  predicate NoAnswer(t: string) {
    Lower(t) == "n" || Lower(t) == "no"
  }

  /** The record `_create_and_enter_game` builds: always a human, with
      the base stats plus the class and race modifiers. */
  function Created(characterId: int, accountId: int, name: string, cls: CharacterClass): (c: NewCharacter)
    ensures c.race == Human && c.size == RaceSize(Human) && c.characterClass == cls && c.name == name
    ensures c.stats.hp == BASE_HP + ClassModifiers(cls).hp + RaceModifiers(Human).hp
    ensures c.stats.stamina == BASE_STAMINA + ClassModifiers(cls).stamina + RaceModifiers(Human).stamina
    ensures c.stats.attack == BASE_ATTACK + ClassModifiers(cls).attack + RaceModifiers(Human).attack
    ensures c.characterId == characterId && c.accountId == accountId
  {
    NewCharacter(characterId, accountId, name, cls, Human, RaceSize(Human), StartingStats(cls, Human))
  }

  // -----------------------------------------------------------------------
  // The handlers, as transitions of the screen's fields
  // -----------------------------------------------------------------------

  function NameNext(s: CreationState, t: string): (r: CreationState)
    requires s.step == Name
    ensures CreationInv(r)
  {
    if |t| < MIN_NAME_LEN then s.(error := NAME_TOO_SHORT)
    else s.(characterName := t, error := "", step := ClassChoice)
  }

  function ClassNext(s: CreationState, t: string): (r: CreationState)
    requires s.step == ClassChoice
    ensures CreationInv(s) ==> CreationInv(r)
  {
    var choice := ClassFromName(Upper(t));
    if choice.None? then s.(error := INVALID_CLASS)
    else s.(characterClass := choice, error := "", step := Confirm)
  }

  /** `created` is the id `create_character_record` gives the new row. */
  function ConfirmNext(s: CreationState, t: string, accountId: int, created: int): (r: CreationState)
    requires s.step == Confirm && s.characterClass.Some?
    ensures CreationInv(s) ==> CreationInv(r)
  {
    if YesAnswer(t) then s.(entered := Some(Created(created, accountId, s.characterName, s.characterClass.value)))
    else if NoAnswer(t) then s.(characterName := "", characterClass := None, error := "", step := Name)
    else s.(error := YES_OR_NO)
  }

  /** `_handle_input`: strip the text, ignore it when blank, otherwise pass
      it to the handler of the current step. */
  function Next(s: CreationState, text: string, accountId: int, created: int): CreationState
    requires CreationInv(s)
  {
    var t := Strip(text);
    if t == [] then s
    else match s.step
      case Name => NameNext(s, t)
      case ClassChoice => ClassNext(s, t)
      case Confirm => ConfirmNext(s, t, accountId, created)
  }

  // -----------------------------------------------------------------------
  // What the step machine promises
  // -----------------------------------------------------------------------

  /** Blank input changes nothing; every other input keeps the invariant. */
  lemma NextKeepsInv(s: CreationState, text: string, accountId: int, created: int)
    requires CreationInv(s)
    ensures CreationInv(Next(s, text, accountId, created))
    ensures IsBlank(text) ==> Next(s, text, accountId, created) == s
  {
  }

  /** A name is taken exactly when it has at least two characters. */
  lemma NameRule(s: CreationState, text: string, accountId: int, created: int)
    requires s.step == Name && !IsBlank(text)
    ensures var t, r := Strip(text), Next(s, text, accountId, created);
      && (r.step == ClassChoice <==> |t| >= MIN_NAME_LEN)
      && (r.step == ClassChoice ==> r.characterName == t && r.error == "")
      && (r.step != ClassChoice ==> r == s.(error := NAME_TOO_SHORT))
  {
  }

  /** A class is taken exactly when the text, upper-cased, is the name of
      one of the four classes, whatever case it was typed in. */
  lemma ClassRule(s: CreationState, text: string, accountId: int, created: int)
    requires CreationInv(s) && s.step == ClassChoice && !IsBlank(text)
    ensures var t, r := Strip(text), Next(s, text, accountId, created);
      && (r.step == Confirm <==> exists c: CharacterClass :: ClassName(c) == Upper(t))
      && (r.step == Confirm ==> ClassName(r.characterClass.value) == Upper(t))
      && (r.step != Confirm ==> r == s.(error := INVALID_CLASS))
  {
    var t := Strip(text);
    var choice := ClassFromName(Upper(t));
    if choice.Some? {
      assert ClassName(choice.value) == Upper(t);
    }
  }

  /** Confirming enters the game with the chosen name and class, a human
      with the starting stats; declining starts over from an empty name and
      no class. */
  lemma ConfirmRule(s: CreationState, text: string, accountId: int, created: int)
    requires CreationInv(s) && s.step == Confirm && !IsBlank(text)
    ensures var t, r := Strip(text), Next(s, text, accountId, created);
      && (YesAnswer(t) ==> r.entered == Some(NewCharacter(created, accountId, s.characterName, s.characterClass.value,
                                                           Human, Medium, StartingStats(s.characterClass.value, Human))))
      && (!YesAnswer(t) && NoAnswer(t) ==> r == CreationState(Name, "", None, "", s.entered))
      && (!YesAnswer(t) && !NoAnswer(t) ==> r == s.(error := YES_OR_NO))
  {
  }

  /** A character entered the game only from the confirm step, with the
      name and class chosen on the way there. */
  lemma EnteredOnlyConfirmed(s: CreationState, text: string, accountId: int, created: int)
    requires CreationInv(s) && s.entered.None?
    requires Next(s, text, accountId, created).entered.Some?
    ensures s.step == Confirm && YesAnswer(Strip(text))
    ensures var c := Next(s, text, accountId, created).entered.value;
      c.name == s.characterName && |c.name| >= MIN_NAME_LEN && Some(c.characterClass) == s.characterClass
  {
  }

  // -----------------------------------------------------------------------
  // The screen
  // -----------------------------------------------------------------------

  class CharacterCreationUI {
    const accountId: int
    var step: Step
    var characterName: string
    var characterClass: Option<CharacterClass>
    var error: string
    var entered: Option<NewCharacter>

    ghost function Snapshot(): CreationState
      reads this
    {
      CreationState(step, characterName, characterClass, error, entered)
    }

    /** A new screen asks for the name, with nothing chosen yet. */
    constructor (accountId: int)
      ensures this.accountId == accountId
      ensures Snapshot() == CreationState(Name, "", None, "", None)
      ensures CreationInv(Snapshot())
    {
      this.accountId := accountId;
      step := Name;
      characterName := "";
      characterClass := None;
      error := "";
      entered := None;
    }

    /** `_handle_input`; `created` is the id the character table gives a
        record saved by this input. */
    method HandleInput(text: string, created: int)
      requires CreationInv(Snapshot())
      modifies this
      ensures Snapshot() == Next(old(Snapshot()), text, accountId, created)
      ensures CreationInv(Snapshot())
    {
      var t := Strip(text);
      if t == [] {
        return;
      }
      match step
      case Name => HandleName(t);
      case ClassChoice => HandleClass(t);
      case Confirm => HandleConfirm(t, created);
    }

    method HandleName(t: string)
      requires step == Name
      modifies this
      ensures Snapshot() == NameNext(old(Snapshot()), t)
    {
      if |t| < MIN_NAME_LEN {
        error := NAME_TOO_SHORT;
        return;
      }
      characterName := t;
      error := "";
      step := ClassChoice;
    }

    method HandleClass(t: string)
      requires step == ClassChoice
      modifies this
      ensures Snapshot() == ClassNext(old(Snapshot()), t)
    {
      var choice := ClassFromName(Upper(t));
      if choice.None? {
        error := INVALID_CLASS;
        return;
      }
      characterClass := choice;
      error := "";
      step := Confirm;
    }

    method HandleConfirm(t: string, created: int)
      requires step == Confirm && characterClass.Some?
      modifies this
      ensures Snapshot() == ConfirmNext(old(Snapshot()), t, accountId, created)
    {
      if YesAnswer(t) {
        CreateAndEnterGame(created);
      } else if NoAnswer(t) {
        characterName := "";
        characterClass := None;
        error := "";
        step := Name;
      } else {
        error := YES_OR_NO;
      }
    }

    /** `_create_and_enter_game`: work out the starting stats of a human of
        the chosen class, save the record and enter the game with it. */
    method CreateAndEnterGame(created: int)
      requires characterClass.Some?
      modifies this`entered
      ensures entered == Some(Created(created, accountId, characterName, characterClass.value))
    {
      var race := Human;
      var classMods := ClassModifiers(characterClass.value);
      var raceMods := RaceModifiers(race);
      var hp := BASE_HP + classMods.hp + raceMods.hp;
      var stamina := BASE_STAMINA + classMods.stamina + raceMods.stamina;
      var attack := BASE_ATTACK + classMods.attack + raceMods.attack;
      entered := Some(NewCharacter(created, accountId, characterName, characterClass.value, race, RaceSize(race),
                                   Stats(hp, stamina, attack)));
    }
  }
}
