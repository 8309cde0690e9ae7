/** Quest requirements (Quests/requirement.py): conditions on a player that
    gate accepting a quest. */
module Requirements {
  import opened Common
  import opened Quests

  /** The three requirement types, and `Unrecognised` for any other value
      stored in `req_type` (the dataclass does not check it). */
  datatype RequirementType = QuestCompleted | Level | ItemHeld | Unrecognised

  datatype Requirement = Requirement(reqType: RequirementType, description: string, target: string, value: int)

  /** A requirement with the dataclass defaults: no target, value 0. */
  function MakeRequirement(reqType: RequirementType, description: string): (r: Requirement)
    ensures r.reqType == reqType && r.description == description && r.target == "" && r.value == 0
  {
    Requirement(reqType, description, "", 0)
  }

  /** `any(q.name.lower() == target.lower() and q.status.name == "TURNED_IN"
      for q in quests)`, consuming the quests in order. */
  predicate AnyTurnedIn(quests: seq<Quest>, target: string): (b: bool)
    reads quests
    ensures b <==> exists i :: 0 <= i < |quests| && Lower(quests[i].name) == Lower(target) && quests[i].status == TurnedIn
  {
    if quests == [] then false
    else (Lower(quests[0].name) == Lower(target) && quests[0].status == TurnedIn) || AnyTurnedIn(quests[1..], target)
  }

  /** `any(item.name.lower() == target.lower() for item in inventory)`. */
  predicate AnyItemNamed(inventory: seq<Item>, target: string): (b: bool)
    ensures b <==> exists i :: 0 <= i < |inventory| && Lower(inventory[i].name) == Lower(target)
  {
    if inventory == [] then false
    else Lower(inventory[0].name) == Lower(target) || AnyItemNamed(inventory[1..], target)
  }

  /** `getattr(player, "level", 0)`: a player without a level counts as
      level 0. */
  function LevelOf(level: Option<int>): int {
    if level.Some? then level.value else 0
  }

  /** `check`: whether a player with `level` (absent when the player has no
      such attribute), quest list `quests` and inventory `inventory`
      satisfies `req`. */
  predicate Check(req: Requirement, level: Option<int>, quests: seq<Quest>, inventory: seq<Item>)
    reads quests
  {
    match req.reqType
    case QuestCompleted => AnyTurnedIn(quests, req.target)
    case Level => LevelOf(level) >= req.value
    case ItemHeld => AnyItemNamed(inventory, req.target)
    case Unrecognised => false
  }

  /** A quest requirement holds exactly when some quest of the player with
      a case-insensitively equal name is turned in; a merely completed quest
      does not count. */
  lemma QuestRequirement(req: Requirement, level: Option<int>, quests: seq<Quest>, inventory: seq<Item>)
    requires req.reqType == QuestCompleted
    ensures Check(req, level, quests, inventory) <==>
      exists i :: 0 <= i < |quests| && Lower(quests[i].name) == Lower(req.target) && quests[i].status == TurnedIn
  {
  }

  /** A level requirement holds exactly when the level (0 when absent)
      reaches the value; raising the level keeps it satisfied. */
  lemma LevelRequirement(req: Requirement, level: Option<int>, higher: int, quests: seq<Quest>, inventory: seq<Item>)
    requires req.reqType == Level
    ensures Check(req, level, quests, inventory) <==> LevelOf(level) >= req.value
    ensures level.None? ==> (Check(req, level, quests, inventory) <==> req.value <= 0)
    ensures Check(req, level, quests, inventory) && higher >= LevelOf(level) ==> Check(req, Some(higher), quests, inventory)
  {
  }

  /** An item requirement holds exactly when some inventory item has a
      case-insensitively equal name. */
  lemma ItemRequirement(req: Requirement, level: Option<int>, quests: seq<Quest>, inventory: seq<Item>)
    requires req.reqType == ItemHeld
    ensures Check(req, level, quests, inventory) <==> exists i :: 0 <= i < |inventory| && Lower(inventory[i].name) == Lower(req.target)
  {
  }

  /** Any other requirement type never holds. */
  lemma UnrecognisedRequirement(req: Requirement, level: Option<int>, quests: seq<Quest>, inventory: seq<Item>)
    requires req.reqType == Unrecognised
    ensures !Check(req, level, quests, inventory)
  {
  }

  /** The check does not see the case of the target. */
  lemma CheckIgnoresCase(req: Requirement, other: string, level: Option<int>, quests: seq<Quest>, inventory: seq<Item>)
    requires Lower(other) == Lower(req.target)
    ensures Check(req.(target := other), level, quests, inventory) <==> Check(req, level, quests, inventory)
  {
  }

  /** Appending to the inventory keeps an item requirement satisfied, and
      an item of the target's name satisfies it. */
  lemma ItemRequirementGrows(req: Requirement, level: Option<int>, quests: seq<Quest>, inventory: seq<Item>, item: Item)
    requires req.reqType == ItemHeld
    ensures Check(req, level, quests, inventory) ==> Check(req, level, quests, inventory + [item])
    ensures Lower(item.name) == Lower(req.target) ==> Check(req, level, quests, inventory + [item])
  {
    assert (inventory + [item])[|inventory|] == item;
    assert forall i :: 0 <= i < |inventory| ==> (inventory + [item])[i] == inventory[i];
  }
}
