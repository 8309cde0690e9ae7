# MUD core in Dafny

This project models the core of a small multi-user dungeon (MUD) served over SSH. Players log in or register, create a character and walk a graph of rooms. They look around, pick up and drop items, form parties of up to four and fight turn-based battles against other players or non-player characters.

The model covers the following parts of the game:

- the shared world registry: sessions, per-room presence lists, room broadcasts, pickup and drop;
- the combat engine: initiative, turns and rounds, attack, defend and flee, knockouts, timeouts and disconnects;
- the party manager: invites, accept and decline, leave, show, disconnect;
- the room graph with its paired exits;
- the command parser and executor of the game loop;
- the tab-completion state machine;
- the ASCII mini-map renderer;
- the login, character-creation and in-game screens as state machines over their own fields;
- quests, objectives and requirements;
- the game-object property and tag store and character creation.

Modules follow the Python files: `Common` (shared values and the string and list helpers), `GameObjects`, `Rooms`, `Characters`, `World`, `Party`, `Combat`, `Actions`, `Commands`, `TabCompletion`, `MapRenderer`, `LoginScreen`, `CharacterCreationScreen`, `GameScreen`, `Quests`, `Objectives` and `Requirements`.

Objects the Python code updates in place are Dafny classes with `modifies` frames. These are rooms, characters, the world manager, the party manager, combat instances and the combat manager, and the screens. Loops of the source's methods that change state or build a result for the caller are `while` and `for` loops with invariants. Examples are the two breadth-first walks, the map drawing, combat registration, initiative and turn changes, the party manager's notices and member filters, the command screen's `go` and inventory, and the tab-completion prefix. Each such method is proved against a function that specifies its result. The searches and filters that the source writes as comprehensions, or as `for` loops that return the first match, are recursive functions whose contracts say exactly what they select. Examples are the exit, item and target searches of logic/actions.py, the active, enemy and winner lists of logic/combat.py, and the leader and room filters of logic/party.py. The properties that matter are proved as lemmas about these functions.

Outside effects become plain state:

- The session callback becomes an `outbox` of notices.
- The character-saving hook becomes a `saved` list.
- Room-wide combat messages become `announcements`.
- Randomness, the database and the password hash are parameters.

Some properties are stated only under conditions the source does not enforce. One is the disjointness of parties: `accept` does not check that the accepter is partyless. Where that is so, a lemma exhibits the case (`Party.AcceptCanJoinTwoParties`, `Quests.CompleteThenTurnIn`, `Combat.DisconnectSkipsTurn`).

## Model

| member | source | states |
|---|---|---|
| Common.Lower | logic/actions.py:35 | lower-casing keeps the length and maps each character by the ASCII case rule |
| Common.Strip | logic/actions.py:35 | the result has no whitespace at either end |
| Common.Split1 | logic/actions.py:35-40 | `split(None, 1)` gives at most two parts, none for blank input, and the second part is non-empty |
| Common.LowerIdempotent | logic/actions.py:35 | lower-casing twice is lower-casing once |
| Common.StripTrimmed | logic/actions.py:35 | a string already trimmed is its own strip |
| Common.NormalisedIsFixed | UI/commands.py:12 | `strip().lower()` is a fixed point of both operations |
| Common.RemoveFirst | server/world_manager.py:102-103 | `list.remove` of a present element shortens the list by one and leaves an absent one untouched |
| Common.RemoveFirstSplit | server/world_manager.py:102-103 | `list.remove` cuts out exactly the first occurrence |
| Common.IndexOf | logic/combat.py:463 | `list.index` finds the first occurrence |
| Common.Join | UI/tab_completion.py:97 | joining no parts is empty and one part is that part |
| Common.DictOrderSet | logic/party.py:101-108 | assigning a dict key keeps the insertion order a list of every key once; a new key goes last |
| Common.DictOrderDelete | logic/party.py:140-156 | deleting a key removes it from the insertion order |
| Common.RemoveFirstKeepsDistinct | logic/party.py:140 | removing from a duplicate-free list removes exactly that element |
| Common.KeepLast | UI/commands.py:67-70 | `s[-n:]` keeps a short log whole and otherwise its last n entries |
| Common.KeepLastRecent | UI/commands.py:67-70 | the trimmed log has min(n, len) entries and they are the suffix of the log |
| Common.KeepLastAppend | UI/in_game_ui/gameUI.py:114-117 | trimming after every append keeps the same entries as trimming once at the end |
| GameObjects.UidGenerator.Fresh | Objects/game_object.py:33 | each uid handed out was never issued before |
| GameObjects.GameObject.constructor | Objects/game_object.py:32-36 | a new object has a fresh uid, no tags and no properties |
| GameObjects.GameObject.Get | Objects/game_object.py:40-42 | the stored value for a present key, else the default |
| GameObjects.GameObject.SetProp | Objects/game_object.py:44-46 | the key maps to the value and every other key keeps its value |
| GameObjects.GameObject.RemoveProp | Objects/game_object.py:52-54 | the key is gone, every other key keeps its value, and an absent key is no error |
| GameObjects.GameObject.AddTag | Objects/game_object.py:58-60 | the tag set gains the tag |
| GameObjects.GameObject.RemoveTag | Objects/game_object.py:66-68 | the tag is gone, and removing an absent tag changes nothing |
| GameObjects.EqualsConsistentWithHash | Objects/game_object.py:83-91 | uid equality is symmetric and equal objects hash equally |
| GameObjects.GetAfterSet | Objects/game_object.py:40-46 | a get after a set returns the set value and other keys are unaffected |
| GameObjects.FreshObjectsDiffer | Objects/game_object.py:32-36 | two objects created from one generator are never equal |
| Rooms.OppositeInvolution | Objects/Rooms/room.py:37-46 | OPPOSITE is an involution with no fixed point |
| Rooms.DirVectorOpposite | Objects/Rooms/room.py:50-59 | opposite directions have negated unit vectors, never zero |
| Rooms.DirVectorInjective | Objects/Rooms/room.py:50-59 | distinct directions have distinct vectors |
| Rooms.Room.constructor | Objects/Rooms/room.py:95-101 | a new room has a fresh uid, no description, no exits and nothing present |
| Rooms.Room.AddConnection | Objects/Rooms/room.py:106-128 | it fails iff the direction is taken here or the opposite one is taken there, and a failure writes nothing; otherwise both rooms gain the paired exits at the end of their exit order, including when a room is linked to itself |
| Rooms.Room.AddItem | Objects/Rooms/room.py:130-132 | the item is appended to the floor list |
| Rooms.Room.AddCharacter | Objects/Rooms/room.py:134-136 | the character is appended to the presence list |
| Rooms.ConnectKeepsSymmetry | Objects/Rooms/room.py:106-128 | connecting two rooms of a symmetric exit graph keeps it symmetric, and on success the exit leads to the target |
| Characters.ClassFromName | Objects/Characters/character.py:39-42 | looking up a class option by name is the inverse of its name, and None only for a non-option |
| Characters.StartingStatsExamples | Objects/Characters/character.py:87-113 | a human warrior starts at 120 hp, 110 stamina and 15 attack, a mage at 90, 105 and 8; every class starts with positive hp and stamina |
| Characters.Character.constructor | Objects/Characters/character.py:62-85 | current and maximum hp and stamina start equal, with no weapon, not knocked out and no rooms visited |
| Characters.Character.VisitRoom | Objects/Characters/character.py:115-121 | the room is then visited, and visiting again changes nothing |
| Characters.CreateCharacter | Objects/Characters/character.py:87-113 | base stats plus the class and race modifiers, the race's size and an empty inventory |
| World.RoomNoticesExact | server/world_manager.py:142-146 | a broadcast reaches exactly the sessions in the room except the excluded one, once each, with the same message |
| World.ReachableStep | server/world_manager.py:57-69 | a room one exit beyond a reachable room is reachable |
| World.ClosedHoldsReachable | server/world_manager.py:57-69 | a set that holds the start and is closed under exits holds every reachable room |
| World.EnqueueExits | server/world_manager.py:65-69 | the queue grows only by unvisited exits of the room, and every exit is then visited or queued |
| World.BfsSkip | server/world_manager.py:61-63 | skipping an already-visited queue head keeps the walk invariant |
| World.BfsVisit | server/world_manager.py:64-69 | filing a new room and queueing its exits keeps the walk invariant |
| World.BfsRooms | server/world_manager.py:57-69 | every room reachable from the start is filed under its uid, and only reachable rooms are filed |
| World.WorldManager.constructor | server/world_manager.py:37-40 | the registry starts empty |
| World.WorldManager.CollectRooms | server/world_manager.py:57-69 | every reachable room is filed and entries for other uids are kept |
| World.WorldManager.BroadcastToRoom | server/world_manager.py:142-146 | one callback per other session in the room, in session order |
| World.WorldManager.Join | server/world_manager.py:73-93 | binds the session (a new id goes last in dict order), lists the player in the room, tells the others there |
| World.WorldManager.Leave | server/world_manager.py:95-112 | an unknown id changes nothing, in no room; otherwise the session goes, the player leaves its room's list and no other room's, the room is told and hp and stamina are saved; every remaining session stays listed in its room |
| World.WorldManager.MovePlayer | server/world_manager.py:114-138 | without a session nothing happens, in no room; otherwise the player moves between the two presence lists and no other room's list changes, the session is rebound, and both rooms are told; moving into the same room re-appends the player |
| World.WorldManager.LeaveRoom | server/world_manager.py:122-129 | the player leaves its room's list and the room is told; every other session stays listed |
| World.WorldManager.EnterRoom | server/world_manager.py:131-138 | the player joins the target's list, the session is rebound, the target room is told |
| World.WorldManager.PickupItem | server/world_manager.py:150-162 | an item not on the floor gives False; otherwise it leaves the floor and, with a session, joins the inventory with a broadcast; without one the KeyError comes after the item has left the floor |
| World.WorldManager.DropItem | server/world_manager.py:164-176 | succeeds iff there is a session and the item is carried; the item then moves from the inventory to the end of the floor list |
| World.WorldManager.GetPlayersInRoom | server/world_manager.py:178-180 | a copy of the room's presence list |
| Party.LeaderOf | logic/party.py:33-38 | the first leader in dict order whose list holds the character; None iff no list holds it |
| Party.LeaderOfNone | logic/party.py:33-38 | no leader means the character is in no member list |
| Party.PartyOfHoldsSelf | logic/party.py:40-45 | every character is in its own member list; a partyless one is alone |
| Party.PartyOfShared | logic/party.py:40-45 | in disjoint parties every member sees the same leader and list |
| Party.LeaderUnique | logic/party.py:33-38 | in disjoint parties the leader found is the only list that holds the character |
| Party.InRoomExact | logic/party.py:47-55 | exactly the members whose session is in the room are kept |
| Party.MemberNoticesExact | logic/party.py:159-164 | exactly the online members other than the skipped one are told, once each |
| Party.MemberLinesExact | logic/party.py:168-180 | one line per member, in order |
| Party.LeaveKeepsValid | logic/party.py:130-156 | after a leave the dict order stays valid and no party exceeds the cap |
| Party.MemberLeaveDisjoint | logic/party.py:140-156 | a non-leader leaving keeps the parties disjoint and leaves it partyless |
| Party.DisbandDisjoint | logic/party.py:152-154 | disbanding keeps the rest disjoint and leaves its members partyless |
| Party.HandOverDisjoint | logic/party.py:144-150 | a leader leaving a party of three or more hands it to the next member and stays disjoint |
| Party.LeaveKeepsDisjoint | logic/party.py:130-166 | a leave keeps disjoint parties disjoint and the leaver in no list |
| Party.PartylessNoLeader | logic/party.py:33-38 | a character in no list has no leader |
| Party.LeaveNotifiesRest | logic/party.py:159-164 | the party looked up after a leave is the old list without the leaver |
| Party.MemberLeaveNotifies | logic/party.py:159-164 | when a member leaves, the leader's list afterwards is the old list without the leaver |
| Party.LeaderLeaveNotifies | logic/party.py:159-164 | when a leader leaves, the next member's list afterwards is the old list without the leader |
| Party.LeaderHandsOver | logic/party.py:144-150 | the old leader's key goes and the next member leads the rest, in order |
| Party.AcceptStateCases | logic/party.py:100-108 | a partyless inviter founds a party of two; otherwise the accepter is appended unless the party is full |
| Party.AcceptKeepsValid | logic/party.py:88-116 | the cap holds after accept, and the accepter is in the inviter's party iff it was already there or the party had room |
| Party.AcceptKeepsDisjoint | logic/party.py:88-116 | accept keeps parties disjoint when the accepter was partyless and is not its own inviter |
| Party.AcceptCanJoinTwoParties | logic/party.py:88-116 | a leader who accepts another invite ends up in two lists, because accept does not re-check |
| Party.NotifyMembers | logic/party.py:159-164 | one callback per online member except the skipped one, in list order |
| Party.PartyManager.constructor | logic/party.py:27-31 | no parties and no invites |
| Party.PartyManager.FindPartyLeader | logic/party.py:33-38 | the loop returns LeaderOf |
| Party.PartyManager.GetPartyMembers | logic/party.py:40-45 | a copy of the leader's list, or just the character |
| Party.PartyManager.GetPartyMembersInRoom | logic/party.py:47-55 | exactly the members whose session is in the room, in list order |
| Party.PartyManager.Invite | logic/party.py:57-86 | the checks in source order: offline, other room, already in a party, inviter's party full, invite pending; only when all pass is the invite recorded and the invitee told |
| Party.PartyManager.Accept | logic/party.py:88-116 | the invite is always consumed; no invite and an offline player change nothing else; otherwise the party dicts become AcceptState, with the join message or the full message; disjointness is kept under the stated condition |
| Party.PartyManager.JoinInviterParty | logic/party.py:99-116 | the dicts become AcceptState, and the other online members are told unless the party is full |
| Party.PartyManager.Decline | logic/party.py:118-128 | the invite is consumed, and the inviter is told only when both are online |
| Party.PartyManager.LeaveParty | logic/party.py:130-166 | the dicts become LeaveState; a promoted leader is told first, then the remaining members |
| Party.PartyManager.DropFromParty | logic/party.py:140-156 | the leaver is removed from its leader's list, and the party is re-keyed, disbanded or kept |
| Party.PartyManager.ShowParty | logic/party.py:168-180 | a header, then one line per member with the leader marked; otherwise "not in a party" |
| Party.PartyManager.RemovePlayer | logic/party.py:182-188 | a partyless character changes nothing; otherwise its invite is dropped and it leaves its party with the notices of leave_party (a promotion, then the remaining members told) |
| Combat.ActiveAt | logic/combat.py:68-69 | the positions of the standing combatants, in list order |
| Combat.ActiveExact | logic/combat.py:68-69 | a position is listed iff its combatant is not knocked out |
| Combat.CurrentAt | logic/combat.py:59-66 | the current combatant is standing; None iff nobody stands; otherwise it is active[index mod count] |
| Combat.CurrentCombatant | logic/combat.py:59-66 | the combatant at CurrentAt |
| Combat.EnemyAt | logic/combat.py:71-72 | the positions of the standing combatants of the other teams |
| Combat.EnemiesExact | logic/combat.py:71-72 | a position is an enemy iff it stands and is on another team |
| Combat.IsOverIff | logic/combat.py:74-80 | the fight is over iff all standing combatants are on one team |
| Combat.NotOverHasCurrent | logic/combat.py:59-80 | a fight that is not over has a current combatant |
| Combat.DamageBounds | logic/combat.py:248-265 | a miss does 0 damage; a hit does at least 1 and lies within the attack ± 2 |
| Combat.DefendingHalves | logic/combat.py:262-263 | defending halves damage, rounded down but at least 1, never more than the damage without defending |
| Combat.Rolled | logic/combat.py:236-241 | every combatant's initiative is its roll plus a tenth of its stamina, and its identity, team and flags are kept |
| Combat.InsertDescContents | logic/combat.py:242 | insertion keeps the entries as a multiset |
| Combat.InsertDescSorted | logic/combat.py:242 | inserting into a descending list keeps it descending |
| Combat.SortDescSorted | logic/combat.py:242 | the stable sort by initiative is descending and a permutation |
| Combat.SortDescMembers | logic/combat.py:242 | sorting keeps the set of characters |
| Combat.InsertDescStable | logic/combat.py:242 | inserting into a descending list puts the new combatant behind every combatant with the same initiative |
| Combat.SortDescStable | logic/combat.py:242 | the sort is stable: for every initiative value, the combatants with it keep their relative order |
| Combat.FirstNamed | logic/combat.py:277-289 | the first enemy with the given name, compared ignoring case |
| Combat.DefenderAt | logic/combat.py:277-289 | the defender is a standing enemy; a named target matches by name; with no name, None iff there are no enemies |
| Combat.RecruitsExact | logic/combat.py:116-131 | exactly the ids with a session and not already fighting are recruited, in order |
| Combat.SessionOf | logic/combat.py:137-143 | the first session, in dict order, whose player is the target |
| Combat.NpcId | logic/combat.py:166 | the NPC id is a non-negative value below 2^31 |
| Combat.SideIds | logic/combat.py:115-118 | a side is the leader and the party members in the room, with the leader always among them |
| Combat.TargetRefusalCases | logic/combat.py:133-146 | "Target not found." exactly when a player target has no session; otherwise the busy message when its session is already fighting; no refusal for an NPC target or a free player |
| Combat.RecruitsSide | logic/combat.py:120-131 | each recruit is a player of the team drawn from the side, and each connected side member not yet fighting is recruited with its session's character |
| Combat.TeamsSides | logic/combat.py:114-173 | team 0 holds only players from the attacker's side, and every eligible one; for a player target team 1 holds only players from the target's side, every eligible one, the target among them; for an NPC target team 1 is the NPC alone, last in the list; there is no other team |
| Combat.RegisteredExact | logic/combat.py:182-183 | after registering, every combatant's id maps to the instance and other entries are kept |
| Combat.ActionAliases | logic/combat.py:223-232 | the action words and their one-letter aliases choose attack, defend or flee |
| Combat.FirstWithId | logic/combat.py:516-533 | the first combatant with the id |
| Combat.OutcomeNamesAllStanding | logic/combat.py:472-494 | the victory message names exactly the standing combatants |
| Combat.ActiveRemoveFirst | logic/combat.py:458-470 | removing a combatant removes its position from the active list |
| Combat.CurrentIsActive | logic/combat.py:59-66 | the current combatant is in the active list |
| Combat.ActiveDropsRemoved | logic/combat.py:458-470 | removing a standing combatant shortens the active list by one |
| Combat.RemoveKeepsCurrent | logic/combat.py:458-470 | removing anyone other than the current combatant keeps the current combatant, because the index moves back when needed |
| Combat.DisconnectActive | logic/combat.py:516-533 | after a disconnect the active list is the old one without the leaver |
| Combat.DisconnectSkipsTurn | logic/combat.py:516-533 | the leaver is marked knocked out before removal, so the index is not moved back and a player after it loses their turn |
| Combat.AdvanceSteps | logic/combat.py:380-397 | advancing moves to the next active combatant, and wrapping to 0 counts a new round |
| Combat.RevivedStands | logic/combat.py:496-514 | a revived combatant stands again and the active list grows by one |
| Combat.NpcAlwaysFindsTarget | logic/combat.py:371-378 | an NPC's randomly chosen enemy is always found again by name |
| Combat.Ended | logic/combat.py:472-494 | ending keeps the list, index, round and recoveries, cancels the timer and unregisters every combatant |
| Combat.ConcludedKeeps | logic/combat.py:324-329 | the closing check keeps the list and the recoveries; an over fight is ended with every combatant unregistered; otherwise the turn goes to a standing combatant and the registry is kept |
| Combat.StrikeHp | logic/combat.py:291-314 | a miss changes no hit points; a hit that does not knock out leaves between 0 and the old hit points, both exclusive; a knockout leaves 0, or 1 for a player restored at once without an event loop; the knocked-out flag changes only on a knockout |
| Combat.StruckEntries | logic/combat.py:291-320 | a strike changes at most two entries: the attacker, who stops defending, and the defender, knocked out exactly when its hit points run out; index, round, timer and registry are kept |
| Combat.AttackTarget | logic/combat.py:271-289 | the entry an attack strikes is a standing enemy of the attacker |
| Combat.TurnStrike | logic/combat.py:224-232 | only an attack strikes anyone, and only a standing enemy |
| Combat.RefusedTurnKeepsFight | logic/combat.py:216-232 | an unknown action word, or an attack naming no standing enemy while enemies remain, only cancels the timer |
| Combat.CombatInstance.constructor | logic/combat.py:49-56 | no combatants, index 0, round 1, no timer |
| Combat.CombatManager.constructor | logic/combat.py:86-88 | no fights registered |
| Combat.CombatManager.EndCombat | logic/combat.py:472-494 | the timer is cancelled, the outcome is announced and every combatant is unregistered |
| Combat.CombatManager.RollInitiative | logic/combat.py:236-242 | the combatants become the stable descending sort of the rolled initiatives |
| Combat.CombatManager.Recruit | logic/combat.py:116-131 | the loop recruits exactly Recruits |
| Combat.CombatManager.FindSession | logic/combat.py:137-143 | the loop finds SessionOf |
| Combat.CombatManager.Enlist | logic/combat.py:179-183 | the list becomes the stable descending sort of the rolled recruits, keeps every recruit and registers each of them |
| Combat.CombatManager.Register | logic/combat.py:182-183 | every combatant is registered to the instance |
| Combat.CombatManager.Team | logic/combat.py:114-131 | the team is exactly the recruits of the leader's side; the leader is on it when online and free, and every member is online, free, not an NPC and on the team |
| Combat.CombatManager.AssembleTeams | logic/combat.py:114-173 | the refusal is TargetRefusal of the entry state; without one the list is exactly Teams (whose sides TeamsSides states), the attacker is on it, and everyone on it can be enlisted |
| Combat.CombatManager.StartCombat | logic/combat.py:93-200 | the refusals come in source order and register nobody: no session, already fighting, then TargetRefusal, then fewer than two in Teams; on success every combatant is registered to a fresh instance, at least two of them, the fighters being the stable initiative sort of the rolled Teams with the attacker among them, and the start, the turn order and the first turn are announced |
| Combat.CombatManager.Engage | logic/combat.py:112-200 | a target refusal is returned and changes nothing; otherwise the teams are Teams of the entry state and Begin follows |
| Combat.CombatManager.Begin | logic/combat.py:175-200 | fewer than two recruits cannot start and change nothing; otherwise a fresh instance holds the sorted rolled recruits, each registered to it, at index 0 of round 1, and the start, the turn order and the first turn are announced |
| Combat.CombatManager.Launch | logic/combat.py:179-198 | the list becomes the stable descending sort of the rolled recruits, each registered to the instance; the start, the turn order and the first turn are announced |
| Combat.CombatManager.StartTurn | logic/combat.py:399-421 | with nobody standing the fight ends and everyone is unregistered; for a player the prompt goes to its session and its timer is armed; for an NPC it stops (see Left out) |
| Combat.CombatManager.StartTimer | logic/combat.py:423-436 | the timer is armed for the character only when an event loop runs |
| Combat.CombatManager.MoveTurn | logic/combat.py:387-395 | the index moves, and a wrap to 0 counts and announces a new round |
| Combat.CombatManager.AdvanceTurn | logic/combat.py:380-397 | the index, round, timer, registry and notices become those of AdvanceSteps |
| Combat.CombatManager.Conclude | logic/combat.py:324-329 | the fight becomes Concluded of the old one: ended when over, otherwise the turn passes on |
| Combat.CombatManager.StartKnockoutRecovery | logic/combat.py:496-514 | with an event loop a recovery is queued; without one the character is at 1 hp at once |
| Combat.CombatManager.Strike | logic/combat.py:291-318 | the fight becomes Struck of the old one; the defender's hit points and knocked-out flag become HpAfterStrike and KnockedOutAfterStrike (see StrikeHp); no other character changes |
| Combat.CombatManager.HandleAttack | logic/combat.py:267-329 | the reply is AttackReply and the fight becomes Attacked of the old one: no enemies ends the fight, an unknown name changes nothing, otherwise the strike and the closing check; only the struck defender's character changes |
| Combat.CombatManager.HandleDefend | logic/combat.py:331-344 | the fight becomes Defended of the old one: the combatant defends, the room is told, then the closing check |
| Combat.CombatManager.HandleFlee | logic/combat.py:346-369 | "You escaped!" exactly on an escape; the fight becomes Fled of the old one: an escape removes the combatant and its registry entry, then the closing check; a failure stops it defending and passes the turn |
| Combat.CombatManager.RemoveCombatant | logic/combat.py:458-470 | the combatant leaves the list and the registry, and the index moves back when it stood before the index |
| Combat.CombatManager.HandleCombatInput | logic/combat.py:202-232 | a character not fighting, or whose turn it is not, is told so and nothing changes; otherwise the reply is TurnReply and the fight becomes TurnTaken of the parsed input, with only the struck defender's character changed |
| Combat.CombatManager.TakeTurn | logic/combat.py:216-232 | the reply is TurnReply and the fight becomes TurnTaken: the timer is cancelled, then the action; only the struck defender's character changes |
| Combat.CombatManager.Act | logic/combat.py:224-232 | the fight becomes Acted of the old one: attack, defend and flee as their handlers, an unknown word lists the actions and changes nothing; only the struck defender's character changes |
| Combat.CombatManager.NpcTakeTurn | logic/combat.py:371-378 | the fight becomes NpcTurn of the old one: with enemies the NPC always finds the chosen one and attacks it, and only that defender's character changes; without enemies nothing happens |
| Combat.CombatManager.TurnTimeout | logic/combat.py:444-456 | a stale timer does nothing; otherwise the player is told, the room sees it hesitate, defending stops, and the turn passes |
| Combat.CombatManager.Hesitate | logic/combat.py:448-455 | defending stops, and the player (if online) and the room are told |
| Combat.CombatManager.RemovePlayer | logic/combat.py:516-533 | the leaver is marked knocked out and removed with the index left alone; the room is told; the fight ends if it is over |
| Combat.CombatManager.Recover | logic/combat.py:499-506 | hp 1, no longer knocked out, the combatant stands again in the list, and a connected player is told |
| Actions.DirectionNamedInverse | logic/actions.py:27 | the direction-name table inverts the direction names |
| Actions.FirstExitNamed | logic/actions.py:99-112 | the first exit, in insertion order, to a room with the name |
| Actions.FirstItemNamed | logic/actions.py:81-96 | the first floor item with the name |
| Actions.FirstExitTo | logic/actions.py:155-160 | the first exit leading to the room |
| Actions.FirstExitNamedMisses | logic/actions.py:99-112 | the search misses only when no exit matches |
| Actions.FirstExitToMisses | logic/actions.py:155-160 | the search for an exit into a room misses only when no exit leads there |
| Actions.ResolveMoveTarget | logic/actions.py:99-112 | a direction name wins, then a room name, else the text stays unresolved |
| Actions.ResolveMoveTargetCases | logic/actions.py:99-112 | the target is unresolved iff neither a direction nor a room name matches |
| Actions.ResolveLookTarget | logic/actions.py:81-96 | an empty target is the room itself; items are searched before neighbouring rooms |
| Actions.ResolveLookTargetOrder | logic/actions.py:81-96 | an item wins over a room of the same name |
| Actions.Keyword | logic/actions.py:45-52 | the keywords map to their actions and never to Move |
| Actions.ParseLine | logic/actions.py:30-61 | Look and Move get exactly one input; Move gets a room or an unresolved text |
| Actions.Parse | logic/actions.py:30-61 | the parse of the stripped, lower-cased line: Look and Move get exactly one input, other actions none, and a room target is one exit away |
| Actions.ParseBlank | logic/actions.py:35-37 | blank input looks at the current room |
| Actions.ParseNormalised | logic/actions.py:35 | parsing ignores case and surrounding blanks |
| Actions.ParseKeywords | logic/actions.py:42-52 | a keyword alone is its action; look alone looks at the current room, the others take no inputs |
| Actions.ParseMoveArg | logic/actions.py:54-56 | "move x" resolves x as a move target |
| Actions.ParseOther | logic/actions.py:58-61 | any other line, a bare `move` included, is a move whose target is the whole line |
| Actions.ParseBareMove | logic/actions.py:54-61 | a bare `move` has no argument, so the word itself is resolved as a target |
| Actions.RoomLook | logic/actions.py:124-129 | the long description, else the short one, else nothing |
| Actions.ExecLook | logic/actions.py:120-142 | a room shows RoomLook, an item its name, an unresolved target "not seen"; no move |
| Actions.ExecMove | logic/actions.py:145-169 | only a room target moves, and it is looked at after at most one announcement line; no input asks where, anything else is an unknown command |
| Actions.ExecMoveAnnounces | logic/actions.py:155-161 | a move is announced exactly when the search finds an exit into the target, and the announcement names that first exit's direction and the target |
| Actions.MoveAnnouncedIffExit | logic/actions.py:155-161 | a move announces a direction exactly when an exit of the current room leads to the target |
| Actions.ExecInventory | logic/actions.py:172-180 | one line per floor item, or "Nothing here." |
| Actions.ItemLines | logic/actions.py:177-179 | one line per item, in order |
| Actions.ExitList | logic/actions.py:187-188 | the exit names joined in insertion order |
| Actions.ExecHelp | logic/actions.py:183-190 | the help text, then the exits when there are any |
| Actions.ExecQuit | logic/actions.py:193-194 | sets the quit flag |
| Actions.Execute | logic/actions.py:64-73 | quit iff the action is Quit; only Move changes the room |
| Actions.DirectionMovesThere | logic/actions.py:54-61 | typing a direction that has an exit moves through that exit |
| Actions.DirectionParses | logic/actions.py:59-61 | a direction word parses to a move to the room behind that exit |
| Actions.MoveDirectionMovesThere | logic/actions.py:54-56 | "move <direction>" moves through that exit |
| Actions.UnresolvedMoveStays | logic/actions.py:145-169 | an unresolved move leaves the room unchanged |
| Commands.GoEffect | UI/commands.py:30-39 | moves to the first exit whose room name matches ignoring case, announcing and looking; otherwise "unknown command" |
| Commands.ScreenHelp | UI/commands.py:59-64 | the screen's command summary first, then the exits exactly when the room has any |
| Commands.ScreenHelpMatchesExecHelp | UI/commands.py:59-64 | the screen's help lists the same exits as the action handler's, under a different command summary |
| Commands.CommandEffect | UI/commands.py:11-27 | stops iff the word is quit or exit, and moves only to a neighbour |
| Commands.CommandCases | UI/commands.py:11-27 | only an unrecognised word moves; inventory in an empty room says "Nothing here." alone; quit logs nothing; help starts with the screen's command summary |
| Commands.LookNormalised | UI/game_ui.py:33 | "look" is the look command after normalising |
| Commands.GameUI.constructor | UI/game_ui.py:26-33 | the log holds the welcome line and then a look at the start room |
| Commands.GameUI.Record | UI/commands.py:36 | appends one line to the log |
| Commands.GameUI.Dispatch | UI/commands.py:11-27 | a blank line does nothing, not even trimming; otherwise the command's effect, then the log is trimmed to the last 50 lines of everything logged |
| Commands.GameUI.RunCommand | UI/commands.py:16-26 | the command's messages, move and stop flag, as CommandEffect says |
| Commands.GameUI.Go | UI/commands.py:30-39 | the loop realises GoEffect |
| Commands.GameUI.Look | UI/commands.py:42-47 | logs RoomLook |
| Commands.GameUI.Inventory | UI/commands.py:50-56 | logs the inventory lines |
| Commands.GameUI.Help | UI/commands.py:59-64 | logs ScreenHelp: the screen's own command summary, then the exits when there are any |
| Commands.GameUI.TrimHistory | UI/commands.py:67-70 | keeps the last 50 lines |
| GameScreen.ScrolledUp | UI/in_game_ui/gameUI.py:121-124 | one line further back, never past the oldest line |
| GameScreen.ScrolledDown | UI/in_game_ui/gameUI.py:126-128 | one line nearer the newest, never below 0 |
| GameScreen.ScrollUpThenDown | UI/in_game_ui/gameUI.py:121-128 | scrolling up then down returns to the same offset, unless already at the oldest line |
| GameScreen.ScrollUpRepeatedly | UI/in_game_ui/gameUI.py:121-124 | k presses go k lines back, stopping at the oldest line |
| GameScreen.GameUI.constructor | UI/in_game_ui/gameUI.py:71-80 | the welcome line in the event log, the rest empty |
| GameScreen.GameUI.ReceiveEvent | UI/in_game_ui/gameUI.py:95-97 | the event is appended to the event log |
| GameScreen.GameUI.ReceiveChat | UI/in_game_ui/gameUI.py:99-101 | the chat line is appended |
| GameScreen.GameUI.AppendCurrentEvents | UI/in_game_ui/gameUI.py:109-119 | a separator when the panel was not empty, the messages, a history of the last 100 of everything appended, offset 0 |
| GameScreen.GameUI.ScrollEventsUp | UI/in_game_ui/gameUI.py:121-124 | the offset becomes ScrolledUp and stays within the history |
| GameScreen.GameUI.ScrollEventsDown | UI/in_game_ui/gameUI.py:126-128 | the offset becomes ScrolledDown and stays within the history |
| LoginScreen.MenuNext | UI/login_ui.py:70-82 | the menu step keeps the screen invariant |
| LoginScreen.LoginUsernameNext | UI/login_ui.py:86-89 | the login-name step keeps the invariant |
| LoginScreen.LoginPasswordNext | UI/login_ui.py:91-102 | the password step keeps the invariant; the account is looked up under the NOCASE-folded name |
| LoginScreen.RegisterUsernameNext | UI/login_ui.py:106-122 | the registration-name step keeps the invariant; the taken check uses the NOCASE-folded name |
| LoginScreen.AccountFoundAnyCase | server/database.py:78-85 | in a table keyed by the folded name, `get_account` finds an account exactly under the spellings that fold to its name (`UNIQUE COLLATE NOCASE`, server/database.py:24) |
| LoginScreen.RegisterRefusesCaseVariant | UI/login_ui.py:106-122 | a name differing only in letter case from a registered one is refused as taken |
| LoginScreen.LoginAnyCase | UI/login_ui.py:91-102 | login under any case variant of an account's name signs in to that account exactly when the password verifies |
| LoginScreen.RegisterPasswordNext | UI/login_ui.py:124-130 | the registration-password step keeps the invariant |
| LoginScreen.RegisterConfirmNext | UI/login_ui.py:132-149 | the confirmation step keeps the invariant |
| LoginScreen.BlankInputIgnored | UI/login_ui.py:53-56 | blank input changes nothing |
| LoginScreen.MenuChoices | UI/login_ui.py:70-82 | login, register and anything else each lead where the menu says, and anything else shows the hint |
| LoginScreen.LoginFlow | UI/login_ui.py:86-102 | sign-in happens iff an account exists under the name folded as NOCASE folds it and the password verifies; otherwise back to the username step with an error |
| LoginScreen.RegisterUsernameRule | UI/login_ui.py:106-122 | a name is taken iff it is at least 3 characters of `[A-Za-z0-9_]` and no account's name folds to the same text |
| LoginScreen.RegisterPasswordRule | UI/login_ui.py:124-149 | a password needs at least 6 characters; a mismatched confirmation goes back to the password step |
| LoginScreen.NextKeepsInv | UI/login_ui.py:53-68 | every input keeps the screen invariant |
| LoginScreen.RegistrationSignsInChecked | UI/login_ui.py:132-149 | a registration signs in only with a valid name and a confirmed password, under the new account id |
| LoginScreen.RunKeepsInv | UI/login_ui.py:53-68 | any sequence of inputs keeps the invariant |
| LoginScreen.Stars | UI/login_ui.py:218-221 | n asterisks |
| LoginScreen.DisplayBuffer | UI/login_ui.py:218-221 | masked on the password steps, as typed elsewhere, same length |
| LoginScreen.LoginUI.constructor | UI/login_ui.py:41-49 | starts at the menu with empty fields |
| LoginScreen.LoginUI.HandleInput | UI/login_ui.py:53-68 | the fields become Next of the old fields |
| LoginScreen.LoginUI.HandleMenu | UI/login_ui.py:70-82 | the fields become MenuNext |
| LoginScreen.LoginUI.HandleLoginUsername | UI/login_ui.py:86-89 | the fields become LoginUsernameNext |
| LoginScreen.LoginUI.HandleLoginPassword | UI/login_ui.py:91-102 | the fields become LoginPasswordNext |
| LoginScreen.LoginUI.HandleRegisterUsername | UI/login_ui.py:106-122 | the fields become RegisterUsernameNext |
| LoginScreen.LoginUI.HandleRegisterPassword | UI/login_ui.py:124-130 | the fields become RegisterPasswordNext |
| LoginScreen.LoginUI.HandleRegisterConfirm | UI/login_ui.py:132-149 | the fields become RegisterConfirmNext |
| LoginScreen.LoginUI.FinishAuth | UI/login_ui.py:153-156 | signs in with the account |
| CharacterCreationScreen.Created | UI/characterCreation/characterCreation_ui.py:85-135 | a human of the chosen class with base stats plus the class and race modifiers |
| CharacterCreationScreen.NameNext | UI/characterCreation/characterCreation_ui.py:55-61 | the name step establishes the invariant |
| CharacterCreationScreen.ClassNext | UI/characterCreation/characterCreation_ui.py:63-71 | the class step keeps the invariant |
| CharacterCreationScreen.ConfirmNext | UI/characterCreation/characterCreation_ui.py:73-83 | the confirm step keeps the invariant |
| CharacterCreationScreen.NextKeepsInv | UI/characterCreation/characterCreation_ui.py:42-53 | blank input changes nothing and every input keeps the invariant |
| CharacterCreationScreen.NameRule | UI/characterCreation/characterCreation_ui.py:55-61 | a name is taken iff it has at least 2 characters |
| CharacterCreationScreen.ClassRule | UI/characterCreation/characterCreation_ui.py:63-71 | a class is taken iff the text, upper-cased, names one of the four classes |
| CharacterCreationScreen.ConfirmRule | UI/characterCreation/characterCreation_ui.py:73-83 | yes enters the game with the starting stats, no starts over, anything else asks again |
| CharacterCreationScreen.EnteredOnlyConfirmed | UI/characterCreation/characterCreation_ui.py:73-135 | a character enters the game only from the confirm step, with the chosen name and class |
| CharacterCreationScreen.CharacterCreationUI.constructor | UI/characterCreation/characterCreation_ui.py:31-38 | starts at the name step with nothing chosen |
| CharacterCreationScreen.CharacterCreationUI.HandleInput | UI/characterCreation/characterCreation_ui.py:42-53 | the fields become Next of the old fields |
| CharacterCreationScreen.CharacterCreationUI.HandleName | UI/characterCreation/characterCreation_ui.py:55-61 | the fields become NameNext |
| CharacterCreationScreen.CharacterCreationUI.HandleClass | UI/characterCreation/characterCreation_ui.py:63-71 | the fields become ClassNext |
| CharacterCreationScreen.CharacterCreationUI.HandleConfirm | UI/characterCreation/characterCreation_ui.py:73-83 | the fields become ConfirmNext |
| CharacterCreationScreen.CharacterCreationUI.CreateAndEnterGame | UI/characterCreation/characterCreation_ui.py:85-135 | enters the game with Created |
| Quests.StageIndex | Quests/quest.py:29-39 | each stage has its position in the stage list |
| Quests.NextStage | Quests/quest.py:82-87 | the next stage, staying at the last one |
| Quests.StagesAdvance | Quests/quest.py:82-87 | n advances move n stages, stopping at stage 5 |
| Quests.RequiredDone | Quests/quest.py:78-80 | every non-optional objective is complete, which holds vacuously when there are none |
| Quests.TurnInOnce | Quests/quest.py:102-107 | rewards come only from a completed quest, and a second turn-in hands out nothing |
| Quests.CompleteThenTurnIn | Quests/quest.py:93-107 | complete does not look at the status, so a turned-in quest can be completed and rewarded again |
| Quests.Quest.constructor | Quests/quest.py:57-73 | not started, at stage 1, with the given objectives and rewards |
| Quests.Quest.AdvanceStage | Quests/quest.py:82-87 | the stage becomes NextStage |
| Quests.Quest.Start | Quests/quest.py:89-91 | in progress |
| Quests.Quest.Complete | Quests/quest.py:93-96 | completed iff the required objectives are done, otherwise unchanged |
| Quests.Quest.Fail | Quests/quest.py:98-100 | failed |
| Quests.Quest.TurnIn | Quests/quest.py:102-107 | a completed quest becomes turned in and hands out its rewards; any other status hands out nothing |
| Objectives.Advanced | Quests/objective.py:49-54 | the count is clamped at the requirement and is complete iff the unclamped sum reaches it |
| Objectives.Objective.constructor | Quests/objective.py:38-43 | the dataclass fields |
| Objectives.Objective.Advance | Quests/objective.py:49-54 | the count becomes Advanced, and it is complete iff old count plus amount reaches the requirement |
| Objectives.AdvanceRepeatedly | Quests/objective.py:49-54 | required − current unit advances complete the objective |
| Objectives.AdvanceTimes | Quests/objective.py:49-54 | repeated advances stay between the start and the requirement |
| Requirements.MakeRequirement | Quests/requirement.py:21-35 | the dataclass defaults: no target, value 0 |
| Requirements.AnyTurnedIn | Quests/requirement.py:40 | some quest of that name, ignoring case, is turned in |
| Requirements.AnyItemNamed | Quests/requirement.py:46 | some item of that name, ignoring case, is carried |
| Requirements.QuestRequirement | Quests/requirement.py:37-48 | a quest requirement holds iff a quest of that name is turned in; a merely completed quest does not count |
| Requirements.LevelRequirement | Quests/requirement.py:42-43 | a missing level counts as 0, and a higher level keeps the requirement met |
| Requirements.ItemRequirement | Quests/requirement.py:45-46 | holds iff an item of that name is carried |
| Requirements.UnrecognisedRequirement | Quests/requirement.py:48 | any other type never holds |
| Requirements.CheckIgnoresCase | Quests/requirement.py:37-48 | the case of the target does not matter |
| Requirements.ItemRequirementGrows | Quests/requirement.py:45-46 | picking up items keeps an item requirement met |
| TabCompletion.MinLen | UI/tab_completion.py:34 | the length of the shortest candidate |
| TabCompletion.PrefixLen | UI/tab_completion.py:35-42 | the first position where the candidates disagree ignoring case |
| TabCompletion.PrefixLenSpec | UI/tab_completion.py:35-42 | the candidates agree on every position before PrefixLen and not at it |
| TabCompletion.CommonPrefixIsLongest | UI/tab_completion.py:28-43 | the common prefix is, up to case, a prefix of every candidate and the longest one |
| TabCompletion.CommonPrefix | UI/tab_completion.py:28-43 | the loop computes CommonPrefixOf |
| TabCompletion.FirstPress | UI/tab_completion.py:70-89 | the first Tab remembers the state only for several candidates, with the buffer it leaves |
| TabCompletion.LaterPress | UI/tab_completion.py:91-105 | the second Tab lists the candidates (when there is a history); later ones cycle |
| TabCompletion.TabPress | UI/tab_completion.py:46-105 | a stale state is reset; no candidates changes nothing else |
| TabCompletion.FirstPressSingle | UI/tab_completion.py:76-79 | a single candidate replaces the buffer and nothing is remembered |
| TabCompletion.FirstPressMany | UI/tab_completion.py:81-89 | several candidates are remembered; the buffer becomes their common prefix exactly when that prefix is non-empty and differs, ignoring case, from the stripped buffer |
| TabCompletion.SecondPressLists | UI/tab_completion.py:92-97 | the second Tab lists the candidates and leaves the buffer alone |
| TabCompletion.Presses | UI/tab_completion.py:46-105 | repeated presses keep the state valid |
| TabCompletion.PressesCycle | UI/tab_completion.py:98-105 | from the third press on, k presses cycle the buffer through the candidates modulo their number |
| TabCompletion.CompletionView.constructor | UI/viewsClass.py:23-27 | no remembered state |
| TabCompletion.CompletionView.RunCompletion | UI/tab_completion.py:46-105 | the view becomes TabPress of the candidates for the stripped, lower-cased buffer |
| TabCompletion.CompletionView.FirstTab | UI/tab_completion.py:70-89 | the view becomes FirstPress |
| TabCompletion.CompletionView.LaterTab | UI/tab_completion.py:91-105 | the view becomes LaterPress |
| MapRenderer.ExitStepKeeps | UI/map_renderer.py:26-46 | one exit of the inner loop keeps the layout invariant |
| MapRenderer.ExitStepSeen | UI/map_renderer.py:26-46 | after one exit's pass, that exit is seen: the neighbour is placed and its edge recorded, unless its step is out of range or another room holds it; nothing placed moves and no edge is lost |
| MapRenderer.ExpandRoom | UI/map_renderer.py:26-46 | expanding a room's exits keeps the layout invariant and only extends the walk |
| MapRenderer.ExpandStep | UI/map_renderer.py:26-46 | one pass of the exit loop keeps its invariant |
| MapRenderer.VisitHead | UI/map_renderer.py:22-46 | one pass of the queue loop keeps the invariant and makes progress |
| MapRenderer.WalkBound | UI/map_renderer.py:14-48 | at most 25 rooms are ever visited |
| MapRenderer.LayoutWalk | UI/map_renderer.py:14-48 | the current room at (0,0); every position within ±2; no position shared; every other room one step from an expanded parent; every edge joins an expanded room and its neighbour; every expanded self-exit leaves a one-position edge; and every exit of every expanded room is seen, so a neighbour whose step is in range and not held by another room is placed with its edge |
| MapRenderer.PlaceableNeighbourPlaced | UI/map_renderer.py:26-46 | in a finished layout, an expanded room's exit whose step is in range and held by no other room leads to a placed room joined to it by an edge |
| MapRenderer.PlacedReachable | UI/map_renderer.py:14-48 | a placed room is reached in exactly its depth in hops, no deeper than the limit, and lies within that many steps |
| MapRenderer.GridPos | UI/map_renderer.py:51-54 | the box of an in-range position fits the 30 × 19 grid |
| MapRenderer.Prefix2 | UI/map_renderer.py:60 | at most the first two characters of the label |
| MapRenderer.BoxesDisjoint | UI/map_renderer.py:51-65 | boxes of distinct positions share no cell |
| MapRenderer.PlaceBox | UI/map_renderer.py:57-65 | writes the 3 × 4 box and keeps every other cell |
| MapRenderer.PathMarkDrawn | UI/map_renderer.py:68-89 | a path is drawn iff the positions are distinct and one step apart |
| MapRenderer.PathMarkPlaced | UI/map_renderer.py:68-89 | a path cell lies on the grid and outside every box |
| MapRenderer.PathMarkReversed | UI/map_renderer.py:68-89 | a straight path is the same from either end, and a diagonal shifts one column |
| MapRenderer.PathMarkCell | UI/map_renderer.py:68-89 | the cell of a straight path determines its glyph |
| MapRenderer.StraightMarksKept | UI/map_renderer.py:68-89 | only crossing diagonals can overwrite each other |
| MapRenderer.DrawPath | UI/map_renderer.py:68-89 | writes the one path cell and keeps the rest |
| MapRenderer.PlaceBoxes | UI/map_renderer.py:98-103 | every room's box is drawn and every other cell is blank |
| MapRenderer.DrawPaths | UI/map_renderer.py:105-107 | fails iff some edge is not a pair; otherwise only path cells of the edges change and every straight path stays drawn |
| MapRenderer.SelfLoopEdges | UI/map_renderer.py:105-107 | some edge fails to be a pair iff an expanded room has an exit to itself |
| MapRenderer.EdgesInRange | UI/map_renderer.py:105-107 | both ends of every edge are in range |
| MapRenderer.MarksOutsideBoxes | UI/map_renderer.py:98-107 | no path mark falls inside a box |
| MapRenderer.DrawMap | UI/map_renderer.py:97-107 | succeeds iff every edge is a pair, and then draws the boxes and the paths |
| MapRenderer.MakeMap | UI/map_renderer.py:92-115 | no map iff an expanded room has an exit to itself (unpacking its one-element edge raises); the layout is LayoutWalk's for depth 2, including every exit of an expanded room being seen; otherwise every box and every path is drawn |

## Left out

- `WorldManager.load_world` (server/world_manager.py:44-55) imports the area module that builds the rooms. That module is not part of this model. `CollectRooms` models its walk from any closed set of rooms.
- Objects/room.py is an older copy of the room class, without the player presence list. Its `Direction`, `OPPOSITE`, `add_connection`, `add_item` and `add_character` behave like those of Objects/Rooms/room.py. logic/actions.py and UI/map_renderer.py import Objects/room.py, server/world_manager.py imports Objects/Rooms/room.py; `Rooms.Room` stands for both copies.
- Timers and the asyncio event loop are state. `timer` is the pending turn timeout, `recoveries` the scheduled knockout recoveries and `eventLoop` whether a loop runs. Timeouts and recoveries are fired by calling `TurnTimeout` and `Recover`. Real time is not modelled.
- Randomness is passed as parameters:
  - the initiative roll;
  - the damage variance;
  - the flee outcome;
  - the NPC's target choice;
  - the hit outcome, in place of the floating-point hit chance.
- `uuid4` values are natural numbers from a generator that never repeats. The Python string hash behind the NPC id is a parameter.
- Combat.CombatManager.StartTurn: stops when the current combatant is an NPC. The source runs the NPC's attack at once inside `_start_turn`, and that attack can pass the turn to the next NPC, and so on. The model makes that attack the separate operation `NpcTakeTurn`, which the caller runs next. The whole chain is not one step, because whether it ends depends on the random outcomes.
- The database and the password checks are parameters: the account table, the password verifier, and the ids `create_account` and `create_character_record` return. The account table is a map keyed by the username as `COLLATE NOCASE` folds it (ASCII letters only).
- Strings:
  - `str.lower` and `str.upper` are modelled for ASCII only; `str.strip` and `str.split` use the whitespace set of `str.isspace`.
  - Messages are typed values, or strings without Rich markup where the source's exact text matters.
  - The `YourTurn` prompt of `_start_turn` carries the enemies' names only; the source also shows each enemy's hit points and sends a second line listing the actions.
  - Panels, layouts and colours are not modelled.
- Combatants are values inside the instance's list. Object identity is replaced by value equality. The stable sort by initiative is modelled by insertion.
- `CompletionState` is a value. The view's `_get_tab_candidates` is a parameter of `RunCompletion`.
- Map rendering:
  - the order in which the boxes and edges are drawn is abstract, since Python iterates dicts and sets;
  - the Rich panel wrapping the grid is not modelled.
- The login screen's quit choice calls a method the screen does not have. It is not modelled and leaves the fields unchanged.
- The in-game screen's own `_handle_input`, command dispatch, `_get_tab_candidates` and layout are not modelled. `MAX_HISTORY` (60) is declared there but never used.
- `GameUI.__init__` in UI/game_ui.py joins no world. It is modelled with a look at the start room.
- Character creation saves a record through the database and builds a `PlayerCharacter` from it. The model keeps the record as `NewCharacter`.
- `Requirement.check` reads the player's level, quests and inventory, which are passed in as parameters.
- Quests/reward.py only declares the `Reward` record. It has no operations.
- Actions.ExecLook: an item target shows only its name, because `Item` has no description attribute and the description branch of `_exec_look` can never run for it.
- Python's negative list indexing and integer overflow do not arise in the modelled code and are not modelled.
