/** The turn-based combat system (logic/combat.py): a CombatInstance holds
    the combatants of two teams in initiative order; the CombatManager maps
    every fighting character to its instance and runs attacks, defending,
    fleeing, turn timers and knockout recovery.

    Randomness is supplied by the caller: the initiative rolls, whether an
    attack hits and its damage variance, whether a flight succeeds, and the
    enemy an NPC picks.  Room broadcasts and private callbacks are recorded
    as typed announcements in `CombatManager.announcements`.  A pending
    asyncio timer is `CombatInstance.timer`; the timeout and the knockout
    recovery are operations the environment invokes. */
module Combat {
  import opened Common
  import opened Characters
  import opened Rooms
  import opened World
  import Party

  const TURN_TIMEOUT_SECONDS: int := 30
  const KNOCKOUT_RECOVERY_SECONDS: int := 60

  /** One participant.  The Python dataclass is mutated in place; here it
      is a value stored in its instance's list and replaced on update. */
  datatype Combatant = Combatant(characterId: CharId, character: Character, team: int,
                                 isDefending: bool, isKnockedOut: bool, isNpc: bool,
                                 initiative: int)

  function NewCombatant(id: CharId, ch: Character, team: int, npc: bool): Combatant {
    Combatant(id, ch, team, false, false, npc, 0)
  }

  function Ids(cs: seq<Combatant>): set<CharId> {
    set c | c in cs :: c.characterId
  }

  function CharactersOf(cs: seq<Combatant>): set<Character> {
    set c | c in cs :: c.character
  }

  function Max(a: int, b: int): int {
    if a >= b then a else b
  }

  // ---------------------------------------------------------------------
  // Queries on the combatant list (CombatInstance properties)
  // ---------------------------------------------------------------------

  /** Positions, in list order, of the combatants that are not knocked out. */
  function ActiveAt(cs: seq<Combatant>): (ps: seq<nat>)
    ensures forall k :: 0 <= k < |ps| ==> ps[k] < |cs| && !cs[ps[k]].isKnockedOut
    ensures forall i :: 0 <= i < |cs| && !cs[i].isKnockedOut ==> i in ps
    ensures forall k, l :: 0 <= k < l < |ps| ==> ps[k] < ps[l]
  {
    if cs == [] then []
    else
      var ps := ActiveAt(cs[..|cs| - 1]);
      if cs[|cs| - 1].isKnockedOut then ps else ps + [|cs| - 1]
  }

  /** `get_active_combatants`. */
  function Active(cs: seq<Combatant>): seq<Combatant> {
    if cs == [] then []
    else Active(cs[..|cs| - 1]) + (if cs[|cs| - 1].isKnockedOut then [] else [cs[|cs| - 1]])
  }

  /** The active list is the list read at the active positions. */
  lemma {:induction false} ActiveAgrees(cs: seq<Combatant>)
    ensures |Active(cs)| == |ActiveAt(cs)|
    ensures forall k :: 0 <= k < |ActiveAt(cs)| ==> Active(cs)[k] == cs[ActiveAt(cs)[k]]
  {
    if cs != [] {
      ActiveAgrees(cs[..|cs| - 1]);
    }
  }

  /** The active list holds exactly the combatants that are not knocked out. */
  lemma {:induction false} ActiveExact(cs: seq<Combatant>)
    ensures forall k :: 0 <= k < |Active(cs)| ==> Active(cs)[k] in cs && !Active(cs)[k].isKnockedOut
    ensures forall i :: 0 <= i < |cs| && !cs[i].isKnockedOut ==> cs[i] in Active(cs)
  {
    if cs != [] {
      var init := cs[..|cs| - 1];
      ActiveExact(init);
      var a := Active(cs);
      assert forall k :: 0 <= k < |Active(init)| ==> a[k] == Active(init)[k];
      assert forall i :: 0 <= i < |init| ==> cs[i] == init[i];
    }
  }

  /** Position of the combatant whose turn it is: the turn index taken
      modulo the number of active combatants. */
  function CurrentAt(cs: seq<Combatant>, idx: nat): (r: Option<nat>)
    ensures r.Some? ==> r.value < |cs| && !cs[r.value].isKnockedOut
    ensures r.None? <==> forall i :: 0 <= i < |cs| ==> cs[i].isKnockedOut
  {
    var ps := ActiveAt(cs);
    if ps == [] then None else Some(ps[idx % |ps|])
  }

  /** `current_combatant`: it is never a knocked-out combatant, and it is
      absent exactly when everyone is knocked out. */
  function CurrentCombatant(cs: seq<Combatant>, idx: nat): (r: Option<Combatant>)
    ensures r.Some? ==> r.value in cs && !r.value.isKnockedOut
    ensures r.None? <==> forall i :: 0 <= i < |cs| ==> cs[i].isKnockedOut
    ensures r.Some? ==> Active(cs) != [] && r.value == Active(cs)[idx % |Active(cs)|]
  {
    ActiveAgrees(cs);
    match CurrentAt(cs, idx)
    case None => None
    case Some(p) => Some(cs[p])
  }

  /** Positions, in list order, of the standing combatants of other teams. */
  function EnemyAt(cs: seq<Combatant>, team: int): (ps: seq<nat>)
    ensures forall k :: 0 <= k < |ps| ==> ps[k] < |cs| && !cs[ps[k]].isKnockedOut && cs[ps[k]].team != team
    ensures forall i :: 0 <= i < |cs| && !cs[i].isKnockedOut && cs[i].team != team ==> i in ps
    ensures forall k, l :: 0 <= k < l < |ps| ==> ps[k] < ps[l]
  {
    if cs == [] then []
    else
      var ps := EnemyAt(cs[..|cs| - 1], team);
      var last := cs[|cs| - 1];
      if last.isKnockedOut || last.team == team then ps else ps + [|cs| - 1]
  }

  /** `get_enemies`. */
  function Enemies(cs: seq<Combatant>, team: int): seq<Combatant> {
    var ps := EnemyAt(cs, team);
    seq(|ps|, k requires 0 <= k < |ps| => cs[ps[k]])
  }

  /** The enemies of a combatant are exactly the standing members of the
      other teams. */
  lemma EnemiesExact(cs: seq<Combatant>, team: int)
    ensures forall x :: x in Enemies(cs, team) <==> x in cs && !x.isKnockedOut && x.team != team
  {
    var ps := EnemyAt(cs, team);
    forall x | x in cs && !x.isKnockedOut && x.team != team
      ensures x in Enemies(cs, team)
    {
      var i :| 0 <= i < |cs| && cs[i] == x;
      var k :| 0 <= k < |ps| && ps[k] == i;
      assert Enemies(cs, team)[k] == x;
    }
  }

  /** The teams that still have a standing member. */
  function ActiveTeams(cs: seq<Combatant>): set<int> {
    set c | c in cs && !c.isKnockedOut :: c.team
  }

  /** `is_over`: at most one team still has a standing member. */
  predicate IsOver(cs: seq<Combatant>) {
    |ActiveTeams(cs)| <= 1
  }

  /** Combat is over exactly when all standing combatants are on one team. */
  lemma IsOverIff(cs: seq<Combatant>)
    ensures IsOver(cs) <==>
      forall x, y :: x in cs && y in cs && !x.isKnockedOut && !y.isKnockedOut ==> x.team == y.team
  {
    var ts := ActiveTeams(cs);
    if IsOver(cs) {
      forall x, y | x in cs && y in cs && !x.isKnockedOut && !y.isKnockedOut
        ensures x.team == y.team
      {
        if x.team != y.team {
          assert {x.team, y.team} <= ts;
          assert |{x.team, y.team}| == 2;
          SubsetCard({x.team, y.team}, ts);
        }
      }
    } else {
      var a :| a in ts;
      assert |ts - {a}| >= 1;
      var b :| b in ts - {a};
      var x :| x in cs && !x.isKnockedOut && x.team == a;
      var y :| y in cs && !y.isKnockedOut && y.team == b;
      assert x.team != y.team;
    }
  }

  lemma SubsetCard(a: set<int>, b: set<int>)
    requires a <= b
    ensures |a| <= |b|
  {
    assert b == a + (b - a);
  }

  /** A combat that is not over still has someone whose turn it is. */
  lemma NotOverHasCurrent(cs: seq<Combatant>, idx: nat)
    ensures !IsOver(cs) ==> CurrentAt(cs, idx).Some?
  {
  }

  /** The standing combatants of `team`, in list order. */
  function OnTeam(active: seq<Combatant>, team: int): (r: seq<Combatant>)
    ensures forall k :: 0 <= k < |r| ==> r[k] in active && r[k].team == team
    ensures forall i :: 0 <= i < |active| && active[i].team == team ==> active[i] in r
  {
    if active == [] then []
    else (if active[0].team == team then [active[0]] else []) + OnTeam(active[1..], team)
  }

  function Names(cs: seq<Combatant>): (r: seq<string>)
    ensures |r| == |cs|
    ensures forall k :: 0 <= k < |cs| ==> r[k] == cs[k].character.name
  {
    if cs == [] then [] else [cs[0].character.name] + Names(cs[1..])
  }

  // ---------------------------------------------------------------------
  // Damage and initiative
  // ---------------------------------------------------------------------

  /** `_calculate_damage`, with the hit roll and the variance (uniform in
      -2..2 in the source) supplied.  A weapon adds its attack bonus;
      fists add nothing.  Returns the damage and whether it hit. */
  function Damage(baseAttack: int, weapon: Option<Weapon>, defending: bool, hit: bool, variance: int): (r: (int, bool))
  {
    if !hit then (0, false)
    else
      var bonus := if weapon.Some? then weapon.value.attackBonus else 0;
      var damage := Max(1, baseAttack + bonus + variance);
      (if defending then Max(1, damage / 2) else damage, true)
  }

  /** A miss does no damage; a hit always does at least one point, and
      within the variance range it is the attack plus weapon bonus give or
      take two. */
  lemma DamageBounds(baseAttack: int, weapon: Option<Weapon>, defending: bool, hit: bool, variance: int)
    requires -2 <= variance <= 2
    ensures var (d, h) := Damage(baseAttack, weapon, defending, hit, variance);
      && h == hit
      && (!hit ==> d == 0)
      && (hit ==> 1 <= d)
      && (hit && !defending ==>
            var a := baseAttack + (if weapon.Some? then weapon.value.attackBonus else 0);
            Max(1, a - 2) <= d <= Max(1, a + 2))
  {
  }

  /** Defending halves the damage of a hit (rounding down) but never below
      one, and never does more damage than not defending. */
  lemma DefendingHalves(baseAttack: int, weapon: Option<Weapon>, hit: bool, variance: int)
    ensures var open := Damage(baseAttack, weapon, false, hit, variance).0;
      var guarded := Damage(baseAttack, weapon, true, hit, variance).0;
      && guarded <= open
      && (hit ==> guarded == Max(1, open / 2) && 2 * guarded <= open + 1)
  {
  }

  /** `roll + stamina // 10`: Python's floor division agrees with Dafny's
      for the positive divisor. */
  function Initiative(roll: int, stamina: int): int {
    roll + stamina / 10
  }

  /** The combatants with their initiative set from the rolls, position
      `i` getting roll `roll(i)`. */
  function Rolled(cs: seq<Combatant>, roll: nat -> int): (r: seq<Combatant>)
    reads CharactersOf(cs)
    ensures |r| == |cs|
    ensures forall k :: 0 <= k < |cs| ==> SameButInitiative(r[k], cs[k])
    ensures forall k :: 0 <= k < |cs| ==> r[k].initiative == Initiative(roll(k), cs[k].character.stamina)
  {
    if cs == [] then []
    else
      var n := |cs| - 1;
      assert forall c :: c in cs[..n] ==> c in cs;
      Rolled(cs[..n], roll) + [cs[n].(initiative := Initiative(roll(n), cs[n].character.stamina))]
  }

  /** Insert `x` after every element whose initiative is at least its own:
      the step of a stable sort in descending order. */
  function InsertDesc(x: Combatant, s: seq<Combatant>): seq<Combatant> {
    if s == [] then [x]
    else if s[0].initiative >= x.initiative then [s[0]] + InsertDesc(x, s[1..])
    else [x] + s
  }

  /** `sort(key=initiative, reverse=True)`: Python's sort is stable, so
      combatants with equal initiative keep their relative order. */
  function SortDesc(s: seq<Combatant>): seq<Combatant> {
    if s == [] then [] else InsertDesc(s[|s| - 1], SortDesc(s[..|s| - 1]))
  }

  ghost predicate Descending(s: seq<Combatant>) {
    forall i, j :: 0 <= i < j < |s| ==> s[i].initiative >= s[j].initiative
  }

  /** Inserting adds exactly `x`, at the front or behind the old head. */
  lemma {:induction false} InsertDescContents(x: Combatant, s: seq<Combatant>)
    ensures multiset(InsertDesc(x, s)) == multiset(s) + multiset{x}
    ensures |InsertDesc(x, s)| == |s| + 1
    ensures InsertDesc(x, s)[0] == x || (s != [] && InsertDesc(x, s)[0] == s[0])
  {
    if s != [] && s[0].initiative >= x.initiative {
      InsertDescContents(x, s[1..]);
      assert s == [s[0]] + s[1..];
    }
  }

  /** Inserting below a bound keeps every element below it. */
  lemma {:induction false} InsertDescBounded(x: Combatant, s: seq<Combatant>, m: int)
    requires x.initiative <= m
    requires forall k :: 0 <= k < |s| ==> s[k].initiative <= m
    ensures forall k :: 0 <= k < |InsertDesc(x, s)| ==> InsertDesc(x, s)[k].initiative <= m
  {
    if s != [] && s[0].initiative >= x.initiative {
      InsertDescBounded(x, s[1..], m);
      var t := InsertDesc(x, s[1..]);
      assert InsertDesc(x, s) == [s[0]] + t;
    }
  }

  lemma {:induction false} InsertDescSorted(x: Combatant, s: seq<Combatant>)
    requires Descending(s)
    ensures Descending(InsertDesc(x, s))
  {
    if s == [] {
    } else if s[0].initiative >= x.initiative {
      var t := InsertDesc(x, s[1..]);
      InsertDescSorted(x, s[1..]);
      InsertDescBounded(x, s[1..], s[0].initiative);
      var r := [s[0]] + t;
      forall i, j | 0 <= i < j < |r|
        ensures r[i].initiative >= r[j].initiative
      {
        assert r[j] == t[j - 1];
        if i > 0 {
          assert r[i] == t[i - 1];
        }
      }
      assert InsertDesc(x, s) == r;
    } else {
      var r := [x] + s;
      forall i, j | 0 <= i < j < |r|
        ensures r[i].initiative >= r[j].initiative
      {
        assert r[j] == s[j - 1];
        if i > 0 {
          assert r[i] == s[i - 1];
        }
      }
      assert InsertDesc(x, s) == r;
    }
  }

  /** The initiative order is sorted from highest to lowest and is a
      permutation of the combatants. */
  lemma {:induction false} SortDescSorted(s: seq<Combatant>)
    ensures Descending(SortDesc(s))
    ensures multiset(SortDesc(s)) == multiset(s)
    ensures |SortDesc(s)| == |s|
  {
    if s != [] {
      SortDescSorted(s[..|s| - 1]);
      InsertDescSorted(s[|s| - 1], SortDesc(s[..|s| - 1]));
      InsertDescContents(s[|s| - 1], SortDesc(s[..|s| - 1]));
      assert s == s[..|s| - 1] + [s[|s| - 1]];
    }
  }

  /** The combatants of `s` whose initiative is `v`, in their order. */
  function WithInitiative(s: seq<Combatant>, v: int): seq<Combatant> {
    if s == [] then []
    else (if s[0].initiative == v then [s[0]] else []) + WithInitiative(s[1..], v)
  }

  lemma {:induction false} WithInitiativeAppend(a: seq<Combatant>, b: seq<Combatant>, v: int)
    ensures WithInitiative(a + b, v) == WithInitiative(a, v) + WithInitiative(b, v)
  {
    if a == [] {
      assert a + b == b;
    } else {
      WithInitiativeAppend(a[1..], b, v);
      assert (a + b)[1..] == a[1..] + b;
      var h := if a[0].initiative == v then [a[0]] else [];
      assert WithInitiative(a + b, v) == h + (WithInitiative(a[1..], v) + WithInitiative(b, v));
    }
  }

  /** Inserting into a descending list puts `x` behind every combatant
      with the same initiative and moves nobody else. */
  lemma {:induction false} InsertDescStable(x: Combatant, t: seq<Combatant>, v: int)
    requires Descending(t)
    ensures WithInitiative(InsertDesc(x, t), v) == WithInitiative(t, v) + (if x.initiative == v then [x] else [])
  {
    if t == [] {
    } else if t[0].initiative >= x.initiative {
      InsertDescStable(x, t[1..], v);
      assert ([t[0]] + InsertDesc(x, t[1..]))[1..] == InsertDesc(x, t[1..]);
    } else {
      assert ([x] + t)[1..] == t;
      if x.initiative == v {
        NoneWithInitiative(t, v);
      }
    }
  }

  lemma {:induction false} NoneWithInitiative(t: seq<Combatant>, v: int)
    requires forall k :: 0 <= k < |t| ==> t[k].initiative < v
    ensures WithInitiative(t, v) == []
  {
    if t != [] {
      NoneWithInitiative(t[1..], v);
    }
  }

  /** `list.sort(key=..., reverse=True)` is stable: combatants with equal
      initiative keep the order they had before the sort. */
  lemma {:induction false} SortDescStable(s: seq<Combatant>, v: int)
    ensures WithInitiative(SortDesc(s), v) == WithInitiative(s, v)
  {
    if s != [] {
      var init := s[..|s| - 1];
      SortDescStable(init, v);
      SortDescSorted(init);
      InsertDescStable(s[|s| - 1], SortDesc(init), v);
      assert s == init + [s[|s| - 1]];
      WithInitiativeAppend(init, [s[|s| - 1]], v);
    }
  }

  /** Index, within `ps`, of the first combatant whose name equals `name`
      ignoring case. */
  function FirstNamed(cs: seq<Combatant>, ps: seq<nat>, name: string): (r: Option<nat>)
    requires forall k :: 0 <= k < |ps| ==> ps[k] < |cs|
    ensures r.Some? ==> r.value < |ps| && Lower(cs[ps[r.value]].character.name) == Lower(name)
    ensures r.Some? ==> forall j :: 0 <= j < r.value ==> Lower(cs[ps[j]].character.name) != Lower(name)
    ensures r.None? ==> forall j :: 0 <= j < |ps| ==> Lower(cs[ps[j]].character.name) != Lower(name)
  {
    if ps == [] then None
    else if Lower(cs[ps[0]].character.name) == Lower(name) then Some(0)
    else match FirstNamed(cs, ps[1..], name)
      case None => None
      case Some(k) => Some(k + 1)
  }

  /** The defender `_handle_attack` picks for an attacker of `team`: the
      first enemy named `name` (ignoring case), or the first enemy when no
      name is given; None when the name matches no enemy or there are no
      enemies. */
  function DefenderAt(cs: seq<Combatant>, team: int, name: string): (r: Option<nat>)
    ensures r.Some? ==> r.value < |cs| && !cs[r.value].isKnockedOut && cs[r.value].team != team
    ensures r.Some? && name != "" ==> Lower(cs[r.value].character.name) == Lower(name)
    ensures r.None? && name == "" ==> EnemyAt(cs, team) == []
  {
    var ps := EnemyAt(cs, team);
    if ps == [] then None
    else if name == "" then Some(ps[0])
    else match FirstNamed(cs, ps, name)
      case None => None
      case Some(k) => Some(ps[k])
  }

  // ---------------------------------------------------------------------
  // Replies to the acting player
  // ---------------------------------------------------------------------

  const RED := "[red]"
  const RED_END := "[/red]"
  const ERROR_STARTING := "[red]Error starting combat.[/red]"
  const ALREADY_FIGHTING := "[red]You are already in combat![/red]"
  const TARGET_NOT_FOUND := "[red]Target not found.[/red]"
  const CANNOT_START := "[red]Cannot start combat.[/red]"
  const NOT_IN_COMBAT := "[red]You are not in combat.[/red]"
  const NOT_YOUR_TURN := "[dim]It's not your turn.[/dim]"
  const COMBAT_ACTIONS := "[yellow]Combat actions: [bold]attack[/bold] [target], [bold]defend[/bold], [bold]flee[/bold][/yellow]"
  const NO_ENEMIES := "[dim]No enemies remain.[/dim]"
  const ESCAPED := "[dim]You escaped![/dim]"
  const IS_IN_COMBAT := " is already in combat!"
  const NOT_VALID_TARGET := "' is not a valid target. Enemies: "
  const FISTS := "fists"

  function TargetBusy(name: string): string { RED + name + IS_IN_COMBAT + RED_END }

  function InvalidTarget(name: string, enemies: seq<string>): string {
    RED + "'" + name + NOT_VALID_TARGET + Join(enemies, ", ") + RED_END
  }

  /** The name the hit broadcast gives the attacker's weapon. */
  function WeaponName(w: Option<Weapon>): string {
    if w.Some? then w.value.name else FISTS
  }

  // ---------------------------------------------------------------------
  // Assembling the teams (start_combat)
  // ---------------------------------------------------------------------

  /** The combatants `start_combat` enlists for `team` from `ids`: those
      not already fighting and with a session, in list order. */
  function Recruits(ids: seq<CharId>, team: int, reg: map<CharId, CombatInstance>, sessions: map<CharId, Session>): seq<Combatant> {
    if ids == [] then []
    else
      var rest := Recruits(ids[..|ids| - 1], team, reg, sessions);
      var id := ids[|ids| - 1];
      if id in reg || id !in sessions then rest else rest + [NewCombatant(id, sessions[id].player, team, false)]
  }

  /** Every recruit is a fresh, standing player combatant of the team, not
      yet fighting and connected; and every eligible id is recruited. */
  lemma {:induction false} RecruitsExact(ids: seq<CharId>, team: int, reg: map<CharId, CombatInstance>, sessions: map<CharId, Session>)
    ensures var r := Recruits(ids, team, reg, sessions);
      && |r| <= |ids|
      && (forall k :: 0 <= k < |r| ==>
            && r[k].characterId in ids && r[k].characterId !in reg && r[k].characterId in sessions
            && r[k] == NewCombatant(r[k].characterId, sessions[r[k].characterId].player, team, false))
      && (forall id :: id in ids && id !in reg && id in sessions ==> id in Ids(r))
  {
    if ids != [] {
      var init := ids[..|ids| - 1];
      RecruitsExact(init, team, reg, sessions);
      var r := Recruits(ids, team, reg, sessions);
      var rest := Recruits(init, team, reg, sessions);
      assert ids == init + [ids[|ids| - 1]];
      forall id | id in ids && id !in reg && id in sessions
        ensures id in Ids(r)
      {
        if id in init {
          var c :| c in rest && c.characterId == id;
          assert c in r;
        } else {
          assert r[|r| - 1].characterId == id;
        }
      }
    }
  }

  /** The first session, in session order, whose player is `target` (by
      identity). */
  function SessionOf(order: seq<CharId>, sessions: map<CharId, Session>, target: Character): (r: Option<CharId>)
    requires forall i :: 0 <= i < |order| ==> order[i] in sessions
    ensures r.Some? ==> r.value in order && r.value in sessions && sessions[r.value].player == target
    ensures r.None? ==> forall i :: 0 <= i < |order| ==> sessions[order[i]].player != target
  {
    if order == [] then None
    else if sessions[order[0]].player == target then Some(order[0])
    else SessionOf(order[1..], sessions, target)
  }

  /** `hash(target.uid) & 0x7FFFFFFF`: masking with 2^31 - 1 keeps the low
      31 bits, which for Python's unbounded two's-complement integers is
      the non-negative remainder modulo 2^31. */
  function NpcId(uidHash: int): (r: CharId)
    ensures 0 <= r < 0x8000_0000
  {
    uidHash % 0x8000_0000
  }

  /** The ids one side of `start_combat` tries to enlist: the leader's
      party members in the room, with the leader put in front when that
      list misses it. */
  function SideIds(leader: CharId, inRoom: seq<CharId>): (r: seq<CharId>)
    ensures leader in r
    ensures forall id :: id in r <==> id == leader || id in inRoom
  {
    if leader in inRoom then inRoom else [leader] + inRoom
  }

  /** The ids around `leader` in the room with uid `roomUid`. */
  function SideOf(leader: CharId, roomUid: Uid, partyOrder: seq<CharId>, parties: map<CharId, seq<CharId>>,
                  sessions: map<CharId, Session>): seq<CharId>
    requires Party.Keyed(partyOrder, parties)
  {
    SideIds(leader, Party.InRoom(Party.PartyOf(partyOrder, parties, leader), sessions, roomUid))
  }

  /** The refusal `start_combat` gives about its target, if any: a player
      target needs a session, and must not be fighting already. */
  function TargetRefusal(target: Character, order: seq<CharId>, sessions: map<CharId, Session>,
                         reg: map<CharId, CombatInstance>): Option<string>
    requires forall i :: 0 <= i < |order| ==> order[i] in sessions
  {
    if target.kind != Player then None
    else match SessionOf(order, sessions, target)
      case None => Some(TARGET_NOT_FOUND)
      case Some(tid) => if tid in reg then Some(TargetBusy(target.name)) else None
  }

  /** The busy message ends in "!", the not-found one in ".". */
  lemma BusyIsNotNotFound(name: string)
    ensures TargetBusy(name) != TARGET_NOT_FOUND
  {
    var t := TargetBusy(name);
    assert t == (RED + name) + IS_IN_COMBAT + RED_END;
    assert t[|t| - 7] == IS_IN_COMBAT[21] == '!';
    assert TARGET_NOT_FOUND[|TARGET_NOT_FOUND| - 7] == '.';
  }

  /** The two refusals: "Target not found." exactly when a player target
      has no session, otherwise the busy message. */
  lemma TargetRefusalCases(target: Character, order: seq<CharId>, sessions: map<CharId, Session>,
                           reg: map<CharId, CombatInstance>)
    requires forall i :: 0 <= i < |order| ==> order[i] in sessions
    ensures var r := TargetRefusal(target, order, sessions, reg);
      r == Some(TARGET_NOT_FOUND) <==> target.kind == Player && SessionOf(order, sessions, target).None?
    ensures var r := TargetRefusal(target, order, sessions, reg);
      r.Some? ==> r.value == TARGET_NOT_FOUND || r.value == TargetBusy(target.name)
    ensures TargetRefusal(target, order, sessions, reg).None? <==>
      target.kind != Player || (SessionOf(order, sessions, target).Some? && SessionOf(order, sessions, target).value !in reg)
  {
    if target.kind == Player && SessionOf(order, sessions, target).Some? {
      BusyIsNotNotFound(target.name);
    }
  }

  /** The combatant list `start_combat` assembles: the recruits around the
      attacker on team 0, then the recruits around a player target, or the
      NPC target alone, on team 1. */
  function Teams(attackerId: CharId, target: Character, roomUid: Uid, partyOrder: seq<CharId>,
                 parties: map<CharId, seq<CharId>>, order: seq<CharId>, sessions: map<CharId, Session>,
                 reg: map<CharId, CombatInstance>, uidHash: int): seq<Combatant>
    requires Party.Keyed(partyOrder, parties)
    requires forall i :: 0 <= i < |order| ==> order[i] in sessions
    requires TargetRefusal(target, order, sessions, reg).None?
  {
    Recruits(SideOf(attackerId, roomUid, partyOrder, parties, sessions), 0, reg, sessions)
    + if target.kind == Player
      then Recruits(SideOf(SessionOf(order, sessions, target).value, roomUid, partyOrder, parties, sessions), 1, reg, sessions)
      else [NewCombatant(NpcId(uidHash), target, 1, true)]
  }

  /** One side's recruits as a set of entries: each is a player of `team`
      drawn from `ids`, and each connected id not fighting is among them
      with its session's character. */
  lemma RecruitsSide(ids: seq<CharId>, team: int, reg: map<CharId, CombatInstance>, sessions: map<CharId, Session>)
    ensures forall c :: c in Recruits(ids, team, reg, sessions) ==> c.team == team && c.characterId in ids && !c.isNpc
    ensures forall id :: id in ids && id !in reg && id in sessions ==>
      exists c :: c in Recruits(ids, team, reg, sessions) && c.characterId == id && c.character == sessions[id].player
  {
    var r := Recruits(ids, team, reg, sessions);
    RecruitsExact(ids, team, reg, sessions);
    forall id | id in ids && id !in reg && id in sessions
      ensures exists c :: c in r && c.characterId == id && c.character == sessions[id].player
    {
      var c :| c in r && c.characterId == id;
      var k :| 0 <= k < |r| && r[k] == c;
    }
  }

  /** Who is on which side.  Team 0 holds players from the attacker's side
      only, and every one of them who is connected and not fighting; team
      1 holds, for a player target, players from the target's side only
      (the target among them), and every eligible one, or else the NPC
      alone.  There is no third team. */
  lemma TeamsSides(attackerId: CharId, target: Character, roomUid: Uid, partyOrder: seq<CharId>,
                   parties: map<CharId, seq<CharId>>, order: seq<CharId>, sessions: map<CharId, Session>,
                   reg: map<CharId, CombatInstance>, uidHash: int)
    requires Party.Keyed(partyOrder, parties)
    requires forall i :: 0 <= i < |order| ==> order[i] in sessions
    requires TargetRefusal(target, order, sessions, reg).None?
    ensures var ts := Teams(attackerId, target, roomUid, partyOrder, parties, order, sessions, reg, uidHash);
      var a := SideOf(attackerId, roomUid, partyOrder, parties, sessions);
      && (forall c :: c in ts ==> c.team == 0 || c.team == 1)
      && (forall c :: c in ts && c.team == 0 ==> c.characterId in a && !c.isNpc)
      && (forall id :: id in a && id !in reg && id in sessions ==>
            exists c :: c in ts && c.team == 0 && c.characterId == id)
    ensures var ts := Teams(attackerId, target, roomUid, partyOrder, parties, order, sessions, reg, uidHash);
      target.kind == Player ==>
        var tid := SessionOf(order, sessions, target).value;
        var d := SideOf(tid, roomUid, partyOrder, parties, sessions);
        && (forall c :: c in ts && c.team == 1 ==> c.characterId in d && !c.isNpc)
        && (forall id :: id in d && id !in reg && id in sessions ==>
              exists c :: c in ts && c.team == 1 && c.characterId == id)
        && (exists c :: c in ts && c.team == 1 && c.characterId == tid && c.character == target)
    ensures var ts := Teams(attackerId, target, roomUid, partyOrder, parties, order, sessions, reg, uidHash);
      target.kind != Player ==>
        && ts[|ts| - 1] == NewCombatant(NpcId(uidHash), target, 1, true)
        && (forall c :: c in ts && c.team == 1 ==> c == NewCombatant(NpcId(uidHash), target, 1, true))
  {
    var a := SideOf(attackerId, roomUid, partyOrder, parties, sessions);
    var xs := Recruits(a, 0, reg, sessions);
    RecruitsSide(a, 0, reg, sessions);
    if target.kind == Player {
      var tid := SessionOf(order, sessions, target).value;
      var d := SideOf(tid, roomUid, partyOrder, parties, sessions);
      RecruitsSide(d, 1, reg, sessions);
      assert tid in d && tid !in reg && tid in sessions;
    }
  }

  /** The registry with every combatant of `cs` mapped to `combat`. */
  function Registered(reg: map<CharId, CombatInstance>, cs: seq<Combatant>, combat: CombatInstance): map<CharId, CombatInstance> {
    if cs == [] then reg
    else Registered(reg, cs[..|cs| - 1], combat)[cs[|cs| - 1].characterId := combat]
  }

  /** Registering adds exactly the combatants' ids, all pointing at the
      instance, and keeps every other entry. */
  lemma {:induction false} RegisteredExact(reg: map<CharId, CombatInstance>, cs: seq<Combatant>, combat: CombatInstance)
    ensures Registered(reg, cs, combat).Keys == reg.Keys + Ids(cs)
    ensures forall id :: id in Ids(cs) ==> Registered(reg, cs, combat)[id] == combat
    ensures forall id :: id in reg && id !in Ids(cs) ==> Registered(reg, cs, combat)[id] == reg[id]
  {
    if cs != [] {
      var init := cs[..|cs| - 1];
      RegisteredExact(reg, init, combat);
      assert cs == init + [cs[|cs| - 1]];
      assert Ids(cs) == Ids(init) + {cs[|cs| - 1].characterId};
    }
  }

  /** The names and initiatives of the "Turn order" broadcast. */
  function TurnOrderOf(cs: seq<Combatant>): seq<(string, int)> {
    seq(|cs|, k requires 0 <= k < |cs| => (cs[k].character.name, cs[k].initiative))
  }

  // ---------------------------------------------------------------------
  // Reading a combat command (handle_combat_input)
  // ---------------------------------------------------------------------

  datatype CombatAction = AttackAction | DefendAction | FleeAction | UnknownAction

  /** The action word and its argument: the input stripped, lower-cased
      and split once on whitespace. */
  function ParseCombatInput(raw: string): (string, string) {
    var parts := Split1(Lower(Strip(raw)));
    (if parts == [] then "" else parts[0], if |parts| > 1 then parts[1] else "")
  }

  function ActionOf(word: string): CombatAction {
    if word == "attack" || word == "atk" || word == "a" then AttackAction
    else if word == "defend" || word == "def" || word == "d" then DefendAction
    else if word == "flee" || word == "run" || word == "f" then FleeAction
    else UnknownAction
  }

  /** Each action has its long form and two abbreviations; every other
      word, the empty one included, is unknown. */
  lemma ActionAliases(word: string)
    ensures ActionOf(word) == AttackAction <==> word in {"attack", "atk", "a"}
    ensures ActionOf(word) == DefendAction <==> word in {"defend", "def", "d"}
    ensures ActionOf(word) == FleeAction <==> word in {"flee", "run", "f"}
    ensures ActionOf("") == UnknownAction
  {
  }

  /** The first combatant with the given character id. */
  function FirstWithId(cs: seq<Combatant>, id: CharId): (r: Option<nat>)
    ensures r.Some? ==> r.value < |cs| && cs[r.value].characterId == id
    ensures r.Some? ==> forall j :: 0 <= j < r.value ==> cs[j].characterId != id
    ensures r.None? ==> id !in Ids(cs)
  {
    if cs == [] then None
    else if cs[0].characterId == id then Some(0)
    else match FirstWithId(cs[1..], id)
      case None => (assert forall c :: c in cs ==> c == cs[0] || c in cs[1..]; None)
      case Some(k) => Some(k + 1)
  }

  lemma {:induction false} InsertDescMembers(y: Combatant, s: seq<Combatant>)
    ensures var r := InsertDesc(y, s);
      && |r| == |s| + 1 && y in r
      && (forall k :: 0 <= k < |r| ==> r[k] == y || r[k] in s)
      && (forall k :: 0 <= k < |s| ==> s[k] in r)
  {
    if s != [] && s[0].initiative >= y.initiative {
      InsertDescMembers(y, s[1..]);
      var r := InsertDesc(y, s);
      assert r == [s[0]] + InsertDesc(y, s[1..]);
      forall k | 0 <= k < |s|
        ensures s[k] in r
      {
        if k > 0 {
          assert s[k] == s[1..][k - 1];
        }
      }
    }
  }

  /** Sorting neither adds nor drops a combatant. */
  lemma {:induction false} SortDescMembers(s: seq<Combatant>)
    ensures var r := SortDesc(s);
      && |r| == |s|
      && (forall k :: 0 <= k < |r| ==> r[k] in s)
      && (forall k :: 0 <= k < |s| ==> s[k] in r)
  {
    if s != [] {
      var init := s[..|s| - 1];
      SortDescMembers(init);
      InsertDescMembers(s[|s| - 1], SortDesc(init));
      var r := SortDesc(s);
      forall k | 0 <= k < |r|
        ensures r[k] in s
      {
        if r[k] != s[|s| - 1] {
          var j :| 0 <= j < |SortDesc(init)| && SortDesc(init)[j] == r[k];
          assert r[k] in init;
        }
      }
      forall k | 0 <= k < |s|
        ensures s[k] in r
      {
        if k < |s| - 1 {
          assert s[k] == init[k];
        }
      }
    }
  }

  /** `a` is `b` with at most its initiative changed. */
  predicate SameButInitiative(a: Combatant, b: Combatant) {
    && a.characterId == b.characterId && a.character == b.character && a.team == b.team
    && a.isDefending == b.isDefending && a.isKnockedOut == b.isKnockedOut && a.isNpc == b.isNpc
  }

  /** What `start_combat` guarantees of every combatant it enlists: standing,
      not defending, and for a player, connected and not already fighting. */
  ghost predicate Enlistable(c: Combatant, reg: map<CharId, CombatInstance>, sessions: map<CharId, Session>) {
    && !c.isKnockedOut && !c.isDefending
    && (!c.isNpc ==> c.characterId !in reg && c.characterId in sessions)
  }

  /** Rolling and sorting keeps every combatant's identity and flags: the
      ids are the same, and what held of each combatant still holds. */
  lemma SortKeepsEntries(cs: seq<Combatant>, rolled: seq<Combatant>, reg: map<CharId, CombatInstance>, sessions: map<CharId, Session>)
    requires |rolled| == |cs|
    requires forall k :: 0 <= k < |cs| ==> SameButInitiative(rolled[k], cs[k])
    requires forall k :: 0 <= k < |cs| ==> Enlistable(cs[k], reg, sessions)
    ensures forall j :: 0 <= j < |SortDesc(rolled)| ==> Enlistable(SortDesc(rolled)[j], reg, sessions)
    ensures Ids(SortDesc(rolled)) == Ids(cs)
  {
    var sorted := SortDesc(rolled);
    SortDescMembers(rolled);
    forall j | 0 <= j < |sorted|
      ensures Enlistable(sorted[j], reg, sessions) && sorted[j].characterId in Ids(cs)
    {
      var k :| 0 <= k < |rolled| && rolled[k] == sorted[j];
      assert cs[k] in cs;
    }
    forall id | id in Ids(cs)
      ensures id in Ids(sorted)
    {
      var k :| 0 <= k < |cs| && cs[k].characterId == id;
      assert rolled[k] in sorted;
    }
  }

  // ---------------------------------------------------------------------
  // Announcements
  // ---------------------------------------------------------------------

  /** What `broadcast_to_room` and the session callbacks deliver, without
      the markup. */
  datatype CombatEvent =
    | Begins(attacker: string, target: string)
    | TurnOrder(order: seq<(string, int)>)
    | Hits(attacker: string, defender: string, weapon: string, damage: int, hpLeft: int)
    | Misses(attacker: string, defender: string)
    | KnockedOut(name: string)
    | DefensiveStance(name: string)
    | Flees(name: string)
    | FleeFails(name: string)
    | NewRound(round: int)
    | Hesitates(name: string)
    | Victory(winners: seq<string>)
    | NoOneStanding
    | LeftCombat(name: string)
    | YourTurn(enemies: seq<string>)
    | TimedOut
    | Regained

  datatype Announcement = ToRoom(room: Room, event: CombatEvent) | ToPlayer(recipient: CharId, event: CombatEvent)

  /** A knockout recovery scheduled on the event loop. */
  datatype Recovery = Recovery(combat: CombatInstance, combatant: Combatant)

  /** The broadcasts of one strike: the hit with the hit points left
      (never shown below zero) and, when they reach zero, the knockout;
      or the miss. */
  function StrikeNotices(room: Room, a: Combatant, t: Combatant, weapon: Option<Weapon>, hit: bool, dmg: int, hp: int): seq<Announcement> {
    if !hit then [ToRoom(room, Misses(a.character.name, t.character.name))]
    else
      [ToRoom(room, Hits(a.character.name, t.character.name, WeaponName(weapon), dmg, Max(0, hp - dmg)))]
      + (if hp - dmg <= 0 then [ToRoom(room, KnockedOut(t.character.name))] else [])
  }

  /** The closing broadcast of `_end_combat`: the first standing
      combatant's team wins. */
  function Outcome(cs: seq<Combatant>): CombatEvent {
    var a := Active(cs);
    if a == [] then NoOneStanding else Victory(Names(OnTeam(a, a[0].team)))
  }

  /** When combat ends because it is over, every standing combatant is
      named among the victors, and nobody else is. */
  lemma OutcomeNamesAllStanding(cs: seq<Combatant>)
    requires IsOver(cs) && Active(cs) != []
    ensures Outcome(cs) == Victory(Names(Active(cs)))
  {
    var a := Active(cs);
    ActiveExact(cs);
    IsOverIff(cs);
    assert a[0] in a;
    forall j | 0 <= j < |a|
      ensures a[j].team == a[0].team
    {
      assert a[j] in cs && a[0] in cs;
    }
    OnTeamAll(a, a[0].team);
  }

  lemma {:induction false} OnTeamAll(a: seq<Combatant>, team: int)
    requires forall j :: 0 <= j < |a| ==> a[j].team == team
    ensures OnTeam(a, team) == a
  {
    if a != [] {
      assert forall j :: 0 <= j < |a[1..]| ==> a[1..][j] == a[j + 1];
      OnTeamAll(a[1..], team);
      assert a == [a[0]] + a[1..];
    }
  }

  /** What `_start_turn` announces for the turn at `idx`: the closing
      broadcast when nobody stands, nothing for an NPC (its turn is the
      separate NpcTakeTurn operation), and the private prompt for a
      connected player. */
  function TurnStart(cs: seq<Combatant>, idx: nat, room: Room, sessions: map<CharId, Session>): seq<Announcement> {
    match CurrentAt(cs, idx)
    case None => [ToRoom(room, Outcome(cs))]
    case Some(p) =>
      if cs[p].isNpc || cs[p].characterId !in sessions then []
      else [ToPlayer(cs[p].characterId, YourTurn(Names(Enemies(cs, cs[p].team))))]
  }

  /** The turn timer after `_start_turn`: cancelled when combat ends,
      untouched for an NPC, and for a player restarted (only when an event
      loop runs). */
  function TimerAfter(cs: seq<Combatant>, idx: nat, timer: Option<CharId>, eventLoop: bool): Option<CharId> {
    match CurrentAt(cs, idx)
    case None => None
    case Some(p) =>
      if cs[p].isNpc then timer
      else if eventLoop then Some(cs[p].characterId)
      else None
  }

  /** The turn index after `_remove_combatant` takes out `c`: one less when
      `c` stands before the current turn in the active list. */
  function IndexAfterRemoval(cs: seq<Combatant>, c: Combatant, idx: nat): nat {
    var a := Active(cs);
    if c in a && IndexOf(a, c) < idx then idx - 1 else idx
  }

  // ---------------------------------------------------------------------
  // Removal and the turn order
  // ---------------------------------------------------------------------

  /** The active list of a non-empty list extends that of its prefix. */
  /** Filtering out the knocked-out combatants distributes over
      concatenation. */
  lemma {:induction false} ActiveAppend(a: seq<Combatant>, b: seq<Combatant>)
    ensures Active(a + b) == Active(a) + Active(b)
  {
    if b == [] {
      assert a + b == a;
    } else {
      var ab := a + b;
      var init := b[..|b| - 1];
      assert ab[..|ab| - 1] == a + init;
      ActiveAppend(a, init);
    }
  }

  /** Splitting the list at position `k`: the active list is the active
      part before `k`, then `cs[k]` when it stands, then the active part
      after `k`. */
  lemma ActiveSplit(cs: seq<Combatant>, k: nat)
    requires k < |cs|
    ensures Active(cs) == Active(cs[..k]) + (if cs[k].isKnockedOut then [] else [cs[k]]) + Active(cs[k + 1..])
  {
    SplitAt(cs, k);
    ActiveAppend(cs[..k] + [cs[k]], cs[k + 1..]);
    ActiveAppend(cs[..k], [cs[k]]);
    assert [cs[k]][..0] == [];
  }

  /** The active list of a list with a first element. */
  lemma ActiveCons(x: Combatant, s: seq<Combatant>)
    ensures Active([x] + s) == (if x.isKnockedOut then [] else [x]) + Active(s)
  {
    ActiveAppend([x], s);
    assert [x][..0] == [];
  }

  /** Taking a standing combatant out of the list takes its first
      occurrence out of the active list. */
  lemma {:induction false} ActiveRemoveFirst(cs: seq<Combatant>, c: Combatant)
    requires !c.isKnockedOut
    ensures Active(RemoveFirst(cs, c)) == RemoveFirst(Active(cs), c)
  {
    if cs == [] {
      return;
    }
    var x := cs[0];
    var t := cs[1..];
    assert cs == [x] + t;
    ActiveCons(x, t);
    var at := Active(t);
    if x == c {
      var s := [c] + at;
      assert s[0] == c && s[1..] == at;
      assert RemoveFirst(s, c) == at;
      assert Active(cs) == s;
      assert RemoveFirst(cs, c) == t;
    } else {
      var rest := RemoveFirst(t, c);
      assert RemoveFirst(cs, c) == [x] + rest;
      ActiveCons(x, rest);
      ActiveRemoveFirst(t, c);
      if x.isKnockedOut {
        assert Active(cs) == at;
        assert Active(RemoveFirst(cs, c)) == Active(rest);
      } else {
        var s := [x] + at;
        assert s[0] == x && s[1..] == at;
        assert RemoveFirst(s, c) == [x] + RemoveFirst(at, c);
        assert Active(cs) == s;
        assert Active(RemoveFirst(cs, c)) == [x] + Active(rest);
      }
    }
  }

  /** With someone standing, the current combatant is the active list read
      at the turn index modulo its length. */
  lemma CurrentIsActive(cs: seq<Combatant>, idx: nat)
    requires Active(cs) != []
    ensures CurrentCombatant(cs, idx) == Some(Active(cs)[idx % |Active(cs)|])
  {
    ActiveAgrees(cs);
  }

  /** An index within the active list names the current combatant
      directly. */
  lemma CurrentWithin(cs: seq<Combatant>, idx: nat)
    requires idx < |Active(cs)|
    ensures CurrentCombatant(cs, idx) == Some(Active(cs)[idx])
  {
    ModSmall(idx, |Active(cs)|);
    CurrentIsActive(cs, idx);
  }

  /** Removing a standing combatant drops its position from the active
      list. */
  lemma ActiveDropsRemoved(cs: seq<Combatant>, c: Combatant)
    requires c in cs && !c.isKnockedOut
    ensures c in Active(cs)
    ensures var a := Active(cs); var i := IndexOf(a, c);
      Active(RemoveFirst(cs, c)) == a[..i] + a[i + 1..]
  {
    StandingIsActive(cs, c);
    ActiveSplitRemoved(cs, c);
  }

  lemma ActiveSplitRemoved(cs: seq<Combatant>, c: Combatant)
    requires c in Active(cs) && !c.isKnockedOut
    ensures Active(RemoveFirst(cs, c)) == Active(cs)[..IndexOf(Active(cs), c)] + Active(cs)[IndexOf(Active(cs), c) + 1..]
  {
    ActiveRemoveFirst(cs, c);
    ActiveListSplit(cs, c);
  }

  /** `RemoveFirstSplit` read on the active list. */
  lemma ActiveListSplit(cs: seq<Combatant>, c: Combatant)
    requires c in Active(cs)
    ensures RemoveFirst(Active(cs), c) == Active(cs)[..IndexOf(Active(cs), c)] + Active(cs)[IndexOf(Active(cs), c) + 1..]
  {
    RemoveFirstSplit(Active(cs), c);
  }

  lemma StandingIsActive(cs: seq<Combatant>, c: Combatant)
    requires c in cs && !c.isKnockedOut
    ensures c in Active(cs)
  {
    ActiveExact(cs);
    var i :| 0 <= i < |cs| && cs[i] == c;
    assert cs[i] in Active(cs);
  }

  /** The index rule of `_remove_combatant` in general: the turn stays
      with the combatant whose turn it is when a standing combatant other
      than that one leaves and the index is within the active list.  (The
      source's own callers remove the current combatant when it flees, or
      a combatant already marked knocked out when its player disconnects;
      `DisconnectSkipsTurn` covers the latter.) */
  lemma RemoveKeepsCurrent(cs: seq<Combatant>, c: Combatant, idx: nat)
    requires c in cs && !c.isKnockedOut
    requires idx < |Active(cs)|
    requires CurrentCombatant(cs, idx) != Some(c)
    ensures CurrentCombatant(RemoveFirst(cs, c), IndexAfterRemoval(cs, c, idx)) == CurrentCombatant(cs, idx)
  {
    var a := Active(cs);
    CurrentWithin(cs, idx);
    var after := RemoveFirst(cs, c);
    ActiveDropsRemoved(cs, c);
    DropKeeps(a, IndexOf(a, c), idx);
    CurrentWithin(after, IndexAfterRemoval(cs, c, idx));
  }

  /** Marking the first combatant with its id knocked out and then removing
      it leaves the active list without it, split where it stood. */
  lemma DisconnectActive(cs: seq<Combatant>, k: nat)
    requires k < |cs| && !cs[k].isKnockedOut
    requires forall j :: 0 <= j < k ==> cs[j].characterId != cs[k].characterId
    ensures var ko := cs[k].(isKnockedOut := true);
      && Active(RemoveFirst(cs[k := ko], ko)) == Active(cs[..k]) + Active(cs[k + 1..])
      && Active(cs) == Active(cs[..k]) + [cs[k]] + Active(cs[k + 1..])
  {
    var ko := cs[k].(isKnockedOut := true);
    var marked := cs[k := ko];
    assert marked[k] == ko;
    assert IndexOf(marked, ko) == k by {
      assert forall j :: 0 <= j < k ==> marked[j] != ko;
    }
    RemoveFirstSplit(marked, ko);
    assert marked[..k] == cs[..k] && marked[k + 1..] == cs[k + 1..];
    ActiveSplit(cs, k);
    ActiveAppend(cs[..k], cs[k + 1..]);
  }

  /** The disconnect path of `remove_player` marks the combatant knocked
      out before `_remove_combatant`, so the active-list lookup misses it
      and the index is never moved back.  When the leaver stood before the
      current turn, the active list read at the unchanged index (the
      current combatant, by CurrentWithin) is the next standing combatant:
      the one whose turn it was is skipped, where the index moved back by
      one would have kept it. */
  lemma DisconnectSkipsTurn(cs: seq<Combatant>, k: nat, idx: nat)
    requires k < |cs| && !cs[k].isKnockedOut
    requires forall j :: 0 <= j < k ==> cs[j].characterId != cs[k].characterId
    requires |Active(cs[..k])| < idx < |Active(cs)| - 1
    ensures var ko := cs[k].(isKnockedOut := true); var a := Active(RemoveFirst(cs[k := ko], ko));
      && |a| == |Active(cs)| - 1
      && a[idx] == Active(cs)[idx + 1]
      && a[idx - 1] == Active(cs)[idx]
  {
    DisconnectActive(cs, k);
    var pre := Active(cs[..k]);
    var post := Active(cs[k + 1..]);
    DropShifts(pre, cs[k], post, idx);
    DropShifts(pre, cs[k], post, idx - 1);
  }

  // ---------------------------------------------------------------------
  // State after passing the turn on (`_advance_turn`) and after an action's
  // closing check (`is_over` then `_end_combat` or `_advance_turn`)
  // ---------------------------------------------------------------------

  function AdvancedIndex(cs: seq<Combatant>, idx: nat): nat {
    var n := |ActiveAt(cs)|;
    if n == 0 then idx else (idx + 1) % n
  }

  function AdvancedRound(cs: seq<Combatant>, idx: nat, round: int): int {
    var n := |ActiveAt(cs)|;
    if n == 0 then round else round + (if (idx + 1) % n == 0 then 1 else 0)
  }

  function AdvancedTimer(cs: seq<Combatant>, idx: nat, timer: Option<CharId>, eventLoop: bool): Option<CharId> {
    if |ActiveAt(cs)| == 0 then None else TimerAfter(cs, AdvancedIndex(cs, idx), timer, eventLoop)
  }

  function AdvancedRegistry(cs: seq<Combatant>, reg: map<CharId, CombatInstance>): map<CharId, CombatInstance> {
    if |ActiveAt(cs)| == 0 then reg - Ids(cs) else reg
  }

  function AdvanceNotices(cs: seq<Combatant>, idx: nat, round: int, room: Room, sessions: map<CharId, Session>): seq<Announcement> {
    var n := |ActiveAt(cs)|;
    if n == 0 then [ToRoom(room, Outcome(cs))]
    else
      var i := (idx + 1) % n;
      (if i == 0 then [ToRoom(room, NewRound(round + 1))] else []) + TurnStart(cs, i, room, sessions)
  }

  /** With someone standing, `_advance_turn` moves the index to `next`,
      counts a round exactly when `next` wraps to 0, keeps the registry, and
      then starts the turn at `next`, which has a current combatant. */
  lemma AdvanceSteps(cs: seq<Combatant>, idx: nat, next: nat, round: int, timer: Option<CharId>, eventLoop: bool,
                     reg: map<CharId, CombatInstance>, room: Room, sessions: map<CharId, Session>)
    requires ActiveAt(cs) != [] && next == (idx + 1) % |ActiveAt(cs)|
    ensures AdvancedIndex(cs, idx) == next && CurrentAt(cs, next).Some?
    ensures AdvancedRound(cs, idx, round) == round + (if next == 0 then 1 else 0)
    ensures AdvancedTimer(cs, idx, timer, eventLoop) == TimerAfter(cs, next, timer, eventLoop)
    ensures AdvancedRegistry(cs, reg) == reg
    ensures AdvanceNotices(cs, idx, round, room, sessions)
      == (if next == 0 then [ToRoom(room, NewRound(round + 1))] else []) + TurnStart(cs, next, room, sessions)
  {
  }


  function ConcludedIndex(cs: seq<Combatant>, idx: nat): nat {
    if IsOver(cs) then idx else AdvancedIndex(cs, idx)
  }

  function ConcludedRound(cs: seq<Combatant>, idx: nat, round: int): int {
    if IsOver(cs) then round else AdvancedRound(cs, idx, round)
  }

  function ConcludedTimer(cs: seq<Combatant>, idx: nat, timer: Option<CharId>, eventLoop: bool): Option<CharId> {
    if IsOver(cs) then None else AdvancedTimer(cs, idx, timer, eventLoop)
  }

  function ConcludedRegistry(cs: seq<Combatant>, reg: map<CharId, CombatInstance>): map<CharId, CombatInstance> {
    if IsOver(cs) then reg - Ids(cs) else AdvancedRegistry(cs, reg)
  }

  function ConcludeNotices(cs: seq<Combatant>, idx: nat, round: int, room: Room, sessions: map<CharId, Session>): seq<Announcement> {
    if IsOver(cs) then [ToRoom(room, Outcome(cs))] else AdvanceNotices(cs, idx, round, room, sessions)
  }

  /** The list after the disconnect path of `remove_player`: the first
      combatant with the id is marked knocked out and then taken out. */
  function Disconnected(cs: seq<Combatant>, id: CharId): seq<Combatant> {
    match FirstWithId(cs, id)
    case None => cs
    case Some(k) =>
      var ko := cs[k].(isKnockedOut := true);
      RemoveFirst(cs[k := ko], ko)
  }

  /** The broadcast of `remove_player` for a combatant it found. */
  function LeaveNotices(cs: seq<Combatant>, id: CharId, room: Room): seq<Announcement> {
    match FirstWithId(cs, id)
    case None => []
    case Some(k) => [ToRoom(room, LeftCombat(cs[k].character.name))]
  }

  /** The list after a recovery clears the knocked-out flag of the recorded
      combatant, when it is still in the list. */
  function Revived(cs: seq<Combatant>, c: Combatant): seq<Combatant> {
    if c in cs then cs[IndexOf(cs, c) := c.(isKnockedOut := false)] else cs
  }

  /** A recovery that finds its combatant still in the list puts it back
      among the standing combatants: the active list grows by one. */
  lemma RevivedStands(cs: seq<Combatant>, c: Combatant)
    requires c in cs && c.isKnockedOut
    ensures !Revived(cs, c)[IndexOf(cs, c)].isKnockedOut
    ensures |Active(Revived(cs, c))| == |Active(cs)| + 1
  {
    var i := IndexOf(cs, c);
    var r := Revived(cs, c);
    ActiveSplit(cs, i);
    ActiveSplit(r, i);
    assert r[..i] == cs[..i] && r[i + 1..] == cs[i + 1..];
  }

  /** The target an NPC attacks: the enemy picked by `choice` is looked up
      again by name, so the first standing enemy with the same name (case
      ignored) is the one struck. */
  function NpcTarget(cs: seq<Combatant>, team: int, choice: nat): Option<nat> {
    var es := Enemies(cs, team);
    if es == [] then None else DefenderAt(cs, team, es[choice % |es|].character.name)
  }

  /** An NPC with an enemy left always finds a target, and it is a
      standing enemy carrying the picked enemy's name (an empty name
      selects the first enemy instead). */
  lemma NpcAlwaysFindsTarget(cs: seq<Combatant>, team: int, choice: nat)
    requires EnemyAt(cs, team) != []
    ensures var es := Enemies(cs, team); var t := NpcTarget(cs, team, choice);
      && t.Some? && t.value < |cs| && !cs[t.value].isKnockedOut && cs[t.value].team != team
      && (es[choice % |es|].character.name != "" ==>
            Lower(cs[t.value].character.name) == Lower(es[choice % |es|].character.name))
  {
    var ps := EnemyAt(cs, team);
    var es := Enemies(cs, team);
    ModBound(choice, |es|);
    var j := choice % |es|;
    var name := es[j].character.name;
    assert es[j] == cs[ps[j]];
    assert Lower(cs[ps[j]].character.name) == Lower(name);
  }

  /** The id of the combatant whose turn it is, if anyone stands. */
  function TurnOf(cs: seq<Combatant>, idx: nat): Option<CharId> {
    match CurrentAt(cs, idx)
    case None => None
    case Some(p) => Some(cs[p].characterId)
  }

  // ---------------------------------------------------------------------
  // A combat's state as a value, and each handler as a step on it
  // ---------------------------------------------------------------------

  /** What the combat handlers change: the instance's list, turn index,
      round and pending timer, and the manager's registry, announcement log
      and scheduled recoveries.  (Hit points live on the characters.) */
  datatype Fight = Fight(combatants: seq<Combatant>, index: nat, round: int, timer: Option<CharId>,
                         registry: map<CharId, CombatInstance>, announcements: seq<Announcement>,
                         recoveries: seq<Recovery>)

  /** `_end_combat`: no timer, every combatant unregistered, the outcome
      announced. */
  function Ended(f: Fight, room: Room): (r: Fight)
    ensures r.combatants == f.combatants && r.index == f.index && r.round == f.round && r.recoveries == f.recoveries
    ensures r.timer.None? && forall id :: id in Ids(f.combatants) ==> id !in r.registry
  {
    f.(timer := None, registry := f.registry - Ids(f.combatants),
       announcements := f.announcements + [ToRoom(room, Outcome(f.combatants))])
  }

  /** `_advance_turn`. */
  function Advanced(f: Fight, room: Room, sessions: map<CharId, Session>, eventLoop: bool): Fight {
    var cs := f.combatants;
    f.(index := AdvancedIndex(cs, f.index), round := AdvancedRound(cs, f.index, f.round),
       timer := AdvancedTimer(cs, f.index, f.timer, eventLoop), registry := AdvancedRegistry(cs, f.registry),
       announcements := f.announcements + AdvanceNotices(cs, f.index, f.round, room, sessions))
  }

  /** The closing check of every action: `_end_combat` when it is over,
      otherwise `_advance_turn`. */
  function Concluded(f: Fight, room: Room, sessions: map<CharId, Session>, eventLoop: bool): Fight {
    if IsOver(f.combatants) then Ended(f, room) else Advanced(f, room, sessions, eventLoop)
  }

  /** Passing the turn on never touches the list or the recoveries; the
      turn goes to a standing combatant unless the combat ends, and then
      the whole list is unregistered. */
  lemma ConcludedKeeps(f: Fight, room: Room, sessions: map<CharId, Session>, eventLoop: bool)
    ensures var g := Concluded(f, room, sessions, eventLoop);
      g.combatants == f.combatants && g.recoveries == f.recoveries
    ensures var g := Concluded(f, room, sessions, eventLoop); var cs := f.combatants;
      IsOver(cs) ==> g.timer.None? && g.registry == f.registry - Ids(cs) && g.index == f.index && g.round == f.round
    ensures var g := Concluded(f, room, sessions, eventLoop); var cs := f.combatants;
      !IsOver(cs) ==> CurrentAt(cs, g.index).Some? && g.registry == f.registry
  {
    if !IsOver(f.combatants) {
      NotOverHasCurrent(f.combatants, 0);
      AdvanceSteps(f.combatants, f.index, (f.index + 1) % |ActiveAt(f.combatants)|, f.round, f.timer, eventLoop,
                   f.registry, room, sessions);
    }
  }

  /** The damage combatant `p` deals `d` with the given rolls. */
  function StrikeDamage(cs: seq<Combatant>, p: nat, d: nat, hit: bool, variance: int): int
    requires p < |cs| && d < |cs|
    reads CharactersOf(cs)
  {
    assert cs[p] in cs;
    Damage(cs[p].character.baseAttack, cs[p].character.equippedWeapon, cs[d].isDefending, hit, variance).0
  }

  /** Whether the strike brings `d` to zero hit points or below. */
  function KnocksOut(cs: seq<Combatant>, p: nat, d: nat, hit: bool, variance: int): bool
    requires p < |cs| && d < |cs|
    reads CharactersOf(cs)
  {
    assert cs[d] in cs;
    hit && cs[d].character.hp - StrikeDamage(cs, p, d, hit, variance) <= 0
  }

  /** The defender's hit points after the strike (with the recovery done at
      once when there is no event loop to schedule it). */
  function HpAfterStrike(cs: seq<Combatant>, p: nat, d: nat, hit: bool, variance: int, eventLoop: bool): int
    requires p < |cs| && d < |cs|
    reads CharactersOf(cs)
  {
    assert cs[d] in cs;
    var t := cs[d];
    if !hit then t.character.hp
    else if !KnocksOut(cs, p, d, hit, variance) then t.character.hp - StrikeDamage(cs, p, d, hit, variance)
    else if !t.isNpc && !eventLoop then 1
    else 0
  }

  /** The defender character's knocked-out flag after the strike. */
  function KnockedOutAfterStrike(cs: seq<Combatant>, p: nat, d: nat, hit: bool, variance: int, eventLoop: bool): bool
    requires p < |cs| && d < |cs|
    reads CharactersOf(cs)
  {
    assert cs[d] in cs;
    if KnocksOut(cs, p, d, hit, variance) then cs[d].isNpc || eventLoop else cs[d].character.isKnockedOut
  }

  /** The hit points a strike leaves: a miss changes nothing; a hit takes
      at least one point off and, if that leaves none, the defender is
      down at 0, or at 1 for a player restored at once. */
  lemma StrikeHp(cs: seq<Combatant>, p: nat, d: nat, hit: bool, variance: int, eventLoop: bool)
    requires p < |cs| && d < |cs|
    ensures var hp0 := cs[d].character.hp; var hp := HpAfterStrike(cs, p, d, hit, variance, eventLoop);
      && (!hit ==> hp == hp0 && !KnocksOut(cs, p, d, hit, variance))
      && (hit && !KnocksOut(cs, p, d, hit, variance) ==> 0 < hp < hp0)
      && (KnocksOut(cs, p, d, hit, variance) ==> hp == (if !cs[d].isNpc && !eventLoop then 1 else 0))
      && (KnockedOutAfterStrike(cs, p, d, hit, variance, eventLoop) != cs[d].character.isKnockedOut ==> KnocksOut(cs, p, d, hit, variance))
  {
    assert cs[p] in cs;
    DamageBounds(cs[p].character.baseAttack, cs[p].character.equippedWeapon, cs[d].isDefending, hit, 0);
  }

  /** The hit-or-miss part of `_handle_attack` and the attacker's reset:
      a knockout marks the defender's entry, a player knocked out gets a
      recovery scheduled when there is an event loop, the room hears of
      the hit or miss, and the attacker stops defending. */
  function Struck(f: Fight, p: nat, d: nat, hit: bool, variance: int, room: Room, combat: CombatInstance, eventLoop: bool): Fight
    requires p < |f.combatants| && d < |f.combatants|
    reads CharactersOf(f.combatants)
  {
    var cs := f.combatants;
    assert cs[p] in cs && cs[d] in cs;
    var t := cs[d];
    var ko := KnocksOut(cs, p, d, hit, variance);
    f.(combatants := (if ko then cs[d := t.(isKnockedOut := true)] else cs)[p := cs[p].(isDefending := false)],
       announcements := f.announcements
         + StrikeNotices(room, cs[p], t, cs[p].character.equippedWeapon, hit, StrikeDamage(cs, p, d, hit, variance), t.character.hp),
       recoveries := f.recoveries + (if ko && !t.isNpc && eventLoop then [Recovery(combat, t.(isKnockedOut := true))] else []))
  }

  /** A strike changes two entries of the list at most: the attacker's,
      which stops defending, and the defender's, knocked out exactly when
      its hit points run out. */
  lemma StruckEntries(f: Fight, p: nat, d: nat, hit: bool, variance: int, room: Room, combat: CombatInstance, eventLoop: bool)
    requires p < |f.combatants| && d < |f.combatants| && p != d
    ensures var g := Struck(f, p, d, hit, variance, room, combat, eventLoop); var cs := f.combatants;
      && |g.combatants| == |cs|
      && (forall k :: 0 <= k < |cs| && k != p && k != d ==> g.combatants[k] == cs[k])
      && g.combatants[p] == cs[p].(isDefending := false)
      && g.combatants[d].isKnockedOut == (cs[d].isKnockedOut || KnocksOut(cs, p, d, hit, variance))
      && SameButKnockout(g.combatants[d], cs[d])
      && g.index == f.index && g.round == f.round && g.timer == f.timer && g.registry == f.registry
  {
  }

  /** `a` is `b` with at most its knocked-out flag changed. */
  predicate SameButKnockout(a: Combatant, b: Combatant) {
    a == b.(isKnockedOut := a.isKnockedOut)
  }

  /** `_handle_attack` by combatant `p` naming `name`: no enemy left ends
      the combat; a name matching no standing enemy changes nothing;
      otherwise the strike, then the closing check. */
  function Attacked(f: Fight, p: nat, name: string, hit: bool, variance: int, room: Room, combat: CombatInstance,
                    sessions: map<CharId, Session>, eventLoop: bool): Fight
    requires p < |f.combatants|
    reads CharactersOf(f.combatants)
  {
    var cs := f.combatants;
    if EnemyAt(cs, cs[p].team) == [] then Ended(f, room)
    else match DefenderAt(cs, cs[p].team, name)
      case None => f
      case Some(d) => Concluded(Struck(f, p, d, hit, variance, room, combat, eventLoop), room, sessions, eventLoop)
  }

  /** What `_handle_attack` tells the attacker. */
  function AttackReply(cs: seq<Combatant>, p: nat, name: string): seq<string>
    requires p < |cs|
  {
    if EnemyAt(cs, cs[p].team) == [] then [NO_ENEMIES]
    else if DefenderAt(cs, cs[p].team, name).None? then [InvalidTarget(name, Names(Enemies(cs, cs[p].team)))]
    else []
  }

  /** The entry an attack by `p` naming `name` strikes, if any. */
  function AttackTarget(cs: seq<Combatant>, p: nat, name: string): (r: Option<nat>)
    requires p < |cs|
    ensures r.Some? ==> r.value < |cs| && !cs[r.value].isKnockedOut && cs[r.value].team != cs[p].team
  {
    if EnemyAt(cs, cs[p].team) == [] then None else DefenderAt(cs, cs[p].team, name)
  }

  /** `_handle_defend`. */
  function Defended(f: Fight, p: nat, room: Room, sessions: map<CharId, Session>, eventLoop: bool): Fight
    requires p < |f.combatants|
  {
    var cs := f.combatants;
    Concluded(f.(combatants := cs[p := cs[p].(isDefending := true)],
                 announcements := f.announcements + [ToRoom(room, DefensiveStance(cs[p].character.name))]),
              room, sessions, eventLoop)
  }

  /** `_handle_flee`: an escape removes the combatant and its registry
      entry, then the closing check; a failure stops it defending and
      passes the turn on. */
  function Fled(f: Fight, p: nat, escapes: bool, room: Room, sessions: map<CharId, Session>, eventLoop: bool): Fight
    requires p < |f.combatants|
  {
    var cs := f.combatants;
    var c := cs[p];
    if escapes then
      Concluded(f.(combatants := RemoveFirst(cs, c), index := IndexAfterRemoval(cs, c, f.index),
                   registry := f.registry - {c.characterId},
                   announcements := f.announcements + [ToRoom(room, Flees(c.character.name))]),
                room, sessions, eventLoop)
    else
      Advanced(f.(combatants := cs[p := c.(isDefending := false)],
                  announcements := f.announcements + [ToRoom(room, FleeFails(c.character.name))]),
               room, sessions, eventLoop)
  }

  /** The turn of combatant `p` with the parsed `action` and `arg`: the
      timer is cancelled first, an unknown action changes nothing else. */
  function TurnTaken(f: Fight, p: nat, action: CombatAction, arg: string, hit: bool, variance: int, escapes: bool,
                     room: Room, combat: CombatInstance, sessions: map<CharId, Session>, eventLoop: bool): Fight
    requires p < |f.combatants|
    reads CharactersOf(f.combatants)
  {
    Acted(f.(timer := None), p, action, arg, hit, variance, escapes, room, combat, sessions, eventLoop)
  }

  /** The parsed action itself, once the timer is cancelled. */
  function Acted(g: Fight, p: nat, action: CombatAction, arg: string, hit: bool, variance: int, escapes: bool,
                 room: Room, combat: CombatInstance, sessions: map<CharId, Session>, eventLoop: bool): Fight
    requires p < |g.combatants|
    reads CharactersOf(g.combatants)
  {
    match action
    case AttackAction => Attacked(g, p, arg, hit, variance, room, combat, sessions, eventLoop)
    case DefendAction => Defended(g, p, room, sessions, eventLoop)
    case FleeAction => Fled(g, p, escapes, room, sessions, eventLoop)
    case UnknownAction => g
  }

  /** What the acting player is told. */
  function TurnReply(cs: seq<Combatant>, p: nat, action: CombatAction, arg: string, escapes: bool): seq<string>
    requires p < |cs|
  {
    match action
    case AttackAction => AttackReply(cs, p, arg)
    case DefendAction => []
    case FleeAction => if escapes then [ESCAPED] else []
    case UnknownAction => [COMBAT_ACTIONS]
  }

  /** The entry the turn strikes, if any. */
  function TurnStrike(cs: seq<Combatant>, p: nat, action: CombatAction, arg: string): (r: Option<nat>)
    requires p < |cs|
    ensures r.Some? ==> action == AttackAction && r.value < |cs| && !cs[r.value].isKnockedOut && cs[r.value].team != cs[p].team
  {
    if action == AttackAction then AttackTarget(cs, p, arg) else None
  }

  /** The characters a strike at `d` may change. */
  function StruckCharacter(cs: seq<Combatant>, d: Option<nat>): set<Character> {
    if d.Some? && d.value < |cs| then {cs[d.value].character} else {}
  }

  /** A turn that is refused (an unknown word, or an attack naming no
      standing enemy while enemies remain) only cancels the timer, tells
      the player why, and strikes nobody. */
  lemma RefusedTurnKeepsFight(f: Fight, p: nat, action: CombatAction, arg: string, hit: bool, variance: int, escapes: bool,
                              room: Room, combat: CombatInstance, sessions: map<CharId, Session>, eventLoop: bool)
    requires p < |f.combatants|
    requires var cs := f.combatants;
      action == UnknownAction
      || (action == AttackAction && EnemyAt(cs, cs[p].team) != [] && DefenderAt(cs, cs[p].team, arg).None?)
    ensures TurnTaken(f, p, action, arg, hit, variance, escapes, room, combat, sessions, eventLoop) == f.(timer := None)
    ensures TurnStrike(f.combatants, p, action, arg).None?
    ensures TurnReply(f.combatants, p, action, arg, escapes) != []
  {
  }

  /** `_npc_take_turn` for the NPC at `p`: the enemy `choice` picks is
      attacked by name; with no enemy nothing happens. */
  function NpcTurn(f: Fight, p: nat, choice: nat, hit: bool, variance: int, room: Room, combat: CombatInstance,
                   sessions: map<CharId, Session>, eventLoop: bool): Fight
    requires p < |f.combatants|
    reads CharactersOf(f.combatants)
  {
    var cs := f.combatants;
    var es := Enemies(cs, cs[p].team);
    if es == [] then f else Attacked(f, p, es[choice % |es|].character.name, hit, variance, room, combat, sessions, eventLoop)
  }

  class CombatInstance {
    var combatants: seq<Combatant>
    var currentTurnIndex: nat
    const room: Room
    /** The character whose turn timer is pending, if any. */
    var timer: Option<CharId>
    var roundNumber: int

    constructor (room: Room)
      ensures combatants == [] && currentTurnIndex == 0 && this.room == room
      ensures timer == None && roundNumber == 1
    {
      combatants := [];
      currentTurnIndex := 0;
      this.room := room;
      timer := None;
      roundNumber := 1;
    }
  }

  class CombatManager {
    /** `active_combats`: the instance each fighting character is in. */
    var activeCombats: map<CharId, CombatInstance>
    var announcements: seq<Announcement>
    /** Recoveries waiting on the event loop. */
    var recoveries: seq<Recovery>
    /** Whether an asyncio event loop is running. */
    const eventLoop: bool

    constructor (eventLoop: bool)
      ensures activeCombats == map[] && announcements == [] && recoveries == []
      ensures this.eventLoop == eventLoop
    {
      activeCombats := map[];
      announcements := [];
      recoveries := [];
      this.eventLoop := eventLoop;
    }

    /** `is_in_combat`. */
    predicate IsInCombat(id: CharId)
      reads this
    {
      id in activeCombats
    }

    /** The state the combat handlers change, for `combat`. */
    ghost function FightOf(combat: CombatInstance): Fight
      reads this, combat
    {
      Fight(combat.combatants, combat.currentTurnIndex, combat.roundNumber, combat.timer,
            activeCombats, announcements, recoveries)
    }

    /** `_end_combat`: cancel the timer, announce the winners (or that no
        one is left standing) and unregister every combatant. */
    method EndCombat(combat: CombatInstance)
      modifies combat`timer, this`activeCombats, this`announcements
      ensures combat.timer == None
      ensures activeCombats == old(activeCombats) - Ids(combat.combatants)
      ensures forall id :: id in Ids(combat.combatants) ==> !IsInCombat(id)
      ensures announcements == old(announcements) + [ToRoom(combat.room, Outcome(combat.combatants))]
    {
      combat.timer := None;
      announcements := announcements + [ToRoom(combat.room, Outcome(combat.combatants))];
      var cs := combat.combatants;
      var i := 0;
      while i < |cs|
        invariant 0 <= i <= |cs|
        invariant activeCombats == old(activeCombats) - Ids(cs[..i])
        invariant combat.timer == None && combat.combatants == cs
        invariant announcements == old(announcements) + [ToRoom(combat.room, Outcome(cs))]
      {
        assert Ids(cs[..i + 1]) == Ids(cs[..i]) + {cs[i].characterId} by {
          assert cs[..i + 1] == cs[..i] + [cs[i]];
        }
        activeCombats := activeCombats - {cs[i].characterId};
        i := i + 1;
      }
      assert cs[..i] == cs;
    }

    /** `_roll_initiative`: each combatant's initiative is its roll plus a
        tenth of its stamina (rounded down), then the list is sorted from
        highest to lowest, keeping the order of ties. */
    method RollInitiative(combat: CombatInstance, roll: nat -> int)
      modifies combat`combatants
      ensures combat.combatants == SortDesc(old(Rolled(combat.combatants, roll)))
    {
      var cs := combat.combatants;
      var rolled: seq<Combatant> := [];
      var i := 0;
      while i < |cs|
        invariant 0 <= i <= |cs|
        invariant rolled == Rolled(cs[..i], roll)
      {
        assert cs[..i + 1][..i] == cs[..i];
        rolled := rolled + [cs[i].(initiative := Initiative(roll(i), cs[i].character.stamina))];
        i := i + 1;
      }
      assert cs[..i] == cs;
      combat.combatants := SortDesc(rolled);
    }

    /** The recruiting loop of `start_combat` for one team. */
    method Recruit(ids: seq<CharId>, team: int, world: WorldManager) returns (cs: seq<Combatant>)
      ensures cs == Recruits(ids, team, activeCombats, world.sessions)
    {
      cs := [];
      var i := 0;
      while i < |ids|
        invariant 0 <= i <= |ids|
        invariant cs == Recruits(ids[..i], team, activeCombats, world.sessions)
      {
        assert ids[..i + 1][..i] == ids[..i];
        var id := ids[i];
        if id !in activeCombats && id in world.sessions {
          cs := cs + [NewCombatant(id, world.sessions[id].player, team, false)];
        }
        i := i + 1;
      }
      assert ids[..i] == ids;
    }

    /** The session search of `start_combat` for a player target. */
    method FindSession(target: Character, world: WorldManager) returns (r: Option<CharId>)
      requires world.Valid()
      ensures r == SessionOf(world.sessionOrder, world.sessions, target)
    {
      var order := world.sessionOrder;
      var i := 0;
      while i < |order|
        invariant 0 <= i <= |order|
        invariant SessionOf(order, world.sessions, target) == SessionOf(order[i..], world.sessions, target)
      {
        if world.sessions[order[i]].player == target {
          return Some(order[i]);
        }
        assert order[i..][1..] == order[i + 1..];
        i := i + 1;
      }
      r := None;
    }

    /** The tail of `start_combat` before the announcements: roll and sort
        initiative, then register every combatant to the instance. */
    method Enlist(combat: CombatInstance, cs: seq<Combatant>, roll: nat -> int, ghost sessions: map<CharId, Session>,
                  ghost rolled: seq<Combatant>)
      requires forall k :: 0 <= k < |cs| ==> Enlistable(cs[k], activeCombats, sessions)
      requires rolled == Rolled(cs, roll)
      modifies combat`combatants, this`activeCombats
      ensures combat.combatants == SortDesc(rolled)
      ensures Descending(combat.combatants) && |combat.combatants| == |cs|
      ensures Ids(combat.combatants) == Ids(cs)
      ensures forall j :: 0 <= j < |combat.combatants| ==> Enlistable(combat.combatants[j], old(activeCombats), sessions)
      ensures activeCombats == Registered(old(activeCombats), combat.combatants, combat)
    {
      combat.combatants := cs;
      assert Rolled(cs, roll) == rolled;
      RollInitiative(combat, roll);
      ghost var sorted := combat.combatants;
      assert sorted == SortDesc(rolled);
      SortDescSorted(rolled);
      SortKeepsEntries(cs, rolled, activeCombats, sessions);
      Register(combat);
      assert combat.combatants == sorted;
    }

    /** The registering loop of `start_combat`. */
    method Register(combat: CombatInstance)
      modifies this`activeCombats
      ensures activeCombats == Registered(old(activeCombats), combat.combatants, combat)
    {
      var cs := combat.combatants;
      var i := 0;
      while i < |cs|
        invariant 0 <= i <= |cs|
        invariant activeCombats == Registered(old(activeCombats), cs[..i], combat)
      {
        assert cs[..i + 1][..i] == cs[..i];
        activeCombats := activeCombats[cs[i].characterId := combat];
        i := i + 1;
      }
      assert cs[..i] == cs;
    }

    /** One side of `start_combat`: `leader` and the leader's party members
        in the room (the leader first when the party lookup misses them),
        minus whoever is already fighting or has no session. */
    method Team(leader: CharId, team: int, room: Room, world: WorldManager, party: Party.PartyManager)
      returns (cs: seq<Combatant>)
      requires party.Valid()
      ensures Party.Keyed(party.partyOrder, party.parties)
      ensures cs == Recruits(SideOf(leader, room.uid, party.partyOrder, party.parties, world.sessions), team, activeCombats, world.sessions)
      ensures leader in world.sessions && leader !in activeCombats ==> leader in Ids(cs)
      ensures forall j :: 0 <= j < |cs| ==>
        Enlistable(cs[j], activeCombats, world.sessions) && !cs[j].isNpc && cs[j].team == team
    {
      Party.OrderKeyed(party.partyOrder, party.parties);
      var ids := party.GetPartyMembersInRoom(leader, room.uid, world);
      if leader !in ids {
        ids := [leader] + ids;
      }
      cs := Recruit(ids, team, world);
      RecruitsExact(ids, team, activeCombats, world.sessions);
    }

    /** The team-building part of `start_combat`: team 0 around the
        attacker, then team 1 around a player target, or the NPC target
        alone.  A player target without a session, or already fighting, is
        a refusal. */
    method AssembleTeams(attackerId: CharId, target: Character, room: Room, world: WorldManager,
                         party: Party.PartyManager, uidHash: int)
      returns (cs: seq<Combatant>, refusal: Option<string>)
      requires world.Valid() && party.Valid()
      requires attackerId in world.sessions && attackerId !in activeCombats
      ensures Party.Keyed(party.partyOrder, party.parties)
      ensures refusal == old(TargetRefusal(target, world.sessionOrder, world.sessions, activeCombats))
      ensures refusal.None? ==>
        cs == old(Teams(attackerId, target, room.uid, party.partyOrder, party.parties, world.sessionOrder, world.sessions, activeCombats, uidHash))
      ensures refusal.None? ==> attackerId in Ids(cs)
      ensures refusal.None? ==> forall j :: 0 <= j < |cs| ==> Enlistable(cs[j], activeCombats, world.sessions)
    {
      cs := Team(attackerId, 0, room, world, party);
      if target.kind == Player {
        var targetId := FindSession(target, world);
        if targetId.None? {
          return cs, Some(TARGET_NOT_FOUND);
        }
        if targetId.value in activeCombats {
          return cs, Some(TargetBusy(target.name));
        }
        var ds := Team(targetId.value, 1, room, world, party);
        assert Ids(cs + ds) == Ids(cs) + Ids(ds);
        cs := cs + ds;
      } else {
        var npc := NewCombatant(NpcId(uidHash), target, 1, true);
        assert Ids(cs + [npc]) == Ids(cs) + {npc.characterId};
        cs := cs + [npc];
      }
      refusal := None;
    }

    /** `start_combat`: the attacker and the party members in the room
        (team 0) against the target and, for a player target, the target's
        party members in the room (team 1).  Characters already fighting or
        without a session are left out.  A refusal registers nobody;
        otherwise every enlisted character is registered to the new
        instance, sorted by initiative, and the first turn starts. */
    /** The end of `start_combat` once the teams stand: fewer than two
        combatants cannot fight; otherwise a new instance is launched and
        registered under every combatant. */
    method Begin(attackerId: CharId, target: Character, room: Room, world: WorldManager,
                 teams: seq<Combatant>, roll: nat -> int, ghost rolled: seq<Combatant>)
      returns (msgs: seq<string>)
      requires attackerId in world.sessions && attackerId in Ids(teams)
      requires rolled == Rolled(teams, roll)
      requires forall k :: 0 <= k < |teams| ==> Enlistable(teams[k], activeCombats, world.sessions)
      modifies this`activeCombats, this`announcements
      ensures msgs == (if |teams| < 2 then [CANNOT_START] else [])
      ensures msgs == [] ==> attackerId in activeCombats && activeCombats[attackerId].combatants == SortDesc(rolled)
      ensures msgs != [] ==> activeCombats == old(activeCombats) && announcements == old(announcements)
      ensures msgs == [] ==>
        && attackerId in activeCombats && fresh(activeCombats[attackerId])
        && var combat := activeCombats[attackerId]; var cs := combat.combatants;
        && |cs| >= 2 && Descending(cs)
        && activeCombats.Keys == old(activeCombats).Keys + Ids(cs)
        && (forall id :: id in Ids(cs) ==> activeCombats[id] == combat)
        && (forall id :: id in old(activeCombats) && id !in Ids(cs) ==> activeCombats[id] == old(activeCombats)[id])
        && (forall j :: 0 <= j < |cs| ==> Enlistable(cs[j], old(activeCombats), world.sessions))
        && attackerId in Ids(cs)
        && combat.currentTurnIndex == 0 && combat.roundNumber == 1 && combat.room == room
        && announcements == old(announcements)
             + [ToRoom(room, Begins(world.sessions[attackerId].player.name, target.name)), ToRoom(room, TurnOrder(TurnOrderOf(cs)))]
             + TurnStart(cs, 0, room, world.sessions)
    {
      if |teams| < 2 {
        return [CANNOT_START];
      }
      msgs := [];
      var combat := new CombatInstance(room);
      assert Rolled(teams, roll) == rolled;
      Launch(combat, teams, roll, world, Begins(world.sessions[attackerId].player.name, target.name), rolled);
      assert activeCombats[attackerId] == combat;
    }

    /** `start_combat` once the attacker is known to be connected and free:
        assemble the teams, then refuse or begin. */
    method Engage(attackerId: CharId, target: Character, room: Room, world: WorldManager,
                  party: Party.PartyManager, uidHash: int, roll: nat -> int)
      returns (msgs: seq<string>)
      requires world.Valid() && party.Valid()
      requires attackerId in world.sessions && attackerId !in activeCombats
      requires Party.Keyed(party.partyOrder, party.parties)
      modifies this`activeCombats, this`announcements
      ensures var refusal := old(TargetRefusal(target, world.sessionOrder, world.sessions, activeCombats));
        refusal.Some? ==> msgs == [refusal.value]
      ensures old(TargetRefusal(target, world.sessionOrder, world.sessions, activeCombats)).None? ==>
        var ts := old(Teams(attackerId, target, room.uid, party.partyOrder, party.parties, world.sessionOrder,
                            world.sessions, activeCombats, uidHash));
        msgs == (if |ts| < 2 then [CANNOT_START] else [])
      ensures old(TargetRefusal(target, world.sessionOrder, world.sessions, activeCombats)).None? && msgs == [] ==>
        var ts := old(Teams(attackerId, target, room.uid, party.partyOrder, party.parties, world.sessionOrder,
                            world.sessions, activeCombats, uidHash));
        attackerId in activeCombats && activeCombats[attackerId].combatants == SortDesc(old(Rolled(ts, roll)))
      ensures msgs != [] ==> activeCombats == old(activeCombats) && announcements == old(announcements)
      ensures msgs == [] ==>
        && attackerId in activeCombats && fresh(activeCombats[attackerId])
        && var combat := activeCombats[attackerId]; var cs := combat.combatants;
        && |cs| >= 2 && Descending(cs)
        && activeCombats.Keys == old(activeCombats).Keys + Ids(cs)
        && (forall id :: id in Ids(cs) ==> activeCombats[id] == combat)
        && (forall id :: id in old(activeCombats) && id !in Ids(cs) ==> activeCombats[id] == old(activeCombats)[id])
        && (forall j :: 0 <= j < |cs| ==> Enlistable(cs[j], old(activeCombats), world.sessions))
        && attackerId in Ids(cs)
        && combat.currentTurnIndex == 0 && combat.roundNumber == 1 && combat.room == room
        && announcements == old(announcements)
             + [ToRoom(room, Begins(world.sessions[attackerId].player.name, target.name)), ToRoom(room, TurnOrder(TurnOrderOf(cs)))]
             + TurnStart(cs, 0, room, world.sessions)
    {
      var cs, refusal := AssembleTeams(attackerId, target, room, world, party, uidHash);
      if refusal.Some? {
        return [refusal.value];
      }
      assert Rolled(cs, roll) == old(Rolled(cs, roll));
      assert activeCombats == old(activeCombats) && announcements == old(announcements);
      assert world.sessions == old(world.sessions);
      msgs := Begin(attackerId, target, room, world, cs, roll, Rolled(cs, roll));
    }

    method StartCombat(attackerId: CharId, target: Character, room: Room, world: WorldManager,
                       party: Party.PartyManager, uidHash: int, roll: nat -> int)
      returns (msgs: seq<string>)
      requires world.Valid() && party.Valid()
      modifies this`activeCombats, this`announcements
      ensures Party.Keyed(party.partyOrder, party.parties)
      ensures attackerId !in world.sessions ==> msgs == [ERROR_STARTING]
      ensures attackerId in world.sessions && attackerId in old(activeCombats) ==> msgs == [ALREADY_FIGHTING]
      ensures attackerId in world.sessions && attackerId !in old(activeCombats) ==>
        var refusal := old(TargetRefusal(target, world.sessionOrder, world.sessions, activeCombats));
        refusal.Some? ==> msgs == [refusal.value]
      ensures attackerId in world.sessions && attackerId !in old(activeCombats)
              && old(TargetRefusal(target, world.sessionOrder, world.sessions, activeCombats)).None? ==>
        var ts := old(Teams(attackerId, target, room.uid, party.partyOrder, party.parties, world.sessionOrder,
                            world.sessions, activeCombats, uidHash));
        msgs == (if |ts| < 2 then [CANNOT_START] else [])
      ensures attackerId in world.sessions && attackerId !in old(activeCombats)
              && old(TargetRefusal(target, world.sessionOrder, world.sessions, activeCombats)).None? && msgs == [] ==>
        var ts := old(Teams(attackerId, target, room.uid, party.partyOrder, party.parties, world.sessionOrder,
                            world.sessions, activeCombats, uidHash));
        attackerId in activeCombats && activeCombats[attackerId].combatants == SortDesc(old(Rolled(ts, roll)))
      ensures msgs != [] ==> activeCombats == old(activeCombats) && announcements == old(announcements)
      ensures msgs == [] ==>
        && attackerId in activeCombats && fresh(activeCombats[attackerId])
        && var combat := activeCombats[attackerId]; var cs := combat.combatants;
        && |cs| >= 2 && Descending(cs)
        && activeCombats.Keys == old(activeCombats).Keys + Ids(cs)
        && (forall id :: id in Ids(cs) ==> activeCombats[id] == combat)
        && (forall id :: id in old(activeCombats) && id !in Ids(cs) ==> activeCombats[id] == old(activeCombats)[id])
        && (forall j :: 0 <= j < |cs| ==> Enlistable(cs[j], old(activeCombats), world.sessions))
        && attackerId in Ids(cs)
        && combat.currentTurnIndex == 0 && combat.roundNumber == 1 && combat.room == room
        && announcements == old(announcements)
             + [ToRoom(room, Begins(world.sessions[attackerId].player.name, target.name)), ToRoom(room, TurnOrder(TurnOrderOf(cs)))]
             + TurnStart(cs, 0, room, world.sessions)
    {
      Party.OrderKeyed(party.partyOrder, party.parties);
      if attackerId !in world.sessions {
        return [ERROR_STARTING];
      }
      if attackerId in activeCombats {
        return [ALREADY_FIGHTING];
      }
      msgs := Engage(attackerId, target, room, world, party, uidHash, roll);
    }

    /** The second half of `start_combat`: roll, sort and register the
        combatants, announce the fight and its turn order to the room, and
        start the first turn, which goes to a standing combatant. */
    method Launch(combat: CombatInstance, cs: seq<Combatant>, roll: nat -> int, world: WorldManager, begins: CombatEvent,
                  ghost rolled: seq<Combatant>)
      requires cs != []
      requires rolled == Rolled(cs, roll)
      requires forall k :: 0 <= k < |cs| ==> Enlistable(cs[k], activeCombats, world.sessions)
      modifies combat`combatants, combat`timer, this`activeCombats, this`announcements
      ensures combat.combatants == SortDesc(rolled)
      ensures var cs' := combat.combatants;
        && Descending(cs') && |cs'| == |cs| && Ids(cs') == Ids(cs)
        && (forall j :: 0 <= j < |cs'| ==> Enlistable(cs'[j], old(activeCombats), world.sessions))
        && activeCombats.Keys == old(activeCombats).Keys + Ids(cs)
        && (forall id :: id in Ids(cs) ==> activeCombats[id] == combat)
        && (forall id :: id in old(activeCombats) && id !in Ids(cs) ==> activeCombats[id] == old(activeCombats)[id])
        && announcements == old(announcements) + [ToRoom(combat.room, begins), ToRoom(combat.room, TurnOrder(TurnOrderOf(cs')))]
                            + TurnStart(cs', combat.currentTurnIndex, combat.room, world.sessions)
    {
      Enlist(combat, cs, roll, world.sessions, rolled);
      RegisteredExact(old(activeCombats), combat.combatants, combat);
      ghost var registry := activeCombats;
      announcements := announcements + [ToRoom(combat.room, begins), ToRoom(combat.room, TurnOrder(TurnOrderOf(combat.combatants)))];
      assert !combat.combatants[0].isKnockedOut;
      assert CurrentAt(combat.combatants, combat.currentTurnIndex).Some?;
      StartTurn(combat, world);
      assert activeCombats == registry;
    }

    /** `_start_turn`. */
    method StartTurn(combat: CombatInstance, world: WorldManager)
      modifies combat`timer, this`activeCombats, this`announcements
      ensures var cs := combat.combatants;
        && activeCombats == (if CurrentAt(cs, combat.currentTurnIndex).None? then old(activeCombats) - Ids(cs)
                             else old(activeCombats))
        && combat.timer == TimerAfter(cs, combat.currentTurnIndex, old(combat.timer), eventLoop)
        && announcements == old(announcements) + TurnStart(cs, combat.currentTurnIndex, combat.room, world.sessions)
    {
      var cs := combat.combatants;
      ghost var notices := TurnStart(cs, combat.currentTurnIndex, combat.room, world.sessions);
      var p := CurrentAt(cs, combat.currentTurnIndex);
      if p.None? {
        EndCombat(combat);
        assert announcements == old(announcements) + notices;
        return;
      }
      var current := cs[p.value];
      if current.isNpc {
        assert notices == [];
        return;
      }
      if current.characterId in world.sessions {
        announcements := announcements + [ToPlayer(current.characterId, YourTurn(Names(Enemies(cs, current.team))))];
      }
      assert announcements == old(announcements) + notices;
      StartTimer(current.characterId, combat);
    }

    /** `_start_timer`: cancel, then (with an event loop) arm a timeout for
        `id`. */
    method StartTimer(id: CharId, combat: CombatInstance)
      modifies combat`timer
      ensures combat.timer == if eventLoop then Some(id) else None
    {
      combat.timer := None;
      if eventLoop {
        combat.timer := Some(id);
      }
    }

    /** The index step of `_advance_turn`: move to `next`, and when it wraps
        to zero count and announce a new round. */
    method MoveTurn(combat: CombatInstance, next: nat)
      modifies combat`currentTurnIndex, combat`roundNumber, this`announcements
      ensures combat.currentTurnIndex == next
      ensures combat.roundNumber == old(combat.roundNumber) + (if next == 0 then 1 else 0)
      ensures announcements == old(announcements) + (if next == 0 then [ToRoom(combat.room, NewRound(combat.roundNumber))] else [])
    {
      combat.currentTurnIndex := next;
      if next == 0 {
        combat.roundNumber := combat.roundNumber + 1;
        announcements := announcements + [ToRoom(combat.room, NewRound(combat.roundNumber))];
      }
    }

    /** `_advance_turn`: step to the next active combatant, counting a new
        round when the index wraps to zero; with nobody standing the combat
        ends instead. */
    method AdvanceTurn(combat: CombatInstance, world: WorldManager)
      modifies combat`currentTurnIndex, combat`roundNumber, combat`timer, this`activeCombats, this`announcements
      ensures var cs := combat.combatants; var i0 := old(combat.currentTurnIndex);
        && combat.currentTurnIndex == AdvancedIndex(cs, i0)
        && combat.roundNumber == AdvancedRound(cs, i0, old(combat.roundNumber))
        && combat.timer == AdvancedTimer(cs, i0, old(combat.timer), eventLoop)
        && activeCombats == AdvancedRegistry(cs, old(activeCombats))
        && announcements == old(announcements) + AdvanceNotices(cs, i0, old(combat.roundNumber), combat.room, world.sessions)
    {
      var cs := combat.combatants;
      var active := ActiveAt(cs);
      if active == [] {
        EndCombat(combat);
        return;
      }
      var next := (combat.currentTurnIndex + 1) % |active|;
      AdvanceSteps(cs, combat.currentTurnIndex, next, combat.roundNumber, combat.timer, eventLoop,
                   activeCombats, combat.room, world.sessions);
      MoveTurn(combat, next);
      StartTurn(combat, world);
    }

    /** The common tail of the actions: end the combat when it is over,
        otherwise pass the turn on. */
    method Conclude(combat: CombatInstance, world: WorldManager)
      modifies combat`currentTurnIndex, combat`roundNumber, combat`timer, this`activeCombats, this`announcements
      ensures FightOf(combat) == old(Concluded(FightOf(combat), combat.room, world.sessions, eventLoop))
      ensures var cs := combat.combatants; var i0 := old(combat.currentTurnIndex);
        && combat.currentTurnIndex == ConcludedIndex(cs, i0)
        && combat.roundNumber == ConcludedRound(cs, i0, old(combat.roundNumber))
        && combat.timer == ConcludedTimer(cs, i0, old(combat.timer), eventLoop)
        && activeCombats == ConcludedRegistry(cs, old(activeCombats))
        && announcements == old(announcements) + ConcludeNotices(cs, i0, old(combat.roundNumber), combat.room, world.sessions)
    {
      if IsOver(combat.combatants) {
        EndCombat(combat);
      } else {
        NotOverHasCurrent(combat.combatants, 0);
        AdvanceTurn(combat, world);
      }
    }

    /** `_start_knockout_recovery`: with an event loop the recovery is
        scheduled; without one the character is restored to 1 hp at once
        while the combatant stays marked as knocked out. */
    method StartKnockoutRecovery(c: Combatant, combat: CombatInstance)
      modifies c.character`hp, c.character`isKnockedOut, this`recoveries
      ensures eventLoop ==> recoveries == old(recoveries) + [Recovery(combat, c)] && unchanged(c.character)
      ensures !eventLoop ==> recoveries == old(recoveries) && c.character.hp == 1 && !c.character.isKnockedOut
    {
      if eventLoop {
        recoveries := recoveries + [Recovery(combat, c)];
      } else {
        c.character.hp := 1;
        c.character.isKnockedOut := false;
      }
    }

    /** The hit-or-miss part of `_handle_attack`, then the attacker's
        reset: combatant `p` strikes combatant `d`.  A hit takes the damage
        off the defender's hit points; reaching zero or below knocks the
        defender out (hp 0) and, for a player, starts the recovery.  Only
        the defender's character changes. */
    method Strike(p: nat, d: nat, combat: CombatInstance, hit: bool, variance: int)
      requires p < |combat.combatants| && d < |combat.combatants|
      modifies combat`combatants, combat.combatants[d].character`hp, combat.combatants[d].character`isKnockedOut
      modifies this`announcements, this`recoveries
      ensures FightOf(combat) == old(Struck(FightOf(combat), p, d, hit, variance, combat.room, combat, eventLoop))
      ensures var cs := old(combat.combatants);
        && cs[d].character.hp == old(HpAfterStrike(cs, p, d, hit, variance, eventLoop))
        && cs[d].character.isKnockedOut == old(KnockedOutAfterStrike(cs, p, d, hit, variance, eventLoop))
        && unchanged(CharactersOf(cs) - {cs[d].character})
    {
      var cs := combat.combatants;
      assert cs[p] in cs && cs[d] in cs;
      var attacker := cs[p];
      var defender := cs[d];
      var weapon := attacker.character.equippedWeapon;
      var (damage, didHit) := Damage(attacker.character.baseAttack, weapon, defender.isDefending, hit, variance);
      if didHit {
        defender.character.hp := defender.character.hp - damage;
        announcements := announcements + [ToRoom(combat.room, Hits(attacker.character.name, defender.character.name,
                                                                   WeaponName(weapon), damage, Max(0, defender.character.hp)))];
        if defender.character.hp <= 0 {
          defender.character.hp := 0;
          var knocked := defender.(isKnockedOut := true);
          combat.combatants := cs[d := knocked];
          defender.character.isKnockedOut := true;
          announcements := announcements + [ToRoom(combat.room, KnockedOut(defender.character.name))];
          if !defender.isNpc {
            StartKnockoutRecovery(knocked, combat);
          }
        }
      } else {
        announcements := announcements + [ToRoom(combat.room, Misses(attacker.character.name, defender.character.name))];
      }
      combat.combatants := combat.combatants[p := attacker.(isDefending := false)];
    }

    /** `_handle_attack` for combatant `p`.  Without enemies the combat
        ends; a name that matches no enemy is refused and nothing changes;
        otherwise the defender is struck, the attacker stops defending, and
        the combat ends or the turn passes on.  Only the struck defender's
        character changes. */
    method HandleAttack(p: nat, targetName: string, combat: CombatInstance, world: WorldManager, hit: bool, variance: int)
      returns (msgs: seq<string>)
      requires p < |combat.combatants|
      modifies combat`combatants, combat`currentTurnIndex, combat`roundNumber, combat`timer
      modifies this`activeCombats, this`announcements, this`recoveries
      modifies CharactersOf(combat.combatants)`hp, CharactersOf(combat.combatants)`isKnockedOut
      ensures msgs == AttackReply(old(combat.combatants), p, targetName)
      ensures FightOf(combat) == old(Attacked(FightOf(combat), p, targetName, hit, variance, combat.room, combat, world.sessions, eventLoop))
      ensures var cs := old(combat.combatants); var d := AttackTarget(cs, p, targetName);
        d.Some? ==>
          && cs[d.value].character.hp == old(HpAfterStrike(cs, p, d.value, hit, variance, eventLoop))
          && cs[d.value].character.isKnockedOut == old(KnockedOutAfterStrike(cs, p, d.value, hit, variance, eventLoop))
      ensures var cs := old(combat.combatants);
        unchanged(CharactersOf(cs) - StruckCharacter(cs, AttackTarget(cs, p, targetName)))
    {
      var cs := combat.combatants;
      var attacker := cs[p];
      var enemies := EnemyAt(cs, attacker.team);
      if enemies == [] {
        EndCombat(combat);
        return [NO_ENEMIES];
      }
      var target := DefenderAt(cs, attacker.team, targetName);
      if target.None? {
        return [InvalidTarget(targetName, Names(Enemies(cs, attacker.team)))];
      }
      var d := target.value;
      ghost var struck := Struck(FightOf(combat), p, d, hit, variance, combat.room, combat, eventLoop);
      Strike(p, d, combat, hit, variance);
      assert FightOf(combat) == struck;
      Conclude(combat, world);
      msgs := [];
    }

    /** `_handle_defend`: the combatant defends until its next turn, and the
        combat ends or the turn passes on. */
    method HandleDefend(p: nat, combat: CombatInstance, world: WorldManager)
      requires p < |combat.combatants|
      modifies combat`combatants, combat`currentTurnIndex, combat`roundNumber, combat`timer
      modifies this`activeCombats, this`announcements
      ensures FightOf(combat) == old(Defended(FightOf(combat), p, combat.room, world.sessions, eventLoop))
    {
      var c := combat.combatants[p];
      combat.combatants := combat.combatants[p := c.(isDefending := true)];
      announcements := announcements + [ToRoom(combat.room, DefensiveStance(c.character.name))];
      Conclude(combat, world);
    }

    /** `_handle_flee`: a successful flight takes the combatant out of the
        combat and its registry entry, then ends the combat or passes the
        turn on; a failed one stops the combatant defending and passes the
        turn on. */
    method HandleFlee(p: nat, combat: CombatInstance, world: WorldManager, escapes: bool)
      returns (msgs: seq<string>)
      requires p < |combat.combatants|
      modifies combat`combatants, combat`currentTurnIndex, combat`roundNumber, combat`timer
      modifies this`activeCombats, this`announcements
      ensures msgs == (if escapes then [ESCAPED] else [])
      ensures FightOf(combat) == old(Fled(FightOf(combat), p, escapes, combat.room, world.sessions, eventLoop))
    {
      var c := combat.combatants[p];
      if escapes {
        announcements := announcements + [ToRoom(combat.room, Flees(c.character.name))];
        RemoveCombatant(c, combat);
        Conclude(combat, world);
        return [ESCAPED];
      }
      announcements := announcements + [ToRoom(combat.room, FleeFails(c.character.name))];
      combat.combatants := combat.combatants[p := c.(isDefending := false)];
      AdvanceTurn(combat, world);
      msgs := [];
    }

    /** `_remove_combatant`: take `c` out of the list and the registry,
        moving the turn index back when `c` stood before it. */
    method RemoveCombatant(c: Combatant, combat: CombatInstance)
      modifies combat`combatants, combat`currentTurnIndex, this`activeCombats
      ensures combat.combatants == RemoveFirst(old(combat.combatants), c)
      ensures combat.currentTurnIndex == IndexAfterRemoval(old(combat.combatants), c, old(combat.currentTurnIndex))
      ensures activeCombats == old(activeCombats) - {c.characterId}
    {
      var active := Active(combat.combatants);
      if c in active {
        var removedIdx := IndexOf(active, c);
        if removedIdx < combat.currentTurnIndex {
          combat.currentTurnIndex := combat.currentTurnIndex - 1;
        }
      }
      combat.combatants := RemoveFirst(combat.combatants, c);
      activeCombats := activeCombats - {c.characterId};
    }

    /** The instance `id` fights in, as a frame. */
    function CombatOf(id: CharId): set<CombatInstance>
      reads this
    {
      if id in activeCombats then {activeCombats[id]} else {}
    }

    /** The characters in the instance `id` fights in, as a frame. */
    function FightersOf(id: CharId): set<Character>
      reads this, CombatOf(id)
    {
      if id in activeCombats then CharactersOf(activeCombats[id].combatants) else {}
    }

    /** `handle_combat_input`: only the character whose turn it is may act
        (TakeTurn); anyone else is told it is not their turn, and a
        character not fighting is told so; neither refusal changes
        anything. */
    method HandleCombatInput(id: CharId, raw: string, world: WorldManager, hit: bool, variance: int, escapes: bool)
      returns (msgs: seq<string>)
      modifies this`activeCombats, this`announcements, this`recoveries
      modifies CombatOf(id)`combatants, CombatOf(id)`currentTurnIndex, CombatOf(id)`roundNumber, CombatOf(id)`timer
      modifies FightersOf(id)`hp, FightersOf(id)`isKnockedOut
      ensures id !in old(activeCombats) ==> msgs == [NOT_IN_COMBAT] && unchanged(this)
      ensures id in old(activeCombats) && old(TurnOf(activeCombats[id].combatants, activeCombats[id].currentTurnIndex)) != Some(id) ==>
        var combat := old(activeCombats[id]);
        msgs == [NOT_YOUR_TURN] && unchanged(this, combat) && unchanged(CharactersOf(combat.combatants))
      ensures id in old(activeCombats) && old(TurnOf(activeCombats[id].combatants, activeCombats[id].currentTurnIndex)) == Some(id) ==>
        var combat := old(activeCombats[id]); var cs := old(combat.combatants);
        var p := CurrentAt(cs, old(combat.currentTurnIndex)).value;
        var input := ParseCombatInput(raw); var action := ActionOf(input.0); var arg := input.1;
        var d := TurnStrike(cs, p, action, arg);
        && msgs == TurnReply(cs, p, action, arg, escapes)
        && FightOf(combat) == old(TurnTaken(FightOf(combat), p, action, arg, hit, variance, escapes,
                                            combat.room, combat, world.sessions, eventLoop))
        && (d.Some? ==>
              && cs[d.value].character.hp == old(HpAfterStrike(cs, p, d.value, hit, variance, eventLoop))
              && cs[d.value].character.isKnockedOut == old(KnockedOutAfterStrike(cs, p, d.value, hit, variance, eventLoop)))
        && unchanged(CharactersOf(cs) - StruckCharacter(cs, d))
    {
      if id !in activeCombats {
        return [NOT_IN_COMBAT];
      }
      var combat := activeCombats[id];
      var cur := CurrentAt(combat.combatants, combat.currentTurnIndex);
      if cur.None? || combat.combatants[cur.value].characterId != id {
        return [NOT_YOUR_TURN];
      }
      var input := ParseCombatInput(raw);
      msgs := TakeTurn(cur.value, ActionOf(input.0), input.1, combat, world, hit, variance, escapes);
    }

    /** The rest of `handle_combat_input` for combatant `p`, whose turn it
        is, once its input is read (the first word of the trimmed,
        lower-cased input picks the action, the rest is its argument): the
        turn timer is cancelled, then the action runs.  An unknown word
        only lists the actions, and the turn goes on with no timer
        running.  Only a struck defender's character changes. */
    method TakeTurn(p: nat, action: CombatAction, arg: string, combat: CombatInstance, world: WorldManager,
                    hit: bool, variance: int, escapes: bool)
      returns (msgs: seq<string>)
      requires p < |combat.combatants|
      modifies combat`combatants, combat`currentTurnIndex, combat`roundNumber, combat`timer
      modifies this`activeCombats, this`announcements, this`recoveries
      modifies CharactersOf(combat.combatants)`hp, CharactersOf(combat.combatants)`isKnockedOut
      ensures msgs == TurnReply(old(combat.combatants), p, action, arg, escapes)
      ensures FightOf(combat) == old(TurnTaken(FightOf(combat), p, action, arg, hit, variance, escapes,
                                               combat.room, combat, world.sessions, eventLoop))
      ensures var cs := old(combat.combatants); var d := TurnStrike(cs, p, action, arg);
        d.Some? ==>
          && cs[d.value].character.hp == old(HpAfterStrike(cs, p, d.value, hit, variance, eventLoop))
          && cs[d.value].character.isKnockedOut == old(KnockedOutAfterStrike(cs, p, d.value, hit, variance, eventLoop))
      ensures var cs := old(combat.combatants); unchanged(CharactersOf(cs) - StruckCharacter(cs, TurnStrike(cs, p, action, arg)))
    {
      combat.timer := None;
      assert FightOf(combat) == old(FightOf(combat)).(timer := None);
      msgs := Act(p, action, arg, combat, world, hit, variance, escapes);
    }

    /** The dispatch of `_take_turn` once the timer is cancelled. */
    method Act(p: nat, action: CombatAction, arg: string, combat: CombatInstance, world: WorldManager,
               hit: bool, variance: int, escapes: bool)
      returns (msgs: seq<string>)
      requires p < |combat.combatants|
      modifies combat`combatants, combat`currentTurnIndex, combat`roundNumber, combat`timer
      modifies this`activeCombats, this`announcements, this`recoveries
      modifies CharactersOf(combat.combatants)`hp, CharactersOf(combat.combatants)`isKnockedOut
      ensures msgs == TurnReply(old(combat.combatants), p, action, arg, escapes)
      ensures FightOf(combat) == old(Acted(FightOf(combat), p, action, arg, hit, variance, escapes,
                                            combat.room, combat, world.sessions, eventLoop))
      ensures var cs := old(combat.combatants); var d := TurnStrike(cs, p, action, arg);
        d.Some? ==>
          && cs[d.value].character.hp == old(HpAfterStrike(cs, p, d.value, hit, variance, eventLoop))
          && cs[d.value].character.isKnockedOut == old(KnockedOutAfterStrike(cs, p, d.value, hit, variance, eventLoop))
      ensures var cs := old(combat.combatants); unchanged(CharactersOf(cs) - StruckCharacter(cs, TurnStrike(cs, p, action, arg)))
    {
      match action
      case AttackAction =>
        msgs := HandleAttack(p, arg, combat, world, hit, variance);
      case DefendAction =>
        HandleDefend(p, combat, world);
        msgs := [];
      case FleeAction =>
        msgs := HandleFlee(p, combat, world, escapes);
      case UnknownAction =>
        msgs := [COMBAT_ACTIONS];
    }

    /** `_npc_take_turn` for the NPC whose turn it is: it attacks the enemy
        picked by `choice` (random.choice in the source), looked up again by
        name; with no enemy left it does nothing.  Only the struck
        defender's character changes. */
    method NpcTakeTurn(combat: CombatInstance, world: WorldManager, choice: nat, hit: bool, variance: int)
      requires CurrentAt(combat.combatants, combat.currentTurnIndex).Some?
      requires combat.combatants[CurrentAt(combat.combatants, combat.currentTurnIndex).value].isNpc
      modifies combat`combatants, combat`currentTurnIndex, combat`roundNumber, combat`timer
      modifies this`activeCombats, this`announcements, this`recoveries
      modifies CharactersOf(combat.combatants)`hp, CharactersOf(combat.combatants)`isKnockedOut
      ensures var cs := old(combat.combatants); var p := CurrentAt(cs, old(combat.currentTurnIndex)).value;
        FightOf(combat) == old(NpcTurn(FightOf(combat), p, choice, hit, variance, combat.room, combat, world.sessions, eventLoop))
      ensures var cs := old(combat.combatants); var p := CurrentAt(cs, old(combat.currentTurnIndex)).value;
        EnemyAt(cs, cs[p].team) != [] ==> NpcTarget(cs, cs[p].team, choice).Some?
      ensures var cs := old(combat.combatants); var p := CurrentAt(cs, old(combat.currentTurnIndex)).value;
        var d := NpcTarget(cs, cs[p].team, choice);
        d.Some? ==>
          && cs[d.value].character.hp == old(HpAfterStrike(cs, p, d.value, hit, variance, eventLoop))
          && cs[d.value].character.isKnockedOut == old(KnockedOutAfterStrike(cs, p, d.value, hit, variance, eventLoop))
      ensures var cs := old(combat.combatants); var p := CurrentAt(cs, old(combat.currentTurnIndex)).value;
        unchanged(CharactersOf(cs) - StruckCharacter(cs, NpcTarget(cs, cs[p].team, choice)))
    {
      var cs := combat.combatants;
      var p := CurrentAt(cs, combat.currentTurnIndex).value;
      var enemies := Enemies(cs, cs[p].team);
      if enemies == [] {
        return;
      }
      NpcAlwaysFindsTarget(cs, cs[p].team, choice);
      var target := enemies[choice % |enemies|];
      var _ := HandleAttack(p, target.character.name, combat, world, hit, variance);
    }

    /** `_on_turn_timeout`, fired by the pending timer: when the timed-out
        character still has the turn, it is told so, the room sees it
        hesitate, it stops defending and the turn passes on; otherwise
        nothing happens. */
    method TurnTimeout(combat: CombatInstance, world: WorldManager)
      requires combat.timer.Some?
      modifies combat`combatants, combat`currentTurnIndex, combat`roundNumber, combat`timer
      modifies this`activeCombats, this`announcements
      ensures var cs := old(combat.combatants); var id := old(combat.timer).value;
        var cur := CurrentAt(cs, old(combat.currentTurnIndex));
        (cur.None? || cs[cur.value].characterId != id) ==>
          && combat.timer == None && combat.combatants == cs
          && combat.currentTurnIndex == old(combat.currentTurnIndex)
          && activeCombats == old(activeCombats) && announcements == old(announcements)
      ensures var cs := old(combat.combatants); var id := old(combat.timer).value;
        var cur := CurrentAt(cs, old(combat.currentTurnIndex)); var i0 := old(combat.currentTurnIndex);
        (cur.Some? && cs[cur.value].characterId == id) ==>
          var p := cur.value; var after := cs[p := cs[p].(isDefending := false)];
          && combat.combatants == after
          && combat.currentTurnIndex == AdvancedIndex(after, i0)
          && combat.roundNumber == AdvancedRound(after, i0, old(combat.roundNumber))
          && combat.timer == AdvancedTimer(after, i0, None, eventLoop)
          && activeCombats == AdvancedRegistry(after, old(activeCombats))
          && announcements == old(announcements)
               + (if id in world.sessions then [ToPlayer(id, TimedOut)] else [])
               + [ToRoom(combat.room, Hesitates(cs[p].character.name))]
               + AdvanceNotices(after, i0, old(combat.roundNumber), combat.room, world.sessions)
    {
      var id := combat.timer.value;
      combat.timer := None;
      var cs := combat.combatants;
      var cur := CurrentAt(cs, combat.currentTurnIndex);
      if cur.None? || cs[cur.value].characterId != id {
        return;
      }
      Hesitate(cur.value, combat, world);
      AdvanceTurn(combat, world);
    }

    /** The notices and the reset of `_on_turn_timeout` for combatant `p`. */
    method Hesitate(p: nat, combat: CombatInstance, world: WorldManager)
      requires p < |combat.combatants|
      modifies combat`combatants, this`announcements
      ensures var cs := old(combat.combatants); var id := cs[p].characterId;
        && combat.combatants == cs[p := cs[p].(isDefending := false)]
        && announcements == old(announcements)
             + (if id in world.sessions then [ToPlayer(id, TimedOut)] else [])
             + [ToRoom(combat.room, Hesitates(cs[p].character.name))]
    {
      var c := combat.combatants[p];
      if c.characterId in world.sessions {
        announcements := announcements + [ToPlayer(c.characterId, TimedOut)];
      }
      announcements := announcements + [ToRoom(combat.room, Hesitates(c.character.name))];
      combat.combatants := combat.combatants[p := c.(isDefending := false)];
    }

    /** `remove_player` (disconnect cleanup): the character's first entry is
        marked knocked out, then taken out of the list and the registry
        with the turn index left where it was; the room is told, and the
        combat ends when it is over. */
    method RemovePlayer(id: CharId)
      modifies this`activeCombats, this`announcements
      modifies CombatOf(id)`combatants, CombatOf(id)`currentTurnIndex, CombatOf(id)`timer
      ensures id !in old(activeCombats) ==> activeCombats == old(activeCombats) && announcements == old(announcements)
      ensures id in old(activeCombats) ==>
        var combat := old(activeCombats[id]); var cs := old(combat.combatants);
        var after := Disconnected(cs, id);
        var left := if FirstWithId(cs, id).Some? then old(activeCombats) - {id} else old(activeCombats);
        && combat.combatants == after
        && combat.currentTurnIndex == old(combat.currentTurnIndex)
        && combat.timer == (if IsOver(after) then None else old(combat.timer))
        && activeCombats == (if IsOver(after) then left - Ids(after) else left)
        && announcements == old(announcements) + LeaveNotices(cs, id, combat.room)
             + (if IsOver(after) then [ToRoom(combat.room, Outcome(after))] else [])
    {
      if id !in activeCombats {
        return;
      }
      var combat := activeCombats[id];
      var cs := combat.combatants;
      var k := FirstWithId(cs, id);
      if k.Some? {
        var ko := cs[k.value].(isKnockedOut := true);
        var marked := cs[k.value := ko];
        combat.combatants := marked;
        assert ko !in Active(marked) by {
          ActiveExact(marked);
        }
        RemoveCombatant(ko, combat);
        announcements := announcements + [ToRoom(combat.room, LeftCombat(ko.character.name))];
      }
      if IsOver(combat.combatants) {
        EndCombat(combat);
      }
    }

    /** A scheduled knockout recovery coming due (`_recover`, after
        KNOCKOUT_RECOVERY_SECONDS): the character is back at 1 hp and no
        longer knocked out, the recorded combatant, if still in its
        combat's list, stands again, and a connected player is told. */
    method Recover(k: nat, world: WorldManager)
      requires k < |recoveries|
      modifies recoveries[k].combatant.character`hp, recoveries[k].combatant.character`isKnockedOut
      modifies recoveries[k].combat`combatants, this`recoveries, this`announcements
      ensures var r := old(recoveries[k]); var c := r.combatant;
        && c.character.hp == 1 && !c.character.isKnockedOut
        && r.combat.combatants == Revived(old(r.combat.combatants), c)
        && recoveries == old(recoveries[..k] + recoveries[k + 1..])
        && announcements == old(announcements) + (if c.characterId in world.sessions then [ToPlayer(c.characterId, Regained)] else [])
    {
      var r := recoveries[k];
      var c := r.combatant;
      recoveries := recoveries[..k] + recoveries[k + 1..];
      c.character.hp := 1;
      c.character.isKnockedOut := false;
      r.combat.combatants := Revived(r.combat.combatants, c);
      if c.characterId in world.sessions {
        announcements := announcements + [ToPlayer(c.characterId, Regained)];
      }
    }
  }
}
