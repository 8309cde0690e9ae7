/** Player parties (logic/party.py): `parties` maps a leader id to the
    ordered member list (leader included), `invites` maps an invitee to the
    inviter.  Party notifications go through the world's session callbacks
    (`WorldManager.outbox`). */
module Party {
  import opened Common
  import opened World

  const MAX_PARTY_SIZE: int := 4

  // ---------------------------------------------------------------------
  // Lookups
  // ---------------------------------------------------------------------

  /** Every key listed in the order is a key of the dict. */
  predicate Keyed(order: seq<CharId>, parties: map<CharId, seq<CharId>>) {
    forall i :: 0 <= i < |order| ==> order[i] in parties
  }

  /** A dict order lists keys only. */
  lemma OrderKeyed(order: seq<CharId>, parties: map<CharId, seq<CharId>>)
    requires DictOrder(order, parties)
    ensures Keyed(order, parties)
  {
    forall i | 0 <= i < |order|
      ensures order[i] in parties
    {
      assert order[i] in order;
    }
  }

  /** `_find_party_leader`: the first leader, in dict order, whose member
      list holds `id`. */
  function LeaderOf(order: seq<CharId>, parties: map<CharId, seq<CharId>>, id: CharId): (r: Option<CharId>)
    requires Keyed(order, parties)
    ensures r.Some? ==> r.value in parties && r.value in order && id in parties[r.value]
    ensures r.None? <==> forall i :: 0 <= i < |order| ==> id !in parties[order[i]]
  {
    if order == [] then None
    else if id in parties[order[0]] then Some(order[0])
    else LeaderOf(order[1..], parties, id)
  }

  /** With every key in the order, finding no leader means the character
      is in no member list at all. */
  lemma LeaderOfNone(order: seq<CharId>, parties: map<CharId, seq<CharId>>, id: CharId)
    requires DictOrder(order, parties) && LeaderOf(order, parties, id).None?
    ensures Partyless(parties, id)
  {
    forall m | m in parties
      ensures id !in parties[m]
    {
      var i := IndexOf(order, m);
    }
  }

  /** `get_party_members`: the leader's list, or `[id]` for a character in
      no party. */
  function PartyOf(order: seq<CharId>, parties: map<CharId, seq<CharId>>, id: CharId): seq<CharId>
    requires Keyed(order, parties)
  {
    match LeaderOf(order, parties, id)
    case None => [id]
    case Some(l) => parties[l]
  }

  /** Every character is in its own member list, and a character in no
      party is alone in it. */
  lemma PartyOfHoldsSelf(order: seq<CharId>, parties: map<CharId, seq<CharId>>, id: CharId)
    requires Keyed(order, parties)
    ensures id in PartyOf(order, parties, id)
    ensures LeaderOf(order, parties, id).None? ==> PartyOf(order, parties, id) == [id]
  {
  }

  /** The shape the party operations keep when every accepter was
      partyless: each list starts with its leader, has at least two
      members, none twice, and no character is in two lists. */
  ghost predicate PartiesDisjoint(parties: map<CharId, seq<CharId>>) {
    && (forall l :: l in parties ==> 2 <= |parties[l]| && parties[l][0] == l)
    && (forall l, i, j :: l in parties && 0 <= i < j < |parties[l]| ==> parties[l][i] != parties[l][j])
    && (forall l, m, x :: l in parties && m in parties && l != m && x in parties[l] ==> x !in parties[m])
  }

  /** In disjoint parties every member sees the same member list. */
  lemma {:induction false} PartyOfShared(order: seq<CharId>, parties: map<CharId, seq<CharId>>, id: CharId, x: CharId)
    requires DictOrder(order, parties) && PartiesDisjoint(parties)
    requires LeaderOf(order, parties, id).Some? && x in PartyOf(order, parties, id)
    ensures LeaderOf(order, parties, x) == LeaderOf(order, parties, id)
    ensures PartyOf(order, parties, x) == PartyOf(order, parties, id)
  {
    var l := LeaderOf(order, parties, id).value;
    LeaderUnique(order, parties, x, l);
  }

  /** In disjoint parties the leader found for `x` is the only list that
      holds it. */
  lemma {:induction false} LeaderUnique(order: seq<CharId>, parties: map<CharId, seq<CharId>>, x: CharId, l: CharId)
    requires Keyed(order, parties)
    requires l in order && x in parties[l] && PartiesDisjoint(parties)
    ensures LeaderOf(order, parties, x) == Some(l)
  {
    if order[0] == l {
    } else {
      assert x !in parties[order[0]];
      LeaderUnique(order[1..], parties, x, l);
    }
  }

  /** `get_party_members_in_room`: the members whose session is in the
      room with uid `roomUid`, in list order. */
  function InRoom(ids: seq<CharId>, sessions: map<CharId, Session>, roomUid: Uid): seq<CharId> {
    if ids == [] then []
    else
      var last := ids[|ids| - 1];
      var rest := InRoom(ids[..|ids| - 1], sessions, roomUid);
      if last in sessions && sessions[last].room.uid == roomUid then rest + [last] else rest
  }

  lemma {:induction false} InRoomExact(ids: seq<CharId>, sessions: map<CharId, Session>, roomUid: Uid)
    ensures |InRoom(ids, sessions, roomUid)| <= |ids|
    ensures forall x :: x in InRoom(ids, sessions, roomUid) <==>
      x in ids && x in sessions && sessions[x].room.uid == roomUid
  {
    if ids != [] {
      var init := ids[..|ids| - 1];
      InRoomExact(init, sessions, roomUid);
      assert ids == init + [ids[|ids| - 1]];
    }
  }

  /** The callbacks made to the members of `ids` that have a session,
      skipping `skip`, in list order. */
  function MemberNotices(ids: seq<CharId>, sessions: map<CharId, Session>, skip: CharId, message: string): seq<Notice> {
    if ids == [] then []
    else
      var last := ids[|ids| - 1];
      var rest := MemberNotices(ids[..|ids| - 1], sessions, skip, message);
      if last in sessions && last != skip then rest + [Notice(last, message)] else rest
  }

  lemma {:induction false} MemberNoticesExact(ids: seq<CharId>, sessions: map<CharId, Session>, skip: CharId, message: string)
    ensures var ns := MemberNotices(ids, sessions, skip, message);
      && |ns| <= |ids|
      && (forall k :: 0 <= k < |ns| ==> ns[k].message == message)
      && (forall x :: Notice(x, message) in ns <==> x in ids && x in sessions && x != skip)
  {
    if ids != [] {
      var init := ids[..|ids| - 1];
      MemberNoticesExact(init, sessions, skip, message);
      assert ids == init + [ids[|ids| - 1]];
    }
  }

  /** One line of `show_party`. */
  function MemberLine(mid: CharId, sessions: map<CharId, Session>, leader: CharId): string {
    var name := if mid in sessions then sessions[mid].player.name else "???";
    var tag := if mid == leader then " [yellow](leader)[/yellow]" else "";
    "  - " + name + tag
  }

  function MemberLines(ids: seq<CharId>, sessions: map<CharId, Session>, leader: CharId): seq<string> {
    if ids == [] then []
    else MemberLines(ids[..|ids| - 1], sessions, leader) + [MemberLine(ids[|ids| - 1], sessions, leader)]
  }

  /** `show_party` lists every member once, in order, and marks exactly the
      leader. */
  lemma {:induction false} MemberLinesExact(ids: seq<CharId>, sessions: map<CharId, Session>, leader: CharId)
    ensures |MemberLines(ids, sessions, leader)| == |ids|
    ensures forall k :: 0 <= k < |ids| ==> MemberLines(ids, sessions, leader)[k] == MemberLine(ids[k], sessions, leader)
  {
    if ids != [] {
      MemberLinesExact(ids[..|ids| - 1], sessions, leader);
    }
  }

  // ---------------------------------------------------------------------
  // Party state transitions
  // ---------------------------------------------------------------------

  /** The party cap: no member list is longer than MAX_PARTY_SIZE. */
  ghost predicate Capped(parties: map<CharId, seq<CharId>>) {
    forall l :: l in parties ==> |parties[l]| <= MAX_PARTY_SIZE
  }

  /** `leave_party` on the two dicts: take `id` out of its list, then
      re-key under the next member, disband, or keep, as the source does. */
  function LeaveState(order: seq<CharId>, parties: map<CharId, seq<CharId>>, id: CharId)
    : (seq<CharId>, map<CharId, seq<CharId>>)
    requires Keyed(order, parties)
  {
    match LeaderOf(order, parties, id)
    case None => (order, parties)
    case Some(l) =>
      var members := RemoveFirst(parties[l], id);
      var shrunk := parties[l := members];
      if id == l && |members| >= 2 then
        (RemoveFirst(SetKeyOrder(order, shrunk, members[0]), l), shrunk[members[0] := members] - {l})
      else if |members| == 1 then
        (RemoveFirst(order, l), shrunk - {l})
      else
        (order, shrunk)
  }

  /** Overwriting the leader's list before re-keying or deleting it makes
      no difference to the result. */
  lemma ShrunkThenDropped(order: seq<CharId>, parties: map<CharId, seq<CharId>>, l: CharId, members: seq<CharId>)
    requires l in parties && members != []
    ensures parties[l := members][members[0] := members] - {l} == parties[members[0] := members] - {l}
    ensures parties[l := members] - {l} == parties - {l}
    ensures SetKeyOrder(order, parties[l := members], members[0]) == SetKeyOrder(order, parties, members[0])
  {
  }

  /** Re-keying a party under a new leader keeps the dict order valid. */
  lemma RekeyKeepsOrder(order: seq<CharId>, parties: map<CharId, seq<CharId>>, l: CharId, members: seq<CharId>)
    requires DictOrder(order, parties) && l in parties && members != []
    ensures DictOrder(RemoveFirst(SetKeyOrder(order, parties, members[0]), l), parties[members[0] := members] - {l})
  {
    DictOrderSet(order, parties, members[0], members);
    DictOrderDelete(SetKeyOrder(order, parties, members[0]), parties[members[0] := members], l);
  }

  /** The party cap and the dict order survive a leave. */
  lemma LeaveKeepsValid(order: seq<CharId>, parties: map<CharId, seq<CharId>>, id: CharId)
    requires DictOrder(order, parties) && Capped(parties)
    ensures DictOrder(LeaveState(order, parties, id).0, LeaveState(order, parties, id).1)
    ensures Capped(LeaveState(order, parties, id).1)
  {
    match LeaderOf(order, parties, id)
    case None =>
    case Some(l) =>
      var members := RemoveFirst(parties[l], id);
      if members != [] {
        ShrunkThenDropped(order, parties, l, members);
      }
      if id == l && |members| >= 2 {
        RekeyKeepsOrder(order, parties, l, members);
      } else if |members| == 1 {
        DictOrderDelete(order, parties, l);
      } else {
        DictOrderSet(order, parties, l, members);
      }
  }

  /** Writing list `list` under key `k` keeps the parties disjoint when the
      list is well formed and each of its members either was already in
      `k`'s list or was in no list at all. */
  lemma DisjointReplace(parties: map<CharId, seq<CharId>>, k: CharId, list: seq<CharId>)
    requires PartiesDisjoint(parties)
    requires 2 <= |list| && list[0] == k
    requires forall i, j :: 0 <= i < j < |list| ==> list[i] != list[j]
    requires forall x :: x in list ==> (k in parties && x in parties[k]) || Partyless(parties, x)
    ensures PartiesDisjoint(parties[k := list])
  {
    var p := parties[k := list];
    forall a, b, x | a in p && b in p && a != b && x in p[a]
      ensures x !in p[b]
    {
      if a == k {
        if k in parties && x in parties[k] {
          assert b in parties;
        } else {
          assert Partyless(parties, x);
          assert b in parties;
        }
      } else if b == k {
        assert a in parties && x in parties[a];
      }
    }
  }

  /** `x` is in no member list. */
  ghost predicate Partyless(parties: map<CharId, seq<CharId>>, x: CharId) {
    forall m :: m in parties ==> x !in parties[m]
  }

  /** A member other than the leader leaves: the list shrinks or the party
      of two disbands, and the leaver is in no list afterwards. */
  lemma MemberLeaveDisjoint(parties: map<CharId, seq<CharId>>, l: CharId, id: CharId)
    requires PartiesDisjoint(parties) && l in parties && id in parties[l] && id != l
    ensures var members := RemoveFirst(parties[l], id);
      var p := if |members| == 1 then parties - {l} else parties[l := members];
      PartiesDisjoint(p) && Partyless(p, id)
  {
    var list := parties[l];
    var members := RemoveFirst(list, id);
    RemoveFirstKeepsDistinct(list, id);
    RemoveFirstSplit(list, id);
    assert members[0] == l;
    if |members| != 1 {
      DisjointReplace(parties, l, members);
      var p := parties[l := members];
      forall m | m in p
        ensures id !in p[m]
      {
        if m != l {
          assert m in parties;
        }
      }
    } else {
      var p := parties - {l};
      forall m | m in p
        ensures id !in p[m]
      {
        assert m != l && m in parties;
      }
    }
  }

  /** Disbanding a party keeps the rest disjoint and leaves its members in
      no list. */
  lemma DisbandDisjoint(parties: map<CharId, seq<CharId>>, l: CharId)
    requires PartiesDisjoint(parties) && l in parties
    ensures PartiesDisjoint(parties - {l})
    ensures forall x :: x in parties[l] ==> Partyless(parties - {l}, x)
  {
    var p := parties - {l};
    forall x | x in parties[l]
      ensures Partyless(p, x)
    {
      forall m | m in p
        ensures x !in p[m]
      {
        assert m in parties && m != l;
      }
    }
  }

  /** The leader is first in its list, so `members.remove(leader)` drops
      the head. */
  lemma RemoveLeader(parties: map<CharId, seq<CharId>>, l: CharId)
    requires PartiesDisjoint(parties) && l in parties
    ensures RemoveFirst(parties[l], l) == parties[l][1..]
  {
    RemoveFirstSplit(parties[l], l);
    assert IndexOf(parties[l], l) == 0;
  }

  /** The leader of a party of three or more leaves: the next member leads
      the rest of the list, the parties stay disjoint and the old leader is
      in no list. */
  lemma HandOverDisjoint(parties: map<CharId, seq<CharId>>, l: CharId)
    requires PartiesDisjoint(parties) && l in parties && |parties[l]| >= 3
    ensures var members := parties[l][1..];
      var p := parties[members[0] := members] - {l};
      PartiesDisjoint(p) && Partyless(p, l)
  {
    var list := parties[l];
    var members := list[1..];
    var nl := members[0];
    assert nl in list && nl != list[0];
    if nl in parties {
      assert false;
    }
    DisbandDisjoint(parties, l);
    var rest := parties - {l};
    forall i, j | 0 <= i < j < |members|
      ensures members[i] != members[j]
    {
      assert members[i] == list[i + 1] && members[j] == list[j + 1];
    }
    DisjointReplace(rest, nl, members);
    assert rest[nl := members] == parties[nl := members] - {l};
    var p := rest[nl := members];
    forall m | m in p
      ensures l !in p[m]
    {
      if m == nl {
        forall i | 0 <= i < |members|
          ensures members[i] != l
        {
          assert members[i] == list[i + 1];
        }
      }
    }
  }

  /** A leave from disjoint parties keeps them disjoint and leaves `id` in
      no list. */
  lemma LeaveKeepsDisjoint(order: seq<CharId>, parties: map<CharId, seq<CharId>>, id: CharId)
    requires DictOrder(order, parties) && PartiesDisjoint(parties)
    ensures PartiesDisjoint(LeaveState(order, parties, id).1)
    ensures Partyless(LeaveState(order, parties, id).1, id)
  {
    match LeaderOf(order, parties, id)
    case None =>
      LeaderOfNone(order, parties, id);
    case Some(l) =>
      var members := RemoveFirst(parties[l], id);
      if members != [] {
        ShrunkThenDropped(order, parties, l, members);
      }
      if id == l {
        RemoveLeader(parties, l);
        if |parties[l]| >= 3 {
          HandOverDisjoint(parties, l);
        } else {
          DisbandDisjoint(parties, l);
        }
      } else {
        MemberLeaveDisjoint(parties, l, id);
      }
  }

  /** A character in no member list has no leader. */
  lemma PartylessNoLeader(order: seq<CharId>, parties: map<CharId, seq<CharId>>, x: CharId)
    requires Keyed(order, parties) && Partyless(parties, x)
    ensures LeaderOf(order, parties, x).None?
  {
    forall i | 0 <= i < |order|
      ensures x !in parties[order[i]]
    {
      var m := order[i];
      assert m in parties;
      assert x !in parties[m];
    }
  }

  /** In disjoint parties the "left the party" notices of `leave_party`
      reach exactly the members that remain, in list order: the party it
      looks up afterwards is the old list without the leaver. */
  lemma LeaveNotifiesRest(order: seq<CharId>, parties: map<CharId, seq<CharId>>, id: CharId)
    requires DictOrder(order, parties) && Capped(parties) && PartiesDisjoint(parties)
    requires LeaderOf(order, parties, id).Some?
    ensures var after := LeaveState(order, parties, id);
      && Keyed(after.0, after.1)
      && PartyOf(after.0, after.1, LeaveLookup(order, parties, id))
           == RemoveFirst(parties[LeaderOf(order, parties, id).value], id)
  {
    var l := LeaderOf(order, parties, id).value;
    if id != l {
      MemberLeaveNotifies(order, parties, l, id);
    } else {
      LeaderLeaveNotifies(order, parties, l);
    }
  }

  lemma MemberLeaveNotifies(order: seq<CharId>, parties: map<CharId, seq<CharId>>, l: CharId, id: CharId)
    requires DictOrder(order, parties) && Capped(parties) && PartiesDisjoint(parties)
    requires LeaderOf(order, parties, id) == Some(l) && id != l
    ensures var after := LeaveState(order, parties, id);
      && Keyed(after.0, after.1)
      && PartyOf(after.0, after.1, l) == RemoveFirst(parties[l], id)
  {
    LeaveKeepsValid(order, parties, id);
    LeaveKeepsDisjoint(order, parties, id);
    var o := LeaveState(order, parties, id).0;
    var p := LeaveState(order, parties, id).1;
    var list := parties[l];
    var members := RemoveFirst(list, id);
    RemoveFirstSplit(list, id);
    assert members[0] == l;
    if |members| == 1 {
      assert p == parties - {l} by {
        ShrunkThenDropped(order, parties, l, members);
      }
      DisbandDisjoint(parties, l);
      PartylessNoLeader(o, p, l);
      assert members == [l];
    } else {
      assert p == parties[l := members];
      LeaderUnique(o, p, l, l);
    }
  }

  lemma LeaderLeaveNotifies(order: seq<CharId>, parties: map<CharId, seq<CharId>>, l: CharId)
    requires DictOrder(order, parties) && Capped(parties) && PartiesDisjoint(parties)
    requires LeaderOf(order, parties, l) == Some(l)
    ensures var after := LeaveState(order, parties, l);
      && Keyed(after.0, after.1)
      && PartyOf(after.0, after.1, parties[l][1]) == RemoveFirst(parties[l], l)
  {
    LeaveKeepsValid(order, parties, l);
    LeaveKeepsDisjoint(order, parties, l);
    var o := LeaveState(order, parties, l).0;
    var p := LeaveState(order, parties, l).1;
    var list := parties[l];
    RemoveLeader(parties, l);
    var members := list[1..];
    ShrunkThenDropped(order, parties, l, members);
    if |members| >= 2 {
      assert p == parties[members[0] := members] - {l};
      assert members[0] in p;
      LeaderUnique(o, p, members[0], members[0]);
    } else {
      assert p == parties - {l};
      DisbandDisjoint(parties, l);
      assert list[1] in list;
      PartylessNoLeader(o, p, list[1]);
      assert members == [list[1]];
    }
  }

  /** When a leader with at least two others leaves, the next member leads
      the rest of the list, in the same order. */
  lemma LeaderHandsOver(order: seq<CharId>, parties: map<CharId, seq<CharId>>, id: CharId)
    requires DictOrder(order, parties) && PartiesDisjoint(parties)
    requires id in parties && |parties[id]| >= 3
    ensures var p := LeaveState(order, parties, id).1;
      id !in p && parties[id][1] in p && p[parties[id][1]] == parties[id][1..]
  {
    LeaderUnique(order, parties, id, id);
    RemoveLeader(parties, id);
    var members := parties[id][1..];
    assert members[0] != id by {
      assert members[0] == parties[id][1];
    }
    RekeyState(order, parties, id);
  }

  /** `LeaveState` for a leader leaving a party of three or more. */
  lemma RekeyState(order: seq<CharId>, parties: map<CharId, seq<CharId>>, l: CharId)
    requires Keyed(order, parties) && LeaderOf(order, parties, l) == Some(l)
    requires |RemoveFirst(parties[l], l)| >= 2
    ensures var members := RemoveFirst(parties[l], l);
      LeaveState(order, parties, l).1 == parties[l := members][members[0] := members] - {l}
  {
  }

  /** The leader `accept` files the accepter under: the inviter's leader,
      or the inviter itself when it is in no party. */
  function AcceptLeader(order: seq<CharId>, parties: map<CharId, seq<CharId>>, inviter: CharId): CharId
    requires Keyed(order, parties)
  {
    match LeaderOf(order, parties, inviter)
    case None => inviter
    case Some(l) => l
  }

  /** `accept` on the two dicts, for an inviter and accepter that are both
      online: make sure the inviter leads or belongs to a party, then
      append the accepter unless the party is full. */
  function AcceptState(order: seq<CharId>, parties: map<CharId, seq<CharId>>, inviter: CharId, id: CharId)
    : (seq<CharId>, map<CharId, seq<CharId>>)
    requires Keyed(order, parties)
  {
    var leader := AcceptLeader(order, parties, inviter);
    var base := PartyOf(order, parties, inviter);
    var order1 := if LeaderOf(order, parties, inviter).None? then SetKeyOrder(order, parties, inviter) else order;
    (order1, parties[leader := if |base| >= MAX_PARTY_SIZE then base else base + [id]])
  }

  /** `AcceptState` case by case: a partyless inviter founds a party of
      two; otherwise the accepter is appended to the leader's list unless
      it is full. */
  lemma AcceptStateCases(order: seq<CharId>, parties: map<CharId, seq<CharId>>, inviter: CharId, id: CharId)
    requires Keyed(order, parties)
    ensures LeaderOf(order, parties, inviter).None? ==>
      AcceptState(order, parties, inviter, id)
        == (SetKeyOrder(order, parties, inviter), parties[inviter := [inviter]][inviter := [inviter] + [id]])
    ensures LeaderOf(order, parties, inviter).Some? ==>
      var l := LeaderOf(order, parties, inviter).value;
      AcceptState(order, parties, inviter, id)
        == (order, if |parties[l]| >= MAX_PARTY_SIZE then parties else parties[l := parties[l] + [id]])
  {
    if LeaderOf(order, parties, inviter).Some? {
      var l := LeaderOf(order, parties, inviter).value;
      assert parties[l := parties[l]] == parties;
    } else {
      assert parties[inviter := [inviter]][inviter := [inviter] + [id]] == parties[inviter := [inviter] + [id]];
    }
  }

  /** `accept` never lets a list grow past the cap, and the accepter ends up
      in the inviter's party exactly when that party was not full. */
  lemma AcceptKeepsValid(order: seq<CharId>, parties: map<CharId, seq<CharId>>, inviter: CharId, id: CharId)
    requires DictOrder(order, parties) && Capped(parties)
    ensures var (o, p) := AcceptState(order, parties, inviter, id);
      var leader := AcceptLeader(order, parties, inviter);
      && DictOrder(o, p) && Capped(p)
      && leader in p && inviter in p[leader]
      && (id in p[leader] <==> id in PartyOf(order, parties, inviter) || |PartyOf(order, parties, inviter)| < MAX_PARTY_SIZE)
  {
    var leader := AcceptLeader(order, parties, inviter);
    var base := PartyOf(order, parties, inviter);
    if LeaderOf(order, parties, inviter).None? {
      DictOrderSet(order, parties, inviter, if |base| >= MAX_PARTY_SIZE then base else base + [id]);
    } else {
      DictOrderSet(order, parties, leader, if |base| >= MAX_PARTY_SIZE then base else base + [id]);
    }
  }

  /** Disjointness survives `accept` only when the accepter was in no party
      and is not its own inviter: `accept` itself does not check this. */
  lemma AcceptKeepsDisjoint(order: seq<CharId>, parties: map<CharId, seq<CharId>>, inviter: CharId, id: CharId)
    requires DictOrder(order, parties) && PartiesDisjoint(parties)
    requires LeaderOf(order, parties, id).None? && id != inviter
    ensures PartiesDisjoint(AcceptState(order, parties, inviter, id).1)
  {
    LeaderOfNone(order, parties, id);
    var leader := AcceptLeader(order, parties, inviter);
    var base := PartyOf(order, parties, inviter);
    var list := if |base| >= MAX_PARTY_SIZE then base else base + [id];
    if LeaderOf(order, parties, inviter).None? {
      LeaderOfNone(order, parties, inviter);
      assert list == [inviter, id];
    } else {
      assert base == parties[leader];
    }
    DisjointReplace(parties, leader, list);
  }

  /** Without that check a character can end up in two parties: the
      accepter already leads a party of two when it accepts another
      character's invite. */
  lemma AcceptCanJoinTwoParties()
    ensures var (o, p) := AcceptState([3], map[3 := [3, 4]], 1, 3);
      1 in p && 3 in p && 3 in p[1] && 3 in p[3]
  {
  }

  // ---------------------------------------------------------------------
  // Messages
  // ---------------------------------------------------------------------

  const PLAYER_NOT_FOUND := "[red]Player not found.[/red]"
  const NOT_IN_THIS_ROOM := "[red]That player is not in this room.[/red]"
  const PARTY_FULL := "[red]Your party is full (max 4).[/red]"
  const NO_PENDING := "[red]You have no pending party invite.[/red]"
  const INVITER_OFFLINE := "[red]The inviter is no longer online.[/red]"
  const NOW_FULL := "[red]The party is now full.[/red]"
  const DECLINED := "[dim]Invite declined.[/dim]"
  const NOT_IN_PARTY := "[red]You are not in a party.[/red]"
  const NOW_LEADER := "[yellow]You are now the party leader.[/yellow]"
  const YOU_LEFT := "[dim]You left the party.[/dim]"
  const SHOW_NOT_IN_PARTY := "[dim]You are not in a party.[/dim]"
  const SHOW_HEADER := "[bold]Party members:[/bold]"

  // Message fragments are constants so that the literals are built once.
  const RED := "[red]"
  const RED_END := "[/red]"
  const YELLOW := "[yellow]"
  const YELLOW_END := "[/yellow]"
  const DIM := "[dim]"
  const DIM_END := "[/dim]"
  const IS_IN_PARTY := " is already in a party."
  const HAS_PENDING := " already has a pending invite."
  const INVITES_YOU := " invites you to a party. Type [bold]accept[/bold] or [bold]decline[/bold]."
  const INVITE_SENT_TO := "Invite sent to "
  const JOINED_THE_PARTY := " joined the party."
  const YOU_JOINED := "You joined "
  const APOSTROPHE_PARTY := "'s party."
  const DECLINED_YOURS := " declined your party invite."
  const LEFT_THE_PARTY := " left the party."

  function AlreadyInParty(name: string): string { RED + name + IS_IN_PARTY + RED_END }
  function AlreadyPending(name: string): string { RED + name + HAS_PENDING + RED_END }
  function InvitesYou(name: string): string { YELLOW + name + INVITES_YOU + YELLOW_END }
  function InviteSent(name: string): string { DIM + INVITE_SENT_TO + name + "." + DIM_END }
  function JoinedParty(name: string): string { YELLOW + name + JOINED_THE_PARTY + YELLOW_END }
  function YouJoined(name: string): string { YELLOW + YOU_JOINED + name + APOSTROPHE_PARTY + YELLOW_END }
  function DeclinedYours(name: string): string { DIM + name + DECLINED_YOURS + DIM_END }
  function LeftParty(name: string): string { DIM + name + LEFT_THE_PARTY + DIM_END }

  /** The name `leave_party` announces. */
  function LeaverName(sessions: map<CharId, Session>, id: CharId): string {
    if id in sessions then sessions[id].player.name else "Someone"
  }

  /** The notice a promoted leader gets when the old leader leaves a party
      of three or more. */
  function Promotion(order: seq<CharId>, parties: map<CharId, seq<CharId>>, sessions: map<CharId, Session>, id: CharId)
    : seq<Notice>
    requires Keyed(order, parties)
  {
    match LeaderOf(order, parties, id)
    case None => []
    case Some(l) =>
      var members := RemoveFirst(parties[l], id);
      if id == l && |members| >= 2 && members[0] in sessions then [Notice(members[0], NOW_LEADER)] else []
  }

  /** The character whose party `leave_party` notifies afterwards: the
      leader if someone else left, else the next member (-1 when the list
      became empty). */
  function LeaveLookup(order: seq<CharId>, parties: map<CharId, seq<CharId>>, id: CharId): CharId
    requires Keyed(order, parties)
  {
    match LeaderOf(order, parties, id)
    case None => id
    case Some(l) =>
      var members := RemoveFirst(parties[l], id);
      if l != id then l else if |members| > 0 then members[0] else -1
  }

  /** Append one callback per member of `ids` that has a session, skipping
      `skip`, in list order. */
  method NotifyMembers(world: WorldManager, ids: seq<CharId>, skip: CharId, message: string)
    modifies world`outbox
    ensures world.outbox == old(world.outbox) + MemberNotices(ids, world.sessions, skip, message)
  {
    var i := 0;
    while i < |ids|
      invariant 0 <= i <= |ids|
      invariant world.outbox == old(world.outbox) + MemberNotices(ids[..i], world.sessions, skip, message)
    {
      assert ids[..i + 1][..i] == ids[..i];
      var mid := ids[i];
      if mid in world.sessions && mid != skip {
        world.outbox := world.outbox + [Notice(mid, message)];
      }
      i := i + 1;
    }
    assert ids[..i] == ids;
  }

  class PartyManager {
    var parties: map<CharId, seq<CharId>>
    /** Insertion order of `parties`. */
    var partyOrder: seq<CharId>
    var invites: map<CharId, CharId>

    ghost predicate Valid()
      reads this
    {
      DictOrder(partyOrder, parties) && Capped(parties)
    }

    constructor ()
      ensures Valid() && PartiesDisjoint(parties)
      ensures parties == map[] && partyOrder == [] && invites == map[]
    {
      parties := map[];
      partyOrder := [];
      invites := map[];
    }

    /** `_find_party_leader`: scan the parties in dict order. */
    method FindPartyLeader(id: CharId) returns (r: Option<CharId>)
      requires Valid()
      ensures r == LeaderOf(partyOrder, parties, id)
    {
      var i := 0;
      while i < |partyOrder|
        invariant 0 <= i <= |partyOrder|
        invariant LeaderOf(partyOrder[i..], parties, id) == LeaderOf(partyOrder, parties, id)
      {
        var leader := partyOrder[i];
        if id in parties[leader] {
          return Some(leader);
        }
        assert partyOrder[i..][1..] == partyOrder[i + 1..];
        i := i + 1;
      }
      return None;
    }

    /** `get_party_members`: a copy of the member list, or `[id]`. */
    method GetPartyMembers(id: CharId) returns (members: seq<CharId>)
      requires Valid()
      ensures members == PartyOf(partyOrder, parties, id)
      ensures id in members
    {
      var leader := FindPartyLeader(id);
      if leader.None? {
        return [id];
      }
      members := parties[leader.value];
    }

    /** `get_party_members_in_room`: keep the members whose session is in
        the room, in list order. */
    method GetPartyMembersInRoom(id: CharId, roomUid: Uid, world: WorldManager) returns (result: seq<CharId>)
      requires Valid()
      ensures result == InRoom(PartyOf(partyOrder, parties, id), world.sessions, roomUid)
    {
      var members := GetPartyMembers(id);
      result := [];
      var i := 0;
      while i < |members|
        invariant 0 <= i <= |members|
        invariant result == InRoom(members[..i], world.sessions, roomUid)
      {
        assert members[..i + 1][..i] == members[..i];
        var mid := members[i];
        if mid in world.sessions && world.sessions[mid].room.uid == roomUid {
          result := result + [mid];
        }
        i := i + 1;
      }
      assert members[..i] == members;
    }

    /** `invite`: the first failing check answers with its message and
        changes nothing; otherwise the invite is recorded and the invitee
        told. */
    method Invite(inviterId: CharId, inviteeId: CharId, world: WorldManager) returns (msgs: seq<string>)
      requires Valid()
      modifies this`invites, world`outbox
      ensures Valid()
      ensures var ss := world.sessions;
        inviterId !in ss || inviteeId !in ss ==>
          msgs == [PLAYER_NOT_FOUND] && invites == old(invites) && world.outbox == old(world.outbox)
      ensures var ss := world.sessions;
        inviterId in ss && inviteeId in ss && ss[inviterId].room != ss[inviteeId].room ==>
          msgs == [NOT_IN_THIS_ROOM] && invites == old(invites) && world.outbox == old(world.outbox)
      ensures var ss := world.sessions;
        inviterId in ss && inviteeId in ss && ss[inviterId].room == ss[inviteeId].room ==>
          var name := ss[inviteeId].player.name;
          if LeaderOf(partyOrder, parties, inviteeId).Some? then
            msgs == [AlreadyInParty(name)] && invites == old(invites) && world.outbox == old(world.outbox)
          else if |PartyOf(partyOrder, parties, inviterId)| >= MAX_PARTY_SIZE then
            msgs == [PARTY_FULL] && invites == old(invites) && world.outbox == old(world.outbox)
          else if inviteeId in old(invites) then
            msgs == [AlreadyPending(name)] && invites == old(invites) && world.outbox == old(world.outbox)
          else
            && invites == old(invites)[inviteeId := inviterId]
            && world.outbox == old(world.outbox) + [Notice(inviteeId, InvitesYou(ss[inviterId].player.name))]
            && msgs == [InviteSent(name)]
      ensures invites != old(invites) ==>
        && inviteeId !in old(invites)
        && LeaderOf(partyOrder, parties, inviteeId).None?
        && |PartyOf(partyOrder, parties, inviterId)| < MAX_PARTY_SIZE
    {
      if inviterId !in world.sessions || inviteeId !in world.sessions {
        return [PLAYER_NOT_FOUND];
      }
      var inviterSession := world.sessions[inviterId];
      var inviteeSession := world.sessions[inviteeId];
      if inviterSession.room != inviteeSession.room {
        return [NOT_IN_THIS_ROOM];
      }
      var leader := FindPartyLeader(inviteeId);
      if leader.Some? {
        return [AlreadyInParty(inviteeSession.player.name)];
      }
      var members := GetPartyMembers(inviterId);
      if |members| >= MAX_PARTY_SIZE {
        return [PARTY_FULL];
      }
      if inviteeId in invites {
        return [AlreadyPending(inviteeSession.player.name)];
      }
      invites := invites[inviteeId := inviterId];
      world.outbox := world.outbox + [Notice(inviteeId, InvitesYou(inviterSession.player.name))];
      msgs := [InviteSent(inviteeSession.player.name)];
    }

    /** `accept`: the pending invite is consumed whatever happens next; with
        both players online the accepter joins the inviter's party (made
        on the spot if needed) unless it is full.  Whether the accepter is
        already in a party is not checked again. */
    method Accept(id: CharId, world: WorldManager) returns (msgs: seq<string>)
      requires Valid()
      modifies this`invites, this`parties, this`partyOrder, world`outbox
      ensures Valid()
      ensures invites == old(invites) - {id}
      ensures id !in old(invites) ==>
        msgs == [NO_PENDING] && parties == old(parties) && partyOrder == old(partyOrder)
        && world.outbox == old(world.outbox)
      ensures id in old(invites) && (old(invites)[id] !in world.sessions || id !in world.sessions) ==>
        msgs == [INVITER_OFFLINE] && parties == old(parties) && partyOrder == old(partyOrder)
        && world.outbox == old(world.outbox)
      ensures id in old(invites) && old(invites)[id] in world.sessions && id in world.sessions ==>
        var inviter := old(invites)[id];
        var base := PartyOf(old(partyOrder), old(parties), inviter);
        && (partyOrder, parties) == AcceptState(old(partyOrder), old(parties), inviter, id)
        && (|base| >= MAX_PARTY_SIZE ==> msgs == [NOW_FULL] && world.outbox == old(world.outbox))
        && (|base| < MAX_PARTY_SIZE ==>
              && msgs == [YouJoined(world.sessions[inviter].player.name)]
              && world.outbox == old(world.outbox)
                   + MemberNotices(base + [id], world.sessions, id, JoinedParty(world.sessions[id].player.name)))
      ensures (old(PartiesDisjoint(parties)) && id in old(invites) && old(invites)[id] != id
        && old(LeaderOf(partyOrder, parties, id)).None?) ==> PartiesDisjoint(parties)
    {
      if id !in invites {
        return [NO_PENDING];
      }
      var inviterId := invites[id];
      invites := invites - {id};
      if inviterId !in world.sessions || id !in world.sessions {
        return [INVITER_OFFLINE];
      }
      msgs := JoinInviterParty(inviterId, id, world);
    }

    /** The part of `accept` after the checks: found a party for a
        partyless inviter, append the accepter unless the party is full,
        and tell the other online members. */
    method JoinInviterParty(inviterId: CharId, id: CharId, world: WorldManager) returns (msgs: seq<string>)
      requires Valid() && inviterId in world.sessions && id in world.sessions
      modifies this`parties, this`partyOrder, world`outbox
      ensures Valid()
      ensures (partyOrder, parties) == AcceptState(old(partyOrder), old(parties), inviterId, id)
      ensures var base := PartyOf(old(partyOrder), old(parties), inviterId);
        && (|base| >= MAX_PARTY_SIZE ==> msgs == [NOW_FULL] && world.outbox == old(world.outbox))
        && (|base| < MAX_PARTY_SIZE ==>
              && msgs == [YouJoined(world.sessions[inviterId].player.name)]
              && world.outbox == old(world.outbox)
                   + MemberNotices(base + [id], world.sessions, id, JoinedParty(world.sessions[id].player.name)))
      ensures (old(PartiesDisjoint(parties)) && inviterId != id && old(LeaderOf(partyOrder, parties, id)).None?)
        ==> PartiesDisjoint(parties)
    {
      AcceptKeepsValid(partyOrder, parties, inviterId, id);
      if LeaderOf(partyOrder, parties, id).None? && inviterId != id && PartiesDisjoint(parties) {
        AcceptKeepsDisjoint(partyOrder, parties, inviterId, id);
      }
      AcceptStateCases(partyOrder, parties, inviterId, id);
      var found := FindPartyLeader(inviterId);
      var leader: CharId;
      if found.None? {
        leader := inviterId;
        partyOrder := SetKeyOrder(partyOrder, parties, leader);
        parties := parties[leader := [inviterId]];
      } else {
        leader := found.value;
      }
      assert parties[leader] == PartyOf(old(partyOrder), old(parties), inviterId);
      if |parties[leader]| >= MAX_PARTY_SIZE {
        return [NOW_FULL];
      }
      parties := parties[leader := parties[leader] + [id]];
      NotifyMembers(world, parties[leader], id, JoinedParty(world.sessions[id].player.name));
      msgs := [YouJoined(world.sessions[inviterId].player.name)];
    }

    /** `decline`: consume the invite and tell the inviter when both are
        online; parties are untouched. */
    method Decline(id: CharId, world: WorldManager) returns (msgs: seq<string>)
      modifies this`invites, world`outbox
      ensures invites == old(invites) - {id}
      ensures id !in old(invites) ==> msgs == [NO_PENDING] && world.outbox == old(world.outbox)
      ensures id in old(invites) ==>
        var inviter := old(invites)[id];
        && msgs == [DECLINED]
        && world.outbox == old(world.outbox) +
             (if inviter in world.sessions && id in world.sessions
              then [Notice(inviter, DeclinedYours(world.sessions[id].player.name))] else [])
    {
      if id !in invites {
        return [NO_PENDING];
      }
      var inviterId := invites[id];
      invites := invites - {id};
      if inviterId in world.sessions && id in world.sessions {
        world.outbox := world.outbox + [Notice(inviterId, DeclinedYours(world.sessions[id].player.name))];
      }
      msgs := [DECLINED];
    }

    /** `leave_party`: the dicts change as `LeaveState` says; a promoted
        leader is told, then the remaining party (looked up again) hears
        that the character left. */
    method LeaveParty(id: CharId, world: WorldManager) returns (msgs: seq<string>)
      requires Valid()
      modifies this`parties, this`partyOrder, world`outbox
      ensures Valid()
      ensures (partyOrder, parties) == LeaveState(old(partyOrder), old(parties), id)
      ensures LeaderOf(old(partyOrder), old(parties), id).None? ==>
        msgs == [NOT_IN_PARTY] && world.outbox == old(world.outbox)
      ensures LeaderOf(old(partyOrder), old(parties), id).Some? ==>
        && msgs == [YOU_LEFT]
        && world.outbox == old(world.outbox) + Promotion(old(partyOrder), old(parties), world.sessions, id)
             + MemberNotices(PartyOf(partyOrder, parties, LeaveLookup(old(partyOrder), old(parties), id)),
                             world.sessions, id, LeftParty(LeaverName(world.sessions, id)))
      ensures old(PartiesDisjoint(parties)) ==> PartiesDisjoint(parties) && Partyless(parties, id)
    {
      var found := FindPartyLeader(id);
      if found.None? {
        return [NOT_IN_PARTY];
      }
      var leader := found.value;
      var playerName := LeaverName(world.sessions, id);
      ghost var promoted := Promotion(partyOrder, parties, world.sessions, id);
      ghost var target := LeaveLookup(partyOrder, parties, id);
      var members := DropFromParty(id, leader);
      if id == leader && |members| >= 2 && members[0] in world.sessions {
        world.outbox := world.outbox + [Notice(members[0], NOW_LEADER)];
      } else {
        assert world.outbox == old(world.outbox) + [];
      }
      assert world.outbox == old(world.outbox) + promoted;
      var lookup := if leader != id then leader else if |members| > 0 then members[0] else -1;
      assert lookup == target;
      var remaining := GetPartyMembers(lookup);
      NotifyMembers(world, remaining, id, LeftParty(playerName));
      msgs := [YOU_LEFT];
    }

    /** The dict updates of `leave_party`: take `id` out of its leader's
        list, then re-key the party under the next member when the leader
        left, or disband a party left with one member. */
    method DropFromParty(id: CharId, leader: CharId) returns (members: seq<CharId>)
      requires Valid() && LeaderOf(partyOrder, parties, id) == Some(leader)
      modifies this`parties, this`partyOrder
      ensures Valid()
      ensures members == RemoveFirst(old(parties)[leader], id)
      ensures (partyOrder, parties) == LeaveState(old(partyOrder), old(parties), id)
      ensures old(PartiesDisjoint(parties)) ==> PartiesDisjoint(parties) && Partyless(parties, id)
    {
      LeaveKeepsValid(partyOrder, parties, id);
      if PartiesDisjoint(parties) {
        LeaveKeepsDisjoint(partyOrder, parties, id);
      }
      members := RemoveFirst(parties[leader], id);
      parties := parties[leader := members];
      if id == leader {
        if |members| >= 2 {
          var newLeader := members[0];
          partyOrder := SetKeyOrder(partyOrder, parties, newLeader);
          parties := parties[newLeader := members];
          partyOrder := RemoveFirst(partyOrder, leader);
          parties := parties - {leader};
        } else if |members| == 1 {
          partyOrder := RemoveFirst(partyOrder, leader);
          parties := parties - {leader};
        }
      } else if |members| == 1 {
        partyOrder := RemoveFirst(partyOrder, leader);
        parties := parties - {leader};
      }
    }

    /** `show_party`: a header, then one line per member with the leader
        marked. */
    method ShowParty(id: CharId, world: WorldManager) returns (msgs: seq<string>)
      requires Valid()
      ensures LeaderOf(partyOrder, parties, id).None? ==> msgs == [SHOW_NOT_IN_PARTY]
      ensures LeaderOf(partyOrder, parties, id).Some? ==>
        var l := LeaderOf(partyOrder, parties, id).value;
        msgs == [SHOW_HEADER] + MemberLines(parties[l], world.sessions, l)
    {
      var found := FindPartyLeader(id);
      if found.None? {
        return [SHOW_NOT_IN_PARTY];
      }
      var leader := found.value;
      var members := parties[leader];
      msgs := [SHOW_HEADER];
      var i := 0;
      while i < |members|
        invariant 0 <= i <= |members|
        invariant msgs == [SHOW_HEADER] + MemberLines(members[..i], world.sessions, leader)
      {
        assert members[..i + 1][..i] == members[..i];
        msgs := msgs + [MemberLine(members[i], world.sessions, leader)];
        i := i + 1;
      }
      assert members[..i] == members;
    }

    /** `remove_player`: nothing for a character in no party (a pending
        invite to it survives); otherwise drop its pending invite and leave
        the party. */
    method RemovePlayer(id: CharId, world: WorldManager)
      requires Valid()
      modifies this`parties, this`partyOrder, this`invites, world`outbox
      ensures Valid()
      ensures LeaderOf(old(partyOrder), old(parties), id).None? ==>
        parties == old(parties) && partyOrder == old(partyOrder) && invites == old(invites)
        && world.outbox == old(world.outbox)
      ensures LeaderOf(old(partyOrder), old(parties), id).Some? ==>
        && invites == old(invites) - {id}
        && (partyOrder, parties) == LeaveState(old(partyOrder), old(parties), id)
        && world.outbox == old(world.outbox) + Promotion(old(partyOrder), old(parties), world.sessions, id)
             + MemberNotices(PartyOf(partyOrder, parties, LeaveLookup(old(partyOrder), old(parties), id)),
                             world.sessions, id, LeftParty(LeaverName(world.sessions, id)))
      ensures old(PartiesDisjoint(parties)) ==> PartiesDisjoint(parties) && Partyless(parties, id)
    {
      var found := FindPartyLeader(id);
      if found.None? {
        return;
      }
      invites := invites - {id};
      var _ := LeaveParty(id, world);
    }
  }
}
