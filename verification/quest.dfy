/** Quests (Quests/quest.py): a status machine and a stage counter over a
    list of objectives, with rewards handed out on turn-in. */
module Quests {
  import opened Common
  import GameObjects
  import opened Objectives

  datatype QuestStatus = NotStarted | InProgress | Completed | Failed | TurnedIn

  datatype QuestStage = Stage1 | Stage2 | Stage3 | Stage4 | Stage5

  datatype RewardType = Experience | ItemReward | Currency | Reputation | Unlock

  /** A reward record (Quests/reward.py); `item_name` names the item of an
      item reward. */
  datatype Reward = Reward(rewardType: RewardType, description: string, value: int, itemName: Option<string>)

  /** `list(QuestStage)`: the stages in declaration order. */
  const Stages: seq<QuestStage> := [Stage1, Stage2, Stage3, Stage4, Stage5]

  /** `stages.index(stage)`. */
  function StageIndex(s: QuestStage): (i: nat)
    ensures i < |Stages| && Stages[i] == s
  {
    match s
    case Stage1 => 0
    case Stage2 => 1
    case Stage3 => 2
    case Stage4 => 3
    case Stage5 => 4
  }

  /** The stage `advance_stage` moves to: the next one in declaration order,
      or the same stage once at the last one. */
  function NextStage(s: QuestStage): (r: QuestStage)
    ensures s != Stage5 ==> StageIndex(r) == StageIndex(s) + 1
    ensures s == Stage5 ==> r == Stage5
  {
    var idx := StageIndex(s);
    if idx + 1 < |Stages| then Stages[idx + 1] else s
  }

  function NextStageTimes(s: QuestStage, n: nat): QuestStage
    decreases n
  {
    if n == 0 then s else NextStageTimes(NextStage(s), n - 1)
  }

  /** `n` calls of `advance_stage` move `n` stages on, stopping at the
      fifth. */
  lemma {:induction false} StagesAdvance(s: QuestStage, n: nat)
    ensures StageIndex(NextStageTimes(s, n)) == if StageIndex(s) + n < 4 then StageIndex(s) + n else 4
    decreases n
  {
    if n > 0 {
      StagesAdvance(NextStage(s), n - 1);
    }
  }

  /** `all(obj.is_complete() for obj in objectives if not obj.is_optional)`,
      consuming the objectives in order: it holds exactly when every
      non-optional objective is complete (so at once when there are none). */
  predicate RequiredDone(objectives: seq<Objective>): (b: bool)
    reads objectives
    ensures b <==> forall i :: 0 <= i < |objectives| && !objectives[i].isOptional ==> objectives[i].IsComplete()
  {
    if objectives == [] then true
    else (objectives[0].isOptional || objectives[0].IsComplete()) && RequiredDone(objectives[1..])
  }

  /** The status after `complete`: `COMPLETED` when the objectives are
      done, whatever the status was; otherwise unchanged. */
  function CompleteStatus(status: QuestStatus, done: bool): QuestStatus {
    if done then Completed else status
  }

  /** The status and the rewards handed out by `turn_in`. */
  function TurnInResult(status: QuestStatus, rewards: seq<Reward>): (QuestStatus, seq<Reward>) {
    if status == Completed then (TurnedIn, rewards) else (status, [])
  }

  /** Rewards are handed out at most once: a second `turn_in` hands out
      nothing and changes nothing. Only a completed quest hands any out. */
  lemma TurnInOnce(status: QuestStatus, rewards: seq<Reward>)
    ensures var (s1, _) := TurnInResult(status, rewards);
      TurnInResult(s1, rewards) == (s1, [])
    ensures TurnInResult(status, rewards).1 != [] ==> status == Completed
    ensures status != Completed ==> TurnInResult(status, rewards) == (status, [])
  {
  }

  /** `complete` followed by `turn_in` hands out the rewards whenever the
      objectives are done -- also for a quest already turned in, since
      `complete` does not look at the status, so the same rewards can be
      handed out again; with the objectives not done, only an already
      completed quest hands them out. `fail` or `start` first makes the
      turn-in hand out nothing. */
  lemma CompleteThenTurnIn(status: QuestStatus, done: bool, rewards: seq<Reward>)
    ensures done ==> TurnInResult(CompleteStatus(status, done), rewards) == (TurnedIn, rewards)
    ensures !done ==> TurnInResult(CompleteStatus(status, done), rewards) == TurnInResult(status, rewards)
    ensures TurnInResult(CompleteStatus(TurnedIn, true), rewards) == (TurnedIn, rewards)
    ensures TurnInResult(Failed, rewards) == (Failed, [])
    ensures TurnInResult(InProgress, rewards) == (InProgress, [])
  {
  }

  class Quest {
    const uid: Uid
    const name: string
    var description: Option<Description>
    var completedDescription: Option<Description>
    var status: QuestStatus
    var currentStage: QuestStage
    const objectives: seq<Objective>
    const rewards: seq<Reward>
    const prerequisites: seq<string>
    const isRepeatable: bool

    /** A new quest: not started, at the first stage, with no descriptions
        and (unless given) empty objective, reward and prerequisite lists. */
    constructor (gen: GameObjects.UidGenerator, name: string, objectives: seq<Objective> := [],
                 rewards: seq<Reward> := [], prerequisites: seq<string> := [], isRepeatable: bool := false)
      requires gen.Valid()
      modifies gen
      ensures gen.Valid() && uid !in old(gen.issued) && gen.issued == old(gen.issued) + {uid}
      ensures this.name == name && description == None && completedDescription == None
      ensures status == NotStarted && currentStage == Stage1
      ensures this.objectives == objectives && this.rewards == rewards
      ensures this.prerequisites == prerequisites && this.isRepeatable == isRepeatable
    {
      var u := gen.Fresh();
      uid := u;
      this.name := name;
      description := None;
      completedDescription := None;
      status := NotStarted;
      currentStage := Stage1;
      this.objectives := objectives;
      this.rewards := rewards;
      this.prerequisites := prerequisites;
      this.isRepeatable := isRepeatable;
    }

    /** `is_complete`. */
    predicate IsComplete()
      reads this, objectives
    {
      RequiredDone(objectives)
    }

    /** `advance_stage`. */
    method AdvanceStage()
      modifies this`currentStage
      ensures currentStage == NextStage(old(currentStage))
    {
      var idx := StageIndex(currentStage);
      if idx + 1 < |Stages| {
        currentStage := Stages[idx + 1];
      }
    }

    /** `start`: in progress, whatever the status was. */
    method Start()
      modifies this`status
      ensures status == InProgress
    {
      status := InProgress;
    }

    /** `complete`: completed when the objectives are done, without looking
        at the current status; otherwise nothing changes. */
    method Complete()
      modifies this`status
      ensures status == CompleteStatus(old(status), RequiredDone(objectives))
    {
      if IsComplete() {
        status := Completed;
      }
    }

    /** `fail`: failed, whatever the status was. */
    method Fail()
      modifies this`status
      ensures status == Failed
    {
      status := Failed;
    }

    /** `turn_in`: a completed quest becomes turned in and hands out its
        rewards; any other quest hands out nothing and is unchanged. */
    method TurnIn() returns (handed: seq<Reward>)
      modifies this`status
      ensures (status, handed) == TurnInResult(old(status), rewards)
    {
      if status == Completed {
        status := TurnedIn;
        return rewards;
      }
      return [];
    }
  }
}
