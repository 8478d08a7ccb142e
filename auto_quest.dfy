/**
 * A quest that completes itself after a number of in-game minutes: a
 * countdown in a Java `int`, held at 0 once it runs out, that asks for the
 * reward on every update that leaves it at 0. The quest base class and its
 * reward collection are not part of this model; each request is counted.
 */
module Quests {
  import opened JavaInt

  /** The countdown and the number of reward collections requested so far. */
  datatype QuestProgress = QuestProgress(minutesToReward: Int32, collections: nat)

  /** The countdown after one minute: one less, or 0 once that is not positive. */
  function Countdown(m: Int32): (r: Int32)
    ensures r >= 0
    ensures m > 1 ==> r == m - 1
    ensures MinInt < m <= 1 ==> r == 0
    ensures m == MinInt ==> r == MaxInt
  {
    var next := Wrap(m - 1);
    if next <= 0 then 0 else next
  }

  /** One minute passes: the countdown moves on, and a countdown at 0 asks for the reward. */
  function Tick(p: QuestProgress): (r: QuestProgress)
    ensures r.minutesToReward == Countdown(p.minutesToReward)
    ensures r.collections == p.collections + (if Wrap(p.minutesToReward - 1) <= 0 then 1 else 0)
  {
    var next := Wrap(p.minutesToReward - 1);
    if next <= 0 then QuestProgress(0, p.collections + 1) else QuestProgress(next, p.collections)
  }

  /** The progress after `k` minutes. */
  function TickN(p: QuestProgress, k: nat): QuestProgress
  {
    if k == 0 then p else Tick(TickN(p, k - 1))
  }

  /** The larger of two integers. */
  function Max(a: int, b: int): int
  {
    if a >= b then a else b
  }

  /**
   * From a countdown of `m` >= 1 minutes with nothing collected, after `k`
   * minutes the countdown is m - k (but not below 0), and the reward has
   * been asked for on every minute from the m-th on.
   */
  lemma {:induction false} RewardSchedule(m: Int32, k: nat)
    requires m >= 1
    ensures TickN(QuestProgress(m, 0), k) == QuestProgress(Max(m - k, 0), Max(k - m + 1, 0))
  {
    if k > 0 {
      RewardSchedule(m, k - 1);
    }
  }

  /**
   * A fresh quest with a delay of `d` >= 1 minutes is completed after
   * exactly `d` updates and not before, and its reward is first asked for on
   * the d-th update.
   */
  lemma CompletesAfterDelay(d: Int32, k: nat)
    requires d >= 1
    ensures TickN(QuestProgress(d, 0), k).minutesToReward <= 0 <==> k >= d
    ensures TickN(QuestProgress(d, 0), k).collections > 0 <==> k >= d
  {
    RewardSchedule(d, k);
  }

  class AutoQuest {
    const name: string
    const description: string
    /** Minutes from the start (or a reset) to completion. */
    const collectDelay: Int32
    var minutesToReward: Int32
    /** How many times the quest has asked for its reward. */
    var collections: nat

    /** The quest's progress as a value. */
    ghost function Progress(): QuestProgress
      reads this
    {
      QuestProgress(minutesToReward, collections)
    }

    /** A quest that completes `collectDelay` minutes from now. */
    constructor (name: string, description: string, collectDelay: Int32)
      ensures this.name == name && this.description == description && this.collectDelay == collectDelay
      ensures Progress() == QuestProgress(collectDelay, 0)
    {
      this.name := name;
      this.description := description;
      this.collectDelay := collectDelay;
      minutesToReward := collectDelay;
      collections := 0;
    }

    /** A quest that completes one minute from now. */
    constructor WithDefaultDelay(name: string, description: string)
      ensures this.name == name && this.description == description && collectDelay == 1
      ensures Progress() == QuestProgress(1, 0)
    {
      this.name := name;
      this.description := description;
      collectDelay := 1;
      minutesToReward := 1;
      collections := 0;
    }

    /** One in-game minute; see `Tick`. */
    method UpdateState()
      modifies this
      ensures Progress() == Tick(old(Progress()))
    {
      minutesToReward := Wrap(minutesToReward - 1);
      if minutesToReward <= 0 {
        minutesToReward := 0;
        collections := collections + 1;
      }
    }

    /** The countdown has run out. */
    method IsCompleted() returns (r: bool)
      ensures r <==> minutesToReward <= 0
    {
      r := minutesToReward <= 0;
    }

    /** The long description, which is the short one. */
    method GetDescription() returns (r: string)
      ensures r == description
    {
      r := GetShortDescription();
    }

    /** The description given at construction. */
    method GetShortDescription() returns (r: string)
      ensures r == description
    {
      r := description;
    }

    /** The saved progress: the countdown. */
    method GetProgress() returns (r: Int32)
      ensures r == minutesToReward
    {
      r := minutesToReward;
    }

    /** Restores the countdown from saved progress. */
    method ReadProgress(progress: Int32)
      modifies this
      ensures Progress() == old(Progress()).(minutesToReward := progress)
    {
      minutesToReward := progress;
    }

    /** Restarts the countdown from the full delay. */
    method ResetState()
      modifies this
      ensures Progress() == old(Progress()).(minutesToReward := collectDelay)
    {
      minutesToReward := collectDelay;
    }
  }

  /** Saving a quest's progress and reading it back leaves the quest as it was. */
  method ProgressRoundTrip(q: AutoQuest)
    modifies q
    ensures q.Progress() == old(q.Progress())
  {
    var saved := q.GetProgress();
    q.ReadProgress(saved);
  }

  /**
   * Updating a fresh quest `d` times completes it, having asked for its
   * reward exactly once.
   */
  method RunToCompletion(name: string, description: string, d: Int32) returns (q: AutoQuest)
    requires d >= 1
    ensures fresh(q) && q.minutesToReward == 0 && q.collections == 1
  {
    q := new AutoQuest(name, description, d);
    var i := 0;
    while i < d
      invariant 0 <= i <= d
      invariant q.Progress() == TickN(QuestProgress(d, 0), i)
    {
      q.UpdateState();
      i := i + 1;
    }
    RewardSchedule(d, i);
  }
}
