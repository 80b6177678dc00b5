/** The mining reward schedule. */
module Rewards {
  import opened Transactions
  import opened Arith

  const TOTAL_REWARD_DURATION := 25
  const INITIAL_REWARD := 18000000 * STORAGE_FACTOR
  const REDUCTION_AMOUNT := 500000 * STORAGE_FACTOR
  const REWARD_ADJUST_INTERVAL := 365 * 24 * 60 * 60 / 20

  /** The reward of one whole adjustment interval. */
  function IntervalReward(duration: nat): nat
    requires duration < TOTAL_REWARD_DURATION
  {
    INITIAL_REWARD - REDUCTION_AMOUNT * duration
  }

  /** The table holds the reward of every interval, and nothing else. */
  ghost predicate IsRewardTable(rewards: map<nat, nat>) {
    && (forall i: nat :: i in rewards <==> i < TOTAL_REWARD_DURATION)
    && (forall i :: i in rewards ==> rewards[i] == IntervalReward(i))
  }

  /** The init loop that fills the MiningRewards table. */
  method InitMiningRewards() returns (rewards: map<nat, nat>)
    ensures IsRewardTable(rewards)
  {
    rewards := map[];
    for i := 0 to TOTAL_REWARD_DURATION
      invariant forall j: nat :: j in rewards <==> j < i
      invariant forall j :: j in rewards ==> rewards[j] == IntervalReward(j)
    {
      rewards := rewards[i := INITIAL_REWARD - REDUCTION_AMOUNT * i];
    }
  }

  /** GetRewardByHeight, for the heights it accepts: what the table gives is the schedule. */
  method GetRewardByHeight(rewards: map<nat, nat>, height: nat) returns (r: nat)
    requires height > 0 && IsRewardTable(rewards)
    ensures r == RewardAt(height)
  {
    var duration := (height - 1) / REWARD_ADJUST_INTERVAL;
    if duration >= TOTAL_REWARD_DURATION {
      return 0;
    }
    r := rewards[duration] / REWARD_ADJUST_INTERVAL;
  }

  /** The mining reward of the block at a height. */
  function RewardAt(height: nat): nat
    requires height > 0
  {
    var duration := (height - 1) / REWARD_ADJUST_INTERVAL;
    if duration >= TOTAL_REWARD_DURATION then 0
    else IntervalReward(duration) / REWARD_ADJUST_INTERVAL
  }

  /** Everything mined by the blocks 1..height. */
  function Mined(height: nat): nat {
    if height == 0 then 0 else Mined(height - 1) + RewardAt(height)
  }

  /** What the first n intervals could pay out if nothing were lost to rounding. */
  function Budget(n: nat): nat
    requires n <= TOTAL_REWARD_DURATION
  {
    if n == 0 then 0 else Budget(n - 1) + IntervalReward(n - 1)
  }

  /** The reward of a block in interval q. */
  function PerBlock(q: nat): nat {
    if q < TOTAL_REWARD_DURATION then IntervalReward(q) / REWARD_ADJUST_INTERVAL else 0
  }

  /** The height before the first block of interval q. */
  function Start(q: nat): nat {
    if q == 0 then 0 else Start(q - 1) + REWARD_ADJUST_INTERVAL
  }

  /** What r blocks of interval q pay. */
  function Paid(q: nat, r: nat): nat {
    if r == 0 then 0 else Paid(q, r - 1) + PerBlock(q)
  }

  lemma {:induction false} StartIsMultiple(q: nat)
    ensures Start(q) == q * REWARD_ADJUST_INTERVAL
  {
    if q == 0 {
    } else {
      StartIsMultiple(q - 1);
      Distribute(q, 1, REWARD_ADJUST_INTERVAL);
    }
  }

  lemma {:induction false} PaidIsProduct(q: nat, r: nat)
    ensures Paid(q, r) == r * PerBlock(q)
    decreases r
  {
    hide PerBlock;
    if r == 0 {
    } else {
      PaidIsProduct(q, r - 1);
      Distribute(r, 1, PerBlock(q));
    }
  }

  lemma RewardInInterval(q: nat, r: nat)
    requires r < REWARD_ADJUST_INTERVAL
    ensures RewardAt(Start(q) + r + 1) == PerBlock(q)
  {
    hide IntervalReward;
    StartIsMultiple(q);
    DivUnique(Start(q) + r, REWARD_ADJUST_INTERVAL, q, r);
  }

  /** Rounding down per block never pays out more than the interval's reward. */
  lemma IntervalPaysAtMost(q: nat, r: nat)
    requires q < TOTAL_REWARD_DURATION && r <= REWARD_ADJUST_INTERVAL
    ensures Paid(q, r) <= IntervalReward(q)
  {
    hide Paid, IntervalReward;
    PaidIsProduct(q, r);
    Scale(r, REWARD_ADJUST_INTERVAL, PerBlock(q));
    DivMod(IntervalReward(q), REWARD_ADJUST_INTERVAL);
  }

  function Capped(q: nat): (n: nat) {
    if q < TOTAL_REWARD_DURATION then q else TOTAL_REWARD_DURATION
  }

  /** What has been mined r blocks into interval q. */
  lemma {:induction false} MinedInInterval(q: nat, r: nat)
    requires r <= REWARD_ADJUST_INTERVAL
    ensures Mined(Start(q) + r) <= Budget(Capped(q)) + Paid(q, r)
    decreases q, r
  {
    hide RewardAt, PerBlock, IntervalReward, Mined, Paid, Start, Budget;
    if r > 0 {
      MinedInInterval(q, r - 1);
      OneMoreBlock(q, r);
    } else if q > 0 {
      MinedInInterval(q - 1, REWARD_ADJUST_INTERVAL);
      OneMoreInterval(q);
    } else {
      assert Mined(Start(0) + 0) == 0 by { NothingYet(); }
    }
  }

  lemma NothingYet()
    ensures Start(0) == 0 && Mined(0) == 0
  {
  }

  lemma OneMoreBlock(q: nat, r: nat)
    requires 0 < r <= REWARD_ADJUST_INTERVAL
    ensures Mined(Start(q) + r) == Mined(Start(q) + r - 1) + PerBlock(q) && Paid(q, r) == Paid(q, r - 1) + PerBlock(q)
  {
    hide RewardAt, PerBlock, Start;
    RewardInInterval(q, r - 1);
  }

  lemma OneMoreInterval(q: nat)
    requires q > 0
    ensures Start(q) == Start(q - 1) + REWARD_ADJUST_INTERVAL
    ensures Budget(Capped(q - 1)) + Paid(q - 1, REWARD_ADJUST_INTERVAL) <= Budget(Capped(q))
  {
    hide Start, Paid, IntervalReward, Budget;
    StartStep(q);
    if q <= TOTAL_REWARD_DURATION {
      BudgetStep(q);
      IntervalPaysAtMost(q - 1, REWARD_ADJUST_INTERVAL);
    } else {
      NothingPaid(q - 1, REWARD_ADJUST_INTERVAL);
    }
  }

  lemma StartStep(q: nat)
    requires q > 0
    ensures Start(q) == Start(q - 1) + REWARD_ADJUST_INTERVAL
  {
  }

  lemma BudgetStep(n: nat)
    requires 0 < n <= TOTAL_REWARD_DURATION
    ensures Budget(n) == Budget(n - 1) + IntervalReward(n - 1)
  {
  }

  lemma {:induction false} NothingPaid(q: nat, r: nat)
    requires q >= TOTAL_REWARD_DURATION
    ensures Paid(q, r) == 0
    decreases r
  {
    if r == 0 {
    } else {
      NothingPaid(q, r - 1);
    }
  }

  /** The budget in closed form: half of 73 n - n^2 reductions. */
  lemma {:induction false} BudgetClosedForm(n: nat)
    requires n <= TOTAL_REWARD_DURATION
    ensures 2 * Budget(n) == (73 * n - n * n) * REDUCTION_AMOUNT
  {
    hide Budget;
    if n == 0 {
      assert Budget(0) == 0 by { NoBudget(); }
    } else {
      BudgetClosedForm(n - 1);
      BudgetStep(n);
      NextTerm(n);
    }
  }

  lemma NoBudget()
    ensures Budget(0) == 0
  {
  }

  lemma NextTerm(n: nat)
    requires n > 0
    ensures (73 * n - n * n) * REDUCTION_AMOUNT
         == (73 * (n - 1) - (n - 1) * (n - 1)) * REDUCTION_AMOUNT + 2 * (INITIAL_REWARD - REDUCTION_AMOUNT * (n - 1))
  {
    SquareStep(n);
    var before := 73 * (n - 1) - (n - 1) * (n - 1);
    assert 73 * n - n * n == before + (74 - 2 * n);
    Distribute(before, 74 - 2 * n, REDUCTION_AMOUNT);
  }

  lemma BudgetIsCapped(n: nat)
    requires n <= TOTAL_REWARD_DURATION
    ensures Budget(n) <= TOTAL_MINING_REWARDS
  {
    hide Budget;
    BudgetClosedForm(n);
    AtMostAtEnd(n);
    Scale(73 * n - n * n, 1200, REDUCTION_AMOUNT);
  }

  lemma SquareStep(n: nat)
    requires n > 0
    ensures (n - 1) * (n - 1) == n * n - 2 * n + 1
  {
  }

  lemma AtMostAtEnd(n: nat)
    requires n <= 25
    ensures 73 * n - n * n <= 1200
  {
    Scale(0, 25 - n, 48 - n);
    assert (25 - n) * (48 - n) == 1200 - 73 * n + n * n;
  }

  lemma IntervalOf(height: nat) returns (q: nat, r: nat)
    ensures r < REWARD_ADJUST_INTERVAL && Start(q) + r == height
  {
    hide Start;
    q, r := height / REWARD_ADJUST_INTERVAL, height % REWARD_ADJUST_INTERVAL;
    DivMod(height, REWARD_ADJUST_INTERVAL);
    StartIsMultiple(q);
  }

  /** However long the chain, mining never issues more than the 300 million coins set aside. */
  lemma MinedIsCapped(height: nat)
    ensures Mined(height) <= TOTAL_MINING_REWARDS
  {
    hide Mined, IntervalReward, PerBlock, Start, Paid;
    var q, r := IntervalOf(height);
    MinedInInterval(q, r);
    if q < TOTAL_REWARD_DURATION {
      IntervalPaysAtMost(q, r);
      BudgetIsCapped(q + 1);
    } else {
      NothingPaid(q, r);
      BudgetIsCapped(Capped(q));
    }
  }
}
