/** The pairs-trading environment as a pure function of (market, state, action):
    the transition table, the shaped reward and whole episodes. The class in
    environment.dfy is proved to follow these definitions step by step. */
module Trading {
  import opened Stats

  // Positions (0: none, 1: long the spread, -1: short the spread).
  const Flat: int := 0
  const Long: int := 1
  const Short: int := -1

  // Actions: 0 holds, 1 buys the spread, 2 sells it. Any other value holds too.
  const Hold: int := 0
  const BuySpread: int := 1
  const SellSpread: int := 2

  // Reward-shaping constants.
  const TransactionCost: real := 0.5
  const HoldingCost: real := 0.01
  const DrawdownPenalty: real := 0.1
  const SharpeWeight: real := 0.1
  const SharpeWindow: nat := 20
  const VolatilityWindow: nat := 5
  const DefaultInitialBalance: real := 10000.0

  predicate IsPosition(p: int)
  {
    p == Flat || p == Long || p == Short
  }

  /** The data an environment is built from; it never changes. */
  datatype Market = Market(zScores: seq<real>, pricesA: seq<real>, pricesB: seq<real>, initialBalance: real)

  /** The three series are aligned. */
  predicate Aligned(m: Market)
  {
    |m.pricesA| == |m.zScores| && |m.pricesB| == |m.zScores|
  }

  /** The mutable part of the environment. */
  datatype Env = Env(currentStep: nat, position: int, balance: real, entryPriceDiff: real, portfolioHistory: seq<real>)

  /** What holds of the state between calls: the position is one of the three,
      the history has one snapshot per step (plus the seed after a reset), and
      its last snapshot is the balance. */
  predicate Consistent(s: Env)
  {
    IsPosition(s.position) &&
    (|s.portfolioHistory| == s.currentStep + 1 || |s.portfolioHistory| == s.currentStep) &&
    (s.portfolioHistory != [] ==> Last(s.portfolioHistory) == s.balance)
  }

  /** The state right after construction: the history is still empty. */
  function Initial(m: Market): (s: Env)
    ensures Consistent(s)
  {
    Env(0, Flat, m.initialBalance, 0.0, [])
  }

  /** The state after a reset: the history is seeded with the initial balance. */
  function ResetEnv(m: Market): (s: Env)
    ensures Consistent(s) && |s.portfolioHistory| == s.currentStep + 1
  {
    Env(0, Flat, m.initialBalance, 0.0, [m.initialBalance])
  }

  /** A step may be taken: the index it advances to exists in every series. */
  predicate CanStep(m: Market, s: Env)
  {
    Aligned(m) && s.currentStep + 1 < |m.zScores|
  }

  /** The episode is over. */
  predicate Done(m: Market, s: Env)
  {
    s.currentStep >= |m.zScores| - 1
  }

  /** The raw price difference A - B at index i (not weighted by the hedge ratio). */
  function SpreadPrice(m: Market, i: nat): real
    requires Aligned(m) && i < |m.zScores|
  {
    m.pricesA[i] - m.pricesB[i]
  }

  datatype TradeOutcome = TradeOutcome(position: int, entryPriceDiff: real, balance: real, profit: real)

  /** The transition table of one action at the current spread. */
  function Trade(action: int, position: int, entry: real, balance: real, spread: real): (t: TradeOutcome)
    requires IsPosition(position)
    ensures IsPosition(t.position)
    // the balance moves by the realised profit and by nothing else
    ensures t.balance == balance + t.profit
    // the position changes exactly on an open from flat or a close
    ensures t.position != position <==>
              (action == BuySpread && position != Long) || (action == SellSpread && position != Short)
    // an action that leaves the position alone changes nothing
    ensures t.position == position ==> t == TradeOutcome(position, entry, balance, 0.0)
    // opening: buying goes long, selling goes short, the entry is the current spread, no cash moves
    ensures position == Flat && t.position != Flat ==>
              t.position == (if action == BuySpread then Long else Short) &&
              t.entryPriceDiff == spread && t.profit == 0.0
    // closing: back to flat, and the profit is the spread's move in the position's direction
    ensures position != Flat && t.position != position ==>
              t.position == Flat && t.entryPriceDiff == entry &&
              t.profit == (position as real) * (spread - entry)
  {
    if action == BuySpread then
      if position == Flat then TradeOutcome(Long, spread, balance, 0.0)
      else if position == Short then
        var profit := entry - spread;
        TradeOutcome(Flat, entry, balance + profit, profit)
      else TradeOutcome(position, entry, balance, 0.0)
    else if action == SellSpread then
      if position == Flat then TradeOutcome(Short, spread, balance, 0.0)
      else if position == Long then
        var profit := spread - entry;
        TradeOutcome(Flat, entry, balance + profit, profit)
      else TradeOutcome(position, entry, balance, 0.0)
    else TradeOutcome(position, entry, balance, 0.0)
  }

  /** The balance changes of the last (up to) 20 history entries: at most 19 of them. */
  function Returns(history: seq<real>): (r: seq<real>)
    ensures |r| < SharpeWindow
    ensures history != [] ==> |r| == (if |history| < SharpeWindow then |history| else SharpeWindow) - 1
  {
    Diff(LastN(history, SharpeWindow))
  }

  /** The simplified Sharpe ratio of the recent balance changes, weighted by 0.1;
      nothing unless there are at least two changes with a positive spread. */
  function SharpeBonus(sqrt: real -> real, history: seq<real>): real
  {
    var r := Returns(history);
    if |r| > 1 && Std(sqrt, r) > 0.0 then Mean(r) / Std(sqrt, r) * SharpeWeight else 0.0
  }

  /** The shaped reward of a step: the realised profit, less the fee when that
      profit is non-zero, less the holding cost while a position is open, less
      the drawdown penalty while under water, plus the Sharpe bonus. */
  function Reward(profit: real, position: int, balance: real, initialBalance: real,
                  sqrt: real -> real, history: seq<real>): real
  {
    profit
    - (if profit != 0.0 then TransactionCost else 0.0)
    - (if position != Flat then HoldingCost else 0.0)
    - (if balance < initialBalance then DrawdownPenalty else 0.0)
    + SharpeBonus(sqrt, history)
  }

  /** The trade one step makes, at the spread of the index it advances to. */
  function StepTrade(m: Market, s: Env, action: int): TradeOutcome
    requires CanStep(m, s) && IsPosition(s.position)
  {
    Trade(action, s.position, s.entryPriceDiff, s.balance, SpreadPrice(m, s.currentStep + 1))
  }

  /** The state after one step. */
  function StepEnv(m: Market, s: Env, action: int): (t: Env)
    requires CanStep(m, s) && Consistent(s)
    ensures Consistent(t)
    ensures t.currentStep == s.currentStep + 1
    ensures t.portfolioHistory == s.portfolioHistory + [t.balance]
    ensures t.balance == s.balance + StepTrade(m, s, action).profit
    // the episode is over exactly when no further step can be taken
    ensures Done(m, t) <==> !CanStep(m, t)
  {
    var o := StepTrade(m, s, action);
    Env(s.currentStep + 1, o.position, o.balance, o.entryPriceDiff, s.portfolioHistory + [o.balance])
  }

  /** The reward of one step. */
  function StepReward(m: Market, sqrt: real -> real, s: Env, action: int): real
    requires CanStep(m, s) && Consistent(s)
  {
    var t := StepEnv(m, s, action);
    Reward(StepTrade(m, s, action).profit, t.position, t.balance, m.initialBalance, sqrt, t.portfolioHistory)
  }

  /** The state after taking the actions in order. */
  function Run(m: Market, s: Env, actions: seq<int>): Env
    requires Aligned(m) && Consistent(s) && s.currentStep + |actions| < |m.zScores|
    decreases |actions|
  {
    if actions == [] then s else Run(m, StepEnv(m, s, actions[0]), actions[1..])
  }

  /** The profit realised by each step of a run. */
  function Profits(m: Market, s: Env, actions: seq<int>): seq<real>
    requires Aligned(m) && Consistent(s) && s.currentStep + |actions| < |m.zScores|
    decreases |actions|
  {
    if actions == [] then [] else [StepTrade(m, s, actions[0]).profit] + Profits(m, StepEnv(m, s, actions[0]), actions[1..])
  }

  /** A run advances the index once per action, only appends to the history
      (one snapshot per action, the last being the balance), and keeps the
      position one of the three. */
  lemma {:induction false} RunShape(m: Market, s: Env, actions: seq<int>)
    requires Aligned(m) && Consistent(s) && s.currentStep + |actions| < |m.zScores|
    ensures Consistent(Run(m, s, actions))
    ensures Run(m, s, actions).currentStep == s.currentStep + |actions|
    ensures |Run(m, s, actions).portfolioHistory| == |s.portfolioHistory| + |actions|
    ensures Run(m, s, actions).portfolioHistory[..|s.portfolioHistory|] == s.portfolioHistory
    ensures actions != [] ==> Last(Run(m, s, actions).portfolioHistory) == Run(m, s, actions).balance
    decreases |actions|
  {
    if actions != [] {
      var t := StepEnv(m, s, actions[0]);
      RunShape(m, t, actions[1..]);
      assert t.portfolioHistory[..|s.portfolioHistory|] == s.portfolioHistory;
    }
  }

  /** The balance after a run is the starting balance plus every realised profit. */
  lemma {:induction false} RunBalance(m: Market, s: Env, actions: seq<int>)
    requires Aligned(m) && Consistent(s) && s.currentStep + |actions| < |m.zScores|
    ensures |Profits(m, s, actions)| == |actions|
    ensures Run(m, s, actions).balance == s.balance + Sum(Profits(m, s, actions))
    decreases |actions|
  {
    if actions != [] {
      RunBalance(m, StepEnv(m, s, actions[0]), actions[1..]);
    }
  }

  /** A run of holds (any action other than 1 and 2) leaves the position, the
      balance and the entry price alone, and appends the unchanged balance. */
  lemma {:induction false} RunOfHolds(m: Market, s: Env, actions: seq<int>)
    requires Aligned(m) && Consistent(s) && s.currentStep + |actions| < |m.zScores|
    requires forall k :: 0 <= k < |actions| ==> actions[k] != BuySpread && actions[k] != SellSpread
    ensures Run(m, s, actions).position == s.position
    ensures Run(m, s, actions).balance == s.balance
    ensures Run(m, s, actions).entryPriceDiff == s.entryPriceDiff
    ensures Run(m, s, actions).portfolioHistory == s.portfolioHistory + seq(|actions|, _ => s.balance)
    decreases |actions|
  {
    if actions != [] {
      var t := StepEnv(m, s, actions[0]);
      RunOfHolds(m, t, actions[1..]);
      assert s.portfolioHistory + seq(|actions|, _ => s.balance)
          == t.portfolioHistory + seq(|actions| - 1, _ => s.balance);
    }
  }

  /** An episode from reset: after k steps the index is k, the history holds
      k + 1 snapshots starting with the initial balance and ending with the
      balance, and the balance is the initial balance plus the realised profits. */
  lemma Episode(m: Market, actions: seq<int>)
    requires Aligned(m) && |actions| < |m.zScores|
    ensures Run(m, ResetEnv(m), actions).currentStep == |actions|
    ensures |Run(m, ResetEnv(m), actions).portfolioHistory| == |actions| + 1
    ensures Run(m, ResetEnv(m), actions).portfolioHistory[0] == m.initialBalance
    ensures Last(Run(m, ResetEnv(m), actions).portfolioHistory) == Run(m, ResetEnv(m), actions).balance
    ensures Run(m, ResetEnv(m), actions).balance == m.initialBalance + Sum(Profits(m, ResetEnv(m), actions))
  {
    var s := ResetEnv(m);
    RunShape(m, s, actions);
    RunBalance(m, s, actions);
    assert Run(m, s, actions).portfolioHistory[..1][0] == m.initialBalance;
  }

  /** An all-hold episode ends with the balance it started with. */
  lemma HoldEpisode(m: Market, actions: seq<int>)
    requires Aligned(m) && |actions| < |m.zScores|
    requires forall k :: 0 <= k < |actions| ==> actions[k] == Hold
    ensures Run(m, ResetEnv(m), actions).balance == m.initialBalance
    ensures Run(m, ResetEnv(m), actions).position == Flat
  {
    RunOfHolds(m, ResetEnv(m), actions);
  }

  /** Closing at the entry spread realises nothing, so no fee is charged: the
      reward is the same as for a hold from flat. */
  lemma ZeroProfitCloseIsFree(m: Market, sqrt: real -> real, s: Env, action: int)
    requires CanStep(m, s) && Consistent(s)
    requires s.position != Flat && SpreadPrice(m, s.currentStep + 1) == s.entryPriceDiff
    requires (s.position == Long && action == SellSpread) || (s.position == Short && action == BuySpread)
    ensures StepEnv(m, s, action).position == Flat
    ensures StepEnv(m, s, action).balance == s.balance
    ensures StepReward(m, sqrt, s, action) ==
              (if s.balance < m.initialBalance then -DrawdownPenalty else 0.0)
              + SharpeBonus(sqrt, StepEnv(m, s, action).portfolioHistory)
  {
  }

  /** The shaping around the realised profit, apart from the Sharpe bonus,
      costs between nothing and 0.5 + 0.01 + 0.1. A realised profit always
      pays the fee, an open position always pays the holding cost, and a
      flat, above-water step that realises nothing earns the bonus alone. */
  lemma RewardShaping(profit: real, position: int, balance: real, initialBalance: real,
                      sqrt: real -> real, history: seq<real>)
    ensures var shaping := Reward(profit, position, balance, initialBalance, sqrt, history) - SharpeBonus(sqrt, history);
            profit - (TransactionCost + HoldingCost + DrawdownPenalty) <= shaping <= profit &&
            (profit != 0.0 ==> shaping <= profit - TransactionCost) &&
            (position != Flat ==> shaping <= profit - HoldingCost) &&
            (balance < initialBalance ==> shaping <= profit - DrawdownPenalty) &&
            (profit == 0.0 ==> profit - (HoldingCost + DrawdownPenalty) <= shaping) &&
            (position == Flat ==> profit - (TransactionCost + DrawdownPenalty) <= shaping) &&
            (!(balance < initialBalance) ==> profit - (TransactionCost + HoldingCost) <= shaping) &&
            (profit == 0.0 && position == Flat && !(balance < initialBalance) ==> shaping == 0.0)
  {
  }

  /** The bonus needs two balance changes, so three snapshots: the first step
      after a reset never earns one. */
  lemma NoBonusBeforeThreeSnapshots(sqrt: real -> real, history: seq<real>)
    requires |history| <= 2
    ensures SharpeBonus(sqrt, history) == 0.0
  {
  }

  /** The reward of the two quiet kinds of step: a hold while flat earns only
      the drawdown penalty and the bonus, and opening a position costs the
      holding cost on top of those. */
  lemma QuietStepReward(m: Market, sqrt: real -> real, s: Env, action: int)
    requires CanStep(m, s) && Consistent(s) && s.position == Flat
    ensures var t := StepEnv(m, s, action);
            var penalty := if s.balance < m.initialBalance then DrawdownPenalty else 0.0;
            StepReward(m, sqrt, s, action)
            == (if t.position == Flat then 0.0 else -HoldingCost) - penalty + SharpeBonus(sqrt, t.portfolioHistory)
    ensures StepEnv(m, s, action).balance == s.balance
  {
  }

  /** The reward of a step that keeps an open position: no profit is
      realised, so no fee, but the holding cost is paid, with the drawdown
      penalty while under water and the Sharpe bonus. */
  lemma OpenHoldReward(m: Market, sqrt: real -> real, s: Env, action: int)
    requires CanStep(m, s) && Consistent(s) && s.position != Flat
    requires StepEnv(m, s, action).position == s.position
    ensures var t := StepEnv(m, s, action);
            t.balance == s.balance && t.entryPriceDiff == s.entryPriceDiff &&
            StepReward(m, sqrt, s, action)
            == -HoldingCost - (if s.balance < m.initialBalance then DrawdownPenalty else 0.0)
               + SharpeBonus(sqrt, t.portfolioHistory)
  {
  }

  /** The reward of a closing step: the realised profit, less the fee unless
      that profit is zero, less the drawdown penalty if the new balance is
      under water, plus the Sharpe bonus; no holding cost, since the step
      ends flat. */
  lemma CloseReward(m: Market, sqrt: real -> real, s: Env, action: int)
    requires CanStep(m, s) && Consistent(s) && s.position != Flat
    requires StepEnv(m, s, action).position != s.position
    ensures var t := StepEnv(m, s, action);
            var p := StepTrade(m, s, action).profit;
            t.position == Flat &&
            p == (s.position as real) * (SpreadPrice(m, s.currentStep + 1) - s.entryPriceDiff) &&
            StepReward(m, sqrt, s, action)
            == p - (if p != 0.0 then TransactionCost else 0.0)
               - (if t.balance < m.initialBalance then DrawdownPenalty else 0.0)
               + SharpeBonus(sqrt, t.portfolioHistory)
  {
  }

  /** Given a true square root, the guard of the Sharpe bonus holds exactly
      when the window holds at least two balance changes that are not all
      equal; otherwise the bonus is zero. */
  lemma SharpeBonusGuard(sqrt: real -> real, history: seq<real>)
    requires IsSqrt(sqrt)
    ensures var r := Returns(history);
            (|r| > 1 && Std(sqrt, r) > 0.0) <==> (|r| > 1 && !Constant(r))
    ensures var r := Returns(history);
            !(|r| > 1 && !Constant(r)) ==> SharpeBonus(sqrt, history) == 0.0
  {
    var r := Returns(history);
    if |r| > 1 {
      StdPositiveIffNotConstant(sqrt, r);
    }
  }

  /** When it is paid, the Sharpe bonus has the sign of the window's overall
      move: positive when the balance rose across the last 20 snapshots and
      negative when it fell. */
  lemma SharpeBonusSign(sqrt: real -> real, history: seq<real>)
    requires IsSqrt(sqrt)
    requires |Returns(history)| > 1 && !Constant(Returns(history))
    ensures var w := LastN(history, SharpeWindow);
            (0.0 < SharpeBonus(sqrt, history) <==> w[0] < Last(w)) &&
            (SharpeBonus(sqrt, history) < 0.0 <==> Last(w) < w[0])
  {
    var r := Returns(history);
    var w := LastN(history, SharpeWindow);
    StdPositiveIffNotConstant(sqrt, r);
    MeanOfDiffSign(w);
    QuotientSign(Mean(r), Std(sqrt, r));
    assert SharpeBonus(sqrt, history) == Mean(r) / Std(sqrt, r) * SharpeWeight;
  }

  /** A long round trip on a four-point series with initial balance 10000:
      buy the spread at 5, hold while it moves to 7, sell it at 8. Each step
      with the position open costs only the holding cost; the closing step
      ends the episode flat and 3 up, and pays 3 less the fee plus a positive
      Sharpe bonus. */
  lemma {:induction false} LongRoundTrip(sqrt: real -> real)
    requires IsSqrt(sqrt)
    ensures var m := Market([0.0, 0.0, 0.0, 0.0], [0.0, 5.0, 7.0, 8.0], [0.0, 0.0, 0.0, 0.0], DefaultInitialBalance);
            var s0 := ResetEnv(m);
            var s1 := StepEnv(m, s0, BuySpread);
            var s2 := StepEnv(m, s1, Hold);
            var s3 := StepEnv(m, s2, SellSpread);
            s1 == Env(1, Long, 10000.0, 5.0, [10000.0, 10000.0]) &&
            StepReward(m, sqrt, s0, BuySpread) == -HoldingCost &&
            s2 == Env(2, Long, 10000.0, 5.0, [10000.0, 10000.0, 10000.0]) &&
            StepReward(m, sqrt, s1, Hold) == -HoldingCost &&
            s3 == Env(3, Flat, 10003.0, 5.0, [10000.0, 10000.0, 10000.0, 10003.0]) &&
            Done(m, s3) &&
            StepReward(m, sqrt, s2, SellSpread) > 3.0 - TransactionCost
  {
    var m := Market([0.0, 0.0, 0.0, 0.0], [0.0, 5.0, 7.0, 8.0], [0.0, 0.0, 0.0, 0.0], DefaultInitialBalance);
    var h2 := [10000.0, 10000.0, 10000.0];
    var h3 := [10000.0, 10000.0, 10000.0, 10003.0];
    assert Returns([10000.0, 10000.0]) == [0.0];
    assert Returns(h2) == [0.0, 0.0];
    SharpeBonusGuard(sqrt, h2);
    assert LastN(h3, SharpeWindow) == h3;
    assert Returns(h3) == [0.0, 0.0, 3.0];
    assert Returns(h3)[0] != Returns(h3)[2];
    SharpeBonusSign(sqrt, h3);
  }
}
