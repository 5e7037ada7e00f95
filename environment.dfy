/** The gym environment object: a mutable state machine over fixed z-score and
    price series. Its methods update the fields in place, and each is proved
    to agree with the pure model in the Trading module. */
module Environment {
  import opened Stats
  import opened Trading

  /** The agent's view of the state: [z-score, position, balance / initial
      balance, volatility of the last five z-scores]. */
  datatype Observation = Observation(zScore: real, position: real, normalisedBalance: real, volatility: real)

  class PairsTradingEnv {
    const zScores: seq<real>
    const pricesA: seq<real>
    const pricesB: seq<real>
    const initialBalance: real
    /** The square root numpy's standard deviation uses. */
    const sqrt: real -> real

    var balance: real
    var currentStep: nat
    var position: int
    var entryPriceDiff: real
    var portfolioHistory: seq<real>

    /** The series the environment was built from. */
    function Data(): Market
    {
      Market(zScores, pricesA, pricesB, initialBalance)
    }

    /** The mutable state as a value. */
    function State(): Env
      reads this
    {
      Env(currentStep, position, balance, entryPriceDiff, portfolioHistory)
    }

    ghost predicate Valid()
      reads this
    {
      Aligned(Data()) && Consistent(State())
    }

    /** Stores the series; the history stays empty until the first reset. */
    constructor (zScores: seq<real>, pricesA: seq<real>, pricesB: seq<real>, sqrt: real -> real,
                 initialBalance: real := DefaultInitialBalance)
      requires |pricesA| == |zScores| && |pricesB| == |zScores|
      ensures Valid()
      ensures Data() == Market(zScores, pricesA, pricesB, initialBalance) && this.sqrt == sqrt
      ensures State() == Initial(Data())
    {
      this.zScores := zScores;
      this.pricesA := pricesA;
      this.pricesB := pricesB;
      this.initialBalance := initialBalance;
      this.sqrt := sqrt;
      balance := initialBalance;
      currentStep := 0;
      position := Flat;
      entryPriceDiff := 0.0;
      portfolioHistory := [];
    }

    /** The observation of the current state. */
    function NextObservation(): (obs: Observation)
      reads this
      requires currentStep < |zScores| && initialBalance != 0.0
      ensures obs.zScore == zScores[currentStep]
      ensures obs.position == position as real
      ensures obs.normalisedBalance * initialBalance == balance
      // the volatility is only measured once more than five steps have passed
      ensures currentStep <= VolatilityWindow ==> obs.volatility == 0.0
    {
      var volatility :=
        if currentStep > VolatilityWindow then Std(sqrt, zScores[currentStep - VolatilityWindow..currentStep])
        else 0.0;
      Observation(zScores[currentStep], position as real, balance / initialBalance, volatility)
    }

    /** Given a true square root, the observed volatility is never negative,
        and once measured it is positive exactly when the last five z-scores
        are not all equal. */
    lemma VolatilitySign()
      requires IsSqrt(sqrt) && currentStep < |zScores| && initialBalance != 0.0
      ensures 0.0 <= NextObservation().volatility
      ensures currentStep > VolatilityWindow ==>
                (0.0 < NextObservation().volatility <==>
                 !Constant(zScores[currentStep - VolatilityWindow..currentStep]))
    {
      if currentStep > VolatilityWindow {
        StdPositiveIffNotConstant(sqrt, zScores[currentStep - VolatilityWindow..currentStep]);
      }
    }

    /** Restarts the episode and returns the first observation. */
    method Reset() returns (obs: Observation)
      requires Valid() && |zScores| > 0 && initialBalance != 0.0
      modifies this
      ensures Valid()
      ensures currentStep == 0 && position == Flat && balance == initialBalance
      ensures entryPriceDiff == 0.0 && portfolioHistory == [initialBalance]
      ensures State() == ResetEnv(Data())
      ensures obs == NextObservation()
    {
      currentStep := 0;
      position := Flat;
      balance := initialBalance;
      entryPriceDiff := 0.0;
      portfolioHistory := [initialBalance];
      obs := NextObservation();
    }

    /** The trading logic of a step: opens from flat, closes an opposite
        position and realises its profit, or does nothing. */
    method ApplyTrade(action: int, currentSpreadPrice: real) returns (stepReward: real)
      requires IsPosition(position)
      modifies this`position, this`balance, this`entryPriceDiff
      ensures TradeOutcome(position, entryPriceDiff, balance, stepReward)
           == Trade(action, old(position), old(entryPriceDiff), old(balance), currentSpreadPrice)
    {
      stepReward := 0.0;
      if action == BuySpread {
        if position == Flat {
          position := Long;
          entryPriceDiff := currentSpreadPrice;
        } else if position == Short {
          var profit := entryPriceDiff - currentSpreadPrice;
          balance := balance + profit;
          stepReward := profit;
          position := Flat;
        }
      } else if action == SellSpread {
        if position == Flat {
          position := Short;
          entryPriceDiff := currentSpreadPrice;
        } else if position == Long {
          var profit := currentSpreadPrice - entryPriceDiff;
          balance := balance + profit;
          stepReward := profit;
          position := Flat;
        }
      }
    }

    /** Advances one step under `action`, trading at the raw spread of the new
        index, and returns the observation, the shaped reward, whether the
        episode is over, and the (always false) truncation flag. */
    method Step(action: int) returns (obs: Observation, reward: real, done: bool, truncated: bool)
      requires Valid() && currentStep + 1 < |zScores| && initialBalance != 0.0
      modifies this
      ensures Valid()
      ensures State() == StepEnv(Data(), old(State()), action)
      ensures currentStep == old(currentStep) + 1
      ensures portfolioHistory == old(portfolioHistory) + [balance]
      ensures reward == StepReward(Data(), sqrt, old(State()), action)
      ensures done == Done(Data(), State())
      ensures obs == NextObservation()
      ensures !truncated
    {
      ghost var before := State();
      currentStep := currentStep + 1;
      done := currentStep >= |zScores| - 1;

      var currentSpreadPrice := pricesA[currentStep] - pricesB[currentStep];
      var stepReward := ApplyTrade(action, currentSpreadPrice);
      ghost var profit := stepReward;

      // a transaction cost whenever the step realised a non-zero profit
      if stepReward != 0.0 {
        stepReward := stepReward - TransactionCost;
      }
      // a holding cost while a position is open
      if position != Flat {
        stepReward := stepReward - HoldingCost;
      }

      portfolioHistory := portfolioHistory + [balance];
      assert State() == StepEnv(Data(), before, action);

      // a drawdown penalty while the balance is below the initial balance
      if balance < initialBalance {
        stepReward := stepReward - DrawdownPenalty;
      }
      // the simplified Sharpe ratio of the last 20 snapshots
      stepReward := stepReward + SharpeBonus(sqrt, portfolioHistory);
      assert stepReward == Reward(profit, position, balance, initialBalance, sqrt, portfolioHistory);
      assert StepReward(Data(), sqrt, before, action) == Reward(profit, position, balance, initialBalance, sqrt, portfolioHistory);

      obs := NextObservation();
      reward := stepReward;
      truncated := false;
    }
  }
}
