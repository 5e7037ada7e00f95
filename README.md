# Pairs-trading environment, modelled in Dafny

This project models `PairsTradingEnv`, the simulated market a reinforcement
learning agent trades in. The environment holds a z-score series and two
aligned price series A and B. Its state is a step index, a position
(0 flat, 1 long the spread, -1 short), a cash balance, the spread recorded
when the position was opened, and an append-only portfolio history.

- `reset` returns the machine to its start state.
- `step(action)` advances the index by one and trades at the raw price
  difference A - B of the new index. Action 1 buys the spread and action 2
  sells it; any other action holds. A buy from flat opens long, and a buy
  while short closes the short. A sell behaves the same way the other way
  round.
- Each step's reward is shaped from four terms: a 0.5 fee, a 0.01 holding
  cost, a 0.1 drawdown penalty and a Sharpe-ratio bonus on the last 20
  balance snapshots.

Files:

- `stats.dfy` (module `Stats`): the numpy helpers the environment uses, over
  exact reals. They are `np.diff`, `np.mean`, `np.std` (population) and the
  slice `xs[-20:]`. The square root under `np.std` is a parameter. The lemmas
  that need it assume it really is a square root (`IsSqrt`).
- `trading.dfy` (module `Trading`): the environment as pure functions.
  `Trade` is the transition table and `Reward` the reward shaping.
  `StepEnv` and `StepReward` cover one step, and `Run` a whole episode.
  The file also holds the lemmas about episodes and the Sharpe bonus.
- `environment.dfy` (module `Environment`): the class `PairsTradingEnv`.
  It has the source's fields. `Reset` and `Step` update those fields in
  place. Each is proved equal to the pure model, and `Valid()` is the object
  invariant.

Behaviour of the code worth knowing:

- `done` is `current_step >= len(z_scores) - 1`, evaluated on the index
  the step has just advanced to (src/environment.py:58).
- Calling `step` before `reset` is not an error. The history simply starts
  empty, which is why `Consistent` allows a history length of `currentStep`
  as well as `currentStep + 1`.
- Calling `step` after `done` raises no sequencing error. The only failure
  is an out-of-range index, so the model makes the in-range condition
  `currentStep + 1 < |zScores|` a precondition. `StepEnv` proves that `done`
  holds exactly when that precondition fails for the next step.
- Action values are not validated; anything other than 1 or 2 holds.
- The 0.5 fee is charged only when the realised profit is non-zero. A close
  at the entry spread pays no fee (`ZeroProfitCloseIsFree`).

The reward shaping of src/environment.py:84-105 is the definition of
`Trading.Reward`, with the Sharpe term in `Trading.SharpeBonus` and one step's
reward in `Trading.StepReward`; these three carry no contract of their own.
What pins them down is `Step`'s `reward == StepReward(...)` clause together
with the lemmas `RewardShaping`, `QuietStepReward`, `OpenHoldReward`,
`CloseReward`, `ZeroProfitCloseIsFree`,
`NoBonusBeforeThreeSnapshots`, `SharpeBonusGuard` and `SharpeBonusSign`.
Likewise `Trading.SpreadPrice` (line 60) and `Trading.Done` (line 58) are
definitions whose meaning is stated by the `StepEnv` and `Step` rows, and
`Stats.Mean` and `Stats.Std` (`np.mean`, `np.std`) are stated by the
`Stats` lemmas below.

## Model

| member | source | states |
|---|---|---|
| `Environment.PairsTradingEnv.constructor` | src/environment.py:14-25 | stores the series and initial balance; step 0, flat, balance = initial balance, entry 0, empty history |
| `Trading.Initial` | src/environment.py:20-25 | the freshly constructed state satisfies the state invariant (`Consistent`) |
| `Environment.PairsTradingEnv.Reset` | src/environment.py:33-40 | step 0, position 0, balance = initial balance, entry 0, history = [initial balance]; returns the observation of that state |
| `Trading.ResetEnv` | src/environment.py:35-39 | the reset state satisfies the invariant, with one more history entry than steps taken |
| `Environment.PairsTradingEnv.NextObservation` | src/environment.py:42-54 | four components: z-score at the index, position, balance / initial balance (so `normalisedBalance * initialBalance == balance`), and volatility 0 while `currentStep <= 5` |
| `Environment.PairsTradingEnv.VolatilitySign` | src/environment.py:44-46 | the volatility is never negative; after step 5 it is positive exactly when the last five z-scores are not all equal |
| `Environment.PairsTradingEnv.ApplyTrade` | src/environment.py:63-82 | the new position, entry, balance and realised profit are exactly the transition table `Trade` applied to the old state |
| `Trading.Trade` | src/environment.py:64-82 | position stays in {-1, 0, 1}; balance moves only by the realised profit; the position changes iff (action 1 and not long) or (action 2 and not short); an unchanged position means nothing changed; an open from flat goes long on 1 and short on 2, records the spread as entry and realises nothing; a close goes flat and realises `position * (spread - entry)` |
| `Environment.PairsTradingEnv.Step` | src/environment.py:56-107 | keeps `Valid()`; index + 1; history gets exactly the new balance appended; new state = `StepEnv` of the old; reward = `StepReward` of the old state; `done` iff new index >= `len(z_scores) - 1`; truncated is false; returns the new state's observation |
| `Trading.StepEnv` | src/environment.py:56-94 | keeps the invariant; index + 1; trades at the raw spread A - B of the new index (`SpreadPrice`, line 60); history = old history + [new balance]; balance = old balance + realised profit; `done` holds exactly when a further step would index out of range |
| `Trading.Returns` | src/environment.py:102 | the balance changes of the last 20 snapshots: fewer than 20 of them, exactly min(len, 20) - 1 for a non-empty history |
| `Stats.Diff` | src/environment.py:102 | `np.diff`: one element fewer than the input, each the difference of consecutive inputs |
| `Stats.LastN` | src/environment.py:102 | `xs[-n:]`: exactly min(n, len) elements |
| `Stats.LastNSlides` | src/environment.py:94-102 | `xs[-n:]` is the suffix of that length; appending one snapshot slides the window: the new entry enters and, once the window is full, the oldest leaves |
| `Stats.SumOfDiff` | src/environment.py:102-104 | the changes in a window add up to its last entry minus its first |
| `Stats.MeanOfDiffSign` | src/environment.py:102-104 | `np.mean(np.diff(w))` is positive iff the window's last entry exceeds its first, and negative iff it is below |
| `Stats.MeanOfConstant` | src/environment.py:104 | `np.mean` of a constant vector is its common element |
| `Stats.VarianceZeroIffConstant` | src/environment.py:103 | the population variance is non-negative and zero exactly for a constant vector |
| `Stats.StdPositiveIffNotConstant` | src/environment.py:103 | given a true square root, `np.std(x)` is non-negative, squares to the population variance, and is positive exactly when `x` is not constant |
| `Trading.SharpeBonusGuard` | src/environment.py:102-105 | the Sharpe guard `len > 1 and std > 0` holds exactly when there are at least two balance changes that are not all equal; otherwise the bonus is 0 |
| `Trading.SharpeBonusSign` | src/environment.py:102-105 | when paid, the bonus is positive iff the balance rose across the window and negative iff it fell |
| `Trading.RewardShaping` | src/environment.py:84-105 | apart from the Sharpe bonus, the reward is the realised profit less between 0 and 0.5 + 0.01 + 0.1; each condition (non-zero profit, open position, balance under the initial one) costs at least its charge (0.5, 0.01, 0.1), and when a condition fails the total charge is bounded by the other two; a flat, above-water step that realises nothing earns the bonus alone |
| `Trading.QuietStepReward` | src/environment.py:64-105 | from flat, a step that does not open realises nothing and its reward is the drawdown penalty and the bonus only; a step that opens also pays the holding cost; the balance is unchanged either way |
| `Trading.OpenHoldReward` | src/environment.py:64-105 | a step that keeps an open position leaves balance and entry unchanged, and its reward is exactly -0.01, less 0.1 while under water, plus the Sharpe bonus: no fee |
| `Trading.CloseReward` | src/environment.py:68-105 | a closing step ends flat, realises `position * (spread - entry)`, and its reward is exactly that profit, less 0.5 unless it is zero, less 0.1 if the new balance is under water, plus the Sharpe bonus: no holding cost |
| `Trading.NoBonusBeforeThreeSnapshots` | src/environment.py:102-103 | with at most two snapshots there are fewer than two changes, so no Sharpe bonus is paid |
| `Trading.ZeroProfitCloseIsFree` | src/environment.py:68-86 | closing at the entry spread goes flat, leaves the balance alone and charges no fee: the reward is only the drawdown penalty and the Sharpe bonus |
| `Trading.RunShape` | src/environment.py:57-94 | over any run: index + number of actions, history only appended to (one entry per action, the old history a prefix), last entry = balance, position in {-1, 0, 1} |
| `Trading.RunBalance` | src/environment.py:68-82 | the balance after a run is the starting balance plus the sum of the profits realised on the way |
| `Trading.RunOfHolds` | src/environment.py:64-83 | a run of holds leaves position, balance and entry unchanged and appends the unchanged balance each step |
| `Trading.Episode` | src/environment.py:35-94 | after reset and k steps: index k, k + 1 history entries, the first being the initial balance and the last the balance; balance = initial balance + sum of realised profits |
| `Trading.HoldEpisode` | src/environment.py:64-83 | an all-hold episode ends flat with the initial balance |
| `Trading.LongRoundTrip` | src/environment.py:56-107 | a concrete episode: buy at spread 5, hold, sell at 8. The open steps cost only 0.01 each; the close ends the episode flat at 10003 with reward above 3 - 0.5 |

## Left out

- Floating point: prices, balance and reward are exact reals. Float64
  rounding and the `np.float32` cast of the observation are not modelled.
- `np.std`'s square root is a parameter (`sqrt`), not computed. The lemmas
  about the volatility and the Sharpe bonus assume it is a true square root
  (`IsSqrt`). The numeric value of the bonus and of the volatility is
  therefore left symbolic.
- The gymnasium plumbing is not modelled. That covers the action and
  observation spaces, `super().reset(seed=...)`, and the empty info
  dictionaries returned by `reset` and `step`.
- `Environment.PairsTradingEnv.Reset`, `Step` and `NextObservation` require
  `initialBalance != 0`, because the observation divides by it. In the
  source the outcome depends on the balance's type: while it is still the
  Python number passed in, the division raises `ZeroDivisionError`; after
  any close, `balance += profit` has made it a numpy `float64` (the prices
  are numpy arrays), and the division yields `inf` or `nan` with a runtime
  warning. Neither outcome is modelled.
- `Environment.PairsTradingEnv.Reset` requires at least one z-score: the
  source's first observation reads `z_scores[0]` and raises `IndexError`
  on an empty series, which is not modelled.
- The constructor requires the three series to have equal length. The
  source assumes this alignment from its data loader and does not check it.
- src/statistics.py (cointegration test and z-score standardisation) is not
  part of this model. It wraps statsmodels `coint`/`OLS` and floating-point
  mean/std, and its only own logic is a `p < 0.05` comparison.
- src/data_loader.py (network download), main.py (PPO training) and
  backtest.py (inference loop and plotting) are not part of this model.
