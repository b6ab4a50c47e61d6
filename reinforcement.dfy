/**
 * The reinforcement scorer: a table of per-action records (how often the
 * action was reported, a decayed sum of its rewards, the free-text details of
 * each report) and a bounded window of the most recent (action, reward)
 * pairs. From these it scores actions, suggests the best one and forgets
 * low-value ones.
 */
module Reinforcement {
  import opened Wrappers
  import opened PySeq
  import opened Dicts

  const DefaultHistoryLimit: nat := 10
  const DefaultDecayFactor: real := 0.9
  const DefaultMinConfidence: real := 0.5
  const DefaultPruneThreshold: real := -5.0
  /** The detail recorded when a caller gives none (Python's default argument). */
  const DefaultDetails := "None"

  const NoDataMessage := "No data available yet."
  const NotConfidentMessage := "No confident suggestion available, user input needed."
  const NoHistoryMessage := "No recorded history for this action."

  /** One action's entry in `learning_data`. */
  datatype ActionRecord = ActionRecord(count: nat, rewardSum: real, history: seq<string>)

  /** The entry created for an action seen for the first time. */
  const NewRecord := ActionRecord(0, 0.0, [])

  /** The action's record, or a new one when the action is unknown. */
  function RecordOf(data: Dict<ActionRecord>, action: string): ActionRecord
  {
    Get(data, action, NewRecord)
  }

  /**
   * One report applied to a record, in the order the scorer performs it: the
   * count goes up, the reward is added, the detail is appended, and only then
   * is the whole sum (new reward included) multiplied by the decay factor.
   */
  function Fed(r: ActionRecord, reward: real, detail: string, decay: real): ActionRecord
  {
    ActionRecord(r.count + 1, (r.rewardSum + reward) * decay, r.history + [detail])
  }

  /** The table after one report about `action`: that record is fed, every other record is left as it was. */
  function Feedback(data: Dict<ActionRecord>, action: string, reward: real, detail: string, decay: real)
    : (r: Dict<ActionRecord>)
    requires data.Valid()
    ensures r.Valid()
    ensures action in r.items && r.items[action] == Fed(RecordOf(data, action), reward, detail, decay)
    ensures action in data.items ==> r.keys == data.keys
    ensures action !in data.items ==> r.keys == data.keys + [action]
    ensures forall a :: a != action ==> (a in r.items <==> a in data.items)
    ensures forall a :: a != action && a in data.items ==> r.items[a] == data.items[a]
  {
    Put(data, action, Fed(RecordOf(data, action), reward, detail, decay))
  }

  /** A record fed a series of reports, one (reward, detail) pair at a time. */
  function FedAll(r: ActionRecord, reports: seq<(real, string)>, decay: real): ActionRecord
    decreases |reports|
  {
    if reports == [] then r else FedAll(Fed(r, reports[0].0, reports[0].1, decay), reports[1..], decay)
  }

  /** The details of a series of reports, in order. */
  function Details(reports: seq<(real, string)>): (ds: seq<string>)
    ensures |ds| == |reports|
    ensures forall i :: 0 <= i < |reports| ==> ds[i] == reports[i].1
  {
    seq(|reports|, i requires 0 <= i < |reports| => reports[i].1)
  }

  /**
   * After k reports about an action its count has grown by exactly k and its
   * history has gained exactly the k details, in the order they were given.
   */
  lemma {:induction false} FeedbackCountsReports(r: ActionRecord, reports: seq<(real, string)>, decay: real)
    ensures FedAll(r, reports, decay).count == r.count + |reports|
    ensures FedAll(r, reports, decay).history == r.history + Details(reports)
    decreases |reports|
  {
    if reports != [] {
      var r' := Fed(r, reports[0].0, reports[0].1, decay);
      FeedbackCountsReports(r', reports[1..], decay);
      assert Details(reports) == [reports[0].1] + Details(reports[1..]);
    }
  }

  /** Starting from nothing, k reports give count k and exactly their details as history. */
  lemma NewActionAfterReports(reports: seq<(real, string)>, decay: real)
    ensures FedAll(NewRecord, reports, decay).count == |reports|
    ensures FedAll(NewRecord, reports, decay).history == Details(reports)
  {
    FeedbackCountsReports(NewRecord, reports, decay);
  }

  /**
   * The reward is added before the decay is applied, so even the newest
   * reward is already scaled by the decay factor.
   */
  lemma NewRewardIsDecayed(r: ActionRecord, reward: real, detail: string, decay: real)
    ensures Fed(r, reward, detail, decay).rewardSum == r.rewardSum * decay + reward * decay
  {
  }

  /** `d` to the power `n`. */
  function Power(d: real, n: nat): real
  {
    if n == 0 then 1.0 else d * Power(d, n - 1)
  }

  lemma {:induction false} PowerBelowOne(d: real, n: nat)
    requires 0.0 < d < 1.0
    ensures 0.0 < Power(d, n) <= 1.0
    ensures n > 0 ==> Power(d, n) < 1.0
  {
    if n > 0 {
      PowerBelowOne(d, n - 1);
      assert Power(d, n) == d * Power(d, n - 1);
      assert d * Power(d, n - 1) <= d * 1.0;
    }
  }

  /** A series of n reports that all carry reward 0. */
  ghost predicate AllZero(reports: seq<(real, string)>)
  {
    forall i :: 0 <= i < |reports| ==> reports[i].0 == 0.0
  }

  /**
   * Reports with reward 0 only scale the sum: after n of them it is the old
   * sum times `decay` to the power n.
   */
  lemma {:induction false} ZeroRewardsScaleSum(r: ActionRecord, reports: seq<(real, string)>, decay: real)
    requires AllZero(reports)
    ensures FedAll(r, reports, decay).rewardSum == r.rewardSum * Power(decay, |reports|)
    decreases |reports|
  {
    if reports != [] {
      var r' := Fed(r, reports[0].0, reports[0].1, decay);
      assert r'.rewardSum == r.rewardSum * decay;
      ZeroRewardsScaleSum(r', reports[1..], decay);
      assert FedAll(r, reports, decay).rewardSum == r.rewardSum * decay * Power(decay, |reports| - 1);
    }
  }

  /**
   * With a decay factor strictly between 0 and 1, one or more reports of
   * reward 0 strictly shrink a non-zero sum towards 0 without changing its sign.
   */
  lemma ZeroRewardsShrinkSum(r: ActionRecord, reports: seq<(real, string)>, decay: real)
    requires 0.0 < decay < 1.0
    requires AllZero(reports) && |reports| > 0
    ensures r.rewardSum > 0.0 ==> 0.0 < FedAll(r, reports, decay).rewardSum < r.rewardSum
    ensures r.rewardSum < 0.0 ==> r.rewardSum < FedAll(r, reports, decay).rewardSum < 0.0
    ensures r.rewardSum == 0.0 ==> FedAll(r, reports, decay).rewardSum == 0.0
  {
    ZeroRewardsScaleSum(r, reports, decay);
    PowerBelowOne(decay, |reports|);
    var p := Power(decay, |reports|);
    ScaleShrinks(r.rewardSum, p, FedAll(r, reports, decay).rewardSum);
  }

  lemma ScaleShrinks(s: real, p: real, t: real)
    requires 0.0 < p < 1.0 && t == s * p
    ensures s > 0.0 ==> 0.0 < t < s
    ensures s < 0.0 ==> s < t < 0.0
    ensures s == 0.0 ==> t == 0.0
  {
    var q := 1.0 - p;
    assert s - t == s * q;
    if s > 0.0 {
      MulPositive(s, p);
      MulPositive(s, q);
    } else if s < 0.0 {
      MulPositive(-s, p);
      MulPositive(-s, q);
      assert -t == (-s) * p;
      assert t - s == (-s) * q;
    }
  }

  lemma MulPositive(a: real, b: real)
    requires a > 0.0 && b > 0.0
    ensures a * b > 0.0
  {
  }

  lemma RatioInUnit(a: nat, b: nat)
    requires 0 < a <= b
    ensures 0.0 < a as real / b as real <= 1.0
  {
  }

  /** `[r for a, r in recent_actions if a == action]`. */
  function RecentRewards(recent: seq<(string, real)>, action: string): (rs: seq<real>)
    ensures |rs| <= |recent|
    ensures rs == [] <==> forall i :: 0 <= i < |recent| ==> recent[i].0 != action
    decreases |recent|
  {
    if recent == [] then []
    else (if recent[0].0 == action then [recent[0].1] else []) + RecentRewards(recent[1..], action)
  }

  function Sum(xs: seq<real>): real
  {
    if xs == [] then 0.0 else xs[0] + Sum(xs[1..])
  }

  /** The all-time average: decayed sum divided by count. */
  function BaseScore(r: ActionRecord): real
    requires r.count > 0
  {
    r.rewardSum / r.count as real
  }

  /** The weight of the recent window: the action's share of `history_limit`. */
  function RecentWeight(recent: seq<(string, real)>, limit: nat, action: string): (w: real)
    requires |recent| <= limit
    requires RecentRewards(recent, action) != []
    ensures 0.0 < w <= 1.0
  {
    RatioInUnit(|RecentRewards(recent, action)|, limit);
    |RecentRewards(recent, action)| as real / limit as real
  }

  /** The average reward of the action's pairs in the recent window. */
  function RecentAverage(recent: seq<(string, real)>, action: string): real
    requires RecentRewards(recent, action) != []
  {
    var rs := RecentRewards(recent, action);
    Sum(rs) / |rs| as real
  }

  /**
   * `get_action_score(action, weighted)`: 0 for an unknown action or one with
   * count 0; otherwise the all-time average, blended with the average of the
   * action's recent rewards when `weighted` and the action is in the window.
   */
  function ActionScore(data: Dict<ActionRecord>, recent: seq<(string, real)>, limit: nat, action: string, weighted: bool)
    : (s: real)
    requires |recent| <= limit
    ensures action !in data.items || data.items[action].count == 0 ==> s == 0.0
  {
    if action !in data.items || data.items[action].count == 0 then 0.0
    else
      var base := BaseScore(data.items[action]);
      if weighted && RecentRewards(recent, action) != [] then
        Blend(base, RecentAverage(recent, action), RecentWeight(recent, limit, action))
      else base
  }

  /** Without weighting, or with no recent pair for the action, the score is the all-time average. */
  lemma ScoreWithoutRecent(data: Dict<ActionRecord>, recent: seq<(string, real)>, limit: nat, action: string, weighted: bool)
    requires |recent| <= limit
    requires action in data.items && data.items[action].count > 0
    requires !weighted || forall i :: 0 <= i < |recent| ==> recent[i].0 != action
    ensures ActionScore(data, recent, limit, action, weighted) == BaseScore(data.items[action])
  {
  }

  lemma MulNonNegative(a: real, b: real)
    requires a >= 0.0 && b >= 0.0
    ensures a * b >= 0.0
  {
  }

  /** `x * (1 - w) + y * w`: the recency blend of an all-time and a recent average. */
  function Blend(x: real, y: real, w: real): real
  {
    x * (1.0 - w) + y * w
  }

  /** A blend with `0 <= w <= 1` lies between its two ends. */
  lemma BlendBetween(x: real, y: real, w: real)
    requires 0.0 <= w <= 1.0
    ensures x <= y ==> x <= Blend(x, y, w) <= y
    ensures y <= x ==> y <= Blend(x, y, w) <= x
  {
    var b := Blend(x, y, w);
    if x <= y {
      MulNonNegative(y - x, w);
      MulNonNegative(y - x, 1.0 - w);
      assert b - x == (y - x) * w;
      assert y - b == (y - x) * (1.0 - w);
    } else {
      MulNonNegative(x - y, w);
      MulNonNegative(x - y, 1.0 - w);
      assert x - b == (x - y) * w;
      assert b - y == (x - y) * (1.0 - w);
    }
  }

  /**
   * A weighted score is a convex blend: it lies between the all-time average
   * and the recent average of the action.
   */
  lemma WeightedScoreBetween(data: Dict<ActionRecord>, recent: seq<(string, real)>, limit: nat, action: string)
    requires |recent| <= limit
    requires action in data.items && data.items[action].count > 0
    requires RecentRewards(recent, action) != []
    ensures BaseScore(data.items[action]) <= RecentAverage(recent, action) ==>
              BaseScore(data.items[action]) <= ActionScore(data, recent, limit, action, true) <= RecentAverage(recent, action)
    ensures RecentAverage(recent, action) <= BaseScore(data.items[action]) ==>
              RecentAverage(recent, action) <= ActionScore(data, recent, limit, action, true) <= BaseScore(data.items[action])
  {
    var base := BaseScore(data.items[action]);
    var avg := RecentAverage(recent, action);
    var w := RecentWeight(recent, limit, action);
    assert ActionScore(data, recent, limit, action, true) == Blend(base, avg, w);
    BlendBetween(base, avg, w);
  }

  /**
   * When every pair of a full window belongs to the action, the weight is 1
   * and the score is exactly the recent average.
   */
  lemma FullWindowScoreIsRecentAverage(data: Dict<ActionRecord>, recent: seq<(string, real)>, limit: nat, action: string)
    requires |recent| == limit > 0
    requires action in data.items && data.items[action].count > 0
    requires forall i :: 0 <= i < |recent| ==> recent[i].0 == action
    ensures ActionScore(data, recent, limit, action, true) == RecentAverage(recent, action)
  {
    AllMineKeepsAll(recent, action);
    assert RecentRewards(recent, action) != [] by {
      assert recent[0].0 == action;
    }
  }

  lemma {:induction false} AllMineKeepsAll(recent: seq<(string, real)>, action: string)
    requires forall i :: 0 <= i < |recent| ==> recent[i].0 == action
    ensures |RecentRewards(recent, action)| == |recent|
    decreases |recent|
  {
    if recent != [] {
      AllMineKeepsAll(recent[1..], action);
    }
  }

  /**
   * `suggest_best_action()`: the "no data" message on an empty table;
   * otherwise the first action of highest (weighted) score, or the "no
   * confident suggestion" message when that score is below `minConfidence`.
   */
  function SuggestBestAction(data: Dict<ActionRecord>, recent: seq<(string, real)>, limit: nat, minConfidence: real)
    : (r: Reply<(string, real)>)
    requires data.Valid() && |recent| <= limit
    ensures r == Message(NoDataMessage) <==> data.items == map[]
    ensures r.Data? ==> && r.value.0 in data.items
                        && r.value.1 == ActionScore(data, recent, limit, r.value.0, true)
                        && r.value.1 >= minConfidence
    ensures r.Data? ==> forall a :: a in data.items ==> ActionScore(data, recent, limit, a, true) <= r.value.1
    ensures r.Data? ==> && r.value.0 in data.keys
                        && forall j :: 0 <= j < IndexOf(data.keys, r.value.0) ==>
                             ActionScore(data, recent, limit, data.keys[j], true) < r.value.1
    ensures r.Message? && data.items != map[] ==>
              && r == Message(NotConfidentMessage)
              && forall a :: a in data.items ==> ActionScore(data, recent, limit, a, true) < minConfidence
  {
    if data.items == map[] then
      Message(NoDataMessage)
    else
      assert |data.keys| > 0 by {
        var a :| a in data.items;
        assert a in data.keys;
      }
      var score := a => ActionScore(data, recent, limit, a, true);
      var i := ArgMax(data.keys, score);
      var best := data.keys[i];
      var bestScore := ActionScore(data, recent, limit, best, true);
      assert forall a :: a in data.items ==> ActionScore(data, recent, limit, a, true) <= bestScore by {
        forall a | a in data.items ensures ActionScore(data, recent, limit, a, true) <= bestScore {
          var j :| 0 <= j < |data.keys| && data.keys[j] == a;
          assert score(data.keys[j]) <= score(data.keys[i]);
        }
      }
      assert IndexOf(data.keys, best) <= i;
      assert forall j :: 0 <= j < IndexOf(data.keys, best) ==> score(data.keys[j]) < score(data.keys[i]);
      if bestScore < minConfidence then Message(NotConfidentMessage) else Data((best, bestScore))
  }

  /** The actions kept by the prune: those whose decayed sum is at least the threshold, in table order. */
  function RelevantKeys(keys: seq<string>, data: map<string, ActionRecord>, threshold: real): (r: seq<string>)
    requires forall k :: k in keys ==> k in data
    ensures forall k :: k in r <==> k in keys && data[k].rewardSum >= threshold
    ensures Distinct(keys) ==> Distinct(r)
    decreases |keys|
  {
    if keys == [] then []
    else
      var rest := RelevantKeys(keys[1..], data, threshold);
      if data[keys[0]].rewardSum >= threshold then
        assert Distinct(keys) ==> keys[0] !in keys[1..] by {
          if Distinct(keys) {
            forall j | 0 <= j < |keys| - 1 ensures keys[1..][j] != keys[0] {
              assert keys[1..][j] == keys[j + 1];
            }
          }
        }
        [keys[0]] + rest
      else rest
  }

  /** The kept actions appear in the same relative order as in the table they come from. */
  lemma {:induction false} RelevantKeysInOrder(keys: seq<string>, data: map<string, ActionRecord>, threshold: real)
    requires forall k :: k in keys ==> k in data
    requires Distinct(keys)
    ensures InOrderOf(RelevantKeys(keys, data, threshold), keys)
    decreases |keys|
  {
    if keys != [] {
      var r := RelevantKeys(keys, data, threshold);
      var tail := keys[1..];
      var rest := RelevantKeys(tail, data, threshold);
      assert Distinct(tail) by {
        forall i, j | 0 <= i < j < |tail| ensures tail[i] != tail[j] {
          assert tail[i] == keys[i + 1] && tail[j] == keys[j + 1];
        }
      }
      RelevantKeysInOrder(tail, data, threshold);
      assert InOrderOf(rest, tail);
      forall n | 0 <= n < |rest| ensures IndexOf(keys, rest[n]) == 1 + IndexOf(tail, rest[n]) {
        assert rest[n] in rest;
        var m :| 0 <= m < |tail| && tail[m] == rest[n];
        assert rest[n] == keys[m + 1];
      }
      if data[keys[0]].rewardSum >= threshold {
        assert r == [keys[0]] + rest;
        forall i, j | 0 <= i < j < |r| ensures IndexOf(keys, r[i]) < IndexOf(keys, r[j]) {
          assert r[j] == rest[j - 1];
          if i > 0 {
            assert r[i] == rest[i - 1];
            assert IndexOf(tail, rest[i - 1]) < IndexOf(tail, rest[j - 1]);
          }
        }
        assert InOrderOf(r, keys);
      } else {
        assert r == rest;
        forall i, j | 0 <= i < j < |r| ensures IndexOf(keys, r[i]) < IndexOf(keys, r[j]) {
          assert IndexOf(tail, rest[i]) < IndexOf(tail, rest[j]);
        }
        assert InOrderOf(r, keys);
      }
    }
  }

  /**
   * `remove_low_relevance_actions(threshold)`: exactly the actions whose decayed
   * sum is at least the threshold stay, with their records untouched and in
   * their old order, as the dict comprehension keeps insertion order.
   */
  function KeepRelevant(data: Dict<ActionRecord>, threshold: real): (r: Dict<ActionRecord>)
    requires data.Valid()
    ensures r.Valid()
    ensures forall a :: a in r.items <==> a in data.items && data.items[a].rewardSum >= threshold
    ensures forall a :: a in r.items ==> r.items[a] == data.items[a]
    ensures r.keys == RelevantKeys(data.keys, data.items, threshold)
    ensures InOrderOf(r.keys, data.keys)
  {
    RelevantKeysInOrder(data.keys, data.items, threshold);
    Dict(RelevantKeys(data.keys, data.items, threshold),
         map a | a in data.items && data.items[a].rewardSum >= threshold :: data.items[a])
  }

  /** `get_action_history(action)`: the stored details, or a one-message list for an unknown action. */
  function ActionHistory(data: Dict<ActionRecord>, action: string): (h: seq<string>)
    ensures action in data.items ==> h == data.items[action].history
    ensures action !in data.items ==> h == [NoHistoryMessage]
  {
    if action in data.items then data.items[action].history else [NoHistoryMessage]
  }

  /**
   * The history of an action after a report is its earlier history (empty for a
   * new action, not the "no history" message) followed by the report's detail.
   */
  lemma HistoryAfterFeedback(data: Dict<ActionRecord>, action: string, reward: real, detail: string, decay: real)
    requires data.Valid()
    ensures ActionHistory(Feedback(data, action, reward, detail, decay), action)
            == (if action in data.items then data.items[action].history else []) + [detail]
  {
  }

  /** `ReinforcementLearning`: the scorer with its table and its window of recent pairs. */
  class ReinforcementLearning {
    const historyLimit: nat
    const decayFactor: real
    const minConfidence: real
    var learningData: Dict<ActionRecord>
    /** `recent_actions`, a `deque(maxlen=history_limit)`; never saved to disk. */
    var recentActions: seq<(string, real)>

    ghost predicate Valid()
      reads this
    {
      learningData.Valid() && |recentActions| <= historyLimit
    }

    /** A scorer over the table loaded from disk, with an empty recent window. */
    constructor(stored: Dict<ActionRecord>, historyLimit: nat, decayFactor: real, minConfidence: real)
      requires stored.Valid()
      ensures Valid()
      ensures learningData == stored && recentActions == []
      ensures this.historyLimit == historyLimit && this.decayFactor == decayFactor
      ensures this.minConfidence == minConfidence
    {
      this.historyLimit := historyLimit;
      this.decayFactor := decayFactor;
      this.minConfidence := minConfidence;
      learningData := stored;
      recentActions := [];
    }

    /**
     * The effect of one `provide_feedback(action, reward, details)`: the
     * action's record is fed and the pair enters the window, evicting the
     * oldest pair when the window is full.
     */
    twostate predicate FedOnce(action: string, reward: real, details: string)
      reads this
    {
      && old(learningData).Valid()
      && learningData == Feedback(old(learningData), action, reward, details, decayFactor)
      && recentActions == Window(old(recentActions) + [(action, reward)], historyLimit)
    }

    /** `provide_feedback(action, reward, details)`. */
    method ProvideFeedback(action: string, reward: real, details: string)
      requires Valid()
      modifies this
      ensures Valid()
      ensures FedOnce(action, reward, details)
    {
      ghost var before := learningData;
      var rec := RecordOf(learningData, action);
      rec := rec.(count := rec.count + 1);
      rec := rec.(rewardSum := rec.rewardSum + reward);
      rec := rec.(history := rec.history + [details]);
      rec := rec.(rewardSum := rec.rewardSum * decayFactor);
      assert rec == Fed(RecordOf(before, action), reward, details, decayFactor);
      learningData := Put(learningData, action, rec);
      assert learningData == Feedback(before, action, reward, details, decayFactor);
      recentActions := DequeAppend(recentActions, (action, reward), historyLimit);
    }

    /** `remove_low_relevance_actions(threshold)`; the recent window is not touched. */
    method RemoveLowRelevanceActions(threshold: real)
      requires Valid()
      modifies this
      ensures Valid()
      ensures learningData == KeepRelevant(old(learningData), threshold)
      ensures recentActions == old(recentActions)
    {
      learningData := KeepRelevant(learningData, threshold);
    }
  }
}
