/** Daily settlement: once the first quote update has landed, a user who has
    not been rewarded today receives 50 points plus a tenth of today's
    absolute profit, rounded down, and the reward pop-up opens. */
module Settlement {
  import opened Wrappers
  import opened JsNumber
  import opened Types

  /** What the reward pop-up shows. */
  datatype Reward = Reward(base: int, fluctuation: int, total: int)

  /** The fixed part of every daily reward. */
  const BaseReward: int := 50

  /** The reward for a day whose profit is `dailyProfit`. */
  function RewardFor(dailyProfit: real): (r: Reward)
    ensures r.base == BaseReward && r.total == r.base + r.fluctuation
    ensures 0 <= r.fluctuation
    ensures r.fluctuation as real <= Abs(dailyProfit) * 0.1 < r.fluctuation as real + 1.0
  {
    var fluctuation := Floor(Abs(dailyProfit) * 0.1);
    Reward(BaseReward, fluctuation, BaseReward + fluctuation)
  }

  /** A gain and a loss of the same size earn the same reward; a day
      without profit earns the base reward alone. */
  lemma RewardIgnoresSign(dailyProfit: real)
    ensures RewardFor(-dailyProfit) == RewardFor(dailyProfit)
    ensures RewardFor(0.0).total == BaseReward
  {
  }

  /** A loss of 237 earns 23 fluctuation points, 73 in all. */
  lemma RewardForLoss()
    ensures RewardFor(-237.0) == Reward(50, 23, 73)
  {
    var r := RewardFor(-237.0);
    assert Abs(-237.0) == 237.0;
    assert 23.0 <= 23.7 < 24.0;
  }

  /** One run of the settlement effect on the user record: the next record
      and the pop-up it opens, if any. `today` is the local date string. */
  function SettleUser(u: UserState, loaded: bool, today: string): (r: (UserState, Option<Reward>))
    ensures !loaded || u.lastLoginDate == today ==> r == (u, None)
    ensures loaded && u.lastLoginDate != today ==>
      r.1 == Some(RewardFor(u.dailyProfit)) &&
      r.0 == u.(incentivePoints := u.incentivePoints + RewardFor(u.dailyProfit).total, lastLoginDate := today)
  {
    if !loaded || u.lastLoginDate == today then (u, None)
    else
      var reward := RewardFor(u.dailyProfit);
      (u.(incentivePoints := u.incentivePoints + reward.total, lastLoginDate := today), Some(reward))
  }

  /** After a run of the effect, today is settled: running it again the same
      day changes nothing and opens no pop-up. */
  lemma SettleUserIdempotent(u: UserState, today: string)
    ensures var s := SettleUser(u, true, today).0;
      s.lastLoginDate == today && SettleUser(s, true, today) == (s, None)
  {
  }

  /** Settlement never takes points away and never touches funds, profit,
      level, id or mode; a reward adds at least the base. */
  lemma SettleUserMonotone(u: UserState, loaded: bool, today: string)
    ensures var (s, reward) := SettleUser(u, loaded, today);
      s.incentivePoints >= u.incentivePoints &&
      (reward.Some? ==> s.incentivePoints >= u.incentivePoints + BaseReward) &&
      s.(incentivePoints := u.incentivePoints, lastLoginDate := u.lastLoginDate) == u
  {
  }

  /** One render as the settlement effect sees it: whether the first quote
      update has landed, and the daily profit this render's record holds. */
  datatype Render = Render(loaded: bool, dailyProfit: real)

  /** The effect's dependency list `[isDataLoaded, user.dailyProfit,
      user.lastLoginDate]` as one render holds it. */
  datatype Deps = Deps(loaded: bool, dailyProfit: real, lastLoginDate: string)

  /** React runs the effect after the first render, and after a later render
      only when a dependency differs from the one before. */
  predicate EffectRuns(prev: Option<Deps>, d: Deps) {
    prev != Some(d)
  }

  /** The index of the first render after loading, if there is one. */
  function FirstLoaded(renders: seq<Render>): (r: Option<nat>)
    ensures r.Some? ==>
      r.value < |renders| && renders[r.value].loaded &&
      forall k :: 0 <= k < r.value ==> !renders[k].loaded
    ensures r.None? ==> forall k :: 0 <= k < |renders| ==> !renders[k].loaded
  {
    if |renders| == 0 then None
    else if renders[0].loaded then Some(0)
    else match FirstLoaded(renders[1..])
      case None => None
      case Some(k) => Some(k + 1)
  }

  /** The settlement effect over a run of renders on the same day, each
      render first taking its daily profit into the record; `prev` holds the
      dependencies of the render before the run, `None` when the run starts
      at the first render. The final record and the pop-ups opened, in order. */
  function SettleRenders(u: UserState, renders: seq<Render>, today: string, prev: Option<Deps>): (UserState, seq<Reward>)
    decreases |renders|
  {
    if |renders| == 0 then (u, [])
    else
      var u0 := u.(dailyProfit := renders[0].dailyProfit);
      var d := Deps(renders[0].loaded, u0.dailyProfit, u0.lastLoginDate);
      var (s, reward) := if EffectRuns(prev, d) then SettleUser(u0, renders[0].loaded, today) else (u0, None);
      var (t, rest) := SettleRenders(s, renders[1..], today, Some(d));
      (t, (if reward.Some? then [reward.value] else []) + rest)
  }

  /** Once per day, from the first render or from a render before loading:
      a user not yet rewarded today gets exactly one reward, computed from
      the profit of the first render after loading, and none when no render
      is loaded; a user already rewarded today gets none. */
  lemma {:induction false} SettleOncePerDay(u: UserState, renders: seq<Render>, today: string, prev: Option<Deps>)
    requires prev.None? || !prev.value.loaded
    ensures var (t, rewards) := SettleRenders(u, renders, today, prev);
      (u.lastLoginDate == today || FirstLoaded(renders).None? ==>
        rewards == [] && t.incentivePoints == u.incentivePoints) &&
      (u.lastLoginDate != today && FirstLoaded(renders).Some? ==>
        var reward := RewardFor(renders[FirstLoaded(renders).value].dailyProfit);
        rewards == [reward] && t.incentivePoints == u.incentivePoints + reward.total &&
        t.lastLoginDate == today)
    decreases |renders|
  {
    if |renders| > 0 {
      var u0 := u.(dailyProfit := renders[0].dailyProfit);
      var d := Deps(renders[0].loaded, u0.dailyProfit, u0.lastLoginDate);
      if renders[0].loaded {
        assert EffectRuns(prev, d);
        var (s, reward) := SettleUser(u0, true, today);
        SettledStaysSettled(s, renders[1..], today, Some(d));
      } else {
        var s := if EffectRuns(prev, d) then SettleUser(u0, false, today).0 else u0;
        assert s == u0;
        SettleOncePerDay(u0, renders[1..], today, Some(d));
        assert FirstLoaded(renders) == (match FirstLoaded(renders[1..])
          case None => None case Some(k) => Some(k + 1));
        if FirstLoaded(renders[1..]).Some? {
          assert renders[FirstLoaded(renders).value] == renders[1..][FirstLoaded(renders[1..]).value];
        }
      }
    }
  }

  /** A record already settled today stays settled: no pop-up, same points,
      whether or not the effect runs. */
  lemma {:induction false} SettledStaysSettled(u: UserState, renders: seq<Render>, today: string, prev: Option<Deps>)
    requires u.lastLoginDate == today
    ensures var (t, rewards) := SettleRenders(u, renders, today, prev);
      rewards == [] && t.incentivePoints == u.incentivePoints && t.lastLoginDate == today
    decreases |renders|
  {
    if |renders| > 0 {
      var u0 := u.(dailyProfit := renders[0].dailyProfit);
      SettledStaysSettled(u0, renders[1..], today, Some(Deps(renders[0].loaded, u0.dailyProfit, u0.lastLoginDate)));
    }
  }

  /** At most one reward per day from any starting point, paid only to a
      user not yet rewarded today, and recording today when paid. */
  lemma {:induction false} SettleAtMostOnce(u: UserState, renders: seq<Render>, today: string, prev: Option<Deps>)
    ensures var (t, rewards) := SettleRenders(u, renders, today, prev);
      |rewards| <= 1 &&
      (rewards == [] ==> t.incentivePoints == u.incentivePoints) &&
      (rewards != [] ==>
        u.lastLoginDate != today && t.lastLoginDate == today &&
        t.incentivePoints == u.incentivePoints + rewards[0].total)
    decreases |renders|
  {
    if |renders| > 0 {
      var u0 := u.(dailyProfit := renders[0].dailyProfit);
      var d := Deps(renders[0].loaded, u0.dailyProfit, u0.lastLoginDate);
      var (s, reward) := if EffectRuns(prev, d) then SettleUser(u0, renders[0].loaded, today) else (u0, None);
      if reward.Some? {
        SettledStaysSettled(s, renders[1..], today, Some(d));
      } else {
        assert s == u0;
        SettleAtMostOnce(u0, renders[1..], today, Some(d));
      }
    }
  }

  /** As written, a new day that begins while the app is open and loaded
      pays nothing as long as the daily profit stays as it was the render
      before: the dependencies do not change, so the effect does not run. */
  lemma {:induction false} OvernightRewardMissed(u: UserState, renders: seq<Render>, today: string)
    requires u.lastLoginDate != today
    requires forall k :: 0 <= k < |renders| ==> renders[k] == Render(true, u.dailyProfit)
    ensures SettleRenders(u, renders, today, Some(Deps(true, u.dailyProfit, u.lastLoginDate))) == (u, [])
    decreases |renders|
  {
    if |renders| > 0 {
      var d := Deps(true, u.dailyProfit, u.lastLoginDate);
      assert renders[0] == Render(true, u.dailyProfit);
      assert u.(dailyProfit := renders[0].dailyProfit) == u;
      assert !EffectRuns(Some(d), d);
      assert forall k :: 0 <= k < |renders[1..]| ==> renders[1..][k] == renders[k + 1];
      OvernightRewardMissed(u, renders[1..], today);
      var (t, rest) := SettleRenders(u, renders[1..], today, Some(d));
      assert (t, rest) == (u, []);
      assert SettleRenders(u, renders, today, Some(d)) == (t, [] + rest);
      assert [] + rest == [];
      assert SettleRenders(u, renders, today, Some(d)) == (u, []);
    }
  }

  /** Corrected: the effect run on every render with the record's date and
      the loading flag checked, whatever the dependencies did. */
  function SettleEveryRender(u: UserState, renders: seq<Render>, today: string): (UserState, seq<Reward>)
    decreases |renders|
  {
    if |renders| == 0 then (u, [])
    else
      var (s, reward) := SettleUser(u.(dailyProfit := renders[0].dailyProfit), renders[0].loaded, today);
      var (t, rest) := SettleEveryRender(s, renders[1..], today);
      (t, (if reward.Some? then [reward.value] else []) + rest)
  }

  lemma {:induction false} EveryRenderStaysSettled(u: UserState, renders: seq<Render>, today: string)
    requires u.lastLoginDate == today
    ensures var (t, rewards) := SettleEveryRender(u, renders, today);
      rewards == [] && t.incentivePoints == u.incentivePoints && t.lastLoginDate == today
    decreases |renders|
  {
    if |renders| > 0 {
      EveryRenderStaysSettled(u.(dailyProfit := renders[0].dailyProfit), renders[1..], today);
    }
  }

  /** Corrected: whenever the day has changed and a loaded render follows,
      exactly one reward is paid, at the first loaded render, from its profit. */
  lemma {:induction false} EveryRenderPaysOncePerDay(u: UserState, renders: seq<Render>, today: string)
    ensures var (t, rewards) := SettleEveryRender(u, renders, today);
      (u.lastLoginDate == today || FirstLoaded(renders).None? ==>
        rewards == [] && t.incentivePoints == u.incentivePoints) &&
      (u.lastLoginDate != today && FirstLoaded(renders).Some? ==>
        var reward := RewardFor(renders[FirstLoaded(renders).value].dailyProfit);
        rewards == [reward] && t.incentivePoints == u.incentivePoints + reward.total &&
        t.lastLoginDate == today)
    decreases |renders|
  {
    if |renders| > 0 {
      var u0 := u.(dailyProfit := renders[0].dailyProfit);
      var (s, reward) := SettleUser(u0, renders[0].loaded, today);
      EveryRenderPaysOncePerDay(s, renders[1..], today);
      if renders[0].loaded {
        EveryRenderStaysSettled(s, renders[1..], today);
      } else {
        assert FirstLoaded(renders) == (match FirstLoaded(renders[1..])
          case None => None case Some(k) => Some(k + 1));
        if FirstLoaded(renders[1..]).Some? {
          assert renders[FirstLoaded(renders).value] == renders[1..][FirstLoaded(renders[1..]).value];
        }
      }
    }
  }
}
