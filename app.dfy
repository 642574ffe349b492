/** The application root: the user record, the position list, the loading
    flag and the reward pop-up, with the setters the screens call and the
    effects React runs after a render. Each effect is a method of its own,
    so the order in which they run is the caller's: a list change does not
    by itself recompute the aggregates, as in the source, where that happens
    in the effect that follows the render. */
module AppRoot {
  import opened Wrappers
  import opened Types
  import Ledger
  import Quotes
  import Settlement

  class App {
    var user: UserState
    var assets: seq<Asset>
    var isDataLoaded: bool
    var showRewardModal: Option<Settlement.Reward>

    /** The initial state: the stored user record and list when present,
        the defaults otherwise; nothing loaded, no pop-up. */
    constructor (savedUser: Option<UserState>, savedAssets: Option<seq<Asset>>)
      ensures user == (if savedUser.Some? then savedUser.value else DefaultUser)
      ensures assets == (if savedAssets.Some? then savedAssets.value else InitialAssets)
      ensures !isDataLoaded && showRewardModal.None?
    {
      user := if savedUser.Some? then savedUser.value else DefaultUser;
      assets := if savedAssets.Some? then savedAssets.value else InitialAssets;
      isDataLoaded := false;
      showRewardModal := None;
    }

    /** The user record's funds and profit are those of the current list. */
    ghost predicate Synced()
      reads this
    {
      Ledger.Priceable(assets) &&
      user.companyFunds == Ledger.TotalValue(assets) &&
      user.dailyProfit == Ledger.TotalProfit(assets)
    }

    /** `addAsset`: merge a repeat buy or put a new position in front. */
    method AddAsset(data: NewAsset, newId: string)
      requires Ledger.MergeDefined(assets, data)
      modifies this
      ensures assets == Ledger.AddAsset(old(assets), data, newId)
      ensures user == old(user) && isDataLoaded == old(isDataLoaded)
      ensures showRewardModal == old(showRewardModal)
    {
      assets := Ledger.AddAsset(assets, data, newId);
    }

    /** `deleteAsset`: drop every position with this id. */
    method DeleteAsset(id: string)
      modifies this
      ensures assets == Ledger.DeleteAsset(old(assets), id)
      ensures user == old(user) && isDataLoaded == old(isDataLoaded)
      ensures showRewardModal == old(showRewardModal)
    {
      assets := Ledger.DeleteAsset(assets, id);
    }

    /** `toggleSimulationMode`: set the mode flag and nothing else. */
    method ToggleSimulationMode(enabled: bool)
      modifies this
      ensures user == old(user).(isSimulationMode := enabled)
      ensures assets == old(assets) && isDataLoaded == old(isDataLoaded)
      ensures showRewardModal == old(showRewardModal)
    {
      user := user.(isSimulationMode := enabled);
    }

    /** The effect on a list change: funds and daily profit recomputed from
        the list, the rest of the record kept. */
    method RecomputeAggregates()
      requires Ledger.Priceable(assets)
      modifies this
      ensures Synced()
      ensures user == old(user).(companyFunds := Ledger.TotalValue(assets), dailyProfit := Ledger.TotalProfit(assets))
      ensures assets == old(assets) && isDataLoaded == old(isDataLoaded)
      ensures showRewardModal == old(showRewardModal)
    {
      user := user.(companyFunds := Ledger.TotalValue(assets), dailyProfit := Ledger.TotalProfit(assets));
    }

    /** The settlement effect, given the local date string. */
    method Settle(today: string)
      modifies this
      ensures var (u, reward) := Settlement.SettleUser(old(user), old(isDataLoaded), today);
        user == u && showRewardModal == (if reward.Some? then reward else old(showRewardModal))
      ensures assets == old(assets) && isDataLoaded == old(isDataLoaded)
    {
      var (u, reward) := Settlement.SettleUser(user, isDataLoaded, today);
      user := u;
      if reward.Some? {
        showRewardModal := reward;
      }
    }

    /** Closing the reward pop-up. */
    method DismissReward()
      modifies this
      ensures showRewardModal.None?
      ensures user == old(user) && assets == old(assets) && isDataLoaded == old(isDataLoaded)
    {
      showRewardModal := None;
    }

    /** A simulation-mode tick, one random draw in [0, 1) per position. */
    method SimulationTick(randoms: seq<real>)
      requires |randoms| == |assets|
      requires forall i :: 0 <= i < |randoms| ==> 0.0 <= randoms[i] < 1.0
      modifies this
      ensures assets == Quotes.SimulateStep(old(assets), randoms)
      ensures isDataLoaded
      ensures user == old(user) && showRewardModal == old(showRewardModal)
    {
      if |assets| == 0 {
        isDataLoaded := true;
      } else {
        assets := Quotes.SimulateStep(assets, randoms);
      }
      isDataLoaded := true;
    }

    /** A real-mode tick: `response` is the decoded answer to the request for
        `Quotes.RequestPath(assets)`, `None` when the request failed. An empty
        list sends no request; every outcome marks the data loaded. */
    method RealQuoteTick(response: Option<string>)
      requires response.Some? ==> Quotes.QuotesUsable(assets, response.value)
      modifies this
      ensures |old(assets)| == 0 || response.None? ==> assets == old(assets)
      ensures |old(assets)| > 0 && response.Some? ==> assets == Quotes.ApplyQuotes(old(assets), response.value)
      ensures isDataLoaded
      ensures user == old(user) && showRewardModal == old(showRewardModal)
    {
      if |assets| == 0 {
        isDataLoaded := true;
        return;
      }
      match response
      case None =>
        isDataLoaded := true;
      case Some(text) =>
        assets := Quotes.ApplyQuotes(assets, text);
        isDataLoaded := true;
    }

    /** One interval tick: a simulation step or a real-quote update, as the
        mode says. */
    method QuoteTick(randoms: seq<real>, response: Option<string>)
      requires user.isSimulationMode ==>
        |randoms| == |assets| && forall i :: 0 <= i < |randoms| ==> 0.0 <= randoms[i] < 1.0
      requires !user.isSimulationMode && response.Some? ==> Quotes.QuotesUsable(assets, response.value)
      modifies this
      ensures old(user).isSimulationMode ==> assets == Quotes.SimulateStep(old(assets), randoms)
      ensures !old(user).isSimulationMode && |old(assets)| > 0 && response.Some? ==>
        assets == Quotes.ApplyQuotes(old(assets), response.value)
      ensures !old(user).isSimulationMode && (|old(assets)| == 0 || response.None?) ==> assets == old(assets)
      ensures isDataLoaded
      ensures user == old(user) && showRewardModal == old(showRewardModal)
    {
      if user.isSimulationMode {
        SimulationTick(randoms);
      } else {
        RealQuoteTick(response);
      }
    }

    /** The run when the quote loop is set up: an empty list is loaded at
        once; in real mode the quotes are fetched at once; in simulation mode
        nothing happens until the first tick. */
    method StartQuoteLoop(response: Option<string>)
      requires !user.isSimulationMode && response.Some? ==> Quotes.QuotesUsable(assets, response.value)
      modifies this
      ensures |old(assets)| == 0 ==> isDataLoaded && assets == old(assets)
      ensures |old(assets)| > 0 && old(user).isSimulationMode ==>
        assets == old(assets) && isDataLoaded == old(isDataLoaded)
      ensures |old(assets)| > 0 && !old(user).isSimulationMode ==>
        isDataLoaded && assets == (if response.Some? then Quotes.ApplyQuotes(old(assets), response.value) else old(assets))
      ensures user == old(user) && showRewardModal == old(showRewardModal)
    {
      if |assets| == 0 {
        isDataLoaded := true;
      } else if !user.isSimulationMode {
        RealQuoteTick(response);
      }
    }
  }

  /** A first buy followed by the aggregates effect adds exactly the new
      position's value to the company funds and leaves the daily profit as
      it was. */
  method AddThenRecompute(app: App, data: NewAsset, newId: string)
    requires app.Synced() && Ledger.FindIndex(app.assets, data.code).None?
    modifies app
    ensures app.Synced()
    ensures app.user.companyFunds == old(app.user.companyFunds) + data.quantity * data.currentPrice
    ensures app.user.dailyProfit == old(app.user.dailyProfit)
  {
    ghost var before := app.assets;
    app.AddAsset(data, newId);
    Ledger.TotalValueAfterAdd(before, data, newId);
    Ledger.TotalProfitAfterNewCode(before, data, newId);
    app.RecomputeAggregates();
  }

  /** The first quote update after start-up followed by settlement: the
      update sets the loading flag, a dependency of the settlement effect,
      so React runs the effect; the pop-up opens and the points grow by the
      reward for the record's current daily profit. */
  method LoadThenSettle(app: App, response: Option<string>, today: string)
    requires !app.isDataLoaded
    requires !app.user.isSimulationMode && app.user.lastLoginDate != today
    requires response.Some? ==> Quotes.QuotesUsable(app.assets, response.value)
    modifies app
    ensures app.showRewardModal == Some(Settlement.RewardFor(old(app.user.dailyProfit)))
    ensures app.user.incentivePoints == old(app.user.incentivePoints) + Settlement.RewardFor(old(app.user.dailyProfit)).total
    ensures app.user.lastLoginDate == today
  {
    app.RealQuoteTick(response);
    app.Settle(today);
  }
}
