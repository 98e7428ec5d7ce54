/** The equity job (EquityCheckerJob): once per cycle it sums the USD value of
    the margin account's positive balances and keeps one monitor row, "USD
    Total", that says how far the total is outside the configured band. */
module EquityChecker {
  import opened Common
  import opened Domain
  import opened MonitorEntity
  import opened JobHelper

  /** The observer settings row (ObserverSettingsNoSqlEntity). */
  datatype ObserverSettings = ObserverSettings(minimalExchangeBalanceUsd: real, maximumExchangeBalanceUsd: real)

  /** The monitor symbol of the equity row. */
  const TotalEquitySymbol: string := "USD Total"

  const TooLowReason: string := "Total balance too low"
  const TooHighReason: string := "Total balance too high"
  const EquityType: string := "Equity"

  /** The USD value of each balance's positive part, in order. */
  function UsdValues(balances: seq<ExchangeBalance>, usdValue: (string, real) -> real): seq<real>
  {
    seq(|balances|, i requires 0 <= i < |balances| => usdValue(balances[i].symbol, balances[i].positiveBalance))
  }

  /** The total the job compares with the band: the sum of the USD values. */
  function TotalUsd(balances: seq<ExchangeBalance>, usdValue: (string, real) -> real): real
  {
    Sum(UsdValues(balances, usdValue))
  }

  /** The total of a concatenation of balance lists is the sum of their totals. */
  lemma TotalUsdAppend(a: seq<ExchangeBalance>, b: seq<ExchangeBalance>, usdValue: (string, real) -> real)
    ensures TotalUsd(a + b, usdValue) == TotalUsd(a, usdValue) + TotalUsd(b, usdValue)
  {
    assert UsdValues(a + b, usdValue) == UsdValues(a, usdValue) + UsdValues(b, usdValue);
    SumAppend(UsdValues(a, usdValue), UsdValues(b, usdValue));
  }

  /** When every value is non-negative, so is the total. */
  lemma {:induction false} SumNonNegative(s: seq<real>)
    requires forall i :: 0 <= i < |s| ==> s[i] >= 0.0
    ensures Sum(s) >= 0.0
    decreases |s|
  {
    if s != [] {
      SumNonNegative(s[..|s| - 1]);
    }
  }

  lemma TotalUsdNonNegative(balances: seq<ExchangeBalance>, usdValue: (string, real) -> real)
    requires forall i :: 0 <= i < |balances| ==> usdValue(balances[i].symbol, balances[i].positiveBalance) >= 0.0
    ensures TotalUsd(balances, usdValue) >= 0.0
  {
    SumNonNegative(UsdValues(balances, usdValue));
  }

  /** The comment text of an out-of-band row. */
  function TooLowComment(total: real, min: real, render: real -> string): string
  {
    "Total balance is " + render(total) + " USD. Min balance set at " + render(min)
  }

  function TooHighComment(total: real, max: real, render: real -> string): string
  {
    "Total balance is " + render(total) + " USD. Max balance set at " + render(max)
  }

  /** The monitor table after the check, stated as the outcome the job
      settles on: strictly inside the band the row is removed; above the
      maximum the row records the excess (this wins when the band is empty and
      the total is below the minimum too); below the minimum it records the
      shortfall; otherwise, on a bound, the table is left alone; with no
      settings or no balances nothing changes. */
  function EquityMonitor(m: map<TableKey, TransfersMonitorEntity>, settings: Option<ObserverSettings>,
                         balances: Option<seq<ExchangeBalance>>, usdValue: (string, real) -> real,
                         render: real -> string, now: int): map<TableKey, TransfersMonitorEntity>
  {
    if settings.None? || balances.None? then m
    else
      var min := settings.value.minimalExchangeBalanceUsd;
      var max := settings.value.maximumExchangeBalanceUsd;
      var total := TotalUsd(balances.value, usdValue);
      var key := KeyOf(TotalEquitySymbol);
      if min < total < max then m - {key}
      else if total > max then
        m[key := Create(TotalEquitySymbol, total - max, now, TooHighReason, TooHighComment(total, max, render), EquityType)]
      else if total < min then
        m[key := Create(TotalEquitySymbol, min - total, now, TooLowReason, TooLowComment(total, min, render), EquityType)]
      else m
  }

  /** CheckEquity. A missing settings row ends the check; balances the
      extractor could not produce (`None`) raise inside the try block, which
      only logs. With both present, the total is classified against the band
      by the job's three tests in order, each writing the row through the
      shared helper. */
  method CheckEquity(store: ObserverStore, settings: Option<ObserverSettings>,
                     balances: Option<seq<ExchangeBalance>>, usdValue: (string, real) -> real,
                     render: real -> string, now: int)
    requires store.Valid()
    modifies store
    ensures store.Valid()
    ensures store.monitor == EquityMonitor(old(store.monitor), settings, balances, usdValue, render, now)
    ensures store.assets == old(store.assets) && store.transfers == old(store.transfers)
    ensures store.nextTransferId == old(store.nextTransferId)
  {
    if settings.None? {
      return;
    }
    if balances.None? {
      return;
    }
    var min := settings.value.minimalExchangeBalanceUsd;
    var max := settings.value.maximumExchangeBalanceUsd;
    var totalBalance := TotalUsd(balances.value, usdValue);
    if max > totalBalance && totalBalance > min {
      store.ResetMonitor(TotalEquitySymbol);
      return;
    }
    if totalBalance < min {
      var diff := min - totalBalance;
      store.AddToMonitor(TotalEquitySymbol, diff, TooLowReason, TooLowComment(totalBalance, min, render), EquityType, now);
    }
    if totalBalance > max {
      var diff := totalBalance - max;
      if totalBalance < min {
        UpsertTwice(old(store.monitor), KeyOf(TotalEquitySymbol),
                    Create(TotalEquitySymbol, min - totalBalance, now, TooLowReason, TooLowComment(totalBalance, min, render), EquityType),
                    Create(TotalEquitySymbol, diff, now, TooHighReason, TooHighComment(totalBalance, max, render), EquityType));
      }
      store.AddToMonitor(TotalEquitySymbol, diff, TooHighReason, TooHighComment(totalBalance, max, render), EquityType, now);
    }
  }

  /** A second upsert of a key replaces whatever the first one wrote. */
  lemma UpsertTwice(m: map<TableKey, TransfersMonitorEntity>, k: TableKey, first: TransfersMonitorEntity,
                    row: TransfersMonitorEntity)
    ensures m[k := first][k := row] == m[k := row]
  {
  }

  // ---------------------------------------------------------------------
  // Properties of the check

  /** Only the "USD Total" row can change: every other key keeps its row or its absence. */
  lemma EquityOthersUnchanged(m: map<TableKey, TransfersMonitorEntity>, settings: Option<ObserverSettings>,
                              balances: Option<seq<ExchangeBalance>>, usdValue: (string, real) -> real,
                              render: real -> string, now: int, k: TableKey)
    requires k != KeyOf(TotalEquitySymbol)
    ensures var r := EquityMonitor(m, settings, balances, usdValue, render, now);
      (k in r <==> k in m) && (k in m ==> r[k] == m[k])
  {
  }

  /** The check keeps every row under its own key. */
  lemma EquityMonitorKeyed(m: map<TableKey, TransfersMonitorEntity>, settings: Option<ObserverSettings>,
                           balances: Option<seq<ExchangeBalance>>, usdValue: (string, real) -> real,
                           render: real -> string, now: int)
    requires MonitorKeyed(m)
    ensures MonitorKeyed(EquityMonitor(m, settings, balances, usdValue, render, now))
  {
    if settings.Some? && balances.Some? {
      var min, max := settings.value.minimalExchangeBalanceUsd, settings.value.maximumExchangeBalanceUsd;
      var total := TotalUsd(balances.value, usdValue);
      if min < total < max {
        ResetKeepsKeyed(m, TotalEquitySymbol);
      } else if total > max {
        UpsertKeepsKeyed(m, TotalEquitySymbol, total - max, now, TooHighReason, TooHighComment(total, max, render), EquityType);
      } else if total < min {
        UpsertKeepsKeyed(m, TotalEquitySymbol, min - total, now, TooLowReason, TooLowComment(total, min, render), EquityType);
      }
    }
  }

  /** Strictly inside the band the row is gone. */
  lemma EquityInBandClears(m: map<TableKey, TransfersMonitorEntity>, s: ObserverSettings, balances: seq<ExchangeBalance>,
                           usdValue: (string, real) -> real, render: real -> string, now: int)
    requires s.minimalExchangeBalanceUsd < TotalUsd(balances, usdValue) < s.maximumExchangeBalanceUsd
    ensures KeyOf(TotalEquitySymbol) !in EquityMonitor(m, Some(s), Some(balances), usdValue, render, now)
  {
  }

  /** Whenever the check writes the row, the row holds a positive distance to
      the band: the excess over the maximum, or, when the total is not above
      the maximum, the shortfall below the minimum. */
  lemma EquityRowIsDistance(m: map<TableKey, TransfersMonitorEntity>, s: ObserverSettings,
                            balances: seq<ExchangeBalance>, usdValue: (string, real) -> real,
                            render: real -> string, now: int)
    ensures var r := EquityMonitor(m, Some(s), Some(balances), usdValue, render, now);
      var total := TotalUsd(balances, usdValue);
      var key := KeyOf(TotalEquitySymbol);
      && (total > s.maximumExchangeBalanceUsd ==>
            key in r && r[key].amount == total - s.maximumExchangeBalanceUsd && r[key].amount > 0.0
            && r[key].reason == TooHighReason && r[key].asset == TotalEquitySymbol)
      && (total < s.minimalExchangeBalanceUsd && total <= s.maximumExchangeBalanceUsd ==>
            key in r && r[key].amount == s.minimalExchangeBalanceUsd - total && r[key].amount > 0.0
            && r[key].reason == TooLowReason && r[key].asset == TotalEquitySymbol)
  {
  }

  /** With a non-empty band, a total exactly on either bound leaves the table as it was. */
  lemma EquityOnBoundUnchanged(m: map<TableKey, TransfersMonitorEntity>, s: ObserverSettings,
                               balances: seq<ExchangeBalance>, usdValue: (string, real) -> real,
                               render: real -> string, now: int)
    requires s.minimalExchangeBalanceUsd < s.maximumExchangeBalanceUsd
    requires TotalUsd(balances, usdValue) == s.minimalExchangeBalanceUsd
          || TotalUsd(balances, usdValue) == s.maximumExchangeBalanceUsd
    ensures EquityMonitor(m, Some(s), Some(balances), usdValue, render, now) == m
  {
  }

  /** The check is idempotent: running it twice on the same inputs leaves the
      table it left after the first run. */
  lemma EquityIdempotent(m: map<TableKey, TransfersMonitorEntity>, settings: Option<ObserverSettings>,
                         balances: Option<seq<ExchangeBalance>>, usdValue: (string, real) -> real,
                         render: real -> string, now: int)
    ensures var once := EquityMonitor(m, settings, balances, usdValue, render, now);
      EquityMonitor(once, settings, balances, usdValue, render, now) == once
  {
    var once := EquityMonitor(m, settings, balances, usdValue, render, now);
    var twice := EquityMonitor(once, settings, balances, usdValue, render, now);
    assert twice.Keys == once.Keys;
  }
}
