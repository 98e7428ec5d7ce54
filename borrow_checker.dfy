/** The borrow checker job (BorrowCheckerJob): each cycle walks the margin
    positions with a debt and repays each one through the cascade self-repay,
    main-book transfer, custody vaults. Every method here changes the store
    and the gateway, and is proved to do exactly what its plan in BorrowPlan
    says: the ledger gains the numbered rows of the plan's movements, the asset
    table the plan's locks, the gateway log the plan's requests, the monitor
    table the plan's rows. */
module BorrowChecker {
  import opened Common
  import opened Domain
  import opened Gateway
  import opened MonitorEntity
  import opened JobHelper
  import Plan = BorrowPlan
  import Props = BorrowProperties

  /** The state (ledger, identity counter, assets, request log) after the
      movements `ps` and the requests `calls`, starting from the state
      (t0, id0, a0, r0). */
  ghost predicate Effects(transfers: seq<ObserverTransfer>, nextId: int, assets: seq<ObserverAsset>,
                          requests: seq<GatewayCall>,
                          t0: seq<ObserverTransfer>, id0: int, a0: seq<ObserverAsset>, r0: seq<GatewayCall>,
                          ps: seq<Plan.Payment>, calls: seq<GatewayCall>, inputs: Plan.CycleInputs)
  {
    && transfers == t0 + Numbered(Plan.Records(ps, inputs), id0)
    && nextId == id0 + |ps|
    && assets == Plan.LocksAfter(a0, ps, inputs.now)
    && requests == r0 + calls
  }

  lemma EffectsNone(transfers: seq<ObserverTransfer>, nextId: int, assets: seq<ObserverAsset>,
                    requests: seq<GatewayCall>, inputs: Plan.CycleInputs)
    ensures Effects(transfers, nextId, assets, requests, transfers, nextId, assets, requests, [], [], inputs)
  {
    assert Numbered(Plan.Records([], inputs), nextId) == [];
  }

  /** Running one batch of movements after another is running both. */
  lemma EffectsCompose(t1: seq<ObserverTransfer>, n1: int, a1: seq<ObserverAsset>, q1: seq<GatewayCall>,
                       t2: seq<ObserverTransfer>, n2: int, a2: seq<ObserverAsset>, q2: seq<GatewayCall>,
                       t0: seq<ObserverTransfer>, id0: int, a0: seq<ObserverAsset>, r0: seq<GatewayCall>,
                       ps1: seq<Plan.Payment>, c1: seq<GatewayCall>, ps2: seq<Plan.Payment>, c2: seq<GatewayCall>,
                       inputs: Plan.CycleInputs)
    requires Effects(t1, n1, a1, q1, t0, id0, a0, r0, ps1, c1, inputs)
    requires Effects(t2, n2, a2, q2, t1, n1, a1, q1, ps2, c2, inputs)
    ensures Effects(t2, n2, a2, q2, t0, id0, a0, r0, ps1 + ps2, c1 + c2, inputs)
  {
    assert q2 == r0 + (c1 + c2);
    LedgerCompose(t0, t1, t2, id0, n1, ps1, ps2, inputs);
    LocksCompose(a0, a1, a2, ps1, ps2, inputs.now);
  }

  lemma LedgerCompose(t0: seq<ObserverTransfer>, t1: seq<ObserverTransfer>, t2: seq<ObserverTransfer>, id0: int, n1: int,
                      ps1: seq<Plan.Payment>, ps2: seq<Plan.Payment>, inputs: Plan.CycleInputs)
    requires t1 == t0 + Numbered(Plan.Records(ps1, inputs), id0) && n1 == id0 + |ps1|
    requires t2 == t1 + Numbered(Plan.Records(ps2, inputs), n1)
    ensures t2 == t0 + Numbered(Plan.Records(ps1 + ps2, inputs), id0)
  {
    Plan.RecordsAppend(ps1, ps2, inputs);
    NumberedAppend(Plan.Records(ps1, inputs), Plan.Records(ps2, inputs), id0);
  }

  lemma LocksCompose(a0: seq<ObserverAsset>, a1: seq<ObserverAsset>, a2: seq<ObserverAsset>,
                     ps1: seq<Plan.Payment>, ps2: seq<Plan.Payment>, now: int)
    requires a1 == Plan.LocksAfter(a0, ps1, now) && a2 == Plan.LocksAfter(a1, ps2, now)
    ensures a2 == Plan.LocksAfter(a0, ps1 + ps2, now)
  {
    Plan.LocksAfterAppend(a0, ps1, ps2, now);
  }

  /** One successful movement: its ledger row, numbered by the counter. */
  lemma EffectsOne(t0: seq<ObserverTransfer>, id0: int, a0: seq<ObserverAsset>, p: Plan.Payment,
                   inputs: Plan.CycleInputs)
    requires !p.VaultTransfer?
    ensures Effects(t0 + [Plan.RecordOf(p, inputs).(transferId := id0)], id0 + 1, a0, [Plan.CallOf(p)],
                    t0, id0, a0, [], [p], [Plan.CallOf(p)], inputs)
  {
    assert Numbered(Plan.Records([p], inputs), id0) == [Plan.RecordOf(p, inputs).(transferId := id0)];
    assert [p][..0] == [];
  }

  lemma EffectsVault(t0: seq<ObserverTransfer>, id0: int, a0: seq<ObserverAsset>, p: Plan.Payment,
                     inputs: Plan.CycleInputs)
    requires p.VaultTransfer?
    ensures Effects(t0 + [Plan.RecordOf(p, inputs).(transferId := id0)], id0 + 1,
                    LockRows(a0, p.asset.assetSymbol, AddMinutes(inputs.now, p.asset.lockTimeInMin)), [Plan.CallOf(p)],
                    t0, id0, a0, [], [p], [Plan.CallOf(p)], inputs)
  {
    assert Numbered(Plan.Records([p], inputs), id0) == [Plan.RecordOf(p, inputs).(transferId := id0)];
    assert [p][..0] == [];
  }

  // ---------------------------------------------------------------------
  // Step 1

  /** PayFromMarginAccount: repays min(Balance, Borrowed) from the position's
      own margin balance and books it; a failed repay raises. */
  method PayFromMarginAccount(store: ObserverStore, gw: SettlementGateway, borrowedPosition: ExchangeBalance,
                              inputs: Plan.CycleInputs)
    returns (end: Plan.StepEnd)
    requires store.Valid()
    modifies store, gw
    ensures store.Valid()
    ensures var s := Plan.PayFromMarginAccount(borrowedPosition, gw.answer);
      && end == s.end
      && Effects(store.transfers, store.nextTransferId, store.assets, gw.requests,
                 old(store.transfers), old(store.nextTransferId), old(store.assets), old(gw.requests),
                 s.payments, Plan.StepCalls(s), inputs)
      && store.monitor == old(store.monitor)
  {
    EffectsNone(store.transfers, store.nextTransferId, store.assets, gw.requests, inputs);
    var borrowedBalance := borrowedPosition.borrowed;
    var marginBalance := borrowedPosition.balance;
    var paymentAmount := Min(marginBalance, borrowedBalance);
    if paymentAmount == 0.0 {
      return Plan.Done(0.0);
    }
    var symbol := borrowedPosition.symbol;
    var request := MakeRepay(symbol, paymentAmount, "Binance");
    var exResult := gw.Send(request);
    if !exResult.Success? {
      return Plan.Raised(Plan.Fault(request, FailureMessage(Plan.RepayErrorPrefix, exResult)));
    }
    ghost var t0, id0 := store.transfers, store.nextTransferId;
    store.SaveTransfer(ObserverTransfer(0, "BinanceMargin", "BinanceMarginBorrowed", symbol, paymentAmount,
      inputs.indexPrice(symbol),
      "Borrowed " + inputs.render(borrowedBalance) + " " + symbol + ". Repay from Binance Margin. Amount "
        + inputs.render(paymentAmount),
      inputs.now));
    EffectsOne(t0, id0, store.assets, Plan.MarginRepay(symbol, borrowedBalance, paymentAmount), inputs);
    return Plan.Done(paymentAmount);
  }

  // ---------------------------------------------------------------------
  // Step 2

  /** TransferFromMainAccount: moves min(residual, main balance) of the
      symbol from the main book to margin and books it; nothing happens when
      the symbol has no main balance or the amount is 0; a failed transfer raises. */
  method TransferFromMainAccount(store: ObserverStore, gw: SettlementGateway, symbol: string, borrowedBalance: real,
                                 balances: seq<ExchangeBalance>, inputs: Plan.CycleInputs)
    returns (end: Plan.StepEnd)
    requires store.Valid()
    modifies store, gw
    ensures store.Valid()
    ensures var s := Plan.TransferFromMainAccount(symbol, borrowedBalance, balances, gw.answer);
      && end == s.end
      && Effects(store.transfers, store.nextTransferId, store.assets, gw.requests,
                 old(store.transfers), old(store.nextTransferId), old(store.assets), old(gw.requests),
                 s.payments, Plan.StepCalls(s), inputs)
      && store.monitor == old(store.monitor)
  {
    EffectsNone(store.transfers, store.nextTransferId, store.assets, gw.requests, inputs);
    var mainBalance := Plan.FindBalance(balances, symbol);
    if mainBalance.None? {
      return Plan.Done(0.0);
    }
    var paymentAmount := Min(borrowedBalance, mainBalance.value.balance);
    if paymentAmount == 0.0 {
      return Plan.Done(0.0);
    }
    var request := TransferBinanceMainToMargin(symbol, paymentAmount);
    var result := gw.Send(request);
    if !result.Success? {
      return Plan.Raised(Plan.Fault(request, FailureMessage(Plan.MainErrorPrefix, result)));
    }
    ghost var t0, id0 := store.transfers, store.nextTransferId;
    store.SaveTransfer(ObserverTransfer(0, "BinanceMain", "BinanceMargin", symbol, paymentAmount,
      inputs.indexPrice(symbol),
      "Borrowed " + inputs.render(borrowedBalance) + " " + symbol + ". Transfer from Binance Main to Margin. Amount "
        + inputs.render(paymentAmount),
      inputs.now));
    EffectsOne(t0, id0, store.assets, Plan.MainTransfer(symbol, borrowedBalance, paymentAmount), inputs);
    return Plan.Done(paymentAmount);
  }

  // ---------------------------------------------------------------------
  // Step 3

  /** ExecuteTransferToFireblocks: one custody-to-exchange transfer of
      `paymentAmount` from `vaultAccount`, booked on success; a failed
      transfer raises. */
  method ExecuteTransferToFireblocks(store: ObserverStore, gw: SettlementGateway, asset: ObserverAsset,
                                     borrowedBalance: real, vaultAccount: VaultAccount, paymentAmount: real,
                                     inputs: Plan.CycleInputs)
    returns (end: Plan.StepEnd)
    requires store.Valid()
    modifies store, gw
    ensures store.Valid()
    ensures var pay := Plan.VaultTransfer(asset, vaultAccount, borrowedBalance, paymentAmount);
      var r := gw.answer(Plan.CallOf(pay));
      && gw.requests == old(gw.requests) + [Plan.CallOf(pay)]
      && (r.Success? ==>
            && end == Plan.Done(paymentAmount)
            && store.transfers == old(store.transfers) + [Plan.RecordOf(pay, inputs).(transferId := old(store.nextTransferId))]
            && store.nextTransferId == old(store.nextTransferId) + 1)
      && (!r.Success? ==>
            && end == Plan.Raised(Plan.Fault(Plan.CallOf(pay), FailureMessage(Plan.VaultErrorPrefix, r)))
            && store.transfers == old(store.transfers) && store.nextTransferId == old(store.nextTransferId))
      && store.assets == old(store.assets) && store.monitor == old(store.monitor)
  {
    var request := TransferFireblocksToBinance(asset.assetSymbol, asset.network, vaultAccount.vaultAccountId, paymentAmount);
    var result := gw.Send(request);
    if result.Success? {
      store.SaveTransfer(ObserverTransfer(0, "Fireblocks", "Binance", asset.assetSymbol, paymentAmount,
        inputs.indexPrice(asset.assetSymbol),
        "Borrowed " + inputs.render(borrowedBalance) + " " + asset.assetSymbol
          + ". Transfer from Fireblocks to Binance. Amount " + inputs.render(paymentAmount),
        inputs.now));
    } else {
      return Plan.Raised(Plan.Fault(request, FailureMessage(Plan.VaultErrorPrefix, result)));
    }
    return Plan.Done(paymentAmount);
  }

  /** A vault movement followed by the lock on its asset, as both passes do it. */
  method MoveAndLock(store: ObserverStore, gw: SettlementGateway, asset: ObserverAsset, borrowedBalance: real,
                     vaultAccount: VaultAccount, paymentAmount: real, inputs: Plan.CycleInputs)
    returns (end: Plan.StepEnd)
    requires store.Valid()
    modifies store, gw
    ensures store.Valid()
    ensures var pay := Plan.VaultTransfer(asset, vaultAccount, borrowedBalance, paymentAmount);
      var r := gw.answer(Plan.CallOf(pay));
      && (r.Success? ==>
            && end == Plan.Done(paymentAmount)
            && Effects(store.transfers, store.nextTransferId, store.assets, gw.requests,
                       old(store.transfers), old(store.nextTransferId), old(store.assets), old(gw.requests),
                       [pay], [Plan.CallOf(pay)], inputs))
      && (!r.Success? ==>
            && end == Plan.Raised(Plan.Fault(Plan.CallOf(pay), FailureMessage(Plan.VaultErrorPrefix, r)))
            && Effects(store.transfers, store.nextTransferId, store.assets, gw.requests,
                       old(store.transfers), old(store.nextTransferId), old(store.assets), old(gw.requests),
                       [], [Plan.CallOf(pay)], inputs))
      && store.monitor == old(store.monitor)
  {
    ghost var t0, id0, a0, r0 := store.transfers, store.nextTransferId, store.assets, gw.requests;
    ghost var pay := Plan.VaultTransfer(asset, vaultAccount, borrowedBalance, paymentAmount);
    end := ExecuteTransferToFireblocks(store, gw, asset, borrowedBalance, vaultAccount, paymentAmount, inputs);
    if end.Raised? {
      assert Numbered(Plan.Records([], inputs), id0) == [];
      return;
    }
    store.LockAsset(asset.assetSymbol, asset.lockTimeInMin, inputs.now);
    EffectsVault(t0, id0, a0, pay, inputs);
  }

  /** TransferFromFireblocks: nothing while a candidate asset is locked; then
      the first (asset, vault) pair that covers the whole residual; otherwise
      as much as each pair can give, until the residual is 0. Each movement
      locks its asset. */
  method TransferFromFireblocks(store: ObserverStore, gw: SettlementGateway, symbol: string, borrowedBalance: real,
                                inputs: Plan.CycleInputs)
    returns (end: Plan.StepEnd)
    requires store.Valid()
    modifies store, gw
    ensures store.Valid()
    ensures var s := Plan.TransferFromFireblocks(symbol, borrowedBalance, inputs, gw.answer);
      && end == s.end
      && Effects(store.transfers, store.nextTransferId, store.assets, gw.requests,
                 old(store.transfers), old(store.nextTransferId), old(store.assets), old(gw.requests),
                 s.payments, Plan.StepCalls(s), inputs)
      && store.monitor == old(store.monitor)
  {
    EffectsNone(store.transfers, store.nextTransferId, store.assets, gw.requests, inputs);
    if Plan.HasLockedAssets(inputs.assets, symbol, inputs.now) {
      return Plan.Skipped;
    }
    var cands := Plan.Candidates(inputs.assets, symbol);
    var vs := Plan.VaultOrder(inputs.vaults);
    ghost var found := Plan.FullPassFrom(cands, vs, borrowedBalance, inputs.fb, 0);
    end := FullPass(store, gw, borrowedBalance, cands, vs, inputs);
    if end.Skipped? {
      end := PartialPass(store, gw, borrowedBalance, cands, vs, inputs);
      VaultStepPartial(symbol, borrowedBalance, inputs, gw.answer);
    } else {
      VaultStepFull(symbol, borrowedBalance, inputs, gw.answer);
    }
  }

  /** The vault step when no pair covers the whole residual is the partial pass. */
  lemma VaultStepPartial(symbol: string, borrowedBalance: real, inputs: Plan.CycleInputs, answer: GatewayCall -> CallResult)
    requires !Plan.HasLockedAssets(inputs.assets, symbol, inputs.now)
    requires Plan.FullPassFrom(Plan.Candidates(inputs.assets, symbol), Plan.VaultOrder(inputs.vaults), borrowedBalance, inputs.fb, 0).None?
    ensures var s := Plan.TransferFromFireblocks(symbol, borrowedBalance, inputs, answer);
      var st := Plan.PartialAssets(Plan.Candidates(inputs.assets, symbol), Plan.VaultOrder(inputs.vaults),
                                   Plan.InitialPass(borrowedBalance), inputs.fb, answer);
      && s.payments == st.payments
      && s.end == (if st.fault.Some? then Plan.Raised(st.fault.value) else Plan.Done(st.total))
      && Plan.StepCalls(s) == Plan.Calls(st.payments) + (if st.fault.Some? then [st.fault.value.call] else [])
  {
  }

  /** The vault step when some pair covers the whole residual is that one transfer. */
  lemma VaultStepFull(symbol: string, borrowedBalance: real, inputs: Plan.CycleInputs, answer: GatewayCall -> CallResult)
    requires !Plan.HasLockedAssets(inputs.assets, symbol, inputs.now)
    requires Plan.FullPassFrom(Plan.Candidates(inputs.assets, symbol), Plan.VaultOrder(inputs.vaults), borrowedBalance, inputs.fb, 0).Some?
    ensures var cands := Plan.Candidates(inputs.assets, symbol);
      var vs := Plan.VaultOrder(inputs.vaults);
      var found := Plan.FullPassFrom(cands, vs, borrowedBalance, inputs.fb, 0).value;
      var pay := Plan.VaultTransfer(cands[found.0], vs[found.1], borrowedBalance, borrowedBalance);
      var r := answer(Plan.CallOf(pay));
      var s := Plan.TransferFromFireblocks(symbol, borrowedBalance, inputs, answer);
      && (r.Success? ==> s == Plan.StepResult([pay], Plan.Done(borrowedBalance)))
      && (!r.Success? ==> s == Plan.StepResult([], Plan.Raised(Plan.Fault(Plan.CallOf(pay), FailureMessage(Plan.VaultErrorPrefix, r)))))
      && Plan.StepCalls(s) == [Plan.CallOf(pay)]
  {
    var cands := Plan.Candidates(inputs.assets, symbol);
    var vs := Plan.VaultOrder(inputs.vaults);
    var found := Plan.FullPassFrom(cands, vs, borrowedBalance, inputs.fb, 0).value;
    var pay := Plan.VaultTransfer(cands[found.0], vs[found.1], borrowedBalance, borrowedBalance);
    assert Plan.Calls([pay]) == [Plan.CallOf(pay)];
    assert Plan.Calls([]) == [];
  }

  /** The full pass: at most one transfer, for the whole residual, from the
      first qualifying (asset, vault) pair; `Skipped` here means no pair
      qualified and nothing changed. */
  method FullPass(store: ObserverStore, gw: SettlementGateway, borrowedBalance: real,
                  cands: seq<ObserverAsset>, vs: seq<VaultAccount>, inputs: Plan.CycleInputs)
    returns (end: Plan.StepEnd)
    requires store.Valid()
    modifies store, gw
    ensures store.Valid()
    ensures var found := Plan.FullPassFrom(cands, vs, borrowedBalance, inputs.fb, 0);
      && (found.None? ==>
            && end == Plan.Skipped
            && store.transfers == old(store.transfers) && store.nextTransferId == old(store.nextTransferId)
            && store.assets == old(store.assets) && gw.requests == old(gw.requests))
      && (found.Some? ==>
            var pay := Plan.VaultTransfer(cands[found.value.0], vs[found.value.1], borrowedBalance, borrowedBalance);
            var r := gw.answer(Plan.CallOf(pay));
            && (r.Success? ==>
                  && end == Plan.Done(borrowedBalance)
                  && Effects(store.transfers, store.nextTransferId, store.assets, gw.requests,
                             old(store.transfers), old(store.nextTransferId), old(store.assets), old(gw.requests),
                             [pay], [Plan.CallOf(pay)], inputs))
            && (!r.Success? ==>
                  && end == Plan.Raised(Plan.Fault(Plan.CallOf(pay), FailureMessage(Plan.VaultErrorPrefix, r)))
                  && Effects(store.transfers, store.nextTransferId, store.assets, gw.requests,
                             old(store.transfers), old(store.nextTransferId), old(store.assets), old(gw.requests),
                             [], [Plan.CallOf(pay)], inputs)))
      && store.monitor == old(store.monitor)
  {
    var i := 0;
    while i < |cands|
      invariant i <= |cands|
      invariant Plan.FullPassFrom(cands, vs, borrowedBalance, inputs.fb, 0) == Plan.FullPassFrom(cands, vs, borrowedBalance, inputs.fb, i)
    {
      var asset := cands[i];
      var j := 0;
      while j < |vs|
        invariant j <= |vs|
        invariant Plan.FullPassVaults(asset, vs, borrowedBalance, inputs.fb, 0) == Plan.FullPassVaults(asset, vs, borrowedBalance, inputs.fb, j)
      {
        var vaultAccount := vs[j];
        var balance := Plan.VaultBalance(inputs.fb, vaultAccount.vaultAccountId, asset.assetSymbol, asset.network);
        var minBalance := Plan.MinBalance(vaultAccount, asset.assetSymbol);
        var minTransfer := asset.minTransferAmount;
        var paymentAmount := borrowedBalance;
        if balance - minBalance < paymentAmount || paymentAmount < minTransfer {
          j := j + 1;
        } else {
          end := MoveAndLock(store, gw, asset, borrowedBalance, vaultAccount, paymentAmount, inputs);
          return;
        }
      }
      i := i + 1;
    }
    return Plan.Skipped;
  }

  lemma PartialVaultsSnoc(a: ObserverAsset, vs: seq<VaultAccount>, j: nat, st: Plan.PassState,
                          fb: seq<FbBalance>, answer: GatewayCall -> CallResult)
    requires j < |vs|
    ensures Plan.PartialVaults(a, vs[..j + 1], st, fb, answer)
         == Plan.PartialPair(a, vs[j], Plan.PartialVaults(a, vs[..j], st, fb, answer), fb, answer)
  {
    assert vs[..j + 1][..j] == vs[..j];
  }

  lemma PartialAssetsSnoc(cands: seq<ObserverAsset>, vs: seq<VaultAccount>, i: nat, st: Plan.PassState,
                          fb: seq<FbBalance>, answer: GatewayCall -> CallResult)
    requires i < |cands|
    ensures Plan.PartialAssets(cands[..i + 1], vs, st, fb, answer)
         == Plan.PartialVaults(cands[i], vs, Plan.PartialAssets(cands[..i], vs, st, fb, answer), fb, answer)
  {
    assert cands[..i + 1][..i] == cands[..i];
  }

  /** One pair of the partial pass, from a running state: skipped below the
      asset's minimum, otherwise the transfer's success or its fault. */
  lemma PartialPairAt(a: ObserverAsset, v: VaultAccount, residual: real, total: real, paid: seq<Plan.Payment>,
                      fb: seq<FbBalance>, answer: GatewayCall -> CallResult)
    requires residual != 0.0
    ensures var amount := Min(residual, Plan.Available(fb, a, v));
      var st := Plan.PassState(residual, total, paid, None);
      var pay := Plan.VaultTransfer(a, v, residual, amount);
      var r := answer(Plan.CallOf(pay));
      && (amount < a.minTransferAmount ==> Plan.PartialPair(a, v, st, fb, answer) == st)
      && (amount >= a.minTransferAmount && r.Success? ==>
            Plan.PartialPair(a, v, st, fb, answer) == Plan.PassState(residual - amount, total + amount, paid + [pay], None))
      && (amount >= a.minTransferAmount && !r.Success? ==>
            Plan.PartialPair(a, v, st, fb, answer)
            == Plan.PassState(residual, total, paid, Some(Plan.Fault(Plan.CallOf(pay), FailureMessage(Plan.VaultErrorPrefix, r)))))
  {
  }

  /** The partial pass over the candidates, from residual `borrowedBalance`:
      each pair gives min(residual, balance above floor) when that reaches the
      asset's minimum; it stops once the residual is 0 or a transfer raises. */
  method PartialPass(store: ObserverStore, gw: SettlementGateway, borrowedBalance: real,
                     cands: seq<ObserverAsset>, vs: seq<VaultAccount>, inputs: Plan.CycleInputs)
    returns (end: Plan.StepEnd)
    requires store.Valid()
    modifies store, gw
    ensures store.Valid()
    ensures var st := Plan.PartialAssets(cands, vs, Plan.InitialPass(borrowedBalance), inputs.fb, gw.answer);
      && end == (if st.fault.Some? then Plan.Raised(st.fault.value) else Plan.Done(st.total))
      && Effects(store.transfers, store.nextTransferId, store.assets, gw.requests,
                 old(store.transfers), old(store.nextTransferId), old(store.assets), old(gw.requests),
                 st.payments, Plan.Calls(st.payments) + (if st.fault.Some? then [st.fault.value.call] else []), inputs)
      && store.monitor == old(store.monitor)
  {
    ghost var init := Plan.InitialPass(borrowedBalance);
    ghost var answer := gw.answer;
    ghost var t0, id0, a0, r0 := store.transfers, store.nextTransferId, store.assets, gw.requests;
    ghost var paid: seq<Plan.Payment> := [];
    EffectsNone(t0, id0, a0, r0, inputs);
    var residual := borrowedBalance;
    var totalPaidAmount := 0.0;
    var i := 0;
    while i < |cands|
      invariant i <= |cands|
      invariant store.Valid()
      invariant Plan.PassState(residual, totalPaidAmount, paid, None) == Plan.PartialAssets(cands[..i], vs, init, inputs.fb, answer)
      invariant Effects(store.transfers, store.nextTransferId, store.assets, gw.requests, t0, id0, a0, r0,
                        paid, Plan.Calls(paid), inputs)
      invariant store.monitor == old(store.monitor)
    {
      if residual == 0.0 {
        Props.PartialAssetsStopsAt(cands, vs, init, i, inputs.fb, answer);
        break;
      }
      var fault;
      PartialAssetsSnoc(cands, vs, i, init, inputs.fb, answer);
      residual, totalPaidAmount, paid, fault :=
        PartialVaultsPass(store, gw, cands[i], vs, residual, totalPaidAmount, paid, t0, id0, a0, r0, inputs);
      if fault.Some? {
        Props.PartialAssetsStopsAt(cands, vs, init, i + 1, inputs.fb, answer);
        return Plan.Raised(fault.value);
      }
      i := i + 1;
    }
    assert cands[..|cands|] == cands;
    assert Plan.Calls(paid) + [] == Plan.Calls(paid);
    return Plan.Done(totalPaidAmount);
  }

  /** The inner loop of the partial pass: the vaults, in order, for one asset,
      from a running residual and total; it stops at a residual of 0 and
      returns the fault of a transfer that raised. */
  method PartialVaultsPass(store: ObserverStore, gw: SettlementGateway, asset: ObserverAsset, vs: seq<VaultAccount>,
                           residual0: real, total0: real, ghost paid0: seq<Plan.Payment>,
                           ghost t0: seq<ObserverTransfer>, ghost id0: int, ghost a0: seq<ObserverAsset>,
                           ghost r0: seq<GatewayCall>, inputs: Plan.CycleInputs)
    returns (residual: real, totalPaidAmount: real, ghost paid: seq<Plan.Payment>, fault: Option<Plan.Fault>)
    requires store.Valid()
    requires Effects(store.transfers, store.nextTransferId, store.assets, gw.requests, t0, id0, a0, r0,
                     paid0, Plan.Calls(paid0), inputs)
    modifies store, gw
    ensures store.Valid()
    ensures Plan.PassState(residual, totalPaidAmount, paid, fault)
         == Plan.PartialVaults(asset, vs, Plan.PassState(residual0, total0, paid0, None), inputs.fb, gw.answer)
    ensures Effects(store.transfers, store.nextTransferId, store.assets, gw.requests, t0, id0, a0, r0,
                    paid, Plan.Calls(paid) + (if fault.Some? then [fault.value.call] else []), inputs)
    ensures store.monitor == old(store.monitor)
  {
    ghost var answer := gw.answer;
    ghost var before := Plan.PassState(residual0, total0, paid0, None);
    residual, totalPaidAmount, paid, fault := residual0, total0, paid0, None;
    var j := 0;
    while j < |vs|
      invariant j <= |vs|
      invariant store.Valid()
      invariant fault.None?
      invariant Plan.PassState(residual, totalPaidAmount, paid, None) == Plan.PartialVaults(asset, vs[..j], before, inputs.fb, answer)
      invariant Effects(store.transfers, store.nextTransferId, store.assets, gw.requests, t0, id0, a0, r0,
                        paid, Plan.Calls(paid), inputs)
      invariant store.monitor == old(store.monitor)
    {
      if residual == 0.0 {
        Props.PartialVaultsStopsAt(asset, vs, before, j, inputs.fb, answer);
        break;
      }
      PartialVaultsSnoc(asset, vs, j, before, inputs.fb, answer);
      residual, totalPaidAmount, paid, fault :=
        PartialPairStep(store, gw, asset, vs[j], residual, totalPaidAmount, paid, t0, id0, a0, r0, inputs);
      if fault.Some? {
        Props.PartialVaultsStopsAt(asset, vs, before, j + 1, inputs.fb, answer);
        return;
      }
      j := j + 1;
    }
    assert vs[..|vs|] == vs;
    assert Plan.Calls(paid) + [] == Plan.Calls(paid);
  }

  /** One (asset, vault) pair of the partial pass: it gives min(residual,
      balance above floor) when that reaches the asset's minimum, then locks
      the asset; a transfer that raises returns its fault. */
  method PartialPairStep(store: ObserverStore, gw: SettlementGateway, asset: ObserverAsset, vaultAccount: VaultAccount,
                         residual0: real, total0: real, ghost paid0: seq<Plan.Payment>,
                         ghost t0: seq<ObserverTransfer>, ghost id0: int, ghost a0: seq<ObserverAsset>,
                         ghost r0: seq<GatewayCall>, inputs: Plan.CycleInputs)
    returns (residual: real, totalPaidAmount: real, ghost paid: seq<Plan.Payment>, fault: Option<Plan.Fault>)
    requires store.Valid() && residual0 != 0.0
    requires Effects(store.transfers, store.nextTransferId, store.assets, gw.requests, t0, id0, a0, r0,
                     paid0, Plan.Calls(paid0), inputs)
    modifies store, gw
    ensures store.Valid()
    ensures Plan.PassState(residual, totalPaidAmount, paid, fault)
         == Plan.PartialPair(asset, vaultAccount, Plan.PassState(residual0, total0, paid0, None), inputs.fb, gw.answer)
    ensures Effects(store.transfers, store.nextTransferId, store.assets, gw.requests, t0, id0, a0, r0,
                    paid, Plan.Calls(paid) + (if fault.Some? then [fault.value.call] else []), inputs)
    ensures store.monitor == old(store.monitor)
  {
    residual, totalPaidAmount, paid, fault := residual0, total0, paid0, None;
    var balance := Plan.VaultBalance(inputs.fb, vaultAccount.vaultAccountId, asset.assetSymbol, asset.network);
    var minBalance := Plan.MinBalance(vaultAccount, asset.assetSymbol);
    var minTransfer := asset.minTransferAmount;
    var paymentAmount := Min(residual, balance - minBalance);
    PartialPairAt(asset, vaultAccount, residual, totalPaidAmount, paid, inputs.fb, gw.answer);
    if paymentAmount < minTransfer {
      assert Plan.Calls(paid) + [] == Plan.Calls(paid);
      return;
    }
    ghost var pay := Plan.VaultTransfer(asset, vaultAccount, residual, paymentAmount);
    ghost var r := gw.answer(Plan.CallOf(pay));
    ghost var next := Plan.PartialPair(asset, vaultAccount, Plan.PassState(residual0, total0, paid0, None), inputs.fb, gw.answer);
    assert r.Success? ==> next == Plan.PassState(residual - paymentAmount, totalPaidAmount + paymentAmount, paid + [pay], None);
    assert !r.Success? ==>
      next == Plan.PassState(residual, totalPaidAmount, paid,
                             Some(Plan.Fault(Plan.CallOf(pay), FailureMessage(Plan.VaultErrorPrefix, r))));
    ghost var t1, n1, a1, q1 := store.transfers, store.nextTransferId, store.assets, gw.requests;
    var moved := MoveAndLock(store, gw, asset, residual, vaultAccount, paymentAmount, inputs);
    if moved.Raised? {
      EffectsCompose(t1, n1, a1, q1, store.transfers, store.nextTransferId, store.assets, gw.requests,
                     t0, id0, a0, r0, paid, Plan.Calls(paid), [], [Plan.CallOf(pay)], inputs);
      assert paid + [] == paid;
      fault := Some(moved.fault);
      return;
    }
    EffectsCompose(t1, n1, a1, q1, store.transfers, store.nextTransferId, store.assets, gw.requests,
                   t0, id0, a0, r0, paid, Plan.Calls(paid), [pay], [Plan.CallOf(pay)], inputs);
    Plan.CallsAppend(paid, [pay]);
    assert Plan.Calls([pay]) == [Plan.CallOf(pay)];
    paid := paid + [pay];
    residual := residual - paymentAmount;
    totalPaidAmount := totalPaidAmount + paymentAmount;
    assert Plan.Calls(paid) + [] == Plan.Calls(paid);
  }

  // ---------------------------------------------------------------------
  // One position and the cycle

  /** The requests a position sends, when its outcome carries the step `s`
      after the movements `before`. */
  lemma OutcomeCallsOf(o: Plan.PositionOutcome, before: seq<Plan.Payment>, s: Plan.StepResult)
    requires o.payments == before + s.payments
    requires s.end.Raised? <==> o.verdict.Failed?
    requires s.end.Raised? ==> o.verdict.fault == s.end.fault
    ensures Plan.OutcomeCalls(o) == Plan.Calls(before) + Plan.StepCalls(s)
  {
    Plan.CallsAppend(before, s.payments);
  }

  /** The same, when `s` is the position's first step. */
  lemma OutcomeCallsFirst(o: Plan.PositionOutcome, s: Plan.StepResult)
    requires o.payments == s.payments
    requires s.end.Raised? <==> o.verdict.Failed?
    requires s.end.Raised? ==> o.verdict.fault == s.end.fault
    ensures Plan.OutcomeCalls(o) == Plan.StepCalls(s)
  {
  }

  /** The monitor row a position leaves when its debt is not cleared. */
  lemma MonitorAfterUpsert(m: map<TableKey, TransfersMonitorEntity>, symbol: string, o: Plan.PositionOutcome, now: int,
                           row: TransfersMonitorEntity)
    requires !o.verdict.Resolved?
    requires o.verdict.Failed? ==> row == Create(symbol, o.residual, now, "Error", o.verdict.fault.message, "Depth")
    requires o.verdict.Unresolved? ==>
      row == Create(symbol, o.residual, now, Plan.DepthReason(o.verdict.isProcessed), "", "Depth")
    ensures Plan.MonitorAfter(m, symbol, o, now) == m[KeyOf(symbol) := row]
  {
  }

  /** The loop body of CheckExchangeBorrows for one borrowed position: the
      cascade, then the monitor row: deleted when the debt is cleared, a
      "Depth" row with the residual otherwise, an "Error" row with the
      exception's message when a step raised. The body is one straight-line
      method in the job; here the main-book and vault stages are the methods
      below it. The outcome `o` is the plan of the position. */
  method CheckPosition(store: ObserverStore, gw: SettlementGateway, borrowedPosition: ExchangeBalance,
                       inputs: Plan.CycleInputs)
    returns (ghost o: Plan.PositionOutcome)
    requires store.Valid()
    modifies store, gw
    ensures store.Valid()
    ensures o == Plan.CheckPosition(borrowedPosition, inputs, gw.answer)
    ensures Effects(store.transfers, store.nextTransferId, store.assets, gw.requests,
                    old(store.transfers), old(store.nextTransferId), old(store.assets), old(gw.requests),
                    o.payments, Plan.OutcomeCalls(o), inputs)
    ensures store.monitor == Plan.MonitorAfter(old(store.monitor), borrowedPosition.symbol, o, inputs.now)
  {
    ghost var t0, id0, a0, r0, m0 := store.transfers, store.nextTransferId, store.assets, gw.requests, store.monitor;
    var symbol := borrowedPosition.symbol;
    var borrowedBalance := borrowedPosition.borrowed;
    ghost var s1 := Plan.PayFromMarginAccount(borrowedPosition, gw.answer);
    Props.PayFromMarginAccountFacts(borrowedPosition, gw.answer);

    var end := PayFromMarginAccount(store, gw, borrowedPosition, inputs);
    if end.Raised? {
      o := Plan.PositionOutcome(s1.payments, borrowedBalance, Plan.Failed(end.fault));
      Plan.CheckPositionStops(borrowedPosition, inputs, gw.answer, o);
      OutcomeCallsFirst(o, s1);
      MonitorAfterUpsert(m0, symbol, o, inputs.now,
                         Create(symbol, borrowedBalance, inputs.now, "Error", end.fault.message, "Depth"));
      store.AddToMonitor(symbol, borrowedBalance, "Error", end.fault.message, "Depth", inputs.now);
      return;
    }
    borrowedBalance := borrowedBalance - end.paid;
    if borrowedBalance == 0.0 {
      o := Plan.PositionOutcome(s1.payments, 0.0, Plan.Resolved);
      Plan.CheckPositionStops(borrowedPosition, inputs, gw.answer, o);
      OutcomeCallsFirst(o, s1);
      store.ResetMonitor(symbol);
      return;
    }
    Plan.CheckPositionContinues(borrowedPosition, borrowedBalance, inputs, gw.answer);
    o := PositionMainStage(store, gw, symbol, borrowedBalance, s1.payments, t0, id0, a0, r0, inputs);
  }

  /** From the main-book transfer on, after the movements `before`. */
  method PositionMainStage(store: ObserverStore, gw: SettlementGateway, symbol: string, borrowedBalance: real,
                           ghost before: seq<Plan.Payment>, ghost t0: seq<ObserverTransfer>, ghost id0: int,
                           ghost a0: seq<ObserverAsset>, ghost r0: seq<GatewayCall>, inputs: Plan.CycleInputs)
    returns (ghost o: Plan.PositionOutcome)
    requires store.Valid()
    requires Effects(store.transfers, store.nextTransferId, store.assets, gw.requests, t0, id0, a0, r0,
                     before, Plan.Calls(before), inputs)
    modifies store, gw
    ensures store.Valid()
    ensures o == Plan.MainStage(symbol, borrowedBalance, before, inputs, gw.answer)
    ensures Effects(store.transfers, store.nextTransferId, store.assets, gw.requests, t0, id0, a0, r0,
                    o.payments, Plan.OutcomeCalls(o), inputs)
    ensures store.monitor == Plan.MonitorAfter(old(store.monitor), symbol, o, inputs.now)
  {
    ghost var t1, n1, a1, q1, m0 := store.transfers, store.nextTransferId, store.assets, gw.requests, store.monitor;
    ghost var s2 := Plan.TransferFromMainAccount(symbol, borrowedBalance, inputs.mains, gw.answer);
    Props.MainStepAccounting(symbol, borrowedBalance, inputs.mains, gw.answer);

    var end := TransferFromMainAccount(store, gw, symbol, borrowedBalance, inputs.mains, inputs);
    EffectsCompose(t1, n1, a1, q1, store.transfers, store.nextTransferId, store.assets, gw.requests,
                   t0, id0, a0, r0, before, Plan.Calls(before), s2.payments, Plan.StepCalls(s2), inputs);
    if end.Raised? {
      o := Plan.PositionOutcome(before + s2.payments, borrowedBalance, Plan.Failed(end.fault));
      Plan.MainStageStops(symbol, borrowedBalance, before, inputs, gw.answer, o);
      OutcomeCallsOf(o, before, s2);
      MonitorAfterUpsert(m0, symbol, o, inputs.now,
                         Create(symbol, borrowedBalance, inputs.now, "Error", end.fault.message, "Depth"));
      store.AddToMonitor(symbol, borrowedBalance, "Error", end.fault.message, "Depth", inputs.now);
      return;
    }
    var residual := borrowedBalance - end.paid;
    if residual == 0.0 {
      o := Plan.PositionOutcome(before + s2.payments, 0.0, Plan.Resolved);
      Plan.MainStageStops(symbol, borrowedBalance, before, inputs, gw.answer, o);
      OutcomeCallsOf(o, before, s2);
      store.ResetMonitor(symbol);
      return;
    }
    StepCallsDone(s2);
    Plan.CallsAppend(before, s2.payments);
    Plan.MainStageContinues(symbol, borrowedBalance, residual, before, inputs, gw.answer);
    o := PositionVaultStage(store, gw, symbol, residual, before + s2.payments, t0, id0, a0, r0, inputs);
  }

  lemma StepCallsDone(s: Plan.StepResult)
    requires !s.end.Raised?
    ensures Plan.StepCalls(s) == Plan.Calls(s.payments)
  {
    assert Plan.Calls(s.payments) + [] == Plan.Calls(s.payments);
  }

  /** The custody step and the monitor row it leads to, after the movements `before`. */
  method PositionVaultStage(store: ObserverStore, gw: SettlementGateway, symbol: string, borrowedBalance: real,
                            ghost before: seq<Plan.Payment>, ghost t0: seq<ObserverTransfer>, ghost id0: int,
                            ghost a0: seq<ObserverAsset>, ghost r0: seq<GatewayCall>, inputs: Plan.CycleInputs)
    returns (ghost o: Plan.PositionOutcome)
    requires store.Valid()
    requires Effects(store.transfers, store.nextTransferId, store.assets, gw.requests, t0, id0, a0, r0,
                     before, Plan.Calls(before), inputs)
    modifies store, gw
    ensures store.Valid()
    ensures o == Plan.VaultStage(symbol, borrowedBalance, before, inputs, gw.answer)
    ensures Effects(store.transfers, store.nextTransferId, store.assets, gw.requests, t0, id0, a0, r0,
                    o.payments, Plan.OutcomeCalls(o), inputs)
    ensures store.monitor == Plan.MonitorAfter(old(store.monitor), symbol, o, inputs.now)
  {
    ghost var t2, n2, a2, q2, m0 := store.transfers, store.nextTransferId, store.assets, gw.requests, store.monitor;
    ghost var s3 := Plan.TransferFromFireblocks(symbol, borrowedBalance, inputs, gw.answer);
    o := Plan.AfterVault(borrowedBalance, before, s3);
    OutcomeCallsOf(o, before, s3);

    var end := TransferFromFireblocks(store, gw, symbol, borrowedBalance, inputs);
    EffectsCompose(t2, n2, a2, q2, store.transfers, store.nextTransferId, store.assets, gw.requests,
                   t0, id0, a0, r0, before, Plan.Calls(before), s3.payments, Plan.StepCalls(s3), inputs);
    if end.Raised? {
      MonitorAfterUpsert(m0, symbol, o, inputs.now,
                         Create(symbol, borrowedBalance, inputs.now, "Error", end.fault.message, "Depth"));
      store.AddToMonitor(symbol, borrowedBalance, "Error", end.fault.message, "Depth", inputs.now);
      return;
    }
    var paidAmount := if end.Done? then end.paid else 0.0;
    var isProcessed := end.Done?;
    var residual := borrowedBalance - paidAmount;
    if residual == 0.0 {
      store.ResetMonitor(symbol);
      return;
    }
    MonitorAfterUpsert(m0, symbol, o, inputs.now,
                       Create(symbol, residual, inputs.now, Plan.DepthReason(isProcessed), "", "Depth"));
    store.AddToMonitor(symbol, residual, Plan.DepthReason(isProcessed), "", "Depth", inputs.now);
  }

  /** The margin, main-book and custody balance lists as the extractor returns
      them; a missing list reads as empty. */
  function OrEmpty<T>(list: Option<seq<T>>): seq<T>
  {
    match list
    case None => []
    case Some(l) => l
  }

  /** The cycle plan of the first k + 1 positions extends that of the first k
      by the plan `o` of position k. */
  lemma CycleStep(ps: seq<ExchangeBalance>, k: nat, m: map<TableKey, TransfersMonitorEntity>, inputs: Plan.CycleInputs,
                  answer: GatewayCall -> CallResult, o: Plan.PositionOutcome)
    requires k < |ps|
    requires o == Plan.CheckPosition(ps[k], inputs, answer)
    ensures Plan.CyclePayments(ps[..k + 1], inputs, answer) == Plan.CyclePayments(ps[..k], inputs, answer) + o.payments
    ensures Plan.CycleCalls(ps[..k + 1], inputs, answer) == Plan.CycleCalls(ps[..k], inputs, answer) + Plan.OutcomeCalls(o)
    ensures Plan.CycleMonitor(m, ps[..k + 1], inputs, answer)
         == Plan.MonitorAfter(Plan.CycleMonitor(m, ps[..k], inputs, answer), ps[k].symbol, o, inputs.now)
  {
    assert ps[..k + 1][..k] == ps[..k];
  }

  /** One iteration of the loop of CheckExchangeBorrows: position k goes
      through the cascade, and the cycle's effects extend to the first k + 1
      positions. */
  method CheckNextPosition(store: ObserverStore, gw: SettlementGateway, ps: seq<ExchangeBalance>, k: nat,
                           inputs: Plan.CycleInputs, ghost t0: seq<ObserverTransfer>, ghost id0: int,
                           ghost a0: seq<ObserverAsset>, ghost r0: seq<GatewayCall>,
                           ghost m0: map<TableKey, TransfersMonitorEntity>)
    requires k < |ps|
    requires store.Valid()
    requires Effects(store.transfers, store.nextTransferId, store.assets, gw.requests, t0, id0, a0, r0,
                     Plan.CyclePayments(ps[..k], inputs, gw.answer), Plan.CycleCalls(ps[..k], inputs, gw.answer), inputs)
    requires store.monitor == Plan.CycleMonitor(m0, ps[..k], inputs, gw.answer)
    modifies store, gw
    ensures store.Valid()
    ensures Effects(store.transfers, store.nextTransferId, store.assets, gw.requests, t0, id0, a0, r0,
                    Plan.CyclePayments(ps[..k + 1], inputs, gw.answer), Plan.CycleCalls(ps[..k + 1], inputs, gw.answer),
                    inputs)
    ensures store.monitor == Plan.CycleMonitor(m0, ps[..k + 1], inputs, gw.answer)
  {
    ghost var t1, n1, a1, q1 := store.transfers, store.nextTransferId, store.assets, gw.requests;
    ghost var o := CheckPosition(store, gw, ps[k], inputs);
    EffectsCompose(t1, n1, a1, q1, store.transfers, store.nextTransferId, store.assets, gw.requests,
                   t0, id0, a0, r0,
                   Plan.CyclePayments(ps[..k], inputs, gw.answer), Plan.CycleCalls(ps[..k], inputs, gw.answer),
                   o.payments, Plan.OutcomeCalls(o), inputs);
    CycleStep(ps, k, m0, inputs, gw.answer, o);
  }

  /** CheckExchangeBorrows: one cycle. The asset table is read once, then
      every margin position with a non-zero debt goes through the cascade, in
      order; the ledger, locks, requests and monitor rows are those of the
      cycle plan. */
  method CheckExchangeBorrows(store: ObserverStore, gw: SettlementGateway,
                              marginBalances: Option<seq<ExchangeBalance>>,
                              mainBalances: Option<seq<ExchangeBalance>>,
                              fbBalances: Option<seq<FbBalance>>,
                              vaults: seq<VaultAccount>, now: int,
                              indexPrice: string -> real, render: real -> string)
    requires store.Valid()
    modifies store, gw
    ensures store.Valid()
    ensures var inputs := Plan.CycleInputs(old(store.assets), OrEmpty(mainBalances), OrEmpty(fbBalances), vaults, now,
                                           indexPrice, render);
      var ps := Plan.BorrowedPositions(marginBalances);
      && Effects(store.transfers, store.nextTransferId, store.assets, gw.requests,
                 old(store.transfers), old(store.nextTransferId), old(store.assets), old(gw.requests),
                 Plan.CyclePayments(ps, inputs, gw.answer), Plan.CycleCalls(ps, inputs, gw.answer), inputs)
      && store.monitor == Plan.CycleMonitor(old(store.monitor), ps, inputs, gw.answer)
  {
    ghost var answer := gw.answer;
    ghost var t0, id0, a0, r0 := store.transfers, store.nextTransferId, store.assets, gw.requests;
    var assets := store.GetAssets();
    var inputs := Plan.CycleInputs(assets, OrEmpty(mainBalances), OrEmpty(fbBalances), vaults, now, indexPrice, render);
    var borrowedPositions := Plan.BorrowedPositions(marginBalances);
    EffectsNone(t0, id0, a0, r0, inputs);
    var k := 0;
    while k < |borrowedPositions|
      invariant k <= |borrowedPositions|
      invariant store.Valid()
      invariant Effects(store.transfers, store.nextTransferId, store.assets, gw.requests, t0, id0, a0, r0,
                        Plan.CyclePayments(borrowedPositions[..k], inputs, answer),
                        Plan.CycleCalls(borrowedPositions[..k], inputs, answer), inputs)
      invariant store.monitor == Plan.CycleMonitor(old(store.monitor), borrowedPositions[..k], inputs, answer)
    {
      CheckNextPosition(store, gw, borrowedPositions, k, inputs, t0, id0, a0, r0, old(store.monitor));
      k := k + 1;
    }
    assert borrowedPositions[..k] == borrowedPositions;
  }
}
