/** What the repayment cascade guarantees, proved about the plans of
    BorrowPlan: the amounts of each step, the lock guard, the choice made by
    the full pass, the bounds kept by the partial pass, conservation of the
    debt per position, and what a cycle leaves in the monitor table. */
module BorrowProperties {
  import opened Common
  import opened Ordering
  import opened Domain
  import opened Gateway
  import opened MonitorEntity
  import opened JobHelper
  import opened BorrowPlan

  // ---------------------------------------------------------------------
  // Steps 1 and 2

  /** Self-repay moves min(Balance, Borrowed); nothing is sent when that is 0;
      a failed repay raises before any ledger row is written. */
  lemma PayFromMarginAccountFacts(p: ExchangeBalance, answer: GatewayCall -> CallResult)
    ensures var s := PayFromMarginAccount(p, answer);
      var amount := Min(p.balance, p.borrowed);
      && !s.end.Skipped?
      && (amount == 0.0 ==> s == StepResult([], Done(0.0)) && StepCalls(s) == [])
      && (amount != 0.0 ==> StepCalls(s) == [MakeRepay(p.symbol, amount, "Binance")])
      && (s.end.Done? ==> s.end.paid == amount && PaidSum(s.payments) == amount && ExchangePaid(s.payments) == amount)
      && (s.end.Raised? ==> s.payments == [] && s.end.fault.call == MakeRepay(p.symbol, amount, "Binance"))
      && (s.end.Raised? <==> amount != 0.0 && !answer(MakeRepay(p.symbol, amount, "Binance")).Success?)
      && (s.end.Raised? && answer(s.end.fault.call).ErrorResponse? ==>
            s.end.fault.message == RepayErrorPrefix + answer(s.end.fault.call).error)
      && (s.end.Raised? && answer(s.end.fault.call).Thrown? ==>
            s.end.fault.message == answer(s.end.fault.call).message)
  {
    var s := PayFromMarginAccount(p, answer);
    if s.payments != [] {
      assert s.payments[..0] == [];
    }
  }

  /** Main-to-margin moves min(residual, main balance of the symbol); nothing
      is sent when the symbol has no main balance or the amount is 0. */
  lemma TransferFromMainAccountFacts(symbol: string, borrowed: real, mains: seq<ExchangeBalance>,
                                     answer: GatewayCall -> CallResult)
    ensures var s := TransferFromMainAccount(symbol, borrowed, mains, answer);
      && !s.end.Skipped?
      && ((forall k :: 0 <= k < |mains| ==> mains[k].symbol != symbol) ==> s == StepResult([], Done(0.0)) && StepCalls(s) == [])
      && (s.payments != [] ==>
            (exists k :: (0 <= k < |mains| && mains[k].symbol == symbol
               && s.payments == [MainTransfer(symbol, borrowed, Min(borrowed, mains[k].balance))]
               && forall k' :: 0 <= k' < k ==> mains[k'].symbol != symbol)))
      && (s.end.Done? && s.end.paid == 0.0 ==> StepCalls(s) == [])
      && (s.end.Raised? ==> |StepCalls(s)| == 1 && StepCalls(s)[0] == s.end.fault.call
                             && !answer(s.end.fault.call).Success?)
      && (s.end.Raised? && answer(s.end.fault.call).ErrorResponse? ==>
            s.end.fault.message == MainErrorPrefix + answer(s.end.fault.call).error)
      && (s.end.Raised? && answer(s.end.fault.call).Thrown? ==>
            s.end.fault.message == answer(s.end.fault.call).message)
  {
    var s := TransferFromMainAccount(symbol, borrowed, mains, answer);
    if s.payments != [] {
      assert s.payments[..0] == [];
      var i := FindBalanceFrom(mains, symbol, 0).value;
      assert mains[i].symbol == symbol;
    }
  }

  // ---------------------------------------------------------------------
  // Step 3: the lock guard

  /** A locked candidate skips the vault step: no transfer, reported as not processed. */
  lemma LockedAssetSkipsVaults(symbol: string, borrowed: real, inputs: CycleInputs, answer: GatewayCall -> CallResult)
    ensures HasLockedAssets(inputs.assets, symbol, inputs.now) <==>
      TransferFromFireblocks(symbol, borrowed, inputs, answer) == StepResult([], Skipped)
    ensures TransferFromFireblocks(symbol, borrowed, inputs, answer).end.Skipped? ==>
      StepCalls(TransferFromFireblocks(symbol, borrowed, inputs, answer)) == []
  {
  }

  // ---------------------------------------------------------------------
  // Step 3: the full pass

  /** Every candidate maps to the symbol, and the candidates and vaults are in
      descending weight order. */
  lemma CandidateFacts(assets: seq<ObserverAsset>, symbol: string, vaults: seq<VaultAccount>)
    ensures forall k :: 0 <= k < |Candidates(assets, symbol)| ==>
      Candidates(assets, symbol)[k] in assets && Candidates(assets, symbol)[k].binanceSymbol == symbol
    ensures SortedDesc(Candidates(assets, symbol), AssetWeight)
    ensures SortedDesc(VaultOrder(vaults), VaultWeight)
    ensures multiset(VaultOrder(vaults)) == multiset(vaults)
  {
    var f := Filter(assets, (a: ObserverAsset) => a.binanceSymbol == symbol);
    var c := Candidates(assets, symbol);
    FilterFacts(assets, (a: ObserverAsset) => a.binanceSymbol == symbol);
    SortDescFacts(f, AssetWeight);
    SortDescFacts(vaults, VaultWeight);
    forall k | 0 <= k < |c| ensures c[k] in assets && c[k].binanceSymbol == symbol {
      assert c[k] in multiset(c);
      assert c[k] in multiset(f);
      assert c[k] in f;
    }
  }

  /** When the full pass finds a pair, at most one transfer is made, for
      exactly the residual, from the first pair in (asset, vault) order whose
      vault covers the residual above its floor with the residual reaching
      the asset's minimum; the step reports the residual as paid. */
  lemma FullPassFacts(symbol: string, borrowed: real, inputs: CycleInputs, answer: GatewayCall -> CallResult,
                      i: nat, j: nat)
    requires !HasLockedAssets(inputs.assets, symbol, inputs.now)
    requires FullPassFrom(Candidates(inputs.assets, symbol), VaultOrder(inputs.vaults), borrowed, inputs.fb, 0) == Some((i, j))
    ensures var cands := Candidates(inputs.assets, symbol);
      var vs := VaultOrder(inputs.vaults);
      var s := TransferFromFireblocks(symbol, borrowed, inputs, answer);
      && i < |cands| && j < |vs|
      && cands[i].binanceSymbol == symbol
      && Available(inputs.fb, cands[i], vs[j]) >= borrowed && borrowed >= cands[i].minTransferAmount
      && (forall i', j' :: 0 <= i' < i && 0 <= j' < |vs| ==> !FullQualifies(cands[i'], vs[j'], borrowed, inputs.fb))
      && (forall j' :: 0 <= j' < j ==> !FullQualifies(cands[i], vs[j'], borrowed, inputs.fb))
      && |StepCalls(s)| == 1
      && StepCalls(s)[0] == TransferFireblocksToBinance(cands[i].assetSymbol, cands[i].network, vs[j].vaultAccountId, borrowed)
      && (s.end.Done? ==> s.payments == [VaultTransfer(cands[i], vs[j], borrowed, borrowed)] && s.end.paid == borrowed)
      && (s.end.Raised? <==> !answer(StepCalls(s)[0]).Success?)
      && (s.end.Raised? ==> s.payments == [])
      && (s.end.Raised? && answer(StepCalls(s)[0]).ErrorResponse? ==>
            s.end.fault.message == VaultErrorPrefix + answer(StepCalls(s)[0]).error)
      && (s.end.Raised? && answer(StepCalls(s)[0]).Thrown? ==>
            s.end.fault.message == answer(StepCalls(s)[0]).message)
      && !s.end.Skipped?
  {
    CandidateFacts(inputs.assets, symbol, inputs.vaults);
    FullPassFromFacts(Candidates(inputs.assets, symbol), VaultOrder(inputs.vaults), borrowed, inputs.fb, 0);
  }

  /** Weighted ordering of the full pass: no qualifying pair has a heavier
      asset than the chosen one, and none on the chosen asset has a heavier vault. */
  lemma FullPassPrefersWeight(cands: seq<ObserverAsset>, vs: seq<VaultAccount>, residual: real, fb: seq<FbBalance>,
                              i: nat, j: nat, i': nat, j': nat)
    requires SortedDesc(cands, AssetWeight) && SortedDesc(vs, VaultWeight)
    requires FullPassFrom(cands, vs, residual, fb, 0) == Some((i, j))
    requires i' < |cands| && j' < |vs| && FullQualifies(cands[i'], vs[j'], residual, fb)
    ensures i <= i' && cands[i].weight >= cands[i'].weight
    ensures i == i' ==> j <= j' && vs[j].weight >= vs[j'].weight
  {
    FullPassFromFacts(cands, vs, residual, fb, 0);
    assert AssetWeight(cands[i]) == cands[i].weight && AssetWeight(cands[i']) == cands[i'].weight;
    if i == i' {
      assert VaultWeight(vs[j]) == vs[j].weight && VaultWeight(vs[j']) == vs[j'].weight;
    }
  }

  // ---------------------------------------------------------------------
  // Step 3: the partial pass

  /** A partial-pass movement: from a candidate asset and vault, for
      min(residual, balance above floor), at least the asset's minimum, made
      while the residual was not 0. */
  ghost predicate PartialMove(p: Payment, fb: seq<FbBalance>)
  {
    && p.VaultTransfer?
    && p.amount == Min(p.borrowed, Available(fb, p.asset, p.vault))
    && p.amount >= p.asset.minTransferAmount
    && p.borrowed != 0.0
  }

  /** The bookkeeping the partial pass keeps: the running total is the sum of
      the movements, the residual is the start minus that total, each movement
      quotes the residual left by the one before it, and once something moved
      the residual is never negative. */
  ghost predicate PassInvariant(r0: real, st: PassState, fb: seq<FbBalance>)
  {
    && st.total == PaidSum(st.payments)
    && st.residual == r0 - st.total
    && (forall k :: 0 <= k < |st.payments| ==> PartialMove(st.payments[k], fb))
    && (|st.payments| > 0 ==> st.payments[0].borrowed == r0)
    && (forall k :: 0 <= k < |st.payments| - 1 ==>
          st.payments[k + 1].borrowed == st.payments[k].borrowed - st.payments[k].amount)
    && (|st.payments| > 0 ==> st.residual == st.payments[|st.payments| - 1].borrowed - st.payments[|st.payments| - 1].amount)
    && (|st.payments| > 0 ==> st.residual >= 0.0)
  }

  lemma PassInvariantInitial(r0: real, fb: seq<FbBalance>)
    ensures PassInvariant(r0, InitialPass(r0), fb)
  {
  }

  lemma PartialPairKeeps(r0: real, a: ObserverAsset, v: VaultAccount, st: PassState, fb: seq<FbBalance>,
                         answer: GatewayCall -> CallResult)
    requires PassInvariant(r0, st, fb)
    ensures PassInvariant(r0, PartialPair(a, v, st, fb, answer), fb)
  {
    var st' := PartialPair(a, v, st, fb, answer);
    if st'.payments != st.payments {
      var pay := st'.payments[|st'.payments| - 1];
      assert st'.payments[..|st'.payments| - 1] == st.payments;
      assert pay.amount <= pay.borrowed;
      if |st.payments| > 0 {
        assert pay.borrowed == st.residual;
      }
    }
  }

  lemma {:induction false} PartialVaultsKeeps(r0: real, a: ObserverAsset, vs: seq<VaultAccount>, st: PassState,
                                              fb: seq<FbBalance>, answer: GatewayCall -> CallResult)
    requires PassInvariant(r0, st, fb)
    ensures PassInvariant(r0, PartialVaults(a, vs, st, fb, answer), fb)
    decreases |vs|
  {
    if vs != [] {
      PartialVaultsKeeps(r0, a, vs[..|vs| - 1], st, fb, answer);
      PartialPairKeeps(r0, a, vs[|vs| - 1], PartialVaults(a, vs[..|vs| - 1], st, fb, answer), fb, answer);
    }
  }

  lemma {:induction false} PartialAssetsKeeps(r0: real, cands: seq<ObserverAsset>, vs: seq<VaultAccount>, st: PassState,
                                              fb: seq<FbBalance>, answer: GatewayCall -> CallResult)
    requires PassInvariant(r0, st, fb)
    ensures PassInvariant(r0, PartialAssets(cands, vs, st, fb, answer), fb)
    decreases |cands|
  {
    if cands != [] {
      PartialAssetsKeeps(r0, cands[..|cands| - 1], vs, st, fb, answer);
      PartialVaultsKeeps(r0, cands[|cands| - 1], vs, PartialAssets(cands[..|cands| - 1], vs, st, fb, answer), fb, answer);
    }
  }

  /** A stopped pass stays as it is over any further vaults or assets. */
  lemma {:induction false} PartialVaultsStopped(a: ObserverAsset, vs: seq<VaultAccount>, st: PassState,
                                                fb: seq<FbBalance>, answer: GatewayCall -> CallResult)
    requires Stopped(st)
    ensures PartialVaults(a, vs, st, fb, answer) == st
    decreases |vs|
  {
    if vs != [] {
      PartialVaultsStopped(a, vs[..|vs| - 1], st, fb, answer);
    }
  }

  lemma {:induction false} PartialAssetsStopped(cands: seq<ObserverAsset>, vs: seq<VaultAccount>, st: PassState,
                                                fb: seq<FbBalance>, answer: GatewayCall -> CallResult)
    requires Stopped(st)
    ensures PartialAssets(cands, vs, st, fb, answer) == st
    decreases |cands|
  {
    if cands != [] {
      PartialAssetsStopped(cands[..|cands| - 1], vs, st, fb, answer);
      PartialVaultsStopped(cands[|cands| - 1], vs, st, fb, answer);
    }
  }

  /** Breaking out of the vault loop once the pass stopped gives the same state
      as running it to the end. */
  lemma {:induction false} PartialVaultsStopsAt(a: ObserverAsset, vs: seq<VaultAccount>, st: PassState, j: nat,
                                                fb: seq<FbBalance>, answer: GatewayCall -> CallResult)
    requires j <= |vs| && Stopped(PartialVaults(a, vs[..j], st, fb, answer))
    ensures PartialVaults(a, vs, st, fb, answer) == PartialVaults(a, vs[..j], st, fb, answer)
    decreases |vs|
  {
    if j < |vs| {
      var init := vs[..|vs| - 1];
      assert init[..j] == vs[..j];
      PartialVaultsStopsAt(a, init, st, j, fb, answer);
    } else {
      assert vs[..j] == vs;
    }
  }

  lemma {:induction false} PartialAssetsStopsAt(cands: seq<ObserverAsset>, vs: seq<VaultAccount>, st: PassState, i: nat,
                                                fb: seq<FbBalance>, answer: GatewayCall -> CallResult)
    requires i <= |cands| && Stopped(PartialAssets(cands[..i], vs, st, fb, answer))
    ensures PartialAssets(cands, vs, st, fb, answer) == PartialAssets(cands[..i], vs, st, fb, answer)
    decreases |cands|
  {
    if i < |cands| {
      var init := cands[..|cands| - 1];
      assert init[..i] == cands[..i];
      PartialAssetsStopsAt(init, vs, st, i, fb, answer);
      PartialVaultsStopped(cands[|cands| - 1], vs, PartialAssets(init, vs, st, fb, answer), fb, answer);
    } else {
      assert cands[..i] == cands;
    }
  }

  /** The vault loop of one asset only appends movements from that asset and
      from the given vaults. */
  lemma {:induction false} PartialVaultsAppends(a: ObserverAsset, vs: seq<VaultAccount>, st: PassState,
                                                fb: seq<FbBalance>, answer: GatewayCall -> CallResult)
    ensures var r := PartialVaults(a, vs, st, fb, answer);
      && |r.payments| >= |st.payments| && r.payments[..|st.payments|] == st.payments
      && forall k :: |st.payments| <= k < |r.payments| ==>
           r.payments[k].VaultTransfer? && r.payments[k].asset == a && r.payments[k].vault in vs
    decreases |vs|
  {
    if vs != [] {
      var init := vs[..|vs| - 1];
      PartialVaultsAppends(a, init, st, fb, answer);
      var mid := PartialVaults(a, init, st, fb, answer);
      var r := PartialPair(a, vs[|vs| - 1], mid, fb, answer);
      assert forall v :: v in init ==> v in vs;
      if r.payments != mid.payments {
        assert r.payments == mid.payments + [r.payments[|r.payments| - 1]];
        assert r.payments[..|mid.payments|] == mid.payments;
        assert mid.payments[..|st.payments|] == st.payments;
      }
    } else {
      assert st.payments[..|st.payments|] == st.payments;
    }
  }

  /** Vault movements drawn from `cands` and `vs`, heavier assets first. */
  ghost predicate ByWeight(ps: seq<Payment>, cands: seq<ObserverAsset>, vs: seq<VaultAccount>)
  {
    && (forall k :: 0 <= k < |ps| ==> ps[k].VaultTransfer? && ps[k].asset in cands && ps[k].vault in vs)
    && (forall k, k' :: 0 <= k < k' < |ps| ==> ps[k].asset.weight >= ps[k'].asset.weight)
  }

  /** With candidates in descending weight, the partial pass moves funds from
      heavier assets before lighter ones, and only from candidates. */
  lemma {:induction false} PartialAssetsByWeight(cands: seq<ObserverAsset>, vs: seq<VaultAccount>, r0: real,
                                                 fb: seq<FbBalance>, answer: GatewayCall -> CallResult)
    requires SortedDesc(cands, AssetWeight)
    ensures ByWeight(PartialAssets(cands, vs, InitialPass(r0), fb, answer).payments, cands, vs)
    decreases |cands|
  {
    if cands != [] {
      var init := cands[..|cands| - 1];
      var last := cands[|cands| - 1];
      assert SortedDesc(init, AssetWeight);
      PartialAssetsByWeight(init, vs, r0, fb, answer);
      var midSt := PartialAssets(init, vs, InitialPass(r0), fb, answer);
      var mid := midSt.payments;
      assert ByWeight(mid, init, vs);
      PartialVaultsAppends(last, vs, midSt, fb, answer);
      var ps := PartialVaults(last, vs, midSt, fb, answer).payments;
      assert ps == PartialAssets(cands, vs, InitialPass(r0), fb, answer).payments;
      assert forall k :: 0 <= k < |mid| ==> ps[k] == mid[k] by {
        forall k | 0 <= k < |mid| ensures ps[k] == mid[k] {
          assert ps[..|mid|][k] == ps[k];
        }
      }
      forall k | 0 <= k < |mid| ensures mid[k].asset.weight >= last.weight {
        var t := mid[k];
        assert t.VaultTransfer? && t.asset in init;
        var idx :| 0 <= idx < |init| && init[idx] == t.asset;
        assert AssetWeight(cands[idx]) >= AssetWeight(cands[|cands| - 1]);
      }
      forall k | 0 <= k < |ps| ensures ps[k].VaultTransfer? && ps[k].asset in cands && ps[k].vault in vs {
        if k < |mid| {
          assert ps[k] == mid[k] && mid[k].asset in init;
        }
      }
      forall k, k' | 0 <= k < k' < |ps| ensures ps[k].asset.weight >= ps[k'].asset.weight {
        if k' < |mid| {
          assert ps[k] == mid[k] && ps[k'] == mid[k'];
        } else if k < |mid| {
          assert ps[k] == mid[k] && ps[k'].asset == last;
        }
      }
    }
  }

  /** The partial pass: every movement is min(residual, balance above floor),
      reaches the asset's minimum, never exceeds the residual it was made
      against and never exceeds the vault's balance above its floor; no
      movement is made once the residual is 0; moves follow asset weight; the
      residual left is the start minus the total, and is never negative when
      the start was not. */
  lemma PartialPassFacts(cands: seq<ObserverAsset>, vs: seq<VaultAccount>, r0: real, fb: seq<FbBalance>,
                         answer: GatewayCall -> CallResult)
    requires SortedDesc(cands, AssetWeight)
    ensures var st := PartialAssets(cands, vs, InitialPass(r0), fb, answer);
      && st.total == PaidSum(st.payments)
      && st.residual == r0 - st.total
      && (forall k :: 0 <= k < |st.payments| ==>
            var p := st.payments[k];
            && p.VaultTransfer? && p.asset in cands && p.vault in vs
            && p.amount == Min(p.borrowed, Available(fb, p.asset, p.vault))
            && p.amount >= p.asset.minTransferAmount
            && p.amount <= p.borrowed && p.amount <= Available(fb, p.asset, p.vault)
            && p.borrowed != 0.0)
      && (|st.payments| > 0 ==> st.payments[0].borrowed == r0)
      && (forall k :: 0 <= k < |st.payments| - 1 ==>
            st.payments[k + 1].borrowed == st.payments[k].borrowed - st.payments[k].amount)
      && (forall k, k' :: 0 <= k < k' < |st.payments| ==> st.payments[k].asset.weight >= st.payments[k'].asset.weight)
      && (r0 >= 0.0 ==> st.residual >= 0.0)
  {
    PassInvariantInitial(r0, fb);
    PartialAssetsKeeps(r0, cands, vs, InitialPass(r0), fb, answer);
    PartialAssetsByWeight(cands, vs, r0, fb, answer);
  }

  // ---------------------------------------------------------------------
  // Step 3 as a whole

  lemma {:induction false} AllVaultPaid(ps: seq<Payment>)
    requires forall k :: 0 <= k < |ps| ==> ps[k].VaultTransfer?
    ensures ExchangePaid(ps) == 0.0 && VaultPaid(ps) == PaidSum(ps)
    decreases |ps|
  {
    if ps != [] {
      AllVaultPaid(ps[..|ps| - 1]);
    }
  }

  /** The vault step only moves custody funds, and when it completes it
      reports as paid exactly the sum it moved; when it is skipped it moves nothing. */
  lemma VaultStepAccounting(symbol: string, borrowed: real, inputs: CycleInputs, answer: GatewayCall -> CallResult)
    ensures var s := TransferFromFireblocks(symbol, borrowed, inputs, answer);
      && (forall k :: 0 <= k < |s.payments| ==> s.payments[k].VaultTransfer?)
      && ExchangePaid(s.payments) == 0.0
      && (s.end.Done? ==> s.end.paid == PaidSum(s.payments))
      && (s.end.Skipped? ==> s.payments == [])
  {
    var s := TransferFromFireblocks(symbol, borrowed, inputs, answer);
    if !HasLockedAssets(inputs.assets, symbol, inputs.now) {
      var cands := Candidates(inputs.assets, symbol);
      var vs := VaultOrder(inputs.vaults);
      if FullPassFrom(cands, vs, borrowed, inputs.fb, 0).None? {
        var st := PartialAssets(cands, vs, InitialPass(borrowed), inputs.fb, answer);
        assert s == StepResult(st.payments, if st.fault.Some? then Raised(st.fault.value) else Done(st.total));
        PassInvariantInitial(borrowed, inputs.fb);
        PartialAssetsKeeps(borrowed, cands, vs, InitialPass(borrowed), inputs.fb, answer);
      } else if s.payments != [] {
        assert s.payments[..0] == [];
      }
    }
    AllVaultPaid(s.payments);
  }

  // ---------------------------------------------------------------------
  // One position

  /** The books a position keeps from outcome `o` on: without an exception,
      the debt `r` owed after the movements `before` equals what was moved
      from then on plus the residual; with one, the same holds for the
      exchange-side movements; the verdict matches the residual, and the
      custody step was skipped exactly when the verdict is "payment in
      process". */
  ghost predicate StageBooks(before: seq<Payment>, r: real, o: PositionOutcome, locked: bool)
  {
    && (!o.verdict.Failed? ==> PaidSum(before) + r == PaidSum(o.payments) + o.residual)
    && (o.verdict.Failed? ==> ExchangePaid(before) + r == ExchangePaid(o.payments) + o.residual)
    && (o.verdict.Resolved? ==> o.residual == 0.0)
    && (o.verdict.Unresolved? ==> o.residual != 0.0)
    && (o.verdict == Unresolved(false) <==> (o.verdict.Unresolved? && locked))
  }

  lemma AfterVaultBooks(r2: real, before: seq<Payment>, s3: StepResult, locked: bool)
    requires forall k :: 0 <= k < |s3.payments| ==> s3.payments[k].VaultTransfer?
    requires ExchangePaid(s3.payments) == 0.0
    requires s3.end.Done? ==> s3.end.paid == PaidSum(s3.payments)
    requires s3.end.Skipped? ==> s3.payments == []
    requires s3.end.Skipped? <==> locked
    ensures StageBooks(before, r2, AfterVault(r2, before, s3), locked)
  {
    PaidSumAppend(before, s3.payments);
  }

  /** The vault stage keeps the books. */
  lemma VaultStageAccounting(symbol: string, r2: real, before: seq<Payment>, inputs: CycleInputs,
                             answer: GatewayCall -> CallResult)
    ensures StageBooks(before, r2, VaultStage(symbol, r2, before, inputs, answer),
                       HasLockedAssets(inputs.assets, symbol, inputs.now))
  {
    var s3 := TransferFromFireblocks(symbol, r2, inputs, answer);
    VaultStepAccounting(symbol, r2, inputs, answer);
    LockedAssetSkipsVaults(symbol, r2, inputs, answer);
    AfterVaultBooks(r2, before, s3, HasLockedAssets(inputs.assets, symbol, inputs.now));
  }

  lemma MainStepAccounting(symbol: string, borrowed: real, mains: seq<ExchangeBalance>,
                           answer: GatewayCall -> CallResult)
    ensures var s := TransferFromMainAccount(symbol, borrowed, mains, answer);
      && !s.end.Skipped?
      && (s.end.Done? ==> PaidSum(s.payments) == s.end.paid && ExchangePaid(s.payments) == s.end.paid)
      && (s.end.Raised? ==> s.payments == [])
  {
    var s := TransferFromMainAccount(symbol, borrowed, mains, answer);
    if s.payments != [] {
      assert s.payments[..0] == [];
    }
  }

  /** Books kept after the movements `mid`, which paid `r1 - r2` on the
      exchange side, are books kept before them. */
  lemma StageBooksShift(before: seq<Payment>, mid: seq<Payment>, r1: real, r2: real, o: PositionOutcome, locked: bool)
    requires StageBooks(before + mid, r2, o, locked)
    requires PaidSum(mid) == r1 - r2 && ExchangePaid(mid) == r1 - r2
    ensures StageBooks(before, r1, o, locked)
  {
    PaidSumAppend(before, mid);
  }

  /** The main-book stage keeps the books. */
  lemma MainStageAccounting(symbol: string, r1: real, before: seq<Payment>, inputs: CycleInputs,
                            answer: GatewayCall -> CallResult)
    ensures StageBooks(before, r1, MainStage(symbol, r1, before, inputs, answer),
                       HasLockedAssets(inputs.assets, symbol, inputs.now))
  {
    var s2 := TransferFromMainAccount(symbol, r1, inputs.mains, answer);
    MainStepAccounting(symbol, r1, inputs.mains, answer);
    PaidSumAppend(before, s2.payments);
    if s2.end.Done? && r1 - s2.end.paid != 0.0 {
      var r2 := r1 - s2.end.paid;
      MainStageContinues(symbol, r1, r2, before, inputs, answer);
      VaultStageAccounting(symbol, r2, before + s2.payments, inputs, answer);
      StageBooksShift(before, s2.payments, r1, r2, VaultStage(symbol, r2, before + s2.payments, inputs, answer),
                      HasLockedAssets(inputs.assets, symbol, inputs.now));
    }
  }

  /** Conservation for a position: on every path without an exception, the
      debt equals what was moved plus the residual that is monitored; the
      position is cleared exactly when that residual is 0; an unresolved
      position names why. When an exception ends the position, the residual
      it records leaves out what the vault step had already moved. */
  lemma PositionConservation(p: ExchangeBalance, inputs: CycleInputs, answer: GatewayCall -> CallResult)
    ensures var o := CheckPosition(p, inputs, answer);
      && (!o.verdict.Failed? ==> p.borrowed == PaidSum(o.payments) + o.residual)
      && (o.verdict.Failed? ==> p.borrowed == ExchangePaid(o.payments) + o.residual)
      && (o.verdict.Resolved? ==> o.residual == 0.0)
      && (o.verdict.Unresolved? ==> o.residual != 0.0)
      && (o.verdict == Unresolved(false) <==> (o.verdict.Unresolved? && HasLockedAssets(inputs.assets, p.symbol, inputs.now)))
  {
    var s1 := PayFromMarginAccount(p, answer);
    PayFromMarginAccountFacts(p, answer);
    if s1.end.Done? && p.borrowed - s1.end.paid != 0.0 {
      var r1 := p.borrowed - s1.end.paid;
      CheckPositionContinues(p, r1, inputs, answer);
      MainStageAccounting(p.symbol, r1, s1.payments, inputs, answer);
      assert [] + s1.payments == s1.payments;
      StageBooksShift([], s1.payments, p.borrowed, r1, MainStage(p.symbol, r1, s1.payments, inputs, answer),
                      HasLockedAssets(inputs.assets, p.symbol, inputs.now));
    }
    assert StageBooks([], p.borrowed, CheckPosition(p, inputs, answer), HasLockedAssets(inputs.assets, p.symbol, inputs.now));
  }

  /** A debt fully covered by the position's own margin balance is repaid in
      one movement, the only request sent, and the position is cleared. */
  lemma MarginBalanceCoversDebt(p: ExchangeBalance, inputs: CycleInputs, answer: GatewayCall -> CallResult)
    requires p.borrowed != 0.0 && p.balance >= p.borrowed
    requires answer(MakeRepay(p.symbol, p.borrowed, "Binance")) == Success
    ensures CheckPosition(p, inputs, answer) == PositionOutcome([MarginRepay(p.symbol, p.borrowed, p.borrowed)], 0.0, Resolved)
    ensures OutcomeCalls(CheckPosition(p, inputs, answer)) == [MakeRepay(p.symbol, p.borrowed, "Binance")]
  {
  }

  // ---------------------------------------------------------------------
  // The cycle

  /** A position's monitor update keeps every row under its own key. */
  lemma MonitorAfterKeyed(m: map<TableKey, TransfersMonitorEntity>, symbol: string, o: PositionOutcome, now: int)
    requires MonitorKeyed(m)
    ensures MonitorKeyed(MonitorAfter(m, symbol, o, now))
  {
    match o.verdict
    case Resolved => ResetKeepsKeyed(m, symbol);
    case Unresolved(isProcessed) => UpsertKeepsKeyed(m, symbol, o.residual, now, DepthReason(isProcessed), "", "Depth");
    case Failed(f) => UpsertKeepsKeyed(m, symbol, o.residual, now, "Error", f.message, "Depth");
  }

  /** So does a whole cycle: the table keeps one row per symbol. */
  lemma {:induction false} CycleMonitorKeyed(m: map<TableKey, TransfersMonitorEntity>, ps: seq<ExchangeBalance>,
                                             inputs: CycleInputs, answer: GatewayCall -> CallResult)
    requires MonitorKeyed(m)
    ensures MonitorKeyed(CycleMonitor(m, ps, inputs, answer))
    decreases |ps|
  {
    if ps != [] {
      CycleMonitorKeyed(m, ps[..|ps| - 1], inputs, answer);
      MonitorAfterKeyed(CycleMonitor(m, ps[..|ps| - 1], inputs, answer), ps[|ps| - 1].symbol,
                        CheckPosition(ps[|ps| - 1], inputs, answer), inputs.now);
    }
  }

  /** Rows of symbols that no position carries are left as they were. */
  lemma {:induction false} CycleMonitorOthers(m: map<TableKey, TransfersMonitorEntity>, ps: seq<ExchangeBalance>,
                                              inputs: CycleInputs, answer: GatewayCall -> CallResult, s: string)
    requires forall k :: 0 <= k < |ps| ==> ps[k].symbol != s
    ensures var cm := CycleMonitor(m, ps, inputs, answer);
      (KeyOf(s) in cm <==> KeyOf(s) in m) && (KeyOf(s) in m ==> cm[KeyOf(s)] == m[KeyOf(s)])
    decreases |ps|
  {
    if ps != [] {
      CycleMonitorOthers(m, ps[..|ps| - 1], inputs, answer, s);
      KeyOfInjective(s, ps[|ps| - 1].symbol);
    }
  }

  /** The row of a symbol after a later position with another symbol is as it was. */
  lemma {:induction false} CycleMonitorKeepsRow(m: map<TableKey, TransfersMonitorEntity>, ps: seq<ExchangeBalance>,
                                                inputs: CycleInputs, answer: GatewayCall -> CallResult, k: nat)
    requires k < |ps| && forall k' :: k < k' < |ps| ==> ps[k'].symbol != ps[k].symbol
    ensures var cm := CycleMonitor(m, ps, inputs, answer);
      var ck := CycleMonitor(m, ps[..k + 1], inputs, answer);
      var key := KeyOf(ps[k].symbol);
      (key in cm <==> key in ck) && (key in cm ==> cm[key] == ck[key])
    decreases |ps|
  {
    if k < |ps| - 1 {
      var init := ps[..|ps| - 1];
      assert init[..k + 1] == ps[..k + 1];
      CycleMonitorKeepsRow(m, init, inputs, answer, k);
      KeyOfInjective(ps[k].symbol, ps[|ps| - 1].symbol);
    } else {
      assert ps[..k + 1] == ps;
    }
  }

  /** The row `MonitorAfter` leaves for the position's own symbol. */
  lemma MonitorAfterRow(m: map<TableKey, TransfersMonitorEntity>, symbol: string, o: PositionOutcome, now: int)
    ensures var cm := MonitorAfter(m, symbol, o, now);
      var key := KeyOf(symbol);
      && (o.verdict.Resolved? <==> key !in cm)
      && (key in cm ==> cm[key].amount == o.residual && cm[key].asset == symbol && cm[key].lastTs == now)
      && (key in cm && o.verdict.Unresolved? ==> cm[key].reason == DepthReason(o.verdict.isProcessed) && cm[key].comment == "")
      && (key in cm && o.verdict.Failed? ==> cm[key].reason == "Error" && cm[key].comment == o.verdict.fault.message)
  {
  }

  /** The row a position leaves when no later position carries its symbol:
      none when its debt was cleared, otherwise a row with its residual and the
      reason for it; together with conservation, the debt equals the amount
      moved plus the monitored amount. */
  lemma CycleMonitorRow(m: map<TableKey, TransfersMonitorEntity>, ps: seq<ExchangeBalance>,
                                           inputs: CycleInputs, answer: GatewayCall -> CallResult, k: nat)
    requires k < |ps| && forall k' :: k < k' < |ps| ==> ps[k'].symbol != ps[k].symbol
    ensures var o := CheckPosition(ps[k], inputs, answer);
      var cm := CycleMonitor(m, ps, inputs, answer);
      var key := KeyOf(ps[k].symbol);
      && (o.verdict.Resolved? <==> key !in cm)
      && (key in cm ==> cm[key].amount == o.residual && cm[key].asset == ps[k].symbol && cm[key].lastTs == inputs.now)
      && (key in cm && o.verdict.Unresolved? ==> cm[key].reason == DepthReason(o.verdict.isProcessed) && cm[key].comment == "")
      && (key in cm && o.verdict.Failed? ==> cm[key].reason == "Error" && cm[key].comment == o.verdict.fault.message)
      && (!o.verdict.Failed? ==> ps[k].borrowed == PaidSum(o.payments) + (if key in cm then cm[key].amount else 0.0))
  {
    var o := CheckPosition(ps[k], inputs, answer);
    PositionConservation(ps[k], inputs, answer);
    CycleMonitorKeepsRow(m, ps, inputs, answer, k);
    assert ps[..k + 1][..k] == ps[..k];
    MonitorAfterRow(CycleMonitor(m, ps[..k], inputs, answer), ps[k].symbol, o, inputs.now);
  }
}
